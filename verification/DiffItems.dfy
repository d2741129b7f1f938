/** Reading a diff of changelogs: the list items it adds and removes, each with its file, its hunk, and
    for an added one its line in the new file. */
module DiffItems {
  import opened Options
  import opened DecimalText
  import opened ChangelogText

  datatype Hunk = Hunk(path: string, index: int)

  datatype AddedItem = AddedItem(path: string, lineNumber: nat, text: string, hunk: Hunk)

  datatype RemovedItem = RemovedItem(path: string, text: string, hunk: Hunk)

  // ------------------------------------------------------------ hunk headers

  /** How many digits a text begins with. */
  function DigitCount(s: string): (n: nat)
    ensures n <= |s|
  {
    if s != "" && '0' <= s[0] <= '9' then 1 + DigitCount(s[1..]) else 0
  }

  /** Past a number and perhaps a comma with a second one; None if there is no number. */
  function PastRange(s: string): Option<string> {
    var n := DigitCount(s);
    if n == 0 then None
    else
      var rest := s[n..];
      if rest != "" && rest[0] == ',' && DigitCount(rest[1..]) > 0 then Some(rest[1..][DigitCount(rest[1..])..])
      else Some(rest)
  }

  /** The first line of the new side, from a header "@@ -a,b +c,d @@". */
  function HunkStart(line: string): Option<nat> {
    if !("@@ -" <= line) then None
    else
      match PastRange(line[4..])
      case None => None
      case Some(gap) =>
        if !(" +" <= gap) then None
        else
          match PastRange(gap[2..])
          case None => None
          case Some(end) =>
            if " @@" <= end then DigitsValue(gap[2..][..DigitCount(gap[2..])]) else None
  }

  // ------------------------------------------------------------ line by line

  datatype DiffState = DiffState(path: string, newLine: nat, hunkIndex: int, added: seq<AddedItem>,
                                 removed: seq<RemovedItem>)

  const BEGIN := DiffState("", 0, -1, [], [])

  function AfterLine(st: DiffState, line: string): DiffState {
    if "+++ b/" <= line then st.(path := line[6..])
    else if "diff --git " <= line then st.(path := "", hunkIndex := -1)
    else
      match HunkStart(line)
      case Some(n) => st.(newLine := n, hunkIndex := st.hunkIndex + 1)
      case None => if st.path == "" || st.hunkIndex < 0 || line == "" then st else AfterHunkLine(st, line)
  }

  /** A line inside a hunk. */
  function AfterHunkLine(st: DiffState, line: string): DiffState
    requires line != ""
  {
    var text, hunk := line[1..], Hunk(st.path, st.hunkIndex);
    if line[0] == '+' then
      st.(newLine := st.newLine + 1,
          added := st.added + if IsListItem(text) then [AddedItem(st.path, st.newLine, text, hunk)] else [])
    else if line[0] == '-' then
      st.(removed := st.removed + if IsListItem(text) then [RemovedItem(st.path, text, hunk)] else [])
    else if line[0] == ' ' then st.(newLine := st.newLine + 1)
    else st
  }

  function Scan(lines: seq<string>): DiffState {
    if lines == [] then BEGIN else AfterLine(Scan(lines[..|lines| - 1]), lines[|lines| - 1])
  }

  method ScanDiff(diffText: string) returns (added: seq<AddedItem>, removed: seq<RemovedItem>)
    ensures var st := Scan(Split(ReplaceCrLf(diffText)));
      added == st.added && removed == st.removed
  {
    hide HunkStart, IsListItem;
    added, removed := [], [];
    var currentPath, newLine, hunkIndex := "", 0, -1;
    var lines := Split(ReplaceCrLf(diffText));
    for i := 0 to |lines|
      invariant newLine >= 0
      invariant Scan(lines[..i]) == DiffState(currentPath, newLine, hunkIndex, added, removed)
    {
      var rawLine := lines[i];
      assert lines[..i + 1][..i] == lines[..i];
      if "+++ b/" <= rawLine {
        currentPath := rawLine[6..];
        continue;
      }
      if "diff --git " <= rawLine {
        currentPath := "";
        hunkIndex := -1;
        continue;
      }
      var start := HunkStart(rawLine);
      if start.Some? {
        newLine := start.value;
        hunkIndex := hunkIndex + 1;
        continue;
      }
      if currentPath == "" || hunkIndex < 0 || rawLine == "" {
        continue;
      }
      var marker, text := rawLine[0], rawLine[1..];
      var hunk := Hunk(currentPath, hunkIndex);
      if marker == '+' {
        if IsListItem(text) {
          added := added + [AddedItem(currentPath, newLine, text, hunk)];
        }
        newLine := newLine + 1;
        continue;
      }
      if marker == '-' {
        if IsListItem(text) {
          removed := removed + [RemovedItem(currentPath, text, hunk)];
        }
        continue;
      }
      if marker == ' ' {
        newLine := newLine + 1;
      }
    }
    assert lines[..|lines|] == lines;
  }

  // ------------------------------------------------------------ line numbers

  /** A line that can only be part of a hunk's body. */
  ghost predicate BodyOfHunk(line: string) {
    && line != "" && line[0] in {'+', '-', ' '}
    && !("+++ b/" <= line) && !("diff --git " <= line) && HunkStart(line) == None
  }

  /** How many of some lines the new file has. */
  function NewLines(lines: seq<string>): nat {
    if lines == [] then 0
    else
      var front, last := lines[..|lines| - 1], lines[|lines| - 1];
      NewLines(front) + if last != "" && last[0] in {'+', ' '} then 1 else 0
  }

  /** The items a hunk's body adds: its added lines that begin a list item, each numbered by the lines of
      the new file before it. */
  function AddedIn(body: seq<string>, start: nat, hunk: Hunk): seq<AddedItem> {
    if body == [] then []
    else
      var front, last := body[..|body| - 1], body[|body| - 1];
      AddedIn(front, start, hunk)
      + if last != "" && last[0] == '+' && IsListItem(last[1..])
        then [AddedItem(hunk.path, start + NewLines(front), last[1..], hunk)] else []
  }

  function RemovedIn(body: seq<string>, hunk: Hunk): seq<RemovedItem> {
    if body == [] then []
    else
      var front, last := body[..|body| - 1], body[|body| - 1];
      RemovedIn(front, hunk)
      + if last != "" && last[0] == '-' && IsListItem(last[1..]) then [RemovedItem(hunk.path, last[1..], hunk)] else []
  }

  /** What reading a whole hunk adds to what was read before it. */
  lemma {:induction false} HunkIsRead(before: seq<string>, header: string, body: seq<string>)
    requires HunkStart(header).Some? && !("+++ b/" <= header) && !("diff --git " <= header)
    requires Scan(before).path != "" && Scan(before).hunkIndex >= -1
    requires forall i :: 0 <= i < |body| ==> BodyOfHunk(body[i])
    ensures var st, start := Scan(before), HunkStart(header).value;
      var hunk := Hunk(st.path, st.hunkIndex + 1);
      Scan(before + [header] + body)
        == DiffState(st.path, start + NewLines(body), hunk.index,
                     st.added + AddedIn(body, start, hunk), st.removed + RemovedIn(body, hunk))
    decreases |body|
  {
    hide *;
    if body == [] {
      HeaderIsRead(before, header);
      assert before + [header] + body == before + [header];
      NothingIn(HunkStart(header).value, Hunk(Scan(before).path, Scan(before).hunkIndex + 1));
    } else {
      var front, last := body[..|body| - 1], body[|body| - 1];
      var read := before + [header] + front;
      assert body == front + [last] && before + [header] + body == read + [last];
      HunkIsRead(before, header, front);
      ScanStep(read, last);
      BodyLineIsRead(Scan(read), last);
      var st, start := Scan(before), HunkStart(header).value;
      LineOfBody(Scan(read), last, st.added, st.removed, front, start);
    }
  }

  lemma {:induction false} NothingIn(start: nat, hunk: Hunk)
    ensures NewLines([]) == 0 && AddedIn([], start, hunk) == [] && RemovedIn([], hunk) == []
  {
  }

  lemma {:induction false} ScanStep(lines: seq<string>, line: string)
    ensures Scan(lines + [line]) == AfterLine(Scan(lines), line)
  {
    hide AfterLine;
    assert (lines + [line])[..|lines|] == lines;
  }

  /** One more line of a hunk's body. */
  lemma {:induction false} LineOfBody(st: DiffState, line: string, added: seq<AddedItem>, removed: seq<RemovedItem>,
                                      front: seq<string>, start: nat)
    requires line != "" && line[0] in {'+', '-', ' '}
    requires var hunk := Hunk(st.path, st.hunkIndex);
      && st.newLine == start + NewLines(front)
      && st.added == added + AddedIn(front, start, hunk) && st.removed == removed + RemovedIn(front, hunk)
    ensures var hunk, body := Hunk(st.path, st.hunkIndex), front + [line];
      AfterHunkLine(st, line) == DiffState(st.path, start + NewLines(body), st.hunkIndex,
                                           added + AddedIn(body, start, hunk), removed + RemovedIn(body, hunk))
  {
    hide IsListItem;
    var body := front + [line];
    assert body[..|body| - 1] == front && body[|body| - 1] == line;
  }

  lemma {:induction false} HeaderIsRead(before: seq<string>, header: string)
    requires HunkStart(header).Some? && !("+++ b/" <= header) && !("diff --git " <= header)
    ensures var st := Scan(before);
      Scan(before + [header]) == st.(newLine := HunkStart(header).value, hunkIndex := st.hunkIndex + 1)
  {
    hide HunkStart, IsListItem;
    var lines := before + [header];
    assert lines[..|lines| - 1] == before && lines[|lines| - 1] == header;
  }

  lemma {:induction false} BodyLineIsRead(st: DiffState, line: string)
    requires BodyOfHunk(line) && st.path != "" && st.hunkIndex >= 0
    ensures AfterLine(st, line) == AfterHunkLine(st, line) && line != "" && line[0] in {'+', '-', ' '}
  {
    hide HunkStart, IsListItem;
  }

  // ------------------------------------------------------------ line numbers rise within a hunk

  function CurrentHunk(st: DiffState): Hunk {
    Hunk(st.path, st.hunkIndex)
  }

  /** The additions of a hunk are numbered upwards. */
  ghost predicate RisesPerHunk(added: seq<AddedItem>) {
    forall i, j :: 0 <= i < j < |added| && added[i].hunk == added[j].hunk ==> added[i].lineNumber < added[j].lineNumber
  }

  /** A line that leads to another hunk leads to one without additions so far: no hunk of a file is
      opened twice, as in any diff that lists each file once. */
  ghost predicate OpensFresh(before: DiffState, after: DiffState) {
    CurrentHunk(before) != CurrentHunk(after) ==>
      forall i :: 0 <= i < |before.added| ==> before.added[i].hunk != CurrentHunk(after)
  }

  ghost predicate HunksOnce(lines: seq<string>) {
    forall i :: 0 <= i < |lines| ==> OpensFresh(Scan(lines[..i]), Scan(lines[..i + 1]))
  }

  ghost predicate Rising(st: DiffState) {
    && RisesPerHunk(st.added)
    && forall i :: 0 <= i < |st.added| && st.added[i].hunk == CurrentHunk(st) ==> st.added[i].lineNumber < st.newLine
  }

  lemma {:induction false} RisesOneMore(st: DiffState, line: string)
    requires Rising(st) && OpensFresh(st, AfterLine(st, line))
    ensures Rising(AfterLine(st, line))
  {
    hide HunkStart, IsListItem;
  }

  lemma {:induction false} LinesRise(lines: seq<string>)
    requires HunksOnce(lines)
    ensures Rising(Scan(lines))
    decreases |lines|
  {
    hide AfterLine, Rising, OpensFresh;
    if lines == [] {
      NothingRises();
    } else {
      var front := lines[..|lines| - 1];
      forall i | 0 <= i < |front|
        ensures OpensFresh(Scan(front[..i]), Scan(front[..i + 1]))
      {
        assert front[..i] == lines[..i] && front[..i + 1] == lines[..i + 1];
      }
      LinesRise(front);
      assert lines[..|front| + 1] == lines && OpensFresh(Scan(lines[..|front|]), Scan(lines[..|front| + 1]));
      RisesOneMore(Scan(front), lines[|front|]);
    }
  }

  lemma {:induction false} NothingRises()
    ensures Rising(BEGIN)
  {
  }
}
