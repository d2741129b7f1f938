/** The patterns by which the changelog scripts tell lines apart, each as what a matching line is made of:
    headings, list items, hunk headers, and the ends of lines. */
module ChangelogPatterns {
  import opened Options
  import opened DecimalText
  import opened ChangelogText
  import opened DiffItems
  import opened DiffMatching

  // ------------------------------------------------------------ white space

  /** The white space and line terminators of ECMAScript, by code point. */
  ghost predicate IsWhite(c: char) {
    var n := c as int;
    || n in {0x09, 0x0A, 0x0B, 0x0C, 0x0D, 0x20, 0xA0, 0x1680, 0x2028, 0x2029, 0x202F, 0x205F, 0x3000, 0xFEFF}
    || 0x2000 <= n <= 0x200A
  }

  ghost predicate AllWhite(s: string) {
    forall i :: 0 <= i < |s| ==> IsWhite(s[i])
  }

  lemma {:induction false} SpaceIsWhite(c: char)
    ensures IsSpace(c) <==> IsWhite(c)
  {
  }

  lemma {:induction false} StartIsWhite(s: string) returns (white: string)
    ensures s == white + TrimStart(s) && AllWhite(white)
    ensures s != "" && IsSpace(s[0]) ==> white != ""
  {
    if s != "" && IsSpace(s[0]) {
      var rest := StartIsWhite(s[1..]);
      SpaceIsWhite(s[0]);
      white := [s[0]] + rest;
      assert s == [s[0]] + s[1..];
    } else {
      white := "";
    }
  }

  lemma {:induction false} EndIsWhite(s: string) returns (white: string)
    ensures s == TrimEnd(s) + white && AllWhite(white)
  {
    if s != "" && IsSpace(s[|s| - 1]) {
      var rest := EndIsWhite(s[..|s| - 1]);
      SpaceIsWhite(s[|s| - 1]);
      white := rest + [s[|s| - 1]];
      assert s == s[..|s| - 1] + [s[|s| - 1]];
    } else {
      white := "";
    }
  }

  /** `core` is what is left of `s` without the white space at its two ends. */
  ghost predicate IsCore(s: string, core: string) {
    && (exists before, after :: Around(s, before, core, after))
    && (core != "" ==> !IsWhite(core[0]) && !IsWhite(core[|core| - 1]))
  }

  ghost predicate Around(s: string, before: string, core: string, after: string) {
    s == before + core + after && AllWhite(before) && AllWhite(after)
  }

  lemma {:induction false} TrimmedIsCore(s: string)
    ensures IsCore(s, Trim(s))
  {
    var before := StartIsWhite(s);
    var after := EndIsWhite(TrimStart(s));
    var core := Trim(s);
    assert s == before + core + after;
    assert Around(s, before, core, after);
    if core != "" {
      SpaceIsWhite(core[0]);
      SpaceIsWhite(core[|core| - 1]);
    }
  }

  /** A line is blank exactly if it has nothing but white space. */
  lemma {:induction false} BlankLines(line: string)
    ensures Blank(line) <==> AllWhite(line)
  {
    if Blank(line) {
      var before := StartIsWhite(line);
      var after := EndIsWhite(TrimStart(line));
      assert line == before + after;
    }
    if AllWhite(line) {
      WhiteStartGoes(line);
    }
  }

  lemma {:induction false} WhiteStartGoes(s: string)
    requires AllWhite(s)
    ensures TrimStart(s) == ""
  {
    if s != "" {
      SpaceIsWhite(s[0]);
      WhiteStartGoes(s[1..]);
    }
  }

  lemma {:induction false} TrimStartOf(white: string, s: string)
    requires AllWhite(white) && (s != "" ==> !IsWhite(s[0]))
    ensures TrimStart(white + s) == s
  {
    if white == "" {
      assert white + s == s;
      if s != "" { SpaceIsWhite(s[0]); }
    } else {
      SpaceIsWhite(white[0]);
      assert (white + s)[1..] == white[1..] + s;
      TrimStartOf(white[1..], s);
    }
  }

  // ------------------------------------------------------------ headings and items

  ghost predicate IsRelease(line: string, title: string, rest: string) {
    title != "" && ']' !in title && line == "## [" + title + "]" + rest
  }

  lemma {:induction false} BeforeBracket(s: string) returns (rest: string)
    requires ']' in s
    ensures ']' !in Before(s, ']') && s == Before(s, ']') + "]" + rest
  {
    if s[0] == ']' {
      rest := s[1..];
    } else {
      rest := BeforeBracket(s[1..]);
      assert s == [s[0]] + s[1..];
    }
  }

  lemma {:induction false} BeforeIs(title: string, rest: string)
    requires ']' !in title
    ensures Before(title + "]" + rest, ']') == title
  {
    var s := title + "]" + rest;
    if title != "" {
      assert s[1..] == title[1..] + "]" + rest;
      BeforeIs(title[1..], rest);
    }
  }

  /** A heading of a release is "## [", a title without ']', and "]", with anything after it. */
  lemma {:induction false} ReleaseHeadings(line: string)
    ensures IsReleaseHeading(line) <==> exists title, rest :: IsRelease(line, title, rest)
    ensures forall title, rest :: IsRelease(line, title, rest) ==> ReleaseTitle(line) == title
  {
    forall title, rest | IsRelease(line, title, rest)
      ensures IsReleaseHeading(line) && ReleaseTitle(line) == title
    {
      ReleaseMatches(line, title, rest);
    }
    if IsReleaseHeading(line) {
      assert line[4..] == [line[4]] + line[5..];
      var rest := BeforeBracket(line[4..]);
      assert line == line[..4] + line[4..];
      assert line == "## [" + Before(line[4..], ']') + "]" + rest;
      assert IsRelease(line, Before(line[4..], ']'), rest);
    }
  }

  lemma {:induction false} ReleaseMatches(line: string, title: string, rest: string)
    requires IsRelease(line, title, rest)
    ensures IsReleaseHeading(line) && ReleaseTitle(line) == title
  {
    assert line[..4] == "## [" && line[4..] == title + "]" + rest;
    assert line[4] == title[0];
    assert line[5..] == title[1..] + "]" + rest;
    assert line[5..][|title| - 1] == ']';
    BeforeIs(title, rest);
  }

  ghost predicate IsSubsection(line: string, white: string, title: string, after: string) {
    && line == "###" + white + title + after && white != "" && AllWhite(white) && AllWhite(after)
    && title != "" && !IsWhite(title[0]) && !IsWhite(title[|title| - 1])
  }

  /** A heading of a subsection is "###", white space, and a title with more white space after it, or none. */
  lemma {:induction false} SubsectionHeadings(line: string)
    ensures IsSubsectionHeading(line) <==> exists white, title, after :: IsSubsection(line, white, title, after)
    ensures forall white, title, after :: IsSubsection(line, white, title, after) ==> SubsectionTitle(line) == title
  {
    forall white, title, after | IsSubsection(line, white, title, after)
      ensures IsSubsectionHeading(line) && SubsectionTitle(line) == title
    {
      SubsectionMatches(line, white, title, after);
    }
    if IsSubsectionHeading(line) {
      SubsectionMade(line);
    }
  }

  lemma {:induction false} SubsectionMade(line: string)
    requires IsSubsectionHeading(line)
    ensures exists white, title, after :: IsSubsection(line, white, title, after)
  {
    var tail := line[3..];
    var white := StartIsWhite(tail);
    var after := EndIsWhite(TrimStart(tail));
    var title := Trim(tail);
    assert line == line[..3] + tail;
    assert line == "###" + white + title + after;
    SpaceIsWhite(line[3]);
    SpaceIsWhite(title[0]);
    SpaceIsWhite(title[|title| - 1]);
    assert IsSubsection(line, white, title, after);
  }

  lemma {:induction false} SubsectionMatches(line: string, white: string, title: string, after: string)
    requires IsSubsection(line, white, title, after)
    ensures IsSubsectionHeading(line) && SubsectionTitle(line) == title
  {
    assert line[..3] == "###" && line[3] == white[0];
    assert line[3..] == white + (title + after);
    SpaceIsWhite(white[0]);
    assert (title + after)[0] == title[0];
    TrimStartOf(white, title + after);
    TrimEndOf(title, after);
  }

  lemma {:induction false} TrimEndOf(s: string, white: string)
    requires AllWhite(white) && s != "" && !IsWhite(s[|s| - 1])
    ensures TrimEnd(s + white) == s
    decreases |white|
  {
    if white == "" {
      assert s + white == s;
      SpaceIsWhite(s[|s| - 1]);
    } else {
      var n := |white| - 1;
      SpaceIsWhite(white[n]);
      assert (s + white)[..|s + white| - 1] == s + white[..n];
      TrimEndOf(s, white[..n]);
    }
  }

  ghost predicate IsItemLine(line: string, white: string, rest: string) {
    line == white + "- " + rest && AllWhite(white)
  }

  /** A list item begins with "- ", white space before it or not. */
  lemma {:induction false} ListItems(line: string)
    ensures IsListItem(line) <==> exists white, rest :: IsItemLine(line, white, rest)
  {
    if IsListItem(line) {
      var s := TrimStart(line);
      var white := StartIsWhite(line);
      assert s == "- " + s[2..];
      assert IsItemLine(line, white, s[2..]);
    }
    if white, rest :| IsItemLine(line, white, rest) {
      assert line == white + ("- " + rest);
      TrimStartOf(white, "- " + rest);
    }
  }

  // ------------------------------------------------------------ hunk headers

  ghost predicate AreDigits(s: string) {
    s != "" && forall i :: 0 <= i < |s| ==> '0' <= s[i] <= '9'
  }

  /** A number and perhaps a comma and a second one. */
  ghost predicate IsRange(s: string, number: string) {
    AreDigits(number) && (s == number || (number + "," <= s && AreDigits(s[|number| + 1..])))
  }

  ghost predicate IsHeader(line: string, oldRange: string, oldNumber: string, newRange: string, number: string,
                           rest: string)
  {
    && IsRange(oldRange, oldNumber) && IsRange(newRange, number)
    && line == "@@ -" + oldRange + " +" + newRange + " @@" + rest
  }

  lemma {:induction false} CountsDigits(digits: string, rest: string)
    requires forall i :: 0 <= i < |digits| ==> '0' <= digits[i] <= '9'
    requires rest != "" ==> !('0' <= rest[0] <= '9')
    ensures DigitCount(digits + rest) == |digits|
  {
    if digits == "" {
      assert digits + rest == rest;
    } else {
      assert (digits + rest)[1..] == digits[1..] + rest;
      CountsDigits(digits[1..], rest);
    }
  }

  lemma {:induction false} CountedAreDigits(s: string)
    ensures var n := DigitCount(s);
      (forall i :: 0 <= i < n ==> '0' <= s[i] <= '9') && (n < |s| ==> !('0' <= s[n] <= '9'))
  {
    if s != "" && '0' <= s[0] <= '9' {
      CountedAreDigits(s[1..]);
      var n := DigitCount(s[1..]);
      assert forall i :: 0 < i < n + 1 ==> s[i] == s[1..][i - 1];
    }
  }

  lemma {:induction false} PastARange(s: string, number: string, rest: string)
    requires IsRange(s, number) && rest != "" && rest[0] == ' '
    ensures PastRange(s + rest) == Some(rest) && DigitCount(s + rest) == |number|
    ensures (s + rest)[..|number|] == number
  {
    var text := s + rest;
    if s == number {
      CountsDigits(number, rest);
      assert text[|number|..] == rest;
    } else {
      var second := s[|number| + 1..];
      assert s == number + "," + second;
      assert text == number + ("," + second + rest);
      CountsDigits(number, "," + second + rest);
      assert text[|number|..] == "," + second + rest;
      assert ("," + second + rest)[1..] == second + rest;
      CountsDigits(second, rest);
      assert (second + rest)[|second|..] == rest;
    }
  }

  lemma {:induction false} RangePassed(s: string) returns (range: string, number: string)
    requires PastRange(s).Some?
    ensures IsRange(range, number) && s == range + PastRange(s).value
    ensures number == s[..DigitCount(s)]
  {
    var n := DigitCount(s);
    CountedAreDigits(s);
    number := s[..n];
    var rest := s[n..];
    if rest != "" && rest[0] == ',' && DigitCount(rest[1..]) > 0 {
      var m := DigitCount(rest[1..]);
      CountedAreDigits(rest[1..]);
      range := s[..n + 1 + m];
      hide DigitCount, PastRange;
      TwoNumbers(s, n, m);
    } else {
      range := number;
      hide DigitCount;
    }
  }

  lemma {:induction false} TwoNumbers(s: string, n: nat, m: nat)
    requires 0 < n && 0 < m && n + 1 + m <= |s| && s[n] == ','
    requires AreDigits(s[..n]) && AreDigits(s[n..][1..][..m])
    ensures IsRange(s[..n + 1 + m], s[..n]) && s == s[..n + 1 + m] + s[n..][1..][m..]
  {
    var range, number := s[..n + 1 + m], s[..n];
    assert range[n + 1..] == s[n..][1..][..m];
    assert number + "," <= range;
    assert s == range + s[n + 1 + m..];
    assert s[n..][1..] == s[n + 1..] && s[n + 1..][m..] == s[n + 1 + m..];
  }

  /** A hunk header is "@@ -", a range, " +", a range, and " @@", with anything after it; the number that the
      second range begins with is the line at which the hunk starts. */
  lemma {:induction false} HunkHeaders(line: string)
    ensures HunkStart(line).Some? <==>
      exists oldRange, oldNumber, newRange, number, rest ::
        IsHeader(line, oldRange, oldNumber, newRange, number, rest)
    ensures forall oldRange, oldNumber, newRange, number, rest ::
      IsHeader(line, oldRange, oldNumber, newRange, number, rest) ==> HunkStart(line) == DigitsValue(number)
  {
    forall oldRange, oldNumber, newRange, number, rest
      | IsHeader(line, oldRange, oldNumber, newRange, number, rest)
      ensures HunkStart(line) == DigitsValue(number) && HunkStart(line).Some?
    {
      HeaderMatches(line, oldRange, oldNumber, newRange, number, rest);
    }
    if HunkStart(line).Some? {
      var oldRange, oldNumber, newRange, number, rest := HeaderMade(line);
    }
  }

  lemma {:induction false} DigitsHaveValue(s: string)
    requires AreDigits(s)
    ensures DigitsValue(s).Some?
  {
    if |s| > 1 {
      DigitsHaveValue(s[..|s| - 1]);
    }
  }

  lemma {:induction false} HeaderMatches(line: string, oldRange: string, oldNumber: string, newRange: string,
                                         number: string, rest: string)
    requires IsHeader(line, oldRange, oldNumber, newRange, number, rest)
    ensures HunkStart(line) == DigitsValue(number) && HunkStart(line).Some?
  {
    hide DigitCount, PastRange, DigitsValue, IsRange;
    var end := " @@" + rest;
    var gap := " +" + (newRange + end);
    assert line[4..] == oldRange + gap;
    PastARange(oldRange, oldNumber, gap);
    assert gap[2..] == newRange + end;
    PastARange(newRange, number, end);
    RangeHasNumber(newRange, number);
    DigitsHaveValue(number);
    assert "@@ -" <= line && " +" <= gap && " @@" <= end;
  }

  lemma {:induction false} RangeHasNumber(s: string, number: string)
    requires IsRange(s, number)
    ensures AreDigits(number)
  {
  }

  lemma {:induction false} HeaderMade(line: string)
      returns (oldRange: string, oldNumber: string, newRange: string, number: string, rest: string)
    requires HunkStart(line).Some?
    ensures IsHeader(line, oldRange, oldNumber, newRange, number, rest)
  {
    hide DigitCount, PastRange, DigitsValue, IsRange;
    oldRange, oldNumber := RangePassed(line[4..]);
    var gap := PastRange(line[4..]).value;
    newRange, number := RangePassed(gap[2..]);
    var end := PastRange(gap[2..]).value;
    rest := end[3..];
    HeaderGlued(line, oldRange, gap, newRange, end);
  }

  lemma {:induction false} HeaderGlued(line: string, oldRange: string, gap: string, newRange: string, end: string)
    requires "@@ -" <= line && line[4..] == oldRange + gap
    requires " +" <= gap && gap[2..] == newRange + end && " @@" <= end
    ensures line == "@@ -" + oldRange + " +" + newRange + " @@" + end[3..]
  {
    assert line == "@@ -" + line[4..] && gap == " +" + gap[2..] && end == " @@" + end[3..];
  }

  // ------------------------------------------------------------ one file of a diff

  /** Lines between the two kinds of file header, which name no file and begin no hunk. */
  ghost predicate Between(line: string) {
    !("+++ b/" <= line) && !("diff --git " <= line) && HunkStart(line) == None
  }

  /** A file's headers: whatever was read before, its path is the one named after "+++ b/", its hunks are
      counted from 0 again, and what stands before its first hunk adds no item. */
  lemma {:induction false} FileIsOpened(before: seq<string>, name: string, between: seq<string>, path: string)
    requires forall i :: 0 <= i < |between| ==> Between(between[i])
    ensures var st, s := Scan(before), Scan(before + ["diff --git " + name] + between + ["+++ b/" + path]);
      s.path == path && s.hunkIndex == -1 && s.added == st.added && s.removed == st.removed
  {
    var begun := before + ["diff --git " + name];
    ScanStep(before, "diff --git " + name);
    assert ("diff --git " + name)[..11] == "diff --git ";
    assert ("diff --git " + name)[0] == 'd';
    NothingBetween(begun, between);
    ScanStep(begun + between, "+++ b/" + path);
    assert ("+++ b/" + path)[..6] == "+++ b/" && ("+++ b/" + path)[6..] == path;
    hide Scan, HunkStart, IsListItem;
  }

  lemma {:induction false} NothingBetween(begun: seq<string>, between: seq<string>)
    requires Scan(begun).path == "" && Scan(begun).hunkIndex == -1
    requires forall i :: 0 <= i < |between| ==> Between(between[i])
    ensures Scan(begun + between) == Scan(begun)
    decreases |between|
  {
    hide *;
    if between == [] {
      assert begun + between == begun;
    } else {
      var front, last := between[..|between| - 1], between[|between| - 1];
      NothingBetween(begun, front);
      assert begun + between == (begun + front) + [last];
      ScanStep(begun + front, last);
      NoLineBetween(Scan(begun), last);
    }
  }

  lemma {:induction false} NoLineBetween(st: DiffState, line: string)
    requires st.path == "" && Between(line)
    ensures AfterLine(st, line) == st
  {
    hide HunkStart, IsListItem;
  }

  /** Inside a hunk, an empty line and one that begins with neither '+', '-' nor a space count for nothing. */
  lemma {:induction false} OtherLines(before: seq<string>, line: string)
    requires Between(line) && (line == "" || line[0] !in "+- ")
    ensures Scan(before + [line]) == Scan(before)
  {
    ScanStep(before, line);
    hide Scan, HunkStart, IsListItem;
  }

  // ------------------------------------------------------------ what makes two items the same

  /** The core of a text is determined. */
  lemma {:induction false} CoreIsTrimmed(s: string, core: string)
    ensures IsCore(s, core) <==> core == Trim(s)
  {
    TrimmedIsCore(s);
    if IsCore(s, core) {
      var before, after :| Around(s, before, core, after);
      if core == "" {
        assert forall i :: 0 <= i < |s| ==> s[i] == if i < |before| then before[i] else after[i - |before|];
        WhiteStartGoes(s);
      } else {
        assert s == before + (core + after) && (core + after)[0] == core[0];
        TrimStartOf(before, core + after);
        TrimEndOf(core, after);
      }
    }
  }

  /** An added and a removed item are matched by file and text, white space around the text left aside. */
  lemma {:induction false} SameItem(added: seq<AddedItem>, removed: seq<RemovedItem>, i: nat, j: nat)
    requires i < |added| && j < |removed|
    ensures AddedKeys(added)[i] == RemovedKeys(removed)[j] <==>
      added[i].path == removed[j].path && exists core :: IsCore(added[i].text, core) && IsCore(removed[j].text, core)
  {
    var a, r := added[i].text, removed[j].text;
    assert AddedKeys(added)[i] == (added[i].path, Trim(a)) && RemovedKeys(removed)[j] == (removed[j].path, Trim(r));
    hide IsCore, Trim, AddedKeys, RemovedKeys;
    CoreIsTrimmed(a, Trim(a));
    CoreIsTrimmed(r, Trim(a));
    if core :| IsCore(a, core) && IsCore(r, core) {
      CoreIsTrimmed(a, core);
      CoreIsTrimmed(r, core);
    }
  }

  // ------------------------------------------------------------ line ends

  /** The lines of a text, each with its end: a line feed, a carriage return, or both. */
  ghost predicate AreEnds(lines: seq<string>, ends: seq<string>) {
    && |ends| == |lines|
    && (forall i :: 0 <= i < |lines| ==> Plain(lines[i]) && ends[i] in {"\n", "\r", "\r\n"})
    && forall i :: 0 < i < |lines| ==> !(ends[i - 1] == "\r" && lines[i] == "" && ends[i] == "\n")
  }

  ghost function Ended(lines: seq<string>, ends: seq<string>): string
    requires |ends| == |lines|
  {
    if lines == [] then "" else lines[0] + ends[0] + Ended(lines[1..], ends[1..])
  }

  ghost function Feeds(lines: seq<string>): string {
    if lines == [] then "" else lines[0] + "\n" + Feeds(lines[1..])
  }

  ghost function WithFeeds(s: string): string {
    ReplaceCr(ReplaceCrLf(s))
  }

  lemma {:induction false} PlainUnchanged(line: string, rest: string)
    requires Plain(line)
    ensures WithFeeds(line + rest) == line + WithFeeds(rest)
  {
    if line == "" {
      assert line + rest == rest;
    } else {
      var s := line + rest;
      assert s[0] == line[0] && s[1..] == line[1..] + rest;
      PlainUnchanged(line[1..], rest);
      assert ReplaceCrLf(s)[1..] == ReplaceCrLf(s[1..]);
      assert line == [line[0]] + line[1..];
    }
  }

  lemma {:induction false} EndReplaced(end: string, rest: string)
    requires end in {"\n", "\r", "\r\n"} && (end == "\r" && rest != "" ==> rest[0] != '\n')
    ensures WithFeeds(end + rest) == "\n" + WithFeeds(rest)
  {
    var s := end + rest;
    if end == "\r\n" {
      assert s[0] == '\r' && s[1] == '\n' && s[2..] == rest;
      assert ("\n" + ReplaceCrLf(rest))[1..] == ReplaceCrLf(rest);
    } else {
      assert s[0] == end[0] && s[1..] == rest;
      assert ([s[0]] + ReplaceCrLf(rest))[1..] == ReplaceCrLf(rest);
    }
  }

  lemma {:induction false} EndsReplaced(lines: seq<string>, ends: seq<string>, last: string)
    requires AreEnds(lines, ends) && Plain(last)
    ensures WithFeeds(Ended(lines, ends) + last) == Feeds(lines) + last
  {
    hide *;
    if lines == [] {
      NothingReplaced(ends, last);
    } else {
      FirstOfEnds(lines, ends, last);
      var rest := Ended(lines[1..], ends[1..]) + last;
      EndsReplaced(lines[1..], ends[1..], last);
      OneMoreLine(lines, ends, last);
      PlainUnchanged(lines[0], ends[0] + rest);
      EndReplaced(ends[0], rest);
    }
  }

  lemma {:induction false} OneMoreLine(lines: seq<string>, ends: seq<string>, last: string)
    requires lines != [] && |ends| == |lines|
    ensures Ended(lines, ends) + last == lines[0] + (ends[0] + (Ended(lines[1..], ends[1..]) + last))
    ensures Feeds(lines) + last == lines[0] + ("\n" + (Feeds(lines[1..]) + last))
  {
    Regroup(lines[0], ends[0], Ended(lines[1..], ends[1..]), last);
    Regroup(lines[0], "\n", Feeds(lines[1..]), last);
  }

  lemma {:induction false} Regroup(a: string, b: string, c: string, d: string)
    ensures (a + b + c) + d == a + (b + (c + d))
  {
  }

  lemma {:induction false} NothingReplaced(ends: seq<string>, last: string)
    requires AreEnds([], ends) && Plain(last)
    ensures WithFeeds(Ended([], ends) + last) == Feeds([]) + last
  {
    PlainUnchanged(last, "");
    assert last + "" == last && "" + last == last && WithFeeds("") == "";
  }

  /** No line feed that belongs to a later line stands right after a carriage return. */
  lemma {:induction false} FirstOfEnds(lines: seq<string>, ends: seq<string>, last: string)
    requires AreEnds(lines, ends) && Plain(last) && lines != []
    ensures Plain(lines[0]) && |ends| == |lines| && ends[0] in {"\n", "\r", "\r\n"} && AreEnds(lines[1..], ends[1..])
    ensures var rest := Ended(lines[1..], ends[1..]) + last;
      ends[0] == "\r" && rest != "" ==> rest[0] != '\n'
  {
    if |lines| > 1 {
      var after := Ended(lines[1..][1..], ends[1..][1..]);
      assert lines[1..][0] == lines[1] && ends[1..][0] == ends[1];
      assert Ended(lines[1..], ends[1..]) == lines[1] + ends[1] + after;
      assert (lines[1] + ends[1] + after + last)[0] == if lines[1] == "" then ends[1][0] else lines[1][0];
      hide Ended;
    }
  }

  lemma {:induction false} FeedsSplit(lines: seq<string>, last: string)
    requires AllPlain(lines) && Plain(last)
    ensures Split(Feeds(lines) + last) == lines + [last]
  {
    if lines == [] {
      SplitLine(last, "");
      assert "" + last == last;
    } else {
      FeedsSplit(lines[1..], last);
      SplitLine(lines[0], Feeds(lines[1..]) + last);
      assert Feeds(lines) + last == lines[0] + "\n" + (Feeds(lines[1..]) + last);
      assert lines + [last] == [lines[0]] + (lines[1..] + [last]);
    }
  }

  /** Whatever line ends a text has, its lines are what stands between them; a last line without an end
      counts if there is anything in it, and in an empty text. */
  lemma {:induction false} LinesOfText(lines: seq<string>, ends: seq<string>, last: string)
    requires AreEnds(lines, ends) && Plain(last)
    ensures ContentLines(Ended(lines, ends) + last) == if last == "" && lines != [] then lines else lines + [last]
  {
    var s := WithFeeds(Ended(lines, ends) + last);
    EndsReplaced(lines, ends, last);
    assert AllPlain(lines);
    FeedsSplit(lines, last);
    if last != "" {
      assert s[|s| - 1] == last[|last| - 1];
    } else if lines != [] {
      var n := |lines| - 1;
      FeedsLast(lines);
      assert Feeds(lines) + last == Feeds(lines);
      assert s[..|s| - 1] == Feeds(lines[..n]) + lines[n];
      FeedsSplit(lines[..n], lines[n]);
      assert lines[..n] + [lines[n]] == lines;
    }
    hide WithFeeds, Split, Ended, Feeds;
  }

  lemma {:induction false} FeedsLast(lines: seq<string>)
    requires lines != []
    ensures Feeds(lines) == Feeds(lines[..|lines| - 1]) + lines[|lines| - 1] + "\n"
  {
    if |lines| > 1 {
      FeedsLast(lines[1..]);
      assert lines[1..][..|lines| - 2] == lines[..|lines| - 1][1..];
    }
  }
}
