/** The text of a changelog: its lines, its headings, its list items, and white space at their ends. */
module ChangelogText {
  // ------------------------------------------------------------ white space

  predicate IsSpace(c: char) {
    || '\t' <= c <= '\r' || c == ' '
    || c == '\U{00A0}' || c == '\U{1680}' || '\U{2000}' <= c <= '\U{200A}' || c == '\U{2028}' || c == '\U{2029}'
    || c == '\U{202F}' || c == '\U{205F}' || c == '\U{3000}' || c == '\U{FEFF}'
  }

  function TrimStart(s: string): (r: string)
    ensures |r| <= |s|
    ensures r != "" ==> !IsSpace(r[0])
  {
    if s != "" && IsSpace(s[0]) then TrimStart(s[1..]) else s
  }

  function TrimEnd(s: string): (r: string)
    ensures |r| <= |s|
    ensures r != "" ==> !IsSpace(r[|r| - 1])
  {
    if s != "" && IsSpace(s[|s| - 1]) then TrimEnd(s[..|s| - 1]) else s
  }

  /** White space is removed at the start alone. */
  lemma {:induction false} TrimStartIsEnd(s: string)
    ensures TrimStart(s) == s[|s| - |TrimStart(s)|..]
  {
    if s != "" && IsSpace(s[0]) {
      TrimStartIsEnd(s[1..]);
    }
  }

  /** White space is removed at the end alone. */
  lemma {:induction false} TrimEndIsStart(s: string)
    ensures TrimEnd(s) == s[..|TrimEnd(s)|]
  {
    if s != "" && IsSpace(s[|s| - 1]) {
      TrimEndIsStart(s[..|s| - 1]);
    }
  }

  function Trim(s: string): (r: string)
    ensures r != "" ==> !IsSpace(r[0]) && !IsSpace(r[|r| - 1])
    ensures forall c :: c in r ==> c in s
  {
    TrimStartIsEnd(s);
    TrimEndIsStart(TrimStart(s));
    TrimEnd(TrimStart(s))
  }

  predicate Blank(line: string) {
    Trim(line) == ""
  }

  /** The lines between the first and the last that is not blank. */
  function TrimBlank(lines: seq<string>): seq<string> {
    if lines == [] then []
    else if Blank(lines[0]) then TrimBlank(lines[1..])
    else TrimBlankEnd(lines)
  }

  function TrimBlankEnd(lines: seq<string>): seq<string> {
    if lines != [] && Blank(lines[|lines| - 1]) then TrimBlankEnd(lines[..|lines| - 1]) else lines
  }

  lemma {:induction false} TrimBlankEndShape(lines: seq<string>)
    ensures TrimBlankEnd(lines) <= lines
    ensures TrimBlankEnd(lines) != [] ==> !Blank(TrimBlankEnd(lines)[|TrimBlankEnd(lines)| - 1])
    ensures lines != [] && !Blank(lines[0]) ==> TrimBlankEnd(lines) != []
    decreases |lines|
  {
    hide Blank;
    if lines != [] && Blank(lines[|lines| - 1]) {
      TrimBlankEndShape(lines[..|lines| - 1]);
    }
  }

  lemma {:induction false} TrimBlankShape(lines: seq<string>)
    ensures var r := TrimBlank(lines);
      && (r != [] ==> !Blank(r[0]) && !Blank(r[|r| - 1]))
      && (forall l :: l in r ==> l in lines)
      && (r == [] <==> forall l :: l in lines ==> Blank(l))
  {
    hide Blank;
    if lines != [] {
      if Blank(lines[0]) {
        TrimBlankShape(lines[1..]);
        assert lines == [lines[0]] + lines[1..];
      } else {
        TrimBlankEndShape(lines);
        hide TrimBlankEnd;
        assert lines[0] in lines;
      }
    }
  }

  // ------------------------------------------------------------ kinds of lines

  /** "## [", at least one other character, and "]". */
  predicate IsReleaseHeading(line: string) {
    |line| > 4 && line[..4] == "## [" && line[4] != ']' && ']' in line[5..]
  }

  /** What stands between the brackets of a release heading. */
  function ReleaseTitle(heading: string): string
    requires IsReleaseHeading(heading)
  {
    Before(heading[4..], ']')
  }

  function Before(s: string, c: char): string {
    if s == "" || s[0] == c then "" else [s[0]] + Before(s[1..], c)
  }

  /** "###", white space, and something else. */
  predicate IsSubsectionHeading(line: string) {
    |line| > 3 && line[..3] == "###" && IsSpace(line[3]) && !Blank(line[3..])
  }

  function SubsectionTitle(heading: string): string
    requires IsSubsectionHeading(heading)
  {
    Trim(heading[3..])
  }

  predicate IsListItem(line: string) {
    var s := TrimStart(line);
    |s| >= 2 && s[0] == '-' && s[1] == ' '
  }

  predicate Plain(line: string) {
    '\n' !in line && '\r' !in line
  }

  /** A line that can stand below a subsection heading and stay there when the text is read again. */
  predicate BodyLine(line: string) {
    Plain(line) && !IsReleaseHeading(line) && !IsSubsectionHeading(line)
  }

  predicate ProperTitle(title: string) {
    title != "" && !IsSpace(title[0]) && !IsSpace(title[|title| - 1]) && Plain(title)
  }

  function SubsectionHeading(title: string): string {
    "### " + title
  }

  lemma {:induction false} TitleOfHeading(heading: string)
    requires IsSubsectionHeading(heading) && Plain(heading)
    ensures ProperTitle(SubsectionTitle(heading))
  {
  }

  lemma {:induction false} TrimProper(title: string)
    requires ProperTitle(title)
    ensures TrimEnd(title) == title && Trim(" " + title) == title
  {
    assert (" " + title)[1..] == title;
    assert TrimStart(" " + title) == TrimStart(title) == title;
  }

  lemma {:induction false} HeadingShape(title: string)
    ensures var h := SubsectionHeading(title);
      |h| > 3 && h[0] == h[2] == '#' && h[..3] == "###" && h[3] == ' ' && h[3..] == " " + title
    ensures Plain(title) ==> Plain(SubsectionHeading(title))
  {
    hide IsSpace;
    var h := SubsectionHeading(title);
    assert h[3..] == " " + title;
    assert forall c :: c in "### " ==> c != '\n' && c != '\r';
  }

  lemma {:induction false} HashIsNotRelease(line: string)
    requires |line| > 3 && line[2] == '#'
    ensures !IsReleaseHeading(line)
  {
    if |line| > 4 { assert line[..4][2] == '#' && "## ["[2] == ' '; }
  }

  /** A heading written for a proper title is read as a heading with that title. */
  lemma {:induction false} HeadingOfTitle(title: string)
    requires ProperTitle(title)
    ensures var h := SubsectionHeading(title);
      IsSubsectionHeading(h) && SubsectionTitle(h) == title && Plain(h) && !IsReleaseHeading(h) && !Blank(h)
  {
    var h := SubsectionHeading(title);
    HeadingShape(title);
    TrimProper(title);
    HashIsNotRelease(h);
    assert IsSpace(' ') && !IsSpace('#');
    NotBlank(h);
    hide Trim, IsSpace, Plain, SubsectionHeading, IsReleaseHeading;
  }

  lemma {:induction false} NotBlank(line: string)
    requires line != "" && !IsSpace(line[0])
    ensures !Blank(line)
  {
    assert TrimStart(line) == line;
    FirstStays(line);
  }

  lemma {:induction false} FirstStays(line: string)
    requires line != "" && !IsSpace(line[0])
    ensures TrimEnd(line) != ""
    decreases |line|
  {
    if |line| > 1 && IsSpace(line[|line| - 1]) {
      FirstStays(line[..|line| - 1]);
    }
  }

  lemma {:induction false} ReleaseHeadingNotBlank(line: string)
    requires IsReleaseHeading(line)
    ensures !Blank(line)
  {
    assert line[..4][0] == '#';
    NotBlank(line);
  }

  lemma {:induction false} EmptyLine()
    ensures Blank("") && BodyLine("")
  {
  }

  // ------------------------------------------------------------ blank lines around

  /** Lines already trimmed, with a blank line before, after, or both, trim to themselves. */
  lemma {:induction false} TrimPadded(lines: seq<string>, before: seq<string>, after: seq<string>)
    requires TrimBlank(lines) == lines
    requires before == [] || before == [""]
    requires after == [] || after == [""]
    ensures TrimBlank(before + lines + after) == lines
  {
    EmptyLine();
    hide Blank;
    var padded := lines + after;
    TrimPaddedEnd(lines, after);
    hide TrimBlankEnd;
    if before != [] {
      assert (before + lines + after)[1..] == padded;
    } else {
      assert before + lines + after == padded;
    }
  }

  lemma {:induction false} TrimPaddedEnd(lines: seq<string>, after: seq<string>)
    requires TrimBlank(lines) == lines
    requires after == [] || after == [""]
    ensures TrimBlank(lines + after) == lines
  {
    EmptyLine();
    hide Blank;
    TrimBlankShape(lines);
    var padded := lines + after;
    if after == [] {
      assert padded == lines;
    } else if lines == [] {
      assert padded == [""] && [""][1..] == [];
    } else {
      assert padded[0] == lines[0];
      assert padded[..|padded| - 1] == lines;
      assert TrimBlankEnd(padded) == TrimBlankEnd(lines);
    }
  }

  lemma {:induction false} TrimTwice(lines: seq<string>)
    ensures TrimBlank(TrimBlank(lines)) == TrimBlank(lines)
  {
    hide Blank;
    TrimBlankShape(lines);
  }

  method TrimBlankLines(lines: seq<string>) returns (r: seq<string>)
    ensures r == TrimBlank(lines)
  {
    hide Blank;
    var start, end := 0, |lines|;
    assert lines[0..] == lines;
    while start < end && Blank(lines[start])
      invariant start <= end == |lines|
      invariant TrimBlank(lines) == TrimBlank(lines[start..])
    {
      assert lines[start..][1..] == lines[start + 1..];
      start := start + 1;
    }
    ghost var rest := lines[start..];
    assert TrimBlank(lines) == TrimBlankEnd(rest);
    hide TrimBlank;
    assert lines[start..end] == rest;
    while end > start && Blank(lines[end - 1])
      invariant start <= end <= |lines|
      invariant TrimBlankEnd(rest) == TrimBlankEnd(lines[start..end])
    {
      assert lines[start..end][..end - 1 - start] == lines[start..end - 1];
      end := end - 1;
    }
    r := lines[start..end];
  }

  // ------------------------------------------------------------ splitting and joining

  /** Every line end becomes a single line feed. */
  function ReplaceCrLf(s: string): string {
    if s == "" then ""
    else if s[0] == '\r' && |s| > 1 && s[1] == '\n' then "\n" + ReplaceCrLf(s[2..])
    else [s[0]] + ReplaceCrLf(s[1..])
  }

  function ReplaceCr(s: string): string {
    if s == "" then "" else [if s[0] == '\r' then '\n' else s[0]] + ReplaceCr(s[1..])
  }

  function Split(s: string): (lines: seq<string>)
    ensures lines != []
  {
    if s == "" then [""]
    else if s[0] == '\n' then [""] + Split(s[1..])
    else
      var rest := Split(s[1..]);
      [[s[0]] + rest[0]] + rest[1..]
  }

  function ContentLines(content: string): (lines: seq<string>)
    ensures lines != []
  {
    var s := ReplaceCr(ReplaceCrLf(content));
    if s != "" && s[|s| - 1] == '\n' then Split(s[..|s| - 1]) else Split(s)
  }

  function Join(lines: seq<string>): string {
    if lines == [] then "" else if |lines| == 1 then lines[0] else lines[0] + "\n" + Join(lines[1..])
  }

  predicate AllPlain(lines: seq<string>) {
    forall l :: l in lines ==> Plain(l)
  }

  lemma {:induction false} SplitsPlain(s: string)
    requires '\r' !in s
    ensures AllPlain(Split(s))
  {
    if s != "" {
      SplitsPlain(s[1..]);
      var rest := Split(s[1..]);
      assert Plain(rest[0]);
      forall l | l in Split(s)
        ensures Plain(l)
      {
        if s[0] != '\n' && l == [s[0]] + rest[0] {
        } else if l != "" {
          assert l in rest;
        }
      }
    }
  }

  lemma {:induction false} ReplacedCr(s: string)
    ensures '\r' !in ReplaceCr(s)
    ensures '\r' !in s ==> ReplaceCr(s) == s
  {
    if s != "" {
      ReplacedCr(s[1..]);
    }
  }

  lemma {:induction false} NoCrLf(s: string)
    requires '\r' !in s
    ensures ReplaceCrLf(s) == s
  {
    if s != "" {
      NoCrLf(s[1..]);
    }
  }

  lemma {:induction false} ContentLinesPlain(content: string)
    ensures AllPlain(ContentLines(content))
  {
    var s := ReplaceCr(ReplaceCrLf(content));
    ReplacedCr(ReplaceCrLf(content));
    SplitsPlain(s);
    if s != "" {
      SplitsPlain(s[..|s| - 1]);
    }
  }

  lemma {:induction false} SplitLine(line: string, rest: string)
    requires Plain(line)
    ensures Split(line + "\n" + rest) == [line] + Split(rest)
    ensures Split(line) == [line]
    decreases |line|
  {
    var s := line + "\n" + rest;
    if line == "" {
      assert s[1..] == rest;
    } else {
      assert s[1..] == line[1..] + "\n" + rest;
      SplitLine(line[1..], rest);
      assert line == [line[0]] + line[1..];
    }
  }

  lemma {:induction false} SplitJoin(lines: seq<string>)
    requires lines != [] && AllPlain(lines)
    ensures Split(Join(lines)) == lines
    ensures '\r' !in Join(lines)
  {
    if |lines| == 1 {
      SplitLine(lines[0], "");
    } else {
      SplitJoin(lines[1..]);
      SplitLine(lines[0], Join(lines[1..]));
    }
  }

  /** Text written from plain lines is read back as those lines. */
  lemma {:induction false} WrittenLinesReadBack(lines: seq<string>)
    requires lines != [] && AllPlain(lines)
    ensures ContentLines(Join(lines) + "\n") == lines
  {
    SplitJoin(lines);
    var s := Join(lines) + "\n";
    NoCrLf(s);
    ReplacedCr(s);
    assert s[..|s| - 1] == Join(lines);
  }
}
