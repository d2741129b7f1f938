/** A changelog as a document: releases, their subsections, and the lines of each; reading it from
    text and writing it back. */
module Changelog {
  import opened ChangelogText

  datatype NumberedLine = NumberedLine(text: string, lineNumber: nat)

  datatype Subsection = Subsection(title: string, lines: seq<NumberedLine>)

  datatype ReleaseSection = ReleaseSection(heading: string, title: string, leadingLines: seq<NumberedLine>,
                                           subsections: seq<Subsection>)

  datatype Document = Document(prefixLines: seq<NumberedLine>, sections: seq<ReleaseSection>)

  function Texts(lines: seq<NumberedLine>): (r: seq<string>)
    ensures |r| == |lines|
  {
    seq(|lines|, i requires 0 <= i < |lines| => lines[i].text)
  }

  function Synthetic(texts: seq<string>): (r: seq<NumberedLine>)
    ensures |r| == |texts|
  {
    seq(|texts|, i requires 0 <= i < |texts| => NumberedLine(texts[i], 0))
  }

  function Numbered(texts: seq<string>): (r: seq<NumberedLine>)
    ensures |r| == |texts|
  {
    seq(|texts|, i requires 0 <= i < |texts| => NumberedLine(texts[i], i + 1))
  }

  // ------------------------------------------------------------ reading

  /** The first heading of a release at or after position `i`. */
  function NextRelease(lines: seq<NumberedLine>, i: nat): (k: nat)
    requires i <= |lines|
    ensures i <= k <= |lines|
    ensures k < |lines| ==> IsReleaseHeading(lines[k].text)
    ensures forall j :: i <= j < k ==> !IsReleaseHeading(lines[j].text)
    decreases |lines| - i
  {
    if i == |lines| || IsReleaseHeading(lines[i].text) then i else NextRelease(lines, i + 1)
  }

  function NextSubsection(lines: seq<NumberedLine>, i: nat): (k: nat)
    requires i <= |lines|
    ensures i <= k <= |lines|
    ensures k < |lines| ==> IsSubsectionHeading(lines[k].text)
    ensures forall j :: i <= j < k ==> !IsSubsectionHeading(lines[j].text)
    decreases |lines| - i
  {
    if i == |lines| || IsSubsectionHeading(lines[i].text) then i else NextSubsection(lines, i + 1)
  }

  predicate StartsWithSubsection(lines: seq<NumberedLine>) {
    lines != [] ==> IsSubsectionHeading(lines[0].text)
  }

  predicate StartsWithRelease(lines: seq<NumberedLine>) {
    lines != [] ==> IsReleaseHeading(lines[0].text)
  }

  function ParsedSubsections(lines: seq<NumberedLine>): seq<Subsection>
    requires StartsWithSubsection(lines)
    decreases |lines|
  {
    if lines == [] then []
    else
      var k := NextSubsection(lines, 1);
      [Subsection(SubsectionTitle(lines[0].text), lines[1..k])] + ParsedSubsections(lines[k..])
  }

  function ParsedSection(heading: string, body: seq<NumberedLine>): ReleaseSection
    requires IsReleaseHeading(heading)
  {
    var k := NextSubsection(body, 0);
    ReleaseSection(heading, ReleaseTitle(heading), body[..k], ParsedSubsections(body[k..]))
  }

  function ParsedSections(lines: seq<NumberedLine>): seq<ReleaseSection>
    requires StartsWithRelease(lines)
    decreases |lines|
  {
    if lines == [] then []
    else
      var k := NextRelease(lines, 1);
      [ParsedSection(lines[0].text, lines[1..k])] + ParsedSections(lines[k..])
  }

  function ParsedLines(lines: seq<NumberedLine>): Document {
    var k := NextRelease(lines, 0);
    Document(lines[..k], ParsedSections(lines[k..]))
  }

  function Parsed(content: string): Document {
    ParsedLines(Numbered(ContentLines(content)))
  }

  lemma {:induction false} NextSubsectionShifts(lines: seq<NumberedLine>, i: nat, j: nat)
    requires i <= j <= |lines|
    ensures NextSubsection(lines[i..], j - i) == NextSubsection(lines, j) - i
    decreases |lines| - j
  {
    hide IsSubsectionHeading;
    if j < |lines| {
      assert lines[i..][j - i] == lines[j];
      NextSubsectionShifts(lines, i, j + 1);
    }
  }

  lemma {:induction false} NextReleaseShifts(lines: seq<NumberedLine>, i: nat, j: nat)
    requires i <= j <= |lines|
    ensures NextRelease(lines[i..], j - i) == NextRelease(lines, j) - i
    decreases |lines| - j
  {
    hide IsReleaseHeading;
    if j < |lines| {
      assert lines[i..][j - i] == lines[j];
      NextReleaseShifts(lines, i, j + 1);
    }
  }

  lemma {:induction false} SubsectionsUnfold(lines: seq<NumberedLine>)
    requires lines != [] && IsSubsectionHeading(lines[0].text)
    ensures var k := NextSubsection(lines, 1);
      && StartsWithSubsection(lines) && StartsWithSubsection(lines[k..])
      && ParsedSubsections(lines)
           == [Subsection(SubsectionTitle(lines[0].text), lines[1..k])] + ParsedSubsections(lines[k..])
  {
    hide IsSubsectionHeading, SubsectionTitle, NextSubsection;
  }

  lemma {:induction false} SectionsUnfold(lines: seq<NumberedLine>)
    requires lines != [] && IsReleaseHeading(lines[0].text)
    ensures var k := NextRelease(lines, 1);
      && StartsWithRelease(lines) && StartsWithRelease(lines[k..])
      && ParsedSections(lines) == [ParsedSection(lines[0].text, lines[1..k])] + ParsedSections(lines[k..])
  {
    hide IsReleaseHeading, NextRelease, ParsedSection;
  }

  lemma {:induction false} SubsectionStep(lines: seq<NumberedLine>, i: nat)
    requires i < |lines| && IsSubsectionHeading(lines[i].text)
    ensures var k := NextSubsection(lines, i + 1);
      && StartsWithSubsection(lines[i..]) && StartsWithSubsection(lines[k..])
      && ParsedSubsections(lines[i..])
         == [Subsection(SubsectionTitle(lines[i].text), lines[i + 1..k])] + ParsedSubsections(lines[k..])
  {
    hide *;
    var rest, k := lines[i..], NextSubsection(lines, i + 1);
    assert rest[0] == lines[i];
    NextSubsectionShifts(lines, i, i + 1);
    SubsectionsUnfold(rest);
    assert rest[1..k - i] == lines[i + 1..k] && rest[k - i..] == lines[k..];
  }

  lemma {:induction false} SectionStep(lines: seq<NumberedLine>, i: nat)
    requires i < |lines| && IsReleaseHeading(lines[i].text)
    ensures var k := NextRelease(lines, i + 1);
      && StartsWithRelease(lines[i..]) && StartsWithRelease(lines[k..])
      && ParsedSections(lines[i..]) == [ParsedSection(lines[i].text, lines[i + 1..k])] + ParsedSections(lines[k..])
  {
    hide *;
    var rest, k := lines[i..], NextRelease(lines, i + 1);
    assert rest[0] == lines[i];
    NextReleaseShifts(lines, i, i + 1);
    SectionsUnfold(rest);
    assert rest[1..k - i] == lines[i + 1..k] && rest[k - i..] == lines[k..];
  }

  lemma {:induction false} AppendOne<T>(done: seq<T>, x: T, rest: seq<T>)
    ensures done + ([x] + rest) == (done + [x]) + rest
  {
  }

  lemma {:induction false} NoMore()
    ensures ParsedSubsections([]) == [] && ParsedSections([]) == []
  {
  }

  /** Collects the lines up to the next heading of a release. */
  method TakeUntilRelease(lines: seq<NumberedLine>, start: nat) returns (taken: seq<NumberedLine>, index: nat)
    requires start <= |lines|
    ensures index == NextRelease(lines, start) && taken == lines[start..index]
  {
    hide IsReleaseHeading;
    taken, index := [], start;
    while index < |lines| && !IsReleaseHeading(lines[index].text)
      invariant start <= index <= |lines| && taken == lines[start..index]
      invariant NextRelease(lines, start) == NextRelease(lines, index)
    {
      taken := taken + [lines[index]];
      index := index + 1;
    }
  }

  method TakeUntilSubsection(lines: seq<NumberedLine>, start: nat) returns (taken: seq<NumberedLine>, index: nat)
    requires start <= |lines|
    ensures index == NextSubsection(lines, start) && taken == lines[start..index]
  {
    hide IsSubsectionHeading;
    taken, index := [], start;
    while index < |lines| && !IsSubsectionHeading(lines[index].text)
      invariant start <= index <= |lines| && taken == lines[start..index]
      invariant NextSubsection(lines, start) == NextSubsection(lines, index)
    {
      taken := taken + [lines[index]];
      index := index + 1;
    }
  }

  method ParseReleaseSection(heading: string, bodyLines: seq<NumberedLine>) returns (section: ReleaseSection)
    requires IsReleaseHeading(heading)
    ensures section == ParsedSection(heading, bodyLines)
  {
    hide IsSubsectionHeading, IsReleaseHeading, SubsectionTitle, ReleaseTitle, NextSubsection, ParsedSubsections;
    var subsections: seq<Subsection> := [];
    var leadingLines, index := TakeUntilSubsection(bodyLines, 0);
    ghost var first := index;
    assert bodyLines[0..first] == bodyLines[..first];
    while index < |bodyLines|
      invariant index <= |bodyLines| && StartsWithSubsection(bodyLines[index..])
      invariant subsections + ParsedSubsections(bodyLines[index..]) == ParsedSubsections(bodyLines[first..])
    {
      var headingLine := bodyLines[index];
      assert bodyLines[index..][0] == headingLine;
      SubsectionStep(bodyLines, index);
      var lines;
      lines, index := TakeUntilSubsection(bodyLines, index + 1);
      AppendOne(subsections, Subsection(SubsectionTitle(headingLine.text), lines),
                ParsedSubsections(bodyLines[index..]));
      subsections := subsections + [Subsection(SubsectionTitle(headingLine.text), lines)];
    }
    NoMore();
    section := ReleaseSection(heading, ReleaseTitle(heading), leadingLines, subsections);
  }

  method ParseChangelog(content: string) returns (document: Document)
    ensures document == Parsed(content)
  {
    hide IsReleaseHeading, ContentLines, ParsedSection, NextRelease, ParsedSections, Numbered;
    var lines := Numbered(ContentLines(content));
    var sections: seq<ReleaseSection> := [];
    var prefixLines, index := TakeUntilRelease(lines, 0);
    ghost var first := index;
    assert lines[0..first] == lines[..first];
    while index < |lines|
      invariant index <= |lines| && StartsWithRelease(lines[index..])
      invariant sections + ParsedSections(lines[index..]) == ParsedSections(lines[first..])
    {
      var headingLine := lines[index];
      assert lines[index..][0] == headingLine;
      SectionStep(lines, index);
      var bodyLines;
      bodyLines, index := TakeUntilRelease(lines, index + 1);
      var section := ParseReleaseSection(headingLine.text, bodyLines);
      AppendOne(sections, section, ParsedSections(lines[index..]));
      sections := sections + [section];
    }
    NoMore();
    document := Document(prefixLines, sections);
  }

  // ------------------------------------------------------------ writing

  function SubsectionOutput(s: Subsection): seq<string> {
    var lines := TrimBlank(Texts(s.lines));
    if lines == [] then [] else ["", SubsectionHeading(s.title), ""] + lines
  }

  function SubsectionsOutput(subsections: seq<Subsection>): seq<string> {
    if subsections == [] then []
    else SubsectionsOutput(subsections[..|subsections| - 1]) + SubsectionOutput(subsections[|subsections| - 1])
  }

  function LeadingOutput(leading: seq<string>): seq<string> {
    if leading == [] then [] else [""] + leading
  }

  function SectionOutput(s: ReleaseSection): seq<string> {
    [s.heading] + LeadingOutput(TrimBlank(Texts(s.leadingLines))) + SubsectionsOutput(s.subsections) + [""]
  }

  function SectionsOutput(sections: seq<ReleaseSection>): seq<string> {
    if sections == [] then []
    else SectionsOutput(sections[..|sections| - 1]) + SectionOutput(sections[|sections| - 1])
  }

  function PrefixOutput(prefix: seq<string>): seq<string> {
    if prefix == [] then [] else prefix + [""]
  }

  function Output(document: Document): seq<string> {
    PrefixOutput(TrimBlank(Texts(document.prefixLines))) + SectionsOutput(document.sections)
  }

  function DropEmptyEnd(lines: seq<string>): seq<string> {
    if lines != [] && lines[|lines| - 1] == "" then DropEmptyEnd(lines[..|lines| - 1]) else lines
  }

  function Rendered(document: Document): string {
    Join(DropEmptyEnd(Output(document))) + "\n"
  }

  /** The lines of one release, appended to the output. */
  lemma {:induction false} OutputUnfolds(section: ReleaseSection, before: seq<string>)
    ensures var leading := TrimBlank(Texts(section.leadingLines));
      && (if leading == [] then before + [section.heading] else before + [section.heading] + [""] + leading)
           == before + ([section.heading] + LeadingOutput(leading) + SubsectionsOutput([]))
      && SectionOutput(section)
           == [section.heading] + LeadingOutput(leading) + SubsectionsOutput(section.subsections) + [""]
    ensures section.subsections[..0] == []
  {
    hide TrimBlank, Texts;
    var leading := TrimBlank(Texts(section.leadingLines));
    assert [section.heading] + [] == [section.heading];
    assert before + [section.heading] + ([""] + leading) == before + ([section.heading] + ([""] + leading));
  }

  lemma {:induction false} OutputStep(subsections: seq<Subsection>, j: nat)
    requires j < |subsections|
    ensures var parts, s := SubsectionsOutput(subsections[..j]), subsections[j];
      var lines := TrimBlank(Texts(s.lines));
      SubsectionsOutput(subsections[..j + 1])
        == if lines == [] then parts else parts + (["", SubsectionHeading(s.title), ""] + lines)
  {
    hide TrimBlank, SubsectionHeading, Texts;
    assert subsections[..j + 1][..j] == subsections[..j];
    assert SubsectionsOutput(subsections[..j]) + [] == SubsectionsOutput(subsections[..j]);
  }

  method PushSection(before: seq<string>, section: ReleaseSection) returns (output: seq<string>)
    ensures output == before + SectionOutput(section)
  {
    hide *;
    output := before + [section.heading];
    var leading := TrimBlankLines(Texts(section.leadingLines));
    if |leading| > 0 {
      output := output + [""] + leading;
    }
    ghost var head := [section.heading] + LeadingOutput(leading);
    OutputUnfolds(section, before);
    for j := 0 to |section.subsections|
      invariant output == before + (head + SubsectionsOutput(section.subsections[..j]))
    {
      ghost var parts := SubsectionsOutput(section.subsections[..j]);
      var subsection := section.subsections[j];
      OutputStep(section.subsections, j);
      var lines := TrimBlankLines(Texts(subsection.lines));
      if |lines| == 0 {
        continue;
      }
      output := output + ["", SubsectionHeading(subsection.title), ""] + lines;
      Reassociate(before, head, parts, ["", SubsectionHeading(subsection.title), ""], lines);
    }
    assert section.subsections[..|section.subsections|] == section.subsections;
    output := output + [""];
    Regroup(before, head, SubsectionsOutput(section.subsections));
  }

  method RenderChangelog(document: Document) returns (content: string)
    ensures content == Rendered(document)
  {
    hide TrimBlank, Join, Texts, SectionOutput;
    var output: seq<string> := [];
    var prefix := TrimBlankLines(Texts(document.prefixLines));
    if |prefix| > 0 {
      output := output + prefix + [""];
    }
    ghost var before := output;
    assert before == PrefixOutput(prefix);
    for i := 0 to |document.sections|
      invariant output == before + SectionsOutput(document.sections[..i])
    {
      output := PushSection(output, document.sections[i]);
      assert document.sections[..i + 1][..i] == document.sections[..i];
    }
    assert document.sections[..|document.sections|] == document.sections;
    ghost var whole := output;
    while |output| > 0 && output[|output| - 1] == ""
      invariant DropEmptyEnd(output) == DropEmptyEnd(whole)
    {
      output := output[..|output| - 1];
    }
    content := Join(output) + "\n";
  }

  lemma {:induction false} Reassociate(a: seq<string>, b: seq<string>, c: seq<string>, d: seq<string>, e: seq<string>)
    ensures a + (b + c) + d + e == a + (b + (c + (d + e)))
  {
  }

  lemma {:induction false} Regroup(a: seq<string>, b: seq<string>, c: seq<string>)
    ensures a + (b + c) + [""] == a + (b + c + [""])
  {
  }
}
