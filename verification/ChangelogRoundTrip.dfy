/** Reading back what was written: a changelog document without blank subsections survives the round
    trip through its text, up to blank lines around its parts. */
module ChangelogRoundTrip {
  import opened ChangelogText
  import opened Changelog

  // ------------------------------------------------------------ documents that can be written

  ghost predicate BodyLines(lines: seq<NumberedLine>) {
    forall i :: 0 <= i < |lines| ==> BodyLine(lines[i].text)
  }

  ghost predicate GoodSubsection(s: Subsection) {
    ProperTitle(s.title) && BodyLines(s.lines)
  }

  ghost predicate GoodSection(s: ReleaseSection) {
    && Plain(s.heading) && IsReleaseHeading(s.heading) && s.title == ReleaseTitle(s.heading)
    && BodyLines(s.leadingLines)
    && forall i :: 0 <= i < |s.subsections| ==> GoodSubsection(s.subsections[i])
  }

  ghost predicate PrefixLine(line: string) {
    Plain(line) && !IsReleaseHeading(line)
  }

  ghost predicate Good(d: Document) {
    && (forall i :: 0 <= i < |d.prefixLines| ==> PrefixLine(d.prefixLines[i].text))
    && forall i :: 0 <= i < |d.sections| ==> GoodSection(d.sections[i])
  }

  function Content(s: Subsection): seq<string> {
    TrimBlank(Texts(s.lines))
  }

  function Leading(s: ReleaseSection): seq<string> {
    TrimBlank(Texts(s.leadingLines))
  }

  ghost predicate NoneBlank(subsections: seq<Subsection>) {
    forall i :: 0 <= i < |subsections| ==> Content(subsections[i]) != []
  }

  // ------------------------------------------------------------ the same up to blank lines

  ghost predicate SameSubsections(a: seq<Subsection>, b: seq<Subsection>) {
    && |a| == |b|
    && forall i :: 0 <= i < |a| ==> a[i].title == b[i].title && Content(a[i]) == Content(b[i])
  }

  ghost predicate SameSection(a: ReleaseSection, b: ReleaseSection) {
    && a.heading == b.heading && a.title == b.title && Leading(a) == Leading(b)
    && SameSubsections(a.subsections, b.subsections)
  }

  ghost predicate SameSections(a: seq<ReleaseSection>, b: seq<ReleaseSection>) {
    |a| == |b| && forall i :: 0 <= i < |a| ==> SameSection(a[i], b[i])
  }

  ghost predicate Same(a: Document, b: Document) {
    && TrimBlank(Texts(a.prefixLines)) == TrimBlank(Texts(b.prefixLines))
    && SameSections(a.sections, b.sections)
  }

  // ------------------------------------------------------------ the lines, first to last

  /** Between two releases there is a blank line. */
  function Gap(more: bool): seq<string> {
    if more then [""] else []
  }

  /** The lines of some subsections; `more` says whether another release follows. */
  function SubLines(subsections: seq<Subsection>, more: bool): seq<string> {
    if subsections == [] then Gap(more)
    else [""] + ([SubsectionHeading(subsections[0].title)]
                 + ([""] + Content(subsections[0]) + SubLines(subsections[1..], more)))
  }

  function BodyOf(s: ReleaseSection, more: bool): seq<string> {
    LeadingOutput(Leading(s)) + SubLines(s.subsections, more)
  }

  /** The lines of the releases, with a blank line between each and the next. */
  function SecLines(sections: seq<ReleaseSection>): seq<string> {
    if sections == [] then []
    else [sections[0].heading] + (BodyOf(sections[0], |sections| > 1) + SecLines(sections[1..]))
  }

  lemma {:induction false} TextsSlice(ns: seq<NumberedLine>, i: nat, j: nat)
    requires i <= j <= |ns|
    ensures Texts(ns[i..j]) == Texts(ns)[i..j]
    ensures Texts(ns[i..]) == Texts(ns)[i..]
  {
  }

  /** Where the text of some lines is a first part and a second part, so are the lines. */
  lemma {:induction false} TextsParts(ns: seq<NumberedLine>, a: seq<string>, b: seq<string>)
    requires Texts(ns) == a + b
    ensures |ns| == |a| + |b| && Texts(ns[..|a|]) == a && Texts(ns[|a|..]) == b
  {
    TextsSlice(ns, 0, |a|);
    TextsSlice(ns, |a|, |ns|);
    assert ns[0..|a|] == ns[..|a|];
  }

  lemma {:induction false} SkipSubsection(ns: seq<NumberedLine>, i: nat, j: nat)
    requires i <= j <= |ns|
    requires forall k :: i <= k < j ==> !IsSubsectionHeading(ns[k].text)
    ensures NextSubsection(ns, i) == NextSubsection(ns, j)
    decreases j - i
  {
    hide IsSubsectionHeading;
    if i < j { SkipSubsection(ns, i + 1, j); }
  }

  lemma {:induction false} SkipRelease(ns: seq<NumberedLine>, i: nat, j: nat)
    requires i <= j <= |ns|
    requires forall k :: i <= k < j ==> !IsReleaseHeading(ns[k].text)
    ensures NextRelease(ns, i) == NextRelease(ns, j)
    decreases j - i
  {
    hide IsReleaseHeading;
    if i < j { SkipRelease(ns, i + 1, j); }
  }

  ghost predicate NoSubsection(texts: seq<string>) {
    forall i :: 0 <= i < |texts| ==> !IsSubsectionHeading(texts[i])
  }

  ghost predicate NoRelease(texts: seq<string>) {
    forall i :: 0 <= i < |texts| ==> !IsReleaseHeading(texts[i])
  }

  /** The next heading lies in the second part when the first has none. */
  lemma {:induction false} NextInSecondPart(ns: seq<NumberedLine>, a: seq<string>, b: seq<string>)
    requires Texts(ns) == a + b && NoSubsection(a)
    ensures |ns| == |a| + |b|
    ensures NextSubsection(ns, 0) == |a| + NextSubsection(ns[|a|..], 0)
  {
    hide IsSubsectionHeading, NextSubsection;
    TextsParts(ns, a, b);
    forall k | 0 <= k < |a|
      ensures !IsSubsectionHeading(ns[k].text)
    {
      assert Texts(ns)[k] == a[k];
    }
    SkipSubsection(ns, 0, |a|);
    NextSubsectionShifts(ns, |a|, |a|);
  }

  lemma {:induction false} NextReleaseInSecondPart(ns: seq<NumberedLine>, a: seq<string>, b: seq<string>)
    requires Texts(ns) == a + b && NoRelease(a)
    ensures |ns| == |a| + |b|
    ensures NextRelease(ns, 0) == |a| + NextRelease(ns[|a|..], 0)
  {
    hide IsReleaseHeading, NextRelease;
    TextsParts(ns, a, b);
    forall k | 0 <= k < |a|
      ensures !IsReleaseHeading(ns[k].text)
    {
      assert Texts(ns)[k] == a[k];
    }
    SkipRelease(ns, 0, |a|);
    NextReleaseShifts(ns, |a|, |a|);
  }

  // ------------------------------------------------------------ what the parts consist of

  lemma {:induction false} ContentLinesGood(lines: seq<NumberedLine>)
    requires BodyLines(lines)
    ensures forall l :: l in TrimBlank(Texts(lines)) ==> BodyLine(l)
  {
    hide TrimBlank, BodyLine;
    TrimBlankShape(Texts(lines));
  }

  lemma {:induction false} NoHeadingIn(texts: seq<string>)
    requires forall l :: l in texts ==> BodyLine(l)
    ensures NoSubsection(texts) && NoRelease(texts) && AllPlain(texts)
  {
    hide IsSubsectionHeading, IsReleaseHeading, Plain;
    forall i | 0 <= i < |texts|
      ensures BodyLine(texts[i])
    {
      assert texts[i] in texts;
    }
  }

  lemma {:induction false} NoHeadingInPadded(texts: seq<string>)
    requires forall l :: l in texts ==> BodyLine(l)
    ensures forall l :: l in [""] + texts ==> BodyLine(l)
  {
    EmptyLine();
    hide BodyLine;
  }

  // ------------------------------------------------------------ reading subsections back

  /** What a body has before its first subsection heading, its own leading lines apart. */
  function Lead(subsections: seq<Subsection>, more: bool): seq<string> {
    if subsections == [] then Gap(more) else [""]
  }

  lemma {:induction false} SubLinesUnfold(subsections: seq<Subsection>, more: bool)
    requires subsections != []
    ensures SubLines(subsections, more)
         == [""] + ([SubsectionHeading(subsections[0].title)]
                    + (([""] + Content(subsections[0])) + SubLines(subsections[1..], more)))
  {
    hide Content, SubsectionHeading;
  }

  lemma {:induction false} NoneOfThem(ns: seq<NumberedLine>)
    requires NoSubsection(Texts(ns))
    ensures forall k :: 0 <= k < |ns| ==> !IsSubsectionHeading(ns[k].text)
  {
    hide IsSubsectionHeading;
    assert forall k :: 0 <= k < |ns| ==> Texts(ns)[k] == ns[k].text;
  }

  lemma {:induction false} NoneFound(ns: seq<NumberedLine>)
    requires NoSubsection(Texts(ns))
    ensures NextSubsection(ns, 0) == |ns|
  {
    hide *;
    NoneOfThem(ns);
    SkipSubsection(ns, 0, |ns|);
  }

  lemma {:induction false} GapLines(more: bool)
    ensures NoSubsection(Gap(more)) && NoRelease(Gap(more)) && AllPlain(Gap(more))
  {
    EmptyLine();
    hide IsSubsectionHeading, IsReleaseHeading;
  }

  /** Lines that are one blank line at most have no heading. */
  lemma {:induction false} ParseGap(ns: seq<NumberedLine>, more: bool)
    requires Texts(ns) == Gap(more)
    ensures NextSubsection(ns, 0) == |ns| && ParsedSubsections(ns[|ns|..]) == []
  {
    hide *;
    GapLines(more);
    NoneFound(ns);
    NoMore();
    assert ns[|ns|..] == [];
  }

  lemma {:induction false} HeadingLine(ns: seq<NumberedLine>, title: string, rest: seq<string>)
    requires ProperTitle(title) && Texts(ns) == [SubsectionHeading(title)] + rest
    ensures |ns| >= 1 && IsSubsectionHeading(ns[0].text) && SubsectionTitle(ns[0].text) == title
    ensures NextSubsection(ns, 0) == 0
  {
    HeadingOfTitle(title);
    assert ns[0].text == Texts(ns)[0] == SubsectionHeading(title);
    hide IsSubsectionHeading, SubsectionTitle, SubsectionHeading;
  }

  /** A subsection heading, its lines, and what follows: the heading and its lines are read as one
      subsection, up to the blank line before the next. */
  lemma {:induction false} ParseOne(ns: seq<NumberedLine>, title: string, lines: seq<string>, rest: seq<string>,
                                    inner: seq<NumberedLine>)
    requires ProperTitle(title) && NoSubsection(lines)
    requires Texts(ns) == [SubsectionHeading(title)] + (lines + rest)
    requires |ns| == 1 + |lines| + |rest| && inner == ns[1..][|lines|..]
    ensures var k := 1 + |lines| + NextSubsection(inner, 0);
      && k <= |ns| && StartsWithSubsection(ns) && StartsWithSubsection(ns[k..])
      && ns[k..] == inner[NextSubsection(inner, 0)..]
      && Texts(ns[1..k]) == lines + Texts(inner[..NextSubsection(inner, 0)])
      && ParsedSubsections(ns) == [Subsection(title, ns[1..k])] + ParsedSubsections(ns[k..])
  {
    hide *;
    HeadingLine(ns, title, lines + rest);
    TextsParts(ns, [SubsectionHeading(title)], lines + rest);
    NextInSecondPart(ns[1..], lines, rest);
    NextSubsectionShifts(ns, 1, 1);
    SubsectionsUnfold(ns);
    TextsParts(ns[1..], lines, rest);
    SliceAround(ns, |lines|, NextSubsection(inner, 0));
    TextsConcat(ns[1..][..|lines|], inner[..NextSubsection(inner, 0)]);
  }

  lemma {:induction false} SliceAround(ns: seq<NumberedLine>, n: nat, j: nat)
    requires 1 + n + j <= |ns|
    ensures ns[1..1 + n + j] == ns[1..][..n] + ns[1..][n..][..j]
    ensures ns[1 + n + j..] == ns[1..][n..][j..]
  {
  }

  lemma {:induction false} TextsConcat(a: seq<NumberedLine>, b: seq<NumberedLine>)
    ensures Texts(a + b) == Texts(a) + Texts(b)
  {
  }

  /** The lines after the heading and the content of the first of some subsections. */
  function Inner(ns: seq<NumberedLine>, subs: seq<Subsection>): seq<NumberedLine>
    requires subs != [] && |ns| >= 3 + |Content(subs[0])|
  {
    ns[1..][1..][1 + |Content(subs[0])|..]
  }

  lemma {:induction false} SplitFirst(ns: seq<NumberedLine>, subs: seq<Subsection>, more: bool)
    requires subs != [] && Texts(ns) == SubLines(subs, more)
    requires NoSubsection([""]) && IsSubsectionHeading(SubsectionHeading(subs[0].title))
    ensures |ns| == 3 + |Content(subs[0])| + |SubLines(subs[1..], more)|
    ensures Texts(ns[1..])
         == [SubsectionHeading(subs[0].title)] + (([""] + Content(subs[0])) + SubLines(subs[1..], more))
    ensures Texts(Inner(ns, subs)) == SubLines(subs[1..], more)
    ensures Inner(ns, subs) == ns[1..][1..][|[""] + Content(subs[0])|..]
    ensures NextSubsection(ns, 0) == 1 && Texts(ns[..1]) == [""]
  {
    var lines, after := [""] + Content(subs[0]), SubLines(subs[1..], more);
    var block := [SubsectionHeading(subs[0].title)] + (lines + after);
    assert NextSubsection(ns[1..], 0) == 0 by {
      SubLinesUnfold(subs, more);
      TextsParts(ns, [""], block);
      assert Texts(ns[1..])[0] == ns[1..][0].text == SubsectionHeading(subs[0].title);
      hide *;
    }
    assert Inner(ns, subs) == ns[1..][1..][|lines|..] by {
      SubLinesUnfold(subs, more);
      TextsParts(ns, [""], block);
      hide Content, SubLines, Texts;
    }
    hide *;
    SubLinesUnfold(subs, more);
    NextInSecondPart(ns, [""], block);
    TextsParts(ns, [""], block);
    TextsParts(ns[1..], [SubsectionHeading(subs[0].title)], lines + after);
    TextsParts(ns[1..][1..], lines, after);
  }

  /** The lines before the first heading are blank, and the subsections from there on are `subs`. */
  ghost predicate ReadsAs(ns: seq<NumberedLine>, subs: seq<Subsection>, more: bool) {
    var k := NextSubsection(ns, 0);
    && Texts(ns[..k]) == Lead(subs, more)
    && SameSubsections(ParsedSubsections(ns[k..]), subs)
  }

  lemma {:induction false} ParseSubs(ns: seq<NumberedLine>, subs: seq<Subsection>, more: bool)
    requires Texts(ns) == SubLines(subs, more)
    requires forall i :: 0 <= i < |subs| ==> GoodSubsection(subs[i])
    ensures ReadsAs(ns, subs, more)
    decreases |subs|, 1
  {
    hide ReadsAs, Texts, GoodSubsection;
    if subs == [] {
      ParseNone(ns, more);
    } else {
      ParseSome(ns, subs, more);
    }
  }

  lemma {:induction false} ParseNone(ns: seq<NumberedLine>, more: bool)
    requires Texts(ns) == Gap(more)
    ensures ReadsAs(ns, [], more)
  {
    hide Texts, Gap, NextSubsection, IsSubsectionHeading, ParsedSubsections;
    ParseGap(ns, more);
    assert ns[..|ns|] == ns && ns[|ns|..] == [];
  }

  lemma {:induction false} ParseSome(ns: seq<NumberedLine>, subs: seq<Subsection>, more: bool)
    requires subs != [] && Texts(ns) == SubLines(subs, more)
    requires forall i :: 0 <= i < |subs| ==> GoodSubsection(subs[i])
    ensures ReadsAs(ns, subs, more)
    decreases |subs|, 0
  {
    hide *;
    SubsectionLines(subs[0]);
    SplitFirst(ns, subs, more);
    ParseSubs(Inner(ns, subs), subs[1..], more);
    ParseOne(ns[1..], subs[0].title, [""] + Content(subs[0]), SubLines(subs[1..], more), Inner(ns, subs));
    FirstSubsection(ns, subs, more, Inner(ns, subs));
  }

  lemma {:induction false} SubsectionLines(s: Subsection)
    requires GoodSubsection(s)
    ensures ProperTitle(s.title) && IsSubsectionHeading(SubsectionHeading(s.title))
    ensures NoSubsection([""] + Content(s)) && NoSubsection([""]) && NoRelease([""] + Content(s))
    ensures AllPlain([""] + Content(s))
  {
    ContentLinesGood(s.lines);
    HeadingOfTitle(s.title);
    EmptyLine();
    NoHeadingInPadded(Content(s));
    NoHeadingIn([""] + Content(s));
    NoHeadingIn([""]);
    hide IsSubsectionHeading, SubsectionHeading, Content, BodyLine, ProperTitle, NoSubsection, NoRelease;
  }

  lemma {:induction false} FirstSubsection(ns: seq<NumberedLine>, subs: seq<Subsection>, more: bool,
                                           inner: seq<NumberedLine>)
    requires subs != [] && |ns| >= 1
    requires NextSubsection(ns, 0) == 1 && Texts(ns[..1]) == [""]
    requires ReadsAs(inner, subs[1..], more)
    requires var body, j := ns[1..], NextSubsection(inner, 0);
      && StartsWithSubsection(body)
      && var k := 1 + |[""] + Content(subs[0])| + j;
      && k <= |body| && StartsWithSubsection(body[k..]) && body[k..] == inner[j..]
      && Texts(body[1..k]) == [""] + Content(subs[0]) + Texts(inner[..j])
      && ParsedSubsections(body) == [Subsection(subs[0].title, body[1..k])] + ParsedSubsections(body[k..])
    ensures ReadsAs(ns, subs, more)
  {
    hide Content, Texts, NextSubsection, IsSubsectionHeading, ParsedSubsections, StartsWithSubsection;
    var body, j := ns[1..], NextSubsection(inner, 0);
    var k := 1 + |[""] + Content(subs[0])| + j;
    ContentPadded(Subsection(subs[0].title, body[1..k]), subs[0], Texts(inner[..j]));
    var found := ParsedSubsections(inner[j..]);
    assert ParsedSubsections(body) == [Subsection(subs[0].title, body[1..k])] + found;
    forall i | 0 < i < |subs|
      ensures ([Subsection(subs[0].title, body[1..k])] + found)[i].title == subs[i].title
      ensures Content(([Subsection(subs[0].title, body[1..k])] + found)[i]) == Content(subs[i])
    {
      assert subs[i] == subs[1..][i - 1];
    }
  }

  lemma {:induction false} ContentPadded(read: Subsection, written: Subsection, after: seq<string>)
    requires Texts(read.lines) == [""] + Content(written) + after
    requires after == [] || after == [""]
    ensures Content(read) == Content(written)
  {
    TrimTwice(Texts(written.lines));
    hide TrimBlank, Texts;
    TrimPadded(Content(written), [""], after);
  }

  // ------------------------------------------------------------ reading releases back

  lemma {:induction false} LeadingPadded(lead: seq<string>, after: seq<string>)
    requires TrimBlank(lead) == lead && (after == [] || after == [""])
    ensures TrimBlank(LeadingOutput(lead) + after) == lead
  {
    hide TrimBlank;
    if lead == [] {
      TrimPadded([], [], after);
      assert [] + [] + after == LeadingOutput(lead) + after;
    } else {
      TrimPadded(lead, [""], after);
    }
  }

  lemma {:induction false} LeadingLines(s: ReleaseSection)
    requires GoodSection(s)
    ensures NoSubsection(LeadingOutput(Leading(s))) && NoRelease(LeadingOutput(Leading(s)))
    ensures AllPlain(LeadingOutput(Leading(s))) && TrimBlank(Leading(s)) == Leading(s)
  {
    ContentLinesGood(s.leadingLines);
    TrimTwice(Texts(s.leadingLines));
    hide TrimBlank, BodyLine, Texts;
    NoHeadingInPadded(Leading(s));
    NoHeadingIn(LeadingOutput(Leading(s)));
  }

  /** The body of a release is read back as its leading lines and its subsections. */
  lemma {:induction false} ParseBody(ns: seq<NumberedLine>, s: ReleaseSection, more: bool)
    requires GoodSection(s) && Texts(ns) == BodyOf(s, more)
    ensures SameSection(ParsedSection(s.heading, ns), s)
  {
    BodyParts(s, more);
    hide *;
    LeadingLines(s);
    var lead, rest := LeadingOutput(Leading(s)), SubLines(s.subsections, more);
    NextInSecondPart(ns, lead, rest);
    TextsParts(ns, lead, rest);
    ParseSubs(ns[|lead|..], s.subsections, more);
    BodyReads(ns, s, more, ns[|lead|..]);
  }

  lemma {:induction false} BodyParts(s: ReleaseSection, more: bool)
    requires GoodSection(s)
    ensures BodyOf(s, more) == LeadingOutput(Leading(s)) + SubLines(s.subsections, more)
    ensures forall i :: 0 <= i < |s.subsections| ==> GoodSubsection(s.subsections[i])
  {
    hide Leading, LeadingOutput, SubLines, GoodSubsection, BodyLines, IsReleaseHeading, ReleaseTitle, Plain;
  }

  lemma {:induction false} BodyReads(ns: seq<NumberedLine>, s: ReleaseSection, more: bool, inner: seq<NumberedLine>)
    requires GoodSection(s) && TrimBlank(Leading(s)) == Leading(s)
    requires var lead := LeadingOutput(Leading(s));
      |ns| >= |lead| && inner == ns[|lead|..] && Texts(ns[..|lead|]) == lead
      && NextSubsection(ns, 0) == |lead| + NextSubsection(inner, 0)
    requires ReadsAs(inner, s.subsections, more)
    ensures SameSection(ParsedSection(s.heading, ns), s)
  {
    hide Texts, NextSubsection, Leading, LeadingOutput, ParsedSubsections, SameSubsections, TrimBlank, GoodSection;
    hide IsSubsectionHeading, ParsedSection, SameSection;
    var lead, j := LeadingOutput(Leading(s)), NextSubsection(inner, 0);
    var k := |lead| + j;
    assert ns[..k] == ns[..|lead|] + inner[..j] && ns[k..] == inner[j..];
    TextsConcat(ns[..|lead|], inner[..j]);
    LeadingPadded(Leading(s), Lead(s.subsections, more));
    SameParts(s, ns, k);
  }

  lemma {:induction false} SameParts(s: ReleaseSection, ns: seq<NumberedLine>, k: nat)
    requires GoodSection(s) && k == NextSubsection(ns, 0)
    requires TrimBlank(Texts(ns[..k])) == Leading(s)
    requires SameSubsections(ParsedSubsections(ns[k..]), s.subsections)
    ensures SameSection(ParsedSection(s.heading, ns), s)
  {
    hide TrimBlank, Texts, NextSubsection, ParsedSubsections;
    hide SameSubsections, IsReleaseHeading, BodyLines, GoodSubsection;
  }

  lemma {:induction false} SubLinesGood(subs: seq<Subsection>, more: bool)
    requires forall i :: 0 <= i < |subs| ==> GoodSubsection(subs[i])
    ensures NoRelease(SubLines(subs, more)) && AllPlain(SubLines(subs, more))
    decreases |subs|
  {
    hide GoodSubsection;
    if subs == [] {
      GapLines(more);
    } else {
      SubLinesGood(subs[1..], more);
      SubsectionLines(subs[0]);
      GapLines(true);
      HeadingAlone(subs[0]);
      SubLinesUnfold(subs, more);
      hide SubLines;
      NoReleaseConcat([""] + Content(subs[0]), SubLines(subs[1..], more));
      var tail := ([""] + Content(subs[0])) + SubLines(subs[1..], more);
      NoReleaseConcat([SubsectionHeading(subs[0].title)], tail);
      NoReleaseConcat([""], [SubsectionHeading(subs[0].title)] + tail);
    }
  }

  lemma {:induction false} HeadingAlone(s: Subsection)
    requires GoodSubsection(s)
    ensures NoRelease([SubsectionHeading(s.title)]) && AllPlain([SubsectionHeading(s.title)])
  {
    hide IsReleaseHeading, SubsectionHeading, Plain, ProperTitle;
    hide BodyLines, IsSubsectionHeading, SubsectionTitle, Blank;
    HeadingOfTitle(s.title);
  }

  lemma {:induction false} NoReleaseConcat(a: seq<string>, b: seq<string>)
    requires NoRelease(a) && NoRelease(b) && AllPlain(a) && AllPlain(b)
    ensures NoRelease(a + b) && AllPlain(a + b)
  {
    hide IsReleaseHeading, Plain;
  }

  lemma {:induction false} BodyGood(s: ReleaseSection, more: bool)
    requires GoodSection(s)
    ensures NoRelease(BodyOf(s, more)) && AllPlain(BodyOf(s, more))
  {
    LeadingLines(s);
    SubLinesGood(s.subsections, more);
    hide SubLines, GoodSubsection, Leading, LeadingOutput, NoRelease, AllPlain, IsReleaseHeading;
    NoReleaseConcat(LeadingOutput(Leading(s)), SubLines(s.subsections, more));
  }

  lemma {:induction false} SecLinesUnfold(sections: seq<ReleaseSection>)
    requires sections != []
    ensures SecLines(sections)
         == [sections[0].heading] + (BodyOf(sections[0], |sections| > 1) + SecLines(sections[1..]))
  {
    hide BodyOf;
  }

  ghost predicate SectionsReadAs(ns: seq<NumberedLine>, sections: seq<ReleaseSection>) {
    StartsWithRelease(ns) && SameSections(ParsedSections(ns), sections)
  }

  lemma {:induction false} ParseSecs(ns: seq<NumberedLine>, sections: seq<ReleaseSection>)
    requires Texts(ns) == SecLines(sections)
    requires forall i :: 0 <= i < |sections| ==> GoodSection(sections[i])
    ensures SectionsReadAs(ns, sections)
    decreases |sections|
  {
    if sections == [] {
      NoMore();
    } else {
      var s, rest, more := sections[0], sections[1..], |sections| > 1;
      assert GoodSection(s) && IsReleaseHeading(s.heading);
      hide *;
      var body, after := BodyOf(s, more), SecLines(rest);
      SecLinesUnfold(sections);
      TextsParts(ns, [s.heading], body + after);
      TextsParts(ns[1..], body, after);
      var inner := ns[1..][|body|..];
      ParseSecs(inner, rest);
      BodyGood(s, more);
      ParseBody(ns[1..][..|body|], s, more);
      FirstSection(ns, sections, inner);
    }
  }

  lemma {:induction false} FirstSection(ns: seq<NumberedLine>, sections: seq<ReleaseSection>, inner: seq<NumberedLine>)
    requires sections != [] && |ns| >= 1
    requires var s, body := sections[0], BodyOf(sections[0], |sections| > 1);
      && Texts(ns[..1]) == [s.heading] && IsReleaseHeading(s.heading) && NoRelease(body)
      && Texts(ns[1..]) == body + SecLines(sections[1..])
      && |ns[1..]| >= |body| && inner == ns[1..][|body|..]
      && SameSection(ParsedSection(s.heading, ns[1..][..|body|]), s)
    requires SectionsReadAs(inner, sections[1..])
    ensures SectionsReadAs(ns, sections)
  {
    hide BodyOf, NoRelease, IsReleaseHeading, ParsedSection, ParsedSections, SameSection, SecLines, NextRelease;
    var s, body := sections[0], BodyOf(sections[0], |sections| > 1);
    assert ns[0].text == Texts(ns[..1])[0] == s.heading;
    NextReleaseInSecondPart(ns[1..], body, SecLines(sections[1..]));
    StartsAtOnce(inner);
    NextReleaseShifts(ns, 1, 1);
    SectionsUnfold(ns);
    var k := 1 + |body|;
    assert ns[1..k] == ns[1..][..|body|] && ns[k..] == inner;
    var found := ParsedSections(inner);
    var first := ParsedSection(s.heading, ns[1..k]);
    assert ParsedSections(ns) == [first] + found;
    forall i | 0 < i < |sections|
      ensures SameSection(([first] + found)[i], sections[i])
    {
      assert sections[i] == sections[1..][i - 1];
    }
  }

  lemma {:induction false} StartsAtOnce(ns: seq<NumberedLine>)
    requires StartsWithRelease(ns)
    ensures NextRelease(ns, 0) == 0
  {
    hide IsReleaseHeading;
  }

  // ------------------------------------------------------------ what is written, first to last

  lemma {:induction false} SubsectionsOutputFirst(subs: seq<Subsection>)
    requires subs != []
    ensures SubsectionsOutput(subs) == SubsectionOutput(subs[0]) + SubsectionsOutput(subs[1..])
    decreases |subs|
  {
    hide SubsectionOutput;
    var last := subs[|subs| - 1];
    if |subs| == 1 {
      assert subs[..0] == [] && subs[1..] == [];
    } else {
      SubsectionsOutputFirst(subs[..|subs| - 1]);
      assert subs[..|subs| - 1][1..] == subs[1..][..|subs| - 2];
      assert SubsectionsOutput(subs[1..]) == SubsectionsOutput(subs[1..][..|subs| - 2]) + SubsectionOutput(last);
    }
  }

  lemma {:induction false} SectionsOutputFirst(sections: seq<ReleaseSection>)
    requires sections != []
    ensures SectionsOutput(sections) == SectionOutput(sections[0]) + SectionsOutput(sections[1..])
    decreases |sections|
  {
    hide SectionOutput;
    var last := sections[|sections| - 1];
    if |sections| == 1 {
      assert sections[..0] == [] && sections[1..] == [];
    } else {
      SectionsOutputFirst(sections[..|sections| - 1]);
      assert sections[..|sections| - 1][1..] == sections[1..][..|sections| - 2];
      assert SectionsOutput(sections[1..]) == SectionsOutput(sections[1..][..|sections| - 2]) + SectionOutput(last);
    }
  }

  lemma {:induction false} SubLinesAreOutput(subs: seq<Subsection>, more: bool)
    requires NoneBlank(subs)
    ensures SubsectionsOutput(subs) + Gap(more) == SubLines(subs, more)
    decreases |subs|
  {
    hide Content, SubsectionHeading, TrimBlank, Texts;
    if subs != [] {
      SubsectionsOutputFirst(subs);
      SubLinesAreOutput(subs[1..], more);
      assert Content(subs[0]) != [];
      OneOutput(subs[0]);
      SubLinesUnfold(subs, more);
      hide *;
      Flatten(SubsectionHeading(subs[0].title), Content(subs[0]), SubsectionsOutput(subs[1..]), Gap(more));
    }
  }

  lemma {:induction false} OneOutput(s: Subsection)
    requires Content(s) != []
    ensures SubsectionOutput(s) == ["", SubsectionHeading(s.title), ""] + Content(s)
  {
    hide TrimBlank, Texts, SubsectionHeading;
  }

  lemma {:induction false} Flatten(h: string, c: seq<string>, r: seq<string>, g: seq<string>)
    ensures (["", h, ""] + c) + r + g == [""] + ([h] + (([""] + c) + (r + g)))
  {
  }

  ghost predicate NoBlankSections(sections: seq<ReleaseSection>) {
    forall i :: 0 <= i < |sections| ==> NoneBlank(sections[i].subsections)
  }

  lemma {:induction false} SectionIsOutput(s: ReleaseSection)
    requires NoneBlank(s.subsections)
    ensures SectionOutput(s) == [s.heading] + BodyOf(s, true)
    ensures SectionOutput(s) == [s.heading] + BodyOf(s, false) + [""]
  {
    hide Leading, LeadingOutput, SubLines, SubsectionsOutput, TrimBlank, Texts, NoneBlank;
    SubLinesAreOutput(s.subsections, true);
    SubLinesAreOutput(s.subsections, false);
    assert Leading(s) == TrimBlank(Texts(s.leadingLines)) by { LeadingUnfolds(s); }
    assert SubsectionsOutput(s.subsections) + [] == SubsectionsOutput(s.subsections);
  }

  lemma {:induction false} LeadingUnfolds(s: ReleaseSection)
    ensures Leading(s) == TrimBlank(Texts(s.leadingLines))
  {
  }

  lemma {:induction false} SecLinesAreOutput(sections: seq<ReleaseSection>)
    requires sections != [] && NoBlankSections(sections)
    ensures SectionsOutput(sections) == SecLines(sections) + [""]
    decreases |sections|
  {
    var s, rest := sections[0], sections[1..];
    assert NoneBlank(s.subsections);
    assert SecLines([]) == [] && SectionsOutput([]) == [];
    assert |sections| > 1 ==> NoBlankSections(rest);
    hide *;
    SectionsOutputFirst(sections);
    SectionIsOutput(s);
    SecLinesUnfold(sections);
    if |sections| == 1 {
      assert rest == [];
      LastFlat(s.heading, BodyOf(s, false));
    } else {
      SecLinesAreOutput(rest);
      MoreFlat(s.heading, BodyOf(s, true), SecLines(rest));
    }
  }

  lemma {:induction false} LastFlat(h: string, b: seq<string>)
    ensures [h] + b + [""] + [] == [h] + (b + []) + [""]
  {
  }

  lemma {:induction false} MoreFlat(h: string, b: seq<string>, r: seq<string>)
    ensures ([h] + b) + (r + [""]) == [h] + (b + r) + [""]
  {
  }

  // ------------------------------------------------------------ the end of the text

  ghost predicate EndsInText(lines: seq<string>) {
    lines != [] && lines[|lines| - 1] != ""
  }

  lemma {:induction false} ContentEnds(s: Subsection)
    requires Content(s) != []
    ensures EndsInText(Content(s))
  {
    TrimBlankShape(Texts(s.lines));
    EmptyLine();
    hide TrimBlank, Texts, BodyLine, Blank;
  }

  lemma {:induction false} SubLinesEnd(subs: seq<Subsection>)
    requires subs != [] && NoneBlank(subs)
    ensures EndsInText(SubLines(subs, false))
    decreases |subs|
  {
    hide Content, SubsectionHeading;
    SubLinesUnfold(subs, false);
    assert Content(subs[0]) != [];
    if |subs| == 1 {
      ContentEnds(subs[0]);
      assert SubLines(subs[1..], false) == [];
    } else {
      SubLinesEnd(subs[1..]);
    }
    hide SubLines;
  }

  lemma {:induction false} BodyEnds(s: ReleaseSection)
    requires NoneBlank(s.subsections) && IsReleaseHeading(s.heading)
    ensures EndsInText([s.heading] + BodyOf(s, false))
  {
    hide TrimBlank, Texts, SubLines, Blank, NoneBlank, IsReleaseHeading, BodyLine, SubsectionHeading, Content;
    ReleaseHeadingNotBlank(s.heading);
    EmptyLine();
    NoSubLines();
    assert s.heading != "";
    if s.subsections != [] {
      SubLinesEnd(s.subsections);
    } else {
      TrimBlankShape(Texts(s.leadingLines));
    }
  }

  lemma {:induction false} NoSubLines()
    ensures SubLines([], false) == []
  {
  }

  lemma {:induction false} SecLinesEnd(sections: seq<ReleaseSection>)
    requires sections != [] && NoBlankSections(sections)
    requires forall i :: 0 <= i < |sections| ==> IsReleaseHeading(sections[i].heading)
    ensures EndsInText(SecLines(sections))
    decreases |sections|
  {
    hide BodyOf, NoneBlank, IsReleaseHeading;
    SecLinesUnfold(sections);
    if |sections| == 1 {
      BodyEnds(sections[0]);
      assert SecLines(sections[1..]) == [];
    } else {
      SecLinesEnd(sections[1..]);
    }
    hide SecLines;
  }

  lemma {:induction false} SecLinesPlain(sections: seq<ReleaseSection>)
    requires forall i :: 0 <= i < |sections| ==> GoodSection(sections[i])
    ensures AllPlain(SecLines(sections))
    decreases |sections|
  {
    hide GoodSection, Plain, BodyOf, IsReleaseHeading;
    if sections != [] {
      var s, more := sections[0], |sections| > 1;
      SecLinesPlain(sections[1..]);
      assert GoodSection(s);
      BodyGood(s, more);
      HeadingPlain(s);
      SecLinesUnfold(sections);
    }
  }

  lemma {:induction false} HeadingPlain(s: ReleaseSection)
    requires GoodSection(s)
    ensures Plain(s.heading) && IsReleaseHeading(s.heading)
  {
  }

  // ------------------------------------------------------------ whole documents

  lemma {:induction false} PrefixLines(d: Document)
    requires Good(d)
    ensures var p := TrimBlank(Texts(d.prefixLines));
      && NoRelease(PrefixOutput(p)) && AllPlain(PrefixOutput(p)) && TrimBlank(p) == p && (p != [] ==> EndsInText(p))
  {
    hide TrimBlank, GoodSection, Blank, IsReleaseHeading, Plain, BodyLine;
    var texts := Texts(d.prefixLines);
    var p := TrimBlank(texts);
    TrimBlankShape(texts);
    TrimTwice(texts);
    assert forall l :: l in texts ==> PrefixLine(l);
    EmptyPrefixLine();
    PaddedPrefix(p);
    if p != [] { NotEmpty(p[|p| - 1]); }
  }

  lemma {:induction false} EmptyPrefixLine()
    ensures PrefixLine("")
  {
    EmptyLine();
  }

  lemma {:induction false} NotEmpty(line: string)
    requires !Blank(line)
    ensures line != ""
  {
    EmptyLine();
  }

  lemma {:induction false} PaddedPrefix(p: seq<string>)
    requires forall l :: l in p ==> PrefixLine(l)
    requires PrefixLine("")
    ensures NoRelease(PrefixOutput(p)) && AllPlain(PrefixOutput(p))
  {
    hide IsReleaseHeading, Plain;
    forall l | l in PrefixOutput(p)
      ensures PrefixLine(l)
    {
    }
    forall i | 0 <= i < |PrefixOutput(p)|
      ensures PrefixLine(PrefixOutput(p)[i])
    {
    }
  }

  /** The lines of the text written for a document. */
  function WrittenLines(d: Document): seq<string> {
    DropEmptyEnd(Output(d))
  }

  lemma {:induction false} WrittenSections(d: Document)
    requires Good(d) && d.sections != [] && NoBlankSections(d.sections)
    ensures WrittenLines(d) == PrefixOutput(TrimBlank(Texts(d.prefixLines))) + SecLines(d.sections)
    ensures WrittenLines(d) != [] && AllPlain(WrittenLines(d))
  {
    assert forall i :: 0 <= i < |d.sections| ==> GoodSection(d.sections[i]);
    OutputUnfolds(d);
    hide *;
    PrefixLines(d);
    AllReleaseHeadings(d.sections);
    SecLinesAreOutput(d.sections);
    SecLinesEnd(d.sections);
    SecLinesPlain(d.sections);
    OneEmptyEnd(PrefixOutput(TrimBlank(Texts(d.prefixLines))), SecLines(d.sections));
  }

  lemma {:induction false} OutputUnfolds(d: Document)
    ensures WrittenLines(d) == DropEmptyEnd(PrefixOutput(TrimBlank(Texts(d.prefixLines))) + SectionsOutput(d.sections))
  {
    hide PrefixOutput, TrimBlank, SectionsOutput, DropEmptyEnd, Texts;
  }

  lemma {:induction false} OneEmptyEnd(a: seq<string>, b: seq<string>)
    requires EndsInText(b) && AllPlain(a) && AllPlain(b)
    ensures DropEmptyEnd(a + (b + [""])) == a + b && AllPlain(a + b) && a + b != []
  {
    hide Plain;
    var all := a + (b + [""]);
    assert all[..|all| - 1] == a + b;
    assert DropEmptyEnd(a + b) == a + b;
  }

  lemma {:induction false} AllReleaseHeadings(sections: seq<ReleaseSection>)
    requires forall i :: 0 <= i < |sections| ==> GoodSection(sections[i])
    ensures forall i :: 0 <= i < |sections| ==> IsReleaseHeading(sections[i].heading)
  {
    hide BodyLines, GoodSubsection, IsReleaseHeading, ReleaseTitle, Plain;
  }

  lemma {:induction false} NumberedTexts(texts: seq<string>)
    ensures Texts(Numbered(texts)) == texts
  {
  }

  /** Reading back what was written for a document whose subsections are not blank gives that document,
      up to blank lines at the ends of its parts. */
  lemma {:induction false} WrittenDocumentReadsBack(d: Document)
    requires Good(d) && NoBlankSections(d.sections) && d.sections != []
    ensures Same(Parsed(Rendered(d)), d)
  {
    WrittenSections(d);
    PrefixLines(d);
    var lines := WrittenLines(d);
    WrittenLinesReadBack(lines);
    NumberedTexts(lines);
    assert Parsed(Rendered(d)) == ParsedLines(Numbered(lines)) by {
      hide WrittenLines, Join, ContentLines, ParsedLines, Numbered;
    }
    assert forall i :: 0 <= i < |d.sections| ==> GoodSection(d.sections[i]);
    ReadLines(Numbered(lines), d);
    hide ParsedLines, Numbered, WrittenLines, Good, Same;
  }

  lemma {:induction false} ReadLines(ns: seq<NumberedLine>, d: Document)
    requires forall i :: 0 <= i < |d.sections| ==> GoodSection(d.sections[i])
    requires var p := TrimBlank(Texts(d.prefixLines));
      Texts(ns) == PrefixOutput(p) + SecLines(d.sections) && NoRelease(PrefixOutput(p)) && TrimBlank(p) == p
    ensures Same(ParsedLines(ns), d)
  {
    hide *;
    var p := TrimBlank(Texts(d.prefixLines));
    var k := |PrefixOutput(p)|;
    NextReleaseInSecondPart(ns, PrefixOutput(p), SecLines(d.sections));
    TextsParts(ns, PrefixOutput(p), SecLines(d.sections));
    ParseSecs(ns[k..], d.sections);
    DocumentParts(ns, d, k);
  }

  lemma {:induction false} DocumentParts(ns: seq<NumberedLine>, d: Document, k: nat)
    requires k <= |ns| && NextRelease(ns, 0) == k + NextRelease(ns[k..], 0)
    requires SectionsReadAs(ns[k..], d.sections)
    requires var p := TrimBlank(Texts(d.prefixLines)); Texts(ns[..k]) == PrefixOutput(p) && TrimBlank(p) == p
    ensures Same(ParsedLines(ns), d)
  {
    hide Texts, TrimBlank, ParsedSections, SameSections, NextRelease, IsReleaseHeading;
    StartsAtOnce(ns[k..]);
    PrefixPadded(TrimBlank(Texts(d.prefixLines)));
  }

  lemma {:induction false} PrefixPadded(p: seq<string>)
    requires TrimBlank(p) == p
    ensures TrimBlank(PrefixOutput(p)) == p
  {
    hide TrimBlank;
    TrimPadded(p, [], [""]);
    assert [] + p + [""] == p + [""];
  }

  // ------------------------------------------------------------ writing again

  lemma {:induction false} SameSubsectionsOutput(a: seq<Subsection>, b: seq<Subsection>)
    requires SameSubsections(a, b)
    ensures SubsectionsOutput(a) == SubsectionsOutput(b)
    decreases |a|
  {
    hide Content, SubsectionHeading;
    if a != [] {
      var i := |a| - 1;
      SameSubsectionsOutput(a[..i], b[..i]);
      SameSubsectionOutput(a[i], b[i]);
      hide SubsectionOutput;
    }
  }

  lemma {:induction false} SameSubsectionOutput(a: Subsection, b: Subsection)
    requires a.title == b.title && Content(a) == Content(b)
    ensures SubsectionOutput(a) == SubsectionOutput(b)
  {
    hide TrimBlank, Texts, SubsectionHeading;
  }

  lemma {:induction false} SameSectionsOutput(a: seq<ReleaseSection>, b: seq<ReleaseSection>)
    requires SameSections(a, b)
    ensures SectionsOutput(a) == SectionsOutput(b)
    decreases |a|
  {
    hide SameSection;
    if a != [] {
      var i := |a| - 1;
      SameSectionsOutput(a[..i], b[..i]);
      SameSectionOutput(a[i], b[i]);
      hide SectionOutput;
    }
  }

  lemma {:induction false} SameSectionOutput(a: ReleaseSection, b: ReleaseSection)
    requires SameSection(a, b)
    ensures SectionOutput(a) == SectionOutput(b)
  {
    LeadingUnfolds(a);
    LeadingUnfolds(b);
    hide TrimBlank, Texts, SameSubsections, SubsectionsOutput, Leading;
    SameSubsectionsOutput(a.subsections, b.subsections);
  }

  /** Documents that are the same up to blank lines are written the same, so what was written is a fixed
      point of reading and writing. */
  lemma {:induction false} WrittenTextIsFixed(d: Document)
    requires Good(d) && NoBlankSections(d.sections) && d.sections != []
    ensures Rendered(Parsed(Rendered(d))) == Rendered(d)
  {
    WrittenDocumentReadsBack(d);
    SameOutput(Parsed(Rendered(d)), d);
    hide Parsed, Output, DropEmptyEnd, Join;
  }

  lemma {:induction false} SameOutput(a: Document, b: Document)
    requires Same(a, b)
    ensures Output(a) == Output(b)
  {
    hide TrimBlank, Texts, SameSections, SectionsOutput, PrefixOutput;
    SameSectionsOutput(a.sections, b.sections);
  }
}
