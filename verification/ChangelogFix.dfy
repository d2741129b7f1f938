/** Fixing a changelog: promoting items, normalising every release, and writing the result; and why
    fixing what was written changes nothing more. */
module ChangelogFix {
  import opened ChangelogText
  import opened Changelog
  import opened ChangelogItems
  import opened ChangelogRoundTrip
  import opened ChangelogNormal
  import opened ChangelogPromote

  datatype FixResult = FixResult(content: string, promotedItems: nat, mergedDuplicateHeadings: nat,
                                 removedEmptyHeadings: nat)

  function Sum(a: Counters, b: Counters): Counters {
    Counters(a.mergedDuplicateHeadings + b.mergedDuplicateHeadings, a.removedEmptyHeadings + b.removedEmptyHeadings)
  }

  function TotalCount(sections: seq<ReleaseSection>): Counters {
    if sections == [] then Counters(0, 0)
    else Sum(TotalCount(sections[..|sections| - 1]), Count(sections[|sections| - 1].subsections))
  }

  function Normalized(sections: seq<ReleaseSection>): (r: seq<ReleaseSection>)
    ensures |r| == |sections|
  {
    seq(|sections|, i requires 0 <= i < |sections| => NormalSection(sections[i]))
  }

  function Fixed(content: string, starts: set<nat>): FixResult {
    var d := Parsed(content);
    var promoted := |DocumentPicks(d.sections, starts)|;
    var sections := Promoted(d.sections, starts);
    var c := TotalCount(sections);
    if promoted == 0 && c == Counters(0, 0) then FixResult(content, 0, 0, 0)
    else FixResult(Rendered(Document(d.prefixLines, Normalized(sections))), promoted,
                   c.mergedDuplicateHeadings, c.removedEmptyHeadings)
  }

  method FixChangelogContent(content: string, starts: set<nat>) returns (r: FixResult)
    ensures r == Fixed(content, starts)
  {
    hide *;
    var document := ParseChangelog(content);
    ParsedIncreases(content);
    var editor := new DocumentEditor(document.sections);
    var promotedItems := editor.PromoteAll(starts);
    var sections := editor.sections;
    var merged: nat, removed: nat := 0, 0;
    var normalized: seq<ReleaseSection> := [];
    NothingCounted();
    for i := 0 to |sections|
      invariant Counters(merged, removed) == TotalCount(sections[..i])
      invariant |normalized| == i && forall k :: 0 <= k < i ==> normalized[k] == NormalSection(sections[k])
    {
      var section, counters := NormalizeSection(sections[i]);
      CountStep(sections, i);
      merged := merged + counters.mergedDuplicateHeadings;
      removed := removed + counters.removedEmptyHeadings;
      normalized := normalized + [section];
    }
    assert sections[..|sections|] == sections;
    NormalizedIs(sections, normalized);
    FixedUnfolds(content, starts);
    if promotedItems == 0 && merged == 0 && removed == 0 {
      return FixResult(content, promotedItems, merged, removed);
    }
    var fixedContent := RenderChangelog(Document(document.prefixLines, normalized));
    r := FixResult(fixedContent, promotedItems, merged, removed);
  }

  lemma {:induction false} NothingCounted()
    ensures TotalCount([]) == Counters(0, 0)
  {
  }

  lemma {:induction false} CountStep(sections: seq<ReleaseSection>, i: nat)
    requires i < |sections|
    ensures TotalCount(sections[..i + 1]) == Sum(TotalCount(sections[..i]), Count(sections[i].subsections))
    ensures forall a: Counters, b: Counters ::
      Sum(a, b).mergedDuplicateHeadings == a.mergedDuplicateHeadings + b.mergedDuplicateHeadings
    ensures forall a: Counters, b: Counters ::
      Sum(a, b).removedEmptyHeadings == a.removedEmptyHeadings + b.removedEmptyHeadings
  {
    hide Count;
    assert sections[..i + 1][..i] == sections[..i];
  }

  lemma {:induction false} NormalizedIs(sections: seq<ReleaseSection>, r: seq<ReleaseSection>)
    requires |r| == |sections| && forall k :: 0 <= k < |r| ==> r[k] == NormalSection(sections[k])
    ensures r == Normalized(sections)
  {
    hide NormalSection;
  }

  lemma {:induction false} FixedUnfolds(content: string, starts: set<nat>)
    ensures var d := Parsed(content);
      var promoted := |DocumentPicks(d.sections, starts)|;
      var sections := Promoted(d.sections, starts);
      var c := TotalCount(sections);
      Fixed(content, starts)
        == if promoted == 0 && c == Counters(0, 0) then FixResult(content, 0, 0, 0)
           else FixResult(Rendered(Document(d.prefixLines, Normalized(sections))), promoted,
                          c.mergedDuplicateHeadings, c.removedEmptyHeadings)
  {
    hide Parsed, DocumentPicks, Promoted, TotalCount, Rendered, Normalized;
  }

  // ------------------------------------------------------------ what reading gives

  lemma {:induction false} IncreasingSlice(lines: seq<NumberedLine>, i: nat, j: nat)
    requires Increasing(lines) && i <= j <= |lines|
    ensures Increasing(lines[i..j]) && Increasing(lines[i..])
  {
  }

  /** The lines of a file: plain ones, numbered upwards. */
  ghost predicate FileLines(lines: seq<NumberedLine>) {
    Increasing(lines) && forall i :: 0 <= i < |lines| ==> Plain(lines[i].text)
  }

  lemma {:induction false} FileSlice(lines: seq<NumberedLine>, i: nat, j: nat)
    requires FileLines(lines) && i <= j <= |lines|
    ensures FileLines(lines[i..j]) && FileLines(lines[i..])
  {
    hide Plain;
    IncreasingSlice(lines, i, j);
  }

  /** A part read from a file: it can be written, and its lines are numbered upwards. */
  ghost predicate FromFile(s: ReleaseSection) {
    GoodSection(s) && IncreasingSection(s)
  }

  ghost predicate SubsectionFromFile(s: Subsection) {
    GoodSubsection(s) && Increasing(s.lines)
  }

  lemma {:induction false} OneFromFile(lines: seq<NumberedLine>, k: nat)
    requires FileLines(lines) && 1 <= k <= |lines| && IsSubsectionHeading(lines[0].text)
    requires forall i :: 0 <= i < |lines| ==> !IsReleaseHeading(lines[i].text)
    requires forall i :: 1 <= i < k ==> !IsSubsectionHeading(lines[i].text)
    ensures SubsectionFromFile(Subsection(SubsectionTitle(lines[0].text), lines[1..k]))
  {
    hide IsReleaseHeading, IsSubsectionHeading, SubsectionTitle, Plain, ProperTitle;
    FileSlice(lines, 1, k);
    TitleOfHeading(lines[0].text);
    assert forall i :: 0 <= i < k - 1 ==> lines[1..k][i] == lines[i + 1];
  }

  ghost predicate AllFromFile(subs: seq<Subsection>) {
    forall i :: 0 <= i < |subs| ==> SubsectionFromFile(subs[i])
  }

  lemma {:induction false} OneMoreFromFile(s: Subsection, rest: seq<Subsection>)
    requires SubsectionFromFile(s) && AllFromFile(rest)
    ensures AllFromFile([s] + rest)
  {
    hide SubsectionFromFile;
  }

  lemma {:induction false} NoReleaseAfter(lines: seq<NumberedLine>, k: nat)
    requires k <= |lines| && forall i :: 0 <= i < |lines| ==> !IsReleaseHeading(lines[i].text)
    ensures forall i :: 0 <= i < |lines[k..]| ==> !IsReleaseHeading(lines[k..][i].text)
  {
    hide IsReleaseHeading;
  }

  lemma {:induction false} SubsectionsFromFile(lines: seq<NumberedLine>)
    requires FileLines(lines) && StartsWithSubsection(lines)
    requires forall i :: 0 <= i < |lines| ==> !IsReleaseHeading(lines[i].text)
    ensures AllFromFile(ParsedSubsections(lines))
    decreases |lines|
  {
    hide IsReleaseHeading, IsSubsectionHeading, SubsectionTitle, FileLines, NextSubsection, ParsedSubsections;
    hide SubsectionFromFile;
    if lines != [] {
      var k := NextSubsection(lines, 1);
      SubsectionsUnfold(lines);
      FileSlice(lines, k, |lines|);
      NoReleaseAfter(lines, k);
      SubsectionsFromFile(lines[k..]);
      OneFromFile(lines, k);
      OneMoreFromFile(Subsection(SubsectionTitle(lines[0].text), lines[1..k]), ParsedSubsections(lines[k..]));
      hide AllFromFile;
    } else {
      NoMore();
    }
  }

  lemma {:induction false} SectionFromFile(heading: string, body: seq<NumberedLine>)
    requires Plain(heading) && IsReleaseHeading(heading) && FileLines(body)
    requires forall i :: 0 <= i < |body| ==> !IsReleaseHeading(body[i].text)
    ensures FromFile(ParsedSection(heading, body))
  {
    hide IsReleaseHeading, IsSubsectionHeading, Plain, ReleaseTitle, NextSubsection, ParsedSubsections, ProperTitle;
    var k := NextSubsection(body, 0);
    var rest, lead := body[k..], body[..k];
    FileSlice(body, k, |body|);
    FileSlice(body, 0, k);
    assert forall i :: 0 <= i < |rest| ==> rest[i] == body[k + i];
    SubsectionsFromFile(rest);
    assert forall i :: 0 <= i < |lead| ==> lead[i] == body[i];
  }

  lemma {:induction false} SectionsFromFile(lines: seq<NumberedLine>)
    requires FileLines(lines) && StartsWithRelease(lines)
    ensures forall i :: 0 <= i < |ParsedSections(lines)| ==> FromFile(ParsedSections(lines)[i])
    decreases |lines|
  {
    hide IsReleaseHeading, Plain, NextRelease, ParsedSection, ParsedSections, FromFile;
    if lines != [] {
      var k := NextRelease(lines, 1);
      var rest, body := lines[k..], lines[1..k];
      SectionsUnfold(lines);
      FileSlice(lines, k, |lines|);
      FileSlice(lines, 1, k);
      SectionsFromFile(rest);
      assert forall i :: 0 <= i < |body| ==> body[i] == lines[i + 1];
      SectionFromFile(lines[0].text, body);
      var found := [ParsedSection(lines[0].text, body)] + ParsedSections(rest);
      assert forall i :: 0 < i < |found| ==> found[i] == ParsedSections(rest)[i - 1];
    } else {
      NoMore();
    }
  }

  lemma {:induction false} NumberedFromFile(texts: seq<string>)
    requires AllPlain(texts)
    ensures FileLines(Numbered(texts))
  {
    hide Plain;
    forall i | 0 <= i < |texts|
      ensures Plain(Numbered(texts)[i].text)
    {
      assert texts[i] in texts;
    }
  }

  /** What is read from the lines of a file can be written, apart from blank subsections and double titles. */
  lemma {:induction false} LinesFromFile(lines: seq<NumberedLine>)
    requires FileLines(lines)
    ensures Good(ParsedLines(lines))
    ensures forall i :: 0 <= i < |ParsedLines(lines).sections| ==> FromFile(ParsedLines(lines).sections[i])
  {
    hide IsReleaseHeading, Plain, NextRelease, ParsedSections, GoodSection, Increasing, IncreasingSection;
    var k := NextRelease(lines, 0);
    FileSlice(lines, k, |lines|);
    SectionsFromFile(lines[k..]);
    assert forall i :: 0 <= i < k ==> lines[..k][i] == lines[i];
  }

  lemma {:induction false} ParsedFromFile(content: string)
    ensures Good(Parsed(content))
    ensures forall i :: 0 <= i < |Parsed(content).sections| ==> FromFile(Parsed(content).sections[i])
  {
    hide ContentLines, Numbered, ParsedLines, Good, FromFile, FileLines;
    ContentLinesPlain(content);
    NumberedFromFile(ContentLines(content));
    LinesFromFile(Numbered(ContentLines(content)));
  }

  lemma {:induction false} ParsedIncreases(content: string)
    ensures forall i :: 0 <= i < |Parsed(content).sections| ==> IncreasingSection(Parsed(content).sections[i])
  {
    ParsedFromFile(content);
    hide Parsed, Good, GoodSection, IncreasingSection;
  }

  // ------------------------------------------------------------ what promoting keeps

  ghost predicate GoodPick(p: Pick) {
    ProperTitle(p.title) && forall l :: l in p.lines ==> BodyLine(l)
  }

  ghost predicate GoodPicks(picks: seq<Pick>) {
    forall i :: 0 <= i < |picks| ==> GoodPick(picks[i])
  }

  lemma {:induction false} GoodPicksConcat(a: seq<Pick>, b: seq<Pick>)
    requires GoodPicks(a) && GoodPicks(b)
    ensures GoodPicks(a + b)
  {
    hide GoodPick;
  }

  ghost predicate GoodItems(items: seq<Item>) {
    forall i :: 0 <= i < |items| ==> forall l :: l in items[i].lines ==> BodyLine(l)
  }

  lemma {:induction false} BodySlice(lines: seq<NumberedLine>, i: nat, j: nat)
    requires BodyLines(lines) && i <= j <= |lines|
    ensures BodyLines(lines[i..j]) && BodyLines(lines[i..])
  {
    hide BodyLine;
  }

  lemma {:induction false} ItemsGood(lines: seq<NumberedLine>)
    requires BodyLines(lines)
    ensures GoodItems(Items(lines))
    decreases |lines|
  {
    hide BodyLine, IsListItem, Items, TrimBlank;
    if lines == [] {
      NoItems();
    } else {
      ItemsUnfold(lines);
      if IsListItem(lines[0].text) {
        var k := NextItem(lines, 1);
        BodySlice(lines, 0, k);
        BodySlice(lines, k, |lines|);
        assert lines[0..k] == lines[..k];
        ContentLinesGood(lines[..k]);
        ItemsGood(lines[k..]);
      } else {
        BodySlice(lines, 1, |lines|);
        ItemsGood(lines[1..]);
      }
    }
  }

  lemma {:induction false} ChosenGood(items: seq<Item>, starts: set<nat>)
    requires GoodItems(items)
    ensures GoodItems(Chosen(items, starts))
  {
    hide BodyLine;
    if items != [] {
      ChosenGood(items[1..], starts);
    }
  }

  lemma {:induction false} SubsectionPicksGood(s: Subsection, starts: set<nat>)
    requires GoodSubsection(s)
    ensures GoodPicks(SubsectionPicks(s, starts)) && GoodSubsection(Kept(s, starts))
  {
    ItemsGood(s.lines);
    ChosenGood(Items(s.lines), starts);
    OutsideGood(s.lines, Chosen(Items(s.lines), starts));
    hide Items, Chosen, Outside, BodyLine, BodyLines, ProperTitle;
  }

  lemma {:induction false} AllPicksGood(subs: seq<Subsection>, starts: set<nat>, i: nat)
    requires AllGood(subs) && i <= |subs|
    ensures GoodPicks(AllPicks(subs[..i], starts))
    decreases i
  {
    hide GoodSubsection, GoodPick;
    if i > 0 {
      AllPicksGood(subs, starts, i - 1);
      SubsectionPicksGood(subs[i - 1], starts);
      PicksStep(subs, starts, i - 1);
      hide AllPicks, SubsectionPicks;
      GoodPicksConcat(AllPicks(subs[..i - 1], starts), SubsectionPicks(subs[i - 1], starts));
    }
  }

  lemma {:induction false} SectionPicksGood(s: ReleaseSection, starts: set<nat>)
    requires GoodSection(s)
    ensures GoodPicks(SectionPicks(s, starts)) && GoodSection(KeptSection(s, starts))
  {
    hide GoodSubsection, GoodPick, AllPicks, Kept, IsReleaseHeading, Plain, ReleaseTitle, BodyLines;
    AllPicksGood(s.subsections, starts, |s.subsections|);
    assert s.subsections[..|s.subsections|] == s.subsections;
    forall i | 0 <= i < |s.subsections|
      ensures GoodSubsection(Kept(s.subsections[i], starts))
    {
      SubsectionPicksGood(s.subsections[i], starts);
    }
  }

  ghost predicate AllGoodSections(sections: seq<ReleaseSection>) {
    forall i :: 0 <= i < |sections| ==> GoodSection(sections[i])
  }

  lemma {:induction false} DocumentPicksGood(sections: seq<ReleaseSection>, starts: set<nat>, i: nat)
    requires AllGoodSections(sections) && i <= |sections|
    ensures GoodPicks(DocumentPicks(sections[..i], starts))
    decreases i
  {
    hide GoodSection, GoodPick;
    if i > 0 {
      DocumentPicksGood(sections, starts, i - 1);
      SectionPicksGood(sections[i - 1], starts);
      KeptParts(sections, starts, i - 1);
      hide DocumentPicks, SectionPicks;
      GoodPicksConcat(DocumentPicks(sections[..i - 1], starts), SectionPicks(sections[i - 1], starts));
    }
  }

  lemma {:induction false} AddPickGood(u: ReleaseSection, p: Pick)
    requires GoodSection(u) && GoodPick(p)
    ensures GoodSection(AddPick(u, p))
  {
    AddPickUnfolds(u, p);
    hide AddPick, HasItem, IsReleaseHeading, Plain, ReleaseTitle, Appended, LastWithTitle, ProperTitle, BodyLine;
    var found := LastWithTitle(u.subsections, p.title);
    var subs := if found.Some? then u.subsections else u.subsections + [Subsection(p.title, [])];
    var at := if found.Some? then found.value else |u.subsections|;
    assert AllGood(subs);
    AppendedBodyLines(subs[at], p.lines);
    AppendedKeepsTitle(subs[at], p.lines);
  }

  lemma {:induction false} AddPicksGood(u: ReleaseSection, picks: seq<Pick>)
    requires GoodSection(u) && GoodPicks(picks)
    ensures GoodSection(AddPicks(u, picks))
    decreases |picks|
  {
    hide GoodSection, GoodPick, AddPick;
    if picks != [] {
      AddPicksGood(u, picks[..|picks| - 1]);
      AddPickGood(AddPicks(u, picks[..|picks| - 1]), picks[|picks| - 1]);
    }
  }

  lemma {:induction false} BeforeFirst(a: string, c: char, b: string)
    requires c !in a
    ensures Before(a + [c] + b, c) == a
  {
    if a != "" {
      assert (a + [c] + b)[1..] == a[1..] + [c] + b;
      BeforeFirst(a[1..], c, b);
    }
  }

  lemma {:induction false} ReleaseHeadingFor(title: string)
    requires title != "" && ']' !in title && Plain(title)
    ensures var h := "## [" + title + "]";
      IsReleaseHeading(h) && ReleaseTitle(h) == title && Plain(h)
  {
    var h := "## [" + title + "]";
    assert h[..4] == "## [" && h[4..] == title + [']'] + "";
    assert h[5..] == title[1..] + [']'];
    BeforeFirst(title, ']', "");
  }

  lemma {:induction false} NewIsGood()
    ensures GoodSection(NEW_UNRELEASED)
  {
    hide IsReleaseHeading, ReleaseTitle;
    ReleaseHeadingFor(UNRELEASED);
  }

  lemma {:induction false} PromotedGood(sections: seq<ReleaseSection>, starts: set<nat>)
    requires AllGoodSections(sections)
    ensures AllGoodSections(Promoted(sections, starts))
  {
    hide GoodSection, GoodPick, AddPicks, KeptSection, FirstUnreleased, SectionPicks, GoodPicks;
    DocumentPicksGood(sections, starts, |sections|);
    assert sections[..|sections|] == sections;
    var x, picks := KeptSections(sections, starts, |sections|), DocumentPicks(sections, starts);
    forall i | 0 <= i < |sections|
      ensures GoodSection(KeptSection(sections[i], starts))
    {
      SectionPicksGood(sections[i], starts);
    }
    assert AllGoodSections(x);
    PlacedGood(x, picks);
  }

  lemma {:induction false} PlacedGood(x: seq<ReleaseSection>, picks: seq<Pick>)
    requires AllGoodSections(x) && GoodPicks(picks)
    ensures AllGoodSections(Placed(x, picks))
  {
    PlacedUnfolds(x, picks);
    hide GoodSection, GoodPicks, AddPicks, Placed, FirstUnreleased;
    NewIsGood();
    AddPicksGood(NEW_UNRELEASED, picks);
    if FirstUnreleased(x).Some? {
      AddPicksGood(x[FirstUnreleased(x).value], picks);
    }
  }

  // ------------------------------------------------------------ when nothing is promoted

  lemma {:induction false} NothingChosen(items: seq<Item>)
    ensures Chosen(items, {}) == []
  {
    if items != [] { NothingChosen(items[1..]); }
  }

  lemma {:induction false} NothingPicked(sections: seq<ReleaseSection>)
    ensures DocumentPicks(sections, {}) == []
    decreases |sections|
  {
    hide SectionPicks;
    if sections != [] {
      var s := sections[|sections| - 1];
      NothingPicked(sections[..|sections| - 1]);
      forall k | 0 <= k < |s.subsections|
        ensures Chosen(Items(s.subsections[k].lines), {}) == []
      {
        NothingChosen(Items(s.subsections[k].lines));
      }
      NonePicked(s.subsections, {}, |s.subsections|);
      NoneOfSection(s);
    }
  }

  lemma {:induction false} NoneOfSection(s: ReleaseSection)
    requires AllPicks(s.subsections[..|s.subsections|], {}) == []
    ensures SectionPicks(s, {}) == []
  {
    hide AllPicks;
    assert s.subsections[..|s.subsections|] == s.subsections;
  }

  lemma {:induction false} NoPicksNoChange(subs: seq<Subsection>, starts: set<nat>, i: nat)
    requires i <= |subs| && AllPicks(subs[..i], starts) == []
    ensures forall k :: 0 <= k < i ==> Kept(subs[k], starts) == subs[k]
    decreases i
  {
    hide Items, Chosen, Outside, AllPicks;
    if i > 0 {
      PicksStep(subs, starts, i - 1);
      PickCount(subs[i - 1], starts);
      NoPicksNoChange(subs, starts, i - 1);
    }
  }

  lemma {:induction false} SectionUnchanged(s: ReleaseSection, starts: set<nat>)
    requires SectionPicks(s, starts) == []
    ensures KeptSection(s, starts) == s
  {
    hide AllPicks, Kept;
    if s.title != UNRELEASED {
      assert s.subsections[..|s.subsections|] == s.subsections;
      NoPicksNoChange(s.subsections, starts, |s.subsections|);
      assert KeptUpTo(s.subsections, starts, |s.subsections|) == s.subsections;
    }
  }

  lemma {:induction false} SectionsUnchanged(sections: seq<ReleaseSection>, starts: set<nat>, i: nat)
    requires i <= |sections| && DocumentPicks(sections[..i], starts) == []
    ensures KeptSections(sections, starts, i) == sections
    decreases i
  {
    hide KeptSection, SectionPicks, DocumentPicks;
    if i > 0 {
      KeptParts(sections, starts, i - 1);
      SectionsUnchanged(sections, starts, i - 1);
      SectionUnchanged(sections[i - 1], starts);
      hide KeptSections;
    }
  }

  /** With no item picked, promoting changes nothing. */
  lemma {:induction false} PromotedUnchanged(sections: seq<ReleaseSection>, starts: set<nat>)
    requires DocumentPicks(sections, starts) == []
    ensures Promoted(sections, starts) == sections
  {
    assert sections[..|sections|] == sections;
    SectionsUnchanged(sections, starts, |sections|);
    PlacedUnfolds(sections, []);
    hide KeptSections, DocumentPicks, Placed;
  }

  // ------------------------------------------------------------ idempotence

  lemma {:induction false} NothingCountedIn(sections: seq<ReleaseSection>, i: nat)
    requires i <= |sections|
    requires forall k :: 0 <= k < |sections| ==> NoneBlank(sections[k].subsections) && Distinct(sections[k].subsections)
    ensures TotalCount(sections[..i]) == Counters(0, 0)
    decreases i
  {
    hide NoneBlank, Distinct, Count;
    if i == 0 {
      NothingCounted();
      assert sections[..0] == [];
    } else {
      NothingCountedIn(sections, i - 1);
      CountStep(sections, i - 1);
      var subs := sections[i - 1].subsections;
      NothingToDo(subs, |subs|);
      assert subs[..|subs|] == subs;
      hide TotalCount;
    }
  }

  lemma {:induction false} NormalIsSame(a: seq<Subsection>, b: seq<Subsection>)
    requires SameSubsections(a, b) && Normal(b)
    ensures NoneBlank(a) && Distinct(a)
  {
    hide Content, GoodSubsection;
  }

  lemma {:induction false} NormalNotBlank(sections: seq<ReleaseSection>)
    requires forall k :: 0 <= k < |sections| ==> Normal(sections[k].subsections)
    ensures NoBlankSections(sections)
  {
    hide NoneBlank, Distinct, AllGood;
  }

  /** Text that was written from normalised releases needs no fixing. */
  lemma {:induction false} WrittenIsFixed(d: Document)
    requires Good(d) && d.sections != []
    requires forall k :: 0 <= k < |d.sections| ==> Normal(d.sections[k].subsections)
    ensures Fixed(Rendered(d), {}) == FixResult(Rendered(d), 0, 0, 0)
  {
    hide *;
    NormalNotBlank(d.sections);
    WrittenDocumentReadsBack(d);
    var r := Parsed(Rendered(d));
    SameParts(r, d);
    forall k | 0 <= k < |r.sections|
      ensures NoneBlank(r.sections[k].subsections) && Distinct(r.sections[k].subsections)
    {
      NormalIsSame(r.sections[k].subsections, d.sections[k].subsections);
    }
    NothingPicked(r.sections);
    PromotedUnchanged(r.sections, {});
    NothingCountedIn(r.sections, |r.sections|);
    assert r.sections[..|r.sections|] == r.sections;
    FixedUnfolds(Rendered(d), {});
  }

  lemma {:induction false} SameParts(a: Document, b: Document)
    requires Same(a, b)
    ensures |a.sections| == |b.sections|
    ensures forall k :: 0 <= k < |a.sections| ==> SameSubsections(a.sections[k].subsections, b.sections[k].subsections)
  {
    hide Content, Leading, TrimBlank, Texts;
  }

  /** Fixing is idempotent: for any text and any promotable lines, fixing the result again with nothing to
      promote returns it unchanged, with every counter zero. */
  lemma {:induction false} FixIsIdempotent(content: string, starts: set<nat>)
    ensures var once := Fixed(content, starts).content;
      Fixed(once, {}) == FixResult(once, 0, 0, 0)
  {
    hide *;
    var d := Parsed(content);
    var sections := Promoted(d.sections, starts);
    FixedUnfolds(content, starts);
    if |DocumentPicks(d.sections, starts)| == 0 && TotalCount(sections) == Counters(0, 0) {
      PromotedUnchanged(d.sections, starts);
      NothingPicked(d.sections);
      PromotedUnchanged(d.sections, {});
      FixedUnfolds(content, {});
    } else {
      ParsedFromFile(content);
      SectionsGood(d);
      PromotedGood(d.sections, starts);
      NothingInNothing(d.sections, starts);
      var n := Document(d.prefixLines, Normalized(sections));
      NormalizedGood(d, sections);
      WrittenIsFixed(n);
    }
  }

  lemma {:induction false} SectionsGood(d: Document)
    requires Good(d)
    ensures AllGoodSections(d.sections)
  {
    hide GoodSection, PrefixLine;
  }

  lemma {:induction false} NothingInNothing(sections: seq<ReleaseSection>, starts: set<nat>)
    ensures Promoted(sections, starts) == [] ==>
      DocumentPicks(sections, starts) == [] && TotalCount(Promoted(sections, starts)) == Counters(0, 0)
  {
    PlacedLength(KeptSections(sections, starts, |sections|), DocumentPicks(sections, starts));
    hide Placed, SectionPicks, KeptSection, Count;
  }

  lemma {:induction false} NormalizedGood(d: Document, sections: seq<ReleaseSection>)
    requires Good(d) && AllGoodSections(sections)
    ensures var n := Document(d.prefixLines, Normalized(sections));
      && Good(n) && |n.sections| == |sections|
      && forall k :: 0 <= k < |n.sections| ==> Normal(n.sections[k].subsections)
  {
    hide GoodSection, NormalSection, Normal, PrefixLine;
    forall k | 0 <= k < |sections|
      ensures GoodSection(NormalSection(sections[k])) && Normal(NormalSection(sections[k]).subsections)
    {
      NormalSectionGood(sections[k]);
    }
  }
}
