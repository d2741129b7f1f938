/** What stands where in the text a fix writes: the parts in their places, the usual titles first in an
    unreleased part and everything else where it first stood, each moved item once, and the counters. */
module ChangelogResult {
  import opened Options
  import opened ChangelogText
  import opened Changelog
  import opened ChangelogItems
  import opened ChangelogRoundTrip
  import opened ChangelogNormal
  import opened ChangelogPromote
  import opened ChangelogFix
  import opened ChangelogSurvival

  // ------------------------------------------------------------ where a title first stands

  /** Of the subsections that have any lines, the first titled `a` stands before any titled `b`. */
  ghost predicate StandsBefore(subs: seq<Subsection>, a: string, b: string) {
    exists i :: 0 <= i < |subs| && FirstOf(subs, a, b, i)
  }

  ghost predicate FirstOf(subs: seq<Subsection>, a: string, b: string, i: int)
    requires 0 <= i < |subs|
  {
    && subs[i].title == a && Content(subs[i]) != []
    && forall k :: 0 <= k <= i && Content(subs[k]) != [] ==> subs[k].title != b
  }

  ghost predicate Occurs(subs: seq<Subsection>, title: string) {
    exists i :: 0 <= i < |subs| && subs[i].title == title && Content(subs[i]) != []
  }

  /** Merged subsections stand in the order in which their titles first had any lines. */
  ghost predicate Firsts(subs: seq<Subsection>, merged: seq<Subsection>) {
    && (forall k :: 0 <= k < |merged| ==> Occurs(subs, merged[k].title))
    && (forall t :: Occurs(subs, t) ==> HasTitle(merged, t))
    && forall k, l :: 0 <= k < l < |merged| ==> StandsBefore(subs, merged[k].title, merged[l].title)
  }

  lemma {:induction false} StandsBeforeKept(subs: seq<Subsection>, s: Subsection, a: string, b: string)
    requires StandsBefore(subs, a, b)
    ensures StandsBefore(subs + [s], a, b)
  {
    hide Content;
    var i :| 0 <= i < |subs| && FirstOf(subs, a, b, i);
    assert forall k :: 0 <= k < |subs| ==> (subs + [s])[k] == subs[k];
    assert FirstOf(subs + [s], a, b, i);
  }

  lemma {:induction false} StandsBeforeNew(subs: seq<Subsection>, s: Subsection, a: string)
    requires Occurs(subs, a) && !Occurs(subs, s.title)
    ensures StandsBefore(subs + [s], a, s.title)
  {
    hide Content;
    var i :| 0 <= i < |subs| && subs[i].title == a && Content(subs[i]) != [];
    assert forall k :: 0 <= k < |subs| ==> (subs + [s])[k] == subs[k];
    assert FirstOf(subs + [s], a, s.title, i);
  }

  lemma {:induction false} OccursPush(subs: seq<Subsection>, s: Subsection, t: string)
    ensures Occurs(subs + [s], t) <==> Occurs(subs, t) || (s.title == t && Content(s) != [])
  {
    hide Content;
    var all := subs + [s];
    assert forall k :: 0 <= k < |subs| ==> all[k] == subs[k];
    assert all[|subs|] == s;
  }

  lemma {:induction false} MergedFirsts(subs: seq<Subsection>, i: nat)
    requires i <= |subs|
    ensures Firsts(subs[..i], MergedSubsections(subs[..i]))
    decreases i
  {
    hide *;
    if i == 0 {
      NoFirsts();
    } else {
      MergedFirsts(subs, i - 1);
      MergedStep(subs, i - 1);
      var front, s := MergedSubsections(subs[..i - 1]), subs[i - 1];
      assert subs[..i] == subs[..i - 1] + [s];
      if Content(s) == [] {
        FirstsSame(subs[..i - 1], front, front, s);
      } else if IndexOf(front, s.title).Some? {
        var k := IndexOf(front, s.title).value;
        AppendedKeepsTitle(front[k], Content(s));
        IndexIffTitle(front, s.title);
        FirstsSame(subs[..i - 1], front, front[k := Appended(front[k], Content(s))], s);
      } else {
        IndexIffTitle(front, s.title);
        FirstsNew(subs[..i - 1], front, s);
      }
    }
  }

  lemma {:induction false} NoFirsts()
    ensures Firsts([], MergedSubsections([]))
  {
    NothingMerged();
    hide MergedSubsections;
  }

  lemma {:induction false} FirstsSame(subs: seq<Subsection>, merged: seq<Subsection>, titled: seq<Subsection>,
                                      s: Subsection)
    requires Firsts(subs, merged) && (Content(s) == [] || HasTitle(merged, s.title))
    requires |titled| == |merged| && forall k :: 0 <= k < |merged| ==> titled[k].title == merged[k].title
    ensures Firsts(subs + [s], titled)
  {
    hide Occurs, StandsBefore, Content;
    forall t
      ensures Occurs(subs + [s], t) <==> Occurs(subs, t) || (s.title == t && Content(s) != [])
      ensures HasTitle(titled, t) <==> HasTitle(merged, t)
    {
      OccursPush(subs, s, t);
      SameTitles(merged, titled, t);
    }
    forall k, l | 0 <= k < l < |titled|
      ensures StandsBefore(subs + [s], titled[k].title, titled[l].title)
    {
      StandsBeforeKept(subs, s, merged[k].title, merged[l].title);
    }
  }

  lemma {:induction false} SameTitles(a: seq<Subsection>, b: seq<Subsection>, t: string)
    requires |a| == |b| && forall k :: 0 <= k < |a| ==> a[k].title == b[k].title
    ensures HasTitle(a, t) <==> HasTitle(b, t)
  {
  }

  lemma {:induction false} TitlePush(merged: seq<Subsection>, s: Subsection, t: string)
    ensures HasTitle(merged + [s], t) <==> HasTitle(merged, t) || s.title == t
  {
    var all := merged + [s];
    assert forall k :: 0 <= k < |merged| ==> all[k] == merged[k];
    assert all[|merged|] == s;
  }

  lemma {:induction false} FirstsNew(subs: seq<Subsection>, merged: seq<Subsection>, s: Subsection)
    requires Firsts(subs, merged) && Content(s) != [] && !HasTitle(merged, s.title)
    ensures Firsts(subs + [s], merged + [Subsection(s.title, Synthetic(Content(s)))])
  {
    hide Occurs, StandsBefore, Content, Synthetic;
    var added := Subsection(s.title, Synthetic(Content(s)));
    var grown := merged + [added];
    forall t
      ensures Occurs(subs + [s], t) <==> Occurs(subs, t) || s.title == t
      ensures HasTitle(grown, t) <==> HasTitle(merged, t) || s.title == t
    {
      OccursPush(subs, s, t);
      TitlePush(merged, added, t);
    }
    hide HasTitle;
    assert forall k :: 0 <= k < |merged| ==> grown[k] == merged[k];
    forall k, l | 0 <= k < l < |grown|
      ensures StandsBefore(subs + [s], grown[k].title, grown[l].title)
    {
      if l < |merged| {
        StandsBeforeKept(subs, s, merged[k].title, merged[l].title);
      } else {
        StandsBeforeNew(subs, s, merged[k].title);
      }
    }
  }

  // ------------------------------------------------------------ what sorting does to two subsections

  /** Two subsections whose titles have the same place stand in the list of that place in their order. */
  lemma {:induction false} PlacesOf(subs: seq<Subsection>, i: nat, j: nat, k: nat) returns (a: nat, b: nat)
    requires i < j < |subs| && TitleOrder(subs[i].title) == k == TitleOrder(subs[j].title)
    ensures a < b < |WithOrder(subs, k)| && WithOrder(subs, k)[a] == subs[i] && WithOrder(subs, k)[b] == subs[j]
  {
    hide TitleOrder;
    if i > 0 {
      a, b := PlacesOf(subs[1..], i - 1, j - 1, k);
      if TitleOrder(subs[0].title) == k {
        a, b := a + 1, b + 1;
      }
    } else {
      a := 0;
      b := PlaceOf(subs[1..], j - 1, k);
      b := b + 1;
    }
  }

  lemma {:induction false} PlaceOf(subs: seq<Subsection>, j: nat, k: nat) returns (b: nat)
    requires j < |subs| && TitleOrder(subs[j].title) == k
    ensures b < |WithOrder(subs, k)| && WithOrder(subs, k)[b] == subs[j]
  {
    hide TitleOrder;
    if j == 0 {
      b := 0;
    } else {
      b := PlaceOf(subs[1..], j - 1, k);
      if TitleOrder(subs[0].title) == k {
        b := b + 1;
      }
    }
  }

  lemma {:induction false} PlacesIn(subs: seq<Subsection>, a: nat, b: nat, k: nat) returns (i: nat, j: nat)
    requires a < b < |WithOrder(subs, k)|
    ensures i < j < |subs| && WithOrder(subs, k)[a] == subs[i] && WithOrder(subs, k)[b] == subs[j]
  {
    hide TitleOrder;
    if TitleOrder(subs[0].title) != k {
      i, j := PlacesIn(subs[1..], a, b, k);
      i, j := i + 1, j + 1;
    } else if a > 0 {
      i, j := PlacesIn(subs[1..], a - 1, b - 1, k);
      i, j := i + 1, j + 1;
    } else {
      i := 0;
      j := PlaceIn(subs[1..], b - 1, k);
      j := j + 1;
    }
  }

  lemma {:induction false} PlaceIn(subs: seq<Subsection>, b: nat, k: nat) returns (j: nat)
    requires b < |WithOrder(subs, k)|
    ensures j < |subs| && WithOrder(subs, k)[b] == subs[j]
  {
    hide TitleOrder;
    if TitleOrder(subs[0].title) != k {
      j := PlaceIn(subs[1..], b, k);
      j := j + 1;
    } else if b > 0 {
      j := PlaceIn(subs[1..], b - 1, k);
      j := j + 1;
    } else {
      j := 0;
    }
  }

  lemma {:induction false} SortedKeepsPairs(subs: seq<Subsection>, i: nat, j: nat) returns (k: nat, l: nat)
    requires i < j < |Ordered(subs)|
    requires TitleOrder(Ordered(subs)[i].title) == TitleOrder(Ordered(subs)[j].title)
    ensures k < l < |subs| && subs[k] == Ordered(subs)[i] && subs[l] == Ordered(subs)[j]
  {
    var place := TitleOrder(Ordered(subs)[i].title);
    hide TitleOrder, Ordered, WithOrder;
    OrderedIsStableSort(subs, place);
    var a, b := PlacesOf(Ordered(subs), i, j, place);
    k, l := PlacesIn(subs, a, b, place);
  }

  // ------------------------------------------------------------ in the written text

  const USUAL := ["Breaking Changes", "Added", "Changed", "Fixed", "Removed"]

  lemma {:induction false} Names()
    ensures UNRELEASED == "Unreleased" && USUAL == ["Breaking Changes", "Added", "Changed", "Fixed", "Removed"]
  {
  }

  lemma {:induction false} OrderOfUsual()
    ensures forall t :: t !in USUAL ==> TitleOrder(t) == 5
    ensures forall k :: 0 <= k < |USUAL| ==> TitleOrder(USUAL[k]) == k
  {
  }

  /** The subsections of a part of the fixed text, and of that part before it was normalised. */
  lemma {:induction false} WrittenSubsections(content: string, starts: set<nat>, v: nat)
    requires var r := Fixed(content, starts);
      r.promotedItems > 0 || r.mergedDuplicateHeadings > 0 || r.removedEmptyHeadings > 0
    requires v < |Parsed(Fixed(content, starts).content).sections|
    ensures v < |Promoted(Parsed(content).sections, starts)|
    ensures var fixed, u := Parsed(Fixed(content, starts).content).sections[v],
                            Promoted(Parsed(content).sections, starts)[v];
      && fixed.title == u.title && SameSubsections(fixed.subsections, NormalSection(u).subsections)
  {
    hide *;
    var d := Parsed(content);
    var sections := Promoted(d.sections, starts);
    FixedIsSame(content, starts);
    PartsAlike(Parsed(Fixed(content, starts).content), Document(d.prefixLines, Normalized(sections)), v);
    NormalPart(sections, v);
  }

  lemma {:induction false} PartsAlike(a: Document, b: Document, v: nat)
    requires Same(a, b) && v < |a.sections|
    ensures v < |b.sections| && SameSubsections(a.sections[v].subsections, b.sections[v].subsections)
    ensures a.sections[v].title == b.sections[v].title
  {
    hide Leading, SameSubsections, TrimBlank, Texts;
  }

  /** When a fix rewrites the text, the subsections of every unreleased part stand like this: of the usual
      titles each before those that come later in the list of them, and all other titles after every
      usual one, in the order in which they first had any lines. In a released part all do stand in that
      order. */
  lemma {:induction false} FixedTitlesInOrder(content: string, starts: set<nat>, v: nat, i: nat, j: nat)
    requires var r := Fixed(content, starts);
      r.promotedItems > 0 || r.mergedDuplicateHeadings > 0 || r.removedEmptyHeadings > 0
    requires v < |Parsed(Fixed(content, starts).content).sections|
    requires i < j < |Parsed(Fixed(content, starts).content).sections[v].subsections|
    ensures v < |Promoted(Parsed(content).sections, starts)|
    ensures var fixed := Parsed(Fixed(content, starts).content).sections[v];
      var before := Promoted(Parsed(content).sections, starts)[v].subsections;
      var a, b := fixed.subsections[i].title, fixed.subsections[j].title;
      var usual := ["Breaking Changes", "Added", "Changed", "Fixed", "Removed"];
      && a != b
      && (fixed.title == "Unreleased" ==>
            && (forall k, l :: 0 <= k < l < |usual| ==> !(a == usual[l] && b == usual[k]))
            && (b in usual ==> a in usual))
      && (fixed.title != "Unreleased" || (a !in usual && b !in usual) ==> StandsBefore(before, a, b))
  {
    hide *;
    Names();
    WrittenSubsections(content, starts, v);
    var fixed, u := Parsed(Fixed(content, starts).content).sections[v],
                    Promoted(Parsed(content).sections, starts)[v];
    NormalSectionUnfolds(u);
    SameAt(fixed.subsections, NormalSection(u).subsections, i);
    SameAt(fixed.subsections, NormalSection(u).subsections, j);
    NormalOrder(u, i, j);
  }

  lemma {:induction false} SameAt(a: seq<Subsection>, b: seq<Subsection>, i: nat)
    requires SameSubsections(a, b) && i < |a|
    ensures |b| == |a| && a[i].title == b[i].title
  {
    hide Content;
  }

  lemma {:induction false} NormalOrder(u: ReleaseSection, i: nat, j: nat)
    requires i < j < |NormalSection(u).subsections|
    ensures var subs := NormalSection(u).subsections;
      var a, b := subs[i].title, subs[j].title;
      && a != b
      && (u.title == "Unreleased" ==>
            && (forall k, l :: 0 <= k < l < |USUAL| ==> !(a == USUAL[l] && b == USUAL[k]))
            && (b in USUAL ==> a in USUAL))
      && (u.title != "Unreleased" || (a !in USUAL && b !in USUAL) ==> StandsBefore(u.subsections, a, b))
  {
    hide *;
    Names();
    var before, merged := u.subsections, MergedSubsections(u.subsections);
    NormalSectionUnfolds(u);
    assert before[..|before|] == before;
    MergedFirsts(before, |before|);
    MergedMeaning(before, |before|);
    MergedOrder(before, merged);
    if u.title == "Unreleased" {
      SortedOrder(before, merged, i, j);
    }
  }

  lemma {:induction false} MergedOrder(subs: seq<Subsection>, merged: seq<Subsection>)
    requires Firsts(subs, merged) && Merges(subs, merged)
    ensures forall k, l :: 0 <= k < l < |merged| ==>
      StandsBefore(subs, merged[k].title, merged[l].title) && merged[k].title != merged[l].title
  {
    hide StandsBefore, Occurs, HasTitle, IndexOf, Content, ContentFor;
  }

  lemma {:induction false} SortedOrder(subs: seq<Subsection>, merged: seq<Subsection>, i: nat, j: nat)
    requires i < j < |Ordered(merged)|
    requires forall k, l :: 0 <= k < l < |merged| ==>
      StandsBefore(subs, merged[k].title, merged[l].title) && merged[k].title != merged[l].title
    ensures var a, b := Ordered(merged)[i].title, Ordered(merged)[j].title;
      && a != b
      && (forall k, l :: 0 <= k < l < |USUAL| ==> !(a == USUAL[l] && b == USUAL[k]))
      && (b in USUAL ==> a in USUAL)
      && (a !in USUAL && b !in USUAL ==> StandsBefore(subs, a, b))
  {
    hide TitleOrder, Ordered, StandsBefore;
    var a, b := Ordered(merged)[i].title, Ordered(merged)[j].title;
    OrderOfUsual();
    OrderedIsStableSort(merged, 0);
    assert TitleOrder(a) <= TitleOrder(b);
    if TitleOrder(a) == TitleOrder(b) {
      var k, l := SortedKeepsPairs(merged, i, j);
    }
  }

  // ------------------------------------------------------------ the parts

  /** No earlier part is unreleased. */
  ghost predicate IsFirstUnreleased(sections: seq<ReleaseSection>, u: nat) {
    && u < |sections| && sections[u].title == "Unreleased"
    && forall i :: 0 <= i < u ==> sections[i].title != "Unreleased"
  }

  lemma {:induction false} FirstUnreleasedIs(sections: seq<ReleaseSection>)
    ensures match FirstUnreleased(sections)
            case Some(u) => IsFirstUnreleased(sections, u)
            case None => forall i :: 0 <= i < |sections| ==> sections[i].title != "Unreleased"
  {
    if sections != [] && sections[0].title != UNRELEASED {
      FirstUnreleasedIs(sections[1..]);
      assert forall i :: 0 < i < |sections| ==> sections[i] == sections[1..][i - 1];
    }
  }

  /** Whether an unreleased part has to be made first. */
  ghost predicate IsNew(sections: seq<ReleaseSection>, picks: seq<Pick>) {
    picks != [] && forall i :: 0 <= i < |sections| ==> sections[i].title != "Unreleased"
  }

  /** Items are moved into the first unreleased part, which comes to stand in front if it has to be made;
      every other part stays in its place, without the items taken from it. */
  lemma {:induction false} PartsStay(sections: seq<ReleaseSection>, starts: set<nat>, i: nat)
    requires i < |sections|
    ensures var picks, after := DocumentPicks(sections, starts), Promoted(sections, starts);
      var at := if IsNew(sections, picks) then i + 1 else i;
      && |after| == |sections| + (if IsNew(sections, picks) then 1 else 0)
      && (IsNew(sections, picks) ==>
            && after[0].heading == "## [Unreleased]" && after[0].title == "Unreleased" && after[0].leadingLines == []
            && after[0] == AddPicks(after[0].(subsections := []), picks))
      && after[at].(subsections := sections[i].subsections) == sections[i]
      && after[at] == (if IsFirstUnreleased(sections, i) then AddPicks(sections[i], picks)
                       else KeptSection(sections[i], starts))
  {
    hide *;
    var kept, picks := KeptSections(sections, starts, |sections|), DocumentPicks(sections, starts);
    KeptTitles(sections, starts);
    KeptAt(sections, starts, i);
    KeptFrame(sections[i], starts);
    PlacedParts(kept, picks, i);
    SameFirsts(sections, kept, picks, i);
    AddPicksTitle(sections[i], picks);
    AddPicksFrame(sections[i], picks);
  }

  lemma {:induction false} KeptTitles(sections: seq<ReleaseSection>, starts: set<nat>)
    ensures var kept := KeptSections(sections, starts, |sections|);
      |kept| == |sections| && forall k :: 0 <= k < |sections| ==> kept[k].title == sections[k].title
  {
    hide KeptUpTo;
  }

  lemma {:induction false} KeptFrame(s: ReleaseSection, starts: set<nat>)
    ensures KeptSection(s, starts).(subsections := s.subsections) == s
    ensures s.title == "Unreleased" ==> KeptSection(s, starts) == s
  {
    hide KeptUpTo;
  }

  lemma {:induction false} AddPicksFrame(u: ReleaseSection, picks: seq<Pick>)
    ensures AddPicks(u, picks).(subsections := u.subsections) == u
  {
    AddPicksTitle(u, picks);
    hide AddPicks;
  }

  lemma {:induction false} SameFirsts(a: seq<ReleaseSection>, b: seq<ReleaseSection>, picks: seq<Pick>, i: nat)
    requires |a| == |b| && forall k :: 0 <= k < |a| ==> b[k].title == a[k].title
    ensures IsNew(a, picks) <==> IsNew(b, picks)
    ensures IsFirstUnreleased(a, i) <==> IsFirstUnreleased(b, i)
    ensures IsFirstUnreleased(a, i) ==> i < |a| && a[i].title == "Unreleased"
  {
  }

  lemma {:induction false} PlacedParts(x: seq<ReleaseSection>, picks: seq<Pick>, i: nat)
    requires i < |x|
    ensures var after := Placed(x, picks);
      var at := if IsNew(x, picks) then i + 1 else i;
      && |after| == |x| + (if IsNew(x, picks) then 1 else 0)
      && (IsNew(x, picks) ==>
            && after[0].heading == "## [Unreleased]" && after[0].title == "Unreleased" && after[0].leadingLines == []
            && after[0] == AddPicks(after[0].(subsections := []), picks))
      && after[at] == (if IsFirstUnreleased(x, i) then AddPicks(x[i], picks) else x[i])
  {
    hide *;
    PlacedUnfolds(x, picks);
    FirstIs(x, picks, i);
    NewPart(picks);
    NoPicks(x[i]);
  }

  lemma {:induction false} FirstIs(x: seq<ReleaseSection>, picks: seq<Pick>, i: nat)
    requires i < |x|
    ensures IsFirstUnreleased(x, i) <==> FirstUnreleased(x) == Some(i)
    ensures IsNew(x, picks) <==> picks != [] && FirstUnreleased(x) == None
    ensures FirstUnreleased(x).Some? ==> FirstUnreleased(x).value < |x|
  {
    FirstUnreleasedIs(x);
    hide FirstUnreleased;
  }

  lemma {:induction false} NewPart(picks: seq<Pick>)
    ensures var u := AddPicks(NEW_UNRELEASED, picks);
      && u.heading == "## [Unreleased]" && u.title == "Unreleased" && u.leadingLines == []
      && u == AddPicks(u.(subsections := []), picks)
  {
    AddPicksTitle(NEW_UNRELEASED, picks);
    hide AddPicks;
    assert AddPicks(NEW_UNRELEASED, picks).(subsections := []) == NEW_UNRELEASED;
  }

  /** A fix that rewrites a text keeps what stands before the first release, every heading in its order, and
      what stands below a heading before its first subsection; it adds no part but an unreleased one in
      front, and that only if something was moved and there was none. */
  lemma {:induction false} FixedKeepsFrame(content: string, starts: set<nat>, i: nat)
    requires var r := Fixed(content, starts);
      r.promotedItems > 0 || r.mergedDuplicateHeadings > 0 || r.removedEmptyHeadings > 0
    requires i < |Parsed(content).sections|
    ensures var d, r := Parsed(content), Fixed(content, starts);
      var fixed := Parsed(r.content);
      var made := r.promotedItems > 0 && forall k :: 0 <= k < |d.sections| ==> d.sections[k].title != "Unreleased";
      var at := if made then i + 1 else i;
      && TrimBlank(Texts(fixed.prefixLines)) == TrimBlank(Texts(d.prefixLines))
      && |fixed.sections| == |d.sections| + (if made then 1 else 0)
      && (made ==> fixed.sections[0].heading == "## [Unreleased]" && Leading(fixed.sections[0]) == [])
      && fixed.sections[at].heading == d.sections[i].heading
      && Leading(fixed.sections[at]) == Leading(d.sections[i])
  {
    hide *;
    var d := Parsed(content);
    var sections, picks := Promoted(d.sections, starts), DocumentPicks(d.sections, starts);
    var fixed := Parsed(Fixed(content, starts).content);
    FixedIsSame(content, starts);
    PartsStay(d.sections, starts, i);
    NewIs(d.sections, picks);
    var at := if IsNew(d.sections, picks) then i + 1 else i;
    var n := Document(d.prefixLines, Normalized(sections));
    SameFrame(fixed, n, at);
    NormalFrame(sections, at);
    LeadingIs(sections[at], d.sections[i]);
    if IsNew(d.sections, picks) {
      SameFrame(fixed, n, 0);
      NormalFrame(sections, 0);
      NothingLeads(sections[0]);
    }
  }

  lemma {:induction false} NewIs(sections: seq<ReleaseSection>, picks: seq<Pick>)
    ensures IsNew(sections, picks) <==>
      |picks| > 0 && forall k :: 0 <= k < |sections| ==> sections[k].title != "Unreleased"
  {
  }

  lemma {:induction false} FixedIsSame(content: string, starts: set<nat>)
    requires var r := Fixed(content, starts);
      r.promotedItems > 0 || r.mergedDuplicateHeadings > 0 || r.removedEmptyHeadings > 0
    ensures var d, r := Parsed(content), Fixed(content, starts);
      && Same(Parsed(r.content), Document(d.prefixLines, Normalized(Promoted(d.sections, starts))))
      && r.promotedItems == |DocumentPicks(d.sections, starts)|
      && r.mergedDuplicateHeadings == TotalCount(Promoted(d.sections, starts)).mergedDuplicateHeadings
      && r.removedEmptyHeadings == TotalCount(Promoted(d.sections, starts)).removedEmptyHeadings
  {
    hide *;
    var d := Parsed(content);
    var sections := Promoted(d.sections, starts);
    FixedUnfolds(content, starts);
    ParsedFromFile(content);
    SectionsGood(d);
    PromotedGood(d.sections, starts);
    NothingInNothing(d.sections, starts);
    var n := Document(d.prefixLines, Normalized(sections));
    NormalizedGood(d, sections);
    NormalNotBlank(n.sections);
    WrittenDocumentReadsBack(n);
  }

  lemma {:induction false} SameFrame(a: Document, b: Document, v: nat)
    requires Same(a, b) && v < |b.sections|
    ensures |a.sections| == |b.sections| && TrimBlank(Texts(a.prefixLines)) == TrimBlank(Texts(b.prefixLines))
    ensures a.sections[v].heading == b.sections[v].heading && Leading(a.sections[v]) == Leading(b.sections[v])
  {
    hide Leading, SameSubsections, TrimBlank, Texts;
  }

  lemma {:induction false} NormalFrame(sections: seq<ReleaseSection>, v: nat)
    requires v < |sections|
    ensures |Normalized(sections)| == |sections| && Normalized(sections)[v] == NormalSection(sections[v])
    ensures NormalSection(sections[v]).heading == sections[v].heading
    ensures Leading(NormalSection(sections[v])) == Leading(sections[v])
  {
    hide MergedSubsections, Ordered, TrimBlank, Texts, Synthetic;
    SyntheticTexts(Leading(sections[v]));
    TrimTwice(Texts(sections[v].leadingLines));
  }

  lemma {:induction false} LeadingIs(a: ReleaseSection, b: ReleaseSection)
    requires a.(subsections := b.subsections) == b
    ensures Leading(a) == Leading(b) && a.heading == b.heading
  {
    hide TrimBlank, Texts;
  }

  lemma {:induction false} NothingLeads(u: ReleaseSection)
    requires u.leadingLines == []
    ensures Leading(u) == []
  {
    assert Texts(u.leadingLines) == [];
  }

  // ------------------------------------------------------------ each moved item once

  ghost predicate IsLastTitled(subs: seq<Subsection>, title: string, at: nat) {
    at < |subs| && subs[at].title == title && forall k :: at < k < |subs| ==> subs[k].title != title
  }

  lemma {:induction false} LastTitled(subs: seq<Subsection>, title: string)
    ensures match LastWithTitle(subs, title)
            case Some(at) => IsLastTitled(subs, title, at)
            case None => !HasTitle(subs, title)
    decreases |subs|
  {
    if subs != [] && subs[|subs| - 1].title != title {
      var front := subs[..|subs| - 1];
      LastTitled(front, title);
      assert forall k :: 0 <= k < |front| ==> front[k] == subs[k];
    }
  }

  /** The subsection has an item of the same lines, blank ones around them left aside. */
  ghost predicate HasSameItem(s: Subsection, lines: seq<string>) {
    exists i :: 0 <= i < |Items(s.lines)| && Join(Items(s.lines)[i].lines) == Join(TrimBlank(lines))
  }

  /** The lines with the others below them: a blank line in between unless a list goes on. */
  ghost predicate PutBelow(before: seq<string>, lines: seq<string>, after: seq<string>) {
    if before == [] || lines == [] then after == before + lines
    else if IsListItem(before[|before| - 1]) && IsListItem(lines[0]) then after == before + lines
    else after == before + [""] + lines
  }

  /** A moved item goes into the last subsection with its title, or into a new one at the end if there is
      none; it is put below what is there, or left out if it has no text or an item with the same lines is
      there already; and no other subsection changes. */
  lemma {:induction false} MovedItemOnce(u: ReleaseSection, p: Pick)
    ensures var after, subs := AddPick(u, p), u.subsections;
      && after.(subsections := subs) == u
      && exists at: nat :: IsLastTitled(after.subsections, p.title, at)
           && (if at < |subs| then |after.subsections| == |subs| && IsLastTitled(subs, p.title, at)
               else at == |subs| == |after.subsections| - 1 && !HasTitle(subs, p.title))
           && (forall k :: 0 <= k < |subs| && k != at ==> after.subsections[k] == subs[k])
           && IsPutOnce(if at < |subs| then subs[at] else Subsection(p.title, []), p.lines, after.subsections[at])
  {
    hide IsPutOnce, Appended, HasItem, LastWithTitle;
    AddPickUnfolds(u, p);
    LastTitled(u.subsections, p.title);
    var found := LastWithTitle(u.subsections, p.title);
    var at := if found.Some? then found.value else |u.subsections|;
    var subs := if found.Some? then u.subsections else u.subsections + [Subsection(p.title, [])];
    PutOnce(subs[at], p.lines);
    AppendedKeepsTitle(subs[at], p.lines);
    hide AddPick;
    assert IsLastTitled(AddPick(u, p).subsections, p.title, at);
  }

  ghost predicate IsPutOnce(s: Subsection, lines: seq<string>, after: Subsection) {
    if Join(TrimBlank(lines)) == "" || HasSameItem(s, lines) then after == s
    else after.title == s.title && PutBelow(Content(s), TrimBlank(lines), Content(after))
  }

  lemma {:induction false} PutOnce(s: Subsection, lines: seq<string>)
    ensures IsPutOnce(s, lines, if HasItem(s, lines) then s else Appended(s, lines))
  {
    AppendedContent(s, lines);
    AppendedKeepsTitle(s, lines);
    hide Appended, TrimBlank, Texts, Items, IsListItem, Join;
  }

  // ------------------------------------------------------------ the counters

  /** Where the subsections without text stand, among the first `n`. */
  ghost function Blanks(subs: seq<Subsection>, n: nat): set<int>
    requires n <= |subs|
  {
    set k | 0 <= k < n && Content(subs[k]) == []
  }

  /** Of the subsections of a part, those counted as removed are the blank ones, and what is left of the
      others is as many fewer as are counted as merged. */
  lemma {:induction false} CountersAddUp(subs: seq<Subsection>, n: nat)
    requires n <= |subs|
    ensures var c := Count(subs[..n]);
      && c.removedEmptyHeadings == |Blanks(subs, n)|
      && |MergedSubsections(subs[..n])| + c.mergedDuplicateHeadings + c.removedEmptyHeadings == n
    decreases n
  {
    hide *;
    if n == 0 {
      NothingMerged();
      NoBlanks(subs);
    } else {
      CountersAddUp(subs, n - 1);
      MergedStep(subs, n - 1);
      BlanksStep(subs, n - 1);
    }
  }

  lemma {:induction false} NoBlanks(subs: seq<Subsection>)
    ensures Blanks(subs, 0) == {} && subs[..0] == []
  {
  }

  lemma {:induction false} BlanksStep(subs: seq<Subsection>, n: nat)
    requires n < |subs|
    ensures |Blanks(subs, n + 1)| == |Blanks(subs, n)| + if Content(subs[n]) == [] then 1 else 0
  {
    hide Content;
    assert Blanks(subs, n + 1) == Blanks(subs, n) + (if Content(subs[n]) == [] then {n} else {});
  }

  ghost function Size(sections: seq<ReleaseSection>): nat {
    if sections == [] then 0 else Size(sections[..|sections| - 1]) + |sections[|sections| - 1].subsections|
  }

  /** A fix that rewrites a text accounts for every subsection: as many as there were, with those made for
      moved items, are written, merged or removed. */
  lemma {:induction false} FixAddsUp(content: string, starts: set<nat>)
    requires var r := Fixed(content, starts);
      r.promotedItems > 0 || r.mergedDuplicateHeadings > 0 || r.removedEmptyHeadings > 0
    ensures var r := Fixed(content, starts);
      Size(Promoted(Parsed(content).sections, starts))
        == Size(Parsed(r.content).sections) + r.mergedDuplicateHeadings + r.removedEmptyHeadings
  {
    hide *;
    var d := Parsed(content);
    var sections := Promoted(d.sections, starts);
    FixedIsSame(content, starts);
    SizeSame(Parsed(Fixed(content, starts).content), Document(d.prefixLines, Normalized(sections)));
    SizeCounted(sections);
  }

  lemma {:induction false} SizeSame(a: Document, b: Document)
    requires Same(a, b)
    ensures Size(a.sections) == Size(b.sections)
  {
    SizesSame(a.sections, b.sections);
    hide TrimBlank, Texts, Size;
  }

  lemma {:induction false} SizesSame(a: seq<ReleaseSection>, b: seq<ReleaseSection>)
    requires SameSections(a, b)
    ensures Size(a) == Size(b)
    decreases |a|
  {
    hide Leading, Content;
    if a != [] {
      SizesSame(a[..|a| - 1], b[..|b| - 1]);
    }
  }

  lemma {:induction false} SizeCounted(sections: seq<ReleaseSection>)
    ensures var c := TotalCount(sections);
      Size(sections) == Size(Normalized(sections)) + c.mergedDuplicateHeadings + c.removedEmptyHeadings
    decreases |sections|
  {
    hide *;
    if sections == [] {
      NothingCounted();
      NoSize();
    } else {
      var n := |sections| - 1;
      var last := sections[n];
      SizeCounted(sections[..n]);
      CountStep(sections, n);
      assert sections[..n + 1] == sections;
      CountersAddUp(last.subsections, |last.subsections|);
      assert last.subsections[..|last.subsections|] == last.subsections;
      SortedSize(last);
      SizeStep(sections);
    }
  }

  lemma {:induction false} NoSize()
    ensures Size([]) == 0 && Normalized([]) == []
  {
  }

  lemma {:induction false} SizeStep(sections: seq<ReleaseSection>)
    requires sections != []
    ensures var n := |sections| - 1;
      && Size(sections) == Size(sections[..n]) + |sections[n].subsections|
      && Size(Normalized(sections)) == Size(Normalized(sections[..n])) + |NormalSection(sections[n]).subsections|
  {
    hide NormalSection;
    var n := |sections| - 1;
    assert Normalized(sections)[..n] == Normalized(sections[..n]);
  }

  lemma {:induction false} SortedSize(s: ReleaseSection)
    ensures |NormalSection(s).subsections| == |MergedSubsections(s.subsections)|
  {
    NormalSectionUnfolds(s);
    OrderedIsStableSort(MergedSubsections(s.subsections), 0);
    assert |multiset(Ordered(MergedSubsections(s.subsections)))| == |multiset(MergedSubsections(s.subsections))|;
    hide NormalSection, Ordered, MergedSubsections;
  }

  /** The items that begin at one of the lines. */
  ghost function Starting(items: seq<Item>, starts: set<nat>): nat {
    if items == [] then 0 else (if items[0].startLine in starts then 1 else 0) + Starting(items[1..], starts)
  }

  ghost function MovedFrom(subs: seq<Subsection>, starts: set<nat>): nat {
    if subs == [] then 0
    else MovedFrom(subs[..|subs| - 1], starts) + Starting(Items(subs[|subs| - 1].lines), starts)
  }

  ghost function MovedItems(sections: seq<ReleaseSection>, starts: set<nat>): nat {
    if sections == [] then 0
    else
      var last := sections[|sections| - 1];
      MovedItems(sections[..|sections| - 1], starts)
      + if last.title == "Unreleased" then 0 else MovedFrom(last.subsections, starts)
  }

  /** The items counted as promoted are those of the released parts that begin at the given lines. */
  lemma {:induction false} PromotedAreCounted(content: string, starts: set<nat>)
    requires var r := Fixed(content, starts);
      r.promotedItems > 0 || r.mergedDuplicateHeadings > 0 || r.removedEmptyHeadings > 0
    ensures Fixed(content, starts).promotedItems == MovedItems(Parsed(content).sections, starts)
  {
    hide *;
    FixedIsSame(content, starts);
    PicksCounted(Parsed(content).sections, starts);
  }

  lemma {:induction false} PicksCounted(sections: seq<ReleaseSection>, starts: set<nat>)
    ensures |DocumentPicks(sections, starts)| == MovedItems(sections, starts)
  {
    hide AllPicks;
    if sections != [] {
      PicksCounted(sections[..|sections| - 1], starts);
      PartCounted(sections[|sections| - 1].subsections, starts);
    }
    hide MovedFrom;
  }

  lemma {:induction false} PartCounted(subs: seq<Subsection>, starts: set<nat>)
    ensures |AllPicks(subs, starts)| == MovedFrom(subs, starts)
  {
    hide Items, Chosen, Starting;
    if subs != [] {
      PartCounted(subs[..|subs| - 1], starts);
      ChosenCounted(Items(subs[|subs| - 1].lines), starts);
      PicksAre(subs[|subs| - 1].title, Chosen(Items(subs[|subs| - 1].lines), starts));
    }
  }

  lemma {:induction false} ChosenCounted(items: seq<Item>, starts: set<nat>)
    ensures |Chosen(items, starts)| == Starting(items, starts)
  {
    if items != [] {
      ChosenCounted(items[1..], starts);
    }
  }

  // ------------------------------------------------------------ line numbers

  /** Every line is the one that its number names in the file, counted from 1. */
  ghost predicate AreNumbered(lines: seq<NumberedLine>, texts: seq<string>) {
    forall i :: 0 <= i < |lines| ==> IsNumbered(lines[i], texts)
  }

  ghost predicate IsNumbered(line: NumberedLine, texts: seq<string>) {
    1 <= line.lineNumber <= |texts| && texts[line.lineNumber - 1] == line.text
  }

  ghost predicate SubsectionsNumbered(subs: seq<Subsection>, texts: seq<string>) {
    forall j :: 0 <= j < |subs| ==> AreNumbered(subs[j].lines, texts)
  }

  lemma {:induction false} NumberedPart(lines: seq<NumberedLine>, texts: seq<string>, a: nat, b: nat)
    requires AreNumbered(lines, texts) && a <= b <= |lines|
    ensures AreNumbered(lines[a..b], texts) && AreNumbered(lines[a..], texts)
  {
    hide IsNumbered;
  }

  lemma {:induction false} SubsectionsAreNumbered(lines: seq<NumberedLine>, texts: seq<string>)
    requires AreNumbered(lines, texts) && StartsWithSubsection(lines)
    ensures SubsectionsNumbered(ParsedSubsections(lines), texts)
    decreases |lines|
  {
    hide IsSubsectionHeading, SubsectionTitle, ParsedSubsections, AreNumbered;
    if lines == [] {
      NoMore();
    } else {
      var k := NextSubsection(lines, 1);
      SubsectionsUnfold(lines);
      NumberedPart(lines, texts, 1, k);
      NumberedPart(lines, texts, k, |lines|);
      SubsectionsAreNumbered(lines[k..], texts);
    }
  }

  lemma {:induction false} SectionIsNumbered(heading: string, body: seq<NumberedLine>, texts: seq<string>)
    requires IsReleaseHeading(heading) && AreNumbered(body, texts)
    ensures SubsectionsNumbered(ParsedSection(heading, body).subsections, texts)
  {
    var k := NextSubsection(body, 0);
    NumberedPart(body, texts, k, |body|);
    SubsectionsAreNumbered(body[k..], texts);
    hide IsReleaseHeading, ReleaseTitle, ParsedSubsections, SubsectionsNumbered;
  }

  ghost predicate SectionsNumbered(sections: seq<ReleaseSection>, texts: seq<string>) {
    forall i :: 0 <= i < |sections| ==> SubsectionsNumbered(sections[i].subsections, texts)
  }

  lemma {:induction false} SectionsAreNumbered(lines: seq<NumberedLine>, texts: seq<string>)
    requires AreNumbered(lines, texts) && StartsWithRelease(lines)
    ensures SectionsNumbered(ParsedSections(lines), texts)
    decreases |lines|
  {
    hide IsReleaseHeading, ParsedSection, ParsedSections, AreNumbered, SubsectionsNumbered;
    if lines == [] {
      NoMore();
    } else {
      var k := NextRelease(lines, 1);
      SectionsUnfold(lines);
      NumberedPart(lines, texts, 1, k);
      NumberedPart(lines, texts, k, |lines|);
      SectionIsNumbered(lines[0].text, lines[1..k], texts);
      SectionsAreNumbered(lines[k..], texts);
    }
  }

  lemma {:induction false} DocumentIsNumbered(content: string)
    ensures SectionsNumbered(Parsed(content).sections, ContentLines(content))
  {
    var texts := ContentLines(content);
    var lines := Numbered(texts);
    var k := NextRelease(lines, 0);
    assert AreNumbered(lines, texts);
    NumberedPart(lines, texts, k, |lines|);
    SectionsAreNumbered(lines[k..], texts);
    hide ContentLines, IsReleaseHeading, ParsedSections, SectionsNumbered;
  }

  lemma {:induction false} ItemBegins(lines: seq<NumberedLine>, texts: seq<string>, i: nat)
    requires AreNumbered(lines, texts) && i < |Items(lines)|
    ensures var n := Items(lines)[i].startLine;
      1 <= n <= |texts| && IsListItem(texts[n - 1])
    decreases |lines|
  {
    hide IsListItem, Items, AreNumbered;
    NoItems();
    ItemsUnfold(lines);
    FirstNumbered(lines, texts);
    if !IsListItem(lines[0].text) {
      NumberedPart(lines, texts, 1, |lines|);
      ItemBegins(lines[1..], texts, i);
    } else if i > 0 {
      var k := NextItem(lines, 1);
      NumberedPart(lines, texts, k, |lines|);
      ItemBegins(lines[k..], texts, i - 1);
    } else {
      ItemIs(lines[..NextItem(lines, 1)]);
    }
  }

  lemma {:induction false} FirstNumbered(lines: seq<NumberedLine>, texts: seq<string>)
    requires AreNumbered(lines, texts) && lines != []
    ensures IsNumbered(lines[0], texts)
  {
  }

  /** The line by which an item is chosen is the one of the file, counted from 1, at which it begins. */
  lemma {:induction false} ItemsAreNumbered(content: string, s: nat, j: nat, i: nat)
    requires var sections := Parsed(content).sections;
      s < |sections| && j < |sections[s].subsections| && i < |Items(sections[s].subsections[j].lines)|
    ensures var n, lines := Items(Parsed(content).sections[s].subsections[j].lines)[i].startLine, ContentLines(content);
      1 <= n <= |lines| && IsListItem(lines[n - 1])
  {
    DocumentIsNumbered(content);
    hide Parsed, ContentLines, Items, IsListItem, AreNumbered;
    ItemBegins(Parsed(content).sections[s].subsections[j].lines, ContentLines(content), i);
  }
}
