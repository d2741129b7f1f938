/** Promoting items: list items added to released parts of a changelog since the last release move to
    the unreleased part, below the same title. */
module ChangelogPromote {
  import opened Options
  import opened ChangelogText
  import opened Changelog
  import opened ChangelogItems
  import opened ChangelogRoundTrip
  import opened ChangelogNormal

  // ------------------------------------------------------------ which items, and what stays

  function Chosen(items: seq<Item>, starts: set<nat>): seq<Item> {
    if items == [] then []
    else (if items[0].startLine in starts then [items[0]] else []) + Chosen(items[1..], starts)
  }

  predicate InRanges(items: seq<Item>, n: nat) {
    exists i :: 0 <= i < |items| && items[i].startLine <= n <= items[i].endLine
  }

  method LineRangeSet(items: seq<Item>) returns (lines: set<nat>)
    ensures forall n: nat :: n in lines <==> InRanges(items, n)
  {
    lines := {};
    for i := 0 to |items|
      invariant forall n: nat :: n in lines <==> InRanges(items[..i], n)
    {
      ghost var before := lines;
      var line := items[i].startLine;
      while line <= items[i].endLine
        invariant items[i].startLine <= line
        invariant line <= items[i].endLine + 1 || line == items[i].startLine
        invariant forall n: nat :: n in lines <==> n in before || items[i].startLine <= n < line
      {
        lines := lines + {line};
        line := line + 1;
      }
      OneMoreRange(items, i);
    }
    assert items[..|items|] == items;
  }

  lemma {:induction false} OneMoreRange(items: seq<Item>, i: nat)
    requires i < |items|
    ensures forall n: nat ::
      InRanges(items[..i + 1], n) <==> (InRanges(items[..i], n) || items[i].startLine <= n <= items[i].endLine)
  {
    forall n: nat
      ensures InRanges(items[..i + 1], n) <==> (InRanges(items[..i], n) || items[i].startLine <= n <= items[i].endLine)
    {
      var a, b := items[..i], items[..i + 1];
      assert b[i] == items[i] && forall k :: 0 <= k < i ==> b[k] == a[k];
    }
  }

  /** The lines whose numbers lie in no item's range. */
  function Outside(lines: seq<NumberedLine>, items: seq<Item>): seq<NumberedLine> {
    if lines == [] then []
    else (if InRanges(items, lines[0].lineNumber) then [] else [lines[0]]) + Outside(lines[1..], items)
  }

  function Kept(s: Subsection, starts: set<nat>): Subsection {
    var items := Chosen(Items(s.lines), starts);
    if items == [] then s else s.(lines := Outside(s.lines, items))
  }

  /** An item on its way to the unreleased part. */
  datatype Pick = Pick(title: string, lines: seq<string>)

  function PicksOf(title: string, items: seq<Item>): seq<Pick> {
    seq(|items|, i requires 0 <= i < |items| => Pick(title, items[i].lines))
  }

  function SubsectionPicks(s: Subsection, starts: set<nat>): seq<Pick> {
    PicksOf(s.title, Chosen(Items(s.lines), starts))
  }

  function AllPicks(subs: seq<Subsection>, starts: set<nat>): seq<Pick> {
    if subs == [] then []
    else AllPicks(subs[..|subs| - 1], starts) + SubsectionPicks(subs[|subs| - 1], starts)
  }

  /** The first `j` subsections without their chosen items, the others as they are. */
  function KeptUpTo(subs: seq<Subsection>, starts: set<nat>, j: nat): (r: seq<Subsection>)
    requires j <= |subs|
    ensures |r| == |subs|
  {
    seq(|subs|, i requires 0 <= i < |subs| => if i < j then Kept(subs[i], starts) else subs[i])
  }

  function SectionPicks(s: ReleaseSection, starts: set<nat>): seq<Pick> {
    if s.title == UNRELEASED then [] else AllPicks(s.subsections, starts)
  }

  function KeptSection(s: ReleaseSection, starts: set<nat>): ReleaseSection {
    if s.title == UNRELEASED then s
    else s.(subsections := KeptUpTo(s.subsections, starts, |s.subsections|))
  }

  function DocumentPicks(sections: seq<ReleaseSection>, starts: set<nat>): seq<Pick> {
    if sections == [] then []
    else DocumentPicks(sections[..|sections| - 1], starts) + SectionPicks(sections[|sections| - 1], starts)
  }

  function KeptSections(sections: seq<ReleaseSection>, starts: set<nat>, i: nat): (r: seq<ReleaseSection>)
    requires i <= |sections|
    ensures |r| == |sections|
  {
    seq(|sections|, k requires 0 <= k < |sections| => if k < i then KeptSection(sections[k], starts) else sections[k])
  }

  // ------------------------------------------------------------ where they go

  function LastWithTitle(subs: seq<Subsection>, title: string): (r: Option<nat>)
    ensures r.Some? ==> r.value < |subs| && subs[r.value].title == title
  {
    if subs == [] then None
    else if subs[|subs| - 1].title == title then Some(|subs| - 1)
    else LastWithTitle(subs[..|subs| - 1], title)
  }

  /** The last subsection with the title takes the item, unless it has it; a new one is made if there is
      none. */
  function AddPick(u: ReleaseSection, p: Pick): ReleaseSection {
    var found := LastWithTitle(u.subsections, p.title);
    var subs := if found.Some? then u.subsections else u.subsections + [Subsection(p.title, [])];
    var at := if found.Some? then found.value else |u.subsections|;
    u.(subsections := if HasItem(subs[at], p.lines) then subs else subs[at := Appended(subs[at], p.lines)])
  }

  function AddPicks(u: ReleaseSection, picks: seq<Pick>): ReleaseSection {
    if picks == [] then u else AddPick(AddPicks(u, picks[..|picks| - 1]), picks[|picks| - 1])
  }

  const NEW_UNRELEASED := ReleaseSection("## [" + UNRELEASED + "]", UNRELEASED, [], [])

  function FirstUnreleased(sections: seq<ReleaseSection>): (r: Option<nat>)
    ensures r.Some? ==> r.value < |sections| && sections[r.value].title == UNRELEASED
  {
    if sections == [] then None
    else if sections[0].title == UNRELEASED then Some(0)
    else
      var r := FirstUnreleased(sections[1..]);
      if r.Some? then Some(r.value + 1) else None
  }

  /** The picks put into the first unreleased part, or into a new one at the front. */
  function Placed(sections: seq<ReleaseSection>, picks: seq<Pick>): seq<ReleaseSection> {
    if picks == [] then sections
    else
      match FirstUnreleased(sections)
      case Some(u) => sections[u := AddPicks(sections[u], picks)]
      case None => [AddPicks(NEW_UNRELEASED, picks)] + sections
  }

  function Promoted(sections: seq<ReleaseSection>, starts: set<nat>): seq<ReleaseSection> {
    Placed(KeptSections(sections, starts, |sections|), DocumentPicks(sections, starts))
  }

  lemma {:induction false} AddPicksConcat(u: ReleaseSection, a: seq<Pick>, b: seq<Pick>)
    ensures AddPicks(u, a + b) == AddPicks(AddPicks(u, a), b)
    decreases |b|
  {
    hide AddPick;
    if b == [] {
      assert a + b == a;
    } else {
      assert (a + b)[..|a + b| - 1] == a + b[..|b| - 1];
      AddPicksConcat(u, a, b[..|b| - 1]);
    }
  }

  lemma {:induction false} AddPicksTitle(u: ReleaseSection, picks: seq<Pick>)
    ensures AddPicks(u, picks).title == u.title && AddPicks(u, picks).heading == u.heading
    ensures AddPicks(u, picks).leadingLines == u.leadingLines
    decreases |picks|
  {
    hide HasItem, Appended, LastWithTitle;
    if picks != [] {
      AddPicksTitle(u, picks[..|picks| - 1]);
    }
  }

  // ------------------------------------------------------------ nothing is chosen twice

  ghost predicate Increasing(lines: seq<NumberedLine>) {
    forall i, j :: 0 <= i < j < |lines| ==> lines[i].lineNumber < lines[j].lineNumber
  }

  /** No line that begins a list item has its number among `starts`. */
  ghost predicate NoneStarts(lines: seq<NumberedLine>, starts: set<nat>) {
    forall i :: 0 <= i < |lines| && IsListItem(lines[i].text) ==> lines[i].lineNumber !in starts
  }

  lemma {:induction false} NoneStartsNoneChosen(lines: seq<NumberedLine>, starts: set<nat>)
    ensures NoneStarts(lines, starts) <==> Chosen(Items(lines), starts) == []
    decreases |lines|
  {
    hide IsListItem, Items, ItemOf;
    if lines == [] {
      NoItems();
    } else {
      ItemsUnfold(lines);
      var rest := if IsListItem(lines[0].text) then lines[NextItem(lines, 1)..] else lines[1..];
      NoneStartsNoneChosen(rest, starts);
      NextItemFound(lines, 1);
      RestStarts(lines, rest, starts);
      if IsListItem(lines[0].text) {
        ChosenFirst(ItemOf(lines[..NextItem(lines, 1)]), Items(rest), starts);
        FirstNumber(lines[..NextItem(lines, 1)]);
      }
    }
  }

  lemma {:induction false} ChosenFirst(item: Item, items: seq<Item>, starts: set<nat>)
    ensures Chosen([item] + items, starts) == (if item.startLine in starts then [item] else []) + Chosen(items, starts)
  {
    assert ([item] + items)[1..] == items;
  }

  lemma {:induction false} FirstNumber(lines: seq<NumberedLine>)
    requires lines != []
    ensures ItemOf(lines).startLine == lines[0].lineNumber && ItemOf(lines).endLine == lines[|lines| - 1].lineNumber
  {
    hide TrimBlank;
  }

  lemma {:induction false} RestStarts(lines: seq<NumberedLine>, rest: seq<NumberedLine>, starts: set<nat>)
    requires lines != []
    requires var k := if IsListItem(lines[0].text) then NextItem(lines, 1) else 1;
      rest == lines[k..] && forall j :: 1 <= j < k ==> !IsListItem(lines[j].text)
    ensures NoneStarts(lines, starts)
      <==> NoneStarts(rest, starts) && (IsListItem(lines[0].text) ==> lines[0].lineNumber !in starts)
  {
    hide IsListItem, NextItem;
    var k := if IsListItem(lines[0].text) then NextItem(lines, 1) else 1;
    assert forall j :: 0 <= j < |rest| ==> rest[j] == lines[k + j];
    if NoneStarts(rest, starts) && (IsListItem(lines[0].text) ==> lines[0].lineNumber !in starts) {
      forall i | 0 <= i < |lines| && IsListItem(lines[i].text)
        ensures lines[i].lineNumber !in starts
      {
        if i >= k { assert lines[i] == rest[i - k]; }
      }
    }
  }

  // ------------------------------------------------------------ which lines stay

  /** The list item a line belongs to, given by its first line: none before the first item. */
  function Owner(lines: seq<NumberedLine>, i: nat): (r: Option<nat>)
    requires i < |lines|
    ensures r.Some? ==> r.value <= i
  {
    if IsListItem(lines[i].text) then Some(i) else if i == 0 then None else Owner(lines, i - 1)
  }

  ghost predicate OwnerStarts(lines: seq<NumberedLine>, starts: set<nat>, i: nat)
    requires i < |lines|
  {
    Owner(lines, i).Some? && lines[Owner(lines, i).value].lineNumber in starts
  }

  lemma {:induction false} OwnerShifts(lines: seq<NumberedLine>, starts: set<nat>, k: nat, i: nat)
    requires k <= i < |lines|
    requires IsListItem(lines[k].text) || forall j :: 0 <= j < k ==> !IsListItem(lines[j].text)
    ensures OwnerStarts(lines, starts, i) <==> OwnerStarts(lines[k..], starts, i - k)
    ensures Owner(lines, i) == None <==> Owner(lines[k..], i - k) == None
    ensures Owner(lines, i).Some? ==> Owner(lines, i).value == Owner(lines[k..], i - k).value + k
    decreases i
  {
    hide IsListItem;
    assert lines[k..][i - k] == lines[i];
    if !IsListItem(lines[i].text) {
      if i > k {
        OwnerShifts(lines, starts, k, i - 1);
      } else if i > 0 {
        NoOwner(lines, i - 1);
      }
    }
  }

  lemma {:induction false} NoOwner(lines: seq<NumberedLine>, i: nat)
    requires i < |lines| && forall j :: 0 <= j <= i ==> !IsListItem(lines[j].text)
    ensures Owner(lines, i) == None
    decreases i
  {
    hide IsListItem;
    if i > 0 { NoOwner(lines, i - 1); }
  }

  lemma {:induction false} FirstOwns(lines: seq<NumberedLine>, i: nat)
    requires i < |lines| && IsListItem(lines[0].text) && forall j :: 1 <= j <= i ==> !IsListItem(lines[j].text)
    ensures Owner(lines, i) == Some(0)
    decreases i
  {
    hide IsListItem;
    if i > 0 { FirstOwns(lines, i - 1); }
  }

  lemma {:induction false} RangesFirst(item: Item, items: seq<Item>, n: nat)
    ensures InRanges([item] + items, n) <==> (item.startLine <= n <= item.endLine || InRanges(items, n))
  {
    var all := [item] + items;
    assert all[0] == item && forall i :: 0 < i < |all| ==> all[i] == items[i - 1];
    if InRanges(items, n) {
      var i :| 0 <= i < |items| && items[i].startLine <= n <= items[i].endLine;
      assert all[i + 1] == items[i];
    }
  }

  /** Numbers below those of some lines are in no range of their items. */
  lemma {:induction false} RangesAbove(lines: seq<NumberedLine>, starts: set<nat>, n: nat)
    requires forall i :: 0 <= i < |lines| ==> n < lines[i].lineNumber
    ensures !InRanges(Chosen(Items(lines), starts), n)
    decreases |lines|
  {
    hide IsListItem, Items, ItemOf, InRanges, NextItem;
    if lines == [] {
      NoItems();
      NoRanges(n);
    } else {
      ItemsUnfold(lines);
      if IsListItem(lines[0].text) {
        var k := NextItem(lines, 1);
        RangesAbove(lines[k..], starts, n);
        FirstNumber(lines[..k]);
        ChosenFirst(ItemOf(lines[..k]), Items(lines[k..]), starts);
        RangesFirst(ItemOf(lines[..k]), Chosen(Items(lines[k..]), starts), n);
        assert [] + Chosen(Items(lines[k..]), starts) == Chosen(Items(lines[k..]), starts);
      } else {
        RangesAbove(lines[1..], starts, n);
      }
    }
  }

  lemma {:induction false} NoRanges(n: nat)
    ensures !InRanges([], n)
  {
  }

  lemma {:induction false} IncreasingParts(lines: seq<NumberedLine>, k: nat, i: nat)
    requires Increasing(lines) && 1 <= k <= |lines| && i < |lines|
    ensures Increasing(lines[k..])
    ensures lines[0].lineNumber <= lines[i].lineNumber
    ensures lines[i].lineNumber <= lines[..k][k - 1].lineNumber <==> i < k
    ensures i < k ==> forall j :: 0 <= j < |lines[k..]| ==> lines[i].lineNumber < lines[k..][j].lineNumber
  {
    assert forall j :: 0 <= j < |lines[k..]| ==> lines[k..][j] == lines[k + j];
  }

  /** The ranges of the chosen items cover exactly the lines whose item begins at a chosen number. */
  lemma {:induction false} DroppedIffChosen(lines: seq<NumberedLine>, starts: set<nat>, i: nat)
    requires Increasing(lines) && i < |lines|
    ensures InRanges(Chosen(Items(lines), starts), lines[i].lineNumber) <==> OwnerStarts(lines, starts, i)
    decreases |lines|
  {
    hide IsListItem, Items, ItemOf, InRanges, OwnerStarts, NextItem, Increasing, Chosen;
    var n := lines[i].lineNumber;
    var isItem := IsListItem(lines[0].text);
    var k := if isItem then NextItem(lines, 1) else 1;
    var rest := lines[k..];
    IncreasingParts(lines, k, i);
    ItemsUnfold(lines);
    NextItemFound(lines, 1);
    if isItem {
      FirstNumber(lines[..k]);
      ChosenFirst(ItemOf(lines[..k]), Items(rest), starts);
      RangesFirst(ItemOf(lines[..k]), Chosen(Items(rest), starts), n);
      assert [] + Chosen(Items(rest), starts) == Chosen(Items(rest), starts);
    }
    if i < k {
      RangesAbove(rest, starts, n);
      FirstLines(lines, starts, i, k);
    } else {
      assert rest[i - k] == lines[i] && rest[0] == lines[k];
      DroppedIffChosen(rest, starts, i - k);
      OwnerShifts(lines, starts, k, i);
    }
  }

  lemma {:induction false} FirstLines(lines: seq<NumberedLine>, starts: set<nat>, i: nat, k: nat)
    requires i < k <= |lines| && forall j :: 1 <= j < k ==> !IsListItem(lines[j].text)
    ensures OwnerStarts(lines, starts, i) <==> IsListItem(lines[0].text) && lines[0].lineNumber in starts
  {
    hide IsListItem, Owner;
    if IsListItem(lines[0].text) {
      FirstOwns(lines, i);
    } else {
      NoOwner(lines, i);
    }
  }

  lemma {:induction false} OutsideMembers(lines: seq<NumberedLine>, items: seq<Item>)
    ensures forall l :: l in Outside(lines, items) <==> l in lines && !InRanges(items, l.lineNumber)
  {
    hide InRanges;
    if lines != [] {
      OutsideMembers(lines[1..], items);
      assert lines == [lines[0]] + lines[1..];
    }
  }

  lemma {:induction false} OutsideIncreases(lines: seq<NumberedLine>, items: seq<Item>)
    requires Increasing(lines)
    ensures Increasing(Outside(lines, items))
  {
    hide InRanges;
    if lines != [] {
      var rest := lines[1..];
      assert forall i :: 0 <= i < |rest| ==> rest[i] == lines[i + 1];
      OutsideIncreases(rest, items);
      OutsideMembers(rest, items);
      FirstIncreases(lines[0], Outside(rest, items));
    }
  }

  lemma {:induction false} OutsideGood(lines: seq<NumberedLine>, items: seq<Item>)
    requires BodyLines(lines)
    ensures BodyLines(Outside(lines, items))
  {
    hide InRanges, BodyLine, Outside;
    OutsideMembers(lines, items);
    var out := Outside(lines, items);
    forall i | 0 <= i < |out|
      ensures BodyLine(out[i].text)
    {
      assert out[i] in lines;
    }
  }

  lemma {:induction false} FirstIncreases(first: NumberedLine, rest: seq<NumberedLine>)
    requires Increasing(rest) && forall l :: l in rest ==> first.lineNumber < l.lineNumber
    ensures Increasing([first] + rest)
  {
    var all := [first] + rest;
    assert forall i :: 0 < i < |all| ==> all[i] == rest[i - 1];
  }

  /** Taking the chosen items out of a subsection keeps, in order, exactly the lines that belong to no
      chosen item, and leaves no item to choose. */
  lemma {:induction false} KeptLines(s: Subsection, starts: set<nat>)
    requires Increasing(s.lines)
    ensures var kept := Kept(s, starts);
      && kept.title == s.title && Increasing(kept.lines)
      && (forall i :: 0 <= i < |s.lines| ==> (s.lines[i] in kept.lines <==> !OwnerStarts(s.lines, starts, i)))
      && (forall l :: l in kept.lines ==> l in s.lines)
      && Chosen(Items(kept.lines), starts) == []
  {
    var items := Chosen(Items(s.lines), starts);
    OutsideMembers(s.lines, items);
    OutsideIncreases(s.lines, items);
    hide Outside, InRanges, OwnerStarts, Items, Chosen;
    forall i | 0 <= i < |s.lines|
      ensures InRanges(items, s.lines[i].lineNumber) <==> OwnerStarts(s.lines, starts, i)
    {
      DroppedIffChosen(s.lines, starts, i);
    }
    if items == [] {
      NoRangesAtAll();
    } else {
      NoneLeft(s.lines, starts);
    }
  }

  lemma {:induction false} NoRangesAtAll()
    ensures forall n: nat :: !InRanges([], n)
  {
  }

  lemma {:induction false} NoneLeft(lines: seq<NumberedLine>, starts: set<nat>)
    requires Increasing(lines)
    ensures Chosen(Items(Outside(lines, Chosen(Items(lines), starts))), starts) == []
  {
    var items := Chosen(Items(lines), starts);
    var out := Outside(lines, items);
    OutsideMembers(lines, items);
    hide Outside, InRanges, Items, Chosen, IsListItem;
    forall i | 0 <= i < |out| && IsListItem(out[i].text)
      ensures out[i].lineNumber !in starts
    {
      assert out[i] in lines;
      var j :| 0 <= j < |lines| && lines[j] == out[i];
      DroppedIffChosen(lines, starts, j);
      ItemOwnsItself(lines, starts, j);
    }
    NoneStartsNoneChosen(out, starts);
  }

  lemma {:induction false} ItemOwnsItself(lines: seq<NumberedLine>, starts: set<nat>, j: nat)
    requires j < |lines| && IsListItem(lines[j].text)
    ensures OwnerStarts(lines, starts, j) <==> lines[j].lineNumber in starts
  {
    hide IsListItem;
  }

  // ------------------------------------------------------------ promoting one part

  lemma {:induction false} PicksAre(title: string, items: seq<Item>)
    ensures |PicksOf(title, items)| == |items|
    ensures forall i :: 0 <= i < |items| ==> PicksOf(title, items)[i] == Pick(title, items[i].lines)
  {
  }

  lemma {:induction false} NoPicks(u: ReleaseSection)
    ensures AddPicks(u, []) == u
  {
  }

  lemma {:induction false} AddPicksStep(u: ReleaseSection, picks: seq<Pick>, i: nat)
    requires i < |picks|
    ensures AddPicks(u, picks[..i + 1]) == AddPick(AddPicks(u, picks[..i]), picks[i])
  {
    hide AddPick;
    assert picks[..i + 1][..i] == picks[..i];
  }

  lemma {:induction false} AddPickUnfolds(u: ReleaseSection, p: Pick)
    ensures var found := LastWithTitle(u.subsections, p.title);
      var subs := if found.Some? then u.subsections else u.subsections + [Subsection(p.title, [])];
      var at := if found.Some? then found.value else |u.subsections|;
      AddPick(u, p) == u.(subsections := if HasItem(subs[at], p.lines) then subs
                                         else subs[at := Appended(subs[at], p.lines)])
  {
    hide HasItem, Appended, LastWithTitle;
  }

  function WithSubsection(s: ReleaseSection, j: nat, sub: Subsection): ReleaseSection
    requires j < |s.subsections|
  {
    s.(subsections := s.subsections[j := sub])
  }

  /** By how much the parts move on when the picks are placed. */
  function Shift(sections: seq<ReleaseSection>, picks: seq<Pick>): nat {
    if picks != [] && FirstUnreleased(sections) == None then 1 else 0
  }

  function PartlyKept(s: ReleaseSection, starts: set<nat>, j: nat): ReleaseSection
    requires j <= |s.subsections|
  {
    s.(subsections := KeptUpTo(s.subsections, starts, j))
  }

  /** The state with the first `j` subsections of the part at `at` done. */
  ghost predicate Halfway(before: seq<ReleaseSection>, now: seq<ReleaseSection>, at: nat, starts: set<nat>, j: nat,
                          promoted: nat, after: nat) {
    && at < |before| && before[at].title != UNRELEASED && j <= |before[at].subsections|
    && var picks := AllPicks(before[at].subsections[..j], starts);
    && promoted == |picks|
    && now == Placed(before[at := PartlyKept(before[at], starts, j)], picks)
    && after == at + Shift(before, picks)
  }

  lemma {:induction false} SectionPicksUnfold(s: ReleaseSection, starts: set<nat>)
    requires s.title != UNRELEASED
    ensures SectionPicks(s, starts) == AllPicks(s.subsections, starts)
    ensures KeptSection(s, starts) == PartlyKept(s, starts, |s.subsections|)
  {
    hide AllPicks, KeptUpTo;
  }

  lemma {:induction false} NothingPromoted(before: seq<ReleaseSection>, at: nat, starts: set<nat>)
    requires at < |before| && before[at].title != UNRELEASED
    ensures Halfway(before, before, at, starts, 0, 0, at)
  {
    var s := before[at];
    hide Kept, FirstUnreleased;
    assert KeptUpTo(s.subsections, starts, 0) == s.subsections;
    assert before[at := s] == before;
    assert s.subsections[..0] == [];
  }

  /** Replacing a part by one with the same title does not change which part is the unreleased one. */
  lemma {:induction false} FirstUnreleasedStays(sections: seq<ReleaseSection>, at: nat, s: ReleaseSection)
    requires at < |sections| && s.title == sections[at].title
    ensures FirstUnreleased(sections[at := s]) == FirstUnreleased(sections)
    ensures s.title != UNRELEASED ==> FirstUnreleased(sections) != Some(at)
  {
    if sections[0].title != UNRELEASED {
      if at == 0 {
        assert sections[at := s][1..] == sections[1..];
      } else {
        assert sections[at := s][1..] == sections[1..][at - 1 := s];
        FirstUnreleasedStays(sections[1..], at - 1, s);
      }
    }
  }

  lemma {:induction false} PlacedUnfolds(sections: seq<ReleaseSection>, picks: seq<Pick>)
    ensures Placed(sections, picks)
         == if picks == [] then sections
            else match FirstUnreleased(sections)
                 case Some(u) => sections[u := AddPicks(sections[u], picks)]
                 case None => [AddPicks(NEW_UNRELEASED, picks)] + sections
  {
    hide FirstUnreleased, AddPicks;
  }

  /** Where the part at `at` stands now. */
  lemma {:induction false} HalfwayHere(before: seq<ReleaseSection>, now: seq<ReleaseSection>, at: nat, starts: set<nat>,
                                       j: nat, promoted: nat, after: nat)
    requires Halfway(before, now, at, starts, j, promoted, after)
    ensures at < |before| && j <= |before[at].subsections|
    ensures after < |now| && now[after] == PartlyKept(before[at], starts, j)
    ensures |now[after].subsections| == |before[at].subsections|
    ensures j < |before[at].subsections| ==> now[after].subsections[j] == before[at].subsections[j]
  {
    hide Kept, AllPicks, AddPicks, FirstUnreleased, Placed;
    var part := PartlyKept(before[at], starts, j);
    var picks := AllPicks(before[at].subsections[..j], starts);
    PlacedUnfolds(before[at := part], picks);
    FirstUnreleasedStays(before, at, part);
  }

  lemma {:induction false} PicksStep(subs: seq<Subsection>, starts: set<nat>, j: nat)
    requires j < |subs|
    ensures AllPicks(subs[..j + 1], starts) == AllPicks(subs[..j], starts) + SubsectionPicks(subs[j], starts)
    ensures KeptUpTo(subs, starts, j + 1) == KeptUpTo(subs, starts, j)[j := Kept(subs[j], starts)]
  {
    hide Kept, SubsectionPicks;
    assert subs[..j + 1][..j] == subs[..j];
  }

  lemma {:induction false} HalfwaySkips(before: seq<ReleaseSection>, now: seq<ReleaseSection>, at: nat,
                                        starts: set<nat>, j: nat, promoted: nat, after: nat)
    requires Halfway(before, now, at, starts, j, promoted, after) && j < |before[at].subsections|
    requires Chosen(Items(before[at].subsections[j].lines), starts) == []
    ensures Halfway(before, now, at, starts, j + 1, promoted, after)
  {
    var subs := before[at].subsections;
    assert Kept(subs[j], starts) == subs[j] && SubsectionPicks(subs[j], starts) == [];
    hide Kept, SubsectionPicks, AllPicks, Placed, FirstUnreleased, Items, Chosen, AddPicks;
    PicksStep(subs, starts, j);
    assert KeptUpTo(subs, starts, j + 1) == KeptUpTo(subs, starts, j);
    assert AllPicks(subs[..j], starts) + [] == AllPicks(subs[..j], starts);
  }

  /** The parts with an unreleased one among them, and where that is. */
  function Opened(sections: seq<ReleaseSection>): (r: seq<ReleaseSection>)
    ensures |r| >= |sections|
  {
    if FirstUnreleased(sections).Some? then sections else [NEW_UNRELEASED] + sections
  }

  function OpenAt(sections: seq<ReleaseSection>): (u: nat)
    ensures u < |Opened(sections)|
  {
    if FirstUnreleased(sections).Some? then FirstUnreleased(sections).value else 0
  }

  function AddedTo(sections: seq<ReleaseSection>, picks: seq<Pick>): seq<ReleaseSection> {
    Opened(sections)[OpenAt(sections) := AddPicks(Opened(sections)[OpenAt(sections)], picks)]
  }

  /** Adding picks to parts that already have some placed is placing them all; in between, a released
      part may have changed. */
  lemma {:induction false} PlacedMore(x: seq<ReleaseSection>, picks: seq<Pick>, more: seq<Pick>, at: nat,
                                      s: ReleaseSection)
    requires at < |x| && x[at].title == s.title != UNRELEASED && more != []
    ensures var shift := Shift(x, picks);
      && at + shift < |Placed(x, picks)| && Placed(x, picks)[at + shift] == x[at]
      && AddedTo(Placed(x, picks)[at + shift := s], more) == Placed(x[at := s], picks + more)
      && |Placed(x, picks)| + (Shift(x, picks + more) - shift) == |Opened(Placed(x, picks)[at + shift := s])|
  {
    hide FirstUnreleased, AddPicks, Placed;
    FirstUnreleasedStays(x, at, s);
    if FirstUnreleased(x).Some? {
      PlacedMoreInto(x, picks, more, at, s, FirstUnreleased(x).value);
    } else {
      PlacedMoreInFront(x, picks, more, at, s);
    }
  }

  lemma {:induction false} PlacedMoreInto(x: seq<ReleaseSection>, picks: seq<Pick>, more: seq<Pick>, at: nat,
                                          s: ReleaseSection, u: nat)
    requires at < |x| && x[at].title == s.title != UNRELEASED && more != []
    requires FirstUnreleased(x).Some? && FirstUnreleased(x).value == u != at
    requires FirstUnreleased(x[at := s]) == FirstUnreleased(x)
    ensures at < |Placed(x, picks)| && Placed(x, picks)[at] == x[at]
    ensures AddedTo(Placed(x, picks)[at := s], more) == Placed(x[at := s], picks + more)
    ensures |Placed(x, picks)| == |Opened(Placed(x, picks)[at := s])|
  {
    hide FirstUnreleased, AddPicks, Placed;
    var y := x[at := s];
    PlacedUnfolds(x, picks);
    PlacedUnfolds(y, picks + more);
    AddPicksTitle(x[u], picks);
    AddPicksConcat(x[u], picks, more);
    if picks != [] {
      FirstUnreleasedStays(y, u, AddPicks(x[u], picks));
      assert Placed(x, picks)[at := s] == y[u := AddPicks(x[u], picks)];
    } else {
      NoPicks(x[u]);
      assert picks + more == more;
    }
  }

  lemma {:induction false} PlacedMoreInFront(x: seq<ReleaseSection>, picks: seq<Pick>, more: seq<Pick>, at: nat,
                                             s: ReleaseSection)
    requires at < |x| && more != [] && FirstUnreleased(x) == None && FirstUnreleased(x[at := s]) == None
    ensures var shift := Shift(x, picks);
      && at + shift < |Placed(x, picks)| && Placed(x, picks)[at + shift] == x[at]
      && AddedTo(Placed(x, picks)[at + shift := s], more) == Placed(x[at := s], picks + more)
      && |Placed(x, picks)| + (Shift(x, picks + more) - shift) == |Opened(Placed(x, picks)[at + shift := s])|
  {
    hide FirstUnreleased, AddPicks, Placed;
    var y := x[at := s];
    PlacedUnfolds(x, picks);
    PlacedUnfolds(y, picks + more);
    AddPicksTitle(NEW_UNRELEASED, picks);
    AddPicksConcat(NEW_UNRELEASED, picks, more);
    if picks != [] {
      var a := AddPicks(NEW_UNRELEASED, picks);
      assert Placed(x, picks)[at + 1 := s] == [a] + y;
      FirstAtFront(a, y);
    } else {
      assert picks + more == more;
      NoPicks(NEW_UNRELEASED);
    }
  }

  lemma {:induction false} FirstAtFront(a: ReleaseSection, rest: seq<ReleaseSection>)
    requires a.title == UNRELEASED
    ensures FirstUnreleased([a] + rest) == Some(0)
  {
  }

  lemma {:induction false} HalfwayParts(before: seq<ReleaseSection>, now: seq<ReleaseSection>, at: nat,
                                        starts: set<nat>, j: nat, promoted: nat, after: nat)
    ensures Halfway(before, now, at, starts, j, promoted, after)
      <==> (&& at < |before| && before[at].title != UNRELEASED && j <= |before[at].subsections|
            && var picks := AllPicks(before[at].subsections[..j], starts);
            && promoted == |picks|
            && now == Placed(before[at := PartlyKept(before[at], starts, j)], picks)
            && after == at + Shift(before[at := PartlyKept(before[at], starts, j)], picks))
  {
    if at < |before| && j <= |before[at].subsections| {
      FirstUnreleasedStays(before, at, PartlyKept(before[at], starts, j));
    }
    hide AllPicks, Placed, KeptUpTo, FirstUnreleased;
  }

  lemma {:induction false} NextPart(s: ReleaseSection, starts: set<nat>, j: nat)
    requires j < |s.subsections|
    ensures PartlyKept(s, starts, j).title == s.title && |PartlyKept(s, starts, j).subsections| == |s.subsections|
    ensures PartlyKept(s, starts, j + 1) == WithSubsection(PartlyKept(s, starts, j), j, Kept(s.subsections[j], starts))
    ensures PartlyKept(s, starts, j + 1).title == s.title
  {
    hide Kept, AllPicks, SubsectionPicks;
    PicksStep(s.subsections, starts, j);
  }

  lemma {:induction false} PickCount(sub: Subsection, starts: set<nat>)
    ensures |SubsectionPicks(sub, starts)| == |Chosen(Items(sub.lines), starts)|
  {
    hide Chosen, Items;
  }

  lemma {:induction false} ShiftSame(before: seq<ReleaseSection>, at: nat, a: ReleaseSection, b: ReleaseSection,
                                     picks: seq<Pick>)
    requires at < |before| && a.title == b.title == before[at].title
    ensures Shift(before[at := a], picks) == Shift(before[at := b], picks)
  {
    FirstUnreleasedStays(before, at, a);
    FirstUnreleasedStays(before, at, b);
    hide FirstUnreleased;
  }

  lemma {:induction false} HalfwayMoves(before: seq<ReleaseSection>, here: seq<ReleaseSection>, at: nat,
                                        starts: set<nat>, j: nat, promoted: nat, after: nat)
    requires Halfway(before, here, at, starts, j, promoted, after)
    requires at < |before| && j < |before[at].subsections|
    requires Chosen(Items(before[at].subsections[j].lines), starts) != []
    ensures after < |here| && j < |here[after].subsections|
    ensures var sub := before[at].subsections[j];
      var stripped := here[after := WithSubsection(here[after], j, Kept(sub, starts))];
      Halfway(before, AddedTo(stripped, SubsectionPicks(sub, starts)), at, starts, j + 1,
              promoted + |Chosen(Items(sub.lines), starts)|, after + |Opened(stripped)| - |stripped|)
  {
    hide *;
    var sub := before[at].subsections[j];
    PickCount(sub, starts);
    HalfwayParts(before, here, at, starts, j, promoted, after);
    var part, next := PartlyKept(before[at], starts, j), PartlyKept(before[at], starts, j + 1);
    var picks := AllPicks(before[at].subsections[..j], starts);
    var more := SubsectionPicks(sub, starts);
    NextPart(before[at], starts, j);
    PicksStep(before[at].subsections, starts, j);
    PlacedMore(before[at := part], picks, more, at, next);
    assert before[at := part][at := next] == before[at := next];
    ShiftSame(before, at, part, next, picks + more);
    var stripped := here[after := WithSubsection(here[after], j, Kept(sub, starts))];
    HalfwayParts(before, AddedTo(stripped, more), at, starts, j + 1, promoted + |more|,
                 after + |Opened(stripped)| - |stripped|);
  }

  lemma {:induction false} MoveUnfolds(sub: Subsection, starts: set<nat>, part: ReleaseSection, j: nat)
    requires Chosen(Items(sub.lines), starts) != [] && j < |part.subsections|
    ensures Kept(sub, starts) == sub.(lines := Outside(sub.lines, Chosen(Items(sub.lines), starts)))
    ensures SubsectionPicks(sub, starts) == PicksOf(sub.title, Chosen(Items(sub.lines), starts))
    ensures WithSubsection(part, j, Kept(sub, starts)) == part.(subsections := part.subsections[j := Kept(sub, starts)])
  {
    hide Items, Chosen, Outside, PicksOf;
  }

  lemma {:induction false} AddedUnfolds(sections: seq<ReleaseSection>, picks: seq<Pick>)
    ensures AddedTo(sections, picks)
         == Opened(sections)[OpenAt(sections) := AddPicks(Opened(sections)[OpenAt(sections)], picks)]
  {
    hide AddPicks, Opened, OpenAt;
  }

  lemma {:induction false} HalfwayDone(before: seq<ReleaseSection>, now: seq<ReleaseSection>, at: nat, starts: set<nat>,
                                       promoted: nat, after: nat)
    requires at < |before| && Halfway(before, now, at, starts, |before[at].subsections|, promoted, after)
    ensures var picks := SectionPicks(before[at], starts);
      && promoted == |picks|
      && now == Placed(before[at := KeptSection(before[at], starts)], picks)
      && after == at + Shift(before, picks)
  {
    hide AllPicks, Placed, KeptUpTo, Shift;
    SectionPicksUnfold(before[at], starts);
    var subs := before[at].subsections;
    assert subs[..|subs|] == subs;
  }

  // ------------------------------------------------------------ promoting part after part

  lemma {:induction false} PlacedStep(x: seq<ReleaseSection>, picks: seq<Pick>, more: seq<Pick>, at: nat,
                                      s: ReleaseSection)
    requires at < |x| && x[at].title == s.title != UNRELEASED
    ensures var shift := Shift(x, picks);
      && at + shift < |Placed(x, picks)| && Placed(x, picks)[at + shift] == x[at]
      && Placed(Placed(x, picks)[at + shift := s], more) == Placed(x[at := s], picks + more)
  {
    hide FirstUnreleased, AddPicks, Placed;
    PlacedSame(x, picks, at, s);
    var y := Placed(x, picks)[at + Shift(x, picks) := s];
    if more == [] {
      assert picks + more == picks;
      PlacedUnfolds(y, more);
    } else {
      PlacedMore(x, picks, more, at, s);
      PlacedUnfolds(y, more);
      hide Opened, OpenAt;
    }
  }

  lemma {:induction false} PlacedSame(x: seq<ReleaseSection>, picks: seq<Pick>, at: nat, s: ReleaseSection)
    requires at < |x| && x[at].title == s.title != UNRELEASED
    ensures at + Shift(x, picks) < |Placed(x, picks)| && Placed(x, picks)[at + Shift(x, picks)] == x[at]
    ensures Placed(x, picks)[at + Shift(x, picks) := s] == Placed(x[at := s], picks)
  {
    hide FirstUnreleased, AddPicks, Placed;
    PlacedUnfolds(x, picks);
    PlacedUnfolds(x[at := s], picks);
    FirstUnreleasedStays(x, at, s);
  }

  /** An unreleased part is passed over. */
  lemma {:induction false} KeptParts(before: seq<ReleaseSection>, starts: set<nat>, i: nat)
    requires i < |before|
    ensures var x := KeptSections(before, starts, i);
      && x[i] == before[i]
      && KeptSections(before, starts, i + 1) == x[i := KeptSection(before[i], starts)]
      && DocumentPicks(before[..i + 1], starts) == DocumentPicks(before[..i], starts) + SectionPicks(before[i], starts)
      && KeptSection(before[i], starts).title == before[i].title
      && (before[i].title == UNRELEASED ==>
            KeptSection(before[i], starts) == before[i] && SectionPicks(before[i], starts) == [])
  {
    hide SectionPicks, KeptSection;
    assert before[..i + 1][..i] == before[..i];
    KeptTitle(before[i], starts);
  }

  lemma {:induction false} KeptTitle(s: ReleaseSection, starts: set<nat>)
    ensures KeptSection(s, starts).title == s.title
    ensures s.title == UNRELEASED ==> KeptSection(s, starts) == s && SectionPicks(s, starts) == []
  {
    hide KeptUpTo, AllPicks;
  }

  /** A part whose items have been promoted has no more of them. */
  lemma {:induction false} NoPicksLeft(s: ReleaseSection, starts: set<nat>)
    requires IncreasingSection(s)
    ensures SectionPicks(KeptSection(s, starts), starts) == []
    ensures KeptSection(KeptSection(s, starts), starts) == KeptSection(s, starts)
  {
    hide Increasing, Items, Chosen, Outside, AllPicks;
    if s.title != UNRELEASED {
      var kept := KeptSection(s, starts);
      forall i | 0 <= i < |kept.subsections|
        ensures Chosen(Items(kept.subsections[i].lines), starts) == []
      {
        KeptLines(s.subsections[i], starts);
      }
      NonePicked(kept.subsections, starts, |kept.subsections|);
      assert kept.subsections[..|kept.subsections|] == kept.subsections;
      assert KeptUpTo(kept.subsections, starts, |kept.subsections|) == kept.subsections;
    }
  }

  lemma {:induction false} NonePicked(subs: seq<Subsection>, starts: set<nat>, i: nat)
    requires i <= |subs| && forall k :: 0 <= k < |subs| ==> Chosen(Items(subs[k].lines), starts) == []
    ensures AllPicks(subs[..i], starts) == []
    decreases i
  {
    hide Items, Chosen;
    if i > 0 {
      NonePicked(subs, starts, i - 1);
      assert subs[..i][..i - 1] == subs[..i - 1];
    }
  }

  /** The state with the first `done` parts promoted. */
  ghost predicate PartsDone(before: seq<ReleaseSection>, now: seq<ReleaseSection>, starts: set<nat>, done: nat,
                            promoted: nat) {
    && done <= |before|
    && now == Placed(KeptSections(before, starts, done), DocumentPicks(before[..done], starts))
    && promoted == |DocumentPicks(before[..done], starts)|
  }

  /** How far the parts have moved on. */
  function Moved(before: seq<ReleaseSection>, starts: set<nat>, done: nat): nat
    requires done <= |before|
  {
    Shift(KeptSections(before, starts, done), DocumentPicks(before[..done], starts))
  }

  lemma {:induction false} BeginParts(before: seq<ReleaseSection>, starts: set<nat>)
    ensures PartsDone(before, before, starts, 0, 0) && Moved(before, starts, 0) == 0
  {
    assert before[..0] == [];
    assert KeptSections(before, starts, 0) == before;
  }

  lemma {:induction false} PlacedLength(x: seq<ReleaseSection>, picks: seq<Pick>)
    ensures |Placed(x, picks)| == |x| + Shift(x, picks)
  {
    PlacedUnfolds(x, picks);
    hide Placed, AddPicks, FirstUnreleased;
  }

  lemma {:induction false} PartsLength(before: seq<ReleaseSection>, now: seq<ReleaseSection>, starts: set<nat>,
                                       done: nat, promoted: nat)
    requires PartsDone(before, now, starts, done, promoted)
    ensures |now| == |before| + Moved(before, starts, done)
  {
    hide Placed, KeptSection, DocumentPicks, Shift;
    PlacedLength(KeptSections(before, starts, done), DocumentPicks(before[..done], starts));
  }

  /** The next part stands where it is expected; promoting it goes one part further. */
  lemma {:induction false} NextPartHere(before: seq<ReleaseSection>, now: seq<ReleaseSection>, starts: set<nat>,
                                        done: nat, promoted: nat)
    requires PartsDone(before, now, starts, done, promoted) && done < |before|
    ensures var at := done + Moved(before, starts, done);
      && at < |now|
      && (before[done].title != UNRELEASED ==>
            && now[at] == before[done]
            && var picks := SectionPicks(before[done], starts);
               PartsDone(before, Placed(now[at := KeptSection(before[done], starts)], picks), starts, done + 1,
                         promoted + |picks|))
      && (before[done].title == UNRELEASED ==>
            && now[at].title == UNRELEASED && PartsDone(before, now, starts, done + 1, promoted)
            && Moved(before, starts, done + 1) == Moved(before, starts, done))
  {
    hide *;
    var x, picks := KeptSections(before, starts, done), DocumentPicks(before[..done], starts);
    PartsUnfold(before, now, starts, done, promoted);
    PartsLength(before, now, starts, done, promoted);
    KeptParts(before, starts, done);
    var s, more := KeptSection(before[done], starts), SectionPicks(before[done], starts);
    if before[done].title != UNRELEASED {
      PlacedStep(x, picks, more, done, s);
      PartsUnfold(before, Placed(now[done + Shift(x, picks) := s], more), starts, done + 1, promoted + |more|);
    } else {
      assert x[done := s] == x && picks + more == picks;
      PartsUnfold(before, now, starts, done + 1, promoted);
      PassedTitle(x, picks, done);
    }
  }

  lemma {:induction false} PartsUnfold(before: seq<ReleaseSection>, now: seq<ReleaseSection>, starts: set<nat>,
                                       done: nat, promoted: nat)
    requires done <= |before|
    ensures PartsDone(before, now, starts, done, promoted)
      <==> (&& now == Placed(KeptSections(before, starts, done), DocumentPicks(before[..done], starts))
            && promoted == |DocumentPicks(before[..done], starts)|)
    ensures Moved(before, starts, done)
         == Shift(KeptSections(before, starts, done), DocumentPicks(before[..done], starts))
  {
    hide Placed, DocumentPicks, KeptSections, Shift;
  }

  lemma {:induction false} PassedTitle(x: seq<ReleaseSection>, picks: seq<Pick>, at: nat)
    requires at < |x| && x[at].title == UNRELEASED
    ensures at + Shift(x, picks) < |Placed(x, picks)| && Placed(x, picks)[at + Shift(x, picks)].title == UNRELEASED
  {
    PlacedUnfolds(x, picks);
    if FirstUnreleased(x).Some? {
      AddPicksTitle(x[FirstUnreleased(x).value], picks);
    }
    hide Placed, AddPicks, FirstUnreleased;
  }

  /** When promoting a part made a new part at the front, the next place holds the same part again, with
      nothing left to promote. */
  lemma {:induction false} SamePartAgain(before: seq<ReleaseSection>, now: seq<ReleaseSection>, starts: set<nat>,
                                         done: nat, promoted: nat)
    requires PartsDone(before, now, starts, done, promoted) && 1 <= done <= |before| && Moved(before, starts, done) == 1
    requires before[done - 1].title != UNRELEASED && IncreasingSection(before[done - 1])
    ensures done < |now| && now[done].title != UNRELEASED
    ensures SectionPicks(now[done], starts) == [] && Placed(now[done := KeptSection(now[done], starts)], []) == now
  {
    hide *;
    PartsUnfold(before, now, starts, done, promoted);
    PartsLength(before, now, starts, done, promoted);
    KeptParts(before, starts, done - 1);
    var x, picks := KeptSections(before, starts, done), DocumentPicks(before[..done], starts);
    var s := KeptSection(before[done - 1], starts);
    assert x[done - 1] == s;
    PlacedStep(x, picks, [], done - 1, s);
    NoPicksLeft(before[done - 1], starts);
    assert now[done := s] == now;
    PlacedUnfolds(now, []);
  }

  lemma {:induction false} ShiftAtMostOne(before: seq<ReleaseSection>, starts: set<nat>)
    ensures forall i :: 0 <= i <= |before| ==> Moved(before, starts, i) <= 1
    ensures forall i :: 0 <= i < |before| ==> Moved(before, starts, i) <= Moved(before, starts, i + 1)
  {
    forall i | 0 <= i < |before|
      ensures Moved(before, starts, i) <= Moved(before, starts, i + 1)
    {
      KeptParts(before, starts, i);
      FirstUnreleasedStays(KeptSections(before, starts, i), i, KeptSection(before[i], starts));
      hide KeptSections, KeptSection, DocumentPicks, FirstUnreleased;
    }
    hide KeptSections, KeptSection, DocumentPicks, FirstUnreleased;
  }

  lemma {:induction false} AllPartsDone(before: seq<ReleaseSection>, now: seq<ReleaseSection>, starts: set<nat>,
                                        done: nat, promoted: nat)
    requires PartsDone(before, now, starts, done, promoted) && done == |before|
    ensures now == Promoted(before, starts) && promoted == |DocumentPicks(before, starts)|
  {
    hide Placed, DocumentPicks, KeptSections;
    assert before[..done] == before;
  }

  // ------------------------------------------------------------ the document being edited

  ghost predicate IncreasingSection(s: ReleaseSection) {
    forall i :: 0 <= i < |s.subsections| ==> Increasing(s.subsections[i].lines)
  }

  class DocumentEditor {
    var sections: seq<ReleaseSection>

    constructor (sections: seq<ReleaseSection>)
      ensures this.sections == sections
    {
      this.sections := sections;
    }

    /** The place of the unreleased part, made at the front if there was none. */
    method GetOrCreateUnreleasedSection() returns (u: nat)
      modifies this
      ensures u == OpenAt(old(sections)) && sections == Opened(old(sections))
    {
      var found := FirstUnreleased(sections);
      if found.Some? { return found.value; }
      sections := [NEW_UNRELEASED] + sections;
      u := 0;
    }

    /** The items of one subsection go below its title in the unreleased part. */
    method AddItems(u: nat, title: string, items: seq<Item>)
      requires u < |sections|
      modifies this
      ensures sections == old(sections)[u := AddPicks(old(sections)[u], PicksOf(title, items))]
    {
      ghost var before := sections;
      ghost var picks := PicksOf(title, items);
      hide *;
      PicksAre(title, items);
      NoPicks(before[u]);
      assert picks[..0] == [] && before[u := before[u]] == before;
      for i := 0 to |items|
        invariant |sections| == |before| && sections == before[u := AddPicks(before[u], picks[..i])]
      {
        AddPicksStep(before[u], picks, i);
        AddPickUnfolds(sections[u], picks[i]);
        var target := sections[u];
        var subs := target.subsections;
        var found := LastWithTitle(subs, title);
        var at := if found.Some? then found.value else |subs|;
        if found == None {
          subs := subs + [Subsection(title, [])];
        }
        var has := SubsectionHasItem(subs[at], items[i].lines);
        if !has {
          var appended := AppendSubsectionLines(subs[at], items[i].lines);
          subs := subs[at := appended];
        }
        sections := sections[u := target.(subsections := subs)];
      }
      assert picks[..|items|] == picks;
    }

    /** Promotes the items of one part, which is not the unreleased one. If that makes a new part at the
        front, this one moves on by one place. */
    method PromoteSection(at: nat, starts: set<nat>) returns (promoted: nat, after: nat)
      requires at < |sections| && sections[at].title != UNRELEASED
      modifies this
      ensures var picks := SectionPicks(old(sections)[at], starts);
        && promoted == |picks|
        && sections == Placed(old(sections)[at := KeptSection(old(sections)[at], starts)], picks)
        && after == at + Shift(old(sections), picks)
    {
      hide *;
      ghost var before := sections;
      var count := |sections[at].subsections|;
      promoted, after := 0, at;
      NothingPromoted(before, at, starts);
      for j := 0 to count
        invariant Halfway(before, sections, at, starts, j, promoted, after)
      {
        HalfwayHere(before, sections, at, starts, j, promoted, after);
        var subsection := sections[after].subsections[j];
        var all := ParseItems(subsection.lines);
        var items := Chosen(all, starts);
        if |items| == 0 {
          HalfwaySkips(before, sections, at, starts, j, promoted, after);
          continue;
        }
        HalfwayMoves(before, sections, at, starts, j, promoted, after);
        MoveUnfolds(subsection, starts, sections[after], j);
        var kept := subsection.(lines := Outside(subsection.lines, items));
        sections := sections[after := sections[after].(subsections := sections[after].subsections[j := kept])];
        var n := |sections|;
        AddedUnfolds(sections, PicksOf(subsection.title, items));
        var u := GetOrCreateUnreleasedSection();
        after := after + |sections| - n;
        AddItems(u, subsection.title, items);
        promoted := promoted + |items|;
      }
      HalfwayDone(before, sections, at, starts, promoted, after);
    }

    /** Promotes the items of every part but the unreleased one. A part made at the front in the middle of
        this moves the others on, so that one of them is met twice. */
    method PromoteAll(starts: set<nat>) returns (promoted: nat)
      requires forall k :: 0 <= k < |sections| ==> IncreasingSection(sections[k])
      modifies this
      ensures promoted == |DocumentPicks(old(sections), starts)|
      ensures sections == Promoted(old(sections), starts)
    {
      hide *;
      ghost var before := sections;
      ghost var done := 0;
      promoted := 0;
      BeginParts(before, starts);
      var i := 0;
      while i < |sections|
        invariant done <= |before| && PartsDone(before, sections, starts, done, promoted)
        invariant i == done + Moved(before, starts, done)
          || (1 <= done == i && Moved(before, starts, done) == 1 && before[done - 1].title != UNRELEASED)
        decreases |before| - done, done + Moved(before, starts, done) - i
      {
        PartsLength(before, sections, starts, done, promoted);
        ShiftAtMostOne(before, starts);
        if i == done + Moved(before, starts, done) {
          NextPartHere(before, sections, starts, done, promoted);
          done := done + 1;
        } else {
          SamePartAgain(before, sections, starts, done, promoted);
        }
        if sections[i].title == UNRELEASED {
          i := i + 1;
          continue;
        }
        var n, _ := PromoteSection(i, starts);
        promoted := promoted + n;
        i := i + 1;
      }
      PartsLength(before, sections, starts, done, promoted);
      AllPartsDone(before, sections, starts, done, promoted);
    }
  }
}
