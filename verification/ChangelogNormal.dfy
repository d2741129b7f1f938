/** Normalising one release: empty subsections go, subsections with the same title become one, and
    those of the unreleased part are put in their usual order. */
module ChangelogNormal {
  import opened Options
  import opened ChangelogText
  import opened Changelog
  import opened ChangelogItems
  import opened ChangelogRoundTrip

  datatype Counters = Counters(mergedDuplicateHeadings: nat, removedEmptyHeadings: nat)

  // ------------------------------------------------------------ merging

  /** The first subsection with a title. */
  function IndexOf(subs: seq<Subsection>, title: string): (r: Option<nat>)
    ensures r.Some? ==> r.value < |subs| && subs[r.value].title == title
    ensures r == None <==> forall i :: 0 <= i < |subs| ==> subs[i].title != title
  {
    if subs == [] then None
    else if subs[0].title == title then Some(0)
    else
      var r := IndexOf(subs[1..], title);
      if r.Some? then
        assert subs[1..][r.value] == subs[r.value + 1];
        Some(r.value + 1)
      else
        assert forall i :: 0 < i < |subs| ==> subs[i] == subs[1..][i - 1];
        None
  }

  function MergeInto(merged: seq<Subsection>, s: Subsection): seq<Subsection> {
    if Content(s) == [] then merged
    else
      match IndexOf(merged, s.title)
      case Some(i) => merged[i := Appended(merged[i], Content(s))]
      case None => merged + [Subsection(s.title, Synthetic(Content(s)))]
  }

  function MergedSubsections(subs: seq<Subsection>): seq<Subsection> {
    if subs == [] then [] else MergeInto(MergedSubsections(subs[..|subs| - 1]), subs[|subs| - 1])
  }

  function Count(subs: seq<Subsection>): Counters {
    if subs == [] then Counters(0, 0)
    else
      var before, s := Count(subs[..|subs| - 1]), subs[|subs| - 1];
      if Content(s) == [] then before.(removedEmptyHeadings := before.removedEmptyHeadings + 1)
      else if IndexOf(MergedSubsections(subs[..|subs| - 1]), s.title).Some?
      then before.(mergedDuplicateHeadings := before.mergedDuplicateHeadings + 1)
      else before
  }

  // ------------------------------------------------------------ ordering

  function TitleOrder(title: string): (k: nat)
    ensures k <= 5
  {
    if title == "Breaking Changes" then 0
    else if title == "Added" then 1
    else if title == "Changed" then 2
    else if title == "Fixed" then 3
    else if title == "Removed" then 4
    else 5
  }

  /** Puts one subsection before the first that is to come after it. */
  function Inserted(s: Subsection, sorted: seq<Subsection>): seq<Subsection> {
    if sorted == [] || TitleOrder(s.title) <= TitleOrder(sorted[0].title) then [s] + sorted
    else [sorted[0]] + Inserted(s, sorted[1..])
  }

  /** A stable sort by title order. */
  function Ordered(subs: seq<Subsection>): seq<Subsection> {
    if subs == [] then [] else Inserted(subs[0], Ordered(subs[1..]))
  }

  ghost predicate InOrder(subs: seq<Subsection>) {
    forall i, j :: 0 <= i < j < |subs| ==> TitleOrder(subs[i].title) <= TitleOrder(subs[j].title)
  }

  /** Those whose title has a given place, in the order in which they stand. */
  function WithOrder(subs: seq<Subsection>, k: nat): seq<Subsection> {
    if subs == [] then []
    else (if TitleOrder(subs[0].title) == k then [subs[0]] else []) + WithOrder(subs[1..], k)
  }

  lemma {:induction false} InsertedMembers(s: Subsection, sorted: seq<Subsection>)
    ensures multiset(Inserted(s, sorted)) == multiset{s} + multiset(sorted)
    ensures forall x :: x in Inserted(s, sorted) <==> x == s || x in sorted
  {
    hide TitleOrder;
    if sorted != [] {
      InsertedMembers(s, sorted[1..]);
      assert sorted == [sorted[0]] + sorted[1..];
    }
  }

  lemma {:induction false} InsertedInOrder(s: Subsection, sorted: seq<Subsection>)
    requires InOrder(sorted)
    ensures InOrder(Inserted(s, sorted))
  {
    hide TitleOrder;
    if sorted != [] && TitleOrder(s.title) > TitleOrder(sorted[0].title) {
      InsertedInOrder(s, sorted[1..]);
      InsertedMembers(s, sorted[1..]);
      FirstInOrder(sorted[0], Inserted(s, sorted[1..]));
    } else {
      FirstInOrder(s, sorted);
    }
  }

  lemma {:induction false} FirstInOrder(first: Subsection, rest: seq<Subsection>)
    requires InOrder(rest) && forall x :: x in rest ==> TitleOrder(first.title) <= TitleOrder(x.title)
    ensures InOrder([first] + rest)
  {
    hide TitleOrder;
    var all := [first] + rest;
    forall i, j | 0 <= i < j < |all|
      ensures TitleOrder(all[i].title) <= TitleOrder(all[j].title)
    {
      assert all[j] == rest[j - 1] && (i > 0 ==> all[i] == rest[i - 1]);
    }
  }

  lemma {:induction false} InsertedKeeps(s: Subsection, sorted: seq<Subsection>, k: nat)
    ensures WithOrder(Inserted(s, sorted), k) == WithOrder([s] + sorted, k)
  {
    hide TitleOrder;
    assert ([s] + sorted)[1..] == sorted;
    if sorted != [] && TitleOrder(s.title) > TitleOrder(sorted[0].title) {
      var first, rest := sorted[0], sorted[1..];
      InsertedKeeps(s, rest, k);
      assert ([first] + Inserted(s, rest))[1..] == Inserted(s, rest);
      assert ([s] + rest)[1..] == rest;
    }
  }

  /** Sorting puts the titles in order, keeps every subsection, and keeps those whose titles have the
      same place in the order in which they stood. */
  lemma {:induction false} OrderedIsStableSort(subs: seq<Subsection>, k: nat)
    ensures InOrder(Ordered(subs))
    ensures multiset(Ordered(subs)) == multiset(subs)
    ensures WithOrder(Ordered(subs), k) == WithOrder(subs, k)
  {
    hide TitleOrder;
    if subs != [] {
      OrderedIsStableSort(subs[1..], k);
      InsertedKeeps(subs[0], Ordered(subs[1..]), k);
      InsertedMembers(subs[0], Ordered(subs[1..]));
      InsertedInOrder(subs[0], Ordered(subs[1..]));
      assert subs == [subs[0]] + subs[1..];
      assert ([subs[0]] + Ordered(subs[1..]))[1..] == Ordered(subs[1..]);
    }
  }

  // ------------------------------------------------------------ one release

  const UNRELEASED := "Unreleased"

  function NormalSection(s: ReleaseSection): ReleaseSection {
    var merged := MergedSubsections(s.subsections);
    s.(leadingLines := Synthetic(Leading(s)),
       subsections := if s.title == UNRELEASED then Ordered(merged) else merged)
  }

  ghost predicate IndexedByTitle(index: map<string, nat>, subs: seq<Subsection>) {
    && (forall t :: t in index ==> IndexOf(subs, t) == Some(index[t]))
    && (forall t :: t !in index ==> IndexOf(subs, t) == None)
  }

  /** The map from titles to the normalised subsections holds, for each, its place in the list. */
  method NormalizeSection(section: ReleaseSection) returns (r: ReleaseSection, counters: Counters)
    ensures r == NormalSection(section) && counters == Count(section.subsections)
  {
    hide *;
    var subsectionByTitle: map<string, nat> := map[];
    var normalized: seq<Subsection> := [];
    counters := Counters(0, 0);
    var subs := section.subsections;
    NothingMerged();
    for i := 0 to |subs|
      invariant normalized == MergedSubsections(subs[..i]) && counters == Count(subs[..i])
      invariant IndexedByTitle(subsectionByTitle, normalized)
    {
      var subsection := subs[i];
      MergedStep(subs, i);
      var trimmed := TrimBlankLines(Texts(subsection.lines));
      assert trimmed == Content(subsection) by { ContentUnfolds(subsection); }
      if |trimmed| == 0 {
        counters := counters.(removedEmptyHeadings := counters.removedEmptyHeadings + 1);
        continue;
      }
      Lookup(subsectionByTitle, normalized, subsection.title);
      if subsection.title in subsectionByTitle {
        var at := subsectionByTitle[subsection.title];
        var appended := AppendSubsectionLines(normalized[at], trimmed);
        AppendedKeepsTitle(normalized[at], trimmed);
        IndexKept(subsectionByTitle, normalized, at, appended);
        normalized := normalized[at := appended];
        counters := counters.(mergedDuplicateHeadings := counters.mergedDuplicateHeadings + 1);
        continue;
      }
      IndexGrown(subsectionByTitle, normalized, Subsection(subsection.title, Synthetic(trimmed)));
      subsectionByTitle := subsectionByTitle[subsection.title := |normalized|];
      normalized := normalized + [Subsection(subsection.title, Synthetic(trimmed))];
    }
    assert subs[..|subs|] == subs;
    ghost var merged := normalized;
    if section.title == UNRELEASED {
      normalized := Ordered(normalized);
    }
    var leading := TrimBlankLines(Texts(section.leadingLines));
    r := section.(leadingLines := Synthetic(leading), subsections := normalized);
    NormalSectionUnfolds(section);
  }

  lemma {:induction false} NormalSectionUnfolds(s: ReleaseSection)
    ensures var merged := MergedSubsections(s.subsections);
      NormalSection(s) == s.(leadingLines := Synthetic(TrimBlank(Texts(s.leadingLines))),
                             subsections := if s.title == UNRELEASED then Ordered(merged) else merged)
  {
    hide TrimBlank, Texts, Synthetic, Ordered, MergedSubsections;
  }

  lemma {:induction false} ContentUnfolds(s: Subsection)
    ensures Content(s) == TrimBlank(Texts(s.lines))
  {
    hide TrimBlank, Texts;
  }

  lemma {:induction false} NothingMerged()
    ensures MergedSubsections([]) == [] && Count([]) == Counters(0, 0) && IndexedByTitle(map[], [])
  {
  }

  /** One more subsection: dropped, put below its namesake, or added. */
  lemma {:induction false} MergedStep(subs: seq<Subsection>, i: nat)
    requires i < |subs|
    ensures var m, c, s := MergedSubsections(subs[..i]), Count(subs[..i]), subs[i];
      var n, d := MergedSubsections(subs[..i + 1]), Count(subs[..i + 1]);
      if Content(s) == [] then n == m && d == c.(removedEmptyHeadings := c.removedEmptyHeadings + 1)
      else
        match IndexOf(m, s.title)
        case Some(k) =>
          n == m[k := Appended(m[k], Content(s))] && d == c.(mergedDuplicateHeadings := c.mergedDuplicateHeadings + 1)
        case None => n == m + [Subsection(s.title, Synthetic(Content(s)))] && d == c
  {
    hide IndexOf, Appended, Content, Synthetic;
    assert subs[..i + 1][..i] == subs[..i];
  }

  lemma {:induction false} Lookup(index: map<string, nat>, subs: seq<Subsection>, title: string)
    requires IndexedByTitle(index, subs)
    ensures IndexOf(subs, title) == if title in index then Some(index[title]) else None
  {
    hide IndexOf;
  }

  lemma {:induction false} IndexKept(index: map<string, nat>, subs: seq<Subsection>, at: nat, s: Subsection)
    requires IndexedByTitle(index, subs) && at < |subs| && s.title == subs[at].title
    ensures IndexedByTitle(index, subs[at := s])
  {
    hide IndexOf;
    forall t
      ensures IndexOf(subs[at := s], t) == IndexOf(subs, t)
    {
      IndexUpdated(subs, at, s, t);
    }
  }

  lemma {:induction false} IndexGrown(index: map<string, nat>, subs: seq<Subsection>, s: Subsection)
    requires IndexedByTitle(index, subs) && s.title !in index
    ensures IndexedByTitle(index[s.title := |subs|], subs + [s])
  {
    hide IndexOf;
    forall t
      ensures IndexOf(subs + [s], t)
        == (if IndexOf(subs, t).Some? then IndexOf(subs, t) else if t == s.title then Some(|subs|) else None)
    {
      IndexPushed(subs, s, t);
    }
  }

  lemma {:induction false} AppendedKeepsTitle(target: Subsection, source: seq<string>)
    ensures Appended(target, source).title == target.title
  {
    hide TrimBlank;
  }

  lemma {:induction false} IndexUpdated(subs: seq<Subsection>, at: nat, s: Subsection, t: string)
    requires at < |subs| && s.title == subs[at].title
    ensures IndexOf(subs[at := s], t) == IndexOf(subs, t)
    decreases |subs|
  {
    if subs[0].title != t {
      if at == 0 {
        assert subs[at := s][1..] == subs[1..];
      } else {
        assert subs[at := s][1..] == subs[1..][at - 1 := s];
        IndexUpdated(subs[1..], at - 1, s, t);
      }
    }
  }

  lemma {:induction false} IndexPushed(subs: seq<Subsection>, s: Subsection, t: string)
    ensures IndexOf(subs + [s], t)
        == if IndexOf(subs, t).Some? then IndexOf(subs, t) else if t == s.title then Some(|subs|) else None
  {
    if subs == [] {
      assert [s][1..] == [];
    } else {
      assert (subs + [s])[1..] == subs[1..] + [s];
      if subs[0].title != t {
        IndexPushed(subs[1..], s, t);
      }
    }
  }

  // ------------------------------------------------------------ what normalising achieves

  ghost predicate Distinct(subs: seq<Subsection>) {
    forall i, j :: 0 <= i < j < |subs| ==> subs[i].title != subs[j].title
  }

  ghost predicate AllGood(subs: seq<Subsection>) {
    forall i :: 0 <= i < |subs| ==> GoodSubsection(subs[i])
  }

  /** No subsection is blank, no two have the same title, and all can be written. */
  ghost predicate Normal(subs: seq<Subsection>) {
    NoneBlank(subs) && Distinct(subs) && AllGood(subs)
  }

  /** The lines of all subsections with a title, put below one another in order. */
  function ContentFor(subs: seq<Subsection>, title: string): seq<string> {
    if subs == [] then []
    else
      var before, s := ContentFor(subs[..|subs| - 1], title), subs[|subs| - 1];
      if s.title == title then AppendedTexts(before, Content(s)) else before
  }

  lemma {:induction false} SyntheticContent(title: string, texts: seq<string>)
    requires TrimBlank(texts) == texts
    ensures Content(Subsection(title, Synthetic(texts))) == texts
  {
    SyntheticTexts(texts);
    hide TrimBlank, Texts, Synthetic;
  }

  lemma {:induction false} ContentTrimmed(s: Subsection)
    ensures TrimBlank(Content(s)) == Content(s)
  {
    TrimTwice(Texts(s.lines));
    hide TrimBlank, Texts;
  }

  lemma {:induction false} GoodAppended(target: Subsection, s: Subsection)
    requires GoodSubsection(target) && GoodSubsection(s) && Content(s) != []
    ensures GoodSubsection(Appended(target, Content(s)))
    ensures Content(Appended(target, Content(s))) == AppendedTexts(Content(target), Content(s)) != []
  {
    ContentTrimmed(s);
    AppendedContent(target, Content(s));
    AppendedLines(target, s);
    hide TrimBlank, Texts, Synthetic, IsListItem, BodyLines;
  }

  lemma {:induction false} AppendedLines(target: Subsection, s: Subsection)
    requires BodyLines(target.lines) && BodyLines(s.lines)
    ensures BodyLines(Appended(target, Content(s)).lines) && Appended(target, Content(s)).title == target.title
  {
    ContentLinesGood(s.lines);
    ContentUnfolds(s);
    hide TrimBlank, BodyLines, Texts, Appended, BodyLine;
    AppendedKeepsTitle(target, Content(s));
    AppendedBodyLines(target, Content(s));
  }

  lemma {:induction false} AppendedBodyLines(target: Subsection, source: seq<string>)
    requires BodyLines(target.lines) && forall l :: l in source ==> BodyLine(l)
    ensures BodyLines(Appended(target, source).lines)
  {
    ContentLinesGood(target.lines);
    EmptyLine();
    TrimBlankShape(source);
    hide TrimBlank, BodyLine, IsListItem, Texts, Blank;
    var texts := AppendedTexts(TrimBlank(Texts(target.lines)), TrimBlank(source));
    assert forall l :: l in texts ==> BodyLine(l);
    SyntheticGood(texts);
  }

  lemma {:induction false} SyntheticGood(texts: seq<string>)
    requires forall l :: l in texts ==> BodyLine(l)
    ensures BodyLines(Synthetic(texts))
  {
    hide BodyLine;
    assert forall i :: 0 <= i < |texts| ==> texts[i] in texts;
  }

  /** A list of subsections and what merging makes of it: no blank ones, no title twice, each title that
      has any lines, and below it all the lines that stood below it anywhere. */
  ghost predicate Merges(subs: seq<Subsection>, merged: seq<Subsection>) {
    && NoneBlank(merged) && Distinct(merged)
    && (forall t :: IndexOf(merged, t).Some? <==> ContentFor(subs, t) != [])
    && forall i :: 0 <= i < |merged| ==> Content(merged[i]) == ContentFor(subs, merged[i].title)
  }

  lemma {:induction false} ContentForStep(subs: seq<Subsection>, i: nat, t: string)
    requires i < |subs|
    ensures ContentFor(subs[..i + 1], t)
         == if subs[i].title == t then AppendedTexts(ContentFor(subs[..i], t), Content(subs[i]))
            else ContentFor(subs[..i], t)
  {
    hide AppendedTexts, Content;
    assert subs[..i + 1][..i] == subs[..i];
  }

  lemma {:induction false} AppendedTextsFacts(a: seq<string>, b: seq<string>)
    ensures AppendedTexts(a, []) == a && AppendedTexts([], b) == b
    ensures AppendedTexts(a, b) == [] <==> a == [] && b == []
  {
    hide IsListItem;
  }

  lemma {:induction false} AppendedContentIs(target: Subsection, s: Subsection)
    ensures Content(Appended(target, Content(s))) == AppendedTexts(Content(target), Content(s))
  {
    hide TrimBlank, Texts, AppendedTexts, Appended;
    ContentTrimmed(s);
    AppendedContent(target, Content(s));
  }

  lemma {:induction false} MergedMeaning(subs: seq<Subsection>, i: nat)
    requires i <= |subs|
    ensures Merges(subs[..i], MergedSubsections(subs[..i]))
    ensures AllGood(subs) ==> AllGood(MergedSubsections(subs[..i]))
    decreases i
  {
    hide *;
    if i == 0 {
      MergesNothing();
    } else {
      MergedMeaning(subs, i - 1);
      MergedStep(subs, i - 1);
      var front, s := MergedSubsections(subs[..i - 1]), subs[i - 1];
      GoodMember(subs, i - 1);
      if Content(s) == [] {
        MergesBlank(subs, i - 1, front);
      } else if IndexOf(front, s.title).Some? {
        MergesNamesake(subs, i - 1, front);
      } else {
        MergesNew(subs, i - 1, front);
      }
    }
  }

  lemma {:induction false} MergesNothing()
    ensures Merges([], MergedSubsections([])) && AllGood(MergedSubsections([]))
  {
  }

  lemma {:induction false} GoodMember(subs: seq<Subsection>, i: nat)
    requires i < |subs|
    ensures AllGood(subs) ==> GoodSubsection(subs[i])
  {
    hide GoodSubsection;
  }

  lemma {:induction false} MergesBlank(subs: seq<Subsection>, i: nat, front: seq<Subsection>)
    requires i < |subs| && Merges(subs[..i], front) && Content(subs[i]) == []
    ensures Merges(subs[..i + 1], front)
  {
    hide Content, IndexOf, AppendedTexts, ContentFor;
    forall t
      ensures ContentFor(subs[..i + 1], t) == ContentFor(subs[..i], t)
    {
      ContentForStep(subs, i, t);
      AppendedTextsFacts(ContentFor(subs[..i], t), []);
    }
  }

  lemma {:induction false} MergesNamesake(subs: seq<Subsection>, i: nat, front: seq<Subsection>)
    requires i < |subs| && Merges(subs[..i], front) && Content(subs[i]) != []
    requires IndexOf(front, subs[i].title).Some?
    ensures var k := IndexOf(front, subs[i].title).value;
      && Merges(subs[..i + 1], front[k := Appended(front[k], Content(subs[i]))])
      && (AllGood(front) && GoodSubsection(subs[i]) ==> AllGood(front[k := Appended(front[k], Content(subs[i]))]))
  {
    hide Content, IndexOf, AppendedTexts, ContentFor, Appended, GoodSubsection;
    var s := subs[i];
    var k := IndexOf(front, s.title).value;
    var appended := Appended(front[k], Content(s));
    var updated := front[k := appended];
    AppendedKeepsTitle(front[k], Content(s));
    AppendedContentIs(front[k], s);
    AppendedTextsFacts(Content(front[k]), Content(s));
    forall t
      ensures ContentFor(subs[..i + 1], t)
           == if t == s.title then AppendedTexts(ContentFor(subs[..i], t), Content(s)) else ContentFor(subs[..i], t)
      ensures IndexOf(updated, t) == IndexOf(front, t)
    {
      ContentForStep(subs, i, t);
      IndexUpdated(front, k, appended, t);
    }
    forall j | 0 <= j < |updated|
      ensures Content(updated[j]) == ContentFor(subs[..i + 1], updated[j].title)
    {
      if j != k {
        assert front[j].title != front[k].title;
      }
    }
    assert Content(front[k]) == ContentFor(subs[..i], s.title);
    if GoodSubsection(front[k]) && GoodSubsection(s) {
      GoodAppended(front[k], s);
    }
  }

  lemma {:induction false} MergesNew(subs: seq<Subsection>, i: nat, front: seq<Subsection>)
    requires i < |subs| && Merges(subs[..i], front) && Content(subs[i]) != []
    requires IndexOf(front, subs[i].title) == None
    ensures var s := Subsection(subs[i].title, Synthetic(Content(subs[i])));
      && Merges(subs[..i + 1], front + [s])
      && (AllGood(front) && GoodSubsection(subs[i]) ==> AllGood(front + [s]))
  {
    hide Content, IndexOf, AppendedTexts, ContentFor, Synthetic, GoodSubsection, NoneBlank, Distinct, AllGood, HasTitle;
    var s := subs[i];
    var added := Subsection(s.title, Synthetic(Content(s)));
    var grown := front + [added];
    AddedIsGood(s);
    IndexIffTitle(front, s.title);
    PushFacts(front, added);
    GoodPush(front, added);
    AppendedTextsFacts([], Content(s));
    assert ContentFor(subs[..i], s.title) == [];
    forall t
      ensures ContentFor(subs[..i + 1], t) == if t == s.title then Content(s) else ContentFor(subs[..i], t)
      ensures IndexOf(grown, t).Some? <==> IndexOf(front, t).Some? || t == s.title
    {
      ContentForStep(subs, i, t);
      IndexPushed(front, added, t);
    }
    forall j | 0 <= j < |grown|
      ensures Content(grown[j]) == ContentFor(subs[..i + 1], grown[j].title)
    {
      if j < |front| {
        assert grown[j] == front[j];
        IndexIffAt(front, j);
      }
    }
  }

  lemma {:induction false} IndexIffAt(subs: seq<Subsection>, j: nat)
    requires j < |subs|
    ensures IndexOf(subs, subs[j].title).Some?
  {
  }

  lemma {:induction false} GoodPush(subs: seq<Subsection>, s: Subsection)
    ensures AllGood(subs) && GoodSubsection(s) ==> AllGood(subs + [s])
  {
    hide GoodSubsection;
  }

  lemma {:induction false} AddedIsGood(s: Subsection)
    ensures Content(Subsection(s.title, Synthetic(Content(s)))) == Content(s)
    ensures GoodSubsection(s) ==> GoodSubsection(Subsection(s.title, Synthetic(Content(s))))
  {
    ContentTrimmed(s);
    SyntheticContent(s.title, Content(s));
    if GoodSubsection(s) {
      ContentLinesGood(s.lines);
      SyntheticGood(Content(s));
    }
    hide Content, Synthetic, BodyLines, ProperTitle;
  }

  // ------------------------------------------------------------ when there is nothing to do

  lemma {:induction false} IndexIffTitle(subs: seq<Subsection>, t: string)
    ensures IndexOf(subs, t).Some? <==> HasTitle(subs, t)
  {
  }

  /** The counters are zero exactly when no subsection is blank and no title occurs twice; merging then
      changes no title and no content. */
  lemma {:induction false} NothingToDo(subs: seq<Subsection>, i: nat)
    requires i <= |subs|
    ensures Count(subs[..i]) == Counters(0, 0) <==> NoneBlank(subs[..i]) && Distinct(subs[..i])
    ensures Count(subs[..i]) == Counters(0, 0) ==> SameSubsections(MergedSubsections(subs[..i]), subs[..i])
    decreases i
  {
    hide *;
    if i == 0 {
      NothingAtAll();
    } else {
      NothingToDo(subs, i - 1);
      MergedStep(subs, i - 1);
      OneMoreToDo(subs, i - 1);
    }
  }

  lemma {:induction false} NothingAtAll()
    ensures Count([]) == Counters(0, 0) && NoneBlank([]) && Distinct([])
    ensures SameSubsections(MergedSubsections([]), [])
  {
  }

  lemma {:induction false} OneMoreToDo(subs: seq<Subsection>, i: nat)
    requires i < |subs|
    requires Count(subs[..i]) == Counters(0, 0) <==> NoneBlank(subs[..i]) && Distinct(subs[..i])
    requires Count(subs[..i]) == Counters(0, 0) ==> SameSubsections(MergedSubsections(subs[..i]), subs[..i])
    ensures Count(subs[..i + 1]) == Counters(0, 0) <==> NoneBlank(subs[..i + 1]) && Distinct(subs[..i + 1])
    ensures Count(subs[..i + 1]) == Counters(0, 0) ==> SameSubsections(MergedSubsections(subs[..i + 1]), subs[..i + 1])
  {
    hide *;
    var s, front := subs[i], MergedSubsections(subs[..i]);
    MergedStep(subs, i);
    AddedIsGood(s);
    IndexIffTitle(front, s.title);
    assert subs[..i + 1] == subs[..i] + [s];
    PushFacts(subs[..i], s);
    if Count(subs[..i]) == Counters(0, 0) {
      SamePush(front, subs[..i], s);
    }
  }

  ghost predicate HasTitle(subs: seq<Subsection>, t: string) {
    exists i :: 0 <= i < |subs| && subs[i].title == t
  }

  lemma {:induction false} PushFacts(subs: seq<Subsection>, s: Subsection)
    ensures NoneBlank(subs + [s]) <==> NoneBlank(subs) && Content(s) != []
    ensures Distinct(subs + [s]) <==> Distinct(subs) && !HasTitle(subs, s.title)
  {
    hide Content;
    var all := subs + [s];
    assert forall i :: 0 <= i < |subs| ==> all[i] == subs[i];
    assert all[|subs|] == s;
  }

  lemma {:induction false} SamePush(a: seq<Subsection>, b: seq<Subsection>, s: Subsection)
    requires SameSubsections(a, b)
    ensures HasTitle(a, s.title) <==> HasTitle(b, s.title)
    ensures SameSubsections(a + [Subsection(s.title, Synthetic(Content(s)))], b + [s])
  {
    AddedIsGood(s);
    hide Content, Synthetic, GoodSubsection;
  }

  // ------------------------------------------------------------ ordering keeps the normal form

  lemma {:induction false} InsertedNormal(s: Subsection, sorted: seq<Subsection>)
    requires Normal(sorted) && Content(s) != [] && GoodSubsection(s)
    requires forall x :: x in sorted ==> x.title != s.title
    ensures Normal(Inserted(s, sorted))
  {
    hide TitleOrder, Content, GoodSubsection;
    if sorted == [] || TitleOrder(s.title) <= TitleOrder(sorted[0].title) {
      FirstNormal(s, sorted);
    } else {
      var first, rest := sorted[0], sorted[1..];
      assert forall i :: 0 <= i < |rest| ==> rest[i] == sorted[i + 1];
      InsertedNormal(s, rest);
      InsertedMembers(s, rest);
      FirstNormal(first, Inserted(s, rest));
    }
  }

  lemma {:induction false} FirstNormal(first: Subsection, rest: seq<Subsection>)
    requires Normal(rest) && Content(first) != [] && GoodSubsection(first)
    requires forall x :: x in rest ==> x.title != first.title
    ensures Normal([first] + rest)
  {
    hide Content, GoodSubsection;
    var all := [first] + rest;
    assert forall i :: 0 < i < |all| ==> all[i] == rest[i - 1];
  }

  lemma {:induction false} OrderedNormal(subs: seq<Subsection>)
    requires Normal(subs)
    ensures Normal(Ordered(subs))
  {
    hide Content, GoodSubsection, Inserted;
    if subs != [] {
      var rest := subs[1..];
      assert forall i :: 0 <= i < |rest| ==> rest[i] == subs[i + 1];
      OrderedNormal(rest);
      OrderedIsStableSort(rest, 0);
      assert forall x :: x in Ordered(rest) ==> x in multiset(Ordered(rest));
      assert forall x :: x in multiset(rest) ==> x in rest;
      InsertedNormal(subs[0], Ordered(rest));
    }
  }

  /** A normalised release has no blank subsection and no title twice, and can be written; its heading
      is the same. */
  lemma {:induction false} NormalSectionGood(s: ReleaseSection)
    requires GoodSection(s)
    ensures GoodSection(NormalSection(s)) && Normal(NormalSection(s).subsections)
  {
    assert AllGood(s.subsections) && s.subsections[..|s.subsections|] == s.subsections;
    MergedMeaning(s.subsections, |s.subsections|);
    var merged := MergedSubsections(s.subsections);
    assert Normal(merged);
    OrderedNormal(merged);
    ContentLinesGood(s.leadingLines);
    SyntheticGood(Leading(s));
    hide MergedSubsections, Ordered, GoodSubsection, IsReleaseHeading, Plain, BodyLines, ReleaseTitle, Content;
  }
}
