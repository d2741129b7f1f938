/** What a fix keeps of a changelog's list items, read back from the text it writes: a promoted item stands
    whole below its title in the unreleased part, and every other one still begins an item below its title
    in its own release. (Merging can put the text that opens a second part of the same name below the last
    item of the first.) */
module ChangelogSurvival {
  import opened ChangelogText
  import opened Changelog
  import opened ChangelogItems
  import opened ChangelogRoundTrip
  import opened ChangelogNormal
  import opened ChangelogPromote
  import opened ChangelogTextItems
  import opened ChangelogFix

  // ------------------------------------------------------------ items of longer texts

  lemma {:induction false} TrimEndGrows(a: seq<string>, c: seq<string>)
    ensures TrimBlankEnd(a) <= TrimBlankEnd(a + c)
    decreases |c|
  {
    hide Blank;
    if c == [] {
      assert a + c == a;
    } else {
      var front, last := c[..|c| - 1], c[|c| - 1];
      assert (a + c)[..|a + c| - 1] == a + front && (a + c)[|a + c| - 1] == last;
      if Blank(last) {
        TrimEndGrows(a, front);
      } else {
        TrimBlankEndShape(a);
        assert a <= a + c;
      }
    }
  }

  lemma {:induction false} TrimGrows(a: seq<string>, c: seq<string>)
    requires a != [] && !Blank(a[0])
    ensures TrimBlank(a) <= TrimBlank(a + c)
  {
    TrimEndGrows(a, c);
    hide Blank, TrimBlankEnd;
    assert (a + c)[0] == a[0];
  }

  lemma {:induction false} NextStartGrows(a: seq<string>, c: seq<string>, i: nat)
    requires i <= |a|
    ensures if NextStart(a, i) < |a| then NextStart(a + c, i) == NextStart(a, i) else NextStart(a + c, i) >= |a|
    decreases |a| - i
  {
    hide IsListItem;
    if i < |a| && !IsListItem(a[i]) {
      NextStartGrows(a, c, i + 1);
    }
  }

  /** Each item of the one text begins the item at its place in the other. */
  ghost predicate Begins(a: seq<seq<string>>, b: seq<seq<string>>) {
    |a| <= |b| && forall i :: 0 <= i < |a| ==> a[i] <= b[i]
  }

  lemma {:induction false} BeginsCons(x: seq<string>, y: seq<string>, a: seq<seq<string>>, b: seq<seq<string>>)
    requires x <= y && Begins(a, b)
    ensures Begins([x] + a, [y] + b)
  {
  }

  lemma {:induction false} BeginsNone(b: seq<seq<string>>)
    ensures Begins([], b)
  {
  }

  /** Text put below some lines can only make their last item longer. */
  lemma {:induction false} ItemsGrow(a: seq<string>, c: seq<string>)
    ensures Begins(TextItems(a), TextItems(a + c))
    decreases |a|
  {
    hide *;
    TextItemsUnfold(a);
    TextItemsUnfold(a + c);
    BeginsNone(TextItems(a + c));
    if a != [] && !IsListItem(a[0]) {
      assert (a + c)[1..] == a[1..] + c;
      ItemsGrow(a[1..], c);
    } else if a != [] {
      var k, m := NextStart(a, 1), NextStart(a + c, 1);
      NextStartGrows(a, c, 1);
      if k < |a| {
        assert (a + c)[..k] == a[..k] && (a + c)[k..] == a[k..] + c;
        ItemsGrow(a[k..], c);
        BeginsCons(TrimBlank(a[..k]), TrimBlank((a + c)[..m]), TextItems(a[k..]), TextItems((a + c)[m..]));
      } else {
        assert a[..k] == a && a[k..] == [];
        OneItemGrows(a, c, m);
      }
    }
  }

  /** The last item, and what of the text below it belongs to it. */
  lemma {:induction false} OneItemGrows(a: seq<string>, c: seq<string>, m: nat)
    requires a != [] && IsListItem(a[0]) && |a| <= m <= |a| + |c|
    ensures Begins([TrimBlank(a)] + TextItems([]), [TrimBlank((a + c)[..m])] + TextItems((a + c)[m..]))
  {
    hide *;
    assert (a + c)[..m] == a + c[..m - |a|];
    ListItemNotBlank(a[0]);
    TrimGrows(a, c[..m - |a|]);
    TextItemsUnfold([]);
    BeginsNone(TextItems((a + c)[m..]));
    BeginsCons(TrimBlank(a), TrimBlank((a + c)[..m]), [], TextItems((a + c)[m..]));
  }

  lemma {:induction false} FromFirstItem(c: seq<string>)
    ensures TextItems(c[NextStart(c, 0)..]) == TextItems(c) && StartsItem(c[NextStart(c, 0)..])
    decreases |c|
  {
    hide TextItems, TrimBlank, IsListItem;
    TextItemsUnfold(c);
    if c != [] && !IsListItem(c[0]) {
      NextStartDrops(c, 1);
      FromFirstItem(c[1..]);
      assert c[1..][NextStart(c[1..], 0)..] == c[NextStart(c, 0)..];
    } else {
      assert c[0..] == c;
    }
  }

  lemma {:induction false} NextStartDrops(c: seq<string>, i: nat)
    requires 1 <= i <= |c|
    ensures NextStart(c, i) == NextStart(c[1..], i - 1) + 1
    decreases |c| - i
  {
    hide IsListItem;
    if i < |c| {
      assert c[1..][i - 1] == c[i];
      NextStartDrops(c, i + 1);
    }
  }

  /** The items of text put below some lines are the last items there. */
  lemma {:induction false} ItemsEnd(a: seq<string>, c: seq<string>)
    ensures |TextItems(c)| <= |TextItems(a + c)|
    ensures TextItems(a + c)[|TextItems(a + c)| - |TextItems(c)|..] == TextItems(c)
  {
    hide *;
    var n := NextStart(c, 0);
    FromFirstItem(c);
    TextItemsConcat(a + c[..n], c[n..]);
    assert a + c[..n] + c[n..] == a + c;
  }

  /** The first lines of some item of a text are, as written, the given ones. */
  ghost predicate Holds(texts: seq<string>, item: seq<string>) {
    exists i, n ::
      0 <= i < |TextItems(texts)| && 0 <= n <= |TextItems(texts)[i]| && Join(TextItems(texts)[i][..n]) == Join(item)
  }

  lemma {:induction false} HeldAt(texts: seq<string>, item: seq<string>, i: nat)
    requires i < |TextItems(texts)| && Join(TextItems(texts)[i]) == Join(item)
    ensures Holds(texts, item)
  {
    hide TextItems, Join;
    var r := TextItems(texts)[i];
    assert r[..|r|] == r;
  }

  lemma {:induction false} HoldsMore(a: seq<string>, b: seq<string>, item: seq<string>)
    requires Begins(TextItems(a), TextItems(b)) && Holds(a, item)
    ensures Holds(b, item)
  {
    hide TextItems, Join;
    var i, n :| 0 <= i < |TextItems(a)| && 0 <= n <= |TextItems(a)[i]| && Join(TextItems(a)[i][..n]) == Join(item);
    assert TextItems(a)[i] <= TextItems(b)[i];
    assert TextItems(b)[i][..n] == TextItems(a)[i][..n];
  }

  lemma {:induction false} HoldsLater(a: seq<string>, c: seq<string>, item: seq<string>)
    requires Holds(c, item)
    ensures Holds(a + c, item)
  {
    ItemsEnd(a, c);
    hide TextItems, Join;
    var i, n :| 0 <= i < |TextItems(c)| && 0 <= n <= |TextItems(c)[i]| && Join(TextItems(c)[i][..n]) == Join(item);
    var m := |TextItems(a + c)| - |TextItems(c)|;
    assert TextItems(a + c)[m..][i] == TextItems(a + c)[m + i];
  }

  lemma {:induction false} HoldsEarlier(a: seq<string>, c: seq<string>, item: seq<string>)
    requires Holds(a, item)
    ensures Holds(a + c, item)
  {
    ItemsGrow(a, c);
    HoldsMore(a, a + c, item);
  }

  lemma {:induction false} HoldsAppended(a: seq<string>, b: seq<string>, item: seq<string>)
    requires Holds(a, item) || Holds(b, item)
    ensures Holds(AppendedTexts(a, b), item)
  {
    HoldsNothing(item);
    if a != [] && b != [] {
      var gap: seq<string> := if IsListItem(a[|a| - 1]) && IsListItem(b[0]) then [] else [""];
      assert AppendedTexts(a, b) == a + gap + b;
      hide *;
      if Holds(b, item) {
        HoldsLater(a + gap, b, item);
      } else {
        HoldsEarlier(a, gap, item);
        HoldsEarlier(a + gap, b, item);
      }
    } else {
      hide Holds;
      AppendedTextsFacts(a, b);
      AppendedTextsFacts(b, a);
    }
  }

  lemma {:induction false} HoldsNothing(item: seq<string>)
    ensures !Holds([], item)
  {
  }

  lemma {:induction false} HoldsTrimmed(a: seq<string>, item: seq<string>)
    ensures Holds(TrimBlank(a), item) <==> Holds(a, item)
  {
    TrimItems(a);
    hide TextItems, TrimBlank, Join;
  }

  // ------------------------------------------------------------ parts that hold an item

  /** Some subsection with the title holds the item. */
  ghost predicate HoldsPick(u: ReleaseSection, p: Pick) {
    exists i ::
      0 <= i < |u.subsections| && u.subsections[i].title == p.title && Holds(Texts(u.subsections[i].lines), p.lines)
  }

  /** The last subsection with the title has the item, whole. */
  ghost predicate EndsWithPick(u: ReleaseSection, p: Pick) {
    var l := LastWithTitle(u.subsections, p.title);
    l.Some? && Contains(u.subsections[l.value], p.lines)
  }

  lemma {:induction false} LastIsLast(subs: seq<Subsection>, title: string)
    ensures var l := LastWithTitle(subs, title);
      (forall i :: (if l.Some? then l.value + 1 else 0) <= i < |subs| ==> subs[i].title != title)
    decreases |subs|
  {
    if subs != [] && subs[|subs| - 1].title != title {
      LastIsLast(subs[..|subs| - 1], title);
      assert forall i :: 0 <= i < |subs| - 1 ==> subs[..|subs| - 1][i] == subs[i];
    }
  }

  lemma {:induction false} LastIs(subs: seq<Subsection>, title: string, l: nat)
    requires l < |subs| && subs[l].title == title
    requires forall i :: l < i < |subs| ==> subs[i].title != title
    ensures LastWithTitle(subs, title).Some? && LastWithTitle(subs, title).value == l
  {
    LastIsLast(subs, title);
  }

  /** What one pick does to the subsections. */
  lemma {:induction false} AddPickShape(u: ReleaseSection, p: Pick)
    requires IsItem(p.lines)
    ensures var found, after := LastWithTitle(u.subsections, p.title), AddPick(u, p).subsections;
      var at := if found.Some? then found.value else |u.subsections|;
      && |after| == (if found.Some? then |u.subsections| else |u.subsections| + 1)
      && (forall i :: 0 <= i < |u.subsections| ==> after[i].title == u.subsections[i].title)
      && (forall i :: 0 <= i < |u.subsections| && i != at ==> after[i] == u.subsections[i])
      && after[at].title == p.title && Contains(after[at], p.lines)
      && (found.Some? ==>
            forall q :: Contains(u.subsections[at], q) ==> Contains(after[at], q))
      && (found.Some? ==>
            Begins(TextItems(Texts(u.subsections[at].lines)), TextItems(Texts(after[at].lines))))
  {
    AddPickUnfolds(u, p);
    hide *;
    var found := LastWithTitle(u.subsections, p.title);
    var subs := if found.Some? then u.subsections else u.subsections + [Subsection(p.title, [])];
    var at := if found.Some? then found.value else |u.subsections|;
    HasIsContains(subs[at], p.lines);
    ItemNotEmpty(p.lines);
    AppendedKeepsTitle(subs[at], p.lines);
    forall q
      ensures Contains(Appended(subs[at], p.lines), p.lines)
      ensures Contains(subs[at], q) ==> Contains(Appended(subs[at], p.lines), q)
    {
      AppendedContains(subs[at], p.lines, q);
    }
    AppendedBegins(subs[at], p.lines);
    BeginsItself(TextItems(Texts(subs[at].lines)));
  }

  lemma {:induction false} BeginsItself(a: seq<seq<string>>)
    ensures Begins(a, a)
  {
  }

  lemma {:induction false} AppendedBegins(s: Subsection, item: seq<string>)
    requires IsItem(item)
    ensures Begins(TextItems(Texts(s.lines)), TextItems(Texts(Appended(s, item).lines)))
  {
    hide *;
    AppendedTextsAre(s, item);
    TrimItems(Texts(s.lines));
    AppendedItems(TrimBlank(Texts(s.lines)), item);
    BeginsOneMore(TextItems(Texts(s.lines)), item);
  }

  lemma {:induction false} BeginsOneMore(a: seq<seq<string>>, item: seq<string>)
    ensures Begins(a, a + [item])
  {
  }

  lemma {:induction false} AddPickHolds(u: ReleaseSection, p: Pick, q: Pick)
    requires IsItem(p.lines) && HoldsPick(u, q)
    ensures HoldsPick(AddPick(u, p), q)
  {
    AddPickShape(u, p);
    hide *;
    var found, after := LastWithTitle(u.subsections, p.title), AddPick(u, p).subsections;
    var i := HeldIn(u, q);
    if found.Some? && i == found.value {
      HoldsMore(Texts(u.subsections[i].lines), Texts(after[i].lines), q.lines);
    }
    HeldThere(AddPick(u, p), q, i);
  }

  lemma {:induction false} AddPickEnds(u: ReleaseSection, p: Pick, q: Pick)
    requires IsItem(p.lines)
    ensures EndsWithPick(AddPick(u, p), p)
    ensures EndsWithPick(u, q) ==> EndsWithPick(AddPick(u, p), q)
  {
    AddPickShape(u, p);
    var found, after := LastWithTitle(u.subsections, p.title), AddPick(u, p).subsections;
    var at := if found.Some? then found.value else |u.subsections|;
    LastIsLast(u.subsections, p.title);
    LastIsLast(u.subsections, q.title);
    hide *;
    LastIs(after, p.title, at);
    EndsUnfold(AddPick(u, p), p);
    EndsUnfold(AddPick(u, p), q);
    EndsUnfold(u, q);
    if EndsWithPick(u, q) && (found.Some? || q.title != p.title) {
      LastIs(after, q.title, LastWithTitle(u.subsections, q.title).value);
    }
  }

  lemma {:induction false} EndsUnfold(u: ReleaseSection, p: Pick)
    ensures EndsWithPick(u, p) <==>
              LastWithTitle(u.subsections, p.title).Some?
              && Contains(u.subsections[LastWithTitle(u.subsections, p.title).value], p.lines)
  {
    hide Contains;
  }

  lemma {:induction false} HeldIn(u: ReleaseSection, p: Pick) returns (i: nat)
    requires HoldsPick(u, p)
    ensures i < |u.subsections| && u.subsections[i].title == p.title && Holds(Texts(u.subsections[i].lines), p.lines)
  {
    hide Holds;
    i :| 0 <= i < |u.subsections| && u.subsections[i].title == p.title && Holds(Texts(u.subsections[i].lines), p.lines);
  }

  lemma {:induction false} HeldThere(u: ReleaseSection, p: Pick, i: nat)
    requires i < |u.subsections| && u.subsections[i].title == p.title && Holds(Texts(u.subsections[i].lines), p.lines)
    ensures HoldsPick(u, p)
  {
    hide Holds;
  }

  lemma {:induction false} AddPicksKeep(u: ReleaseSection, picks: seq<Pick>, q: Pick)
    requires AllItems(picks)
    ensures HoldsPick(u, q) ==> HoldsPick(AddPicks(u, picks), q)
    ensures q in picks ==> EndsWithPick(AddPicks(u, picks), q)
    decreases |picks|
  {
    hide IsItem, AddPick, HoldsPick, EndsWithPick;
    if picks != [] {
      var front, last := picks[..|picks| - 1], picks[|picks| - 1];
      assert picks == front + [last];
      AddPicksKeep(u, front, q);
      if HoldsPick(AddPicks(u, front), q) { AddPickHolds(AddPicks(u, front), last, q); }
      AddPickEnds(AddPicks(u, front), last, q);
    }
  }

  // ------------------------------------------------------------ normalising

  lemma {:induction false} ContentForHolds(subs: seq<Subsection>, n: nat, j: nat, item: seq<string>)
    requires j < n <= |subs| && Holds(Texts(subs[j].lines), item)
    ensures Holds(ContentFor(subs[..n], subs[j].title), item)
    decreases n
  {
    hide *;
    var t := subs[j].title;
    ContentForStep(subs, n - 1, t);
    if j == n - 1 {
      HoldsTrimmed(Texts(subs[j].lines), item);
      ContentIs(subs[j]);
      HoldsAppended(ContentFor(subs[..n - 1], t), Content(subs[j]), item);
    } else {
      ContentForHolds(subs, n - 1, j, item);
      if subs[n - 1].title == t {
        HoldsAppended(ContentFor(subs[..n - 1], t), Content(subs[n - 1]), item);
      }
    }
  }

  lemma {:induction false} ContentIs(s: Subsection)
    ensures Content(s) == TrimBlank(Texts(s.lines))
  {
  }

  /** The items of the last subsection with a title stay whole when it is merged with its namesakes. */
  lemma {:induction false} ContentForEnds(subs: seq<Subsection>, n: nat, l: nat)
    requires l < n <= |subs| && forall i :: l < i < n ==> subs[i].title != subs[l].title
    ensures var items, all := TextItems(Texts(subs[l].lines)), TextItems(ContentFor(subs[..n], subs[l].title));
      |items| <= |all| && all[|all| - |items|..] == items
    decreases n
  {
    hide *;
    var t := subs[l].title;
    ContentForStep(subs, n - 1, t);
    if l == n - 1 {
      var before, content := ContentFor(subs[..n - 1], t), Content(subs[l]);
      ContentIs(subs[l]);
      TrimItems(Texts(subs[l].lines));
      AppendedIs(before, content);
      if before != [] && content != [] {
        var gap: seq<string> := if IsListItem(before[|before| - 1]) && IsListItem(content[0]) then [] else [""];
        ItemsEnd(before + gap, content);
      } else if content == [] {
        TextItemsUnfold(content);
        assert TextItems(before)[|TextItems(before)|..] == [];
      } else {
        assert TextItems(content)[0..] == TextItems(content);
      }
    } else {
      ContentForEnds(subs, n - 1, l);
    }
  }

  lemma {:induction false} AppendedIs(a: seq<string>, b: seq<string>)
    ensures b == [] ==> AppendedTexts(a, b) == a
    ensures a == [] ==> AppendedTexts(a, b) == b
    ensures a != [] && b != [] ==>
              AppendedTexts(a, b) == a + (if IsListItem(a[|a| - 1]) && IsListItem(b[0]) then [] else [""]) + b
  {
    hide IsListItem;
  }

  /** The normalised part has one subsection with the title, with all its lines. */
  lemma {:induction false} NormalHas(s: ReleaseSection, t: string) returns (i: nat)
    requires ContentFor(s.subsections, t) != []
    ensures var after := NormalSection(s).subsections;
      i < |after| && after[i].title == t && TrimBlank(Texts(after[i].lines)) == ContentFor(s.subsections, t)
  {
    var subs := s.subsections;
    MergedMeaning(subs, |subs|);
    assert subs[..|subs|] == subs;
    var merged := MergedSubsections(subs);
    OrderedIsStableSort(merged, 0);
    hide MergedSubsections, Ordered, ContentFor, Content, TrimBlank, NoneBlank, Distinct;
    var at := IndexOf(merged, t).value;
    ContentIs(merged[at]);
    if s.title == UNRELEASED {
      assert merged[at] in multiset(merged);
      assert merged[at] in Ordered(merged);
      i :| 0 <= i < |Ordered(merged)| && Ordered(merged)[i] == merged[at];
    } else {
      i := at;
    }
  }

  lemma {:induction false} NormalHolds(s: ReleaseSection, p: Pick)
    requires HoldsPick(s, p)
    ensures HoldsPick(NormalSection(s), p)
  {
    hide *;
    var j := HeldIn(s, p);
    var subs := s.subsections;
    ContentForHolds(subs, |subs|, j, p.lines);
    assert subs[..|subs|] == subs;
    HoldsNothing(p.lines);
    var i := NormalHas(s, p.title);
    HoldsTrimmed(Texts(NormalSection(s).subsections[i].lines), p.lines);
    HeldThere(NormalSection(s), p, i);
  }

  lemma {:induction false} NormalShows(s: ReleaseSection, p: Pick)
    requires EndsWithPick(s, p)
    ensures Shows(NormalSection(s), p)
  {
    hide *;
    EndsUnfold(s, p);
    var subs := s.subsections;
    var l := LastWithTitle(subs, p.title).value;
    LastIsLast(subs, p.title);
    ContentForEnds(subs, |subs|, l);
    assert subs[..|subs|] == subs;
    var at := ContainedAt(subs[l], p.lines);
    TextItemsUnfold([]);
    var items, all := TextItems(Texts(subs[l].lines)), TextItems(ContentFor(subs, p.title));
    assert all[|all| - |items|..][at] == all[|all| - |items| + at];
    var i := NormalHas(s, p.title);
    var after := NormalSection(s).subsections[i];
    TrimItems(Texts(after.lines));
    ContainsAt(after, p.lines, |all| - |items| + at);
    ShownThere(NormalSection(s), p, i);
  }

  lemma {:induction false} ContainedAt(s: Subsection, item: seq<string>) returns (i: nat)
    requires Contains(s, item)
    ensures i < |TextItems(Texts(s.lines))| && Join(TextItems(Texts(s.lines))[i]) == Join(item)
  {
    hide TextItems, Join;
    i :| 0 <= i < |TextItems(Texts(s.lines))| && Join(TextItems(Texts(s.lines))[i]) == Join(item);
  }

  lemma {:induction false} ContainsAt(s: Subsection, item: seq<string>, i: nat)
    requires i < |TextItems(Texts(s.lines))| && Join(TextItems(Texts(s.lines))[i]) == Join(item)
    ensures Contains(s, item)
  {
    hide TextItems, Join;
  }

  lemma {:induction false} ShownThere(u: ReleaseSection, p: Pick, i: nat)
    requires i < |u.subsections| && u.subsections[i].title == p.title && Contains(u.subsections[i], p.lines)
    ensures Shows(u, p)
  {
    hide Contains;
  }

  // ------------------------------------------------------------ reading back

  lemma {:induction false} SameHolds(a: ReleaseSection, b: ReleaseSection, p: Pick)
    requires SameSection(a, b)
    ensures HoldsPick(b, p) ==> HoldsPick(a, p)
    ensures Shows(b, p) ==> Shows(a, p)
  {
    hide Leading, Content, Holds, Contains;
    forall i | 0 <= i < |a.subsections|
      ensures a.subsections[i].title == b.subsections[i].title
      ensures Holds(Texts(a.subsections[i].lines), p.lines) <==> Holds(Texts(b.subsections[i].lines), p.lines)
      ensures Contains(a.subsections[i], p.lines) <==> Contains(b.subsections[i], p.lines)
    {
      SameItems(a.subsections[i], b.subsections[i], p.lines);
    }
  }

  lemma {:induction false} SameItems(a: Subsection, b: Subsection, item: seq<string>)
    requires Content(a) == Content(b)
    ensures Holds(Texts(a.lines), item) <==> Holds(Texts(b.lines), item)
    ensures Contains(a, item) <==> Contains(b, item)
  {
    ContentIs(a);
    ContentIs(b);
    TrimItems(Texts(a.lines));
    TrimItems(Texts(b.lines));
    hide TextItems, TrimBlank, Join, Content;
  }

  // ------------------------------------------------------------ what stays in a release

  lemma {:induction false} OutsideConcat(a: seq<NumberedLine>, b: seq<NumberedLine>, items: seq<Item>)
    ensures Outside(a + b, items) == Outside(a, items) + Outside(b, items)
    decreases |a|
  {
    hide InRanges;
    if a == [] {
      assert a + b == b;
    } else {
      assert (a + b)[1..] == a[1..] + b;
      OutsideConcat(a[1..], b, items);
    }
  }

  lemma {:induction false} OutsideAgrees(lines: seq<NumberedLine>, a: seq<Item>, b: seq<Item>)
    requires forall i :: 0 <= i < |lines| ==> (InRanges(a, lines[i].lineNumber) <==> InRanges(b, lines[i].lineNumber))
    ensures Outside(lines, a) == Outside(lines, b)
    ensures (forall i :: 0 <= i < |lines| ==> !InRanges(b, lines[i].lineNumber)) ==> Outside(lines, a) == lines
    decreases |lines|
  {
    hide InRanges;
    if lines != [] {
      assert forall i :: 0 <= i < |lines[1..]| ==> lines[1..][i] == lines[i + 1];
      OutsideAgrees(lines[1..], a, b);
    }
  }

  lemma {:induction false} TextsConcat(a: seq<NumberedLine>, b: seq<NumberedLine>)
    ensures Texts(a + b) == Texts(a) + Texts(b)
  {
  }

  /** The first part of some lines: an item with its lines, or one line that begins none. */
  lemma {:induction false} FirstPart(lines: seq<NumberedLine>) returns (k: nat, own: seq<Item>)
    requires lines != []
    ensures 1 <= k <= |lines| && Items(lines) == own + Items(lines[k..])
    ensures own == [] || (own == [ItemOf(lines[..k])] && IsListItem(lines[0].text))
    ensures own != [] ==>
              own[0].endLine == lines[k - 1].lineNumber && forall j :: 1 <= j < k ==> !IsListItem(lines[j].text)
  {
    hide IsListItem, Items, ItemOf, NextItem;
    var isItem := IsListItem(lines[0].text);
    k := if isItem then NextItem(lines, 1) else 1;
    own := if isItem then [ItemOf(lines[..k])] else [];
    NextItemFound(lines, 1);
    ItemsUnfold(lines);
    if isItem { FirstNumber(lines[..k]); }
    assert [] + Items(lines[k..]) == Items(lines[k..]);
  }

  /** What is left of the lines when the chosen items are taken out, in two parts. */
  lemma {:induction false} PartsLeft(lines: seq<NumberedLine>, starts: set<nat>, k: nat, own: seq<Item>)
    requires Increasing(lines) && 1 <= k <= |lines| && Items(lines) == own + Items(lines[k..])
    requires own == [] || (|own| == 1 && own[0].endLine == lines[k - 1].lineNumber)
    ensures var chosen, rest := Chosen(Items(lines), starts), Chosen(Items(lines[k..]), starts);
      && (forall i :: 0 <= i < k ==> !InRanges(rest, lines[i].lineNumber))
      && Outside(lines, chosen) == Outside(lines[..k], chosen) + Outside(lines[k..], rest)
      && (own == [] || own[0].startLine !in starts ==> chosen == rest)
    ensures Increasing(lines[k..])
  {
    hide InRanges, Increasing, Chosen, Outside, Items;
    var chosen, rest := Chosen(Items(lines), starts), Chosen(Items(lines[k..]), starts);
    IncreasingParts(lines, k, 0);
    forall i | 0 <= i < k
      ensures !InRanges(rest, lines[i].lineNumber)
    {
      IncreasingParts(lines, k, i);
      RangesAbove(lines[k..], starts, lines[i].lineNumber);
    }
    assert [] + rest == rest && [] + Items(lines[k..]) == Items(lines[k..]);
    if own != [] {
      assert own == [own[0]];
      ChosenFirst(own[0], Items(lines[k..]), starts);
      PartRanges(lines, k, own[0], rest);
    }
    OutsideConcat(lines[..k], lines[k..], chosen);
    assert lines == lines[..k] + lines[k..];
  }

  /** The range of the first part touches no later line. */
  lemma {:induction false} PartRanges(lines: seq<NumberedLine>, k: nat, item: Item, rest: seq<Item>)
    requires Increasing(lines) && 1 <= k <= |lines| && item.endLine == lines[k - 1].lineNumber
    ensures Outside(lines[k..], [item] + rest) == Outside(lines[k..], rest)
  {
    hide InRanges, Outside, Increasing;
    forall i | 0 <= i < |lines[k..]|
      ensures InRanges([item] + rest, lines[k..][i].lineNumber) <==> InRanges(rest, lines[k..][i].lineNumber)
    {
      IncreasingParts(lines, k, k + i);
      RangesFirst(item, rest, lines[k + i].lineNumber);
    }
    OutsideAgrees(lines[k..], [item] + rest, rest);
  }

  /** An item that is not chosen stays in its subsection. */
  lemma {:induction false} UnchosenStays(lines: seq<NumberedLine>, starts: set<nat>, i: nat)
    requires Increasing(lines) && i < |Items(lines)| && Items(lines)[i].startLine !in starts
    ensures Holds(Texts(Outside(lines, Chosen(Items(lines), starts))), Items(lines)[i].lines)
    decreases |lines|
  {
    hide *;
    NoItems();
    var k, own := FirstPart(lines);
    PartsLeft(lines, starts, k, own);
    var chosen, rest := Chosen(Items(lines), starts), Chosen(Items(lines[k..]), starts);
    var item := Items(lines)[i].lines;
    var head, tail := Outside(lines[..k], chosen), Outside(lines[k..], rest);
    TextsConcat(head, tail);
    if own != [] && i == 0 {
      assert forall j :: 0 <= j < k ==> lines[..k][j] == lines[j];
      OutsideAgrees(lines[..k], chosen, rest);
      OneItem(lines[..k]);
      HoldsEarlier(Texts(head), Texts(tail), item);
    } else {
      UnchosenStays(lines[k..], starts, i - |own|);
      HoldsLater(Texts(head), Texts(tail), item);
    }
  }

  lemma {:induction false} OneItem(lines: seq<NumberedLine>)
    requires lines != [] && IsListItem(lines[0].text)
    requires forall j :: 1 <= j < |lines| ==> !IsListItem(lines[j].text)
    ensures Holds(Texts(lines), ItemOf(lines).lines)
  {
    var texts := Texts(lines);
    hide IsListItem, TrimBlank, TextItems, NextStart;
    NoStartAfter(texts, 1);
    TextItemsUnfold(texts);
    assert texts[..|texts|] == texts;
    HeldAt(texts, TrimBlank(texts), 0);
  }

  lemma {:induction false} ItemIsHeld(lines: seq<NumberedLine>, i: nat)
    requires i < |Items(lines)|
    ensures Holds(Texts(lines), Items(lines)[i].lines)
  {
    ItemsAreTextItems(lines);
    hide TextItems, Items, Join, Holds;
    HeldAt(Texts(lines), Items(lines)[i].lines, i);
  }

  lemma {:induction false} KeptHolds(s: Subsection, starts: set<nat>, i: nat)
    requires Increasing(s.lines) && i < |Items(s.lines)| && Items(s.lines)[i].startLine !in starts
    ensures Kept(s, starts).title == s.title && Holds(Texts(Kept(s, starts).lines), Items(s.lines)[i].lines)
  {
    UnchosenStays(s.lines, starts, i);
    ItemIsHeld(s.lines, i);
    hide Items, Chosen, Outside, Holds, Increasing;
  }

  /** Which items of a release are to be moved. */
  ghost predicate Moves(s: ReleaseSection, starts: set<nat>, j: nat, i: nat)
    requires j < |s.subsections| && i < |Items(s.subsections[j].lines)|
  {
    s.title != UNRELEASED && Items(s.subsections[j].lines)[i].startLine in starts
  }

  function PickAt(s: ReleaseSection, j: nat, i: nat): Pick
    requires j < |s.subsections| && i < |Items(s.subsections[j].lines)|
  {
    Pick(s.subsections[j].title, Items(s.subsections[j].lines)[i].lines)
  }

  lemma {:induction false} PickIs(s: ReleaseSection, j: nat, i: nat)
    requires j < |s.subsections| && i < |Items(s.subsections[j].lines)|
    ensures PickAt(s, j, i) == Pick(s.subsections[j].title, Items(s.subsections[j].lines)[i].lines)
  {
  }

  lemma {:induction false} StaysInRelease(s: ReleaseSection, starts: set<nat>, j: nat, i: nat)
    requires IncreasingSection(s) && j < |s.subsections| && i < |Items(s.subsections[j].lines)|
    requires !Moves(s, starts, j, i)
    ensures KeptSection(s, starts).heading == s.heading && HoldsPick(KeptSection(s, starts), PickAt(s, j, i))
  {
    var sub := s.subsections[j];
    ItemIsHeld(sub.lines, i);
    if s.title != UNRELEASED { KeptHolds(sub, starts, i); }
    hide Items, Kept, Holds, Increasing;
    HeldThere(KeptSection(s, starts), PickAt(s, j, i), j);
  }

  lemma {:induction false} PlacedKeeps(x: seq<ReleaseSection>, picks: seq<Pick>, s: nat, p: Pick)
    requires s < |x| && AllItems(picks) && HoldsPick(x[s], p)
    ensures exists v ::
      0 <= v < |Placed(x, picks)| && Placed(x, picks)[v].heading == x[s].heading && HoldsPick(Placed(x, picks)[v], p)
  {
    hide FirstUnreleased, AddPicks, HoldsPick, AllItems, Placed;
    PlacedUnfolds(x, picks);
    if picks == [] {
      assert Placed(x, picks)[s] == x[s];
    } else {
      match FirstUnreleased(x)
      case Some(u) =>
        AddPicksKeep(x[u], picks, p);
        AddPicksTitle(x[u], picks);
        assert Placed(x, picks)[s] == if s == u then AddPicks(x[u], picks) else x[s];
      case None =>
        assert Placed(x, picks)[s + 1] == x[s];
    }
  }

  lemma {:induction false} KeptAt(sections: seq<ReleaseSection>, starts: set<nat>, s: nat)
    requires s < |sections|
    ensures KeptSections(sections, starts, |sections|)[s] == KeptSection(sections[s], starts)
    ensures Promoted(sections, starts)
         == Placed(KeptSections(sections, starts, |sections|), DocumentPicks(sections, starts))
  {
    hide KeptSection, DocumentPicks, Placed;
  }

  lemma {:induction false} StaysInDocument(sections: seq<ReleaseSection>, starts: set<nat>, s: nat, j: nat, i: nat)
    requires s < |sections| && IncreasingSection(sections[s])
    requires j < |sections[s].subsections| && i < |Items(sections[s].subsections[j].lines)|
    requires !Moves(sections[s], starts, j, i)
    ensures var after := Promoted(sections, starts);
      exists v ::
        0 <= v < |after| && after[v].heading == sections[s].heading && HoldsPick(after[v], PickAt(sections[s], j, i))
  {
    hide *;
    StaysInRelease(sections[s], starts, j, i);
    KeptAt(sections, starts, s);
    DocumentPicksAreItems(sections, starts, |sections|);
    assert sections[..|sections|] == sections;
    PlacedKeeps(KeptSections(sections, starts, |sections|), DocumentPicks(sections, starts), s,
                PickAt(sections[s], j, i));
  }

  /** A moved item is among the picks. */
  lemma {:induction false} MovedIsPicked(sections: seq<ReleaseSection>, starts: set<nat>, n: nat, s: nat, j: nat,
                                         i: nat)
    requires s < n <= |sections|
    requires j < |sections[s].subsections| && i < |Items(sections[s].subsections[j].lines)|
    requires Moves(sections[s], starts, j, i)
    ensures PickAt(sections[s], j, i) in DocumentPicks(sections[..n], starts)
    decreases n
  {
    KeptParts(sections, starts, n - 1);
    hide DocumentPicks, Items, PickAt, Moves, AllPicks;
    if s == n - 1 {
      var subs := sections[s].subsections;
      PickedInRelease(sections[s], starts, |subs|, j, i);
      assert subs[..|subs|] == subs;
      PicksOfRelease(sections[s], starts, j, i);
    } else {
      MovedIsPicked(sections, starts, n - 1, s, j, i);
    }
  }

  lemma {:induction false} PicksOfRelease(s: ReleaseSection, starts: set<nat>, j: nat, i: nat)
    requires j < |s.subsections| && i < |Items(s.subsections[j].lines)| && Moves(s, starts, j, i)
    ensures SectionPicks(s, starts) == AllPicks(s.subsections, starts)
  {
  }

  lemma {:induction false} PickedInRelease(s: ReleaseSection, starts: set<nat>, n: nat, j: nat, i: nat)
    requires j < n <= |s.subsections| && i < |Items(s.subsections[j].lines)| && Moves(s, starts, j, i)
    ensures PickAt(s, j, i) in AllPicks(s.subsections[..n], starts)
    decreases n
  {
    PicksStep(s.subsections, starts, n - 1);
    if j == n - 1 {
      var items := Items(s.subsections[j].lines);
      IsChosen(items, starts, i);
      hide Items, Chosen, AllPicks;
      PicksAre(s.subsections[j].title, Chosen(items, starts));
      var k :| 0 <= k < |Chosen(items, starts)| && Chosen(items, starts)[k] == items[i];
      assert SubsectionPicks(s.subsections[j], starts)[k] == PickAt(s, j, i);
    } else {
      hide Items, AllPicks, Moves, PickAt;
      PickedInRelease(s, starts, n - 1, j, i);
    }
  }

  lemma {:induction false} IsChosen(items: seq<Item>, starts: set<nat>, i: nat)
    requires i < |items| && items[i].startLine in starts
    ensures items[i] in Chosen(items, starts)
    decreases |items|
  {
    if i > 0 { IsChosen(items[1..], starts, i - 1); }
  }

  // ------------------------------------------------------------ the whole fix

  /** The release at `v` before normalising is read back from the text written. */
  lemma {:induction false} WrittenPart(content: string, starts: set<nat>, v: nat, p: Pick)
    requires var d := Parsed(content);
      v < |Promoted(d.sections, starts)|
      && !(DocumentPicks(d.sections, starts) == [] && TotalCount(Promoted(d.sections, starts)) == Counters(0, 0))
    ensures var u := Promoted(Parsed(content).sections, starts)[v];
      var fixed := Parsed(Fixed(content, starts).content).sections;
      && v < |fixed| && fixed[v].heading == u.heading && fixed[v].title == u.title
      && (HoldsPick(u, p) ==> HoldsPick(fixed[v], p))
      && (EndsWithPick(u, p) ==> Shows(fixed[v], p))
  {
    hide *;
    var d := Parsed(content);
    var sections := Promoted(d.sections, starts);
    FixedUnfolds(content, starts);
    ParsedFromFile(content);
    SectionsGood(d);
    PromotedGood(d.sections, starts);
    var n := Document(d.prefixLines, Normalized(sections));
    NormalizedGood(d, sections);
    NormalNotBlank(n.sections);
    WrittenDocumentReadsBack(n);
    var r := Parsed(Rendered(n));
    SamePart(r, n, v);
    NormalPart(sections, v);
    SameHolds(r.sections[v], n.sections[v], p);
    if HoldsPick(sections[v], p) { NormalHolds(sections[v], p); }
    if EndsWithPick(sections[v], p) { NormalShows(sections[v], p); }
  }

  lemma {:induction false} SamePart(a: Document, b: Document, v: nat)
    requires Same(a, b) && v < |b.sections|
    ensures v < |a.sections| && SameSection(a.sections[v], b.sections[v])
    ensures a.sections[v].heading == b.sections[v].heading && a.sections[v].title == b.sections[v].title
  {
    hide Leading, SameSubsections, TrimBlank, Texts;
  }

  lemma {:induction false} NormalPart(sections: seq<ReleaseSection>, v: nat)
    requires v < |sections|
    ensures Normalized(sections)[v] == NormalSection(sections[v])
    ensures NormalSection(sections[v]).heading == sections[v].heading
    ensures NormalSection(sections[v]).title == sections[v].title
  {
    hide MergedSubsections, Ordered, Leading;
  }

  /** Every item taken out of a release is found, whole, below its title in an unreleased part of the
      text that the fix writes. */
  lemma {:induction false} PromotedItemsArrive(content: string, starts: set<nat>, p: Pick)
    requires p in DocumentPicks(Parsed(content).sections, starts)
    ensures var fixed := Parsed(Fixed(content, starts).content).sections;
      exists v :: 0 <= v < |fixed| && fixed[v].title == UNRELEASED && Shows(fixed[v], p)
  {
    var sections := Parsed(content).sections;
    var v := PromotedIn(sections, starts, p);
    hide *;
    WrittenPart(content, starts, v, p);
  }

  lemma {:induction false} PromotedIn(sections: seq<ReleaseSection>, starts: set<nat>, p: Pick) returns (v: nat)
    requires p in DocumentPicks(sections, starts)
    ensures v < |Promoted(sections, starts)| && Promoted(sections, starts)[v].title == UNRELEASED
    ensures EndsWithPick(Promoted(sections, starts)[v], p)
  {
    DocumentPicksAreItems(sections, starts, |sections|);
    assert sections[..|sections|] == sections;
    var x, picks := KeptSections(sections, starts, |sections|), DocumentPicks(sections, starts);
    PlacedUnfolds(x, picks);
    hide KeptSections, DocumentPicks, Placed, AddPicks, FirstUnreleased, EndsWithPick, IsItem;
    match FirstUnreleased(x)
    case Some(u) =>
      AddPicksKeep(x[u], picks, p);
      AddPicksTitle(x[u], picks);
      assert Promoted(sections, starts)[u] == AddPicks(x[u], picks);
      v := u;
    case None =>
      AddPicksKeep(NEW_UNRELEASED, picks, p);
      AddPicksTitle(NEW_UNRELEASED, picks);
      assert Promoted(sections, starts)[0] == AddPicks(NEW_UNRELEASED, picks);
      v := 0;
  }

  /** A fix loses no list item. One that begins at a promotable line of a release is found whole below its
      title in an unreleased part; any other still begins an item below its title in a part with its own
      release's heading. */
  lemma {:induction false} NoItemIsLost(content: string, starts: set<nat>, s: nat, j: nat, i: nat)
    requires var sections := Parsed(content).sections;
      s < |sections| && j < |sections[s].subsections| && i < |Items(sections[s].subsections[j].lines)|
    ensures var section, fixed := Parsed(content).sections[s], Parsed(Fixed(content, starts).content).sections;
      var p := PickAt(section, j, i);
      if Moves(section, starts, j, i)
      then exists v :: 0 <= v < |fixed| && fixed[v].title == UNRELEASED && Shows(fixed[v], p)
      else exists v :: 0 <= v < |fixed| && fixed[v].heading == section.heading && HoldsPick(fixed[v], p)
  {
    hide *;
    var sections := Parsed(content).sections;
    var section := sections[s];
    ParsedIncreases(content);
    if Moves(section, starts, j, i) {
      MovedIsPicked(sections, starts, |sections|, s, j, i);
      assert sections[..|sections|] == sections;
      PromotedItemsArrive(content, starts, PickAt(section, j, i));
    } else if DocumentPicks(sections, starts) == [] && TotalCount(Promoted(sections, starts)) == Counters(0, 0) {
      FixedUnfolds(content, starts);
      ItemIsHeld(section.subsections[j].lines, i);
      PickIs(section, j, i);
      HeldThere(section, PickAt(section, j, i), j);
    } else {
      StaysInDocument(sections, starts, s, j, i);
      var v :| 0 <= v < |Promoted(sections, starts)| && Promoted(sections, starts)[v].heading == section.heading
               && HoldsPick(Promoted(sections, starts)[v], PickAt(section, j, i));
      WrittenPart(content, starts, v, PickAt(section, j, i));
    }
  }
}
