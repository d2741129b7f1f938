/** Sets of file lines kept as lists of inclusive intervals: merging by sorting and folding, one-pass
    insertion, two containment tests and subtraction. Each is proved to agree with the plain meaning
    of such a list, the set of lines it covers, and canonical lists are unique for a set of lines. */
module Intervals {
  datatype Interval = Interval(lo: int, hi: int) {
    predicate Proper() { lo <= hi }
    predicate Has(x: int) { lo <= x <= hi }
    predicate Contains(other: Interval) { lo <= other.lo && other.hi <= hi }
  }

  function Min(a: int, b: int): int { if a <= b then a else b }
  function Max(a: int, b: int): int { if a >= b then a else b }

  ghost predicate Covered(ivs: seq<Interval>, x: int) {
    exists i :: 0 <= i < |ivs| && ivs[i].Has(x)
  }

  ghost predicate SameLines(a: seq<Interval>, b: seq<Interval>) {
    forall x :: Covered(a, x) <==> Covered(b, x)
  }

  predicate AllProper(ivs: seq<Interval>) {
    forall i :: 0 <= i < |ivs| ==> ivs[i].Proper()
  }

  /** In order, each interval leaving a gap to every later one. */
  predicate Spread(ivs: seq<Interval>) {
    forall i, j :: 0 <= i < j < |ivs| ==> ivs[i].hi + 1 < ivs[j].lo
  }

  /** Sorted, with no two intervals overlapping or adjacent. */
  predicate Canonical(ivs: seq<Interval>) {
    AllProper(ivs) && Spread(ivs)
  }

  // ------------------------------------------------------------ canonical lists are unique

  lemma {:induction false} CanonicalUnique(a: seq<Interval>, b: seq<Interval>)
    requires Canonical(a) && Canonical(b) && SameLines(a, b)
    ensures a == b
    decreases |a|
  {
    if a != [] {
      assert a[0].Has(a[0].lo);
      assert Covered(a, a[0].lo) && Covered(b, a[0].lo);
    }
    if b != [] {
      assert b[0].Has(b[0].lo);
      assert Covered(b, b[0].lo) && Covered(a, b[0].lo);
      HeadsAgree(a, b);
      RestCovers(a);
      RestCovers(b);
      CanonicalUnique(a[1..], b[1..]);
      assert a == [a[0]] + a[1..] && b == [b[0]] + b[1..];
    }
  }

  lemma {:induction false} HeadsAgree(a: seq<Interval>, b: seq<Interval>)
    requires a != [] && b != [] && Canonical(a) && Canonical(b) && SameLines(a, b)
    ensures a[0] == b[0]
  {
    FirstLine(a, b);
    FirstLine(b, a);
    FirstEnd(a, b);
    FirstEnd(b, a);
  }

  lemma {:induction false} FirstLine(a: seq<Interval>, b: seq<Interval>)
    requires a != [] && b != [] && Canonical(a) && Canonical(b) && SameLines(a, b)
    ensures b[0].lo <= a[0].lo
  {
    assert a[0].Has(a[0].lo);
    assert Covered(a, a[0].lo);
    var i :| 0 <= i < |b| && b[i].Has(a[0].lo);
    assert i > 0 ==> b[0].hi + 1 < b[i].lo;
  }

  lemma {:induction false} FirstEnd(a: seq<Interval>, b: seq<Interval>)
    requires a != [] && b != [] && Canonical(a) && Canonical(b) && SameLines(a, b)
    requires a[0].lo == b[0].lo
    ensures b[0].hi <= a[0].hi
  {
    var x := a[0].hi + 1;
    forall i | 0 <= i < |a|
      ensures !a[i].Has(x)
    {
      if i > 0 { assert a[0].hi + 1 < a[i].lo; }
    }
    assert !Covered(a, x) && !Covered(b, x);
    assert !b[0].Has(x);
  }

  /** The lines of the tail of a canonical list are those of the list beyond its first interval. */
  lemma {:induction false} RestCovers(a: seq<Interval>)
    requires a != [] && Canonical(a)
    ensures forall x :: Covered(a[1..], x) <==> Covered(a, x) && x > a[0].hi
  {
    forall x
      ensures Covered(a[1..], x) <==> Covered(a, x) && x > a[0].hi
    {
      if Covered(a[1..], x) {
        var i :| 0 <= i < |a[1..]| && a[1..][i].Has(x);
        assert a[i + 1].Has(x);
      }
      if Covered(a, x) && x > a[0].hi {
        var i :| 0 <= i < |a| && a[i].Has(x);
        assert a[1..][i - 1].Has(x);
      }
    }
  }

  // ------------------------------------------------------------ inserting one interval

  /** The smallest interval around two. */
  function Hull(a: Interval, b: Interval): Interval {
    Interval(Min(a.lo, b.lo), Max(a.hi, b.hi))
  }

  /** Insertion into a canonical list: intervals it overlaps or touches are absorbed. */
  function Insert(ivs: seq<Interval>, item: Interval): (r: seq<Interval>)
    decreases |ivs|
  {
    if ivs == [] then [item]
    else if ivs[0].hi + 1 < item.lo then [ivs[0]] + Insert(ivs[1..], item)
    else if item.hi + 1 < ivs[0].lo then [item] + ivs
    else Insert(ivs[1..], Hull(item, ivs[0]))
  }

  lemma {:induction false} CoveredCons(iv: Interval, rest: seq<Interval>, x: int)
    ensures Covered([iv] + rest, x) <==> iv.Has(x) || Covered(rest, x)
  {
    var all := [iv] + rest;
    if iv.Has(x) { assert all[0].Has(x); }
    if Covered(rest, x) {
      var i :| 0 <= i < |rest| && rest[i].Has(x);
      assert all[i + 1].Has(x);
    }
    if Covered(all, x) {
      var i :| 0 <= i < |all| && all[i].Has(x);
      if i > 0 { assert rest[i - 1].Has(x); }
    }
  }

  lemma {:induction false} CoveredAppend(a: seq<Interval>, b: seq<Interval>, x: int)
    ensures Covered(a + b, x) <==> Covered(a, x) || Covered(b, x)
  {
    if Covered(a, x) {
      var i :| 0 <= i < |a| && a[i].Has(x);
      assert (a + b)[i].Has(x);
    }
    if Covered(b, x) {
      var i :| 0 <= i < |b| && b[i].Has(x);
      assert (a + b)[|a| + i].Has(x);
    }
    if Covered(a + b, x) {
      var i :| 0 <= i < |a + b| && (a + b)[i].Has(x);
      if i < |a| { assert a[i].Has(x); } else { assert b[i - |a|].Has(x); }
    }
  }

  lemma {:induction false} CoveredSnoc(ivs: seq<Interval>, item: Interval, x: int)
    ensures Covered(ivs + [item], x) <==> Covered(ivs, x) || item.Has(x)
  {
    CoveredAppend(ivs, [item], x);
    assert Covered([item], x) <==> item.Has(x) by {
      if item.Has(x) { assert [item][0].Has(x); }
    }
  }

  lemma {:induction false} CanonicalCons(iv: Interval, rest: seq<Interval>)
    ensures Canonical([iv] + rest) <==>
      iv.Proper() && Canonical(rest) && (forall i :: 0 <= i < |rest| ==> iv.hi + 1 < rest[i].lo)
  {
    var all := [iv] + rest;
    if Canonical(all) {
      assert all[0].Proper();
      forall i | 0 <= i < |rest|
        ensures rest[i].Proper() && iv.hi + 1 < rest[i].lo
      {
        assert all[i + 1].Proper() && all[0].hi + 1 < all[i + 1].lo;
      }
      forall i, j | 0 <= i < j < |rest|
        ensures rest[i].hi + 1 < rest[j].lo
      {
        assert all[i + 1].hi + 1 < all[j + 1].lo;
      }
    }
    if iv.Proper() && Canonical(rest) && forall i :: 0 <= i < |rest| ==> iv.hi + 1 < rest[i].lo {
      forall i, j | 0 <= i < j < |all|
        ensures all[i].hi + 1 < all[j].lo
      {
        if i > 0 { assert rest[i - 1].hi + 1 < rest[j - 1].lo; }
      }
    }
  }

  lemma {:induction false} InsertUnfolds(ivs: seq<Interval>, item: Interval)
    ensures ivs == [] ==> Insert(ivs, item) == [item]
    ensures ivs != [] && ivs[0].hi + 1 < item.lo ==> Insert(ivs, item) == [ivs[0]] + Insert(ivs[1..], item)
    ensures ivs != [] && ivs[0].hi + 1 >= item.lo && item.hi + 1 < ivs[0].lo ==> Insert(ivs, item) == [item] + ivs
    ensures ivs != [] && ivs[0].hi + 1 >= item.lo && item.hi + 1 >= ivs[0].lo ==>
              Insert(ivs, item) == Insert(ivs[1..], Hull(item, ivs[0]))
  {
  }

  ghost predicate StartsFrom(ivs: seq<Interval>, x: int) {
    forall k :: 0 <= k < |ivs| ==> ivs[k].lo >= x
  }

  lemma {:induction false} CanonicalParts(head: Interval, rest: seq<Interval>)
    ensures Canonical([head] + rest) <==> head.Proper() && Canonical(rest) && StartsFrom(rest, head.hi + 2)
  {
    CanonicalCons(head, rest);
    hide Canonical;
  }

  /** Insertion covers exactly the union, and keeps a list canonical. */
  lemma {:induction false} InsertCorrect(ivs: seq<Interval>, item: Interval)
    requires Canonical(ivs) && item.Proper()
    ensures Canonical(Insert(ivs, item))
    ensures forall x :: Covered(Insert(ivs, item), x) <==> Covered(ivs, x) || item.Has(x)
  {
    forall x
      ensures Covered(Insert(ivs, item), x) <==> Covered(ivs, x) || item.Has(x)
    {
      InsertCovers(ivs, item, x);
    }
    InsertCanonical(ivs, item, item.lo);
  }

  lemma {:induction false} InsertCovers(ivs: seq<Interval>, item: Interval, x: int)
    requires Canonical(ivs) && item.Proper()
    ensures Covered(Insert(ivs, item), x) <==> Covered(ivs, x) || item.Has(x)
    decreases |ivs|
  {
    hide Insert, Covered, Canonical;
    InsertUnfolds(ivs, item);
    CoveredSnoc([], item, x);
    assert [] + [item] == [item];
    if ivs == [] {
      NothingCovered(x);
    } else {
      var head, rest := ivs[0], ivs[1..];
      assert ivs == [head] + rest;
      CanonicalParts(head, rest);
      CoveredCons(head, rest, x);
      if head.hi + 1 < item.lo {
        InsertCovers(rest, item, x);
        CoveredCons(head, Insert(rest, item), x);
      } else if item.hi + 1 < head.lo {
        CoveredCons(item, ivs, x);
      } else {
        InsertCovers(rest, Hull(item, head), x);
      }
    }
  }

  lemma {:induction false} NothingCovered(x: int)
    ensures !Covered([], x)
  {
  }

  lemma {:induction false} InsertCanonical(ivs: seq<Interval>, item: Interval, x: int)
    requires Canonical(ivs) && item.Proper() && item.lo >= x
    ensures Canonical(Insert(ivs, item))
    ensures StartsFrom(ivs, x) ==> StartsFrom(Insert(ivs, item), x)
    decreases |ivs|
  {
    hide Insert;
    InsertUnfolds(ivs, item);
    if ivs != [] {
      var head, rest := ivs[0], ivs[1..];
      assert ivs == [head] + rest;
      CanonicalParts(head, rest);
      hide Canonical;
      if head.hi + 1 < item.lo {
        InsertCanonical(rest, item, head.hi + 2);
        CanonicalParts(head, Insert(rest, item));
      } else if item.hi + 1 < head.lo {
        CanonicalParts(item, ivs);
      } else {
        InsertCanonical(rest, Hull(item, head), Min(x, head.lo));
      }
    }
  }

  /** The canonical form of a list: its intervals inserted one by one. */
  function Merged(ivs: seq<Interval>): seq<Interval> {
    if ivs == [] then [] else Insert(Merged(ivs[..|ivs| - 1]), ivs[|ivs| - 1])
  }

  /** The canonical form covers the same lines, and any canonical list covering them is it. */
  lemma {:induction false} MergedCorrect(ivs: seq<Interval>)
    requires AllProper(ivs)
    ensures Canonical(Merged(ivs)) && SameLines(Merged(ivs), ivs)
    ensures forall c :: Canonical(c) && SameLines(c, ivs) ==> c == Merged(ivs)
    decreases |ivs|
  {
    if ivs != [] {
      var init, item := ivs[..|ivs| - 1], ivs[|ivs| - 1];
      MergedCorrect(init);
      InsertCorrect(Merged(init), item);
      assert ivs == init + [item];
      forall x
        ensures Covered(Merged(ivs), x) <==> Covered(ivs, x)
      {
        CoveredSnoc(init, item, x);
      }
    }
    forall c | Canonical(c) && SameLines(c, ivs)
      ensures c == Merged(ivs)
    {
      CanonicalUnique(c, Merged(ivs));
    }
  }

  /** What holds before the interval at `i`: what was put out, followed by the rest with the item in
      it, is the insertion. */
  ghost predicate Placing(ivs: seq<Interval>, item: Interval, i: nat, s: int, e: int, placed: bool,
                          out: seq<Interval>) {
    && i <= |ivs| && s <= e
    && (placed ==> forall k :: i <= k < |ivs| ==> e + 1 < ivs[k].lo)
    && Insert(ivs, item) == out + if placed then ivs[i..] else Insert(ivs[i..], Interval(s, e))
  }

  lemma {:induction false} PlacingStart(ivs: seq<Interval>, item: Interval)
    requires item.Proper()
    ensures Placing(ivs, item, 0, item.lo, item.hi, false, [])
  {
    assert ivs[0..] == ivs && [] + Insert(ivs, item) == Insert(ivs, item);
  }

  lemma {:induction false} PlacingStep(ivs: seq<Interval>, item: Interval, i: nat, s: int, e: int, placed: bool,
                                       out: seq<Interval>)
    requires Canonical(ivs) && Placing(ivs, item, i, s, e, placed, out) && i < |ivs|
    ensures var iv := ivs[i];
      if iv.hi + 1 < s then Placing(ivs, item, i + 1, s, e, placed, out + [iv])
      else if e + 1 < iv.lo then
        Placing(ivs, item, i + 1, s, e, true, (if placed then out else out + [Interval(s, e)]) + [iv])
      else Placing(ivs, item, i + 1, Min(s, iv.lo), Max(e, iv.hi), placed, out)
  {
    hide Insert;
    var iv, rest, current := ivs[i], ivs[i + 1..], Interval(s, e);
    assert iv.Proper() && forall k :: i < k < |ivs| ==> iv.hi + 1 < ivs[k].lo;
    assert ivs[i..] == [iv] + rest && ivs[i..][1..] == rest;
    InsertUnfolds(ivs[i..], current);
    Prepend(out, [iv], Insert(rest, current));
    Prepend(out, [iv], rest);
    Prepend(out, [current], [iv] + rest);
    Prepend(out + [current], [iv], rest);
  }

  lemma {:induction false} PlacingDone(ivs: seq<Interval>, item: Interval, s: int, e: int, placed: bool,
                                       out: seq<Interval>)
    requires Placing(ivs, item, |ivs|, s, e, placed, out)
    ensures Insert(ivs, item) == if placed then out else out + [Interval(s, e)]
  {
    assert ivs[|ivs|..] == [] && out + [] == out;
  }

  method AddInterval(intervals: seq<Interval>, item: Interval) returns (out: seq<Interval>)
    requires Canonical(intervals) && item.Proper()
    ensures out == Insert(intervals, item)
    ensures out == Merged(intervals + [item])
    ensures Canonical(out)
  {
    hide *;
    var s, e := item.lo, item.hi;
    out := [];
    var placed := false;
    PlacingStart(intervals, item);
    for i := 0 to |intervals|
      invariant Placing(intervals, item, i, s, e, placed, out)
    {
      var iv := intervals[i];
      PlacingStep(intervals, item, i, s, e, placed, out);
      if iv.hi + 1 < s {
        out := out + [iv];
      } else if e + 1 < iv.lo {
        if !placed {
          out := out + [Interval(s, e)];
          placed := true;
        }
        out := out + [iv];
      } else {
        s := Min(s, iv.lo);
        e := Max(e, iv.hi);
      }
    }
    PlacingDone(intervals, item, s, e, placed, out);
    if !placed {
      out := out + [Interval(s, e)];
    }
    InsertIsMerge(intervals, item);
  }

  /** A canonical list is its own canonical form, so inserting is merging with one more interval. */
  lemma {:induction false} InsertIsMerge(intervals: seq<Interval>, item: Interval)
    requires Canonical(intervals) && item.Proper()
    ensures Insert(intervals, item) == Merged(intervals + [item])
    ensures Canonical(Insert(intervals, item))
  {
    MergedCorrect(intervals);
    InsertCorrect(intervals, item);
    assert (intervals + [item])[..|intervals|] == intervals;
  }

  lemma {:induction false} Prepend<T>(a: seq<T>, b: seq<T>, c: seq<T>)
    ensures a + (b + c) == (a + b) + c
  {
  }

  // ------------------------------------------------------------ merging by sorting

  /** Lexicographic order on pairs. */
  predicate Before(a: Interval, b: Interval) {
    a.lo < b.lo || (a.lo == b.lo && a.hi <= b.hi)
  }

  predicate Ordered(ivs: seq<Interval>) {
    forall i, j :: 0 <= i < j < |ivs| ==> Before(ivs[i], ivs[j])
  }

  function Place(iv: Interval, ivs: seq<Interval>): seq<Interval> {
    if ivs == [] || Before(iv, ivs[0]) then [iv] + ivs else [ivs[0]] + Place(iv, ivs[1..])
  }

  function Sort(ivs: seq<Interval>): seq<Interval> {
    if ivs == [] then [] else Place(ivs[0], Sort(ivs[1..]))
  }

  lemma {:induction false} PlaceCorrect(iv: Interval, ivs: seq<Interval>)
    requires Ordered(ivs)
    ensures Ordered(Place(iv, ivs))
    ensures multiset(Place(iv, ivs)) == multiset{iv} + multiset(ivs)
  {
    PlaceMembers(iv, ivs);
    if ivs != [] && !Before(iv, ivs[0]) {
      var head, rest := ivs[0], ivs[1..];
      assert ivs == [head] + rest;
      PlaceCorrect(iv, rest);
      PlaceMembers(iv, rest);
      OrderedCons(head, Place(iv, rest), iv, rest);
    }
  }

  lemma {:induction false} PlaceMembers(iv: Interval, ivs: seq<Interval>)
    ensures forall y :: y in Place(iv, ivs) ==> y == iv || y in ivs
  {
    if ivs != [] && !Before(iv, ivs[0]) {
      PlaceMembers(iv, ivs[1..]);
    }
  }

  lemma {:induction false} OrderedCons(head: Interval, r: seq<Interval>, iv: Interval, rest: seq<Interval>)
    requires Ordered(r) && Ordered([head] + rest) && Before(head, iv)
    requires forall y :: y in r ==> y == iv || y in rest
    ensures Ordered([head] + r)
  {
    forall i | 0 <= i < |r|
      ensures Before(head, r[i])
    {
      assert r[i] in r;
      if r[i] != iv {
        var k :| 0 <= k < |rest| && rest[k] == r[i];
        assert Before(([head] + rest)[0], ([head] + rest)[k + 1]);
      }
    }
    forall i, j | 0 <= i < j < |[head] + r|
      ensures Before(([head] + r)[i], ([head] + r)[j])
    {
      if i > 0 { assert Before(r[i - 1], r[j - 1]); }
    }
  }

  /** Sorting orders the intervals and keeps exactly the same ones. */
  lemma {:induction false} SortCorrect(ivs: seq<Interval>)
    ensures Ordered(Sort(ivs)) && multiset(Sort(ivs)) == multiset(ivs)
    ensures |Sort(ivs)| == |ivs|
  {
    hide Place, Ordered;
    if ivs != [] {
      SortCorrect(ivs[1..]);
      PlaceCorrect(ivs[0], Sort(ivs[1..]));
      assert ivs == [ivs[0]] + ivs[1..];
    } else {
      NothingOrdered();
    }
    assert |multiset(Sort(ivs))| == |multiset(ivs)|;
  }

  lemma {:induction false} NothingOrdered()
    ensures Ordered([])
  {
  }

  lemma {:induction false} SamePermutation(a: seq<Interval>, b: seq<Interval>)
    requires multiset(a) == multiset(b)
    ensures forall x :: x in a <==> x in b
    ensures SameLines(a, b)
    ensures AllProper(a) ==> AllProper(b)
  {
    forall i | 0 <= i < |a|
      ensures a[i] in b
    {
      assert a[i] in multiset(a);
    }
    forall i | 0 <= i < |b|
      ensures b[i] in a
    {
      assert b[i] in multiset(b);
    }
    forall x
      ensures Covered(a, x) <==> Covered(b, x)
    {
      if Covered(a, x) {
        var i :| 0 <= i < |a| && a[i].Has(x);
        var j :| 0 <= j < |b| && b[j] == a[i];
        assert b[j].Has(x);
      }
      if Covered(b, x) {
        var i :| 0 <= i < |b| && b[i].Has(x);
        var j :| 0 <= j < |a| && a[j] == b[i];
        assert a[j].Has(x);
      }
    }
  }

  /** One step of the fold: the last interval is extended, or the next one appended. */
  function Fold(out: seq<Interval>, iv: Interval): seq<Interval>
    requires out != []
  {
    var last := out[|out| - 1];
    if iv.lo <= last.hi + 1 then out[..|out| - 1] + [Interval(last.lo, Max(last.hi, iv.hi))] else out + [iv]
  }

  /** Folding a sorted list into its first interval. */
  function FoldAll(sorted: seq<Interval>): (r: seq<Interval>)
    requires sorted != []
    ensures r != []
  {
    if |sorted| == 1 then sorted else Fold(FoldAll(sorted[..|sorted| - 1]), sorted[|sorted| - 1])
  }

  /** What merging gives for any list, inverted intervals included. */
  function MergeOf(ivs: seq<Interval>): seq<Interval> {
    if Sort(ivs) == [] then [] else FoldAll(Sort(ivs))
  }

  lemma {:induction false} FoldCorrect(out: seq<Interval>, iv: Interval)
    requires out != [] && out[|out| - 1].lo <= iv.lo
    ensures forall x :: Covered(Fold(out, iv), x) <==> Covered(out, x) || iv.Has(x)
    ensures Canonical(out) && iv.Proper() ==> Canonical(Fold(out, iv))
    ensures Fold(out, iv) != [] && Fold(out, iv)[|Fold(out, iv)| - 1].lo <= iv.lo
  {
    forall x
      ensures Covered(Fold(out, iv), x) <==> Covered(out, x) || iv.Has(x)
    {
      FoldCovers(out, iv, x);
    }
    hide Covered;
    if Canonical(out) && iv.Proper() {
      FoldSpreads(out, iv);
    }
  }

  lemma {:induction false} FoldCovers(out: seq<Interval>, iv: Interval, x: int)
    requires out != [] && out[|out| - 1].lo <= iv.lo
    ensures Covered(Fold(out, iv), x) <==> Covered(out, x) || iv.Has(x)
  {
    hide Covered;
    var init, last := out[..|out| - 1], out[|out| - 1];
    assert out == init + [last];
    CoveredSnoc(init, last, x);
    CoveredSnoc(init, Interval(last.lo, Max(last.hi, iv.hi)), x);
    CoveredSnoc(out, iv, x);
  }

  lemma {:induction false} FoldSpreads(out: seq<Interval>, iv: Interval)
    requires out != [] && Canonical(out) && iv.Proper()
    ensures Canonical(Fold(out, iv))
  {
    var r := Fold(out, iv);
    forall i, j | 0 <= i < j < |r|
      ensures r[i].hi + 1 < r[j].lo
    {
      if i < |out| - 1 {
        assert r[i] == out[i] && out[i].hi + 1 < out[|out| - 1].lo;
      }
    }
  }

  lemma {:induction false} PrefixGrows(ivs: seq<Interval>, k: nat)
    requires k < |ivs|
    ensures forall x :: Covered(ivs[..k + 1], x) <==> Covered(ivs[..k], x) || ivs[k].Has(x)
  {
    assert ivs[..k + 1] == ivs[..k] + [ivs[k]];
    forall x {
      CoveredSnoc(ivs[..k], ivs[k], x);
    }
  }

  /** What holds after folding the first `k` intervals of a sorted list into `out`. */
  ghost predicate Folded(sorted: seq<Interval>, k: nat, out: seq<Interval>) {
    && 1 <= k <= |sorted|
    && out != [] && out[|out| - 1].lo <= sorted[k - 1].lo
    && (forall x :: Covered(out, x) <==> Covered(sorted[..k], x))
    && (AllProper(sorted) ==> Canonical(out))
  }

  lemma {:induction false} FoldStep(sorted: seq<Interval>, k: nat, out: seq<Interval>)
    requires Ordered(sorted) && Folded(sorted, k, out) && k < |sorted|
    ensures Folded(sorted, k + 1, Fold(out, sorted[k]))
  {
    assert Before(sorted[k - 1], sorted[k]);
    FoldCorrect(out, sorted[k]);
    PrefixGrows(sorted, k);
  }

  // ------------------------------------------------------------ when a merge is canonical

  /** An inverted range leaves no trace in a merge when it starts inside or right after a range that
      begins before it, or when it ends right before its own start and a proper range starts there. */
  ghost predicate Absorbed(ivs: seq<Interval>, iv: Interval) {
    || (exists i :: 0 <= i < |ivs| && ivs[i].lo < iv.lo <= ivs[i].hi + 1)
    || (iv.hi == iv.lo - 1 && exists i :: 0 <= i < |ivs| && ivs[i].lo == iv.lo <= ivs[i].hi)
  }

  ghost predicate AllAbsorbed(ivs: seq<Interval>) {
    forall k :: 0 <= k < |ivs| && !ivs[k].Proper() ==> Absorbed(ivs, ivs[k])
  }

  /** The bounds of the result after folding the first `k` intervals of a sorted list into `out`. */
  ghost predicate Bounds(sorted: seq<Interval>, k: nat, out: seq<Interval>) {
    && 1 <= k <= |sorted| && out != []
    && Spread(out)
    && var last := out[|out| - 1];
    && last.lo <= sorted[k - 1].lo
    && (forall m :: 0 <= m < k ==> sorted[m].hi <= last.hi || sorted[m].hi + 1 < last.lo)
    && (last.Proper() ==> exists w :: 0 <= w < k && sorted[w].Proper() && sorted[w].hi == last.hi)
    && (!last.Proper() ==> last in sorted[..k])
  }

  /** Every inverted interval folded so far is absorbed or stands in the result. */
  ghost predicate Accounted(sorted: seq<Interval>, k: nat, out: seq<Interval>) {
    k <= |sorted| && forall m :: 0 <= m < k && !sorted[m].Proper() ==> Absorbed(sorted, sorted[m]) || sorted[m] in out
  }

  /** No interval of the result that is inverted is absorbed; the last one can still be. */
  ghost predicate Remnants(sorted: seq<Interval>, k: nat, out: seq<Interval>) {
    && k <= |sorted| && out != []
    && (forall j :: 0 <= j < |out| - 1 && !out[j].Proper() ==> out[j] in sorted && !Absorbed(sorted, out[j]))
    && var last := out[|out| - 1];
    && (!last.Proper() ==>
          && (forall i :: 0 <= i < |sorted| ==> !(sorted[i].lo < last.lo <= sorted[i].hi + 1))
          && (forall i :: 0 <= i < k ==> !(sorted[i].lo == last.lo <= sorted[i].hi)))
  }

  ghost predicate Traced(sorted: seq<Interval>, k: nat, out: seq<Interval>) {
    Bounds(sorted, k, out) && Accounted(sorted, k, out) && Remnants(sorted, k, out)
  }

  lemma {:induction false} TraceStart(sorted: seq<Interval>)
    requires sorted != [] && Ordered(sorted)
    ensures Traced(sorted, 1, [sorted[0]])
  {
    var out := [sorted[0]];
    assert sorted[0] in sorted[..1] && sorted[0] in out;
    forall i | 0 <= i < |sorted|
      ensures sorted[0].lo <= sorted[i].lo
    {
      if i > 0 { assert Before(sorted[0], sorted[i]); }
    }
  }

  /** Extending the last interval: an inverted last one can only be extended at its own start. */
  lemma {:induction false} ExtendBounds(sorted: seq<Interval>, k: nat, out: seq<Interval>)
    requires Ordered(sorted) && Bounds(sorted, k, out) && k < |sorted|
    requires sorted[k].lo <= out[|out| - 1].hi + 1
    ensures Bounds(sorted, k + 1, Fold(out, sorted[k]))
  {
    var iv, last, r := sorted[k], out[|out| - 1], Fold(out, sorted[k]);
    assert Before(sorted[k - 1], iv);
    assert sorted[..k + 1] == sorted[..k] + [iv];
    if last.hi < iv.hi {
      assert iv.Proper() && r[|r| - 1].hi == sorted[k].hi;
    } else {
      assert r[|r| - 1] == last;
    }
  }

  lemma {:induction false} AppendBounds(sorted: seq<Interval>, k: nat, out: seq<Interval>)
    requires Ordered(sorted) && Bounds(sorted, k, out) && k < |sorted|
    requires sorted[k].lo > out[|out| - 1].hi + 1
    ensures Bounds(sorted, k + 1, Fold(out, sorted[k]))
  {
    var iv := sorted[k];
    assert Before(sorted[k - 1], iv);
    assert sorted[..k + 1] == sorted[..k] + [iv];
  }

  /** An inverted interval that extends the last one is absorbed by it, or is the last one again. */
  lemma {:induction false} ExtendAbsorbs(sorted: seq<Interval>, k: nat, out: seq<Interval>)
    requires Ordered(sorted) && Bounds(sorted, k, out) && k < |sorted|
    requires sorted[k].lo <= out[|out| - 1].hi + 1 && !sorted[k].Proper()
    ensures Absorbed(sorted, sorted[k]) || sorted[k] == out[|out| - 1] == Fold(out, sorted[k])[|out| - 1]
  {
    var iv, last := sorted[k], out[|out| - 1];
    if last.Proper() {
      var w :| 0 <= w < k && sorted[w].Proper() && sorted[w].hi == last.hi;
      assert Before(sorted[w], iv);
      assert sorted[w].lo < iv.lo <= sorted[w].hi + 1;
    } else {
      var v :| 0 <= v < k && sorted[..k][v] == last;
      assert Before(sorted[v], iv) && Before(sorted[k - 1], iv);
    }
  }

  lemma {:induction false} ExtendTrace(sorted: seq<Interval>, k: nat, out: seq<Interval>)
    requires Ordered(sorted) && Traced(sorted, k, out) && k < |sorted|
    requires sorted[k].lo <= out[|out| - 1].hi + 1
    ensures Traced(sorted, k + 1, Fold(out, sorted[k]))
  {
    var iv, last, r := sorted[k], out[|out| - 1], Fold(out, sorted[k]);
    ExtendBounds(sorted, k, out);
    assert Before(sorted[k - 1], iv);
    assert r == out[..|out| - 1] + [r[|r| - 1]];
    forall m | 0 <= m < k + 1 && !sorted[m].Proper()
      ensures Absorbed(sorted, sorted[m]) || sorted[m] in r
    {
      if m == k {
        ExtendAbsorbs(sorted, k, out);
      } else if sorted[m] == last && r[|r| - 1] != last {
        assert sorted[k].lo == sorted[m].lo <= sorted[k].hi;
      } else if sorted[m] in out {
        var j :| 0 <= j < |out| && out[j] == sorted[m];
        assert r[j] == sorted[m];
      }
    }
  }

  /** Once a later start is reached, what stands last is settled. */
  lemma {:induction false} AppendRemnants(sorted: seq<Interval>, k: nat, out: seq<Interval>)
    requires Ordered(sorted) && Bounds(sorted, k, out) && Remnants(sorted, k, out) && k < |sorted|
    requires sorted[k].lo > out[|out| - 1].hi + 1
    ensures Remnants(sorted, k + 1, out + [sorted[k]])
  {
    var iv, last := sorted[k], out[|out| - 1];
    assert Before(sorted[k - 1], iv);
    forall i | k <= i < |sorted|
      ensures iv.lo <= sorted[i].lo
    {
      if i > k { assert Before(sorted[k], sorted[i]); }
    }
    hide Ordered;
    if !last.Proper() {
      assert !Absorbed(sorted, last);
      assert last in sorted by {
        var v :| 0 <= v < k && sorted[..k][v] == last;
        assert sorted[v] == last;
      }
    }
  }

  lemma {:induction false} AppendTrace(sorted: seq<Interval>, k: nat, out: seq<Interval>)
    requires Ordered(sorted) && Traced(sorted, k, out) && k < |sorted|
    requires sorted[k].lo > out[|out| - 1].hi + 1
    ensures Traced(sorted, k + 1, Fold(out, sorted[k]))
  {
    AppendBounds(sorted, k, out);
    AppendRemnants(sorted, k, out);
    var iv, r := sorted[k], out + [sorted[k]];
    hide Bounds, Remnants, Ordered, Absorbed;
    assert iv in r && forall x :: x in out ==> x in r;
  }

  /** The inverted intervals of a result are exactly the inputs that nothing absorbs. */
  ghost predicate KeepsUnabsorbed(ivs: seq<Interval>, out: seq<Interval>) {
    forall iv: Interval :: !iv.Proper() ==> (iv in out <==> iv in ivs && !Absorbed(ivs, iv))
  }

  lemma {:induction false} TraceDone(sorted: seq<Interval>, out: seq<Interval>)
    requires Traced(sorted, |sorted|, out)
    ensures Spread(out) && KeepsUnabsorbed(sorted, out)
    ensures Canonical(out) <==> AllAbsorbed(sorted)
  {
    assert sorted[..|sorted|] == sorted;
    forall iv: Interval | !iv.Proper()
      ensures iv in out <==> iv in sorted && !Absorbed(sorted, iv)
    {
      if iv in out {
        var j :| 0 <= j < |out| && out[j] == iv;
      }
    }
    CanonicalIffAbsorbed(sorted, out);
  }

  lemma {:induction false} CanonicalIffAbsorbed(sorted: seq<Interval>, out: seq<Interval>)
    requires KeepsUnabsorbed(sorted, out) && Bounds(sorted, |sorted|, out)
    ensures Canonical(out) <==> AllAbsorbed(sorted)
  {
    hide Absorbed;
    if AllAbsorbed(sorted) {
      forall j | 0 <= j < |out|
        ensures out[j].Proper()
      {
        assert out[j] in out;
      }
    }
    if Canonical(out) {
      forall m | 0 <= m < |sorted| && !sorted[m].Proper()
        ensures Absorbed(sorted, sorted[m])
      {
        assert sorted[m] in sorted;
      }
    }
  }

  lemma {:induction false} AbsorbedMoves(a: seq<Interval>, b: seq<Interval>, iv: Interval)
    requires (forall x :: x in a ==> x in b) && Absorbed(a, iv)
    ensures Absorbed(b, iv)
  {
    if i :| 0 <= i < |a| && a[i].lo < iv.lo <= a[i].hi + 1 {
      assert a[i] in b;
      var j :| 0 <= j < |b| && b[j] == a[i];
    } else {
      var i :| 0 <= i < |a| && a[i].lo == iv.lo <= a[i].hi;
      assert a[i] in b;
      var j :| 0 <= j < |b| && b[j] == a[i];
    }
  }

  /** The order of the inputs does not matter. */
  lemma {:induction false} SameAbsorbed(a: seq<Interval>, b: seq<Interval>, out: seq<Interval>)
    requires forall x :: x in a <==> x in b
    ensures KeepsUnabsorbed(a, out) ==> KeepsUnabsorbed(b, out)
    ensures AllAbsorbed(a) ==> AllAbsorbed(b)
  {
    forall iv: Interval
      ensures Absorbed(a, iv) <==> Absorbed(b, iv)
    {
      if Absorbed(a, iv) { AbsorbedMoves(a, b, iv); }
      if Absorbed(b, iv) { AbsorbedMoves(b, a, iv); }
    }
    hide Absorbed;
    if AllAbsorbed(a) {
      forall k | 0 <= k < |b| && !b[k].Proper()
        ensures Absorbed(b, b[k])
      {
        assert b[k] in b;
        var j :| 0 <= j < |a| && a[j] == b[k];
      }
    }
  }

  lemma {:induction false} MergeStart(ivs: seq<Interval>)
    ensures ivs == [] ==> Canonical([]) && Merged([]) == [] && AllAbsorbed([]) && SameLines([], [])
    ensures ivs == [] ==> Spread([]) && KeepsUnabsorbed([], [])
    ensures Ordered(Sort(ivs)) && multiset(Sort(ivs)) == multiset(ivs) && |Sort(ivs)| == |ivs|
    ensures ivs != [] ==> Folded(Sort(ivs), 1, [Sort(ivs)[0]]) && Traced(Sort(ivs), 1, [Sort(ivs)[0]])
    ensures MergeOf(ivs) == if ivs == [] then [] else FoldAll(Sort(ivs))
  {
    hide Sort, Traced;
    SortCorrect(ivs);
    if ivs != [] {
      assert Sort(ivs)[..1] == [Sort(ivs)[0]];
      TraceStart(Sort(ivs));
    }
  }

  /** Merging: for any input the same lines are covered; proper intervals come out canonical; an
      inverted interval stays exactly if nothing absorbs it, and so the result is canonical exactly
      when every inverted interval is absorbed. */
  method Merge(ivs: seq<Interval>) returns (out: seq<Interval>)
    ensures out == MergeOf(ivs)
    ensures SameLines(out, ivs)
    ensures AllProper(ivs) ==> out == Merged(ivs) && Canonical(out)
    ensures Spread(out) && KeepsUnabsorbed(ivs, out)
    ensures Canonical(out) <==> AllAbsorbed(ivs)
  {
    hide *;
    MergeStart(ivs);
    if ivs == [] {
      return [];
    }
    var sorted := Sort(ivs);
    out := [sorted[0]];
    FoldAllUnfolds(sorted, 0);
    for k := 1 to |sorted|
      invariant out == FoldAll(sorted[..k])
      invariant Folded(sorted, k, out) && Traced(sorted, k, out)
    {
      var iv := sorted[k];
      FoldAllUnfolds(sorted, k);
      var last := out[|out| - 1];
      FoldStep(sorted, k, out);
      FoldInPlace(out, iv);
      if iv.lo <= last.hi + 1 {
        ExtendTrace(sorted, k, out);
        out := out[|out| - 1 := Interval(last.lo, Max(last.hi, iv.hi))];
      } else {
        AppendTrace(sorted, k, out);
        out := out + [iv];
      }
    }
    assert sorted[..|sorted|] == sorted;
    MergeDone(ivs, sorted, out);
  }

  lemma {:induction false} FoldAllUnfolds(sorted: seq<Interval>, k: nat)
    requires k < |sorted|
    ensures FoldAll(sorted[..1]) == [sorted[0]]
    ensures k >= 1 ==> FoldAll(sorted[..k + 1]) == Fold(FoldAll(sorted[..k]), sorted[k])
  {
    assert sorted[..1] == [sorted[0]];
    if k >= 1 {
      assert sorted[..k + 1][..k] == sorted[..k] && sorted[..k + 1][k] == sorted[k];
    }
  }

  lemma {:induction false} FoldInPlace(out: seq<Interval>, iv: Interval)
    requires out != []
    ensures var last := out[|out| - 1];
      Fold(out, iv) ==
        if iv.lo <= last.hi + 1 then out[|out| - 1 := Interval(last.lo, Max(last.hi, iv.hi))] else out + [iv]
  {
  }

  lemma {:induction false} MergeDone(ivs: seq<Interval>, sorted: seq<Interval>, out: seq<Interval>)
    requires multiset(sorted) == multiset(ivs) && sorted != []
    requires Folded(sorted, |sorted|, out) && Traced(sorted, |sorted|, out)
    ensures SameLines(out, ivs)
    ensures AllProper(ivs) ==> out == Merged(ivs) && Canonical(out)
    ensures Spread(out) && KeepsUnabsorbed(ivs, out)
    ensures Canonical(out) <==> AllAbsorbed(ivs)
  {
    hide Traced, AllAbsorbed, Absorbed, KeepsUnabsorbed;
    SamePermutation(sorted, ivs);
    SamePermutation(ivs, sorted);
    assert sorted[..|sorted|] == sorted;
    if AllProper(ivs) {
      MergedCorrect(ivs);
    }
    TraceDone(sorted, out);
    SameAbsorbed(ivs, sorted, out);
    SameAbsorbed(sorted, ivs, out);
  }

  /** One inverted interval beside a proper one: when it goes, and two lists that show both cases. */
  lemma {:induction false} InvertedSurvives(iv: Interval, inverted: Interval)
    requires iv.Proper() && !inverted.Proper()
    ensures AllAbsorbed([iv, inverted]) <==>
              iv.lo < inverted.lo <= iv.hi + 1 || (inverted.hi == inverted.lo - 1 && inverted.lo == iv.lo)
    ensures !AllAbsorbed([Interval(1, 10), Interval(20, 15)]) && AllAbsorbed([Interval(1, 10), Interval(8, 5)])
  {
    TwoAbsorbed(iv, inverted);
    TwoAbsorbed(Interval(1, 10), Interval(20, 15));
    TwoAbsorbed(Interval(1, 10), Interval(8, 5));
  }

  lemma {:induction false} TwoAbsorbed(iv: Interval, inverted: Interval)
    requires iv.Proper() && !inverted.Proper()
    ensures AllAbsorbed([iv, inverted]) <==>
              iv.lo < inverted.lo <= iv.hi + 1 || (inverted.hi == inverted.lo - 1 && inverted.lo == iv.lo)
  {
    var ivs := [iv, inverted];
    assert ivs[0] == iv && ivs[1] == inverted;
    assert AllAbsorbed(ivs) <==> Absorbed(ivs, inverted);
    if iv.lo < inverted.lo <= iv.hi + 1 {
      assert ivs[0].lo < inverted.lo <= ivs[0].hi + 1;
    } else if inverted.hi == inverted.lo - 1 && inverted.lo == iv.lo {
      assert ivs[0].lo == inverted.lo <= ivs[0].hi;
    }
  }

  // ------------------------------------------------------------ containment

  ghost predicate InOne(ivs: seq<Interval>, t: Interval) {
    exists i :: 0 <= i < |ivs| && ivs[i].Contains(t)
  }

  ghost predicate FullyCovered(ivs: seq<Interval>, t: Interval) {
    forall x :: t.Has(x) ==> Covered(ivs, x)
  }

  /** In a canonical list a range is covered line by line exactly when one interval contains it. */
  lemma {:induction false} CoveredIffInOne(ivs: seq<Interval>, t: Interval)
    requires Canonical(ivs) && t.Proper()
    ensures FullyCovered(ivs, t) <==> InOne(ivs, t)
  {
    if InOne(ivs, t) {
      var i :| 0 <= i < |ivs| && ivs[i].Contains(t);
      forall x | t.Has(x)
        ensures Covered(ivs, x)
      {
        assert ivs[i].Has(x);
      }
    }
    if FullyCovered(ivs, t) {
      assert t.Has(t.lo);
      var i :| 0 <= i < |ivs| && ivs[i].Has(t.lo);
      if ivs[i].hi < t.hi {
        var x := ivs[i].hi + 1;
        assert t.Has(x);
        var j :| 0 <= j < |ivs| && ivs[j].Has(x);
        if i < j { assert ivs[i].hi + 1 < ivs[j].lo; }
        if j < i { assert ivs[j].hi + 1 < ivs[i].lo; }
      } else {
        assert ivs[i].Contains(t);
      }
    }
  }

  /** The early-exit test; the list has to be sorted for the exit to be sound. */
  method IsCovered(intervals: seq<Interval>, target: Interval) returns (r: bool)
    requires Canonical(intervals)
    ensures r == InOne(intervals, target)
  {
    for i := 0 to |intervals|
      invariant forall k :: 0 <= k < i ==> !intervals[k].Contains(target)
    {
      if intervals[i].Contains(target) {
        return true;
      }
      if intervals[i].lo > target.lo {
        forall k | i < k < |intervals|
          ensures !intervals[k].Contains(target)
        {
          assert intervals[i].hi + 1 < intervals[k].lo;
        }
        return false;
      }
    }
    return false;
  }

  /** The full-scan test. */
  method Contained(target: Interval, ivs: seq<Interval>) returns (r: bool)
    ensures r == InOne(ivs, target)
  {
    for i := 0 to |ivs|
      invariant forall k :: 0 <= k < i ==> !ivs[k].Contains(target)
    {
      if ivs[i].Contains(target) {
        return true;
      }
    }
    return false;
  }

  // ------------------------------------------------------------ subtraction

  /** What is left of one piece when an interval is taken away. */
  function CarveOne(piece: Interval, iv: Interval): seq<Interval> {
    if iv.hi < piece.lo || iv.lo > piece.hi then [piece]
    else
      (if iv.lo > piece.lo then [Interval(piece.lo, iv.lo - 1)] else [])
      + (if iv.hi < piece.hi then [Interval(iv.hi + 1, piece.hi)] else [])
  }

  function Carve(pieces: seq<Interval>, iv: Interval): seq<Interval> {
    if pieces == [] then [] else Carve(pieces[..|pieces| - 1], iv) + CarveOne(pieces[|pieces| - 1], iv)
  }

  lemma {:induction false} CarveOneCorrect(piece: Interval, iv: Interval)
    requires piece.Proper() && iv.Proper()
    ensures Canonical(CarveOne(piece, iv))
    ensures forall x :: Covered(CarveOne(piece, iv), x) <==> piece.Has(x) && !iv.Has(x)
    ensures forall k :: 0 <= k < |CarveOne(piece, iv)| ==> piece.Contains(CarveOne(piece, iv)[k])
  {
    var a, b := Interval(piece.lo, iv.lo - 1), Interval(iv.hi + 1, piece.hi);
    var r := CarveOne(piece, iv);
    assert r == [piece] || r == [a, b] || r == [a] || r == [b] || r == [];
    forall x
      ensures Covered(r, x) <==> piece.Has(x) && !iv.Has(x)
    {
      if r == [piece] { CoveredCons(piece, [], x); assert [piece] + [] == [piece]; }
      if r == [a] { CoveredCons(a, [], x); assert [a] + [] == [a]; }
      if r == [b] { CoveredCons(b, [], x); assert [b] + [] == [b]; }
      if r == [a, b] {
        CoveredCons(a, [b], x);
        CoveredCons(b, [], x);
        assert [b] + [] == [b] && [a] + [b] == [a, b];
      }
    }
  }

  lemma {:induction false} CarveCorrect(pieces: seq<Interval>, iv: Interval)
    requires Canonical(pieces) && iv.Proper()
    ensures Canonical(Carve(pieces, iv))
    ensures forall x :: Covered(Carve(pieces, iv), x) <==> Covered(pieces, x) && !iv.Has(x)
    ensures forall k :: 0 <= k < |Carve(pieces, iv)| ==> InOne(pieces, Carve(pieces, iv)[k])
    decreases |pieces|
  {
    if pieces != [] {
      var init, last := pieces[..|pieces| - 1], pieces[|pieces| - 1];
      assert pieces == init + [last];
      CarveCorrect(init, iv);
      CarveOneCorrect(last, iv);
      var a, b := Carve(init, iv), CarveOne(last, iv);
      forall x
        ensures Covered(Carve(pieces, iv), x) <==> Covered(pieces, x) && !iv.Has(x)
      {
        CoveredAppend(a, b, x);
        CoveredSnoc(init, last, x);
      }
      forall k | 0 <= k < |a|
        ensures a[k].hi + 1 < last.lo && InOne(pieces, a[k])
      {
        var i :| 0 <= i < |init| && init[i].Contains(a[k]);
        assert pieces[i] == init[i] && pieces[i].Contains(a[k]);
        assert pieces[i].hi + 1 < pieces[|pieces| - 1].lo;
        assert a[k].hi <= pieces[i].hi;
      }
      forall k | 0 <= k < |b|
        ensures InOne(pieces, b[k]) && last.lo <= b[k].lo
      {
        assert pieces[|pieces| - 1].Contains(b[k]);
      }
      AppendCanonical(a, b, last.lo);
    }
  }

  lemma {:induction false} AppendCanonical(a: seq<Interval>, b: seq<Interval>, boundary: int)
    requires Canonical(a) && Canonical(b)
    requires forall k :: 0 <= k < |a| ==> a[k].hi + 1 < boundary
    requires forall k :: 0 <= k < |b| ==> boundary <= b[k].lo
    ensures Canonical(a + b)
  {
    var r := a + b;
    forall i, j | 0 <= i < j < |r|
      ensures r[i].hi + 1 < r[j].lo
    {
      if j < |a| { assert a[i].hi + 1 < a[j].lo; }
      if i >= |a| { assert b[i - |a|].hi + 1 < b[j - |a|].lo; }
    }
  }

  lemma {:induction false} PrefixWithin(ivs: seq<Interval>, k: nat)
    requires k <= |ivs|
    ensures forall x :: Covered(ivs[..k], x) ==> Covered(ivs, x)
  {
    forall x | Covered(ivs[..k], x)
      ensures Covered(ivs, x)
    {
      var i :| 0 <= i < k && ivs[..k][i].Has(x);
      assert ivs[i].Has(x);
    }
  }

  /** What holds after taking the first `i` intervals away from the target. */
  ghost predicate Carved(target: Interval, ivs: seq<Interval>, i: nat, out: seq<Interval>) {
    && i <= |ivs|
    && Canonical(out)
    && forall x :: Covered(out, x) <==> target.Has(x) && !Covered(ivs[..i], x)
  }

  lemma {:induction false} CarveStart(target: Interval, ivs: seq<Interval>)
    requires target.Proper()
    ensures Carved(target, ivs, 0, [target])
  {
    forall x {
      CoveredSnoc([], target, x);
    }
    assert [] + [target] == [target];
  }

  lemma {:induction false} CarveStep(target: Interval, ivs: seq<Interval>, i: nat, out: seq<Interval>)
    requires AllProper(ivs) && i < |ivs| && Carved(target, ivs, i, out)
    ensures Carved(target, ivs, i + 1, Carve(out, ivs[i]))
  {
    CarveCorrect(out, ivs[i]);
    PrefixGrows(ivs, i);
  }

  ghost predicate IsDifference(target: Interval, ivs: seq<Interval>, out: seq<Interval>) {
    && Canonical(out)
    && (forall x :: Covered(out, x) <==> target.Has(x) && !Covered(ivs, x))
    && (forall k :: 0 <= k < |out| ==> target.Contains(out[k]))
  }

  lemma {:induction false} CarveDone(target: Interval, ivs: seq<Interval>, i: nat, out: seq<Interval>)
    requires Carved(target, ivs, i, out) && (i == |ivs| || out == [])
    ensures IsDifference(target, ivs, out)
  {
    assert ivs[..|ivs|] == ivs;
    PrefixWithin(ivs, i);
    forall x
      ensures Covered(out, x) <==> target.Has(x) && !Covered(ivs, x)
    {
    }
    WithinTarget(out, target);
  }

  /** Subtraction: the canonical list of exactly the lines of the target that are not covered. */
  method Subtract(target: Interval, ivs: seq<Interval>) returns (out: seq<Interval>)
    requires target.Proper() && AllProper(ivs)
    ensures IsDifference(target, ivs, out)
  {
    hide *;
    out := [target];
    CarveStart(target, ivs);
    for i := 0 to |ivs|
      invariant Carved(target, ivs, i, out)
    {
      var iv := ivs[i];
      var remaining: seq<Interval> := [];
      CarveUnfold(out, 0, iv);
      for j := 0 to |out|
        invariant remaining == Carve(out[..j], iv)
      {
        var piece := out[j];
        CarveUnfold(out, j, iv);
        PiecesUnfold(remaining, piece, iv);
        if iv.hi < piece.lo || iv.lo > piece.hi {
          remaining := remaining + [piece];
          continue;
        }
        if iv.lo > piece.lo {
          remaining := remaining + [Interval(piece.lo, iv.lo - 1)];
        }
        if iv.hi < piece.hi {
          remaining := remaining + [Interval(iv.hi + 1, piece.hi)];
        }
      }
      assert out[..|out|] == out;
      CarveStep(target, ivs, i, out);
      out := remaining;
      if out == [] {
        CarveDone(target, ivs, i + 1, out);
        return;
      }
    }
    CarveDone(target, ivs, |ivs|, out);
  }

  lemma {:induction false} CarveUnfold(out: seq<Interval>, j: nat, iv: Interval)
    requires j <= |out|
    ensures Carve(out[..0], iv) == []
    ensures j < |out| ==>
      Carve(out[..j + 1], iv) == WithPieces(Carve(out[..j], iv), out[j], iv)
  {
    if j < |out| {
      assert out[..j + 1][..j] == out[..j] && out[..j + 1][j] == out[j];
      hide Carve;
      var kept := Carve(out[..j], iv);
      Prepend(kept, [Interval(out[j].lo, iv.lo - 1)], [Interval(iv.hi + 1, out[j].hi)]);
      EmptyPieces(kept, Interval(out[j].lo, iv.lo - 1), Interval(iv.hi + 1, out[j].hi));
    }
  }

  /** The pieces kept so far, followed by what is left of one more. */
  function WithPieces(kept: seq<Interval>, piece: Interval, iv: Interval): seq<Interval> {
    if iv.hi < piece.lo || iv.lo > piece.hi then kept + [piece]
    else
      var kept' := if iv.lo > piece.lo then kept + [Interval(piece.lo, iv.lo - 1)] else kept;
      if iv.hi < piece.hi then kept' + [Interval(iv.hi + 1, piece.hi)] else kept'
  }

  lemma {:induction false} PiecesUnfold(kept: seq<Interval>, piece: Interval, iv: Interval)
    ensures WithPieces(kept, piece, iv) ==
      if iv.hi < piece.lo || iv.lo > piece.hi then kept + [piece]
      else
        (if iv.lo > piece.lo then kept + [Interval(piece.lo, iv.lo - 1)] else kept)
        + if iv.hi < piece.hi then [Interval(iv.hi + 1, piece.hi)] else []
  {
    assert forall k: seq<Interval> :: k + [] == k;
  }

  lemma {:induction false} EmptyPieces(kept: seq<Interval>, a: Interval, b: Interval)
    ensures kept + ([] + []) == kept && kept + ([a] + []) == kept + [a] && kept + ([] + [b]) == kept + [b]
  {
  }

  lemma {:induction false} WithinTarget(out: seq<Interval>, target: Interval)
    requires AllProper(out) && forall x :: Covered(out, x) ==> target.Has(x)
    ensures forall k :: 0 <= k < |out| ==> target.Contains(out[k])
  {
    forall k | 0 <= k < |out|
      ensures target.Contains(out[k])
    {
      assert out[k].Has(out[k].lo) && out[k].Has(out[k].hi);
      assert Covered(out, out[k].lo) && Covered(out, out[k].hi);
    }
  }

  /** On canonical coverage the four ways of asking are one: line by line, one containing interval
      (what both tests compute), and nothing left after subtraction. */
  lemma {:induction false} CoverageTestsAgree(ivs: seq<Interval>, t: Interval, left: seq<Interval>)
    requires Canonical(ivs) && t.Proper() && IsDifference(t, ivs, left)
    ensures InOne(ivs, t) <==> FullyCovered(ivs, t)
    ensures left == [] <==> FullyCovered(ivs, t)
  {
    CoveredIffInOne(ivs, t);
    if left != [] {
      assert left[0].Has(left[0].lo);
      assert Covered(left, left[0].lo);
    }
  }
}
