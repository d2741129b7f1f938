/** Where follow-up reads land relative to the first one, and the coverage figures of a group of
    reads: regions, covered lines, span, gaps and lines gained. */
module SelectorReads {
  import opened Options
  import opened Intervals

  // ------------------------------------------------------------ counting lines

  function Range(iv: Interval): set<int> {
    set x: int | iv.lo <= x <= iv.hi && iv.Has(x)
  }

  /** The lines a list covers, as a finite set. */
  function LineSet(ivs: seq<Interval>): set<int> {
    if ivs == [] then {} else LineSet(ivs[..|ivs| - 1]) + Range(ivs[|ivs| - 1])
  }

  function TotalSize(ivs: seq<Interval>): int {
    if ivs == [] then 0 else TotalSize(ivs[..|ivs| - 1]) + (ivs[|ivs| - 1].hi - ivs[|ivs| - 1].lo + 1)
  }

  lemma {:induction false} RangeSize(iv: Interval)
    requires iv.lo <= iv.hi + 1
    ensures |Range(iv)| == iv.hi - iv.lo + 1
    decreases iv.hi - iv.lo + 1
  {
    if iv.lo <= iv.hi {
      var rest := Interval(iv.lo, iv.hi - 1);
      RangeSize(rest);
      assert Range(iv) == Range(rest) + {iv.hi};
    } else {
      assert Range(iv) == {};
    }
  }

  lemma {:induction false} InLineSet(ivs: seq<Interval>, x: int)
    ensures x in LineSet(ivs) <==> Covered(ivs, x)
    decreases |ivs|
  {
    if ivs != [] {
      var init, last := ivs[..|ivs| - 1], ivs[|ivs| - 1];
      assert ivs == init + [last];
      InLineSet(init, x);
      CoveredSnoc(init, last, x);
    }
  }

  lemma {:induction false} SameLineSet(a: seq<Interval>, b: seq<Interval>)
    requires SameLines(a, b)
    ensures LineSet(a) == LineSet(b)
  {
    forall x
      ensures x in LineSet(a) <==> x in LineSet(b)
    {
      InLineSet(a, x);
      InLineSet(b, x);
    }
  }

  /** The sizes of spread-out intervals add up to the number of distinct lines, unless one of them
      ends more than a line before it begins: then they fall short. */
  lemma {:induction false} SpreadSize(ivs: seq<Interval>)
    requires Spread(ivs)
    ensures TotalSize(ivs) <= |LineSet(ivs)|
    ensures TotalSize(ivs) == |LineSet(ivs)| <==> forall i :: 0 <= i < |ivs| ==> ivs[i].lo <= ivs[i].hi + 1
    decreases |ivs|
  {
    if ivs != [] {
      var init, last := ivs[..|ivs| - 1], ivs[|ivs| - 1];
      SpreadSize(init);
      if last.lo <= last.hi + 1 { RangeSize(last); } else { assert Range(last) == {}; }
      forall x | x in LineSet(init)
        ensures x !in Range(last)
      {
        InLineSet(init, x);
        var i :| 0 <= i < |init| && init[i].Has(x);
        assert ivs[i].hi + 1 < ivs[|ivs| - 1].lo;
      }
      assert LineSet(init) * Range(last) == {};
      assert forall i :: 0 <= i < |init| ==> init[i] == ivs[i];
    }
  }

  // ------------------------------------------------------------ classifying a follow-up

  datatype Position = Inside | GapAbove | GapBelow | Forward | Backward | Both

  function ClassifyFollowup(f: Interval, init: Interval): Position {
    if f.lo >= init.lo && f.hi <= init.hi then Inside
    else if f.lo > init.hi + 1 then GapAbove
    else if f.hi < init.lo - 1 then GapBelow
    else if f.hi > init.hi && f.lo >= init.lo then Forward
    else if f.lo < init.lo && f.hi <= init.hi then Backward
    else Both
  }

  /** The shape a label announces for the merge of the first read and the follow-up. */
  predicate HasShape(p: Position, m: seq<Interval>, f: Interval, init: Interval) {
    match p
    case Inside => m == [init]
    case GapAbove => m == [init, f]
    case GapBelow => m == [f, init]
    case Forward => |m| == 1 && m[0].lo == init.lo && m[0].hi > init.hi
    case Backward => |m| == 1 && m[0].lo < init.lo && m[0].hi == init.hi
    case Both => |m| == 1 && m[0].lo < init.lo && m[0].hi > init.hi
  }

  /** The six labels are exactly the six shapes that merging the two ranges can take, for any
      follow-up but one: an inverted one labelled inside that the first range does not absorb. */
  lemma {:induction false} ClassifyIsMergeShape(f: Interval, init: Interval)
    requires init.Proper()
    ensures HasShape(ClassifyFollowup(f, init), MergeOf([init, f]), f, init) <==>
              f.Proper() || f.lo < init.lo || f.hi > init.hi || init.lo < f.lo <= init.hi + 1
              || (f.hi == f.lo - 1 && f.lo == init.lo)
    ensures f.Proper() ==>
              forall p :: HasShape(p, MergeOf([init, f]), f, init) <==> p == ClassifyFollowup(f, init)
  {
    MergeOfTwo(init, f);
  }

  lemma {:induction false} MergeOfTwo(a: Interval, b: Interval)
    ensures MergeOf([a, b]) ==
              var first, second := if Before(a, b) then a else b, if Before(a, b) then b else a;
              if second.lo <= first.hi + 1 then [Interval(first.lo, Max(first.hi, second.hi))] else [first, second]
  {
    assert [a, b][1..] == [b] && [b][1..] == [];
    assert Sort([b]) == [b] by { assert Sort([]) == [] && [b] + [] == [b]; }
    assert [b][1..] == [] && Place(a, []) == [a];
    var sorted := Sort([a, b]);
    assert sorted == if Before(a, b) then [a, b] else [b, a];
    assert sorted[..1] == [sorted[0]];
    assert FoldAll(sorted) == Fold([sorted[0]], sorted[1]);
  }

  // ------------------------------------------------------------ the figures of one group

  datatype ReadKind = RangeRead | DefaultRead | RawRead | ConflictsRead | OtherRead

  datatype Followup = Followup(kind: ReadKind, lines: Option<Interval>) {
    /** Only ranges and first-page reads have known lines. */
    predicate Bounded() { (kind == RangeRead || kind == DefaultRead) && lines.Some? }
  }

  function BoundedLines(followups: seq<Followup>): seq<Interval> {
    if followups == [] then []
    else
      var last := followups[|followups| - 1];
      BoundedLines(followups[..|followups| - 1]) + if last.Bounded() then [last.lines.value] else []
  }

  function Positions(init: Interval, ivs: seq<Interval>): multiset<Position> {
    if ivs == [] then multiset{}
    else Positions(init, ivs[..|ivs| - 1]) + multiset{ClassifyFollowup(ivs[|ivs| - 1], init)}
  }

  lemma {:induction false} BoundedGrows(init: Interval, followups: seq<Followup>, i: nat)
    requires i <= |followups|
    ensures BoundedLines(followups[..0]) == [] && Positions(init, []) == multiset{}
    ensures i < |followups| ==>
      var soFar, f := BoundedLines(followups[..i]), followups[i];
      && (f.Bounded() ==> f.lines.Some?)
      && BoundedLines(followups[..i + 1]) == (if f.Bounded() then soFar + [f.lines.value] else soFar)
      && (f.Bounded() ==>
            Positions(init, soFar + [f.lines.value])
              == Positions(init, soFar) + multiset{ClassifyFollowup(f.lines.value, init)})
  {
    if i < |followups| {
      var soFar, f := BoundedLines(followups[..i]), followups[i];
      assert followups[..i + 1][..i] == followups[..i] && followups[..i + 1][i] == f;
      if f.Bounded() {
        assert (soFar + [f.lines.value])[..|soFar|] == soFar;
      }
    }
  }

  /** The reads whose lines count are the ranges and first pages with known lines, all of them, in order. */
  lemma {:induction false} BoundedLinesAre(followups: seq<Followup>) returns (kept: seq<nat>)
    ensures |BoundedLines(followups)| == |kept|
    ensures forall k :: 0 <= k < |kept| ==>
      kept[k] < |followups| && followups[kept[k]].lines == Some(BoundedLines(followups)[k])
    ensures forall k, l :: 0 <= k < l < |kept| ==> kept[k] < kept[l]
    ensures forall i :: 0 <= i < |followups| ==>
      (i in kept <==> followups[i].kind in {RangeRead, DefaultRead} && followups[i].lines.Some?)
  {
    if followups == [] {
      kept := [];
    } else {
      var n := |followups| - 1;
      var front := followups[..n];
      kept := BoundedLinesAre(front);
      var before := BoundedLines(front);
      assert BoundedLines(followups) == before + if followups[n].Bounded() then [followups[n].lines.value] else [];
      hide BoundedLines;
      forall k | 0 <= k < |kept|
        ensures kept[k] < n && followups[kept[k]] == front[kept[k]]
      {
      }
      forall i | 0 <= i < n
        ensures front[i] == followups[i]
      {
      }
      if followups[n].Bounded() {
        assert n !in kept;
        kept := kept + [n];
      }
    }
  }

  datatype Figures = Figures(
    intervals: seq<Interval>, regions: nat, covered: int, span: int, gapLines: int, extraLines: int,
    positions: multiset<Position>)

  /** The smallest range around a canonical list. */
  function Box(ivs: seq<Interval>): Interval
    requires ivs != []
  {
    Interval(ivs[0].lo, ivs[|ivs| - 1].hi)
  }

  /** What the figures of a group say. The merged ranges have the lines of all reads; their sizes add
      up to the number of those lines exactly if every range that ends more than a line before it
      begins is absorbed; and if every inverted range is, span and gaps count what they should, and so
      does the gain unless the first read ends more than a line before it begins. */
  ghost predicate CountsLines(r: Figures, all: seq<Interval>, init: Interval) {
    && r.intervals == MergeOf(all) && r.intervals != [] && SameLines(r.intervals, all)
    && r.regions == |r.intervals|
    && r.covered <= |LineSet(all)|
    && (r.covered == |LineSet(all)| <==> forall iv :: iv in all && iv.hi + 1 < iv.lo ==> Absorbed(all, iv))
    && (AllAbsorbed(all) ==>
          && Canonical(r.intervals)
          && r.span == |Range(Box(r.intervals))|
          && r.gapLines == |Range(Box(r.intervals)) - LineSet(all)|
          && (r.extraLines == |LineSet(all) - Range(init)| <==> init.lo <= init.hi + 1))
  }

  method Analyze(init: Interval, followups: seq<Followup>) returns (r: Figures)
    ensures CountsLines(r, [init] + BoundedLines(followups), init)
    ensures r.positions == Positions(init, BoundedLines(followups))
  {
    hide *;
    AnalyzeStart(init, followups);
    var intervals := [init];
    var positions: multiset<Position> := multiset{};
    for i := 0 to |followups|
      invariant intervals == [init] + BoundedLines(followups[..i])
      invariant positions == Positions(init, BoundedLines(followups[..i]))
    {
      var f := followups[i];
      BoundedGrows(init, followups, i);
      if !f.Bounded() {
        continue;
      }
      positions := positions + multiset{ClassifyFollowup(f.lines.value, init)};
      Prepend([init], BoundedLines(followups[..i]), [f.lines.value]);
      intervals := intervals + [f.lines.value];
    }
    assert followups[..|followups|] == followups;
    var merged := Merge(intervals);
    MergedNonEmpty(intervals, merged);
    var covered := 0;
    for i := 0 to |merged|
      invariant covered == TotalSize(merged[..i])
    {
      SizeGrows(merged, i);
      covered := covered + (merged[i].hi - merged[i].lo + 1);
    }
    assert merged[..|merged|] == merged;
    var initSize := init.hi - init.lo + 1;
    var box := Box(merged);
    var span := box.hi - box.lo + 1;
    var gapLines := span - covered;
    var extraLines := Max(0, covered - initSize);
    r := Figures(merged, |merged|, covered, span, gapLines, extraLines, positions);
    FiguresCount(intervals, init, r);
  }

  lemma {:induction false} AnalyzeStart(init: Interval, followups: seq<Followup>)
    ensures [init] == [init] + BoundedLines(followups[..0])
    ensures Positions(init, BoundedLines(followups[..0])) == multiset{} && TotalSize([]) == 0
  {
  }

  lemma {:induction false} SizeGrows(merged: seq<Interval>, i: nat)
    requires i < |merged|
    ensures TotalSize(merged[..0]) == 0
    ensures TotalSize(merged[..i + 1]) == TotalSize(merged[..i]) + (merged[i].hi - merged[i].lo + 1)
  {
    assert merged[..i + 1][..i] == merged[..i] && merged[..i + 1][i] == merged[i];
  }

  lemma {:induction false} MergedNonEmpty(all: seq<Interval>, merged: seq<Interval>)
    requires all != [] && merged == MergeOf(all)
    ensures merged != []
  {
    SortCorrect(all);
  }

  lemma {:induction false} FiguresCount(all: seq<Interval>, init: Interval, r: Figures)
    requires all != [] && all[0] == init && r.intervals == MergeOf(all) && r.intervals != []
    requires SameLines(r.intervals, all) && Spread(r.intervals) && KeepsUnabsorbed(all, r.intervals)
    requires Canonical(r.intervals) <==> AllAbsorbed(all)
    requires r.regions == |r.intervals| && r.covered == TotalSize(r.intervals)
    requires r.span == Box(r.intervals).hi - Box(r.intervals).lo + 1 && r.gapLines == r.span - r.covered
    requires r.extraLines == Max(0, r.covered - (init.hi - init.lo + 1))
    ensures CountsLines(r, all, init)
  {
    hide LineSet, TotalSize, MergeOf, Absorbed;
    SpreadSize(r.intervals);
    SameLineSet(r.intervals, all);
    ShortRanges(all, r.intervals);
    if AllAbsorbed(all) {
      assert forall i :: 0 <= i < |r.intervals| ==> r.intervals[i].Proper();
      BoxCounts(all, r.intervals);
      GainCounts(all, init);
    }
  }

  /** Which results of a merge are shorter than adjacent. */
  lemma {:induction false} ShortRanges(all: seq<Interval>, merged: seq<Interval>)
    requires KeepsUnabsorbed(all, merged)
    ensures (forall i :: 0 <= i < |merged| ==> merged[i].lo <= merged[i].hi + 1) <==>
              (forall iv :: iv in all && iv.hi + 1 < iv.lo ==> Absorbed(all, iv))
  {
    hide Absorbed;
    if forall i :: 0 <= i < |merged| ==> merged[i].lo <= merged[i].hi + 1 {
      forall iv | iv in all && iv.hi + 1 < iv.lo
        ensures Absorbed(all, iv)
      {
        assert !iv.Proper() && iv !in merged;
      }
    } else {
      var i :| 0 <= i < |merged| && merged[i].lo > merged[i].hi + 1;
      assert !merged[i].Proper() && merged[i] in merged;
    }
  }

  lemma {:induction false} BoxCounts(all: seq<Interval>, merged: seq<Interval>)
    requires Canonical(merged) && merged != [] && SameLines(merged, all)
    ensures Box(merged).hi - Box(merged).lo + 1 == |Range(Box(merged))|
    ensures |Range(Box(merged))| - |LineSet(all)| == |Range(Box(merged)) - LineSet(all)|
  {
    SameLineSet(merged, all);
    BoxAround(merged);
    RangeSize(Box(merged));
    SubsetDifference(Range(Box(merged)), LineSet(all));
  }

  lemma {:induction false} GainCounts(all: seq<Interval>, init: Interval)
    requires all != [] && all[0] == init
    ensures Max(0, |LineSet(all)| - (init.hi - init.lo + 1)) == |LineSet(all) - Range(init)| <==> init.lo <= init.hi + 1
  {
    hide LineSet;
    forall x | x in Range(init)
      ensures x in LineSet(all)
    {
      assert all[0].Has(x);
      InLineSet(all, x);
    }
    SubsetDifference(LineSet(all), Range(init));
    if init.lo <= init.hi + 1 { RangeSize(init); } else { assert Range(init) == {}; }
  }

  lemma {:induction false} BoxAround(merged: seq<Interval>)
    requires Canonical(merged) && merged != []
    ensures Box(merged).Proper() && LineSet(merged) <= Range(Box(merged))
  {
    var n := |merged| - 1;
    assert merged[0].Proper() && merged[n].Proper() && (n > 0 ==> merged[0].hi + 1 < merged[n].lo);
    forall x | x in LineSet(merged)
      ensures x in Range(Box(merged))
    {
      InLineSet(merged, x);
      var i :| 0 <= i < |merged| && merged[i].Has(x);
      assert (i > 0 ==> merged[0].hi + 1 < merged[i].lo) && (i < n ==> merged[i].hi + 1 < merged[n].lo);
    }
  }

  lemma {:induction false} SubsetDifference(a: set<int>, b: set<int>)
    requires b <= a
    ensures |a - b| == |a| - |b|
  {
    assert a == (a - b) + b;
  }

  lemma {:induction false} PositionsInclude(init: Interval, ivs: seq<Interval>)
    ensures forall p :: p in Positions(init, ivs) <==> exists i :: 0 <= i < |ivs| && ClassifyFollowup(ivs[i], init) == p
    ensures |Positions(init, ivs)| == |ivs|
    decreases |ivs|
  {
    if ivs != [] {
      var rest := ivs[..|ivs| - 1];
      PositionsInclude(init, rest);
      forall p
        ensures p in Positions(init, ivs) <==> exists i :: 0 <= i < |ivs| && ClassifyFollowup(ivs[i], init) == p
      {
        if p in Positions(init, rest) {
          var i :| 0 <= i < |rest| && ClassifyFollowup(rest[i], init) == p;
          assert ivs[i] == rest[i];
        }
        if i :| 0 <= i < |ivs| && ClassifyFollowup(ivs[i], init) == p {
          if i < |rest| { assert rest[i] == ivs[i]; }
        }
      }
    }
  }

  lemma {:induction false} InsideIsWithin(f: Interval, init: Interval)
    ensures ClassifyFollowup(f, init) == Inside <==> init.Contains(f)
  {
  }

  lemma {:induction false} AllPositionsInside(init: Interval, ivs: seq<Interval>)
    ensures (forall p :: p in Positions(init, ivs) ==> p == Inside) <==>
              forall i :: 0 <= i < |ivs| ==> ClassifyFollowup(ivs[i], init) == Inside
  {
    PositionsInclude(init, ivs);
    hide Positions, ClassifyFollowup;
    if forall p :: p in Positions(init, ivs) ==> p == Inside {
      forall i | 0 <= i < |ivs|
        ensures ClassifyFollowup(ivs[i], init) == Inside
      {
        assert ClassifyFollowup(ivs[i], init) in Positions(init, ivs);
      }
    }
  }

  /** A group gains no line exactly when every follow-up with lines is labelled inside, and every
      bounded follow-up is labelled once; an inverted one brings no lines, whatever its label. */
  lemma {:induction false} NoGainIffAllInside(init: Interval, ivs: seq<Interval>)
    ensures |LineSet([init] + ivs) - Range(init)| == 0 <==>
              forall i :: 0 <= i < |ivs| && ivs[i].Proper() ==> ClassifyFollowup(ivs[i], init) == Inside
    ensures AllProper(ivs) ==>
              (|LineSet([init] + ivs) - Range(init)| == 0 <==> forall p :: p in Positions(init, ivs) ==> p == Inside)
    ensures |Positions(init, ivs)| == |ivs|
  {
    PositionsInclude(init, ivs);
    AllPositionsInside(init, ivs);
    hide Positions, LineSet, ClassifyFollowup;
    var all := [init] + ivs;
    var gained := LineSet(all) - Range(init);
    if forall i :: 0 <= i < |ivs| && ivs[i].Proper() ==> ClassifyFollowup(ivs[i], init) == Inside {
      forall x | x in LineSet(all)
        ensures x in Range(init)
      {
        InLineSet(all, x);
        CoveredCons(init, ivs, x);
        if !init.Has(x) {
          var i :| 0 <= i < |ivs| && ivs[i].Has(x);
          InsideIsWithin(ivs[i], init);
        }
      }
      assert gained == {};
    } else {
      var i :| 0 <= i < |ivs| && ivs[i].Proper() && ClassifyFollowup(ivs[i], init) != Inside;
      InsideIsWithin(ivs[i], init);
      var x := if ivs[i].lo < init.lo then ivs[i].lo else ivs[i].hi;
      assert ivs[i].Has(x);
      assert all[i + 1].Has(x);
      InLineSet(all, x);
      assert x in gained;
    }
  }
}
