/** The Pareto sweep over simulation results: lower tokens and lower calls are better. */
module Pareto {
  import opened Options

  datatype ReplayResult = ReplayResult(tokens: real, calls: nat, truncations: nat)

  /** No worse on both axes. */
  predicate Dominates(a: ReplayResult, b: ReplayResult) {
    a.tokens <= b.tokens && a.calls <= b.calls
  }

  predicate StrictlyDominates(a: ReplayResult, b: ReplayResult) {
    Dominates(a, b) && (a.tokens < b.tokens || a.calls < b.calls)
  }

  /** Within the truncation budget and, when there is one, the token budget. */
  predicate Eligible(r: ReplayResult, maxTruncations: nat, maxTokens: Option<real>) {
    r.truncations <= maxTruncations && (maxTokens.Some? ==> r.tokens <= maxTokens.value)
  }

  predicate Before(a: ReplayResult, b: ReplayResult) {
    a.tokens < b.tokens || (a.tokens == b.tokens && a.calls <= b.calls)
  }

  predicate Ordered(rs: seq<ReplayResult>) {
    forall i, j :: 0 <= i < j < |rs| ==> Before(rs[i], rs[j])
  }

  /** Inserting after every result that sorts before or level with it keeps the sort stable. */
  function Place(rs: seq<ReplayResult>, r: ReplayResult): seq<ReplayResult> {
    if rs == [] || Before(rs[|rs| - 1], r) then rs + [r]
    else Place(rs[..|rs| - 1], r) + [rs[|rs| - 1]]
  }

  function Sort(rs: seq<ReplayResult>): seq<ReplayResult> {
    if rs == [] then [] else Place(Sort(rs[..|rs| - 1]), rs[|rs| - 1])
  }

  lemma {:induction false} PlaceCorrect(rs: seq<ReplayResult>, r: ReplayResult)
    requires Ordered(rs)
    ensures Ordered(Place(rs, r))
    ensures forall x :: x in Place(rs, r) <==> x in rs || x == r
    decreases |rs|
  {
    if rs != [] {
      var init, last := rs[..|rs| - 1], rs[|rs| - 1];
      assert rs == init + [last];
      if !Before(last, r) {
        PlaceCorrect(init, r);
        var p := Place(init, r);
        forall i | 0 <= i < |p|
          ensures Before(p[i], last)
        {
          assert p[i] in p;
          if p[i] != r {
            var k :| 0 <= k < |init| && init[k] == p[i];
            assert Before(rs[k], rs[|rs| - 1]);
          }
        }
      } else {
        forall i | 0 <= i < |rs|
          ensures Before(rs[i], r)
        {
          if i < |rs| - 1 { assert Before(rs[i], rs[|rs| - 1]); }
        }
      }
    }
  }

  lemma {:induction false} SortCorrect(rs: seq<ReplayResult>)
    ensures Ordered(Sort(rs))
    ensures forall x :: x in Sort(rs) <==> x in rs
    decreases |rs|
  {
    if rs != [] {
      SortCorrect(rs[..|rs| - 1]);
      PlaceCorrect(Sort(rs[..|rs| - 1]), rs[|rs| - 1]);
      assert rs == rs[..|rs| - 1] + [rs[|rs| - 1]];
    }
  }

  predicate IsStaircase(frontier: seq<ReplayResult>) {
    forall i, j :: 0 <= i < j < |frontier| ==>
      frontier[i].tokens < frontier[j].tokens && frontier[i].calls > frontier[j].calls
  }

  ghost predicate Matched(frontier: seq<ReplayResult>, r: ReplayResult) {
    exists f :: f in frontier && Dominates(f, r)
  }

  ghost predicate Seen(clean: seq<ReplayResult>, i: nat, f: ReplayResult)
    requires i <= |clean|
  {
    exists k :: 0 <= k < i && clean[k] == f
  }

  /** The sweep's variables after the first `i` sorted results: the frontier is a staircase of
      results already seen, its lowest call count is the best so far, and it matches what was seen. */
  ghost predicate Swept(clean: seq<ReplayResult>, i: nat, frontier: seq<ReplayResult>, bestCalls: Option<nat>) {
    && i <= |clean|
    && IsStaircase(frontier)
    && (forall j :: 0 <= j < |frontier| ==> Seen(clean, i, frontier[j]))
    && (forall k :: 0 <= k < i ==> Matched(frontier, clean[k]))
    && (if frontier == [] then bestCalls == None else bestCalls == Some(frontier[|frontier| - 1].calls))
  }

  lemma {:induction false} SweepStep(clean: seq<ReplayResult>, i: nat, frontier: seq<ReplayResult>,
                                     bestCalls: Option<nat>)
    requires Ordered(clean) && i < |clean| && Swept(clean, i, frontier, bestCalls)
    ensures var r := clean[i];
      if bestCalls.None? || r.calls < bestCalls.value then Swept(clean, i + 1, frontier + [r], Some(r.calls))
      else Swept(clean, i + 1, frontier, bestCalls)
  {
    hide Seen, Before, IsStaircase, Ordered;
    var r := clean[i];
    SeenStays(clean, i, frontier);
    if bestCalls.None? || r.calls < bestCalls.value {
      if frontier != [] {
        LastIsLowest(frontier, r);
      }
      MatchesMore(frontier, r, clean, i);
      assert IsStaircase(frontier + [r]) by { if frontier == [] { StaircaseOne(r); } }
      hide Matched;
    } else {
      var last := frontier[|frontier| - 1];
      assert last in frontier && Dominates(last, r);
    }
  }

  lemma {:induction false} StaircaseOne(r: ReplayResult)
    ensures IsStaircase([] + [r])
  {
  }

  lemma {:induction false} SeenStays(clean: seq<ReplayResult>, i: nat, frontier: seq<ReplayResult>)
    requires Ordered(clean) && i < |clean| && forall j :: 0 <= j < |frontier| ==> Seen(clean, i, frontier[j])
    ensures forall j :: 0 <= j < |frontier| ==> Seen(clean, i + 1, frontier[j]) && Before(frontier[j], clean[i])
    ensures forall j :: 0 <= j < |frontier| ==> frontier[j].tokens <= clean[i].tokens
    ensures forall j :: 0 <= j < |frontier + [clean[i]]| ==> Seen(clean, i + 1, (frontier + [clean[i]])[j])
  {
    assert Seen(clean, i + 1, clean[i]);
    forall j | 0 <= j < |frontier|
      ensures Seen(clean, i + 1, frontier[j]) && Before(frontier[j], clean[i])
    {
      assert Seen(clean, i, frontier[j]);
      var k :| 0 <= k < i && clean[k] == frontier[j];
      assert Before(clean[k], clean[i]);
    }
  }

  lemma {:induction false} MatchesMore(frontier: seq<ReplayResult>, r: ReplayResult, clean: seq<ReplayResult>, i: nat)
    requires i < |clean| && r == clean[i] && forall k :: 0 <= k < i ==> Matched(frontier, clean[k])
    ensures forall k :: 0 <= k <= i ==> Matched(frontier + [r], clean[k])
  {
    var next := frontier + [r];
    forall k | 0 <= k <= i
      ensures Matched(next, clean[k])
    {
      if k < i {
        assert Matched(frontier, clean[k]);
        var f :| f in frontier && Dominates(f, clean[k]);
        assert f in next;
      } else {
        assert r in next && Dominates(r, r);
      }
    }
  }

  /** A result with fewer calls than the last step, sorted after it, extends the staircase. */
  lemma {:induction false} LastIsLowest(frontier: seq<ReplayResult>, r: ReplayResult)
    requires frontier != [] && IsStaircase(frontier)
    requires forall j :: 0 <= j < |frontier| ==> Before(frontier[j], r)
    requires r.calls < frontier[|frontier| - 1].calls
    ensures IsStaircase(frontier + [r])
  {
    forall i | 0 <= i < |frontier|
      ensures frontier[i].tokens < r.tokens && frontier[i].calls > r.calls
    {
      assert Before(frontier[i], r);
      if i < |frontier| - 1 { assert frontier[i].calls > frontier[|frontier| - 1].calls; }
    }
  }

  method EligibleResults(results: seq<ReplayResult>, maxTruncations: nat, maxTokens: Option<real>)
    returns (eligible: seq<ReplayResult>)
    ensures forall r :: r in eligible <==> r in results && Eligible(r, maxTruncations, maxTokens)
  {
    eligible := [];
    for i := 0 to |results|
      invariant forall r :: r in eligible <==> r in results[..i] && Eligible(r, maxTruncations, maxTokens)
    {
      assert results[..i + 1] == results[..i] + [results[i]];
      if Eligible(results[i], maxTruncations, maxTokens) {
        eligible := eligible + [results[i]];
      }
    }
    assert results[..|results|] == results;
  }

  /** The frontier: tokens strictly rise and calls strictly fall along it, every member is within the
      budgets of truncations and tokens, every result within them is matched or beaten on both axes by a
      member, and none of them is better than a member on one axis without being worse on the other. */
  method ParetoFrontier(results: seq<ReplayResult>, maxTruncations: nat, maxTokens: Option<real>)
    returns (frontier: seq<ReplayResult>)
    ensures IsStaircase(frontier)
    ensures forall f :: f in frontier ==> f in results && IsWithin(f, maxTruncations, maxTokens)
    ensures forall r :: r in results && IsWithin(r, maxTruncations, maxTokens) ==> IsReached(frontier, r)
    ensures forall f, r :: f in frontier && r in results && IsWithin(r, maxTruncations, maxTokens) ==> IsUnbeaten(f, r)
  {
    hide *;
    var eligible := EligibleResults(results, maxTruncations, maxTokens);
    var clean := Sort(eligible);
    SortIsOrdered(eligible);
    frontier := [];
    var bestCalls: Option<nat> := None;
    NothingSwept(clean);
    for i := 0 to |clean|
      invariant Swept(clean, i, frontier, bestCalls)
    {
      SweepStep(clean, i, frontier, bestCalls);
      var r := clean[i];
      if bestCalls.None? || r.calls < bestCalls.value {
        frontier := frontier + [r];
        bestCalls := Some(r.calls);
      }
    }
    FrontierSays(results, eligible, maxTruncations, maxTokens, frontier, bestCalls);
  }

  lemma {:induction false} SortIsOrdered(rs: seq<ReplayResult>)
    ensures Ordered(Sort(rs))
  {
    SortCorrect(rs);
    hide Sort, Ordered;
  }

  lemma {:induction false} NothingSwept(clean: seq<ReplayResult>)
    ensures Swept(clean, 0, [], None)
  {
  }

  /** At most so many truncations and, if there is a limit, at most so many tokens. */
  ghost predicate IsWithin(r: ReplayResult, maxTruncations: nat, maxTokens: Option<real>) {
    && !(r.truncations > maxTruncations)
    && (match maxTokens
        case None => true
        case Some(limit) => !(r.tokens > limit))
  }

  /** Some member costs no more on either axis. */
  ghost predicate IsReached(frontier: seq<ReplayResult>, r: ReplayResult) {
    exists f :: f in frontier && !(f.tokens > r.tokens) && !(f.calls > r.calls)
  }

  /** What costs less than `f` on one axis costs more on the other. */
  ghost predicate IsUnbeaten(f: ReplayResult, r: ReplayResult) {
    (r.tokens < f.tokens ==> r.calls > f.calls) && (r.calls < f.calls ==> r.tokens > f.tokens)
  }

  lemma {:induction false} FrontierSays(results: seq<ReplayResult>, eligible: seq<ReplayResult>, maxTruncations: nat,
                                        maxTokens: Option<real>, frontier: seq<ReplayResult>, bestCalls: Option<nat>)
    requires forall r :: r in eligible <==> r in results && Eligible(r, maxTruncations, maxTokens)
    requires Swept(Sort(eligible), |Sort(eligible)|, frontier, bestCalls)
    ensures IsStaircase(frontier)
    ensures forall f :: f in frontier ==> f in results && IsWithin(f, maxTruncations, maxTokens)
    ensures forall r :: r in results && IsWithin(r, maxTruncations, maxTokens) ==> IsReached(frontier, r)
    ensures forall f, r :: f in frontier && r in results && IsWithin(r, maxTruncations, maxTokens) ==> IsUnbeaten(f, r)
  {
    hide *;
    SortCorrect(eligible);
    SweepDone(Sort(eligible), frontier, bestCalls);
    forall r
      ensures IsWithin(r, maxTruncations, maxTokens) <==> Eligible(r, maxTruncations, maxTokens)
      ensures Matched(frontier, r) ==> IsReached(frontier, r)
    {
      WithinIsEligible(r, maxTruncations, maxTokens);
      MatchedIsReached(frontier, r);
    }
    forall f, r
      ensures !StrictlyDominates(r, f) ==> IsUnbeaten(f, r)
    {
      UnbeatenIs(f, r);
    }
  }

  lemma {:induction false} WithinIsEligible(r: ReplayResult, maxTruncations: nat, maxTokens: Option<real>)
    ensures IsWithin(r, maxTruncations, maxTokens) <==> Eligible(r, maxTruncations, maxTokens)
  {
  }

  lemma {:induction false} MatchedIsReached(frontier: seq<ReplayResult>, r: ReplayResult)
    ensures Matched(frontier, r) ==> IsReached(frontier, r)
  {
  }

  lemma {:induction false} UnbeatenIs(f: ReplayResult, r: ReplayResult)
    ensures !StrictlyDominates(r, f) ==> IsUnbeaten(f, r)
  {
  }

  lemma {:induction false} SweepDone(clean: seq<ReplayResult>, frontier: seq<ReplayResult>, bestCalls: Option<nat>)
    requires Swept(clean, |clean|, frontier, bestCalls)
    ensures IsStaircase(frontier)
    ensures forall f :: f in frontier ==> f in clean
    ensures forall r :: r in clean ==> Matched(frontier, r)
    ensures forall f, r :: f in frontier && r in clean ==> !StrictlyDominates(r, f)
  {
    forall f | f in frontier
      ensures f in clean
    {
      var j :| 0 <= j < |frontier| && frontier[j] == f;
      assert Seen(clean, |clean|, frontier[j]);
    }
    forall r | r in clean
      ensures Matched(frontier, r)
    {
      var k :| 0 <= k < |clean| && clean[k] == r;
    }
    forall f, r | f in frontier && r in clean
      ensures !StrictlyDominates(r, f)
    {
      hide Swept;
      assert Matched(frontier, r);
      var g :| g in frontier && Dominates(g, r);
      NotBeaten(frontier, f, g, r);
    }
  }

  lemma {:induction false} NotBeaten(frontier: seq<ReplayResult>, f: ReplayResult, g: ReplayResult, r: ReplayResult)
    requires IsStaircase(frontier) && f in frontier && g in frontier && Dominates(g, r)
    ensures !StrictlyDominates(r, f)
  {
    var i :| 0 <= i < |frontier| && frontier[i] == f;
    var j :| 0 <= j < |frontier| && frontier[j] == g;
    assert i < j ==> f.tokens < g.tokens && f.calls > g.calls;
    assert j < i ==> g.tokens < f.tokens && g.calls > f.calls;
  }
}
