/** The other read simulator: replaying groups of reads under a configuration with leading and
    trailing context, counting what is paid and what is skipped; and the Pareto sweep over results.
    Token rates and totals are exact reals. */
module ReadOptimizer {
  import opened Options
  import opened Intervals

  datatype Kind = Explicit | Open | Default | RawKind | ConflictsKind | OtherKind

  datatype ReadCall = ReadCall(
    kind: Kind, start: Option<int>, end: Option<int>, argTokens: nat, resultTokens: nat, tokenPerLine: real)

  datatype Config = Config(default: int, maxLines: int, leading: int, trailing: int)

  const CURRENT_MAX_BYTES: int := 51200

  function RequestedInterval(call: ReadCall, cfg: Config): Option<Interval> {
    if call.kind == Explicit && call.start.Some? && call.end.Some? then
      Some(Interval(call.start.value, call.end.value))
    else if call.kind == Open && call.start.Some? then
      Some(Interval(call.start.value, call.start.value + cfg.default - 1))
    else if call.kind == Default then Some(Interval(1, cfg.default))
    else None
  }

  /** The requested range with leading context (never before line 1) and trailing context, cut to
      the line cap. */
  function DeliveredInterval(call: ReadCall, cfg: Config): (r: Option<Interval>)
    ensures r.Some? <==> RequestedInterval(call, cfg).Some?
  {
    match RequestedInterval(call, cfg)
    case None => None
    case Some(req) =>
      var start := if req.lo > 1 then Max(1, req.lo - cfg.leading) else 1;
      match call.kind
      case Explicit =>
        var requested := Max(1, req.hi - req.lo + 1);
        var lines := Min(requested + (req.lo - start) + cfg.trailing, cfg.maxLines);
        Some(Interval(start, start + lines - 1))
      case Open =>
        var lines := Min(cfg.default + (req.lo - start), cfg.maxLines);
        Some(Interval(start, start + lines - 1))
      case _ => Some(Interval(1, Min(cfg.default, cfg.maxLines)))
  }

  predicate ValidConfig(cfg: Config) {
    cfg.default >= 1 && cfg.maxLines >= 1 && cfg.leading >= 0 && cfg.trailing >= 0
  }

  /** Line numbers start at 1. */
  predicate ValidCall(call: ReadCall) {
    call.start.Some? ==> call.start.value >= 1
  }

  predicate ValidCalls(group: seq<ReadCall>) {
    forall i :: 0 <= i < |group| ==> ValidCall(group[i])
  }

  /** A group exists because of its first read. */
  predicate AllGroups(groups: seq<seq<ReadCall>>) {
    forall i :: 0 <= i < |groups| ==> groups[i] != []
  }

  /** A delivery has at least one and at most maxLines lines, starts at or before the request, at most
      `leading` lines earlier and never before line 1; and it contains the request whenever the cap
      leaves room for the context. */
  lemma {:induction false} DeliveredContainsRequest(call: ReadCall, cfg: Config)
    requires ValidConfig(cfg) && ValidCall(call) && RequestedInterval(call, cfg).Some?
    ensures var req, d := RequestedInterval(call, cfg).value, DeliveredInterval(call, cfg).value;
      && 1 <= d.hi - d.lo + 1 <= cfg.maxLines
      && 1 <= d.lo <= req.lo && req.lo - d.lo <= cfg.leading
      && (req.hi - d.lo + 1 <= cfg.maxLines ==> d.Contains(req))
  {
  }

  // ------------------------------------------------------------ replaying one group

  /** The running totals of a replay. */
  datatype Tally = Tally(
    tokens: real, calls: nat, skipped: nat, truncations: nat, bytesLimited: nat,
    selectorTokens: real, selectorCalls: nat, selectorSkipped: nat,
    selectorGroups: nat, selectorGroupsSingle: nat, selectorGroupsAllFirst: nat,
    defaultTokens: real, defaultCalls: nat, defaultSkipped: nat,
    rawTokens: real, rawCalls: nat)

  const ZERO: Tally := Tally(0.0, 0, 0, 0, 0, 0.0, 0, 0, 0, 0, 0, 0.0, 0, 0, 0.0, 0)

  predicate SelectorFirst(group: seq<ReadCall>)
    requires group != []
  {
    group[0].kind == Explicit || group[0].kind == Open
  }

  predicate DefaultFirst(group: seq<ReadCall>)
    requires group != []
  {
    group[0].kind == Default
  }

  predicate IsBounded(call: ReadCall, cfg: Config) {
    RequestedInterval(call, cfg).Some?
  }

  /** The coverage built up by the first `n` calls of a group: the deliveries of those not skipped. */
  ghost function Coverage(group: seq<ReadCall>, n: nat, cfg: Config): seq<Interval>
    requires n <= |group|
    decreases n, 0
  {
    if n == 0 then []
    else if IsBounded(group[n - 1], cfg) && !Skipped(group, n - 1, cfg)
    then Insert(Coverage(group, n - 1, cfg), DeliveredInterval(group[n - 1], cfg).value)
    else Coverage(group, n - 1, cfg)
  }

  /** A call is skipped when it is not the first and its whole request is already covered. */
  ghost predicate Skipped(group: seq<ReadCall>, n: nat, cfg: Config)
    requires n < |group|
    decreases n, 1
  {
    && n > 0 && IsBounded(group[n], cfg)
    && InOne(Coverage(group, n, cfg), RequestedInterval(group[n], cfg).value)
  }

  predicate Truncates(call: ReadCall, d: Interval, cfg: Config) {
    && d.hi - d.lo + 1 >= cfg.maxLines && call.kind == Explicit
    && Max(1, (if call.end.Some? && call.end.value != 0 then call.end.value else StartOr1(call)) - StartOr1(call) + 1)
       + cfg.leading + cfg.trailing > cfg.maxLines
  }

  function StartOr1(call: ReadCall): int {
    if call.start.Some? && call.start.value != 0 then call.start.value else 1
  }

  function LineTokens(call: ReadCall, lines: int): real {
    call.tokenPerLine * lines as real
  }

  predicate BytesLimited(call: ReadCall, lines: int) {
    LineTokens(call, lines) * 4.0 > Max(CURRENT_MAX_BYTES, lines * 512) as real
  }

  function PaidCost(call: ReadCall, d: Interval): real {
    var lines := d.hi - d.lo + 1;
    call.argTokens as real + if BytesLimited(call, lines) then Max(CURRENT_MAX_BYTES, lines * 512) as real / 4.0
                             else LineTokens(call, lines)
  }

  function UnboundedCost(call: ReadCall): real {
    (call.argTokens + call.resultTokens) as real
  }

  /** A paid call's cost, added to the totals of its group's kind. */
  function AddPaid(t: Tally, cost: real, selector: bool, byDefault: bool): Tally {
    var t1 := t.(tokens := t.tokens + cost, calls := t.calls + 1);
    if selector then t1.(selectorTokens := t.selectorTokens + cost, selectorCalls := t.selectorCalls + 1)
    else if byDefault then t1.(defaultTokens := t.defaultTokens + cost, defaultCalls := t.defaultCalls + 1)
    else t1
  }

  /** A call without line bounds is always paid, at its observed cost. */
  function AddUnbounded(t: Tally, cost: real, selector: bool, byDefault: bool): Tally {
    AddPaid(t, cost, selector, byDefault).(rawTokens := t.rawTokens + cost, rawCalls := t.rawCalls + 1)
  }

  function AddSkipped(t: Tally, selector: bool, byDefault: bool): Tally {
    var t1 := t.(skipped := t.skipped + 1);
    if selector then t1.(selectorSkipped := t.selectorSkipped + 1)
    else if byDefault then t1.(defaultSkipped := t.defaultSkipped + 1)
    else t1
  }

  /** The totals after the first `n` calls of a group. */
  ghost function TallyCalls(before: Tally, group: seq<ReadCall>, n: nat, cfg: Config): Tally
    requires n <= |group| && group != []
  {
    if n == 0 then before
    else
      var t, call := TallyCalls(before, group, n - 1, cfg), group[n - 1];
      var selector, byDefault := SelectorFirst(group), DefaultFirst(group);
      if !IsBounded(call, cfg) then
        AddUnbounded(t, UnboundedCost(call), selector, byDefault)
      else if Skipped(group, n - 1, cfg) then AddSkipped(t, selector, byDefault)
      else AddDelivered(t, call, DeliveredInterval(call, cfg).value, selector, byDefault, cfg)
  }

  /** A paid delivery, with the indicators for requests the caps cut short. */
  function AddDelivered(t: Tally, call: ReadCall, d: Interval, selector: bool, byDefault: bool, cfg: Config): Tally {
    var cut := if Truncates(call, d, cfg) then 1 else 0;
    var limited := if BytesLimited(call, d.hi - d.lo + 1) then 1 else 0;
    AddPaid(t.(truncations := t.truncations + cut, bytesLimited := t.bytesLimited + limited), PaidCost(call, d),
            selector, byDefault)
  }

  lemma {:induction false} StepUnfolds(before: Tally, group: seq<ReadCall>, i: nat, cfg: Config)
    requires i < |group|
    ensures var t, t', call := TallyCalls(before, group, i, cfg), TallyCalls(before, group, i + 1, cfg), group[i];
      var selector, byDefault := SelectorFirst(group), DefaultFirst(group);
      var c, c' := Coverage(group, i, cfg), Coverage(group, i + 1, cfg);
      if !IsBounded(call, cfg) then t' == AddUnbounded(t, UnboundedCost(call), selector, byDefault) && c' == c
      else if i > 0 && InOne(c, RequestedInterval(call, cfg).value)
      then t' == AddSkipped(t, selector, byDefault) && c' == c
      else
        var d := DeliveredInterval(call, cfg).value;
        t' == AddDelivered(t, call, d, selector, byDefault, cfg) && c' == Insert(c, d)
  {
    hide AddUnbounded, AddSkipped, AddDelivered, InOne, Insert, DeliveredInterval, RequestedInterval, UnboundedCost;
  }

  /** Every later bounded request of the group lies within the first delivery. */
  ghost predicate CoveredByFirst(group: seq<ReadCall>, cfg: Config)
    requires group != []
  {
    SelectorFirst(group) && IsBounded(group[0], cfg) && WithinRest(DeliveredInterval(group[0], cfg).value, group, cfg)
  }

  function CountGroup(t: Tally, group: seq<ReadCall>): Tally
    requires group != []
  {
    if SelectorFirst(group)
    then t.(selectorGroups := t.selectorGroups + 1,
            selectorGroupsSingle := if |group| == 1 then t.selectorGroupsSingle + 1 else t.selectorGroupsSingle)
    else t
  }

  ghost function TallyGroup(before: Tally, group: seq<ReadCall>, cfg: Config): Tally
    requires group != []
  {
    var t := TallyCalls(CountGroup(before, group), group, |group|, cfg);
    if SelectorFirst(group) && (CoveredByFirst(group, cfg) || |group| == 1)
    then t.(selectorGroupsAllFirst := t.selectorGroupsAllFirst + 1) else t
  }

  ghost function TallyGroups(groups: seq<seq<ReadCall>>, n: nat, cfg: Config): Tally
    requires n <= |groups| && AllGroups(groups)
  {
    if n == 0 then ZERO else TallyGroup(TallyGroups(groups, n - 1, cfg), groups[n - 1], cfg)
  }

  lemma {:induction false} CoverageCanonical(group: seq<ReadCall>, n: nat, cfg: Config)
    requires n <= |group| && ValidConfig(cfg) && ValidCalls(group)
    ensures Canonical(Coverage(group, n, cfg))
  {
    if n > 0 {
      CoverageCanonical(group, n - 1, cfg);
      if IsBounded(group[n - 1], cfg) {
        DeliveredContainsRequest(group[n - 1], cfg);
        InsertCorrect(Coverage(group, n - 1, cfg), DeliveredInterval(group[n - 1], cfg).value);
      }
    }
  }

  /** Whether one delivery covers every later bounded request of the group. */
  method CoversRest(delivered: Interval, group: seq<ReadCall>, cfg: Config) returns (allCovered: bool)
    requires group != [] && delivered.Proper()
    ensures allCovered == WithinRest(delivered, group, cfg)
  {
    allCovered := true;
    for k := 1 to |group|
      invariant allCovered ==> forall j :: 1 <= j < k && IsBounded(group[j], cfg) ==>
                  delivered.Contains(RequestedInterval(group[j], cfg).value)
    {
      var later := RequestedInterval(group[k], cfg);
      if later.Some? {
        var within := IsCovered([delivered], later.value);
        assert within <==> delivered.Contains(later.value) by {
          if delivered.Contains(later.value) { assert [delivered][0].Contains(later.value); }
        }
        if !within {
          assert IsBounded(group[k], cfg);
          return false;
        }
      }
    }
  }

  ghost predicate WithinRest(delivered: Interval, group: seq<ReadCall>, cfg: Config) {
    forall k :: 1 <= k < |group| && IsBounded(group[k], cfg) ==>
      delivered.Contains(RequestedInterval(group[k], cfg).value)
  }

  lemma {:induction false} BoundedDelivers(call: ReadCall, cfg: Config)
    ensures IsBounded(call, cfg) <==> RequestedInterval(call, cfg).Some?
    ensures IsBounded(call, cfg) <==> DeliveredInterval(call, cfg).Some?
  {
  }

  lemma {:induction false} DeliversProper(group: seq<ReadCall>, i: nat, cfg: Config)
    requires i < |group| && ValidConfig(cfg) && ValidCalls(group) && IsBounded(group[i], cfg)
    ensures DeliveredInterval(group[i], cfg).value.Proper()
  {
    assert ValidCall(group[i]);
    DeliveredContainsRequest(group[i], cfg);
  }

  lemma {:induction false} GroupUnfolds(before: Tally, group: seq<ReadCall>, cfg: Config)
    requires group != []
    ensures CoveredByFirst(group, cfg) <==>
              && SelectorFirst(group) && IsBounded(group[0], cfg)
              && WithinRest(DeliveredInterval(group[0], cfg).value, group, cfg)
    ensures var t := TallyCalls(CountGroup(before, group), group, |group|, cfg);
            TallyGroup(before, group, cfg) ==
              if SelectorFirst(group) && (CoveredByFirst(group, cfg) || |group| == 1)
              then t.(selectorGroupsAllFirst := t.selectorGroupsAllFirst + 1) else t
  {
  }

  method ReplayGroup(before: Tally, group: seq<ReadCall>, cfg: Config) returns (t: Tally)
    requires group != [] && ValidConfig(cfg) && ValidCalls(group)
    ensures t == TallyGroup(before, group, cfg)
  {
    var selectorFirst, defaultFirst := SelectorFirst(group), DefaultFirst(group);
    t := before;
    if selectorFirst {
      t := t.(selectorGroups := t.selectorGroups + 1);
      if |group| == 1 {
        t := t.(selectorGroupsSingle := t.selectorGroupsSingle + 1);
      }
    }
    ghost var start := t;
    assert start == CountGroup(before, group);
    var coverage: seq<Interval> := [];
    var coveredAllByFirst := false;
    assert TallyCalls(start, group, 0, cfg) == start && Coverage(group, 0, cfg) == [];
    GroupUnfolds(before, group, cfg);
    hide *;
    for i := 0 to |group|
      invariant coverage == Coverage(group, i, cfg)
      invariant t == TallyCalls(start, group, i, cfg)
      invariant i == 0 ==> !coveredAllByFirst
      invariant i > 0 ==> coveredAllByFirst == CoveredByFirst(group, cfg)
    {
      var call := group[i];
      var req, delivered := RequestedInterval(call, cfg), DeliveredInterval(call, cfg);
      StepUnfolds(start, group, i, cfg);
      CoverageCanonical(group, i, cfg);
      BoundedDelivers(call, cfg);
      if req.None? {
        t := AddUnbounded(t, UnboundedCost(call), selectorFirst, defaultFirst);
        continue;
      }
      var isIn := IsCovered(coverage, req.value);
      if i > 0 && isIn {
        t := AddSkipped(t, selectorFirst, defaultFirst);
        continue;
      }
      t := AddDelivered(t, call, delivered.value, selectorFirst, defaultFirst, cfg);
      DeliversProper(group, i, cfg);
      coverage := AddInterval(coverage, delivered.value);
      if i == 0 && selectorFirst {
        var allCovered := CoversRest(delivered.value, group, cfg);
        coveredAllByFirst := allCovered;
      }
    }
    if selectorFirst && (coveredAllByFirst || |group| == 1) {
      t := t.(selectorGroupsAllFirst := t.selectorGroupsAllFirst + 1);
    }
  }

  method Replay(groups: seq<seq<ReadCall>>, cfg: Config) returns (t: Tally)
    requires ValidConfig(cfg)
    requires AllGroups(groups) && forall i :: 0 <= i < |groups| ==> ValidCalls(groups[i])
    ensures t == TallyGroups(groups, |groups|, cfg)
  {
    t := ZERO;
    for i := 0 to |groups|
      invariant t == TallyGroups(groups, i, cfg)
    {
      t := ReplayGroup(t, groups[i], cfg);
    }
  }

  // ------------------------------------------------------------ what the totals mean

  /** Line `x` was delivered by one of the first `n` calls of its group that was paid. */
  ghost predicate DeliveredBefore(group: seq<ReadCall>, n: nat, cfg: Config, x: int)
    requires n <= |group|
  {
    exists k :: 0 <= k < n && IsBounded(group[k], cfg) && !Skipped(group, k, cfg)
                && DeliveredInterval(group[k], cfg).value.Has(x)
  }

  lemma {:induction false} CoverageMeaning(group: seq<ReadCall>, n: nat, cfg: Config, x: int)
    requires n <= |group| && ValidConfig(cfg) && ValidCalls(group)
    ensures Covered(Coverage(group, n, cfg), x) <==> DeliveredBefore(group, n, cfg, x)
    decreases n
  {
    hide *;
    DeliveredUnfolds(group, n, cfg, x);
    if n > 0 {
      CoverageMeaning(group, n - 1, cfg, x);
      CoverageCanonical(group, n - 1, cfg);
      if IsBounded(group[n - 1], cfg) && !Skipped(group, n - 1, cfg) {
        DeliversProper(group, n - 1, cfg);
        InsertCorrect(Coverage(group, n - 1, cfg), DeliveredInterval(group[n - 1], cfg).value);
      }
    }
  }

  lemma {:induction false} DeliveredUnfolds(group: seq<ReadCall>, n: nat, cfg: Config, x: int)
    requires n <= |group|
    ensures n == 0 ==> Coverage(group, n, cfg) == [] && !Covered([], x) && !DeliveredBefore(group, n, cfg, x)
    ensures n > 0 && IsBounded(group[n - 1], cfg) && !Skipped(group, n - 1, cfg) ==>
      && DeliveredInterval(group[n - 1], cfg).Some?
      && Coverage(group, n, cfg) == Insert(Coverage(group, n - 1, cfg), DeliveredInterval(group[n - 1], cfg).value)
      && (DeliveredBefore(group, n, cfg, x) <==>
            DeliveredInterval(group[n - 1], cfg).value.Has(x) || DeliveredBefore(group, n - 1, cfg, x))
    ensures n > 0 && !(IsBounded(group[n - 1], cfg) && !Skipped(group, n - 1, cfg)) ==>
      && Coverage(group, n, cfg) == Coverage(group, n - 1, cfg)
      && (DeliveredBefore(group, n, cfg, x) <==> DeliveredBefore(group, n - 1, cfg, x))
  {
    hide DeliveredInterval, RequestedInterval, InOne;
    if n > 0 && DeliveredBefore(group, n, cfg, x) {
      var k :| 0 <= k < n && IsBounded(group[k], cfg) && !Skipped(group, k, cfg)
               && DeliveredInterval(group[k], cfg).value.Has(x);
      assert k == n - 1 || DeliveredBefore(group, n - 1, cfg, x);
    }
  }

  /** A call is skipped exactly when it is not the first and each of its lines was delivered by an
      earlier paid call; one whose end lies before its start, when any line from its end to its start was. */
  lemma {:induction false} SkippedMeaning(group: seq<ReadCall>, n: nat, cfg: Config)
    requires n < |group| && ValidConfig(cfg) && ValidCalls(group) && IsBounded(group[n], cfg)
    ensures var req := RequestedInterval(group[n], cfg).value;
      && (req.Proper() ==> (Skipped(group, n, cfg) <==>
            n > 0 && forall x :: req.Has(x) ==> DeliveredBefore(group, n, cfg, x)))
      && (!req.Proper() ==> (Skipped(group, n, cfg) <==>
            n > 0 && exists x :: req.hi <= x <= req.lo && DeliveredBefore(group, n, cfg, x)))
  {
    var req, coverage := RequestedInterval(group[n], cfg).value, Coverage(group, n, cfg);
    CoverageCanonical(group, n, cfg);
    if req.Proper() { CoveredIffInOne(coverage, req); } else { InvertedInOne(coverage, req); }
    forall x
      ensures Covered(coverage, x) <==> DeliveredBefore(group, n, cfg, x)
    {
      CoverageMeaning(group, n, cfg, x);
    }
    hide DeliveredBefore, Canonical, InOne, Covered, RequestedInterval;
  }

  /** An inverted request is within one range exactly when a line between its bounds is covered. */
  lemma {:induction false} InvertedInOne(ivs: seq<Interval>, t: Interval)
    requires Canonical(ivs) && !t.Proper()
    ensures InOne(ivs, t) <==> exists x :: t.hi <= x <= t.lo && Covered(ivs, x)
  {
    if InOne(ivs, t) {
      var i :| 0 <= i < |ivs| && ivs[i].Contains(t);
      var x := Max(ivs[i].lo, t.hi);
      assert ivs[i].Proper() && ivs[i].Has(x);
      assert Covered(ivs, x);
    }
    if x :| t.hi <= x <= t.lo && Covered(ivs, x) {
      var i :| 0 <= i < |ivs| && ivs[i].Has(x);
      assert ivs[i].Contains(t);
    }
  }

  /** In a group flagged as covered by its first read, every later bounded read is skipped. */
  lemma {:induction false} FlaggedGroupSkipsRest(group: seq<ReadCall>, n: nat, cfg: Config)
    requires 1 <= n <= |group| && CoveredByFirst(group, cfg)
    ensures Coverage(group, n, cfg) == [DeliveredInterval(group[0], cfg).value]
    ensures n < |group| && IsBounded(group[n], cfg) ==> Skipped(group, n, cfg)
    decreases n
  {
    hide DeliveredInterval, RequestedInterval;
    var d := DeliveredInterval(group[0], cfg).value;
    if n == 1 {
      assert Coverage(group, 0, cfg) == [];
      assert !Skipped(group, 0, cfg);
      assert Insert([], d) == [d];
    } else {
      FlaggedGroupSkipsRest(group, n - 1, cfg);
    }
    if n < |group| && IsBounded(group[n], cfg) {
      assert [d][0].Contains(RequestedInterval(group[n], cfg).value);
    }
  }

  function CallCount(groups: seq<seq<ReadCall>>, n: nat): nat
    requires n <= |groups|
  {
    if n == 0 then 0 else CallCount(groups, n - 1) + |groups[n - 1]|
  }

  /** What every step of a replay keeps between its totals. */
  ghost predicate Balanced(t: Tally) {
    && t.selectorCalls + t.defaultCalls <= t.calls
    && t.selectorSkipped + t.defaultSkipped <= t.skipped
    && t.rawCalls <= t.calls && t.truncations <= t.calls && t.bytesLimited <= t.calls
    && t.selectorGroupsSingle <= t.selectorGroupsAllFirst <= t.selectorGroups
  }

  /** How the totals move over `n` calls of one group. */
  ghost predicate Moves(before: Tally, t: Tally, n: nat, selector: bool, byDefault: bool) {
    && t.calls + t.skipped == before.calls + before.skipped + n
    && t.selectorGroups == before.selectorGroups && t.selectorGroupsSingle == before.selectorGroupsSingle
    && t.selectorGroupsAllFirst == before.selectorGroupsAllFirst
    && t.calls - before.calls >= (t.selectorCalls - before.selectorCalls) + (t.defaultCalls - before.defaultCalls)
    && t.skipped - before.skipped
         >= (t.selectorSkipped - before.selectorSkipped) + (t.defaultSkipped - before.defaultSkipped)
    && t.calls - before.calls >= t.rawCalls - before.rawCalls
    && t.calls - before.calls >= t.truncations - before.truncations
    && t.calls - before.calls >= t.bytesLimited - before.bytesLimited
    && MovesOfKind(before, t, n, selector, byDefault)
  }

  /** All of a group's calls and tokens are booked under the kind of its first read. */
  ghost predicate MovesOfKind(before: Tally, t: Tally, n: nat, selector: bool, byDefault: bool) {
    && (selector ==>
          && t.selectorCalls + t.selectorSkipped == before.selectorCalls + before.selectorSkipped + n
          && t.tokens - before.tokens == t.selectorTokens - before.selectorTokens)
    && (!selector && byDefault ==>
          && t.defaultCalls + t.defaultSkipped == before.defaultCalls + before.defaultSkipped + n
          && t.tokens - before.tokens == t.defaultTokens - before.defaultTokens)
  }

  lemma {:induction false} PaidMoves(before: Tally, t: Tally, n: nat, cost: real, selector: bool, byDefault: bool,
                                     cut: nat, limited: nat)
    requires Moves(before, t, n, selector, byDefault) && cut <= 1 && limited <= 1
    ensures var t' := t.(truncations := t.truncations + cut, bytesLimited := t.bytesLimited + limited);
            Moves(before, AddPaid(t', cost, selector, byDefault), n + 1, selector, byDefault)
  {
  }

  lemma {:induction false} DeliveredMoves(before: Tally, t: Tally, n: nat, call: ReadCall, d: Interval, selector: bool,
                                          byDefault: bool, cfg: Config)
    requires Moves(before, t, n, selector, byDefault)
    ensures Moves(before, AddDelivered(t, call, d, selector, byDefault, cfg), n + 1, selector, byDefault)
  {
    hide Moves, AddPaid, PaidCost, BytesLimited, Truncates;
    PaidMoves(before, t, n, PaidCost(call, d), selector, byDefault,
              if Truncates(call, d, cfg) then 1 else 0, if BytesLimited(call, d.hi - d.lo + 1) then 1 else 0);
  }

  lemma {:induction false} UnboundedMoves(before: Tally, t: Tally, n: nat, cost: real, selector: bool, byDefault: bool)
    requires Moves(before, t, n, selector, byDefault)
    ensures Moves(before, AddUnbounded(t, cost, selector, byDefault), n + 1, selector, byDefault)
  {
  }

  lemma {:induction false} SkippedMoves(before: Tally, t: Tally, n: nat, selector: bool, byDefault: bool)
    requires Moves(before, t, n, selector, byDefault)
    ensures Moves(before, AddSkipped(t, selector, byDefault), n + 1, selector, byDefault)
  {
  }

  lemma {:induction false} CallsBalance(before: Tally, group: seq<ReadCall>, n: nat, cfg: Config)
    requires n <= |group| && group != []
    ensures Moves(before, TallyCalls(before, group, n, cfg), n, SelectorFirst(group), DefaultFirst(group))
    decreases n
  {
    hide *;
    MovesNone(before, group, cfg);
    if n == 0 {
      return;
    }
    CallsBalance(before, group, n - 1, cfg);
    StepUnfolds(before, group, n - 1, cfg);
    BoundedDelivers(group[n - 1], cfg);
    var t, call := TallyCalls(before, group, n - 1, cfg), group[n - 1];
    var selector, byDefault := SelectorFirst(group), DefaultFirst(group);
    UnboundedMoves(before, t, n - 1, UnboundedCost(call), selector, byDefault);
    SkippedMoves(before, t, n - 1, selector, byDefault);
    if IsBounded(call, cfg) {
      DeliveredMoves(before, t, n - 1, call, DeliveredInterval(call, cfg).value, selector, byDefault, cfg);
    }
  }

  lemma {:induction false} MovesNone(before: Tally, group: seq<ReadCall>, cfg: Config)
    requires group != []
    ensures TallyCalls(before, group, 0, cfg) == before
    ensures Moves(before, before, 0, SelectorFirst(group), DefaultFirst(group))
  {
  }

  /** Conservation: every call of every group is either paid or skipped, once; the per-kind figures
      stay within the totals; and no more groups are flagged than there are selector groups. */
  lemma {:induction false} ReplayConserves(groups: seq<seq<ReadCall>>, n: nat, cfg: Config)
    requires n <= |groups| && AllGroups(groups)
    ensures var t := TallyGroups(groups, n, cfg);
      t.calls + t.skipped == CallCount(groups, n) && Balanced(t)
    decreases n
  {
    if n > 0 {
      ReplayConserves(groups, n - 1, cfg);
      CallsBalance(CountGroup(TallyGroups(groups, n - 1, cfg), groups[n - 1]), groups[n - 1], |groups[n - 1]|, cfg);
      hide TallyCalls, CoveredByFirst;
    }
  }
}
