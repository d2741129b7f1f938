/** Where the totals of a replay come from: which lines a call asks for and is given, what it costs, and
    every total as a sum over the calls and groups. */
module ReadLedger {
  import opened Options
  import opened Intervals
  import opened ReadOptimizer

  // ------------------------------------------------------------ one call

  /** A call whose lines are known: a range with both ends, one with a start alone, or a plain read. */
  ghost predicate HasLines(call: ReadCall) {
    || (call.kind == Explicit && call.start.Some? && call.end.Some?)
    || (call.kind == Open && call.start.Some?)
    || call.kind == Default
  }

  ghost function FirstLine(call: ReadCall): int
    requires HasLines(call)
  {
    if call.kind == Default then 1 else call.start.value
  }

  /** Without an end, as many lines as the default says. */
  ghost function LastLine(call: ReadCall, cfg: Config): int
    requires HasLines(call)
  {
    if call.kind == Explicit then call.end.value else FirstLine(call) + cfg.default - 1
  }

  /** What is delivered of a call: it begins `leading` lines early, but not before line 1, and ends with
      the request, or `trailing` lines later if the request has an end of its own; and the cap cuts it at
      its end. A range that ends before it starts counts as its first line. */
  lemma {:induction false} DeliveryOf(call: ReadCall, cfg: Config)
    requires ValidConfig(cfg) && ValidCall(call)
    ensures RequestedInterval(call, cfg).Some? <==> HasLines(call)
    ensures DeliveredInterval(call, cfg).Some? <==> HasLines(call)
    ensures HasLines(call) ==>
      var first, last := FirstLine(call), LastLine(call, cfg);
      && RequestedInterval(call, cfg).value == Interval(first, last)
      && var d := DeliveredInterval(call, cfg).value;
        var wanted := if call.kind == Explicit then (if last < first then first else last) + cfg.trailing else last;
        && (if first - cfg.leading < 1 then d.lo == 1 else d.lo == first - cfg.leading)
        && (if wanted - d.lo + 1 > cfg.maxLines then d.hi == d.lo + cfg.maxLines - 1 else d.hi == wanted)
  {
  }

  /** A byte budget of 50 KB, or of 512 bytes a line if that is more, at four bytes a token. */
  ghost function Budget(lines: int): real {
    (if lines > 100 then 512 * lines else 51200) as real / 4.0
  }

  /** The tokens of a paid call: its arguments, and what was really returned if its lines are not known;
      otherwise its lines at its own rate, or the budget if that is less. */
  ghost function Price(call: ReadCall, cfg: Config): real {
    if !HasLines(call) then call.argTokens as real + call.resultTokens as real
    else
      var lines := Length(DeliveredInterval(call, cfg));
      var text := lines as real * call.tokenPerLine;
      call.argTokens as real + if text < Budget(lines) then text else Budget(lines)
  }

  ghost function Length(d: Option<Interval>): int {
    if d.Some? then d.value.hi - d.value.lo + 1 else 0
  }

  /** The cap has cut an explicit request: with the context it gets it fills the cap, and with the context
      it could get it would not fit. */
  ghost predicate IsCut(call: ReadCall, cfg: Config) {
    && call.kind == Explicit && HasLines(call)
    && var size := if call.end.value < call.start.value then 1 else call.end.value - call.start.value + 1;
      && size + (if call.start.value - 1 < cfg.leading then call.start.value - 1 else cfg.leading) + cfg.trailing
           >= cfg.maxLines
      && size + cfg.leading + cfg.trailing > cfg.maxLines
  }

  ghost predicate IsOverBudget(call: ReadCall, cfg: Config) {
    && HasLines(call)
    && var lines := Length(DeliveredInterval(call, cfg)); lines as real * call.tokenPerLine > Budget(lines)
  }

  lemma {:induction false} PriceOf(call: ReadCall, cfg: Config)
    requires ValidConfig(cfg) && ValidCall(call)
    ensures HasLines(call) <==> IsBounded(call, cfg)
    ensures !HasLines(call) ==> UnboundedCost(call) == Price(call, cfg)
    ensures HasLines(call) ==>
      var d := DeliveredInterval(call, cfg);
      && d.Some? && PaidCost(call, d.value) == Price(call, cfg)
      && (BytesLimited(call, d.value.hi - d.value.lo + 1) <==> IsOverBudget(call, cfg))
      && (Truncates(call, d.value, cfg) <==> IsCut(call, cfg))
  {
    DeliveryOf(call, cfg);
    if HasLines(call) {
      var d := DeliveredInterval(call, cfg).value;
      var lines := d.hi - d.lo + 1;
      BudgetIs(lines);
      TokensAre(call, lines);
      if call.kind == Explicit {
        CutIs(call, d, cfg);
      }
      hide DeliveredInterval, RequestedInterval, Budget, LineTokens;
    }
  }

  lemma {:induction false} BudgetIs(lines: int)
    ensures Max(CURRENT_MAX_BYTES, lines * 512) as real == Budget(lines) * 4.0
  {
  }

  lemma {:induction false} TokensAre(call: ReadCall, lines: int)
    ensures LineTokens(call, lines) == lines as real * call.tokenPerLine
  {
  }

  lemma {:induction false} CutIs(call: ReadCall, d: Interval, cfg: Config)
    requires ValidConfig(cfg) && ValidCall(call) && call.kind == Explicit && HasLines(call)
    requires DeliveredInterval(call, cfg) == Some(d)
    ensures Truncates(call, d, cfg) <==> IsCut(call, cfg)
  {
  }

  // ------------------------------------------------------------ the totals as sums

  datatype Figure =
    | Tokens | Calls | SkippedCalls | Cuts | OverBudget
    | SelectorTokens | SelectorCalls | SelectorSkipped | SelectorGroups | SingleGroups | CoveredGroups
    | DefaultTokens | DefaultCalls | DefaultSkipped
    | RawTokens | RawCalls

  ghost function Total(t: Tally, f: Figure): real {
    match f
    case Tokens => t.tokens
    case Calls => t.calls as real
    case SkippedCalls => t.skipped as real
    case Cuts => t.truncations as real
    case OverBudget => t.bytesLimited as real
    case SelectorTokens => t.selectorTokens
    case SelectorCalls => t.selectorCalls as real
    case SelectorSkipped => t.selectorSkipped as real
    case SelectorGroups => t.selectorGroups as real
    case SingleGroups => t.selectorGroupsSingle as real
    case CoveredGroups => t.selectorGroupsAllFirst as real
    case DefaultTokens => t.defaultTokens
    case DefaultCalls => t.defaultCalls as real
    case DefaultSkipped => t.defaultSkipped as real
    case RawTokens => t.rawTokens
    case RawCalls => t.rawCalls as real
  }

  /** The group began with a range of some kind. */
  ghost predicate BySelector(group: seq<ReadCall>) {
    group != [] && group[0].kind in {Explicit, Open}
  }

  ghost predicate ByDefault(group: seq<ReadCall>) {
    group != [] && group[0].kind == Default
  }

  ghost function If(b: bool, amount: real): real {
    if b then amount else 0.0
  }

  /** What one call adds to a total. */
  ghost function OfCall(group: seq<ReadCall>, i: nat, cfg: Config, f: Figure): real
    requires i < |group|
  {
    var call, skipped := group[i], Skipped(group, i, cfg);
    var price := if skipped then 0.0 else Price(call, cfg);
    match f
    case Tokens => price
    case Calls => If(!skipped, 1.0)
    case SkippedCalls => If(skipped, 1.0)
    case Cuts => If(!skipped && IsCut(call, cfg), 1.0)
    case OverBudget => If(!skipped && IsOverBudget(call, cfg), 1.0)
    case SelectorTokens => If(BySelector(group), price)
    case SelectorCalls => If(BySelector(group) && !skipped, 1.0)
    case SelectorSkipped => If(BySelector(group) && skipped, 1.0)
    case DefaultTokens => If(ByDefault(group), price)
    case DefaultCalls => If(ByDefault(group) && !skipped, 1.0)
    case DefaultSkipped => If(ByDefault(group) && skipped, 1.0)
    case RawTokens => If(!HasLines(call), price)
    case RawCalls => If(!HasLines(call), 1.0)
    case _ => 0.0
  }

  /** The delivery of the first call has every line that later calls ask for. */
  ghost predicate FirstHasAll(group: seq<ReadCall>, cfg: Config) {
    && group != [] && HasLines(group[0])
    && var d := DeliveredInterval(group[0], cfg);
      && d.Some?
      && forall k :: 1 <= k < |group| && HasLines(group[k]) ==>
           d.value.lo <= FirstLine(group[k]) && LastLine(group[k], cfg) <= d.value.hi
  }

  /** What a group adds besides its calls. */
  ghost function OfGroup(group: seq<ReadCall>, cfg: Config, f: Figure): real {
    match f
    case SelectorGroups => If(BySelector(group), 1.0)
    case SingleGroups => If(BySelector(group) && |group| == 1, 1.0)
    case CoveredGroups => If(BySelector(group) && (|group| == 1 || FirstHasAll(group, cfg)), 1.0)
    case _ => 0.0
  }

  ghost function SumOfCalls(group: seq<ReadCall>, n: nat, cfg: Config, f: Figure): real
    requires n <= |group|
  {
    if n == 0 then 0.0 else SumOfCalls(group, n - 1, cfg, f) + OfCall(group, n - 1, cfg, f)
  }

  ghost function SumOfGroups(groups: seq<seq<ReadCall>>, n: nat, cfg: Config, f: Figure): real
    requires n <= |groups|
  {
    if n == 0 then 0.0
    else
      var group := groups[n - 1];
      SumOfGroups(groups, n - 1, cfg, f) + SumOfCalls(group, |group|, cfg, f) + OfGroup(group, cfg, f)
  }

  lemma {:induction false} CallAdds(before: Tally, group: seq<ReadCall>, i: nat, cfg: Config, f: Figure)
    requires i < |group| && ValidConfig(cfg) && ValidCalls(group)
    ensures Total(TallyCalls(before, group, i + 1, cfg), f)
         == Total(TallyCalls(before, group, i, cfg), f) + OfCall(group, i, cfg, f)
  {
    hide *;
    var t, call := TallyCalls(before, group, i, cfg), group[i];
    StepUnfolds(before, group, i, cfg);
    SkippedUnfolds(group, i, cfg);
    ValidAt(group, i);
    PriceOf(call, cfg);
    BoundedDelivers(call, cfg);
    if !HasLines(call) {
      UnboundedAdds(t, group, i, cfg, f);
    } else if Skipped(group, i, cfg) {
      SkippedAdds(t, group, i, cfg, f);
    } else {
      DeliveredAdds(t, group, i, cfg, f);
    }
  }

  lemma {:induction false} ValidAt(group: seq<ReadCall>, i: nat)
    requires i < |group| && ValidCalls(group)
    ensures ValidCall(group[i])
  {
  }

  lemma {:induction false} UnboundedAdds(t: Tally, group: seq<ReadCall>, i: nat, cfg: Config, f: Figure)
    requires i < |group| && !HasLines(group[i]) && !Skipped(group, i, cfg)
    requires UnboundedCost(group[i]) == Price(group[i], cfg)
    ensures Total(AddUnbounded(t, UnboundedCost(group[i]), SelectorFirst(group), DefaultFirst(group)), f)
         == Total(t, f) + OfCall(group, i, cfg, f)
  {
    hide Skipped, HasLines, Price, UnboundedCost;
  }

  lemma {:induction false} SkippedAdds(t: Tally, group: seq<ReadCall>, i: nat, cfg: Config, f: Figure)
    requires i < |group| && HasLines(group[i]) && Skipped(group, i, cfg)
    ensures Total(AddSkipped(t, SelectorFirst(group), DefaultFirst(group)), f) == Total(t, f) + OfCall(group, i, cfg, f)
  {
    hide Skipped, HasLines, Price;
  }

  lemma {:induction false} DeliveredAdds(t: Tally, group: seq<ReadCall>, i: nat, cfg: Config, f: Figure)
    requires i < |group| && HasLines(group[i]) && !Skipped(group, i, cfg) && ValidConfig(cfg) && ValidCall(group[i])
    requires DeliveredInterval(group[i], cfg).Some?
    ensures Total(AddDelivered(t, group[i], DeliveredInterval(group[i], cfg).value, SelectorFirst(group),
                               DefaultFirst(group), cfg), f)
         == Total(t, f) + OfCall(group, i, cfg, f)
  {
    PriceOf(group[i], cfg);
    hide Skipped, HasLines, DeliveredInterval, Price, PaidCost, IsCut, IsOverBudget, BytesLimited, Truncates;
  }

  lemma {:induction false} SkippedUnfolds(group: seq<ReadCall>, i: nat, cfg: Config)
    requires i < |group|
    ensures IsBounded(group[i], cfg) <==> RequestedInterval(group[i], cfg).Some?
    ensures Skipped(group, i, cfg) <==>
      i > 0 && IsBounded(group[i], cfg) && InOne(Coverage(group, i, cfg), RequestedInterval(group[i], cfg).value)
  {
    hide Coverage, InOne, RequestedInterval;
  }

  lemma {:induction false} CallsAddUp(before: Tally, group: seq<ReadCall>, n: nat, cfg: Config, f: Figure)
    requires n <= |group| && group != [] && ValidConfig(cfg) && ValidCalls(group)
    ensures Total(TallyCalls(before, group, n, cfg), f) == Total(before, f) + SumOfCalls(group, n, cfg, f)
    decreases n
  {
    hide TallyCalls, OfCall, Total;
    if n == 0 {
      MovesNone(before, group, cfg);
    } else {
      CallsAddUp(before, group, n - 1, cfg, f);
      CallAdds(before, group, n - 1, cfg, f);
    }
  }

  lemma {:induction false} FirstCovers(group: seq<ReadCall>, cfg: Config)
    requires group != [] && ValidConfig(cfg) && ValidCalls(group)
    ensures SelectorFirst(group) <==> BySelector(group)
    ensures BySelector(group) ==> (CoveredByFirst(group, cfg) <==> FirstHasAll(group, cfg))
  {
    forall k | 0 <= k < |group|
      ensures IsBounded(group[k], cfg) <==> HasLines(group[k])
      ensures HasLines(group[k]) ==>
        RequestedInterval(group[k], cfg) == Some(Interval(FirstLine(group[k]), LastLine(group[k], cfg)))
      ensures DeliveredInterval(group[k], cfg).Some? <==> HasLines(group[k])
    {
      assert ValidCall(group[k]);
      DeliveryOf(group[k], cfg);
    }
    hide RequestedInterval, DeliveredInterval, HasLines, IsBounded;
  }

  lemma {:induction false} GroupAdds(before: Tally, group: seq<ReadCall>, cfg: Config, f: Figure)
    requires group != [] && ValidConfig(cfg) && ValidCalls(group)
    ensures Total(TallyGroup(before, group, cfg), f)
         == Total(before, f) + SumOfCalls(group, |group|, cfg, f) + OfGroup(group, cfg, f)
  {
    CallsAddUp(CountGroup(before, group), group, |group|, cfg, f);
    GroupUnfolds(before, group, cfg);
    FirstCovers(group, cfg);
    CallsOnly(group, |group|, cfg, f);
    hide TallyCalls, TallyGroup, SumOfCalls, CoveredByFirst, FirstHasAll, SelectorFirst, BySelector;
  }

  /** Calls add nothing to the numbers of groups. */
  lemma {:induction false} CallsOnly(group: seq<ReadCall>, n: nat, cfg: Config, f: Figure)
    requires n <= |group|
    ensures f in {SelectorGroups, SingleGroups, CoveredGroups} ==> SumOfCalls(group, n, cfg, f) == 0.0
  {
    if n > 0 {
      CallsOnly(group, n - 1, cfg, f);
    }
    hide Skipped, Price;
  }

  /** Every total of a replay is the sum of what the calls and the groups add to it by their own figures:
      tokens and calls of those paid, numbers of those skipped, cut or over budget, the same for the groups
      of either kind and for the calls whose lines are not known, and the numbers of groups. */
  lemma {:induction false} TotalsAreSums(groups: seq<seq<ReadCall>>, n: nat, cfg: Config, f: Figure)
    requires n <= |groups| && AllGroups(groups) && ValidConfig(cfg)
    requires forall i :: 0 <= i < |groups| ==> ValidCalls(groups[i])
    ensures Total(TallyGroups(groups, n, cfg), f) == SumOfGroups(groups, n, cfg, f)
    decreases n
  {
    if n > 0 {
      TotalsAreSums(groups, n - 1, cfg, f);
      GroupAdds(TallyGroups(groups, n - 1, cfg), groups[n - 1], cfg, f);
      hide TallyGroup, SumOfCalls, OfGroup, Total;
    }
  }
}
