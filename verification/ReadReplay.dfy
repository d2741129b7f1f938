/** Replaying the reads of one file under a candidate configuration. Phase one charges each read
    that is not already covered; phase two fills every line that was really read but would not have
    been delivered, in chunks no larger than one call may return. Costs are exact reals. */
module ReadReplay {
  import opened Options
  import opened Intervals
  import opened SelectorReads

  datatype Intent =
    | Bare
    | Ranged(start: Option<int>, end: Option<int>)
    | Raw
    | Conflicts
    | Other

  datatype ReadCall = ReadCall(intent: Intent, actualStart: Option<int>, actualEnd: Option<int>)

  datatype FileStats = FileStats(sizeLines: int, tokensPerLine: real, bytesPerLine: real)

  datatype Config = Config(defaultPage: int, lineCap: int, byteCap: int, summarizeMin: int)

  const ROUNDTRIP_OVERHEAD: real := 200.0

  /** The lines one call may return: the line cap, and the byte cap at the file's bytes per line. */
  function CallCap(fs: FileStats, cfg: Config): int {
    if fs.bytesPerLine > 0.0 then Min(cfg.lineCap, Max(1, (cfg.byteCap as real / fs.bytesPerLine).Floor))
    else cfg.lineCap
  }

  /** The range a call returns under the configuration; None for intents without line bounds. */
  function EffectiveReturned(rc: ReadCall, fs: FileStats, cfg: Config): (r: Option<Interval>)
    ensures r.Some? ==> r.value.Proper()
  {
    var size := Max(fs.sizeLines, 1);
    match rc.intent
    case Bare => Some(Bounded(1, cfg.defaultPage, size, fs, cfg))
    case Ranged(start, end) =>
      var s := if start.Some? && start.value != 0 then start.value else 1;
      Some(Bounded(s, if end.Some? then end.value else s + cfg.defaultPage - 1, size, fs, cfg))
    case Raw => Some(Bounded(1, size, size, fs, cfg))
    case Conflicts => None
    case Other => None
  }

  function Bounded(start: int, endIntent: int, size: int, fs: FileStats, cfg: Config): (r: Interval)
    ensures r.Proper() && r.lo == start
  {
    var end := Min(Min(endIntent, size), start + cfg.lineCap - 1);
    var end' := if fs.bytesPerLine > 0.0
                then Min(end, start + Max(1, (cfg.byteCap as real / fs.bytesPerLine).Floor) - 1) else end;
    Interval(start, if end' < start then start else end')
  }

  /** No call returns more than the cap allows, nor lines beyond the end of the file or of the
      request, as long as it returns more than its first line. */
  lemma {:induction false} ReturnedWithinCap(rc: ReadCall, fs: FileStats, cfg: Config)
    requires cfg.lineCap >= 1
    requires EffectiveReturned(rc, fs, cfg).Some?
    ensures var r := EffectiveReturned(rc, fs, cfg).value;
      && 1 <= r.hi - r.lo + 1 <= CallCap(fs, cfg)
      && (r.hi > r.lo ==> r.hi <= Max(fs.sizeLines, 1))
      && (r.hi > r.lo && rc.intent.Ranged? && rc.intent.end.Some? ==> r.hi <= rc.intent.end.value)
  {
  }

  function CostOfChunk(iv: Interval, fs: FileStats, bare: bool, cfg: Config): real {
    var raw := Max(iv.hi - iv.lo + 1, 0) as real * fs.tokensPerLine;
    if bare && cfg.summarizeMin >= 0 && fs.sizeLines >= cfg.summarizeMin then raw * 0.35 else raw
  }

  // ------------------------------------------------------------ chunks

  function Chunks(iv: Interval, cap: int): seq<Interval>
    requires cap >= 1
    decreases iv.hi - iv.lo + 1
  {
    if iv.lo > iv.hi then []
    else
      var end := Min(iv.lo + cap - 1, iv.hi);
      [Interval(iv.lo, end)] + Chunks(Interval(end + 1, iv.hi), cap)
  }

  /** Consecutive pieces of `iv`: the first starts where it starts, each next one right after the
      previous, the last ends where it ends, and none is larger than the cap. */
  ghost predicate IsPartition(chunks: seq<Interval>, iv: Interval, cap: int) {
    && (chunks == [] ==> iv.lo > iv.hi)
    && (chunks != [] ==> chunks[0].lo == iv.lo && chunks[|chunks| - 1].hi == iv.hi)
    && (forall k :: 0 <= k < |chunks| ==> 1 <= chunks[k].hi - chunks[k].lo + 1 <= cap)
    && (forall k :: 0 <= k < |chunks| - 1 ==> chunks[k + 1].lo == chunks[k].hi + 1)
  }

  lemma {:induction false} ChunksPartition(iv: Interval, cap: int)
    requires cap >= 1
    ensures IsPartition(Chunks(iv, cap), iv, cap)
    ensures forall x :: Covered(Chunks(iv, cap), x) <==> iv.Has(x)
    ensures forall k :: 0 <= k < |Chunks(iv, cap)| - 1 ==> Chunks(iv, cap)[k].hi - Chunks(iv, cap)[k].lo + 1 == cap
    decreases iv.hi - iv.lo + 1
  {
    hide Chunks;
    ChunksUnfold(iv, cap);
    if iv.lo <= iv.hi {
      var first := Interval(iv.lo, Min(iv.lo + cap - 1, iv.hi));
      var rest := Interval(first.hi + 1, iv.hi);
      ChunksPartition(rest, cap);
      ChunksUnfold(rest, cap);
      var tail := Chunks(rest, cap);
      forall x
        ensures Covered(Chunks(iv, cap), x) <==> iv.Has(x)
      {
        CoveredCons(first, tail, x);
      }
      assert Chunks(iv, cap) == [first] + tail;
    }
  }

  method ChunkRange(iv: Interval, fs: FileStats, cfg: Config) returns (out: seq<Interval>)
    requires cfg.lineCap >= 1
    ensures out == Chunks(iv, CallCap(fs, cfg))
    ensures IsPartition(out, iv, CallCap(fs, cfg))
  {
    hide *;
    CapIs(fs, cfg);
    var maxPerCall := cfg.lineCap;
    if fs.bytesPerLine > 0.0 {
      maxPerCall := Min(maxPerCall, Max(1, (cfg.byteCap as real / fs.bytesPerLine).Floor));
    }
    out := ChunksOf(iv, maxPerCall);
    ChunksPartition(iv, maxPerCall);
  }

  lemma {:induction false} CapIs(fs: FileStats, cfg: Config)
    requires cfg.lineCap >= 1
    ensures CallCap(fs, cfg) >= 1
    ensures fs.bytesPerLine > 0.0 ==>
              CallCap(fs, cfg) == Min(cfg.lineCap, Max(1, (cfg.byteCap as real / fs.bytesPerLine).Floor))
    ensures !(fs.bytesPerLine > 0.0) ==> CallCap(fs, cfg) == cfg.lineCap
  {
  }

  /** The loop that cuts a range into chunks. */
  method ChunksOf(iv: Interval, maxPerCall: int) returns (out: seq<Interval>)
    requires maxPerCall >= 1
    ensures out == Chunks(iv, maxPerCall)
  {
    hide *;
    out := [];
    var cur := iv.lo;
    assert [] + Chunks(iv, maxPerCall) == Chunks(iv, maxPerCall);
    while cur <= iv.hi
      invariant Chunks(iv, maxPerCall) == out + Chunks(Interval(cur, iv.hi), maxPerCall)
      decreases iv.hi - cur
    {
      ChunksUnfold(Interval(cur, iv.hi), maxPerCall);
      var end := Min(cur + maxPerCall - 1, iv.hi);
      Prepend(out, [Interval(cur, end)], Chunks(Interval(end + 1, iv.hi), maxPerCall));
      out := out + [Interval(cur, end)];
      cur := end + 1;
    }
    ChunksUnfold(Interval(cur, iv.hi), maxPerCall);
    assert out + [] == out;
  }

  lemma {:induction false} ChunksUnfold(iv: Interval, cap: int)
    requires cap >= 1
    ensures iv.lo > iv.hi ==> Chunks(iv, cap) == []
    ensures iv.lo <= iv.hi ==>
      var end := Min(iv.lo + cap - 1, iv.hi);
      iv.lo <= end <= iv.hi && Chunks(iv, cap) == [Interval(iv.lo, end)] + Chunks(Interval(end + 1, iv.hi), cap)
  {
  }

  // ------------------------------------------------------------ phase one

  datatype Charge = Charge(lines: Interval, bare: bool)

  function Lines(charges: seq<Charge>): (r: seq<Interval>)
    ensures |r| == |charges|
  {
    seq(|charges|, i requires 0 <= i < |charges| => charges[i].lines)
  }

  function Cost(charges: seq<Charge>, fs: FileStats, cfg: Config): real {
    if charges == [] then 0.0
    else
      var last := charges[|charges| - 1];
      Cost(charges[..|charges| - 1], fs, cfg) + CostOfChunk(last.lines, fs, last.bare, cfg) + ROUNDTRIP_OVERHEAD
  }

  /** The reads charged in phase one: those not covered by the ones charged before. */
  ghost function PhaseOne(calls: seq<ReadCall>, fs: FileStats, cfg: Config): (r: seq<Charge>)
    ensures forall k :: 0 <= k < |r| ==> r[k].lines.Proper()
  {
    if calls == [] then []
    else
      var before, rc := PhaseOne(calls[..|calls| - 1], fs, cfg), calls[|calls| - 1];
      match EffectiveReturned(rc, fs, cfg)
      case None => before
      case Some(iv) =>
        if FullyCovered(Lines(before), iv) then before else before + [Charge(iv, rc.intent.Bare?)]
  }

  /** The ranges that were really returned. */
  function Observed(calls: seq<ReadCall>): (r: seq<Interval>)
    ensures AllProper(r)
  {
    if calls == [] then []
    else
      var before, rc := Observed(calls[..|calls| - 1]), calls[|calls| - 1];
      if rc.actualStart.Some? && rc.actualEnd.Some? && rc.actualEnd.value >= rc.actualStart.value
      then before + [Interval(rc.actualStart.value, rc.actualEnd.value)] else before
  }

  // ------------------------------------------------------------ the replay

  /** The shortfall: observed lines that phase one does not deliver. */
  ghost predicate IsShortfall(gaps: seq<Interval>, observed: seq<Interval>, delivered: seq<Interval>) {
    && Canonical(gaps)
    && forall x :: Covered(gaps, x) <==> Covered(observed, x) && !Covered(delivered, x)
  }

  /** The chunks of several gaps, in order. */
  function AllChunks(gaps: seq<Interval>, cap: int): seq<Interval>
    requires cap >= 1
  {
    if gaps == [] then [] else AllChunks(gaps[..|gaps| - 1], cap) + Chunks(gaps[|gaps| - 1], cap)
  }

  ghost predicate Disjoint(ivs: seq<Interval>) {
    forall i, j :: 0 <= i < j < |ivs| ==> ivs[i].hi < ivs[j].lo
  }

  ghost predicate WithinCap(chunks: seq<Interval>, cap: int) {
    forall k :: 0 <= k < |chunks| ==> 1 <= chunks[k].hi - chunks[k].lo + 1 <= cap
  }

  ghost predicate EndsBy(chunks: seq<Interval>, end: int) {
    forall k :: 0 <= k < |chunks| ==> chunks[k].hi <= end
  }

  /** The chunks of canonical gaps cover exactly the gaps, each line once, in pieces within the cap. */
  lemma {:induction false} AllChunksCorrect(gaps: seq<Interval>, cap: int)
    requires cap >= 1 && Canonical(gaps)
    ensures forall x :: Covered(AllChunks(gaps, cap), x) <==> Covered(gaps, x)
    ensures WithinCap(AllChunks(gaps, cap), cap) && Disjoint(AllChunks(gaps, cap))
    ensures TotalSize(AllChunks(gaps, cap)) == TotalSize(gaps)
  {
    AllChunksCover(gaps, cap);
    AllChunksShape(gaps, cap);
    AllChunksSize(gaps, cap);
  }

  lemma {:induction false} AllChunksCover(gaps: seq<Interval>, cap: int)
    requires cap >= 1
    ensures forall x :: Covered(AllChunks(gaps, cap), x) <==> Covered(gaps, x)
    decreases |gaps|
  {
    if gaps != [] {
      var init, last := gaps[..|gaps| - 1], gaps[|gaps| - 1];
      assert gaps == init + [last];
      AllChunksCover(init, cap);
      ChunksPartition(last, cap);
      forall x
        ensures Covered(AllChunks(gaps, cap), x) <==> Covered(gaps, x)
      {
        CoveredAppend(AllChunks(init, cap), Chunks(last, cap), x);
        CoveredSnoc(init, last, x);
      }
    }
  }

  lemma {:induction false} AllChunksShape(gaps: seq<Interval>, cap: int)
    requires cap >= 1 && Canonical(gaps)
    ensures WithinCap(AllChunks(gaps, cap), cap) && Disjoint(AllChunks(gaps, cap))
    ensures if gaps == [] then AllChunks(gaps, cap) == [] else EndsBy(AllChunks(gaps, cap), gaps[|gaps| - 1].hi)
    decreases |gaps|
  {
    if gaps != [] {
      var init, last := gaps[..|gaps| - 1], gaps[|gaps| - 1];
      assert init != [] ==> gaps[|init| - 1].hi + 1 < gaps[|init|].lo;
      assert last.Proper();
      AllChunksShape(init, cap);
      ChunksPartition(last, cap);
      PartitionOrdered(Chunks(last, cap), last, cap);
      hide Chunks;
      AppendChunks(AllChunks(init, cap), Chunks(last, cap), last, cap);
    }
  }

  lemma {:induction false} AllChunksSize(gaps: seq<Interval>, cap: int)
    requires cap >= 1 && AllProper(gaps)
    ensures TotalSize(AllChunks(gaps, cap)) == TotalSize(gaps)
    decreases |gaps|
  {
    if gaps != [] {
      var init, last := gaps[..|gaps| - 1], gaps[|gaps| - 1];
      assert last.Proper();
      AllChunksSize(init, cap);
      ChunksSize(last, cap);
      TotalSizeAppend(AllChunks(init, cap), Chunks(last, cap));
    }
  }

  lemma {:induction false} AppendChunks(a: seq<Interval>, b: seq<Interval>, last: Interval, cap: int)
    requires WithinCap(a, cap) && Disjoint(a) && EndsBy(a, last.lo - 1)
    requires IsPartition(b, last, cap) && Disjoint(b) && last.Proper()
    requires forall k :: 0 <= k < |b| ==> last.lo <= b[k].lo && b[k].hi <= last.hi
    ensures WithinCap(a + b, cap) && Disjoint(a + b) && EndsBy(a + b, last.hi)
  {
  }

  lemma {:induction false} PartitionOrdered(chunks: seq<Interval>, iv: Interval, cap: int)
    requires IsPartition(chunks, iv, cap)
    ensures Disjoint(chunks)
    ensures forall k :: 0 <= k < |chunks| ==> iv.lo <= chunks[k].lo && chunks[k].hi <= iv.hi
    decreases |chunks|
  {
    if |chunks| > 1 {
      var rest := chunks[1..];
      forall k | 0 <= k < |rest| - 1
        ensures rest[k + 1].lo == rest[k].hi + 1
      {
        assert chunks[k + 1 + 1].lo == chunks[k + 1].hi + 1;
      }
      assert chunks[1].lo == chunks[0].hi + 1;
      PartitionOrdered(rest, Interval(chunks[0].hi + 1, iv.hi), cap);
      forall i, j | 0 <= i < j < |chunks|
        ensures chunks[i].hi < chunks[j].lo
      {
        assert rest[j - 1] == chunks[j];
        if i > 0 { assert rest[i - 1] == chunks[i]; }
      }
      forall k | 0 <= k < |chunks|
        ensures iv.lo <= chunks[k].lo && chunks[k].hi <= iv.hi
      {
        if k > 0 { assert rest[k - 1] == chunks[k]; }
      }
    }
  }

  lemma {:induction false} TotalSizeAppend(a: seq<Interval>, b: seq<Interval>)
    ensures TotalSize(a + b) == TotalSize(a) + TotalSize(b)
    decreases |b|
  {
    if b == [] {
      assert a + b == a;
    } else {
      assert (a + b)[..|a + b| - 1] == a + b[..|b| - 1];
      TotalSizeAppend(a, b[..|b| - 1]);
    }
  }

  lemma {:induction false} ChunksSize(iv: Interval, cap: int)
    requires cap >= 1
    ensures TotalSize(Chunks(iv, cap)) == Max(iv.hi - iv.lo + 1, 0)
    decreases iv.hi - iv.lo + 1
  {
    if iv.lo <= iv.hi {
      var first := Interval(iv.lo, Min(iv.lo + cap - 1, iv.hi));
      ChunksSize(Interval(first.hi + 1, iv.hi), cap);
      TotalSizeAppend([first], Chunks(Interval(first.hi + 1, iv.hi), cap));
      assert [first][..0] == [];
      assert TotalSize([first]) == first.hi - first.lo + 1;
    }
  }

  function AsRanges(chunks: seq<Interval>): seq<Charge> {
    seq(|chunks|, i requires 0 <= i < |chunks| => Charge(chunks[i], false))
  }

  /** The cost of explicitly ranged reads of so many lines in so many calls. */
  function RangedCost(lines: int, calls: int, fs: FileStats): real {
    lines as real * fs.tokensPerLine + calls as real * 200.0
  }

  /** The cost of explicitly ranged reads: tokens for their lines, and one round trip each. */
  lemma {:induction false} RangeCost(chunks: seq<Interval>, fs: FileStats, cfg: Config)
    requires AllProper(chunks)
    ensures Cost(AsRanges(chunks), fs, cfg)
         == RangedCost(TotalSize(chunks), |chunks|, fs)
    decreases |chunks|
  {
    if chunks != [] {
      var init, last := chunks[..|chunks| - 1], chunks[|chunks| - 1];
      assert AsRanges(chunks)[..|chunks| - 1] == AsRanges(init);
      RangeCost(init, fs, cfg);
      assert last.Proper();
      Distribute(TotalSize(init), last.hi - last.lo + 1, fs.tokensPerLine);
    }
  }

  lemma {:induction false} Distribute(a: int, b: int, r: real)
    ensures (a + b) as real * r == a as real * r + b as real * r
  {
  }

  /** Merging again after adding intervals is merging everything at once. */
  lemma {:induction false} MergedAgain(a: seq<Interval>, b: seq<Interval>)
    requires AllProper(a) && AllProper(b)
    ensures Merged(Merged(a) + b) == Merged(a + b)
    ensures AllProper(Merged(a))
  {
    MergedCorrect(a);
    MergedCorrect(Merged(a) + b);
    MergedCorrect(a + b);
    forall x
      ensures Covered(Merged(a) + b, x) <==> Covered(a + b, x)
    {
      CoveredAppend(Merged(a), b, x);
      CoveredAppend(a, b, x);
    }
    assert SameLines(Merged(Merged(a) + b), a + b);
  }

  /** The variables of phase one after replaying `calls`. */
  ghost predicate PhaseOneState(calls: seq<ReadCall>, fs: FileStats, cfg: Config, covered: seq<Interval>, total: real,
                                kept: nat) {
    var charges := PhaseOne(calls, fs, cfg);
    covered == Merged(Lines(charges)) && total == Cost(charges, fs, cfg) && kept == |charges|
  }

  lemma {:induction false} PhaseOneStep(calls: seq<ReadCall>, fs: FileStats, cfg: Config, covered: seq<Interval>,
                                        total: real, kept: nat)
    requires calls != [] && PhaseOneState(calls[..|calls| - 1], fs, cfg, covered, total, kept)
    ensures var rc := calls[|calls| - 1];
      match EffectiveReturned(rc, fs, cfg)
      case None => PhaseOneState(calls, fs, cfg, covered, total, kept)
      case Some(iv) =>
        if InOne(covered, iv) then PhaseOneState(calls, fs, cfg, covered, total, kept)
        else PhaseOneState(calls, fs, cfg, Merged(covered + [iv]),
                           total + CostOfChunk(iv, fs, rc.intent.Bare?, cfg) + ROUNDTRIP_OVERHEAD, kept + 1)
  {
    var rc := calls[|calls| - 1];
    var before := PhaseOne(calls[..|calls| - 1], fs, cfg);
    var lines := Lines(before);
    MergedCorrect(lines);
    match EffectiveReturned(rc, fs, cfg)
    case None =>
    case Some(iv) =>
      CoveredIffInOne(covered, iv);
      assert FullyCovered(covered, iv) <==> FullyCovered(lines, iv);
      var charge := Charge(iv, rc.intent.Bare?);
      assert Lines(before + [charge]) == lines + [iv];
      assert (before + [charge])[..|before|] == before;
      MergedAgain(lines, [iv]);
  }

  method ReplayPhaseOne(calls: seq<ReadCall>, fs: FileStats, cfg: Config)
    returns (total: real, kept: nat, covered: seq<Interval>, observed: seq<Interval>)
    ensures PhaseOneState(calls, fs, cfg, covered, total, kept)
    ensures observed == Observed(calls)
  {
    covered := [];
    observed := [];
    total := 0.0;
    kept := 0;
    assert Lines(PhaseOne(calls[..0], fs, cfg)) == [];
    assert PhaseOneState(calls[..0], fs, cfg, covered, total, kept);
    hide PhaseOneState;
    for i := 0 to |calls|
      invariant observed == Observed(calls[..i])
      invariant AllProper(covered)
      invariant PhaseOneState(calls[..i], fs, cfg, covered, total, kept)
    {
      var rc := calls[i];
      assert calls[..i + 1][..i] == calls[..i] && calls[..i + 1][i] == rc;
      if rc.actualStart.Some? && rc.actualEnd.Some? && rc.actualEnd.value >= rc.actualStart.value {
        observed := observed + [Interval(rc.actualStart.value, rc.actualEnd.value)];
      }
      PhaseOneStep(calls[..i + 1], fs, cfg, covered, total, kept);
      var ret := EffectiveReturned(rc, fs, cfg);
      if ret.None? {
        continue;
      }
      var isIn := Contained(ret.value, covered);
      if isIn {
        continue;
      }
      total := total + CostOfChunk(ret.value, fs, rc.intent.Bare?, cfg);
      total := total + ROUNDTRIP_OVERHEAD;
      kept := kept + 1;
      covered := covered + [ret.value];
      covered := Merge(covered);
    }
    assert calls[..|calls|] == calls;
  }

  /** The shortfall of every merged observed range, one after the other. */
  method FindGaps(observed: seq<Interval>, covered: seq<Interval>) returns (gaps: seq<Interval>)
    requires AllProper(observed) && AllProper(covered)
    ensures IsShortfall(gaps, observed, covered)
  {
    var needed := Merge(observed);
    gaps := [];
    assert IsShortfall(gaps, needed[..0], covered);
    for i := 0 to |needed|
      invariant IsShortfall(gaps, needed[..i], covered)
      invariant EndsBy(gaps, if i == 0 then 0 else needed[i - 1].hi) && (i == 0 ==> gaps == [])
    {
      assert needed[i].Proper();
      var left := Subtract(needed[i], covered);
      GapStep(needed, i, covered, gaps, left);
      gaps := gaps + left;
    }
    assert needed[..|needed|] == needed;
    assert SameLines(needed, observed);
  }

  lemma {:induction false} GapStep(needed: seq<Interval>, i: nat, covered: seq<Interval>, gaps: seq<Interval>,
                                   left: seq<Interval>)
    requires Canonical(needed) && i < |needed|
    requires IsShortfall(gaps, needed[..i], covered)
    requires EndsBy(gaps, if i == 0 then 0 else needed[i - 1].hi) && (i == 0 ==> gaps == [])
    requires IsDifference(needed[i], covered, left)
    ensures IsShortfall(gaps + left, needed[..i + 1], covered)
    ensures EndsBy(gaps + left, needed[i].hi)
  {
    assert i > 0 ==> needed[i - 1].hi + 1 < needed[i].lo;
    AppendCanonical(gaps, left, needed[i].lo);
    assert needed[..i + 1] == needed[..i] + [needed[i]];
    forall x
      ensures Covered(gaps + left, x) <==> Covered(needed[..i + 1], x) && !Covered(covered, x)
    {
      CoveredAppend(gaps, left, x);
      CoveredSnoc(needed[..i], needed[i], x);
    }
    assert needed[i].Proper() && (i > 0 ==> needed[i - 1].hi < needed[i].hi);
  }

  /** The variables of phase two after charging the given chunks. */
  ghost predicate Filled(chunks: seq<Interval>, fs: FileStats, cfg: Config, before: real, keptBefore: nat, total: real,
                         kept: nat) {
    total == before + Cost(AsRanges(chunks), fs, cfg) && kept == keptBefore + |chunks|
  }

  /** Charging the chunks of one gap. */
  method FillGap(gap: Interval, fs: FileStats, cfg: Config, ghost done: seq<Interval>, ghost before: real,
                 ghost keptBefore: nat, total0: real, kept0: nat, covered0: seq<Interval>)
    returns (total: real, kept: nat, covered: seq<Interval>)
    requires cfg.lineCap >= 1
    requires Filled(done, fs, cfg, before, keptBefore, total0, kept0)
    ensures var chunks := Chunks(gap, CallCap(fs, cfg));
      Filled(done + chunks, fs, cfg, before, keptBefore, total, kept) && covered == covered0 + chunks
  {
    total, kept, covered := total0, kept0, covered0;
    var chunks := ChunkRange(gap, fs, cfg);
    hide Chunks, IsPartition, Cost;
    assert done + chunks[..0] == done;
    for j := 0 to |chunks|
      invariant Filled(done + chunks[..j], fs, cfg, before, keptBefore, total, kept)
      invariant covered == covered0 + chunks[..j]
    {
      ChargeOneMore(done, chunks, j, fs, cfg);
      total := total + CostOfChunk(chunks[j], fs, false, cfg);
      total := total + ROUNDTRIP_OVERHEAD;
      kept := kept + 1;
      covered := covered + [chunks[j]];
    }
    assert chunks[..|chunks|] == chunks;
  }

  /** Filling the gaps: every chunk is charged, and the coverage is merged after each gap. */
  method FillGaps(gaps: seq<Interval>, fs: FileStats, cfg: Config, before: real, keptBefore: nat,
                  coveredBefore: seq<Interval>)
    returns (total: real, kept: nat, covered: seq<Interval>)
    requires cfg.lineCap >= 1 && AllProper(gaps) && Canonical(coveredBefore)
    ensures var chunks := AllChunks(gaps, CallCap(fs, cfg));
      && Filled(chunks, fs, cfg, before, keptBefore, total, kept)
      && covered == Merged(coveredBefore + chunks)
  {
    ghost var cap := CallCap(fs, cfg);
    total, kept, covered := before, keptBefore, coveredBefore;
    FillStart(gaps, cap, fs, cfg, coveredBefore);
    assert Filled([], fs, cfg, before, keptBefore, total, kept);
    hide AllChunks, Chunks, Merged, Filled, Cost, CallCap;
    for i := 0 to |gaps|
      invariant Filled(AllChunks(gaps[..i], cap), fs, cfg, before, keptBefore, total, kept)
      invariant covered == Merged(coveredBefore + AllChunks(gaps[..i], cap))
    {
      FillStep(gaps, i, cap, coveredBefore);
      total, kept, covered := FillGap(gaps[i], fs, cfg, AllChunks(gaps[..i], cap), before, keptBefore, total, kept,
                                      covered);
      covered := Merge(covered);
    }
    assert gaps[..|gaps|] == gaps;
  }

  lemma {:induction false} FillStart(gaps: seq<Interval>, cap: int, fs: FileStats, cfg: Config, covered: seq<Interval>)
    requires cap >= 1 && Canonical(covered)
    ensures AllChunks(gaps[..0], cap) == [] && Cost(AsRanges([]), fs, cfg) == 0.0
    ensures covered == Merged(covered + [])
  {
    assert covered + [] == covered;
    MergedCorrect(covered);
  }

  lemma {:induction false} ChargeOneMore(done: seq<Interval>, chunks: seq<Interval>, j: nat, fs: FileStats, cfg: Config)
    requires j < |chunks|
    ensures Cost(AsRanges(done + chunks[..j + 1]), fs, cfg)
         == Cost(AsRanges(done + chunks[..j]), fs, cfg) + CostOfChunk(chunks[j], fs, false, cfg) + ROUNDTRIP_OVERHEAD
  {
    var all := AsRanges(done + chunks[..j + 1]);
    assert all[..|all| - 1] == AsRanges(done + chunks[..j]);
    assert all[|all| - 1] == Charge(chunks[j], false);
  }

  lemma {:induction false} FillStep(gaps: seq<Interval>, i: nat, cap: int, coveredBefore: seq<Interval>)
    requires cap >= 1 && AllProper(gaps) && i < |gaps| && Canonical(coveredBefore)
    ensures var done, chunks := AllChunks(gaps[..i], cap), Chunks(gaps[i], cap);
      var coveredAtGap := Merged(coveredBefore + done);
      && AllChunks(gaps[..i + 1], cap) == done + chunks
      && AllProper(coveredAtGap + chunks)
      && Merged(coveredAtGap + chunks) == Merged(coveredBefore + (done + chunks))
  {
    var done, chunks := AllChunks(gaps[..i], cap), Chunks(gaps[i], cap);
    assert gaps[..i + 1][..i] == gaps[..i] && gaps[..i + 1][i] == gaps[i];
    assert AllChunks(gaps[..i + 1], cap) == done + chunks;
    AllChunksProper(gaps[..i], cap);
    ChunksProper(gaps[i], cap);
    hide AllChunks, Chunks, Merged;
    MergedAgain(coveredBefore + done, chunks);
    Prepend(coveredBefore, done, chunks);
  }

  lemma {:induction false} ChunksProper(gap: Interval, cap: int)
    requires cap >= 1
    ensures AllProper(Chunks(gap, cap))
  {
    ChunksPartition(gap, cap);
    var c := Chunks(gap, cap);
    assert forall k :: 0 <= k < |c| ==> c[k].Proper();
  }

  lemma {:induction false} AllChunksProper(gaps: seq<Interval>, cap: int)
    requires cap >= 1
    ensures AllProper(AllChunks(gaps, cap))
    decreases |gaps|
  {
    if gaps != [] {
      AllChunksProper(gaps[..|gaps| - 1], cap);
      ChunksProper(gaps[|gaps| - 1], cap);
    }
  }

  /** The totals of a replay: those of the charged reads and of the chunks that fill what the charged
      reads lack of the observed lines. */
  ghost predicate ReplayTotals(calls: seq<ReadCall>, fs: FileStats, cfg: Config, total: real, kept: nat)
    requires cfg.lineCap >= 1
  {
    var charges := PhaseOne(calls, fs, cfg);
    exists gaps :: IsShortfall(gaps, Observed(calls), Lines(charges))
      && total == Cost(charges, fs, cfg) + Cost(AsRanges(AllChunks(gaps, CallCap(fs, cfg))), fs, cfg)
      && kept == |charges| + |AllChunks(gaps, CallCap(fs, cfg))|
  }

  /** The estimated tokens and calls for one file. The coverage the replay ends with is exactly the lines
      phase one delivered and the observed lines. */
  method ReplayPair(calls: seq<ReadCall>, fs: FileStats, cfg: Config)
    returns (total: real, kept: nat, ghost coverage: seq<Interval>)
    requires cfg.lineCap >= 1
    ensures ReplayTotals(calls, fs, cfg, total, kept)
    ensures forall x ::
      Covered(coverage, x) <==> (Covered(Lines(PhaseOne(calls, fs, cfg)), x) || Covered(Observed(calls), x))
  {
    var observed, covered, gaps;
    total, kept, covered, observed := ReplayPhaseOne(calls, fs, cfg);
    MergedCorrect(Lines(PhaseOne(calls, fs, cfg)));
    gaps := FindGaps(observed, covered);
    ghost var found := gaps;
    total, kept, coverage := FillGaps(gaps, fs, cfg, total, kept, covered);
    assert IsShortfall(found, Observed(calls), Lines(PhaseOne(calls, fs, cfg)));
    ReplayDelivers(calls, fs, cfg, found);
    hide AllChunks, Cost, PhaseOne, IsShortfall, Merged, Observed, AsRanges;
  }

  // ------------------------------------------------------------ what the replay guarantees

  /** Phase one charges no read for nothing and skips none it should charge: the charged ranges
      together cover every returned range, and each of them brings a line the earlier ones lack. */
  lemma {:induction false} PhaseOneExact(calls: seq<ReadCall>, fs: FileStats, cfg: Config)
    ensures var charges := PhaseOne(calls, fs, cfg);
      && (forall i :: 0 <= i < |calls| && EffectiveReturned(calls[i], fs, cfg).Some? ==>
            FullyCovered(Lines(charges), EffectiveReturned(calls[i], fs, cfg).value))
      && (forall k :: 0 <= k < |charges| ==> !FullyCovered(Lines(charges[..k]), charges[k].lines))
    decreases |calls|
  {
    hide EffectiveReturned;
    if calls != [] {
      var init, rc := calls[..|calls| - 1], calls[|calls| - 1];
      var before, charges := PhaseOne(init, fs, cfg), PhaseOne(calls, fs, cfg);
      PhaseOneExact(init, fs, cfg);
      forall k | 0 <= k < |charges|
        ensures !FullyCovered(Lines(charges[..k]), charges[k].lines)
      {
        assert charges[..k] == before[..k];
        if k == |before| { assert before[..k] == before; }
      }
      if |charges| > |before| {
        assert Lines(charges) == Lines(before) + [charges[|before|].lines];
        forall x { CoveredSnoc(Lines(before), charges[|before|].lines, x); }
      }
      forall i | 0 <= i < |calls| && EffectiveReturned(calls[i], fs, cfg).Some?
        ensures FullyCovered(Lines(charges), EffectiveReturned(calls[i], fs, cfg).value)
      {
        if i < |init| { assert calls[i] == init[i]; }
      }
    }
  }

  /** After the replay the coverage contains every observed line: it is exactly the lines phase one
      delivered and the observed ones. */
  lemma {:induction false} ReplayDelivers(calls: seq<ReadCall>, fs: FileStats, cfg: Config, gaps: seq<Interval>)
    requires cfg.lineCap >= 1
    requires IsShortfall(gaps, Observed(calls), Lines(PhaseOne(calls, fs, cfg)))
    ensures var delivered := Lines(PhaseOne(calls, fs, cfg));
      forall x :: Covered(Merged(Merged(delivered) + AllChunks(gaps, CallCap(fs, cfg))), x)
                  <==> Covered(delivered, x) || Covered(Observed(calls), x)
  {
    CoverageAfterFilling(gaps, CallCap(fs, cfg), Observed(calls), Lines(PhaseOne(calls, fs, cfg)));
  }

  lemma {:induction false} CoverageAfterFilling(gaps: seq<Interval>, cap: int, observed: seq<Interval>,
                                                delivered: seq<Interval>)
    requires cap >= 1 && AllProper(delivered) && IsShortfall(gaps, observed, delivered)
    ensures forall x :: Covered(Merged(Merged(delivered) + AllChunks(gaps, cap)), x)
                        <==> Covered(delivered, x) || Covered(observed, x)
  {
    var chunks := AllChunks(gaps, cap);
    AllChunksCover(gaps, cap);
    AllChunksProper(gaps, cap);
    MergedAgain(delivered, chunks);
    MergedCorrect(delivered + chunks);
    hide AllChunks, Merged, Canonical;
    forall x
      ensures Covered(Merged(Merged(delivered) + chunks), x) <==> Covered(delivered, x) || Covered(observed, x)
    {
      CoveredAppend(delivered, chunks, x);
    }
  }

  /** Phase two pays for each missing line exactly once, in disjoint chunks within the cap: its cost
      is the number of missing lines at the token rate, plus one round trip per chunk. */
  lemma {:induction false} PhaseTwoCost(calls: seq<ReadCall>, fs: FileStats, cfg: Config, gaps: seq<Interval>)
    requires cfg.lineCap >= 1
    requires IsShortfall(gaps, Observed(calls), Lines(PhaseOne(calls, fs, cfg)))
    ensures ChargedOnce(AllChunks(gaps, CallCap(fs, cfg)), Observed(calls), Lines(PhaseOne(calls, fs, cfg)), fs, cfg)
  {
    ChunksChargedOnce(gaps, Observed(calls), Lines(PhaseOne(calls, fs, cfg)), fs, cfg);
  }

  ghost predicate ChargedOnce(chunks: seq<Interval>, observed: seq<Interval>, delivered: seq<Interval>, fs: FileStats,
                              cfg: Config)
  {
    && (forall x :: Covered(chunks, x) <==> Covered(observed, x) && !Covered(delivered, x))
    && Disjoint(chunks) && WithinCap(chunks, CallCap(fs, cfg))
    && Cost(AsRanges(chunks), fs, cfg) == RangedCost(|LineSet(observed) - LineSet(delivered)|, |chunks|, fs)
  }

  lemma {:induction false} ChunksChargedOnce(gaps: seq<Interval>, observed: seq<Interval>, delivered: seq<Interval>,
                                             fs: FileStats, cfg: Config)
    requires cfg.lineCap >= 1 && IsShortfall(gaps, observed, delivered)
    ensures ChargedOnce(AllChunks(gaps, CallCap(fs, cfg)), observed, delivered, fs, cfg)
  {
    var cap := CallCap(fs, cfg);
    AllChunksCorrect(gaps, cap);
    MissingCost(gaps, cap, observed, delivered, fs, cfg);
    hide AllChunks, Cost, LineSet, CallCap, Disjoint, WithinCap, RangedCost;
  }

  lemma {:induction false} MissingCost(gaps: seq<Interval>, cap: int, observed: seq<Interval>, delivered: seq<Interval>,
                                       fs: FileStats, cfg: Config)
    requires cap >= 1 && IsShortfall(gaps, observed, delivered)
    ensures var chunks := AllChunks(gaps, cap);
      Cost(AsRanges(chunks), fs, cfg) == RangedCost(|LineSet(observed) - LineSet(delivered)|, |chunks|, fs)
  {
    var chunks := AllChunks(gaps, cap);
    AllChunksProper(gaps, cap);
    AllChunksSize(gaps, cap);
    SpreadSize(gaps);
    MissingLines(gaps, observed, delivered);
    RangeCost(chunks, fs, cfg);
    hide AllChunks, Cost, LineSet, TotalSize, Covered, RangedCost;
  }

  lemma {:induction false} MissingLines(gaps: seq<Interval>, observed: seq<Interval>, delivered: seq<Interval>)
    requires IsShortfall(gaps, observed, delivered)
    ensures LineSet(gaps) == LineSet(observed) - LineSet(delivered)
  {
    forall x
      ensures x in LineSet(gaps) <==> x in LineSet(observed) - LineSet(delivered)
    {
      InLineSet(gaps, x);
      InLineSet(observed, x);
      InLineSet(delivered, x);
    }
  }
}
