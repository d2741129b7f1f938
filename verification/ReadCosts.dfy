/** How far a replayed read reaches, which reads are charged, and what they cost. */
module ReadCosts {
  import opened Options
  import opened Intervals
  import opened ReadReplay

  // ------------------------------------------------------------ how far a read reaches

  /** Where a read begins: at its own start, if it has one that is not 0, and otherwise at line 1. */
  ghost function FirstLine(intent: Intent): int {
    if intent.Ranged? && intent.start.Some? && intent.start.value != 0 then intent.start.value else 1
  }

  /** A read that begins at `first` may reach line `x`: as far as it asks, which is a default page where it
      names no end, and the whole file where it is raw; within the file; and within both caps. */
  ghost predicate MayReach(intent: Intent, fs: FileStats, cfg: Config, x: int) {
    var first := FirstLine(intent);
    && (intent.Ranged? && intent.end.Some? ==> x <= intent.end.value)
    && (intent.Bare? || (intent.Ranged? && intent.end == None) ==> x - first + 1 <= cfg.defaultPage)
    && (x <= fs.sizeLines || x <= 1)
    && x - first + 1 <= cfg.lineCap
    && (fs.bytesPerLine > 0.0 && x > first ==> (x - first + 1) as real * fs.bytesPerLine <= cfg.byteCap as real)
  }

  /** A read returns its first line and every line it may reach, and no other. */
  lemma {:induction false} ReturnedAsFarAsAllowed(rc: ReadCall, fs: FileStats, cfg: Config)
    ensures EffectiveReturned(rc, fs, cfg).Some? <==> rc.intent.Bare? || rc.intent.Ranged? || rc.intent.Raw?
    ensures EffectiveReturned(rc, fs, cfg).Some? ==>
      var r := EffectiveReturned(rc, fs, cfg).value;
      r.lo == FirstLine(rc.intent)
      && forall x :: r.lo < x ==> (x <= r.hi <==> MayReach(rc.intent, fs, cfg, x))
  {
    hide Bounded;
    if EffectiveReturned(rc, fs, cfg).Some? {
      var first, size := FirstLine(rc.intent), Max(fs.sizeLines, 1);
      var end := match rc.intent
                 case Bare => cfg.defaultPage
                 case Ranged(_, end) => if end.Some? then end.value else first + cfg.defaultPage - 1
                 case _ => size;
      assert EffectiveReturned(rc, fs, cfg) == Some(Bounded(first, end, size, fs, cfg));
      forall x | first < x
        ensures x <= Bounded(first, end, size, fs, cfg).hi <==> MayReach(rc.intent, fs, cfg, x)
      {
        BoundedReaches(first, end, size, fs, cfg, x);
      }
    }
  }

  lemma {:induction false} BoundedReaches(first: int, end: int, size: int, fs: FileStats, cfg: Config, x: int)
    requires first < x
    ensures Bounded(first, end, size, fs, cfg).lo == first
    ensures x <= Bounded(first, end, size, fs, cfg).hi <==>
      && x <= end && x <= size && x - first + 1 <= cfg.lineCap
      && (fs.bytesPerLine > 0.0 ==> (x - first + 1) as real * fs.bytesPerLine <= cfg.byteCap as real)
  {
    if fs.bytesPerLine > 0.0 {
      FitsBytes(x - first + 1, fs.bytesPerLine, cfg.byteCap);
    }
  }

  /** So many lines fit into the byte cap exactly if their bytes do. */
  lemma {:induction false} FitsBytes(n: int, bytesPerLine: real, byteCap: int)
    requires bytesPerLine > 0.0 && n > 1
    ensures n <= Max(1, (byteCap as real / bytesPerLine).Floor) <==> n as real * bytesPerLine <= byteCap as real
  {
    var q := byteCap as real / bytesPerLine;
    assert q * bytesPerLine == byteCap as real;
    assert n <= q.Floor <==> n as real <= q;
    ProductOrder(n as real, q, bytesPerLine);
  }

  lemma {:induction false} ProductOrder(a: real, b: real, c: real)
    requires c > 0.0
    ensures a <= b <==> a * c <= b * c
  {
    assert (b - a) * c == b * c - a * c;
    if a <= b {
      assert (b - a) * c >= 0.0;
    } else {
      assert (a - b) * c > 0.0;
    }
  }

  // ------------------------------------------------------------ which reads are charged

  /** Call `i` returns lines that the charged calls before it do not have: `kept` holds exactly those calls,
      in order. */
  ghost predicate Brings(calls: seq<ReadCall>, fs: FileStats, cfg: Config, charges: seq<Charge>, i: nat)
    requires i < |calls|
  {
    && EffectiveReturned(calls[i], fs, cfg).Some?
    && !FullyCovered(Lines(charges), EffectiveReturned(calls[i], fs, cfg).value)
  }

  /** Charge `k` is that of call `i`. */
  ghost predicate ChargeIs(calls: seq<ReadCall>, fs: FileStats, cfg: Config, charges: seq<Charge>, k: nat, i: nat)
    requires k < |charges|
  {
    && i < |calls| && Brings(calls, fs, cfg, charges[..k], i)
    && charges[k] == Charge(EffectiveReturned(calls[i], fs, cfg).value, calls[i].intent.Bare?)
  }

  ghost predicate AreCharged(calls: seq<ReadCall>, fs: FileStats, cfg: Config, charges: seq<Charge>, kept: seq<nat>) {
    && |kept| == |charges|
    && (forall k :: 0 <= k < |kept| ==> ChargeIs(calls, fs, cfg, charges, k, kept[k]))
    && (forall k, l :: 0 <= k < l < |kept| ==> kept[k] < kept[l])
  }

  /** The charges are those of the calls that bring a line, each with what its own call returns, and marked
      as a bare read if its call is one. */
  lemma {:induction false} ChargedCalls(calls: seq<ReadCall>, fs: FileStats, cfg: Config) returns (kept: seq<nat>)
    ensures AreCharged(calls, fs, cfg, PhaseOne(calls, fs, cfg), kept)
    ensures forall i :: 0 <= i < |calls| && i !in kept ==>
      !Brings(calls, fs, cfg, PhaseOne(calls[..i], fs, cfg), i)
    decreases |calls|
  {
    hide EffectiveReturned, Brings, ChargeIs, PhaseOne;
    if calls == [] {
      kept := [];
      NoCharges(fs, cfg);
    } else {
      var n := |calls| - 1;
      var front := calls[..n];
      var before, charges := PhaseOne(front, fs, cfg), PhaseOne(calls, fs, cfg);
      var earlier := ChargedCalls(front, fs, cfg);
      ChargeOfLast(calls, fs, cfg);
      forall k | 0 <= k < |before|
        ensures earlier[k] < n && k < |charges| && ChargeIs(calls, fs, cfg, charges, k, earlier[k])
      {
        ChargeKept(calls, fs, cfg, before, charges, k, earlier[k]);
      }
      forall i | 0 <= i < n
        ensures Brings(calls, fs, cfg, PhaseOne(calls[..i], fs, cfg), i)
           <==> Brings(front, fs, cfg, PhaseOne(front[..i], fs, cfg), i)
      {
        assert front[..i] == calls[..i];
        BringsAlike(calls, fs, cfg, PhaseOne(calls[..i], fs, cfg), i);
      }
      kept := if Brings(calls, fs, cfg, before, n) then earlier + [n] else earlier;
      assert AreCharged(calls, fs, cfg, charges, kept);
      forall i | 0 <= i < |calls| && i !in kept
        ensures !Brings(calls, fs, cfg, PhaseOne(calls[..i], fs, cfg), i)
      {
        assert i !in earlier;
      }
    }
  }

  lemma {:induction false} NoCharges(fs: FileStats, cfg: Config)
    ensures PhaseOne([], fs, cfg) == []
  {
  }

  lemma {:induction false} BringsAlike(calls: seq<ReadCall>, fs: FileStats, cfg: Config, charges: seq<Charge>, i: nat)
    requires i < |calls| - 1
    ensures Brings(calls[..|calls| - 1], fs, cfg, charges, i) <==> Brings(calls, fs, cfg, charges, i)
  {
    hide EffectiveReturned;
  }

  lemma {:induction false} ChargeKept(calls: seq<ReadCall>, fs: FileStats, cfg: Config, before: seq<Charge>,
                                      charges: seq<Charge>, k: nat, i: nat)
    requires calls != [] && before <= charges && k < |before|
    requires ChargeIs(calls[..|calls| - 1], fs, cfg, before, k, i)
    ensures i < |calls| - 1 && ChargeIs(calls, fs, cfg, charges, k, i)
  {
    hide EffectiveReturned;
    BringsAlike(calls, fs, cfg, before[..k], i);
    assert charges[..k] == before[..k] && charges[k] == before[k];
  }

  lemma {:induction false} ChargeOfLast(calls: seq<ReadCall>, fs: FileStats, cfg: Config)
    requires calls != []
    ensures var n, before, charges := |calls| - 1, PhaseOne(calls[..|calls| - 1], fs, cfg), PhaseOne(calls, fs, cfg);
      && before <= charges
      && (if Brings(calls, fs, cfg, before, n)
          then |charges| == |before| + 1 && ChargeIs(calls, fs, cfg, charges, |before|, n)
          else charges == before)
  {
    hide EffectiveReturned;
    var before, charges := PhaseOne(calls[..|calls| - 1], fs, cfg), PhaseOne(calls, fs, cfg);
    if |charges| > |before| {
      assert charges[..|before|] == before;
    }
  }

  /** The observed lines are those from the start to the end of what any call really returned. */
  lemma {:induction false} ObservedLines(calls: seq<ReadCall>, x: int)
    ensures Covered(Observed(calls), x) <==>
      exists i :: 0 <= i < |calls| && WasReturned(calls[i], x)
  {
    if calls != [] {
      var front, last := calls[..|calls| - 1], calls[|calls| - 1];
      ObservedLines(front, x);
      assert forall i :: 0 <= i < |front| ==> front[i] == calls[i];
      if |Observed(calls)| > |Observed(front)| {
        CoveredSnoc(Observed(front), Observed(calls)[|Observed(front)|], x);
      }
      if WasReturned(last, x) {
        assert WasReturned(calls[|front|], x);
      }
    }
  }

  ghost predicate WasReturned(rc: ReadCall, x: int) {
    rc.actualStart.Some? && rc.actualEnd.Some? && rc.actualStart.value <= x <= rc.actualEnd.value
  }

  // ------------------------------------------------------------ what they cost

  /** The lines of the charges that are bare reads, or of those that are not. */
  ghost function LinesOf(charges: seq<Charge>, bare: bool): int {
    if charges == [] then 0
    else
      var last := charges[|charges| - 1];
      LinesOf(charges[..|charges| - 1], bare) + if last.bare == bare then last.lines.hi - last.lines.lo + 1 else 0
  }

  /** A bare read of a file that is summarised costs 35 of 100 parts. */
  ghost function BareShare(fs: FileStats, cfg: Config): real {
    if 0 <= cfg.summarizeMin <= fs.sizeLines then 35.0 / 100.0 else 1.0
  }

  /** The cost of any charges: a round trip of 200 tokens each, and the tokens of their lines, bare reads at
      their share. */
  lemma {:induction false} CostOfCharges(charges: seq<Charge>, fs: FileStats, cfg: Config)
    requires forall k :: 0 <= k < |charges| ==> charges[k].lines.Proper()
    ensures Cost(charges, fs, cfg)
         == Tokens(LinesOf(charges, false), 1.0, fs) + Tokens(LinesOf(charges, true), BareShare(fs, cfg), fs)
            + |charges| as real * 200.0
    decreases |charges|
  {
    if charges != [] {
      var front, last := charges[..|charges| - 1], charges[|charges| - 1];
      CostOfCharges(front, fs, cfg);
      ChargeCosts(last, fs, cfg);
      TokensAdd(LinesOf(front, last.bare), last.lines.hi - last.lines.lo + 1,
                if last.bare then BareShare(fs, cfg) else 1.0, fs);
      CostUnfolds(charges, fs, cfg);
      hide Cost, CostOfChunk, Tokens, BareShare;
    }
  }

  lemma {:induction false} CostUnfolds(charges: seq<Charge>, fs: FileStats, cfg: Config)
    requires charges != []
    ensures var last := charges[|charges| - 1];
      Cost(charges, fs, cfg)
        == Cost(charges[..|charges| - 1], fs, cfg) + CostOfChunk(last.lines, fs, last.bare, cfg) + 200.0
  {
    hide CostOfChunk;
  }

  ghost function Tokens(lines: int, share: real, fs: FileStats): real {
    lines as real * fs.tokensPerLine * share
  }

  lemma {:induction false} TokensAdd(a: int, b: int, share: real, fs: FileStats)
    ensures Tokens(a + b, share, fs) == Tokens(a, share, fs) + Tokens(b, share, fs)
  {
    var t := fs.tokensPerLine;
    assert (a + b) as real * t == a as real * t + b as real * t;
    assert (a as real * t + b as real * t) * share == a as real * t * share + b as real * t * share;
  }

  lemma {:induction false} ChargeCosts(c: Charge, fs: FileStats, cfg: Config)
    requires c.lines.Proper()
    ensures CostOfChunk(c.lines, fs, c.bare, cfg)
         == Tokens(c.lines.hi - c.lines.lo + 1, if c.bare then BareShare(fs, cfg) else 1.0, fs)
  {
  }
}
