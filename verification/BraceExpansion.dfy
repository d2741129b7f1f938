/** Brace expansion: a word's pieces are alternatives (sums) of nested words (products), number
    ranges and character ranges. The expansion is the ordered product of the pieces' own lists. */
module BraceExpansion {
  import opened Int64
  import opened Options

  const TWO_32: int := 0x1_0000_0000

  datatype Piece =
    | Text(text: string)
    | Braces(members: seq<Member>)

  datatype Member =
    | NumberSequence(start: i64, end: i64, increment: i64)
    | CharSequence(first: char, last: char, increment: i64)
    | Child(pieces: seq<Piece>)

  // ------------------------------------------------------------ number and character ranges

  /** The magnitude of the increment, with zero standing for one. */
  function StepOf(increment: i64): (step: nat)
    ensures 1 <= step <= TWO_63
  {
    if increment == 0 then 1 else Abs(increment)
  }

  /** Counting up: every value from `start` to `end` that lies a multiple of `step` above `start`. */
  function Up(start: int, end: int, step: nat): seq<int>
    requires step >= 1
    decreases end - start
  {
    if start > end then [] else [start] + Up(start + step, end, step)
  }

  /** One step down: 64-bit subtraction, wrapping; None ends the sequence. */
  function NextDown(n: i64, end: i64, step: nat): Option<i64> {
    var next := Wrap(n - step);
    if next >= end then Some(next) else None
  }

  /** One step down in characters: the step is cut to 32 bits, the subtraction wraps in 32 bits, and
      the result has to be a Unicode scalar value. */
  function NextCharDown(c: int, end: int, step: nat): Option<int> {
    var next := (c - step % TWO_32) % TWO_32;
    if InRange(next, end) then Some(next) else None
  }

  predicate IsScalar(v: int) {
    0 <= v < 0xD800 || 0xE000 <= v <= 0x10FFFF
  }

  /** The number of values a range is meant to have. */
  function RangeCount(start: int, end: int, step: nat): (n: nat)
    requires step >= 1
    ensures n >= 1
  {
    Abs(end - start) / step + 1
  }

  /** The value meant at position `k`. */
  function RangeValue(start: int, end: int, step: nat, k: nat): int {
    if start <= end then start + k * step else start - k * step
  }

  /** Stepping down ends where it should: the value after the last one does not wrap around. */
  predicate NumbersEnd(start: int, end: int, step: nat)
    requires step >= 1
  {
    start <= end || RangeValue(start, end, step, RangeCount(start, end, step)) >= -TWO_63
  }

  /** Stepping down in characters ends where it should: no value meant is a surrogate, and the value
      after the last one, cut to 32 bits, is no character at or above the end. */
  predicate CharsEnd(start: int, end: int, step: nat)
    requires step >= 1
  {
    || start <= end
    || var n := RangeCount(start, end, step);
       ScalarsTo(start, end, step, n - 1) && !InRange(RangeValue(start, end, step, n) % TWO_32, end)
  }

  /** The values meant up to position `j` are all characters. */
  predicate ScalarsTo(start: int, end: int, step: nat, j: int) {
    forall i: nat :: i <= j ==> IsScalar(RangeValue(start, end, step, i))
  }

  predicate InRange(v: int, end: int) {
    IsScalar(v) && v >= end
  }

  /** The value at position `j` of the sequence that steps down from `start`, if it gets that far. */
  function DownAt(start: i64, end: i64, step: nat, j: nat): Option<i64> {
    if j == 0 then Some(start)
    else
      match DownAt(start, end, step, j - 1)
      case None => None
      case Some(n) => NextDown(n, end, step)
  }

  function CharDownAt(start: int, end: int, step: nat, j: nat): Option<int> {
    if j == 0 then Some(start)
    else
      match CharDownAt(start, end, step, j - 1)
      case None => None
      case Some(c) => NextCharDown(c, end, step)
  }

  /** The place of a character among all characters, where the surrogates are skipped. */
  function ScalarIndex(c: int): int {
    if c < 0xD800 then c else c - 0x800
  }

  function ScalarAt(i: int): int {
    if i < 0xD800 then i else i + 0x800
  }

  /** Up counts places, down counts code points. */
  function CharCount(first: int, last: int, step: nat): nat
    requires step >= 1
  {
    if first <= last then RangeCount(ScalarIndex(first), ScalarIndex(last), step) else RangeCount(first, last, step)
  }

  function CharValue(first: int, last: int, step: nat, k: nat): int {
    if first <= last then ScalarAt(RangeValue(ScalarIndex(first), ScalarIndex(last), step, k))
    else RangeValue(first, last, step, k)
  }

  // ------------------------------------------------------------ where descending sequences end

  lemma {:induction false} CountBounds(start: int, end: int, step: nat)
    requires step >= 1 && start > end
    ensures var n := RangeCount(start, end, step);
      && start - (n - 1) * step >= end
      && start - n * step < end
      && forall j: nat :: j < n ==> end <= RangeValue(start, end, step, j) <= start
  {
    var d := start - end;
    var q := d / step;
    Quotient(d, step);
    assert d == step * q + d % step;
    Commutes(q, step);
    var n := RangeCount(start, end, step);
    assert n == q + 1;
    Expand1(q, step);
    forall j: nat | j < n
      ensures end <= RangeValue(start, end, step, j) <= start
    {
      Scale(step, j, q);
      Scale(step, 0, j);
      Commutes(j, step);
    }
  }

  lemma {:induction false} Commutes(a: int, b: int)
    ensures a * b == b * a
  {
  }

  lemma {:induction false} Expand1(q: int, step: int)
    ensures (q + 1) * step == q * step + step
  {
  }

  /** The meant values one after another, down to the first that lies below `end`. */
  lemma {:induction false} Positions(start: int, end: int, step: nat, j: nat)
    requires step >= 1 && start > end
    requires 1 <= j <= RangeCount(start, end, step)
    ensures RangeValue(start, end, step, j) == RangeValue(start, end, step, j - 1) - step
    ensures end <= RangeValue(start, end, step, j - 1) <= start
    ensures RangeValue(start, end, step, j) >= end <==> j < RangeCount(start, end, step)
    ensures RangeValue(start, end, step, 0) == start
  {
    CountBounds(start, end, step);
    hide RangeCount;
    Expand1(j - 1, step);
  }

  /** The descending sequence takes exactly the meant values, and stops after the last of them if
      and only if the value after it does not fall below the least 64-bit integer. */
  lemma {:induction false} DownSequence(start: i64, end: i64, step: nat, j: nat)
    requires 1 <= step <= TWO_63 && start > end
    requires j <= RangeCount(start, end, step)
    ensures var n := RangeCount(start, end, step);
      if j < n then DownAt(start, end, step, j) == Some(RangeValue(start, end, step, j))
      else DownAt(start, end, step, n) == None <==> NumbersEnd(start, end, step)
    decreases j
  {
    hide RangeCount, RangeValue, Wrap;
    Positions(start, end, step, if j == 0 then 1 else j);
    if j > 0 {
      DownSequence(start, end, step, j - 1);
      NumberStep(RangeValue(start, end, step, j - 1), end, step);
    }
  }

  lemma {:induction false} NumberStep(n: i64, end: i64, step: nat)
    requires 1 <= step <= TWO_63 && n >= end
    ensures n - step >= end ==> NextDown(n, end, step) == Some(n - step)
    ensures n - step < end ==> (NextDown(n, end, step) == None <==> n - step >= -TWO_63)
  {
    WrapBelow(n, step);
    hide Wrap;
  }

  /** Stepping below the least 64-bit integer comes out near the greatest. */
  lemma {:induction false} WrapBelow(n: i64, step: nat)
    requires 1 <= step <= TWO_63
    ensures n - step >= -TWO_63 ==> Wrap(n - step) == n - step
    ensures n - step < -TWO_63 ==> Wrap(n - step) == n - step + TWO_64 && Wrap(n - step) >= n
  {
    if n - step < -TWO_63 {
      var r: int := n - step + TWO_64;
      assert DifferBy(n - step, r, -1);
      WrapUnique(n - step, r);
    }
  }

  /** A descending character range takes exactly the meant values until one of them is a surrogate,
      which ends it early; after the last of them it ends if and only if the next value, cut to 32
      bits, is no character at or above the end. */
  lemma {:induction false} CharDownSequence(start: int, end: int, step: nat, j: nat)
    requires 1 <= step <= TWO_63 && 0 <= end < start && IsScalar(start)
    requires j <= RangeCount(start, end, step)
    ensures var n := RangeCount(start, end, step);
      if j < n then
        CharDownAt(start, end, step, j)
          == if ScalarsTo(start, end, step, j) then Some(RangeValue(start, end, step, j)) else None
      else CharsEnd(start, end, step) <==>
        CharDownAt(start, end, step, n) == None && ScalarsTo(start, end, step, n - 1)
    decreases j
  {
    hide RangeCount, RangeValue, NextCharDown, InRange;
    Positions(start, end, step, if j == 0 then 1 else j);
    if j > 0 {
      CharDownSequence(start, end, step, j - 1);
      CharStep(RangeValue(start, end, step, j - 1), end, step);
      OneMoreScalar(start, end, step, j);
    }
  }

  lemma {:induction false} OneMoreScalar(start: int, end: int, step: nat, j: nat)
    ensures ScalarsTo(start, end, step, j) <==>
              (j == 0 || ScalarsTo(start, end, step, j - 1)) && IsScalar(RangeValue(start, end, step, j))
  {
    hide RangeValue, IsScalar;
  }

  lemma {:induction false} CharStep(c: int, end: int, step: nat)
    requires 1 <= step && 0 <= end <= c <= 0x10FFFF
    ensures c - step >= end ==> NextCharDown(c, end, step) == if IsScalar(c - step) then Some(c - step) else None
    ensures NextCharDown(c, end, step) == None <==> !InRange((c - step) % TWO_32, end)
  {
    CutStep(c, step);
  }

  /** Cutting the step to 32 bits changes nothing modulo 2^32. */
  lemma {:induction false} CutStep(c: int, step: nat)
    ensures (c - step % TWO_32) % TWO_32 == (c - step) % TWO_32
  {
    var m, q := step % TWO_32, step / TWO_32;
    assert c - m == (c - step) + TWO_32 * q;
    SameRemainder(c - m, c - step, q);
  }

  lemma {:induction false} SameRemainder(a: int, b: int, q: int)
    requires a == b + TWO_32 * q
    ensures a % TWO_32 == b % TWO_32
  {
    var r := b % TWO_32;
    assert b == TWO_32 * (b / TWO_32) + r;
    assert a == TWO_32 * (b / TWO_32 + q) + r;
  }

  /** Descending character ranges that go wrong: a step of a multiple of 2^32 is cut to zero and
      repeats the first character for ever; one that is one less climbs instead, up to the last
      character before the surrogates, and ends there. */
  lemma {:induction false} HugeCharSteps(start: int, end: int, repeating: nat, climbing: nat, j: nat)
    requires 0 <= end < start < 0xD800
    requires repeating >= 1 && repeating % TWO_32 == 0
    requires climbing >= 1 && climbing % TWO_32 == TWO_32 - 1
    ensures CharDownAt(start, end, repeating, j) == Some(start)
    ensures CharDownAt(start, end, climbing, j) == if start + j < 0xD800 then Some(start + j) else None
    ensures !CharsEnd(start, end, repeating)
    ensures CharsEnd(start, end, climbing) <==> start == 0xD7FF
    decreases j
  {
    if j > 0 {
      HugeCharSteps(start, end, repeating, climbing, j - 1);
      hide CharsEnd;
      CutAway(start, end, repeating, start);
      if start + j - 1 < 0xD800 {
        CutAway(start, end, climbing, start + j - 1);
      }
      hide NextCharDown;
    } else {
      LongSteps(start, end, repeating);
      LongSteps(start, end, climbing);
    }
  }

  /** What the cut leaves of such a step: nothing, or one step up. */
  lemma {:induction false} CutAway(start: int, end: int, step: nat, c: int)
    requires 0 <= end < start <= c < 0xD800
    ensures step % TWO_32 == 0 ==> NextCharDown(c, end, step) == Some(c)
    ensures step % TWO_32 == TWO_32 - 1 ==>
              NextCharDown(c, end, step) == if c + 1 < 0xD800 then Some(c + 1) else None
  {
  }

  /** A step longer than the range leaves only its first value, and nothing should come after that. */
  lemma {:induction false} LongSteps(start: int, end: int, step: nat)
    requires 0 <= end < start < 0xD800 && step >= TWO_32 - 1
    requires step % TWO_32 == 0 || step % TWO_32 == TWO_32 - 1
    ensures CharsEnd(start, end, step) <==> step % TWO_32 != 0 && start == 0xD7FF
  {
    SmallQuotient(start - end, step);
    assert RangeCount(start, end, step) == 1;
    hide RangeCount;
    assert RangeValue(start, end, step, 1) == start - step && RangeValue(start, end, step, 0) == start;
    CutStep(start, step);
    assert ScalarsTo(start, end, step, 0);
  }

  /** A number range down to the least 64-bit integer never ends: it wraps around instead. */
  lemma {:induction false} WrappingNumbers(start: i64, step: nat, j: nat)
    requires 1 <= step <= TWO_63 && start > -TWO_63
    ensures DownAt(start, -TWO_63, step, j).Some?
    ensures !NumbersEnd(start, -TWO_63, step)
    ensures DownAt(-TWO_63 + 5, -TWO_63, 10, 1) == Some(TWO_63 - 5)
    decreases j
  {
    if j > 0 {
      WrappingNumbers(start, step, j - 1);
    } else {
      CountBounds(start, -TWO_63, step);
      WrapBelow(-TWO_63 + 5, 10);
      assert DownAt(-TWO_63 + 5, -TWO_63, 10, 0) == Some(-TWO_63 + 5);
    }
  }

  /** Every character step up to 2^32 - 0x110000 ends properly where the range has no surrogates, and
      every number step that keeps clear of the least 64-bit integer. */
  lemma {:induction false} OrdinarySteps(start: int, end: int, step: nat)
    requires step >= 1 && start > end
    ensures 0 <= end && start <= 0x10FFFF && (start < 0xD800 || end >= 0xE000) && step <= TWO_32 - 0x110000 ==>
              CharsEnd(start, end, step)
    ensures end - step >= -TWO_63 ==> NumbersEnd(start, end, step)
  {
    CountBounds(start, end, step);
    Expand1(RangeCount(start, end, step) - 1, step);
    var n := RangeCount(start, end, step);
    var after := RangeValue(start, end, step, n);
    assert end - step <= after < end;
    hide RangeCount, RangeValue;
    if 0 <= end && start <= 0x10FFFF && step <= TWO_32 - 0x110000 {
      if after < 0 { assert after % TWO_32 == after + TWO_32; }
      assert !InRange(after % TWO_32, end);
    }
  }

  /** Every value of a character range that ends is a character between its two ends. */
  lemma {:induction false} CharsWithinRange(first: char, last: char, step: nat, k: nat)
    requires step >= 1 && CharsEnd(first as int, last as int, step)
    requires k < CharCount(first as int, last as int, step)
    ensures var v := CharValue(first as int, last as int, step, k);
      IsScalar(v) && (if first <= last then first as int <= v <= last as int else last as int <= v <= first as int)
  {
    var a, b := first as int, last as int;
    if first <= last {
      var d := ScalarIndex(b) - ScalarIndex(a);
      Quotient(d, step);
      Commutes(k, step);
      Scale(step, k, d / step);
      Scale(step, 0, k);
    } else {
      CountBounds(a, b, step);
      assert ScalarsTo(a, b, step, RangeCount(a, b, step) - 1);
    }
  }

  lemma {:induction false} UpSequence(start: int, end: int, step: nat)
    requires step >= 1 && start <= end
    ensures |Up(start, end, step)| == RangeCount(start, end, step)
    ensures forall k :: 0 <= k < |Up(start, end, step)| ==> Up(start, end, step)[k] == RangeValue(start, end, step, k)
    decreases end - start
  {
    var rest := Up(start + step, end, step);
    if start + step <= end {
      UpSequence(start + step, end, step);
      OneLess(end - start, step);
      forall k | 0 <= k < |Up(start, end, step)|
        ensures Up(start, end, step)[k] == RangeValue(start, end, step, k)
      {
        if k > 0 {
          assert Up(start, end, step)[k] == rest[k - 1] == RangeValue(start + step, end, step, k - 1);
          Expand1(k - 1, step);
        }
      }
    } else {
      assert rest == [];
      SmallQuotient(end - start, step);
    }
  }

  lemma {:induction false} OneLess(d: nat, step: nat)
    requires 1 <= step <= d
    ensures d / step == (d - step) / step + 1
  {
    var q, r := (d - step) / step, (d - step) % step;
    Quotient(d - step, step);
    Expand1(q, step);
    Commutes(q, step);
    Commutes(q + 1, step);
    UniqueQuotient(d, step, q + 1, r);
  }

  lemma {:induction false} UniqueQuotient(d: int, step: int, q: int, r: int)
    requires step >= 1 && 0 <= r < step && d == step * q + r
    ensures d / step == q
  {
    Quotient(d, step);
    var q', r' := d / step, d % step;
    assert step * q + r == step * q' + r';
    if q < q' { Scale(step, q + 1, q'); Expand1(q, step); Commutes(q + 1, step); Commutes(q, step); }
    if q' < q { Scale(step, q' + 1, q); Expand1(q', step); Commutes(q' + 1, step); Commutes(q', step); }
  }

  lemma {:induction false} SmallQuotient(d: nat, step: nat)
    requires d < step
    ensures d / step == 0
  {
    UniqueQuotient(d, step, 0, d);
  }

  // ------------------------------------------------------------ expansion

  /** Every descending range below these pieces ends where it should. */
  predicate AllEnd(pieces: seq<Piece>)
    decreases pieces
  {
    pieces == [] || (PieceEnds(pieces[0]) && AllEnd(pieces[1..]))
  }

  predicate PieceEnds(piece: Piece)
    decreases piece
  {
    piece.Text? || MembersEnd(piece.members)
  }

  predicate MembersEnd(members: seq<Member>)
    decreases members
  {
    members == [] || (MemberEnds(members[0]) && MembersEnd(members[1..]))
  }

  predicate MemberEnds(member: Member)
    decreases member
  {
    match member
    case NumberSequence(start, end, increment) => NumbersEnd(start as int, end as int, StepOf(increment))
    case CharSequence(first, last, increment) => CharsEnd(first as int, last as int, StepOf(increment))
    case Child(pieces) => AllEnd(pieces)
  }

  /** The values of a descending number sequence up to its first missing successor. */
  function DownList(start: i64, end: i64, step: nat): (r: seq<int>)
    requires 1 <= step <= TWO_63 && start > end
    requires NumbersEnd(start as int, end as int, step)
    ensures |r| == RangeCount(start as int, end as int, step)
    ensures DownAt(start, end, step, |r|) == None
    ensures forall j :: 0 <= j < |r| ==> DownAt(start, end, step, j) == Some(r[j])
    ensures forall j :: 0 <= j < |r| ==> r[j] == RangeValue(start as int, end as int, step, j)
  {
    var n := RangeCount(start, end, step);
    assert forall j: nat :: j < n ==> DownAt(start, end, step, j) == Some(RangeValue(start, end, step, j)) by {
      forall j: nat | j < n { DownSequence(start, end, step, j); }
    }
    DownSequence(start, end, step, n);
    seq(n, j requires 0 <= j < n => DownAt(start, end, step, j).value)
  }

  function CharDownList(start: int, end: int, step: nat): (r: seq<int>)
    requires 1 <= step <= TWO_63 && 0 <= end < start && IsScalar(start)
    requires CharsEnd(start, end, step)
    ensures |r| == RangeCount(start, end, step)
    ensures CharDownAt(start, end, step, |r|) == None
    ensures forall j :: 0 <= j < |r| ==> CharDownAt(start, end, step, j) == Some(r[j])
    ensures forall j :: 0 <= j < |r| ==> r[j] == RangeValue(start, end, step, j) && IsScalar(r[j])
  {
    var n := RangeCount(start, end, step);
    assert forall j: nat :: j < n ==> CharDownAt(start, end, step, j) == Some(RangeValue(start, end, step, j)) by {
      forall j: nat | j < n
        ensures CharDownAt(start, end, step, j) == Some(RangeValue(start, end, step, j))
      {
        CharDownSequence(start, end, step, j);
        assert ScalarsTo(start, end, step, j);
      }
    }
    CharDownSequence(start, end, step, n);
    seq(n, j requires 0 <= j < n => CharDownAt(start, end, step, j).value)
  }
}
