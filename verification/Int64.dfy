/** Signed 64-bit machine integers, written out over the unbounded `int`: the wrapping operators
    the shell's arithmetic evaluator uses, and what each of them means.

    `Wrap` reduces a mathematical integer to its two's-complement representative. Every wrapping
    operator is tied to ordinary arithmetic by congruence modulo 2^64, which is what makes
    "wrap after every step" equal to "wrap once at the end". */
module Int64 {

  const TWO_63: int := 0x8000_0000_0000_0000
  const TWO_64: int := 0x1_0000_0000_0000_0000

  type i64 = x: int | -TWO_63 <= x < TWO_63
  type u64 = x: int | 0 <= x < TWO_64

  ghost predicate DifferBy(a: int, b: int, k: int) {
    a - b == k * TWO_64
  }

  /** Equality modulo 2^64. */
  ghost predicate Congruent(a: int, b: int) {
    exists k :: DifferBy(a, b, k)
  }

  /** The unique i64 congruent to `n`. */
  function Wrap(n: int): (r: i64)
    ensures Congruent(n, r)
    ensures -TWO_63 <= n < TWO_63 ==> r == n
  {
    var m := n % TWO_64;
    assert DifferBy(n, m, n / TWO_64) && DifferBy(n, m - TWO_64, n / TWO_64 + 1);
    if m < TWO_63 then m else m - TWO_64
  }

  lemma {:induction false} WrapUnique(n: int, r: i64)
    requires Congruent(n, r)
    ensures Wrap(n) == r
  {
    var k :| DifferBy(n, r, k);
    var l :| DifferBy(n, Wrap(n), l);
  }

  lemma {:induction false} CongruentRefl(a: int)
    ensures Congruent(a, a)
  {
    assert DifferBy(a, a, 0);
  }

  lemma {:induction false} CongruentSym(a: int, b: int)
    requires Congruent(a, b)
    ensures Congruent(b, a)
  {
    var k :| DifferBy(a, b, k);
    assert DifferBy(b, a, -k);
  }

  lemma {:induction false} CongruentTrans(a: int, b: int, c: int)
    requires Congruent(a, b) && Congruent(b, c)
    ensures Congruent(a, c)
  {
    var k :| DifferBy(a, b, k);
    var l :| DifferBy(b, c, l);
    assert DifferBy(a, c, k + l);
  }

  lemma {:induction false} CongruentAdd(a: int, b: int, c: int, d: int)
    requires Congruent(a, b) && Congruent(c, d)
    ensures Congruent(a + c, b + d) && Congruent(a - c, b - d)
  {
    var k :| DifferBy(a, b, k);
    var l :| DifferBy(c, d, l);
    assert DifferBy(a + c, b + d, k + l);
    assert DifferBy(a - c, b - d, k - l);
  }

  lemma {:induction false} CongruentWrap(a: int, b: int)
    requires Congruent(a, b)
    ensures Wrap(a) == Wrap(b)
  {
    CongruentTrans(a, b, Wrap(b));
    WrapUnique(a, Wrap(b));
  }

  lemma {:induction false} CongruentMul(a: int, b: int, c: int, d: int)
    requires Congruent(a, b) && Congruent(c, d)
    ensures Congruent(a * c, b * d)
  {
    var k :| DifferBy(a, b, k);
    var l :| DifferBy(c, d, l);
    var q := b * l + k * d + k * l * TWO_64;
    ProductExpands(b, k, d, l);
    assert DifferBy(a * c, b * d, q);
  }

  lemma {:induction false} ProductExpands(b: int, k: int, d: int, l: int)
    ensures (b + k * TWO_64) * (d + l * TWO_64) - b * d == (b * l + k * d + k * l * TWO_64) * TWO_64
  {
    var kk, ll := k * TWO_64, l * TWO_64;
    assert (b + kk) * (d + ll) == b * d + b * ll + kk * d + kk * ll;
    assert b * ll == b * l * TWO_64;
    assert kk * d == k * d * TWO_64;
    assert kk * ll == k * l * TWO_64 * TWO_64;
  }

  // ---------------------------------------------------------------- operators

  function Neg(x: i64): i64 { Wrap(0 - x) }
  function Not(x: i64): i64 { -1 - x }
  function Add(x: i64, y: i64): i64 { Wrap(x + y) }
  function Sub(x: i64, y: i64): i64 { Wrap(x - y) }
  function Mul(x: i64, y: i64): i64 { Wrap(x * y) }

  function Abs(x: int): nat { if x < 0 then -x else x }

  /** Division truncating toward zero, before any wrap-around. */
  function TruncDiv(x: int, y: int): int
    requires y != 0
  {
    if (x < 0) == (y < 0) then Abs(x) / Abs(y) else -(Abs(x) / Abs(y))
  }

  function Div(x: i64, y: i64): i64
    requires y != 0
  {
    Wrap(TruncDiv(x, y))
  }

  function Rem(x: i64, y: i64): i64
    requires y != 0
  {
    Wrap(x - y * TruncDiv(x, y))
  }

  function Pow2(n: nat): (p: int)
    ensures p >= 1
  {
    if n == 0 then 1 else 2 * Pow2(n - 1)
  }

  /** The shift distance: the right operand is cut to 32 bits, and only the low six bits count. */
  function ShiftAmount(y: i64): (d: nat)
    ensures d == y % 64
  {
    var low := y % 0x1_0000_0000;
    LowBits(y, y / 0x1_0000_0000, low);
    low % 64
  }

  lemma {:induction false} LowBits(y: int, q: int, low: int)
    requires y == 0x1_0000_0000 * q + low
    ensures y % 64 == low % 64
  {
    assert y == 64 * (0x400_0000 * q + low / 64) + low % 64;
  }

  function Shl(x: i64, y: i64): i64 {
    Wrap(x * Pow2(ShiftAmount(y)))
  }

  /** Arithmetic right shift: division by a power of two, rounding down. */
  function Shr(x: i64, y: i64): i64 {
    Shrink(x, Pow2(ShiftAmount(y)));
    x / Pow2(ShiftAmount(y))
  }

  lemma {:induction false} Shrink(x: i64, p: int)
    requires p >= 1
    ensures -TWO_63 <= x / p < TWO_63
  {
    Quotient(x, p);
  }

  /** Dividing by a positive number, rounding down, never moves away from zero (or past -1). */
  lemma {:induction false} Quotient(x: int, p: int)
    requires p >= 1
    ensures x == p * (x / p) + x % p
    ensures x >= 0 ==> 0 <= x / p <= x
    ensures x < 0 ==> x <= x / p <= -1
    ensures x > 0 && p > 1 ==> x / p < x
  {
    QuotientBounds(x, p, x / p, x % p);
  }

  lemma {:induction false} QuotientBounds(x: int, p: int, q: int, r: int)
    requires 0 <= r < p && x == p * q + r
    ensures x >= 0 ==> 0 <= q <= x
    ensures x < 0 ==> x <= q <= -1
    ensures x > 0 && p > 1 ==> q < x
  {
    if q >= 0 {
      Scale(q, 1, p);
      if p > 1 { Scale(q, 2, p); }
    } else {
      Scale(-1 - q, 1, p);
      assert p * q == -p * (-1 - q) - p;
    }
  }

  lemma {:induction false} Scale(p: int, a: int, b: int)
    requires p >= 0 && a <= b
    ensures p * a <= p * b && a * p <= b * p
  {
    assert p * (b - a) >= 0;
  }

  datatype BitOp = BitAnd | BitOr | BitXor

  function BitOpBit(op: BitOp, a: bool, b: bool): bool {
    match op
    case BitAnd => a && b
    case BitOr => a || b
    case BitXor => a != b
  }

  predicate InWidth(x: int, n: nat) {
    -Pow2(n) <= x < Pow2(n)
  }

  /** Bitwise operation on two's-complement numbers of `n` magnitude bits and one sign bit. */
  function Bits(op: BitOp, x: int, y: int, n: nat): (r: int)
    ensures InWidth(r, n)
    decreases n
  {
    if n == 0 then
      if BitOpBit(op, x % 2 == 1, y % 2 == 1) then -1 else 0
    else
      2 * Bits(op, x / 2, y / 2, n - 1) + if BitOpBit(op, x % 2 == 1, y % 2 == 1) then 1 else 0
  }

  lemma {:induction false} Pow2Of63()
    ensures Pow2(63) == TWO_63
  {
    assert Pow2(13) == 8192;
    assert Pow2(23) == 1024 * Pow2(13);
    assert Pow2(33) == 1024 * Pow2(23);
    assert Pow2(43) == 1024 * Pow2(33);
    assert Pow2(53) == 1024 * Pow2(43);
    assert Pow2(63) == 1024 * Pow2(53);
  }

  function Bitwise(op: BitOp, x: i64, y: i64): i64 {
    Pow2Of63();
    Bits(op, x, y, 63)
  }

  // ------------------------------------------------------- what the operators mean

  /** Addition and subtraction undo each other, even when both wrap. */
  lemma {:induction false} SubUndoesAdd(x: i64, y: i64)
    ensures Sub(Add(x, y), y) == x
    ensures Add(Sub(x, y), y) == x
  {
    CongruentRefl(y);
    CongruentSym(x + y, Add(x, y));
    CongruentAdd(Add(x, y), x + y, y, y);
    WrapUnique(Add(x, y) - y, x);
    CongruentSym(x - y, Sub(x, y));
    CongruentAdd(Sub(x, y), x - y, y, y);
    WrapUnique(Sub(x, y) + y, x);
  }

  /** Truncating division: the quotient times the divisor plus the remainder gives the dividend
      back, and the remainder is smaller than the divisor and takes the dividend's sign. */
  lemma {:induction false} DivRem(x: i64, y: i64)
    requires y != 0
    ensures Add(Mul(Div(x, y), y), Rem(x, y)) == x
    ensures Abs(Rem(x, y)) < Abs(y)
    ensures Rem(x, y) == 0 || (Rem(x, y) < 0) == (x < 0)
  {
    TruncDivRem(x, y);
    DivTimes(x, y);
    CongruentRefl(Rem(x, y));
    CongruentAdd(Mul(Div(x, y), y), TruncDiv(x, y) * y, Rem(x, y), Rem(x, y));
    WrapUnique(Mul(Div(x, y), y) + Rem(x, y), x);
  }

  lemma {:induction false} DivTimes(x: i64, y: i64)
    requires y != 0
    ensures Congruent(Mul(Div(x, y), y), TruncDiv(x, y) * y)
  {
    var q := TruncDiv(x, y);
    CongruentRefl(y);
    CongruentSym(q, Div(x, y));
    CongruentMul(Div(x, y), q, y, y);
    CongruentSym(Div(x, y) * y, Mul(Div(x, y), y));
    CongruentTrans(Mul(Div(x, y), y), Div(x, y) * y, q * y);
  }

  /** The only quotient that overflows is the least i64 divided by -1, which gives the dividend
      back with remainder zero. */
  lemma {:induction false} DivOverflow(x: i64, y: i64)
    requires y != 0
    ensures Div(x, y) != TruncDiv(x, y) <==> x == -TWO_63 && y == -1
    ensures x == -TWO_63 && y == -1 ==> Div(x, y) == x && Rem(x, y) == 0
  {
    TruncDivRem(x, y);
    if x == -TWO_63 && y == -1 {
      assert TruncDiv(x, y) == TWO_63;
    }
  }

  /** Truncating division over the unbounded integers. */
  lemma {:induction false} TruncDivRem(x: int, y: int)
    requires y != 0
    ensures var r := x - y * TruncDiv(x, y);
            && TruncDiv(x, y) * y + r == x
            && Abs(r) < Abs(y)
            && (r == 0 || (r < 0) == (x < 0))
    ensures Abs(TruncDiv(x, y)) <= Abs(x)
    ensures Abs(TruncDiv(x, y)) == Abs(x) ==> x == 0 || Abs(y) == 1
  {
    var a, b := Abs(x), Abs(y);
    Quotient(a, b);
    var q := a / b;
    SignedProducts(b, q);
  }

  lemma {:induction false} SignedProducts(b: int, q: int)
    ensures (-b) * (-q) == b * q == q * b
    ensures (-b) * q == b * (-q) == -(b * q)
    ensures q * (-b) == (-q) * b == -(b * q)
  {
  }

  /** And, or and exclusive-or are tied together by arithmetic: `x & y` plus `x | y` is `x + y`, and
      `x ^ y` is their difference. */
  lemma {:induction false} BitsIdentities(x: int, y: int, n: nat)
    requires InWidth(x, n) && InWidth(y, n)
    ensures Bits(BitAnd, x, y, n) + Bits(BitOr, x, y, n) == x + y
    ensures Bits(BitXor, x, y, n) == Bits(BitOr, x, y, n) - Bits(BitAnd, x, y, n)
    ensures Bits(BitAnd, x, x, n) == x == Bits(BitOr, x, x, n)
    ensures Bits(BitXor, x, -1, n) == -x - 1
    decreases n
  {
    if n > 0 {
      BitsIdentities(x / 2, y / 2, n - 1);
      assert (-1) / 2 == -1 && (-1) % 2 == 1;
    }
  }

  lemma {:induction false} BitsOrder(x: int, y: int, n: nat)
    requires InWidth(x, n) && InWidth(y, n)
    ensures y >= 0 ==> 0 <= Bits(BitAnd, x, y, n) <= y
    ensures Bits(BitXor, Bits(BitXor, x, y, n), y, n) == x
    decreases n
  {
    if n > 0 {
      BitsOrder(x / 2, y / 2, n - 1);
      var h := Bits(BitXor, x / 2, y / 2, n - 1);
      var z := Bits(BitXor, x, y, n);
      assert z / 2 == h;
    }
  }

  lemma {:induction false} BitwiseIdentities(x: i64, y: i64)
    ensures Bitwise(BitAnd, x, y) + Bitwise(BitOr, x, y) == x + y
    ensures Bitwise(BitXor, x, y) == Bitwise(BitOr, x, y) - Bitwise(BitAnd, x, y)
    ensures Bitwise(BitXor, Bitwise(BitXor, x, y), y) == x
    ensures Bitwise(BitXor, x, -1) == Not(x)
    ensures y >= 0 ==> 0 <= Bitwise(BitAnd, x, y) <= y
  {
    Pow2Of63();
    BitsIdentities(x, y, 63);
    BitsOrder(x, y, 63);
  }

  /** Shifting right and then left by the same distance clears the low bits: the result is the
      largest multiple of the power of two not above `x`. */
  lemma {:induction false} ShiftRoundTrip(x: i64, y: i64)
    ensures Shl(Shr(x, y), y) == x - x % Pow2(ShiftAmount(y))
  {
    var p := Pow2(ShiftAmount(y));
    Quotient(x, p);
    MulComm(x / p, p);
    MultipleAboveFloor(x, ShiftAmount(y));
  }

  lemma {:induction false} MulComm(a: int, b: int)
    ensures a * b == b * a
  {
  }

  lemma {:induction false} Pow2Bound(k: nat)
    requires k <= 63
    ensures Pow2(63 - k) * Pow2(k) == TWO_63
    decreases 63 - k
  {
    if k < 63 {
      Pow2Bound(k + 1);
      MoveTwo(Pow2(62 - k), Pow2(k));
    } else {
      Pow2Of63();
      assert Pow2(0) == 1;
    }
  }

  lemma {:induction false} MoveTwo(u: int, v: int)
    ensures (2 * u) * v == u * (2 * v)
  {
  }

  /** -2^63 is a multiple of every 2^k with k <= 63, so rounding an i64 down to such a multiple
      never leaves the range. */
  lemma {:induction false} MultipleAboveFloor(x: i64, k: nat)
    requires k <= 63
    ensures -TWO_63 <= x - x % Pow2(k) <= x
  {
    Pow2Bound(k);
    Quotient(x, Pow2(k));
    NoSmallerMultiple(x, Pow2(k), Pow2(63 - k), x / Pow2(k), x % Pow2(k));
  }

  lemma {:induction false} NoSmallerMultiple(x: i64, p: int, m: int, q: int, r: int)
    requires p >= 1 && m * p == TWO_63
    requires 0 <= r < p && x == p * q + r
    ensures -TWO_63 <= x - r
  {
    assert p * (-m) == -(m * p);
    assert p * (q + 1) == p * q + p;
    if q < -m {
      Scale(p, q + 1, -m);
    }
    Scale(p, if q < -m then q else -m, q);
  }

  // ------------------------------------------------------- exponentiation

  function Power(base: int, n: nat): int {
    if n == 0 then 1 else base * Power(base, n - 1)
  }

  lemma {:induction false} PowerOfSquare(base: int, n: nat)
    ensures Power(base * base, n) == Power(base, 2 * n)
  {
    if n > 0 {
      PowerOfSquare(base, n - 1);
      assert Power(base, 2 * n) == base * (base * Power(base, 2 * (n - 1)));
    }
  }

  lemma {:induction false} CongruentPower(a: int, b: int, n: nat)
    requires Congruent(a, b)
    ensures Congruent(Power(a, n), Power(b, n))
  {
    if n > 0 {
      CongruentPower(a, b, n - 1);
      CongruentMul(a, b, Power(a, n - 1), Power(b, n - 1));
    } else {
      CongruentRefl(1);
    }
  }

  /** One round of square-and-multiply keeps `result * base^exponent` fixed modulo 2^64. */
  lemma {:induction false} PowerStep(result: i64, base: i64, exponent: nat)
    requires exponent > 0
    ensures Congruent((if exponent % 2 == 1 then Mul(result, base) else result)
                      * Power(Mul(base, base), exponent / 2),
                      result * Power(base, exponent))
  {
    var h := exponent / 2;
    CongruentSym(base * base, Mul(base, base));
    CongruentPower(Mul(base, base), base * base, h);
    PowerOfSquare(base, h);
    var p, q := Power(Mul(base, base), h), Power(base, 2 * h);
    if exponent % 2 == 1 {
      CongruentSym(result * base, Mul(result, base));
      CongruentMul(Mul(result, base), result * base, p, q);
      assert Power(base, exponent) == base * q;
      MulAssoc(result, base, q);
    } else {
      CongruentRefl(result);
      CongruentMul(result, result, p, q);
    }
  }

  lemma {:induction false} MulAssoc(a: int, b: int, c: int)
    ensures a * (b * c) == (a * b) * c
  {
  }

  /** Square-and-multiply with a full 64-bit exponent. */
  method WrappingPow(base: i64, exponent: u64) returns (result: i64)
    ensures result == Wrap(Power(base, exponent))
  {
    var b, e := base, exponent;
    result := 1;
    CongruentRefl(Power(base, exponent));
    while e > 0
      invariant 0 <= e
      invariant Congruent(result * Power(b, e), Power(base, exponent))
    {
      PowerStep(result, b, e);
      ghost var before := result * Power(b, e);
      if e % 2 == 1 {
        result := Mul(result, b);
      }
      b := Mul(b, b);
      e := e / 2;
      CongruentTrans(result * Power(b, e), before, Power(base, exponent));
    }
    CongruentSym(result, Power(base, exponent));
    WrapUnique(Power(base, exponent), result);
  }

  function RepeatedMul(base: i64, n: nat): i64 {
    if n == 0 then 1 else Mul(base, RepeatedMul(base, n - 1))
  }

  /** The wrapped power is also what repeated wrapping multiplication gives. */
  lemma {:induction false} PowIsRepeatedMul(base: i64, n: nat)
    ensures Wrap(Power(base, n)) == RepeatedMul(base, n)
  {
    if n > 0 {
      PowIsRepeatedMul(base, n - 1);
      CongruentRefl(base);
      CongruentMul(base, base, Power(base, n - 1), RepeatedMul(base, n - 1));
      CongruentWrap(base * Power(base, n - 1), base * RepeatedMul(base, n - 1));
    }
  }
}
