/** What the operators of an arithmetic expression give, whatever their operands are; what reading a
    variable or an element of an array gives; and when an operator or a read fails, and with what. */
module ArithmeticOperators {
  import opened Int64
  import opened Options
  import opened ShellVariables
  import opened Arithmetic
  import opened ArithmeticProperties

  /** `x` and then `y` evaluate to `l` and `r`, and leave `end` behind. */
  ghost predicate InTurn(ctx: Context, x: Expr, y: Expr, store: Store, depth: nat, l: i64, r: i64, end: Store) {
    && depth <= 1024
    && var o := Eval(ctx, x, store, depth);
      && o.Done? && o.value == l
      && Eval(ctx, y, o.store, depth) == Done(r, end)
  }

  lemma {:induction false} OperatorOnValues(ctx: Context, op: BinaryOperator, x: Expr, y: Expr, store: Store,
                                            depth: nat, l: i64, r: i64, end: Store)
    requires InTurn(ctx, x, y, store, depth, l, r, end) && !ShortCircuits(op)
    ensures Eval(ctx, BinaryOp(op, x, y), store, depth) == Lift(ComputeBinary(op, l, r), end)
  {
    BinaryUnfolds(ctx, op, x, y, store, depth);
    hide Eval, Binary, ComputeBinary;
  }

  lemma {:induction false} OperatorGives(ctx: Context, op: BinaryOperator, x: Expr, y: Expr, store: Store,
                                         depth: nat, l: i64, r: i64, end: Store, v: i64)
    requires InTurn(ctx, x, y, store, depth, l, r, end) && !ShortCircuits(op) && ComputeBinary(op, l, r) == Ok(v)
    ensures Eval(ctx, BinaryOp(op, x, y), store, depth) == Done(v, end)
  {
    hide Eval, InTurn, ComputeBinary;
    OperatorOnValues(ctx, op, x, y, store, depth, l, r, end);
  }

  // ------------------------------------------------------------ comparisons

  /** `d` is positive and leads from `l` to `r`. */
  ghost predicate LeadsUp(l: int, d: int, r: int) {
    d >= 1 && l + d == r
  }

  /** `<` gives 1 if something positive added to the left value makes the right one, `>` if it is the
      other way round, `==` if neither, and otherwise 0: exactly one of the three gives 1. The other three
      comparisons are their complements. */
  lemma {:induction false} Comparisons(ctx: Context, x: Expr, y: Expr, store: Store, depth: nat,
                                       l: i64, r: i64, end: Store)
    requires InTurn(ctx, x, y, store, depth, l, r, end)
    ensures var less, equal, greater := Eval(ctx, BinaryOp(LessThan, x, y), store, depth),
                                        Eval(ctx, BinaryOp(Equals, x, y), store, depth),
                                        Eval(ctx, BinaryOp(GreaterThan, x, y), store, depth);
      && less == Done(if exists d :: LeadsUp(l, d, r) then 1 else 0, end)
      && greater == Done(if exists d :: LeadsUp(r, d, l) then 1 else 0, end)
      && equal == Done(1 - less.value - greater.value, end)
      && Eval(ctx, BinaryOp(LessThanOrEqualTo, x, y), store, depth) == Done(1 - greater.value, end)
      && Eval(ctx, BinaryOp(GreaterThanOrEqualTo, x, y), store, depth) == Done(1 - less.value, end)
      && Eval(ctx, BinaryOp(NotEquals, x, y), store, depth) == Done(1 - equal.value, end)
  {
    hide *;
    ComparisonsComputed(l, r);
    var less, greater := if l < r then 1 else 0, if l > r then 1 else 0;
    OperatorGives(ctx, LessThan, x, y, store, depth, l, r, end, less);
    OperatorGives(ctx, GreaterThan, x, y, store, depth, l, r, end, greater);
    OperatorGives(ctx, Equals, x, y, store, depth, l, r, end, 1 - less - greater);
    OperatorGives(ctx, LessThanOrEqualTo, x, y, store, depth, l, r, end, 1 - greater);
    OperatorGives(ctx, GreaterThanOrEqualTo, x, y, store, depth, l, r, end, 1 - less);
    OperatorGives(ctx, NotEquals, x, y, store, depth, l, r, end, less + greater);
    UpIsLess(l, r);
    UpIsLess(r, l);
  }

  lemma {:induction false} UpIsLess(l: int, r: int)
    ensures (exists d :: LeadsUp(l, d, r)) <==> l < r
  {
    assert l < r ==> LeadsUp(l, r - l, r);
  }

  lemma {:induction false} ComparisonsComputed(l: i64, r: i64)
    ensures !ShortCircuits(LessThan) && ComputeBinary(LessThan, l, r) == Ok(if l < r then 1 else 0)
    ensures !ShortCircuits(GreaterThan) && ComputeBinary(GreaterThan, l, r) == Ok(if r < l then 1 else 0)
    ensures !ShortCircuits(Equals) && ComputeBinary(Equals, l, r) == Ok(if l < r || r < l then 0 else 1)
    ensures !ShortCircuits(LessThanOrEqualTo) && ComputeBinary(LessThanOrEqualTo, l, r) == Ok(if r < l then 0 else 1)
    ensures !ShortCircuits(GreaterThanOrEqualTo)
         && ComputeBinary(GreaterThanOrEqualTo, l, r) == Ok(if l < r then 0 else 1)
    ensures !ShortCircuits(NotEquals) && ComputeBinary(NotEquals, l, r) == Ok(if l < r || r < l then 1 else 0)
  {
  }

  /** Turning a comparison round gives the same when neither operand changes anything. */
  lemma {:induction false} ComparisonsTurned(ctx: Context, x: Expr, y: Expr, store: Store, depth: nat, l: i64, r: i64)
    requires InTurn(ctx, x, y, store, depth, l, r, store) && InTurn(ctx, y, x, store, depth, r, l, store)
    ensures Eval(ctx, BinaryOp(LessThan, x, y), store, depth) == Eval(ctx, BinaryOp(GreaterThan, y, x), store, depth)
    ensures Eval(ctx, BinaryOp(LessThanOrEqualTo, x, y), store, depth)
         == Eval(ctx, BinaryOp(GreaterThanOrEqualTo, y, x), store, depth)
    ensures Eval(ctx, BinaryOp(Equals, x, y), store, depth) == Eval(ctx, BinaryOp(Equals, y, x), store, depth)
  {
    hide *;
    Comparisons(ctx, x, y, store, depth, l, r, store);
    Comparisons(ctx, y, x, store, depth, r, l, store);
  }

  // ------------------------------------------------------------ logic

  /** `&&`, `||` and `!` give 0 or 1, and the first two leave their right operand alone when the left one
      has decided. */
  lemma {:induction false} LogicalValues(ctx: Context, x: Expr, y: Expr, store: Store, depth: nat, l: i64, s: Store)
    requires depth <= 1024 && Eval(ctx, x, store, depth) == Done(l, s)
    ensures Eval(ctx, UnaryOp(LogicalNot, x), store, depth) == Done(if l == 0 then 1 else 0, s)
    ensures var right, both := Eval(ctx, y, s, depth), Eval(ctx, BinaryOp(LogicalAnd, x, y), store, depth);
      && (l == 0 ==> both == Done(0, s))
      && (l != 0 && right.Done? ==> both == Done(if right.value == 0 then 0 else 1, right.store))
      && (l != 0 && right.Failed? ==> both == right)
    ensures var right, either := Eval(ctx, y, s, depth), Eval(ctx, BinaryOp(LogicalOr, x, y), store, depth);
      && (l != 0 ==> either == Done(1, s))
      && (l == 0 && right.Done? ==> either == Done(if right.value == 0 then 0 else 1, right.store))
      && (l == 0 && right.Failed? ==> either == right)
  {
    BinaryUnfolds(ctx, LogicalAnd, x, y, store, depth);
    BinaryUnfolds(ctx, LogicalOr, x, y, store, depth);
    UnaryUnfolds(ctx, LogicalNot, x, store, depth);
    hide Eval, Binary, ComputeBinary, Neg, Not;
  }

  /** A failing operand fails the whole operation there and then. */
  lemma {:induction false} OperandFails(ctx: Context, op: BinaryOperator, x: Expr, y: Expr, store: Store, depth: nat)
    requires depth <= 1024
    ensures var left, whole := Eval(ctx, x, store, depth), Eval(ctx, BinaryOp(op, x, y), store, depth);
      && (left.Failed? ==> whole == left)
      && (left.Done? && Eval(ctx, y, left.store, depth).Failed? && op != LogicalAnd && op != LogicalOr ==>
            whole == Eval(ctx, y, left.store, depth))
  {
    BinaryUnfolds(ctx, op, x, y, store, depth);
    hide Eval, Binary, ComputeBinary;
  }

  // ------------------------------------------------------------ arithmetic

  /** A machine integer that differs from `n` by a multiple of 2^64. */
  ghost predicate Wraps(v: i64, n: int) {
    exists k: int :: v == n + k * 0x1_0000_0000_0000_0000
  }

  /** Sums, differences and products are those of the integers up to a multiple of 2^64, which a machine
      integer determines; the comma gives its right operand. */
  lemma {:induction false} RingOnValues(ctx: Context, x: Expr, y: Expr, store: Store, depth: nat,
                                        l: i64, r: i64, end: Store)
    requires InTurn(ctx, x, y, store, depth, l, r, end)
    ensures var sum, difference, product := Eval(ctx, BinaryOp(Plus, x, y), store, depth),
                                            Eval(ctx, BinaryOp(Subtract, x, y), store, depth),
                                            Eval(ctx, BinaryOp(Multiply, x, y), store, depth);
      && sum.Done? && sum.store == end && Wraps(sum.value, l + r)
      && difference.Done? && difference.store == end && Wraps(difference.value, l - r)
      && product.Done? && product.store == end && Wraps(product.value, l * r)
    ensures Eval(ctx, BinaryOp(Comma, x, y), store, depth) == Done(r, end)
  {
    hide *;
    RingComputed(l, r);
    OperatorGives(ctx, Plus, x, y, store, depth, l, r, end, Wrap(l + r));
    OperatorGives(ctx, Subtract, x, y, store, depth, l, r, end, Wrap(l - r));
    OperatorGives(ctx, Multiply, x, y, store, depth, l, r, end, Wrap(l * r));
    OperatorGives(ctx, Comma, x, y, store, depth, l, r, end, r);
    WrapWraps(l + r);
    WrapWraps(l - r);
    WrapWraps(l * r);
  }

  lemma {:induction false} RingComputed(l: i64, r: i64)
    ensures !ShortCircuits(Plus) && ComputeBinary(Plus, l, r) == Ok(Wrap(l + r))
    ensures !ShortCircuits(Subtract) && ComputeBinary(Subtract, l, r) == Ok(Wrap(l - r))
    ensures !ShortCircuits(Multiply) && ComputeBinary(Multiply, l, r) == Ok(Wrap(l * r))
    ensures !ShortCircuits(Comma) && ComputeBinary(Comma, l, r) == Ok(r)
  {
    hide Wrap;
  }

  lemma {:induction false} WrapWraps(n: int)
    ensures Wraps(Wrap(n), n)
  {
    var m := n % TWO_64;
    assert n == TWO_64 * (n / TWO_64) + m;
    assert Wrap(n) == n + (if m < TWO_63 then -(n / TWO_64) else -(n / TWO_64) - 1) * 0x1_0000_0000_0000_0000;
  }

  /** Division and remainder fail exactly on a zero divisor, and a power exactly on a negative exponent,
      once both operands are evaluated. */
  lemma {:induction false} FailingOperators(ctx: Context, x: Expr, y: Expr, store: Store, depth: nat,
                                            l: i64, r: i64, end: Store)
    requires InTurn(ctx, x, y, store, depth, l, r, end)
    ensures var quotient, remainder, power := Eval(ctx, BinaryOp(Divide, x, y), store, depth),
                                              Eval(ctx, BinaryOp(Modulo, x, y), store, depth),
                                              Eval(ctx, BinaryOp(Power, x, y), store, depth);
      && quotient.store == remainder.store == power.store == end
      && (if r == 0 then quotient == remainder == Failed(DivideByZero, end) else quotient.Done? && remainder.Done?)
      && (if r < 0 then power == Failed(NegativeExponent, end) else power.Done?)
  {
    OperatorOnValues(ctx, Divide, x, y, store, depth, l, r, end);
    OperatorOnValues(ctx, Modulo, x, y, store, depth, l, r, end);
    OperatorOnValues(ctx, Power, x, y, store, depth, l, r, end);
    hide Eval, InTurn, Wrap, TruncDiv;
  }

  /** A quotient is cut towards zero, and the remainder has the sign of the dividend; only the least
      number divided by -1 wraps. */
  lemma {:induction false} QuotientAndRemainder(ctx: Context, x: Expr, y: Expr, store: Store, depth: nat,
                                                l: i64, r: i64, end: Store)
    requires InTurn(ctx, x, y, store, depth, l, r, end) && r != 0
    ensures var quotient, remainder := Eval(ctx, BinaryOp(Divide, x, y), store, depth),
                                       Eval(ctx, BinaryOp(Modulo, x, y), store, depth);
      && quotient.Done? && remainder.Done?
      && var q, m := quotient.value, remainder.value;
        if l == -0x8000_0000_0000_0000 && r == -1 then q == l && m == 0
        else
          && q * r + m == l && (if r < 0 then r < m < 0 - r else 0 - r < m < r)
          && (m == 0 || (m < 0 <==> l < 0))
  {
    OperatorOnValues(ctx, Divide, x, y, store, depth, l, r, end);
    OperatorOnValues(ctx, Modulo, x, y, store, depth, l, r, end);
    DivOverflow(l, r);
    TruncDivRem(l, r);
    hide Eval, InTurn, TruncDiv;
  }

  // ------------------------------------------------------------ bits

  /** Bit `k` of a number in two's complement. */
  predicate Bit(x: int, k: nat)
    decreases k
  {
    if k == 0 then x % 2 == 1 else Bit(x / 2, k - 1)
  }

  /** The bit operators work on each of the 64 bits alone. */
  lemma {:induction false} BitOperatorsOnValues(ctx: Context, x: Expr, y: Expr, store: Store, depth: nat,
                                                l: i64, r: i64, end: Store, k: nat)
    requires InTurn(ctx, x, y, store, depth, l, r, end) && k < 64
    ensures var and, or, xor := Eval(ctx, BinaryOp(BitwiseAnd, x, y), store, depth),
                                Eval(ctx, BinaryOp(BitwiseOr, x, y), store, depth),
                                Eval(ctx, BinaryOp(BitwiseXor, x, y), store, depth);
      && and.Done? && or.Done? && xor.Done? && and.store == or.store == xor.store == end
      && (Bit(and.value, k) <==> Bit(l, k) && Bit(r, k))
      && (Bit(or.value, k) <==> Bit(l, k) || Bit(r, k))
      && (Bit(xor.value, k) <==> Bit(l, k) != Bit(r, k))
  {
    hide *;
    BitsComputed(l, r);
    OperatorGives(ctx, BitwiseAnd, x, y, store, depth, l, r, end, Bitwise(BitAnd, l, r));
    OperatorGives(ctx, BitwiseOr, x, y, store, depth, l, r, end, Bitwise(BitOr, l, r));
    OperatorGives(ctx, BitwiseXor, x, y, store, depth, l, r, end, Bitwise(BitXor, l, r));
    BitwiseAt(BitAnd, l, r, k);
    BitwiseAt(BitOr, l, r, k);
    BitwiseAt(BitXor, l, r, k);
  }

  lemma {:induction false} BitsComputed(l: i64, r: i64)
    ensures !ShortCircuits(BitwiseAnd) && ComputeBinary(BitwiseAnd, l, r) == Ok(Bitwise(BitAnd, l, r))
    ensures !ShortCircuits(BitwiseOr) && ComputeBinary(BitwiseOr, l, r) == Ok(Bitwise(BitOr, l, r))
    ensures !ShortCircuits(BitwiseXor) && ComputeBinary(BitwiseXor, l, r) == Ok(Bitwise(BitXor, l, r))
  {
    hide Bitwise;
  }

  lemma {:induction false} BitwiseAt(op: BitOp, l: i64, r: i64, k: nat)
    requires k < 64
    ensures Bit(Bitwise(op, l, r), k)
         == match op
            case BitAnd => Bit(l, k) && Bit(r, k)
            case BitOr => Bit(l, k) || Bit(r, k)
            case BitXor => Bit(l, k) != Bit(r, k)
  {
    BitsAt(op, l, r, 63, k);
    assert Bitwise(op, l, r) == Bits(op, l, r, 63);
    hide Bits, Bit, Bitwise;
  }

  lemma {:induction false} BitsAt(op: BitOp, x: int, y: int, n: nat, k: nat)
    requires k <= n
    ensures Bit(Bits(op, x, y, n), k) == BitOpBit(op, Bit(x, k), Bit(y, k))
    decreases n
  {
    var z := Bits(op, x, y, n);
    if k > 0 {
      BitsAt(op, x / 2, y / 2, n - 1, k - 1);
      assert z / 2 == Bits(op, x / 2, y / 2, n - 1);
    }
  }

  /** The complement and the sign. */
  lemma {:induction false} UnaryOnValues(ctx: Context, x: Expr, store: Store, depth: nat, v: i64, s: Store)
    requires depth <= 1024 && Eval(ctx, x, store, depth) == Done(v, s)
    ensures Eval(ctx, UnaryOp(UnaryPlus, x), store, depth) == Done(v, s)
    ensures Eval(ctx, UnaryOp(BitwiseNot, x), store, depth) == Done(-1 - v, s)
    ensures Eval(ctx, UnaryOp(UnaryMinus, x), store, depth)
         == Done(if v == -0x8000_0000_0000_0000 then v else -v, s)
  {
    UnaryUnfolds(ctx, UnaryPlus, x, store, depth);
    UnaryUnfolds(ctx, BitwiseNot, x, store, depth);
    UnaryUnfolds(ctx, UnaryMinus, x, store, depth);
    UnaryComputed(v);
    hide *;
  }

  lemma {:induction false} UnaryComputed(v: i64)
    ensures ComputeUnary(UnaryPlus, v) == v && ComputeUnary(BitwiseNot, v) == -1 - v
    ensures ComputeUnary(UnaryMinus, v) == if v == -0x8000_0000_0000_0000 then v else -v
  {
  }

  // ------------------------------------------------------------ reading

  /** The text of a value that is set: an array stands for its element zero. */
  ghost predicate IsText(value: Value, text: string) {
    match value
    case Unset(_) => false
    case Scalar(s) => text == s
    case Indexed(m) => text == if 0 in m then m[0] else ""
    case Associative(m) => text == if "0" in m then m["0"] else ""
  }

  /** The outcome of evaluating a text: nothing it changes costs a level unless it is more than a number. */
  ghost predicate Evaluates(ctx: Context, text: string, store: Store, depth: nat, o: Outcome<i64>)
    requires depth <= 1024
  {
    match ctx.parse(text)
    case None => o == Failed(ParseError(text), store)
    case Some(e) =>
      if e.Literal? then o == Done(e.value, store)
      else if depth == 1024 then o == Failed(RecursionLimitExceeded, store)
      else o == Eval(ctx, e, store, depth + 1)
  }

  /** A variable that is set reads as its text; one that is not, or is not there, as the empty text, or
      as the error about it exactly if unset variables are errors. */
  lemma {:induction false} VariableReads(ctx: Context, name: string, store: Store, depth: nat)
    requires depth <= 1024
    ensures var o := Eval(ctx, Reference(Name(name)), store, depth);
      if name in store && !store[name].value.Unset? then
        exists text :: IsText(store[name].value, text) && Evaluates(ctx, text, store, depth, o)
      else if ctx.unsetIsError then o == Failed(ExpandingUnsetVariable(name), store)
      else Evaluates(ctx, "", store, depth, o)
  {
    hide Eval, Deref, EvalText, Evaluates;
    var size := TargetSize(Name(name));
    ReferenceUnfolds(ctx, Name(name), store, depth);
    TextEvaluates(ctx, "", store, depth, size);
    if name in store && !store[name].value.Unset? {
      var text := store[name].value.AsString();
      ZeroIs();
      assert IsText(store[name].value, text);
      TextEvaluates(ctx, text, store, depth, size);
    }
  }

  lemma {:induction false} ReferenceUnfolds(ctx: Context, t: Target, store: Store, depth: nat)
    requires depth <= MAX_VARIABLE_DEREF_DEPTH
    ensures Eval(ctx, Reference(t), store, depth) ==
            match TargetText(ctx, t, store, depth)
            case Done(text, s) => EvalText(ctx, text, s, depth, TargetSize(t))
            case Failed(e, s) => Failed(e, s)
  {
    hide Binary, Unary, Assign, UnaryAssign, TargetText, EvalText;
    assert Eval(ctx, Reference(t), store, depth) == Deref(ctx, t, store, depth);
  }

  lemma {:induction false} ZeroIs()
    ensures ToDecimal(0) == "0"
  {
  }

  lemma {:induction false} TextEvaluates(ctx: Context, text: string, store: Store, depth: nat, size: nat)
    requires depth <= 1024 && size >= 1
    ensures Evaluates(ctx, text, store, depth, EvalText(ctx, text, store, depth, size))
  {
    EvalTextUnfolds(ctx, text, store, depth, size);
    if ctx.parse(text).Some? && ctx.parse(text).value.Literal? {
      LiteralIs(ctx, ctx.parse(text).value.value, store, depth);
    }
    hide Eval, EvalText;
  }

  /** What an element of a value reads as: nothing for one that is not there; a scalar is its own element
      zero; a negative index of an indexed array counts back from the number of its elements, and one that
      falls before the first is an error. */
  ghost predicate IsElement(value: Value, i: i64, r: Result<string>) {
    match value
    case Unset(_) => r == Ok("")
    case Scalar(s) => r == Ok(if i <= 0 then s else "")
    case Indexed(m) =>
      var k := if i < 0 then |m| + i else i;
      if k < 0 then r == Err(FailedToAccessArray) else r == Ok(if k in m then m[k] else "")
    case Associative(m) => r == Ok(if ToDecimal(i) in m then m[ToDecimal(i)] else "")
  }

  /** Reading an element evaluates the index first, and then the text found in the store that leaves. */
  lemma {:induction false} ElementReads(ctx: Context, name: string, index: Expr, store: Store, depth: nat)
    requires depth <= 1024
    ensures var i, o := Eval(ctx, index, store, depth), Eval(ctx, Reference(Element(name, index)), store, depth);
      if i.Failed? then o == i
      else if name !in i.store then Evaluates(ctx, "", i.store, depth, o)
      else
        exists r: Result<string> :: IsElement(i.store[name].value, i.value, r)
          && (if r.Ok? then Evaluates(ctx, r.value, i.store, depth, o) else o == Failed(r.error, i.store))
  {
    hide Eval, Deref, EvalText, Evaluates, ToDecimal;
    var i, size := Eval(ctx, index, store, depth), TargetSize(Element(name, index));
    ReferenceUnfolds(ctx, Element(name, index), store, depth);
    if i.Done? {
      var r := ElementText(i.store, name, i.value);
      if r.Ok? {
        TextEvaluates(ctx, r.value, i.store, depth, size);
      }
      if name in i.store {
        assert IsElement(i.store[name].value, i.value, r);
      }
      hide IsElement;
    }
  }

  // ------------------------------------------------------------ writing

  /** Assigning a name fails exactly if the variable is read-only, and then changes nothing; otherwise
      the variable keeps being what it was: an array takes the text as its element zero and keeps the
      others. */
  lemma {:induction false} ScalarWrites(store: Store, name: string, text: string)
    ensures var u := AssignScalar(store, name, text);
      && (u.ok <==> !(name in store && store[name].readonly))
      && (!u.ok ==> u.store == store)
      && (u.ok && name !in store ==> u.store == store[name := Variable(false, Scalar(text))])
      && (u.ok && name in store ==>
            && name in u.store && !u.store[name].readonly
            && match store[name].value
               case Unset(Untyped) => u.store[name].value == Scalar(text)
               case Unset(UnsetIndexed) => u.store[name].value == Indexed(map[0 := text])
               case Unset(UnsetAssociative) => u.store[name].value == Associative(map["0" := text])
               case Scalar(_) => u.store[name].value == Scalar(text)
               case Indexed(m) => u.store[name].value == Indexed(m[0 := text])
               case Associative(m) => u.store[name].value == Associative(m["0" := text]))
  {
    ZeroIs();
    hide ToDecimal;
  }

  /** Assigning an element fails exactly if the variable is read-only and has no value yet, or if a
      negative index falls before the first element; a variable that has a value is not protected. */
  lemma {:induction false} ElementWrites(store: Store, name: string, index: i64, text: string)
    ensures var u := AssignElement(store, name, index, text);
      && (name !in store ==> u.ok)
      && (name in store ==>
            match store[name].value
            case Unset(kind) => !u.ok <==> store[name].readonly || (kind != UnsetAssociative && index < 0)
            case Scalar(_) => !u.ok <==> index < -1
            case Indexed(m) => !u.ok <==> index < -|m|
            case Associative(_) => u.ok)
      && (name in store ==> name in u.store && u.store[name].readonly == store[name].readonly)
      && (name !in store ==> name in u.store && !u.store[name].readonly && u.store[name].value.Indexed?)
  {
    hide ToDecimal;
  }

  /** A failed assignment shows as such, with the store its parts have left. */
  lemma {:induction false} FailedWrites(ctx: Context, name: string, e: Expr, store: Store, depth: nat)
    requires depth <= 1024
    ensures var v, o := Eval(ctx, e, store, depth), Eval(ctx, Assignment(Name(name), e), store, depth);
      && (v.Failed? ==> o == v)
      && (v.Done? ==>
            if name in v.store && v.store[name].readonly then o == Failed(FailedToUpdateEnvironment, v.store)
            else o.Done? && o.value == v.value)
  {
    hide Binary, Unary, Deref, UnaryAssign, ToDecimal;
    var v := Eval(ctx, e, store, depth);
    if v.Done? {
      assert Eval(ctx, Assignment(Name(name), e), store, depth) == Assign(ctx, Name(name), v.value, v.store, depth);
    }
  }
}
