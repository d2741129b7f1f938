/** The shell arithmetic evaluator: a recursive evaluator over an expression tree that re-parses
    the text of every variable it dereferences, while the same evaluation assigns variables.

    The functions say what an evaluation returns and what store it leaves behind, on failure too;
    the class `Shell` evaluates in place and is proved against them. */
module Arithmetic {
  import opened Int64
  import opened Options
  import opened ShellVariables

  datatype Target =
    | Name(name: string)
    | Element(name: string, index: Expr)

  datatype UnaryOperator = UnaryPlus | UnaryMinus | BitwiseNot | LogicalNot

  datatype BinaryOperator =
    | Power | Multiply | Divide | Modulo | Comma | Plus | Subtract | ShiftLeft | ShiftRight
    | LessThan | LessThanOrEqualTo | GreaterThan | GreaterThanOrEqualTo | Equals | NotEquals
    | BitwiseAnd | BitwiseXor | BitwiseOr | LogicalAnd | LogicalOr

  datatype UnaryAssignOperator = PrefixIncrement | PrefixDecrement | PostfixIncrement | PostfixDecrement

  datatype Expr =
    | Literal(value: i64)
    | Reference(target: Target)
    | UnaryOp(uop: UnaryOperator, operand: Expr)
    | BinaryOp(bop: BinaryOperator, left: Expr, right: Expr)
    | Conditional(condition: Expr, thenExpr: Expr, elseExpr: Expr)
    | Assignment(target: Target, rhs: Expr)
    | UnaryAssignment(aop: UnaryAssignOperator, target: Target)
    | BinaryAssignment(bop: BinaryOperator, target: Target, operand: Expr)

  datatype EvalError =
    | DivideByZero
    | NegativeExponent
    | FailedToAccessArray
    | FailedToUpdateEnvironment
    | ParseError(text: string)
    | ExpandingUnsetVariable(name: string)
    | RecursionLimitExceeded

  const MAX_VARIABLE_DEREF_DEPTH: nat := 1024

  /** What stays fixed during an evaluation: the parser for arithmetic text, and whether reading an
      unset variable is an error. */
  datatype Context = Context(parse: string -> Option<Expr>, unsetIsError: bool)

  datatype Result<+T> = Ok(value: T) | Err(error: EvalError)

  /** A result together with the store left behind. */
  datatype Outcome<+T> = Done(value: T, store: Store) | Failed(error: EvalError, store: Store) {
    predicate IsFailure() { Failed? }
    function PropagateFailure<U>(): Outcome<U>
      requires Failed?
    {
      Failed(error, store)
    }
    function Extract(): (T, Store)
      requires Done?
    {
      (value, store)
    }
    function AsResult(): Result<T> {
      match this
      case Done(v, _) => Ok(v)
      case Failed(e, _) => Err(e)
    }
  }

  // ------------------------------------------------------------ the termination measure

  /** A size under which every evaluation step taken at the same depth goes down, including the
      evaluation of a re-parsed literal and of the fresh reference a compound assignment builds. */
  function Size(e: Expr): nat {
    match e
    case Literal(_) => 0
    case Reference(t) => TargetSize(t) + 1
    case UnaryOp(_, x) => Size(x) + 1
    case BinaryOp(_, x, y) => Size(x) + Size(y) + 2
    case Conditional(c, t, f) => Size(c) + Size(t) + Size(f) + 1
    case Assignment(t, x) => TargetSize(t) + Size(x) + 1
    case UnaryAssignment(_, t) => TargetSize(t) + 1
    case BinaryAssignment(_, t, x) => TargetSize(t) + Size(x) + 4
  }

  function TargetSize(t: Target): (n: nat)
    ensures n >= 1
  {
    match t
    case Name(_) => 1
    case Element(_, i) => Size(i) + 1
  }

  // ------------------------------------------------------------ operators on values

  function FromBool(b: bool): i64 { if b then 1 else 0 }

  function ComputeUnary(op: UnaryOperator, x: i64): i64 {
    match op
    case UnaryPlus => x
    case UnaryMinus => Neg(x)
    case BitwiseNot => Not(x)
    case LogicalNot => FromBool(x == 0)
  }

  predicate ShortCircuits(op: BinaryOperator) {
    op == LogicalAnd || op == LogicalOr
  }

  function ComputeBinary(op: BinaryOperator, l: i64, r: i64): Result<i64>
    requires !ShortCircuits(op)
  {
    match op
    case Power => if r >= 0 then Ok(Wrap(Int64.Power(l, r))) else Err(NegativeExponent)
    case Multiply => Ok(Mul(l, r))
    case Divide => if r == 0 then Err(DivideByZero) else Ok(Div(l, r))
    case Modulo => if r == 0 then Err(DivideByZero) else Ok(Rem(l, r))
    case Comma => Ok(r)
    case Plus => Ok(Add(l, r))
    case Subtract => Ok(Sub(l, r))
    case ShiftLeft => Ok(Shl(l, r))
    case ShiftRight => Ok(Shr(l, r))
    case LessThan => Ok(FromBool(l < r))
    case LessThanOrEqualTo => Ok(FromBool(l <= r))
    case GreaterThan => Ok(FromBool(l > r))
    case GreaterThanOrEqualTo => Ok(FromBool(l >= r))
    case Equals => Ok(FromBool(l == r))
    case NotEquals => Ok(FromBool(l != r))
    case BitwiseAnd => Ok(Bitwise(BitAnd, l, r))
    case BitwiseXor => Ok(Bitwise(BitXor, l, r))
    case BitwiseOr => Ok(Bitwise(BitOr, l, r))
  }

  lemma {:induction false} ComputePower(l: i64, r: i64)
    ensures r >= 0 ==> ComputeBinary(Power, l, r) == Ok(Wrap(Int64.Power(l, r)))
  {
  }

  function Lift(r: Result<i64>, store: Store): Outcome<i64> {
    match r
    case Ok(v) => Done(v, store)
    case Err(e) => Failed(e, store)
  }

  // ------------------------------------------------------------ evaluation

  function VariableText(ctx: Context, store: Store, name: string): Result<string> {
    if name in store && !store[name].value.Unset? then Ok(store[name].value.AsString())
    else if ctx.unsetIsError then Err(ExpandingUnsetVariable(name))
    else Ok("")
  }

  function ElementText(store: Store, name: string, index: i64): Result<string> {
    match ElementAt(store, name, index)
    case Found(text) => Ok(text)
    case Absent => Ok("")
    case OutOfRange => Err(FailedToAccessArray)
  }

  function Eval(ctx: Context, e: Expr, store: Store, depth: nat): Outcome<i64>
    requires depth <= MAX_VARIABLE_DEREF_DEPTH
    decreases MAX_VARIABLE_DEREF_DEPTH - depth, Size(e), 2
  {
    match e
    case Literal(l) => Done(l, store)
    case Reference(t) => Deref(ctx, t, store, depth)
    case UnaryOp(op, x) => Unary(ctx, op, x, store, depth)
    case BinaryOp(op, x, y) => Binary(ctx, op, x, y, store, depth)
    case Conditional(c, t, f) =>
      var (v, s) :- Eval(ctx, c, store, depth);
      if v != 0 then Eval(ctx, t, s, depth) else Eval(ctx, f, s, depth)
    case Assignment(t, x) =>
      var (v, s) :- Eval(ctx, x, store, depth);
      Assign(ctx, t, v, s, depth)
    case UnaryAssignment(op, t) => UnaryAssign(ctx, op, t, store, depth)
    case BinaryAssignment(op, t, x) =>
      var (v, s) :- Binary(ctx, op, Reference(t), x, store, depth);
      Assign(ctx, t, v, s, depth)
  }

  function TargetText(ctx: Context, t: Target, store: Store, depth: nat): Outcome<string>
    requires depth <= MAX_VARIABLE_DEREF_DEPTH
    decreases MAX_VARIABLE_DEREF_DEPTH - depth, TargetSize(t), 0
  {
    match t
    case Name(name) =>
      (match VariableText(ctx, store, name)
       case Ok(text) => Done(text, store)
       case Err(e) => Failed(e, store))
    case Element(name, index) =>
      var (i, s) :- Eval(ctx, index, store, depth);
      match ElementText(s, name, i)
      case Ok(text) => Done(text, s)
      case Err(e) => Failed(e, s)
  }

  /** Reading a variable: its text is parsed and evaluated one level deeper, unless it is a plain
      literal, which costs no depth. */
  function Deref(ctx: Context, t: Target, store: Store, depth: nat): Outcome<i64>
    requires depth <= MAX_VARIABLE_DEREF_DEPTH
    decreases MAX_VARIABLE_DEREF_DEPTH - depth, TargetSize(t), 1
  {
    var (text, s) :- TargetText(ctx, t, store, depth);
    EvalText(ctx, text, s, depth, TargetSize(t))
  }

  /** Evaluating the text of a variable whose target has the given size, which only bounds the recursion. */
  function EvalText(ctx: Context, text: string, store: Store, depth: nat, ghost size: nat): Outcome<i64>
    requires depth <= MAX_VARIABLE_DEREF_DEPTH && size >= 1
    decreases MAX_VARIABLE_DEREF_DEPTH - depth, size, 0
  {
    match ctx.parse(text)
    case None => Failed(ParseError(text), store)
    case Some(parsed) =>
      if parsed.Literal? then Eval(ctx, parsed, store, depth)
      else if depth + 1 > MAX_VARIABLE_DEREF_DEPTH then Failed(RecursionLimitExceeded, store)
      else Eval(ctx, parsed, store, depth + 1)
  }

  function Unary(ctx: Context, op: UnaryOperator, x: Expr, store: Store, depth: nat): Outcome<i64>
    requires depth <= MAX_VARIABLE_DEREF_DEPTH
    decreases MAX_VARIABLE_DEREF_DEPTH - depth, Size(x) + 1, 0
  {
    var (v, s) :- Eval(ctx, x, store, depth);
    Done(ComputeUnary(op, v), s)
  }

  function Binary(ctx: Context, op: BinaryOperator, x: Expr, y: Expr, store: Store, depth: nat): Outcome<i64>
    requires depth <= MAX_VARIABLE_DEREF_DEPTH
    decreases MAX_VARIABLE_DEREF_DEPTH - depth, Size(x) + Size(y) + 1, 0
  {
    var (l, s) :- Eval(ctx, x, store, depth);
    if op == LogicalAnd && l == 0 then Done(FromBool(false), s)
    else if op == LogicalOr && l != 0 then Done(FromBool(true), s)
    else
      var (r, s') :- Eval(ctx, y, s, depth);
      if ShortCircuits(op) then Done(FromBool(r != 0), s')
      else Lift(ComputeBinary(op, l, r), s')
  }

  /** What a binary operation makes of its left value and the outcome of its right operand. */
  function Combined(op: BinaryOperator, l: i64, right: Outcome<i64>): Outcome<i64> {
    if right.Failed? then right
    else if ShortCircuits(op) then Done(FromBool(right.value != 0), right.store)
    else Lift(ComputeBinary(op, l, right.value), right.store)
  }

  /** A binary operation's outcome, from that of its left operand and that of its right operand. */
  function AfterLeft(op: BinaryOperator, left: Outcome<i64>, right: Outcome<i64>): Outcome<i64>
    requires left.Done?
  {
    if op == LogicalAnd && left.value == 0 then Done(0, left.store)
    else if op == LogicalOr && left.value != 0 then Done(1, left.store)
    else Combined(op, left.value, right)
  }

  lemma {:induction false} BinaryCases(ctx: Context, op: BinaryOperator, x: Expr, y: Expr, store: Store, depth: nat)
    requires depth <= MAX_VARIABLE_DEREF_DEPTH
    ensures var o := Eval(ctx, x, store, depth);
            Binary(ctx, op, x, y, store, depth) ==
              if o.Failed? then o else AfterLeft(op, o, Eval(ctx, y, o.store, depth))
  {
    hide Eval, ComputeBinary;
  }

  function NewValue(op: UnaryAssignOperator, v: i64): i64 {
    match op
    case PrefixIncrement => Add(v, 1)
    case PrefixDecrement => Sub(v, 1)
    case PostfixIncrement => Add(v, 1)
    case PostfixDecrement => Sub(v, 1)
  }

  predicate IsPrefix(op: UnaryAssignOperator) {
    op == PrefixIncrement || op == PrefixDecrement
  }

  function UnaryAssign(ctx: Context, op: UnaryAssignOperator, t: Target, store: Store, depth: nat): Outcome<i64>
    requires depth <= MAX_VARIABLE_DEREF_DEPTH
    decreases MAX_VARIABLE_DEREF_DEPTH - depth, TargetSize(t), 2
  {
    var (v, s) :- Deref(ctx, t, store, depth);
    var (_, s') :- Assign(ctx, t, NewValue(op, v), s, depth);
    Done(if IsPrefix(op) then NewValue(op, v) else v, s')
  }

  /** Writing a variable; the index of an array element is evaluated (again) first. */
  function Assign(ctx: Context, t: Target, v: i64, store: Store, depth: nat): Outcome<i64>
    requires depth <= MAX_VARIABLE_DEREF_DEPTH
    decreases MAX_VARIABLE_DEREF_DEPTH - depth, TargetSize(t), 0
  {
    match t
    case Name(name) => Written(AssignScalar(store, name, ToDecimal(v)), v)
    case Element(name, index) =>
      var (i, s) :- Eval(ctx, index, store, depth);
      Written(AssignElement(s, name, i, ToDecimal(v)), v)
  }

  function Written(u: Update, v: i64): Outcome<i64> {
    if u.ok then Done(v, u.store) else Failed(FailedToUpdateEnvironment, u.store)
  }

  // ------------------------------------------------------------ evaluation in place

  class Shell {
    const ctx: Context
    var store: Store

    constructor (ctx: Context, store: Store)
      ensures this.ctx == ctx && this.store == store
    {
      this.ctx, this.store := ctx, store;
    }

    /** Evaluating an expression from the top level, at depth zero. */
    method Evaluate(e: Expr) returns (r: Result<i64>)
      modifies this
      ensures var o := Eval(ctx, e, old(store), 0);
              r == o.AsResult() && store == o.store
    {
      r := EvalExprImpl(e, 0);
    }

    method EvalExprImpl(e: Expr, depth: nat) returns (r: Result<i64>)
      requires depth <= MAX_VARIABLE_DEREF_DEPTH
      modifies this
      ensures var o := Eval(ctx, e, old(store), depth);
              r == o.AsResult() && store == o.store
      decreases MAX_VARIABLE_DEREF_DEPTH - depth, Size(e), 2
    {
      match e
      case Literal(l) =>
        r := Ok(l);
      case Reference(t) =>
        r := DerefLvalue(t, depth);
      case UnaryOp(op, x) =>
        r := ApplyUnaryOp(op, x, depth);
      case BinaryOp(op, x, y) =>
        r := ApplyBinaryOp(op, x, y, depth);
      case Conditional(c, t, f) =>
        r := EvalExprImpl(c, depth);
        if r.Ok? {
          if r.value != 0 {
            r := EvalExprImpl(t, depth);
          } else {
            r := EvalExprImpl(f, depth);
          }
        }
      case Assignment(t, x) =>
        r := EvalExprImpl(x, depth);
        if r.Ok? {
          r := AssignTarget(t, r.value, depth);
        }
      case UnaryAssignment(op, t) =>
        r := ApplyUnaryAssignmentOp(op, t, depth);
      case BinaryAssignment(op, t, x) =>
        r := ApplyBinaryOp(op, Reference(t), x, depth);
        if r.Ok? {
          r := AssignTarget(t, r.value, depth);
        }
    }

    method DerefLvalue(t: Target, depth: nat) returns (r: Result<i64>)
      requires depth <= MAX_VARIABLE_DEREF_DEPTH
      modifies this
      ensures var o := Deref(ctx, t, old(store), depth);
              r == o.AsResult() && store == o.store
      decreases MAX_VARIABLE_DEREF_DEPTH - depth, TargetSize(t), 1
    {
      var text: string;
      match t {
        case Name(name) =>
          var found := VariableText(ctx, store, name);
          if found.Err? { return Err(found.error); }
          text := found.value;
        case Element(name, index) =>
          var i := EvalExprImpl(index, depth);
          if i.Err? { return Err(i.error); }
          var found := ElementText(store, name, i.value);
          if found.Err? { return Err(found.error); }
          text := found.value;
      }
      var parsed := ctx.parse(text);
      if parsed.None? {
        return Err(ParseError(text));
      }
      if parsed.value.Literal? {
        r := EvalExprImpl(parsed.value, depth);
        return;
      }
      var newDepth := depth + 1;
      if newDepth > MAX_VARIABLE_DEREF_DEPTH {
        return Err(RecursionLimitExceeded);
      }
      r := EvalExprImpl(parsed.value, newDepth);
    }

    method ApplyUnaryOp(op: UnaryOperator, operand: Expr, depth: nat) returns (r: Result<i64>)
      requires depth <= MAX_VARIABLE_DEREF_DEPTH
      modifies this
      ensures var o := Unary(ctx, op, operand, old(store), depth);
              r == o.AsResult() && store == o.store
      decreases MAX_VARIABLE_DEREF_DEPTH - depth, Size(operand) + 1, 0
    {
      r := EvalExprImpl(operand, depth);
      if r.Ok? {
        r := Ok(ComputeUnary(op, r.value));
      }
    }

    method ApplyBinaryOp(op: BinaryOperator, left: Expr, right: Expr, depth: nat) returns (r: Result<i64>)
      requires depth <= MAX_VARIABLE_DEREF_DEPTH
      modifies this
      ensures var o := Binary(ctx, op, left, right, old(store), depth);
              r == o.AsResult() && store == o.store
      decreases MAX_VARIABLE_DEREF_DEPTH - depth, Size(left) + Size(right) + 1, 0
    {
      hide Eval, Binary, ComputeBinary;
      BinaryCases(ctx, op, left, right, store, depth);
      var l := EvalExprImpl(left, depth);
      if l.Err? { return l; }
      if op == LogicalAnd && l.value == 0 { return Ok(FromBool(false)); }
      if op == LogicalOr && l.value != 0 { return Ok(FromBool(true)); }
      r := EvalExprImpl(right, depth);
      if r.Err? { return; }
      ComputePower(l.value, r.value);
      if ShortCircuits(op) {
        r := Ok(FromBool(r.value != 0));
      } else if op == Power && r.value >= 0 {
        var p := WrappingPow(l.value, r.value);
        r := Ok(p);
      } else {
        r := ComputeBinary(op, l.value, r.value);
      }
    }

    method ApplyUnaryAssignmentOp(op: UnaryAssignOperator, t: Target, depth: nat) returns (r: Result<i64>)
      requires depth <= MAX_VARIABLE_DEREF_DEPTH
      modifies this
      ensures var o := UnaryAssign(ctx, op, t, old(store), depth);
              r == o.AsResult() && store == o.store
      decreases MAX_VARIABLE_DEREF_DEPTH - depth, TargetSize(t), 2
    {
      var current := DerefLvalue(t, depth);
      if current.Err? { return current; }
      var value := current.value;
      var newValue := NewValue(op, value);
      var written := AssignTarget(t, newValue, depth);
      if written.Err? { return written; }
      r := Ok(if IsPrefix(op) then newValue else value);
    }

    method AssignTarget(t: Target, value: i64, depth: nat) returns (r: Result<i64>)
      requires depth <= MAX_VARIABLE_DEREF_DEPTH
      modifies this
      ensures var o := Assign(ctx, t, value, old(store), depth);
              r == o.AsResult() && store == o.store
      decreases MAX_VARIABLE_DEREF_DEPTH - depth, TargetSize(t), 0
    {
      var u: Update;
      match t {
        case Name(name) =>
          u := AssignScalar(store, name, ToDecimal(value));
        case Element(name, index) =>
          var i := EvalExprImpl(index, depth);
          if i.Err? { return i; }
          u := AssignElement(store, name, i.value, ToDecimal(value));
      }
      store := u.store;
      r := if u.ok then Ok(value) else Err(FailedToUpdateEnvironment);
    }
  }
}
