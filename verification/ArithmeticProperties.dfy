/** What holds of every arithmetic evaluation: the depth counter only limits, evaluation reads and
    writes nothing outside a closed set of names, and expressions that should mean the same do. */
module ArithmeticProperties {
  import opened Int64
  import opened Options
  import opened ShellVariables
  import opened Arithmetic

  // ------------------------------------------------------------ the depth counter is only a limiter

  ghost predicate Limited<T>(deep: Outcome<T>, shallow: Outcome<T>) {
    deep == shallow || (deep.Failed? && deep.error == RecursionLimitExceeded)
  }

  /** Starting deeper gives the same value, error and store as starting shallower, or the
      recursion-limit error: for every expression and store. */
  lemma {:induction false} DepthOnlyLimits(ctx: Context, e: Expr, store: Store, deep: nat, shallow: nat)
    requires shallow <= deep <= MAX_VARIABLE_DEREF_DEPTH
    ensures Limited(Eval(ctx, e, store, deep), Eval(ctx, e, store, shallow))
    decreases MAX_VARIABLE_DEREF_DEPTH - shallow, Size(e), 2
  {
    match e
    case Literal(_) =>
    case Reference(t) => DerefLimited(ctx, t, store, deep, shallow);
    case UnaryOp(op, x) => DepthOnlyLimits(ctx, x, store, deep, shallow);
    case BinaryOp(op, x, y) => BinaryLimited(ctx, op, x, y, store, deep, shallow);
    case Conditional(c, t, f) =>
      DepthOnlyLimits(ctx, c, store, deep, shallow);
      var o := Eval(ctx, c, store, shallow);
      if o.Done? {
        DepthOnlyLimits(ctx, t, o.store, deep, shallow);
        DepthOnlyLimits(ctx, f, o.store, deep, shallow);
      }
    case Assignment(t, x) =>
      DepthOnlyLimits(ctx, x, store, deep, shallow);
      var o := Eval(ctx, x, store, shallow);
      if o.Done? {
        AssignLimited(ctx, t, o.value, o.store, deep, shallow);
      }
    case UnaryAssignment(op, t) =>
      DerefLimited(ctx, t, store, deep, shallow);
      var o := Deref(ctx, t, store, shallow);
      if o.Done? {
        AssignLimited(ctx, t, NewValue(op, o.value), o.store, deep, shallow);
      }
    case BinaryAssignment(op, t, x) =>
      BinaryLimited(ctx, op, Reference(t), x, store, deep, shallow);
      var o := Binary(ctx, op, Reference(t), x, store, shallow);
      if o.Done? {
        AssignLimited(ctx, t, o.value, o.store, deep, shallow);
      }
  }

  lemma {:induction false} BinaryLimited(ctx: Context, op: BinaryOperator, x: Expr, y: Expr, store: Store, deep: nat,
                                         shallow: nat)
    requires shallow <= deep <= MAX_VARIABLE_DEREF_DEPTH
    ensures Limited(Binary(ctx, op, x, y, store, deep), Binary(ctx, op, x, y, store, shallow))
    decreases MAX_VARIABLE_DEREF_DEPTH - shallow, Size(x) + Size(y) + 1, 0
  {
    hide Eval, ComputeBinary;
    DepthOnlyLimits(ctx, x, store, deep, shallow);
    var o := Eval(ctx, x, store, shallow);
    if o.Done? {
      DepthOnlyLimits(ctx, y, o.store, deep, shallow);
    }
  }

  lemma {:induction false} AssignLimited(ctx: Context, t: Target, v: i64, store: Store, deep: nat, shallow: nat)
    requires shallow <= deep <= MAX_VARIABLE_DEREF_DEPTH
    ensures Limited(Assign(ctx, t, v, store, deep), Assign(ctx, t, v, store, shallow))
    decreases MAX_VARIABLE_DEREF_DEPTH - shallow, TargetSize(t), 0
  {
    if t.Element? {
      DepthOnlyLimits(ctx, t.index, store, deep, shallow);
    }
  }

  lemma {:induction false} DerefLimited(ctx: Context, t: Target, store: Store, deep: nat, shallow: nat)
    requires shallow <= deep <= MAX_VARIABLE_DEREF_DEPTH
    ensures Limited(Deref(ctx, t, store, deep), Deref(ctx, t, store, shallow))
    decreases MAX_VARIABLE_DEREF_DEPTH - shallow, TargetSize(t), 1
  {
    hide Eval, EvalText;
    if t.Element? {
      DepthOnlyLimits(ctx, t.index, store, deep, shallow);
    }
    var o := TargetText(ctx, t, store, shallow);
    assert Limited(TargetText(ctx, t, store, deep), o);
    if o.Done? {
      var parsed := ctx.parse(o.value);
      if parsed.Some? && !parsed.value.Literal? && deep + 1 <= MAX_VARIABLE_DEREF_DEPTH {
        DepthOnlyLimits(ctx, parsed.value, o.store, deep + 1, shallow + 1);
      }
      EvalTextUnfolds(ctx, o.value, o.store, deep, TargetSize(t));
      EvalTextUnfolds(ctx, o.value, o.store, shallow, TargetSize(t));
    }
  }

  lemma {:induction false} EvalTextUnfolds(ctx: Context, text: string, store: Store, depth: nat, size: nat)
    requires depth <= MAX_VARIABLE_DEREF_DEPTH && size >= 1
    ensures EvalText(ctx, text, store, depth, size) ==
            match ctx.parse(text)
            case None => Failed(ParseError(text), store)
            case Some(Literal(v)) => Done(v, store)
            case Some(parsed) =>
              if depth + 1 > MAX_VARIABLE_DEREF_DEPTH then Failed(RecursionLimitExceeded, store)
              else Eval(ctx, parsed, store, depth + 1)
  {
  }

  // ------------------------------------------------------------ reference chains and cycles

  /** `name` holds text that parses to a plain reference to `next`. */
  ghost predicate RefersTo(ctx: Context, store: Store, name: string, next: string) {
    && name in store && !store[name].value.Unset?
    && ctx.parse(store[name].value.AsString()) == Some(Reference(Name(next)))
  }

  ghost predicate HoldsLiteral(ctx: Context, store: Store, name: string, v: i64) {
    && name in store && !store[name].value.Unset?
    && ctx.parse(store[name].value.AsString()) == Some(Literal(v))
  }

  /** chain[0] refers to chain[1], and so on; the last name holds the literal `v`. */
  ghost predicate IsChain(ctx: Context, store: Store, chain: seq<string>, v: i64) {
    && |chain| >= 1
    && HoldsLiteral(ctx, store, chain[|chain| - 1], v)
    && forall i :: 0 <= i < |chain| - 1 ==> RefersTo(ctx, store, chain[i], chain[i + 1])
  }

  /** One step of a plain reference to a set variable. */
  lemma {:induction false} DerefPlain(ctx: Context, store: Store, name: string, depth: nat)
    requires depth <= MAX_VARIABLE_DEREF_DEPTH
    requires name in store && !store[name].value.Unset?
    ensures Eval(ctx, Reference(Name(name)), store, depth) == Deref(ctx, Name(name), store, depth)
    ensures Deref(ctx, Name(name), store, depth) == EvalText(ctx, store[name].value.AsString(), store, depth, 1)
  {
  }

  lemma {:induction false} ChainFrom(ctx: Context, store: Store, chain: seq<string>, v: i64, depth: nat)
    requires IsChain(ctx, store, chain, v)
    requires depth <= MAX_VARIABLE_DEREF_DEPTH
    ensures Deref(ctx, Name(chain[0]), store, depth) ==
            if depth + (|chain| - 1) <= MAX_VARIABLE_DEREF_DEPTH then Done(v, store)
            else Failed(RecursionLimitExceeded, store)
    decreases |chain|
  {
    hide Eval, Deref, EvalText;
    if |chain| > 1 {
      assert RefersTo(ctx, store, chain[0], chain[1]);
    }
    DerefPlain(ctx, store, chain[0], depth);
    EvalTextUnfolds(ctx, store[chain[0]].value.AsString(), store, depth, 1);
    if |chain| > 1 && depth + 1 <= MAX_VARIABLE_DEREF_DEPTH {
      var rest := chain[1..];
      assert forall i :: 0 <= i < |rest| - 1 ==> RefersTo(ctx, store, rest[i], rest[i + 1]) by {
        forall i | 0 <= i < |rest| - 1
          ensures RefersTo(ctx, store, rest[i], rest[i + 1])
        {
          assert RefersTo(ctx, store, chain[i + 1], chain[i + 1 + 1]);
        }
      }
      ChainFrom(ctx, store, rest, v, depth + 1);
      assert rest[0] == chain[1] && (|rest| > 1 ==> RefersTo(ctx, store, rest[0], rest[1]));
      DerefPlain(ctx, store, rest[0], depth + 1);
    }
  }

  /** A chain of n plain references ending in a literal evaluates to that literal exactly when
      n <= 1024; longer ones report the recursion limit. The store is untouched either way. */
  lemma {:induction false} ChainOfReferences(ctx: Context, store: Store, chain: seq<string>, v: i64)
    requires IsChain(ctx, store, chain, v)
    ensures var o := Eval(ctx, Reference(Name(chain[0])), store, 0);
            && o == (if |chain| - 1 <= 1024 then Done(v, store) else Failed(RecursionLimitExceeded, store))
            && (o.Done? <==> |chain| - 1 <= 1024)
  {
    ChainFrom(ctx, store, chain, v, 0);
  }

  /** Every name of the set refers to some name of the set. */
  ghost predicate IsCyclic(ctx: Context, store: Store, names: set<string>) {
    forall n :: n in names ==> exists m :: m in names && RefersTo(ctx, store, n, m)
  }

  lemma {:induction false} CycleFails(ctx: Context, store: Store, names: set<string>, name: string, depth: nat)
    requires IsCyclic(ctx, store, names) && name in names
    requires depth <= MAX_VARIABLE_DEREF_DEPTH
    ensures Eval(ctx, Reference(Name(name)), store, depth) == Failed(RecursionLimitExceeded, store)
    decreases MAX_VARIABLE_DEREF_DEPTH - depth
  {
    hide Eval, Deref, EvalText;
    var next :| next in names && RefersTo(ctx, store, name, next);
    DerefPlain(ctx, store, name, depth);
    EvalTextUnfolds(ctx, store[name].value.AsString(), store, depth, 1);
    if depth + 1 <= MAX_VARIABLE_DEREF_DEPTH {
      CycleFails(ctx, store, names, next, depth + 1);
    }
  }

  // ------------------------------------------------------------ non-interference

  function NamesIn(e: Expr): set<string> {
    match e
    case Literal(_) => {}
    case Reference(t) => TargetNames(t)
    case UnaryOp(_, x) => NamesIn(x)
    case BinaryOp(_, x, y) => NamesIn(x) + NamesIn(y)
    case Conditional(c, t, f) => NamesIn(c) + NamesIn(t) + NamesIn(f)
    case Assignment(t, x) => TargetNames(t) + NamesIn(x)
    case UnaryAssignment(_, t) => TargetNames(t)
    case BinaryAssignment(_, t, x) => TargetNames(t) + NamesIn(x)
  }

  function TargetNames(t: Target): set<string> {
    match t
    case Name(n) => {n}
    case Element(n, i) => {n} + NamesIn(i)
  }

  function NamesInText(ctx: Context, text: string): set<string> {
    match ctx.parse(text)
    case None => {}
    case Some(e) => NamesIn(e)
  }

  /** The parser reads back the text of a number, and the empty text, as expressions without names. */
  ghost predicate NumbersAreClosed(ctx: Context) {
    && NamesInText(ctx, "") == {}
    && forall v: i64 :: NamesInText(ctx, ToDecimal(v)) == {}
  }

  ghost predicate ClosedVariable(ctx: Context, variable: Variable, names: set<string>) {
    forall t :: t in variable.value.Texts() ==> NamesInText(ctx, t) <= names
  }

  /** Whatever is stored under a name of the set mentions only names of the set. */
  ghost predicate Closed(ctx: Context, store: Store, names: set<string>) {
    forall n :: n in names && n in store ==> ClosedVariable(ctx, store[n], names)
  }

  /** Two runs from stores `s1` and `s2` that agree on a closed set: they agree on it again, it is
      closed again, and neither run changed anything outside it. */
  ghost predicate Confined<T>(ctx: Context, names: set<string>, s1: Store, s2: Store, o1: Outcome<T>, o2: Outcome<T>) {
    && o1.AsResult() == o2.AsResult()
    && AgreeOn(o1.store, o2.store, names)
    && Closed(ctx, o1.store, names)
    && SameOutside(s1, o1.store, names)
    && SameOutside(s2, o2.store, names)
  }

  ghost predicate Ready(ctx: Context, names: set<string>, s1: Store, s2: Store) {
    && NumbersAreClosed(ctx)
    && AgreeOn(s1, s2, names)
    && Closed(ctx, s1, names)
  }

  lemma {:induction false} ConfinedTrans<T, U>(ctx: Context, names: set<string>, s1: Store, s2: Store,
                            m1: Outcome<T>, m2: Outcome<T>, o1: Outcome<U>, o2: Outcome<U>)
    requires Confined(ctx, names, s1, s2, m1, m2)
    requires Confined(ctx, names, m1.store, m2.store, o1, o2)
    ensures Confined(ctx, names, s1, s2, o1, o2)
  {
  }

  lemma {:induction false} UpdateConfined(ctx: Context, names: set<string>, s1: Store, s2: Store, name: string,
                                          text: string, u1: Update, u2: Update)
    requires Ready(ctx, names, s1, s2) && name in names
    requires NamesInText(ctx, text) == {}
    requires u1.ok == u2.ok
    requires name in u1.store <==> name in u2.store
    requires name in u1.store ==> u1.store[name] == u2.store[name] && OnlyAdds(s1, u1.store, name, text)
    requires SameOutside(s1, u1.store, {name}) && SameOutside(s2, u2.store, {name})
    ensures AgreeOn(u1.store, u2.store, names)
    ensures Closed(ctx, u1.store, names)
    ensures SameOutside(s1, u1.store, names) && SameOutside(s2, u2.store, names)
  {
    forall n | n in names && n in u1.store
      ensures ClosedVariable(ctx, u1.store[n], names)
    {
      if n == name {
        forall t | t in u1.store[n].value.Texts()
          ensures NamesInText(ctx, t) <= names
        {
          if t != text {
            assert name in s1 && t in s1[name].value.Texts();
            assert ClosedVariable(ctx, s1[name], names);
          }
        }
      } else {
        assert n !in {name};
        assert n in s1 && s1[n] == u1.store[n];
      }
    }
    forall n | n in names
      ensures (n in u1.store <==> n in u2.store) && (n in u1.store ==> u1.store[n] == u2.store[n])
    {
      if n != name {
        assert n !in {name};
      }
    }
    assert forall n :: n !in names ==> n !in {name};
  }

  lemma {:induction false} AssignConfined(ctx: Context, t: Target, v: i64, names: set<string>, s1: Store, s2: Store,
                                          depth: nat)
    requires depth <= MAX_VARIABLE_DEREF_DEPTH
    requires Ready(ctx, names, s1, s2) && TargetNames(t) <= names
    ensures Confined(ctx, names, s1, s2, Assign(ctx, t, v, s1, depth), Assign(ctx, t, v, s2, depth))
    decreases MAX_VARIABLE_DEREF_DEPTH - depth, TargetSize(t), 0
  {
    hide Eval, AssignElement, ToDecimal;
    var text := ToDecimal(v);
    match t
    case Name(name) =>
      assert name in names;
      ScalarUpdateEffect(s1, name, text);
      ScalarUpdateEffect(s2, name, text);
      UpdateConfined(ctx, names, s1, s2, name, text, AssignScalar(s1, name, text), AssignScalar(s2, name, text));
    case Element(name, index) =>
      assert name in names;
      NonInterference(ctx, index, names, s1, s2, depth);
      var o1, o2 := Eval(ctx, index, s1, depth), Eval(ctx, index, s2, depth);
      if o1.Done? {
        AssignElementEffect(o1.store, name, o1.value, text);
        AssignElementEffect(o2.store, name, o1.value, text);
        ElementUpdateAgrees(o1.store, o2.store, name, o1.value, text);
        UpdateConfined(ctx, names, o1.store, o2.store, name, text,
                       AssignElement(o1.store, name, o1.value, text), AssignElement(o2.store, name, o1.value, text));
      }
  }

  lemma {:induction false} ScalarUpdateEffect(store: Store, name: string, text: string)
    ensures var u := AssignScalar(store, name, text);
            && SameOutside(store, u.store, {name})
            && name in u.store && OnlyAdds(store, u.store, name, text)
  {
  }

  lemma {:induction false} ElementUpdateAgrees(s1: Store, s2: Store, name: string, index: i64, text: string)
    requires name in s1 <==> name in s2
    requires name in s1 ==> s1[name] == s2[name]
    ensures var u1, u2 := AssignElement(s1, name, index, text), AssignElement(s2, name, index, text);
            && u1.ok == u2.ok
            && name in u1.store && name in u2.store && u1.store[name] == u2.store[name]
  {
  }

  lemma {:induction false} TargetTextConfined(ctx: Context, t: Target, names: set<string>, s1: Store, s2: Store,
                                              depth: nat)
    requires depth <= MAX_VARIABLE_DEREF_DEPTH
    requires Ready(ctx, names, s1, s2) && TargetNames(t) <= names
    ensures Confined(ctx, names, s1, s2, TargetText(ctx, t, s1, depth), TargetText(ctx, t, s2, depth))
    ensures var o := TargetText(ctx, t, s1, depth);
            o.Done? ==> NamesInText(ctx, o.value) <= names
    decreases MAX_VARIABLE_DEREF_DEPTH - depth, TargetSize(t), 0
  {
    match t
    case Name(name) =>
      assert name in names;
      if name in s1 {
        assert ClosedVariable(ctx, s1[name], names);
      }
    case Element(name, index) =>
      assert name in names;
      NonInterference(ctx, index, names, s1, s2, depth);
      var o1 := Eval(ctx, index, s1, depth);
      if o1.Done? && name in o1.store {
        assert ClosedVariable(ctx, o1.store[name], names);
      }
  }

  lemma {:induction false} DerefConfined(ctx: Context, t: Target, names: set<string>, s1: Store, s2: Store, depth: nat)
    requires depth <= MAX_VARIABLE_DEREF_DEPTH
    requires Ready(ctx, names, s1, s2) && TargetNames(t) <= names
    ensures Confined(ctx, names, s1, s2, Deref(ctx, t, s1, depth), Deref(ctx, t, s2, depth))
    decreases MAX_VARIABLE_DEREF_DEPTH - depth, TargetSize(t), 1
  {
    TargetTextConfined(ctx, t, names, s1, s2, depth);
    var o1, o2 := TargetText(ctx, t, s1, depth), TargetText(ctx, t, s2, depth);
    if o1.Done? {
      EvalTextUnfolds(ctx, o1.value, o1.store, depth, TargetSize(t));
      EvalTextUnfolds(ctx, o1.value, o2.store, depth, TargetSize(t));
      var parsed := ctx.parse(o1.value);
      if parsed.Some? && !parsed.value.Literal? && depth + 1 <= MAX_VARIABLE_DEREF_DEPTH {
        NonInterference(ctx, parsed.value, names, o1.store, o2.store, depth + 1);
        ConfinedTrans(ctx, names, s1, s2, o1, o2,
                      Eval(ctx, parsed.value, o1.store, depth + 1), Eval(ctx, parsed.value, o2.store, depth + 1));
      }
    }
  }

  lemma {:induction false} BinaryConfined(ctx: Context, op: BinaryOperator, x: Expr, y: Expr, names: set<string>,
                                          s1: Store, s2: Store, depth: nat)
    requires depth <= MAX_VARIABLE_DEREF_DEPTH
    requires Ready(ctx, names, s1, s2) && NamesIn(x) + NamesIn(y) <= names
    ensures Confined(ctx, names, s1, s2, Binary(ctx, op, x, y, s1, depth), Binary(ctx, op, x, y, s2, depth))
    decreases MAX_VARIABLE_DEREF_DEPTH - depth, Size(x) + Size(y) + 1, 0
  {
    BinaryUnfolds(ctx, op, x, y, s1, depth);
    BinaryUnfolds(ctx, op, x, y, s2, depth);
    hide Eval, Binary, AfterLeft;
    NonInterference(ctx, x, names, s1, s2, depth);
    var o1, o2 := Eval(ctx, x, s1, depth), Eval(ctx, x, s2, depth);
    if o1.Done? {
      NonInterference(ctx, y, names, o1.store, o2.store, depth);
      AfterLeftConfined(ctx, op, names, s1, s2, o1, o2, Eval(ctx, y, o1.store, depth), Eval(ctx, y, o2.store, depth));
    }
  }

  lemma {:induction false} BinaryUnfolds(ctx: Context, op: BinaryOperator, x: Expr, y: Expr, store: Store, depth: nat)
    requires depth <= MAX_VARIABLE_DEREF_DEPTH
    ensures Eval(ctx, BinaryOp(op, x, y), store, depth) == Binary(ctx, op, x, y, store, depth)
    ensures var o := Eval(ctx, x, store, depth);
            Binary(ctx, op, x, y, store, depth) ==
              if o.Failed? then o else AfterLeft(op, o, Eval(ctx, y, o.store, depth))
  {
    EvalBinary(ctx, op, x, y, store, depth);
    BinaryCases(ctx, op, x, y, store, depth);
    hide *;
  }

  lemma {:induction false} EvalBinary(ctx: Context, op: BinaryOperator, x: Expr, y: Expr, store: Store, depth: nat)
    requires depth <= MAX_VARIABLE_DEREF_DEPTH
    ensures Eval(ctx, BinaryOp(op, x, y), store, depth) == Binary(ctx, op, x, y, store, depth)
  {
    hide Binary, Deref, Assign, Unary, UnaryAssign;
  }

  lemma {:induction false} ConfinedResults<T>(ctx: Context, names: set<string>, s1: Store, s2: Store, o1: Outcome<T>,
                                              o2: Outcome<T>)
    requires Confined(ctx, names, s1, s2, o1, o2)
    ensures o1.AsResult() == o2.AsResult() && o1.Done? == o2.Done?
  {
  }

  lemma {:induction false} SameStores<T, U>(ctx: Context, names: set<string>, s1: Store, s2: Store,
                         m1: Outcome<T>, m2: Outcome<T>, o1: Outcome<U>, o2: Outcome<U>)
    requires Confined(ctx, names, s1, s2, m1, m2)
    requires o1.store == m1.store && o2.store == m2.store && o1.AsResult() == o2.AsResult()
    ensures Confined(ctx, names, s1, s2, o1, o2)
  {
  }

  lemma {:induction false} AfterLeftConfined(ctx: Context, op: BinaryOperator, names: set<string>, s1: Store, s2: Store,
                          o1: Outcome<i64>, o2: Outcome<i64>, p1: Outcome<i64>, p2: Outcome<i64>)
    requires o1.Done? && Confined(ctx, names, s1, s2, o1, o2)
    requires Confined(ctx, names, o1.store, o2.store, p1, p2)
    ensures Confined(ctx, names, s1, s2, AfterLeft(op, o1, p1), AfterLeft(op, o2, p2))
  {
    hide ComputeBinary, Confined;
    ConfinedTrans(ctx, names, s1, s2, o1, o2, p1, p2);
    ConfinedResults(ctx, names, s1, s2, o1, o2);
    ConfinedResults(ctx, names, o1.store, o2.store, p1, p2);
    var a1, a2 := AfterLeft(op, o1, p1), AfterLeft(op, o2, p2);
    if (op == LogicalAnd && o1.value == 0) || (op == LogicalOr && o1.value != 0) {
      SameStores(ctx, names, s1, s2, o1, o2, a1, a2);
    } else {
      SameStores(ctx, names, s1, s2, p1, p2, a1, a2);
    }
  }

  /** Non-interference: when a set of names contains the expression's names and is closed under the
      names mentioned by what its members hold, two stores that agree on the set give the same
      result, agree on the set afterwards, and keep everything outside it, through every nested
      dereference and assignment. */
  lemma {:induction false} NonInterference(ctx: Context, e: Expr, names: set<string>, s1: Store, s2: Store, depth: nat)
    requires depth <= MAX_VARIABLE_DEREF_DEPTH
    requires Ready(ctx, names, s1, s2) && NamesIn(e) <= names
    ensures Confined(ctx, names, s1, s2, Eval(ctx, e, s1, depth), Eval(ctx, e, s2, depth))
    decreases MAX_VARIABLE_DEREF_DEPTH - depth, Size(e), 2
  {
    match e
    case Literal(_) =>
    case Reference(t) => DerefConfined(ctx, t, names, s1, s2, depth);
    case UnaryOp(op, x) => NonInterference(ctx, x, names, s1, s2, depth);
    case BinaryOp(op, x, y) => BinaryConfined(ctx, op, x, y, names, s1, s2, depth);
    case Conditional(c, t, f) =>
      ConditionalConfined(ctx, c, t, f, names, s1, s2, depth);
    case Assignment(t, x) =>
      NonInterference(ctx, x, names, s1, s2, depth);
      ThenAssign(ctx, t, names, s1, s2, Eval(ctx, x, s1, depth), Eval(ctx, x, s2, depth), depth, x);
    case UnaryAssignment(op, t) =>
      UnaryAssignConfined(ctx, op, t, names, s1, s2, depth);
    case BinaryAssignment(op, t, x) =>
      BinaryConfined(ctx, op, Reference(t), x, names, s1, s2, depth);
      ThenAssign(ctx, t, names, s1, s2,
                 Binary(ctx, op, Reference(t), x, s1, depth), Binary(ctx, op, Reference(t), x, s2, depth), depth, x);
  }

  lemma {:induction false} ConditionalConfined(ctx: Context, c: Expr, t: Expr, f: Expr, names: set<string>, s1: Store,
                                               s2: Store, depth: nat)
    requires depth <= MAX_VARIABLE_DEREF_DEPTH
    requires Ready(ctx, names, s1, s2) && NamesIn(c) + NamesIn(t) + NamesIn(f) <= names
    ensures Confined(ctx, names, s1, s2, Eval(ctx, Conditional(c, t, f), s1, depth),
                     Eval(ctx, Conditional(c, t, f), s2, depth))
    decreases MAX_VARIABLE_DEREF_DEPTH - depth, Size(c) + Size(t) + Size(f), 3
  {
    NonInterference(ctx, c, names, s1, s2, depth);
    ConditionalUnfolds(ctx, c, t, f, s1, depth);
    ConditionalUnfolds(ctx, c, t, f, s2, depth);
    hide Eval, NamesIn;
    var o1, o2 := Eval(ctx, c, s1, depth), Eval(ctx, c, s2, depth);
    if o1.Done? {
      var branch := if o1.value != 0 then t else f;
      NonInterference(ctx, branch, names, o1.store, o2.store, depth);
      ConfinedTrans(ctx, names, s1, s2, o1, o2, Eval(ctx, branch, o1.store, depth),
                    Eval(ctx, branch, o2.store, depth));
    }
  }

  lemma {:induction false} UnaryAssignConfined(ctx: Context, op: UnaryAssignOperator, t: Target, names: set<string>,
                                               s1: Store, s2: Store, depth: nat)
    requires depth <= MAX_VARIABLE_DEREF_DEPTH
    requires Ready(ctx, names, s1, s2) && TargetNames(t) <= names
    ensures Confined(ctx, names, s1, s2, UnaryAssign(ctx, op, t, s1, depth), UnaryAssign(ctx, op, t, s2, depth))
    decreases MAX_VARIABLE_DEREF_DEPTH - depth, TargetSize(t), 2
  {
    hide Deref, Assign, TargetNames, NewValue;
    DerefConfined(ctx, t, names, s1, s2, depth);
    var o1, o2 := Deref(ctx, t, s1, depth), Deref(ctx, t, s2, depth);
    if o1.Done? {
      var v := NewValue(op, o1.value);
      AssignConfined(ctx, t, v, names, o1.store, o2.store, depth);
      ConfinedTrans(ctx, names, s1, s2, o1, o2, Assign(ctx, t, v, o1.store, depth),
                    Assign(ctx, t, v, o2.store, depth));
    }
  }

  lemma {:induction false} ThenAssign(ctx: Context, t: Target, names: set<string>, s1: Store, s2: Store,
                                      o1: Outcome<i64>, o2: Outcome<i64>, depth: nat, rhs: Expr)
    requires depth <= MAX_VARIABLE_DEREF_DEPTH
    requires Ready(ctx, names, s1, s2) && TargetNames(t) <= names
    requires Confined(ctx, names, s1, s2, o1, o2)
    ensures o1.Done? ==> Confined(ctx, names, s1, s2, Assign(ctx, t, o1.value, o1.store, depth),
                                  Assign(ctx, t, o1.value, o2.store, depth))
    decreases MAX_VARIABLE_DEREF_DEPTH - depth, TargetSize(t) + Size(rhs), 1
  {
    if o1.Done? {
      AssignConfined(ctx, t, o1.value, names, o1.store, o2.store, depth);
      ConfinedTrans(ctx, names, s1, s2, o1, o2,
                    Assign(ctx, t, o1.value, o1.store, depth), Assign(ctx, t, o1.value, o2.store, depth));
    }
  }

  // ------------------------------------------------------------ expressions that mean the same

  /** `target op= e` is `target = target op e`, store and errors included. */
  lemma {:induction false} CompoundAssignment(ctx: Context, op: BinaryOperator, t: Target, e: Expr, store: Store,
                                              depth: nat)
    requires depth <= MAX_VARIABLE_DEREF_DEPTH
    ensures Eval(ctx, BinaryAssignment(op, t, e), store, depth)
         == Eval(ctx, Assignment(t, BinaryOp(op, Reference(t), e)), store, depth)
  {
  }

  /** `++t` is `t += 1` and `--t` is `t -= 1`. */
  lemma {:induction false} PrefixIsCompound(ctx: Context, t: Target, store: Store, depth: nat)
    requires depth <= MAX_VARIABLE_DEREF_DEPTH
    ensures Eval(ctx, UnaryAssignment(PrefixIncrement, t), store, depth)
         == Eval(ctx, BinaryAssignment(Plus, t, Literal(1)), store, depth)
    ensures Eval(ctx, UnaryAssignment(PrefixDecrement, t), store, depth)
         == Eval(ctx, BinaryAssignment(Subtract, t, Literal(1)), store, depth)
  {
    StepByOne(ctx, PrefixIncrement, t, store, depth);
    StepByOne(ctx, PrefixDecrement, t, store, depth);
  }

  lemma {:induction false} StepByOne(ctx: Context, aop: UnaryAssignOperator, t: Target, store: Store, depth: nat)
    requires depth <= MAX_VARIABLE_DEREF_DEPTH && IsPrefix(aop)
    ensures Eval(ctx, UnaryAssignment(aop, t), store, depth)
         == Eval(ctx, BinaryAssignment(if aop == PrefixIncrement then Plus else Subtract, t, Literal(1)), store, depth)
  {
    hide Deref, Assign;
    var op := if aop == PrefixIncrement then Plus else Subtract;
    var o := Deref(ctx, t, store, depth);
    assert Eval(ctx, Reference(t), store, depth) == o;
    if o.Done? {
      assert Binary(ctx, op, Reference(t), Literal(1), store, depth) == Done(NewValue(aop, o.value), o.store);
      AssignGivesValue(ctx, t, NewValue(aop, o.value), o.store, depth);
    }
  }

  lemma {:induction false} AssignGivesValue(ctx: Context, t: Target, v: i64, store: Store, depth: nat)
    requires depth <= MAX_VARIABLE_DEREF_DEPTH
    ensures var o := Assign(ctx, t, v, store, depth); o.Done? ==> o.value == v
  {
  }

  /** `t++` does what `++t` does, and returns the value from before: one less, wrapping. */
  lemma {:induction false} PostfixIsPrefixBefore(ctx: Context, t: Target, store: Store, depth: nat)
    requires depth <= MAX_VARIABLE_DEREF_DEPTH
    ensures var pre, post := Eval(ctx, UnaryAssignment(PrefixIncrement, t), store, depth),
                             Eval(ctx, UnaryAssignment(PostfixIncrement, t), store, depth);
            && pre.store == post.store && pre.Done? == post.Done?
            && (pre.Done? ==> post.value == Sub(pre.value, 1))
            && (pre.Failed? ==> pre.error == post.error)
    ensures var pre, post := Eval(ctx, UnaryAssignment(PrefixDecrement, t), store, depth),
                             Eval(ctx, UnaryAssignment(PostfixDecrement, t), store, depth);
            && pre.store == post.store && pre.Done? == post.Done?
            && (pre.Done? ==> post.value == Add(pre.value, 1))
            && (pre.Failed? ==> pre.error == post.error)
  {
    hide Deref, Assign, Wrap;
    var o := Deref(ctx, t, store, depth);
    if o.Done? {
      SubUndoesAdd(o.value, 1);
    }
  }

  function Negated(e: Expr): Expr { UnaryOp(LogicalNot, e) }

  /** De Morgan for the short-circuiting operators: the same value, the same error and the same
      side effects, so each evaluates its right operand exactly when the other does. */
  lemma {:induction false} DeMorgan(ctx: Context, x: Expr, y: Expr, store: Store, depth: nat)
    requires depth <= MAX_VARIABLE_DEREF_DEPTH
    ensures Eval(ctx, Negated(BinaryOp(LogicalAnd, x, y)), store, depth)
         == Eval(ctx, BinaryOp(LogicalOr, Negated(x), Negated(y)), store, depth)
    ensures Eval(ctx, Negated(BinaryOp(LogicalOr, x, y)), store, depth)
         == Eval(ctx, BinaryOp(LogicalAnd, Negated(x), Negated(y)), store, depth)
  {
    NegatedUnfolds(ctx, BinaryOp(LogicalAnd, x, y), store, depth);
    NegatedUnfolds(ctx, BinaryOp(LogicalOr, x, y), store, depth);
    NegatedUnfolds(ctx, x, store, depth);
    BinaryUnfolds(ctx, LogicalAnd, x, y, store, depth);
    BinaryUnfolds(ctx, LogicalOr, x, y, store, depth);
    BinaryUnfolds(ctx, LogicalAnd, Negated(x), Negated(y), store, depth);
    BinaryUnfolds(ctx, LogicalOr, Negated(x), Negated(y), store, depth);
    hide Eval, Binary, ComputeBinary;
    var o := Eval(ctx, x, store, depth);
    if o.Done? {
      NegatedUnfolds(ctx, y, o.store, depth);
    }
  }

  lemma {:induction false} NegatedUnfolds(ctx: Context, x: Expr, store: Store, depth: nat)
    requires depth <= MAX_VARIABLE_DEREF_DEPTH
    ensures Eval(ctx, Negated(x), store, depth) ==
            match Eval(ctx, x, store, depth)
            case Done(v, s) => Done(FromBool(v == 0), s)
            case Failed(e, s) => Failed(e, s)
  {
    UnaryUnfolds(ctx, LogicalNot, x, store, depth);
    hide Eval;
  }

  /** `&&` is a conditional whose untaken branch is never evaluated: `x && y` is `x ? !!y : 0`. */
  lemma {:induction false} AndIsConditional(ctx: Context, x: Expr, y: Expr, store: Store, depth: nat)
    requires depth <= MAX_VARIABLE_DEREF_DEPTH
    ensures Eval(ctx, BinaryOp(LogicalAnd, x, y), store, depth)
         == Eval(ctx, Conditional(x, Negated(Negated(y)), Literal(0)), store, depth)
    ensures Eval(ctx, Conditional(Negated(x), y, Literal(0)), store, depth)
         == Eval(ctx, Conditional(x, Literal(0), y), store, depth)
  {
    hide Eval, Binary, ComputeBinary, Negated;
    NegatedUnfolds(ctx, x, store, depth);
    BinaryUnfolds(ctx, LogicalAnd, x, y, store, depth);
    ConditionalUnfolds(ctx, x, Negated(Negated(y)), Literal(0), store, depth);
    ConditionalUnfolds(ctx, Negated(x), y, Literal(0), store, depth);
    ConditionalUnfolds(ctx, x, Literal(0), y, store, depth);
    var o := Eval(ctx, x, store, depth);
    if o.Done? {
      NegatedUnfolds(ctx, Negated(y), o.store, depth);
      NegatedUnfolds(ctx, y, o.store, depth);
      LiteralIs(ctx, 0, o.store, depth);
    }
  }

  lemma {:induction false} ConditionalUnfolds(ctx: Context, c: Expr, t: Expr, f: Expr, store: Store, depth: nat)
    requires depth <= MAX_VARIABLE_DEREF_DEPTH
    ensures Eval(ctx, Conditional(c, t, f), store, depth) ==
            match Eval(ctx, c, store, depth)
            case Done(v, s) => if v != 0 then Eval(ctx, t, s, depth) else Eval(ctx, f, s, depth)
            case Failed(e, s) => Failed(e, s)
  {
    hide Deref, Assign, Binary, Unary, UnaryAssign;
  }

  lemma {:induction false} LiteralIs(ctx: Context, v: i64, store: Store, depth: nat)
    requires depth <= MAX_VARIABLE_DEREF_DEPTH
    ensures Eval(ctx, Literal(v), store, depth) == Done(v, store)
  {
  }

  /** Expressions built from literals with the operators that respect congruence. */
  predicate IsRing(e: Expr) {
    match e
    case Literal(_) => true
    case UnaryOp(op, x) => op != LogicalNot && IsRing(x)
    case BinaryOp(op, x, y) =>
      IsRing(x) &&
      (match op
       case Plus => IsRing(y)
       case Subtract => IsRing(y)
       case Multiply => IsRing(y)
       case Comma => IsRing(y)
       case Power => y.Literal? && y.value >= 0
       case _ => false)
    case _ => false
  }

  /** The value over the unbounded integers. */
  function Ideal(e: Expr): int
    requires IsRing(e)
  {
    match e
    case Literal(v) => v
    case UnaryOp(op, x) =>
      (match op
       case UnaryPlus => Ideal(x)
       case UnaryMinus => 0 - Ideal(x)
       case BitwiseNot => 0 - Ideal(x) - 1)
    case BinaryOp(op, x, y) => IdealBinary(op, Ideal(x), Ideal(y))
  }

  /** Wrapping after every operation is the same as computing without bound and wrapping once. */
  lemma {:induction false} WrapOnce(ctx: Context, e: Expr, store: Store, depth: nat)
    requires depth <= MAX_VARIABLE_DEREF_DEPTH
    requires IsRing(e)
    ensures Eval(ctx, e, store, depth) == Done(Wrap(Ideal(e)), store)
  {
    hide Eval, Binary, Wrap, ComputeBinary, ComputeUnary;
    match e
    case Literal(v) =>
      LiteralWraps(ctx, v, store, depth);
    case UnaryOp(op, x) =>
      WrapOnce(ctx, x, store, depth);
      UnaryUnfolds(ctx, op, x, store, depth);
      RingUnary(op, Ideal(x));
    case BinaryOp(op, x, y) =>
      WrapOnce(ctx, x, store, depth);
      WrapOnce(ctx, y, store, depth);
      BinaryUnfolds(ctx, op, x, y, store, depth);
      RingCombines(op, Ideal(x), Ideal(y));
  }

  lemma {:induction false} LiteralWraps(ctx: Context, v: i64, store: Store, depth: nat)
    requires depth <= MAX_VARIABLE_DEREF_DEPTH
    ensures Eval(ctx, Literal(v), store, depth) == Done(Wrap(v), store)
  {
  }

  lemma {:induction false} UnaryUnfolds(ctx: Context, op: UnaryOperator, x: Expr, store: Store, depth: nat)
    requires depth <= MAX_VARIABLE_DEREF_DEPTH
    ensures Eval(ctx, UnaryOp(op, x), store, depth) ==
            match Eval(ctx, x, store, depth)
            case Done(v, s) => Done(ComputeUnary(op, v), s)
            case Failed(e, s) => Failed(e, s)
  {
    hide ComputeUnary, Deref, Assign, Binary, UnaryAssign;
    assert Eval(ctx, UnaryOp(op, x), store, depth) == Unary(ctx, op, x, store, depth);
  }

  lemma {:induction false} RingUnary(op: UnaryOperator, a: int)
    requires op != LogicalNot
    ensures ComputeUnary(op, Wrap(a))
         == Wrap(if op == UnaryPlus then a else if op == UnaryMinus then 0 - a else 0 - a - 1)
  {
    RingNegates(a);
    hide Wrap;
  }

  lemma {:induction false} RingNegates(a: int)
    ensures Neg(Wrap(a)) == Wrap(0 - a)
    ensures Not(Wrap(a)) == Wrap(0 - a - 1)
  {
    var w: int := Wrap(a);
    CongruentRefl(0);
    CongruentRefl(1);
    CongruentAdd(0, 0, a, w);
    CongruentAdd(0 - a, 0 - w, 1, 1);
    CongruentWrap(0 - a, 0 - w);
    CongruentWrap(0 - a - 1, 0 - w - 1);
  }

  /** The ring operators over the unbounded integers. */
  function IdealBinary(op: BinaryOperator, a: int, b: int): int
    requires op in {Plus, Subtract, Multiply, Comma} || (op == Power && b >= 0)
  {
    match op
    case Plus => a + b
    case Subtract => a - b
    case Multiply => a * b
    case Comma => b
    case Power => Int64.Power(a, b)
  }

  lemma {:induction false} RingCombines(op: BinaryOperator, a: int, b: int)
    requires op in {Plus, Subtract, Multiply, Comma} || (op == Power && 0 <= b < TWO_63)
    ensures ComputeBinary(op, Wrap(a), Wrap(b)) == Ok(Wrap(IdealBinary(op, a, b)))
  {
    hide Wrap;
    CombineWrapped(a, b);
  }

  lemma {:induction false} CombineWrapped(a: int, b: int)
    ensures Wrap(a + b) == Add(Wrap(a), Wrap(b))
    ensures Wrap(a - b) == Sub(Wrap(a), Wrap(b))
    ensures Wrap(a * b) == Mul(Wrap(a), Wrap(b))
    ensures b >= 0 ==> Wrap(Int64.Power(a, b)) == Wrap(Int64.Power(Wrap(a), b))
  {
    CongruentAdd(a, Wrap(a), b, Wrap(b));
    CongruentWrap(a + b, Wrap(a) + Wrap(b));
    CongruentWrap(a - b, Wrap(a) - Wrap(b));
    CongruentMul(a, Wrap(a), b, Wrap(b));
    CongruentWrap(a * b, Wrap(a) * Wrap(b));
    if b >= 0 {
      CongruentPower(a, Wrap(a), b);
      CongruentWrap(Int64.Power(a, b), Int64.Power(Wrap(a), b));
    }
  }

  /** Division and remainder fail together, exactly for a zero divisor; otherwise they put the
      dividend back together, and the remainder is smaller than the divisor with the dividend's sign. */
  lemma {:induction false} DivideAndModulo(l: i64, r: i64)
    ensures ComputeBinary(Divide, l, r) == Err(DivideByZero) <==> r == 0
    ensures ComputeBinary(Modulo, l, r) == Err(DivideByZero) <==> r == 0
    ensures r != 0 ==>
              && ComputeBinary(Divide, l, r).Ok? && ComputeBinary(Modulo, l, r).Ok?
              && var q, m := ComputeBinary(Divide, l, r).value, ComputeBinary(Modulo, l, r).value;
              && Add(Mul(q, r), m) == l && Abs(m) < Abs(r) && (m == 0 || (m < 0) == (l < 0))
  {
    if r != 0 {
      DivRem(l, r);
    }
  }

  function BitResult(op: BinaryOperator, l: i64, r: i64): i64
    requires op.BitwiseAnd? || op.BitwiseOr? || op.BitwiseXor?
  {
    ComputeBinary(op, l, r).value
  }

  /** The bitwise operators through ordinary arithmetic: and plus or is the sum, and exclusive-or is
      or minus and; and-ing with a non-negative number stays within it. */
  lemma {:induction false} BitOperators(l: i64, r: i64)
    ensures BitResult(BitwiseAnd, l, r) + BitResult(BitwiseOr, l, r) == l as int + r as int
    ensures BitResult(BitwiseXor, l, r) == BitResult(BitwiseOr, l, r) - BitResult(BitwiseAnd, l, r)
    ensures r >= 0 ==> 0 <= BitResult(BitwiseAnd, l, r) <= r
  {
    BitwiseIdentities(l, r);
    hide Bitwise;
  }

  /** Shifting right and back left rounds down to a multiple of the power of two; the distance is
      the right operand modulo 64. */
  lemma {:induction false} ShiftOperators(l: i64, r: i64)
    ensures ComputeBinary(ShiftRight, l, r) == Ok(Shr(l, r))
    ensures ComputeBinary(ShiftLeft, Shr(l, r), r) == Ok(l - l % Pow2(r % 64))
  {
    ShiftRoundTrip(l, r);
    hide Shl, Shr;
  }

  // ------------------------------------------------------------ what is written is read back

  /** The text of `v`, parsed and evaluated anywhere below the depth limit, is `v`. */
  ghost predicate ReadsBack(ctx: Context, v: i64) {
    forall store: Store, depth: nat, size: nat ::
      depth + 1 <= MAX_VARIABLE_DEREF_DEPTH && size >= 1 ==>
        EvalText(ctx, ToDecimal(v), store, depth, size) == Done(v, store)
  }

  /** After a successful `name = e`, reading `name` below the depth limit gives the assigned value
      and changes nothing, as long as the parser reads that one value back. */
  lemma {:induction false} AssignThenRead(ctx: Context, name: string, e: Expr, store: Store, depth: nat)
    requires depth + 1 <= MAX_VARIABLE_DEREF_DEPTH
    ensures var o := Eval(ctx, Assignment(Name(name), e), store, depth);
            o.Done? && ReadsBack(ctx, o.value) ==>
              Eval(ctx, Reference(Name(name)), o.store, depth) == Done(o.value, o.store)
  {
    var o := Eval(ctx, Assignment(Name(name), e), store, depth);
    if o.Done? && ReadsBack(ctx, o.value) {
      var x := Eval(ctx, e, store, depth);
      assert o == Assign(ctx, Name(name), x.value, x.store, depth);
      AssignScalarReads(x.store, name, ToDecimal(x.value));
      DerefPlain(ctx, o.store, name, depth);
      assert EvalText(ctx, ToDecimal(x.value), o.store, depth, 1) == Done(x.value, o.store);
    }
  }

  /** The same for an element: after a successful `name[index] = e`, the element at the index that was
      written, which is that of the index evaluated after `e`, holds the assigned value. */
  lemma {:induction false} AssignThenReadElement(ctx: Context, name: string, index: Expr, e: Expr, store: Store,
                                                 depth: nat, j: i64)
    requires depth + 1 <= MAX_VARIABLE_DEREF_DEPTH
    ensures var x := Eval(ctx, e, store, depth);
            var o := Eval(ctx, Assignment(Element(name, index), e), store, depth);
            o.Done? ==> x.Done? && ElementHolds(ctx, name, index, x.store, depth, j, o)
  {
    var x := Eval(ctx, e, store, depth);
    if x.Done? {
      assert Eval(ctx, Assignment(Element(name, index), e), store, depth)
          == Assign(ctx, Element(name, index), x.value, x.store, depth);
      hide Eval;
      AssignedHolds(ctx, name, index, x.value, x.store, depth, j);
    }
  }

  /** And after `name[index] op= e`, where the index has been evaluated twice: the second time counts. */
  lemma {:induction false} CompoundThenReadElement(ctx: Context, op: BinaryOperator, name: string, index: Expr, e: Expr,
                                                   store: Store, depth: nat, j: i64)
    requires depth + 1 <= MAX_VARIABLE_DEREF_DEPTH
    ensures var x := Binary(ctx, op, Reference(Element(name, index)), e, store, depth);
            var o := Eval(ctx, BinaryAssignment(op, Element(name, index), e), store, depth);
            o.Done? ==> x.Done? && ElementHolds(ctx, name, index, x.store, depth, j, o)
  {
    var t := Element(name, index);
    CompoundAssignment(ctx, op, t, e, store, depth);
    AssignThenReadElement(ctx, name, index, BinaryOp(op, Reference(t), e), store, depth, j);
    assert Eval(ctx, BinaryOp(op, Reference(t), e), store, depth) == Binary(ctx, op, Reference(t), e, store, depth);
  }

  /** Reading the element `j` that an assignment wrote, which evaluated its index in `store` and had
      the outcome `o`, gives the value assigned and changes nothing. */
  ghost predicate ElementHolds(ctx: Context, name: string, index: Expr, store: Store, depth: nat, j: i64,
                               o: Outcome<i64>)
    requires depth + 1 <= MAX_VARIABLE_DEREF_DEPTH && o.Done?
  {
    var i := Eval(ctx, index, store, depth);
    && i.Done?
    && (j == WrittenIndex(i.store, name, i.value) && ReadsBack(ctx, o.value) ==>
          Eval(ctx, Reference(Element(name, Literal(j))), o.store, depth) == Done(o.value, o.store))
  }

  lemma {:induction false} AssignedHolds(ctx: Context, name: string, index: Expr, v: i64, store: Store, depth: nat,
                                         j: i64)
    requires depth + 1 <= MAX_VARIABLE_DEREF_DEPTH
    ensures var o := Assign(ctx, Element(name, index), v, store, depth);
            o.Done? ==> o.value == v && ElementHolds(ctx, name, index, store, depth, j, o)
  {
    var i := Eval(ctx, index, store, depth);
    var o := Assign(ctx, Element(name, index), v, store, depth);
    if o.Done? && j == WrittenIndex(i.store, name, i.value) && ReadsBack(ctx, v) {
      AssignElementReads(i.store, name, i.value, ToDecimal(v), j);
      DerefElement(ctx, o.store, name, j, ToDecimal(v), depth);
      hide Eval, Assign, EvalText, AssignElement, ToDecimal, WrittenIndex;
      assert EvalText(ctx, ToDecimal(v), o.store, depth, TargetSize(Element(name, Literal(j)))) == Done(v, o.store);
    }
  }

  lemma {:induction false} DerefElement(ctx: Context, store: Store, name: string, j: i64, text: string, depth: nat)
    requires depth <= MAX_VARIABLE_DEREF_DEPTH && ElementAt(store, name, j) == Found(text)
    ensures Eval(ctx, Reference(Element(name, Literal(j))), store, depth)
         == EvalText(ctx, text, store, depth, TargetSize(Element(name, Literal(j))))
  {
    assert Eval(ctx, Literal(j), store, depth) == Done(j, store);
    assert TargetText(ctx, Element(name, Literal(j)), store, depth) == Done(text, store);
  }
}
