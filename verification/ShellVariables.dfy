/** The part of the shell's variable store that arithmetic evaluation reads and writes: scalar,
    indexed-array and associative-array values, and the two update entry points. All values are
    text. Scopes are flattened: the store is the view of "the variable found by that name". */
module ShellVariables {
  import opened Int64
  import opened Options

  datatype UnsetKind = Untyped | UnsetIndexed | UnsetAssociative

  datatype Value =
    | Unset(kind: UnsetKind)
    | Scalar(text: string)
    | Indexed(elements: map<nat, string>)
    | Associative(entries: map<string, string>)
  {
    /** The value read as a single string: an array stands for its element zero. */
    function AsString(): string {
      match this
      case Unset(_) => ""
      case Scalar(s) => s
      case Indexed(m) => if 0 in m then m[0] else ""
      case Associative(m) => if ToDecimal(0) in m then m[ToDecimal(0)] else ""
    }

    /** Every text stored somewhere in the value. */
    ghost function Texts(): set<string> {
      match this
      case Unset(_) => {}
      case Scalar(s) => {s}
      case Indexed(m) => m.Values
      case Associative(m) => m.Values
    }
  }

  datatype Variable = Variable(readonly: bool, value: Value)

  type Store = map<string, Variable>

  // ------------------------------------------------------------ numbers as text

  function Digit(d: nat): char
    requires d < 10
  {
    "0123456789"[d]
  }

  function DigitsOf(n: nat): string {
    if n < 10 then [Digit(n)] else DigitsOf(n / 10) + [Digit(n % 10)]
  }

  function ToDecimal(n: int): string {
    if n < 0 then "-" + DigitsOf(-n) else DigitsOf(n)
  }

  // ------------------------------------------------------------ reading elements

  /** The key an index selects in an indexed array: a negative index counts back from the number
      of elements, and None means it falls before the first one. */
  function IndexedKey(elements: map<nat, string>, index: i64): Option<nat> {
    if index >= 0 then Some(index)
    else if index + |elements| < 0 then None
    else Some(index + |elements|)
  }

  datatype Lookup = Found(text: string) | Absent | OutOfRange

  function GetAt(value: Value, index: i64): Lookup {
    match value
    case Unset(_) => Absent
    // A scalar answers to index zero; a negative index does not parse as unsigned and counts as zero.
    case Scalar(s) => if index <= 0 then Found(s) else Absent
    case Associative(m) => if ToDecimal(index) in m then Found(m[ToDecimal(index)]) else Absent
    case Indexed(m) =>
      match IndexedKey(m, index)
      case None => OutOfRange
      case Some(key) => if key in m then Found(m[key]) else Absent
  }

  function ElementAt(store: Store, name: string, index: i64): Lookup {
    if name in store then GetAt(store[name].value, index) else Absent
  }

  // ------------------------------------------------------------ updating

  /** The store after an update, which may have changed even when the update failed. */
  datatype Update = Update(ok: bool, store: Store)

  /** The value after a scalar assignment: (declared) arrays take it as their element zero. */
  function WithScalar(value: Value, text: string): Value {
    match value
    case Scalar(_) => Scalar(text)
    case Unset(Untyped) => Scalar(text)
    case Unset(UnsetIndexed) => Indexed(map[0 := text])
    case Unset(UnsetAssociative) => Associative(map[ToDecimal(0) := text])
    case Indexed(m) => Indexed(m[0 := text])
    case Associative(m) => Associative(m[ToDecimal(0) := text])
  }

  function AssignScalar(store: Store, name: string, text: string): Update {
    if name !in store then
      Update(true, store[name := Variable(false, Scalar(text))])
    else if store[name].readonly then
      Update(false, store)
    else
      Update(true, store[name := store[name].(value := WithScalar(store[name].value, text))])
  }

  /** The array a value is turned into before one of its elements is assigned. */
  function AsArray(value: Value): (r: Value)
    ensures r.Indexed? || r.Associative?
    ensures r.Texts() <= value.Texts()
  {
    match value
    case Unset(UnsetAssociative) => Associative(map[])
    case Unset(_) => Indexed(map[])
    case Scalar(s) => Indexed(map[0 := s])
    case _ => value
  }

  /** Assigning one element. Only a declared-but-unset variable is checked for being read-only; the
      conversion to an array stays in place even when the index is then out of range. */
  function AssignElement(store: Store, name: string, index: i64, text: string): Update {
    if name !in store then
      var key := if index < 0 then 0 else index;
      Update(true, store[name := Variable(false, Indexed(map[key := text]))])
    else if store[name].value.Unset? && store[name].readonly then
      Update(false, store)
    else
      var converted := AsArray(store[name].value);
      match converted
      case Associative(m) =>
        Update(true, store[name := store[name].(value := Associative(m[ToDecimal(index) := text]))])
      case Indexed(m) =>
        match IndexedKey(m, index)
        case None => Update(false, store[name := store[name].(value := converted)])
        case Some(key) => Update(true, store[name := store[name].(value := Indexed(m[key := text]))])
  }

  // ------------------------------------------------------------ what an update changes

  ghost predicate SameOutside(a: Store, b: Store, names: set<string>) {
    forall n :: n !in names ==> (n in a <==> n in b) && (n in a ==> a[n] == b[n])
  }

  ghost predicate AgreeOn(a: Store, b: Store, names: set<string>) {
    forall n :: n in names ==> (n in a <==> n in b) && (n in a ==> a[n] == b[n])
  }

  /** Every text of `after` under `name` was already there in `before`, or is `text`. */
  ghost predicate OnlyAdds(before: Store, after: Store, name: string, text: string) {
    && name in after
    && forall t :: t in after[name].value.Texts() ==>
         t == text || (name in before && t in before[name].value.Texts())
  }

  lemma {:induction false} AssignScalarReads(store: Store, name: string, text: string)
    requires AssignScalar(store, name, text).ok
    ensures var after := AssignScalar(store, name, text).store;
            && name in after && !after[name].value.Unset?
            && after[name].value.AsString() == text
            && OnlyAdds(store, after, name, text)
            && SameOutside(store, after, {name})
  {
  }

  /** The index that reads back what an assignment at `index` writes: a negative one has counted back
      from the number of elements there were, or from none in a new variable. */
  function WrittenIndex(store: Store, name: string, index: i64): int {
    if index >= 0 then index
    else if name !in store then 0
    else
      match AsArray(store[name].value)
      case Indexed(m) => index + |m|
      case _ => index
  }

  /** A successful assignment of an element is read back at the index written, leaves every other
      element of the array as it was, and touches no other variable. */
  lemma {:induction false} AssignElementReads(store: Store, name: string, index: i64, text: string, other: i64)
    requires AssignElement(store, name, index, text).ok
    ensures var after := AssignElement(store, name, index, text).store;
            && name in after
            && SameOutside(store, after, {name})
            && (other == WrittenIndex(store, name, index) ==> ElementAt(after, name, other) == Found(text))
            && (other != WrittenIndex(store, name, index) && (other >= 0 || after[name].value.Associative?) ==>
                  ElementAt(after, name, other)
                    == if name in store then GetAt(AsArray(store[name].value), other) else Absent)
  {
    if ToDecimal(index) == ToDecimal(other) {
      DecimalInjective(index, other);
    }
    hide ToDecimal;
  }

  /** When the same index reads it back: not for a negative one that made the array grow, since it then
      counts back from one element more. */
  predicate SameIndexReads(store: Store, name: string, index: i64, text: string) {
    || index >= 0
    || (name !in store && index == -1)
    || (name in store &&
          match AsArray(store[name].value)
          case Indexed(m) =>
            index + |m| in m || (index + |m| + 1 in m && m[index + |m| + 1] == text)
          case _ => true)
  }

  lemma {:induction false} AssignElementReadsBack(store: Store, name: string, index: i64, text: string)
    requires AssignElement(store, name, index, text).ok
    ensures var after := AssignElement(store, name, index, text).store;
            ElementAt(after, name, index) == Found(text) <==> SameIndexReads(store, name, index, text)
  {
    hide ToDecimal;
  }

  lemma {:induction false} AssignElementEffect(store: Store, name: string, index: i64, text: string)
    ensures var u := AssignElement(store, name, index, text);
            && SameOutside(store, u.store, {name})
            && (name in u.store ==> OnlyAdds(store, u.store, name, text))
  {
  }

  /** Different numbers are written differently. */
  lemma {:induction false} DecimalInjective(m: int, n: int)
    requires ToDecimal(m) == ToDecimal(n)
    ensures m == n
  {
    var p, q := if m < 0 then -m else m, if n < 0 then -n else n;
    assert m < 0 <==> ToDecimal(m)[0] == '-' by { DigitsAreDigits(p); }
    assert n < 0 <==> ToDecimal(n)[0] == '-' by { DigitsAreDigits(q); }
    DigitsAreDigits(p);
    DigitsAreDigits(q);
    if m < 0 && n < 0 {
      assert DigitsOf(p) == ToDecimal(m)[1..] == DigitsOf(q);
    }
    if (m < 0) == (n < 0) {
      DigitsInjective(p, q);
    }
  }

  lemma {:induction false} DigitsAreDigits(n: nat)
    ensures |DigitsOf(n)| >= 1
    ensures forall i :: 0 <= i < |DigitsOf(n)| ==> '0' <= DigitsOf(n)[i] <= '9'
  {
    if n >= 10 { DigitsAreDigits(n / 10); }
  }

  lemma {:induction false} DigitsInjective(m: nat, n: nat)
    requires DigitsOf(m) == DigitsOf(n)
    ensures m == n
  {
    hide DigitsOf, Digit;
    DigitsUnfold(m);
    DigitsUnfold(n);
    if m >= 10 && n >= 10 {
      DigitsInjective(m / 10, n / 10);
    }
    DigitIsPlace(m % 10, n % 10);
  }

  lemma {:induction false} DigitsUnfold(n: nat)
    ensures n < 10 <==> |DigitsOf(n)| == 1
    ensures var s := DigitsOf(n);
      |s| >= 1 && s[|s| - 1] == Digit(n % 10) && (n >= 10 ==> s[..|s| - 1] == DigitsOf(n / 10))
  {
    if n >= 10 { DigitsAreDigits(n / 10); }
  }

  lemma {:induction false} DigitIsPlace(a: nat, b: nat)
    requires a < 10 && b < 10
    ensures Digit(a) == Digit(b) <==> a == b
  {
  }
}
