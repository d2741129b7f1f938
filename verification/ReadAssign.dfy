/** Assigning the fields of an input line to the named variables of the `read` builtin. */
module ReadAssign {
  import opened Options
  import opened ShellVariables
  import opened IfsSplit
  import opened IfsProperties

  /** The fields a line is split into for `n` variables; with -N it is not split at all. */
  function VariableFields(input: Option<string>, ifs: string, whole: bool, n: nat): seq<string> {
    match input
    case None => []
    case Some(line) => if whole then [line] else SplitAtMost(ifs, line, n)
  }

  method BuildVariableFields(input: Option<string>, ifs: string, whole: bool, n: nat) returns (fields: seq<string>)
    requires input.Some? ==> |input.value| <= ISIZE_MAX
    ensures fields == VariableFields(input, ifs, whole, n)
  {
    match input
    case None =>
      fields := [];
    case Some(line) =>
      if whole {
        fields := [line];
      } else {
        fields := SplitLineByIfs(ifs, line, Some(n));
      }
  }

  /** Scalar assignments one after another, stopping at the first that fails. */
  function AssignEach(store: Store, names: seq<string>, values: seq<string>): Update
    requires |names| == |values|
    decreases |names|
  {
    if names == [] then Update(true, store)
    else
      var u := AssignScalar(store, names[0], values[0]);
      if u.ok then AssignEach(u.store, names[1..], values[1..]) else u
  }

  /** The value each of `n` variables gets: one field each, the last one the remaining fields
      joined by a space, and the empty string where there are no more fields. */
  function FieldFor(fields: seq<string>, i: nat, n: nat): string
    requires i < n
  {
    if i >= |fields| then "" else if i == n - 1 then Join(fields[i..], ' ') else fields[i]
  }

  function Values(fields: seq<string>, n: nat): (r: seq<string>)
    ensures |r| == n
  {
    seq(n, i requires 0 <= i < n => FieldFor(fields, i, n))
  }

  lemma {:induction false} ValueAt(fields: seq<string>, i: nat, n: nat)
    requires i < n
    ensures Values(fields, n)[i]
         == if i >= |fields| then "" else if i == n - 1 then Join(fields[i..], ' ') else fields[i]
  {
    hide Join;
  }

  lemma {:induction false} NothingAssigned(store: Store, names: seq<string>, values: seq<string>)
    requires |names| == |values|
    ensures AssignEach(store, names[..0], values[..0]) == Update(true, store)
  {
  }

  lemma {:induction false} AssignOneMore(store: Store, names: seq<string>, values: seq<string>, i: nat)
    requires i < |names| == |values|
    ensures var u := AssignEach(store, names[..i], values[..i]);
      AssignEach(store, names[..i + 1], values[..i + 1])
      == if u.ok then AssignScalar(u.store, names[i], values[i]) else u
    decreases i
  {
    if i > 0 {
      var s := AssignScalar(store, names[0], values[0]);
      var names', values' := names[1..], values[1..];
      assert names[..i][1..] == names'[..i - 1] && values[..i][1..] == values'[..i - 1];
      assert names[..i + 1][1..] == names'[..i] && values[..i + 1][1..] == values'[..i];
      if s.ok {
        AssignOneMore(s.store, names', values', i - 1);
      }
    } else {
      assert names[..1][1..] == [] && values[..1][1..] == [];
    }
  }

  /** A failed assignment ends the whole. */
  lemma {:induction false} AssignFails(store: Store, names: seq<string>, values: seq<string>, i: nat)
    requires i <= |names| == |values|
    requires !AssignEach(store, names[..i], values[..i]).ok
    ensures AssignEach(store, names, values) == AssignEach(store, names[..i], values[..i])
    decreases |names| - i
  {
    if i < |names| {
      AssignOneMore(store, names, values, i);
      AssignFails(store, names, values, i + 1);
    } else {
      assert names[..i] == names && values[..i] == values;
    }
  }

  class Environment {
    var store: Store

    constructor (store: Store)
      ensures this.store == store
    {
      this.store := store;
    }

    method AssignToNamedVariables(input: Option<string>, ifs: string, whole: bool, names: seq<string>)
      returns (ok: bool)
      requires input.Some? ==> |input.value| <= ISIZE_MAX
      modifies this
      ensures var u := AssignEach(old(store), names, Values(VariableFields(input, ifs, whole, |names|), |names|));
              ok == u.ok && store == u.store
    {
      hide *;
      var fields := BuildVariableFields(input, ifs, whole, |names|);
      ghost var all := fields;
      ghost var values := Values(all, |names|);
      NothingAssigned(store, names, values);
      for i := 0 to |names|
        invariant AssignEach(old(store), names[..i], values[..i]) == Update(true, store)
        invariant fields == if i <= |all| then all[i..] else []
      {
        var isLast := i == |names| - 1;
        var value;
        if fields == [] {
          value := "";
        } else if isLast {
          value := Join(fields, ' ');
          fields := [];
        } else {
          value := fields[0];
          fields := fields[1..];
        }
        ValueAt(all, i, |names|);
        AssignOneMore(old(store), names, values, i);
        var u := AssignScalar(store, names[i], value);
        store := u.store;
        if !u.ok {
          AssignFails(old(store), names, values, i + 1);
          return false;
        }
        if isLast {
          break;
        }
      }
      assert names[..|names|] == names && values[..|names|] == values;
      ok := true;
    }
  }

  // ------------------------------------------------------------ what the variables hold

  /** With one variable or more the last one never gets two fields joined: variable i gets field i
      of the limited split, or the empty string. So the first n - 1 hold fields of the unlimited
      split, and the last one a verbatim suffix of the trimmed line or nothing. */
  lemma {:induction false} NoFieldsJoined(line: string, ifs: string, n: nat, i: nat)
    requires i < n
    ensures var fields, all := SplitAtMost(ifs, line, n), Split(ifs, line);
      var v := Values(VariableFields(Some(line), ifs, false, n), n)[i];
      && v == (if i < |fields| then fields[i] else "")
      && (i < n - 1 ==> v == if i < |all| then all[i] else "")
      && (i == n - 1 ==> IsSuffix(v, Trim(ifs, line)))
  {
    hide SplitAtMost, Split, Trim, Values, FieldFor, IfsProperties.Join;
    LimitedSplit(ifs, line, n);
    var fields := SplitAtMost(ifs, line, n);
    ValueAt(fields, i, n);
    JoinOne(if i < |fields| then fields[i] else "");
    if i == n - 1 && i < |fields| {
      assert fields[i..] == [fields[i]];
    }
  }

  lemma {:induction false} JoinOne(field: string)
    ensures Join([field], ' ') == field
  {
  }

  /** The assignments take effect: a variable named once more nowhere later holds its value, and
      variables not named keep theirs. */
  lemma {:induction false} AssignedValues(store: Store, names: seq<string>, values: seq<string>)
    requires |names| == |values|
    requires AssignEach(store, names, values).ok
    ensures var after := AssignEach(store, names, values).store;
      && (forall i :: 0 <= i < |names| && names[i] !in names[i + 1..] ==>
            names[i] in after && after[names[i]].value.AsString() == values[i])
      && (forall x :: x !in names ==> (x in after <==> x in store) && (x in after ==> after[x] == store[x]))
    decreases |names|
  {
    if names != [] {
      var u := AssignScalar(store, names[0], values[0]);
      AssignScalarReads(store, names[0], values[0]);
      AssignedValues(u.store, names[1..], values[1..]);
      var after := AssignEach(store, names, values).store;
      forall i | 0 <= i < |names| && names[i] !in names[i + 1..]
        ensures names[i] in after && after[names[i]].value.AsString() == values[i]
      {
        if i > 0 {
          assert names[1..][i - 1] == names[i] && names[1..][i..] == names[i + 1..];
        } else {
          assert names[0] !in names[1..];
        }
      }
      forall x | x !in names
        ensures (x in after <==> x in store) && (x in after ==> after[x] == store[x])
      {
        assert x !in names[1..] && x !in {names[0]};
      }
    }
  }
}
