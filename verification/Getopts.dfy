/** The `getopts` builtin: each call reports one option, and what it needs to remember until the
    next call lives in shell variables that anyone may have changed in between. */
module Getopts {
  import opened Options
  import opened ShellVariables
  import opened OptionString
  import opened DecimalText
  import opened GetoptsScan

  // ------------------------------------------------------------ the variables

  function IndexName(): string { "OPTIND" }

  function ArgumentName(): string { "OPTARG" }

  function NextCharName(): string { "__GETOPTS_NEXT_CHAR" }

  function LastIndexName(): string { "__GETOPTS_LAST_OPTIND" }

  /** The variables a call may write: the state it keeps, and what it reports. */
  ghost function StateNames(): set<string> {
    {IndexName(), NextCharName(), LastIndexName()}
  }

  ghost function WrittenNames(name: string): set<string> {
    StateNames() + {ArgumentName(), name}
  }

  lemma {:induction false} NamesDiffer()
    ensures IndexName() != ArgumentName() && IndexName() != NextCharName() && IndexName() != LastIndexName()
    ensures ArgumentName() != NextCharName() && ArgumentName() != LastIndexName()
    ensures NextCharName() != LastIndexName()
  {
    assert IndexName()[0] != NextCharName()[0];
    assert IndexName()[3] != ArgumentName()[3];
    assert NextCharName()[10] != LastIndexName()[10];
  }

  function Text(store: Store, name: string): Option<string> {
    if name in store then Some(store[name].value.AsString()) else None
  }

  predicate Writable(store: Store, name: string) {
    name in store ==> !store[name].readonly
  }

  function Removed(store: Store, name: string): Update {
    if Writable(store, name) then Update(true, store - {name}) else Update(false, store)
  }

  // ------------------------------------------------------------ reading the state

  /** OPTIND as stored: 1 when it is unset or not a number. */
  function RawIndex(store: Store): int {
    var read := if Text(store, IndexName()).Some? then ParseI32(Text(store, IndexName()).value) else None;
    if read.Some? then read.value else 1
  }

  function LastIndex(store: Store): Option<int> {
    if Text(store, LastIndexName()).Some? then ParseI32(Text(store, LastIndexName()).value) else None
  }

  function StoredChar(store: Store): nat {
    var read := if Text(store, NextCharName()).Some? then ParseUsize(Text(store, NextCharName()).value) else None;
    if read.Some? then read.value else 1
  }

  /** Where the next call looks: an OPTIND other than the one last written starts its argument over. */
  function CursorOf(store: Store): (cursor: Cursor)
    ensures cursor.index >= 1
  {
    Cursor(if RawIndex(store) >= 1 then RawIndex(store) else 1,
           if LastIndex(store) == Some(RawIndex(store)) then StoredChar(store) else 1)
  }

  // ------------------------------------------------------------ one call

  function ThenAssign(u: Update, name: string, text: string): Update {
    if u.ok then AssignScalar(u.store, name, text) else u
  }

  function ThenUnset(u: Update, name: string): Update {
    if u.ok then Removed(u.store, name) else u
  }

  function Restarted(store: Store): Update {
    if LastIndex(store) == Some(RawIndex(store)) then Update(true, store) else Removed(store, NextCharName())
  }

  /** Remembering the place inside a cluster, or forgetting it at the cluster's end. */
  function ThenRemember(u: Update, step: Step, index: nat): Update {
    if !step.report.found then u
    else if step.cursor.index == index then ThenAssign(u, NextCharName(), ToDecimal(step.cursor.letter))
    else ThenUnset(u, NextCharName())
  }

  function ThenName(u: Update, name: string, report: Report): Update {
    var named := ThenAssign(u, name, report.value);
    if report.optarg.Some? then ThenAssign(named, ArgumentName(), report.optarg.value)
    else ThenUnset(named, ArgumentName())
  }

  function ThenIndex(u: Update, index: nat): Update {
    ThenAssign(ThenAssign(u, IndexName(), ToDecimal(index)), LastIndexName(), ToDecimal(index))
  }

  function ThenReport(u: Update, name: string, step: Step): Update {
    ThenIndex(ThenName(u, name, step.report), step.cursor.index)
  }

  function StepFrom(options: string, args: seq<string>, store: Store): Step {
    Next(options, args, CursorOf(store))
  }

  /** The store after a call, which has failed if a variable it writes is read-only. */
  function Call(options: string, name: string, args: seq<string>, store: Store): Update {
    var step := StepFrom(options, args, store);
    ThenReport(ThenRemember(Restarted(store), step, CursorOf(store).index), name, step)
  }

  // ------------------------------------------------------------ the builtin itself

  datatype GetOptsResult = GetOptsResult(variableValue: string, optarg: Option<string>, optind: nat, found: bool)

  datatype Exit = Success | GeneralError | Failed

  predicate ValidVariableName(s: string) {
    s != "" && !('0' <= s[0] <= '9') && forall i :: 0 <= i < |s| ==> NameChar(s[i])
  }

  predicate NameChar(c: char) {
    'a' <= c <= 'z' || 'A' <= c <= 'Z' || '0' <= c <= '9' || c == '_'
  }

  class ExecutionContext {
    var store: Store
    var positional: seq<string>

    constructor (store: Store, positional: seq<string>)
      ensures this.store == store && this.positional == positional
    {
      this.store, this.positional := store, positional;
    }

    method UpdateOrAdd(name: string, text: string) returns (ok: bool)
      modifies this`store
      ensures Update(ok, store) == AssignScalar(old(store), name, text)
    {
      var u := AssignScalar(store, name, text);
      store := u.store;
      ok := u.ok;
    }

    method UnsetVariable(name: string) returns (ok: bool)
      modifies this`store
      ensures Update(ok, store) == Removed(old(store), name)
    {
      var u := Removed(store, name);
      store := u.store;
      ok := u.ok;
    }

    method ResolveOptionArgument(spec: OptionSpec, c: char, arg: string, args: seq<string>, nextCharIndex: nat,
                                 isLast: bool, index: nat)
      returns (value: string, optarg: Option<string>, last: bool, nextIndex: nat)
      requires nextCharIndex < |arg|
      ensures last
      ensures !isLast ==> value == [c] && optarg == Some(arg[nextCharIndex + 1..]) && nextIndex == index
      ensures isLast && index < |args| ==> value == [c] && optarg == Some(args[index]) && nextIndex == index + 1
      ensures isLast && index >= |args| ==>
        nextIndex == index && (value, optarg) == (if spec.silentErrors then (":", Some([c])) else ("?", None))
    {
      last, nextIndex := true, index;
      if isLast {
        if nextIndex >= |args| {
          if spec.silentErrors {
            value, optarg := ":", Some([c]);
          } else {
            value, optarg := "?", None;
          }
        } else {
          nextIndex := nextIndex + 1;
          value, optarg := [c], Some(args[nextIndex - 1]);
        }
      } else {
        value, optarg := [c], Some(arg[nextCharIndex + 1..]);
      }
    }

    /** An option argument has at least two characters, so its first letter is always there. */
    method ParseNextOption(spec: OptionSpec, ghost options: string, args: seq<string>, index: nat)
      returns (ok: bool, result: GetOptsResult)
      requires Describes(spec, options) && index >= 1
      modifies this`store
      ensures var step := Next(options, args, Cursor(index, StoredChar(old(store))));
        && Update(ok, store) == ThenRemember(Update(true, old(store)), step, index)
        && result == GetOptsResult(step.report.value, step.report.optarg, step.cursor.index, step.report.found)
    {
      hide Declares, TakesArgument, ToDecimal, Describes, StoredChar;
      ok := true;
      var nextIndex := index;
      if nextIndex > |args| {
        return true, GetOptsResult("?", None, |args| + 1, false);
      }
      var arg := args[nextIndex - 1];
      if arg == "" || arg[0] != '-' || arg == "--" || arg == "-" {
        return true, GetOptsResult("?", None, if arg == "--" then nextIndex + 1 else nextIndex, false);
      }

      var nextCharIndex := StoredChar(store);
      if nextCharIndex >= |arg| {
        nextCharIndex := 1;
      }
      var c := arg[nextCharIndex];
      var isLast := nextCharIndex == |arg| - 1;

      var value: string;
      var optarg: Option<string>;
      DescribesEntry(spec, options, c);
      if c in spec.defs {
        value, optarg := [c], None;
        if spec.defs[c] {
          value, optarg, isLast, nextIndex :=
            ResolveOptionArgument(spec, c, arg, args, nextCharIndex, isLast, nextIndex);
        }
      } else {
        value, optarg := "?", if spec.silentErrors then Some([c]) else None;
      }

      var optind := nextIndex;
      if isLast {
        ok := UnsetVariable(NextCharName());
        optind := nextIndex + 1;
      } else {
        ok := UpdateOrAdd(NextCharName(), ToDecimal(nextCharIndex + 1));
      }
      result := GetOptsResult(value, optarg, optind, true);
    }

    method UpdateVariables(name: string, result: GetOptsResult) returns (exit: Exit)
      modifies this`store
      ensures var step := Step(Report(result.found, result.variableValue, result.optarg), Cursor(result.optind, 0));
        var u := ThenReport(Update(true, old(store)), name, step);
        && store == u.store
        && exit == if !u.ok then Failed else if result.found then Success else GeneralError
    {
      var ok := UpdateOrAdd(name, result.variableValue);
      if !ok { return Failed; }
      if result.optarg.Some? {
        ok := UpdateOrAdd(ArgumentName(), result.optarg.value);
      } else {
        ok := UnsetVariable(ArgumentName());
      }
      if !ok { return Failed; }
      ok := UpdateOrAdd(IndexName(), ToDecimal(result.optind));
      if !ok { return Failed; }
      ok := UpdateOrAdd(LastIndexName(), ToDecimal(result.optind));
      if !ok { return Failed; }
      exit := if result.found then Success else GeneralError;
    }

    method Execute(options: string, name: string, explicitArgs: seq<string>) returns (exit: Exit)
      modifies this`store
      ensures !ValidVariableName(name) ==> exit == GeneralError && store == old(store)
      ensures var args := if explicitArgs != [] then explicitArgs else positional;
        var u := Call(options, name, args, old(store));
        ValidVariableName(name) ==>
          && store == u.store
          && exit == if !u.ok then Failed
                     else if StepFrom(options, args, old(store)).report.found then Success else GeneralError
    {
      hide Next, AssignScalar, RawIndex, LastIndex, ParseUsize, ToDecimal, Describes;
      if !ValidVariableName(name) {
        return GeneralError;
      }
      var spec := ParseOptionSpec(options);
      var nextIndexSigned := RawIndex(store);
      if LastIndex(store) != Some(nextIndexSigned) {
        var ok := UnsetVariable(NextCharName());
        if !ok { return Failed; }
      }
      var index := if nextIndexSigned >= 1 then nextIndexSigned else 1;
      var args := if explicitArgs != [] then explicitArgs else positional;
      var ok, result := ParseNextOption(spec, options, args, index);
      if !ok { return Failed; }
      exit := UpdateVariables(name, result);
    }
  }
}
