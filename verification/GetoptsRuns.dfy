/** Whole runs of the `getopts` builtin: calls with the same arguments, one after another, with
    anything else the script does in between, report exactly what one scan of the list reports. */
module GetoptsRuns {
  import opened Options
  import opened ShellVariables
  import opened DecimalText
  import opened GetoptsScan
  import opened Getopts

  // ------------------------------------------------------------ what an update does to the texts

  lemma {:induction false} AssignFacts(u: Update, name: string, text: string)
    ensures var v := ThenAssign(u, name, text);
      && (v.ok <==> u.ok && Writable(u.store, name))
      && SameOutside(u.store, v.store, {name})
      && (v.ok ==> Text(v.store, name) == Some(text))
      && forall n :: Writable(u.store, n) ==> Writable(v.store, n)
  {
  }

  lemma {:induction false} RemoveFacts(u: Update, name: string)
    ensures var v := ThenUnset(u, name);
      && (v.ok <==> u.ok && Writable(u.store, name))
      && SameOutside(u.store, v.store, {name})
      && (v.ok ==> Text(v.store, name) == None)
      && forall n :: Writable(u.store, n) ==> Writable(v.store, n)
  {
  }

  lemma {:induction false} SameText(a: Store, b: Store, names: set<string>, n: string)
    requires SameOutside(a, b, names) && n !in names
    ensures Text(a, n) == Text(b, n) && (Writable(a, n) <==> Writable(b, n))
  {
  }

  // ------------------------------------------------------------ the stages of a call

  /** Restarting changes where the next call looks in no way. */
  lemma {:induction false} RestartFacts(store: Store)
    ensures var v := Restarted(store);
      && SameOutside(store, v.store, {NextCharName()})
      && (v.ok ==> StoredChar(v.store) == CursorOf(store).letter)
      && (Writable(store, NextCharName()) ==> v.ok)
      && forall n :: Writable(store, n) ==> Writable(v.store, n)
  {
    RemoveFacts(Update(true, store), NextCharName());
  }

  /** What is remembered reads back as the cursor's place in its argument. */
  lemma {:induction false} RememberFacts(u: Update, step: Step, cursor: Cursor)
    requires u.ok && StoredChar(u.store) == cursor.letter
    requires step.report.found ==> step.cursor.index == cursor.index || step.cursor.letter == 1
    requires !step.report.found ==> step.cursor.letter == cursor.letter
    requires step.report.found ==> step.cursor.letter <= USIZE_MAX
    ensures var v := ThenRemember(u, step, cursor.index);
      && SameOutside(u.store, v.store, {NextCharName()})
      && (v.ok ==> StoredChar(v.store) == step.cursor.letter)
      && (Writable(u.store, NextCharName()) ==> v.ok)
      && forall n :: Writable(u.store, n) ==> Writable(v.store, n)
  {
    AssignFacts(u, NextCharName(), ToDecimal(step.cursor.letter));
    RemoveFacts(u, NextCharName());
    NumberReadsBack(step.cursor.letter);
    hide ToDecimal, ThenAssign, ThenUnset, ParseUsize;
  }

  ghost predicate AllWritable(store: Store, names: set<string>) {
    forall n :: n in names ==> Writable(store, n)
  }

  ghost predicate StaysWritable(a: Store, b: Store) {
    forall n :: Writable(a, n) ==> Writable(b, n)
  }

  lemma {:induction false} NameFacts(u: Update, name: string, report: Report)
    requires u.ok
    ensures var v := ThenName(u, name, report);
      && SameOutside(u.store, v.store, {name, ArgumentName()})
      && (v.ok ==> Text(v.store, ArgumentName()) == report.optarg)
      && (v.ok && name != ArgumentName() ==> Text(v.store, name) == Some(report.value))
      && (Writable(u.store, name) && Writable(u.store, ArgumentName()) ==> v.ok)
      && StaysWritable(u.store, v.store)
  {
    var named := ThenAssign(u, name, report.value);
    AssignFacts(u, name, report.value);
    if report.optarg.Some? {
      AssignFacts(named, ArgumentName(), report.optarg.value);
    } else {
      RemoveFacts(named, ArgumentName());
    }
    hide ThenAssign, ThenUnset, Writable, ArgumentName;
  }

  lemma {:induction false} IndexFacts(u: Update, index: nat)
    requires u.ok
    ensures var v := ThenIndex(u, index);
      && SameOutside(u.store, v.store, {IndexName(), LastIndexName()})
      && (v.ok ==> Text(v.store, IndexName()) == Text(v.store, LastIndexName()) == Some(ToDecimal(index)))
      && (Writable(u.store, IndexName()) && Writable(u.store, LastIndexName()) ==> v.ok)
      && StaysWritable(u.store, v.store)
  {
    NamesDiffer();
    var first := ThenAssign(u, IndexName(), ToDecimal(index));
    AssignFacts(u, IndexName(), ToDecimal(index));
    AssignFacts(first, LastIndexName(), ToDecimal(index));
    hide ThenAssign, Writable, IndexName, LastIndexName, ToDecimal;
  }

  /** What is reported reads back, and OPTIND and its shadow agree. */
  lemma {:induction false} ReportFacts(u: Update, name: string, step: Step)
    requires u.ok
    ensures var v := ThenReport(u, name, step);
      && SameOutside(u.store, v.store, {name, ArgumentName(), IndexName(), LastIndexName()})
      && (v.ok ==> Text(v.store, IndexName()) == Text(v.store, LastIndexName()) == Some(ToDecimal(step.cursor.index)))
      && (v.ok ==> Text(v.store, ArgumentName()) == step.report.optarg)
      && (v.ok && name !in {ArgumentName(), IndexName(), LastIndexName()} ==>
            Text(v.store, name) == Some(step.report.value))
      && (AllWritable(u.store, {name, ArgumentName(), IndexName(), LastIndexName()}) ==> v.ok)
      && StaysWritable(u.store, v.store)
  {
    NamesDiffer();
    var named := ThenName(u, name, step.report);
    NameFacts(u, name, step.report);
    if named.ok {
      IndexFacts(named, step.cursor.index);
      var v := ThenIndex(named, step.cursor.index);
      SameText(named.store, v.store, {IndexName(), LastIndexName()}, ArgumentName());
      if name !in {IndexName(), LastIndexName()} {
        SameText(named.store, v.store, {IndexName(), LastIndexName()}, name);
      }
    } else {
      FailedStays(named, step.cursor.index);
    }
    hide ThenName, ThenIndex, Writable, Text, ToDecimal, IndexName, ArgumentName, LastIndexName;
  }

  lemma {:induction false} FailedStays(u: Update, index: nat)
    requires !u.ok
    ensures ThenIndex(u, index) == u
  {
  }

  // ------------------------------------------------------------ a call from any stored state

  /** The variables a call writes after the result variable, and so instead of it if they are that one. */
  ghost function WrittenAfter(): set<string> {
    {ArgumentName(), IndexName(), LastIndexName()}
  }

  ghost predicate Lengths(args: seq<string>) {
    forall i :: 0 <= i < |args| ==> |args[i]| <= USIZE_MAX
  }

  lemma {:induction false} StepShape(options: string, args: seq<string>, cursor: Cursor)
    requires cursor.index >= 1 && Lengths(args)
    ensures var s := Next(options, args, cursor);
      && 1 <= s.cursor.index <= |args| + 1
      && (s.report.found ==> (s.cursor.index == cursor.index || s.cursor.letter == 1) && s.cursor.letter <= USIZE_MAX)
      && (!s.report.found ==> s.cursor.letter == cursor.letter)
  {
  }

  /** OPTIND reads back as the cursor's argument, unless it is too wide for 32 bits: then it reads
      as 1. */
  lemma {:induction false} IndexReadsBack(store: Store, index: nat)
    requires Text(store, IndexName()) == Text(store, LastIndexName()) == Some(ToDecimal(index))
    requires index >= 1
    ensures RawIndex(store) == if index <= I32_MAX then index else 1
    ensures index <= I32_MAX ==> CursorOf(store) == Cursor(index, StoredChar(store))
    ensures index > I32_MAX ==> CursorOf(store) == Cursor(1, 1)
  {
    NumberReadsBack(index);
    hide ToDecimal, ParseI32, StoredChar;
  }

  /** A call writes five variables, and fails only if one of them is read-only. */
  lemma {:induction false} CallFrame(options: string, name: string, args: seq<string>, store: Store)
    requires Lengths(args)
    ensures var v := Call(options, name, args, store);
      && SameOutside(store, v.store, WrittenNames(name))
      && (AllWritable(store, WrittenNames(name)) ==> v.ok)
      && StaysWritable(store, v.store)
  {
    hide Restarted, ThenRemember, ThenReport, StepFrom, CursorOf, Next, Writable, StoredChar;
    hide IndexName, ArgumentName, LastIndexName, NextCharName;
    var step, cursor := StepFrom(options, args, store), CursorOf(store);
    var u := Restarted(store);
    var w := ThenRemember(u, step, cursor.index);
    assert step == Next(options, args, cursor) by { StepUnfolds(options, args, store); }
    RestartFacts(store);
    StepShape(options, args, cursor);
    CallFails(options, name, args, store);
    if u.ok {
      RememberFacts(u, step, cursor);
      if w.ok {
        ReportFacts(w, name, step);
      }
    }
  }

  /** Whatever the variables hold, a call that does not fail leaves an OPTIND from 1 to one past the
      last argument, reports what the cursor's step says, and remembers where the step ended. */
  lemma {:induction false} CallFacts(options: string, name: string, args: seq<string>, store: Store)
    requires Lengths(args)
    requires Call(options, name, args, store).ok
    ensures var step, after := StepFrom(options, args, store), Call(options, name, args, store).store;
      && 1 <= step.cursor.index <= |args| + 1
      && Text(after, IndexName()) == Text(after, LastIndexName()) == Some(ToDecimal(step.cursor.index))
      && Text(after, ArgumentName()) == step.report.optarg
      && (name !in WrittenAfter() + {NextCharName()} ==> Text(after, name) == Some(step.report.value))
      && (name != NextCharName() && step.cursor.index <= I32_MAX ==> CursorOf(after) == step.cursor)
  {
    var step, cursor := StepFrom(options, args, store), CursorOf(store);
    var u := Restarted(store);
    var w := ThenRemember(u, step, cursor.index);
    RestartFacts(store);
    StepShape(options, args, cursor);
    CallFails(options, name, args, store);
    RememberFacts(u, step, cursor);
    ReportFacts(w, name, step);
    var v := ThenReport(w, name, step);
    NamesDiffer();
    IndexReadsBack(v.store, step.cursor.index);
    if name != NextCharName() {
      SameText(w.store, v.store, {name, ArgumentName(), IndexName(), LastIndexName()}, NextCharName());
      SameChar(w.store, v.store);
    }
    hide Restarted, ThenRemember, ThenReport, CursorOf, Next, Writable, StoredChar, Text, ToDecimal;
    hide IndexName, ArgumentName, LastIndexName, NextCharName;
  }

  lemma {:induction false} SameChar(a: Store, b: Store)
    requires Text(a, NextCharName()) == Text(b, NextCharName())
    ensures StoredChar(a) == StoredChar(b)
  {
  }

  /** A stage that failed stops the call there. */
  lemma {:induction false} CallFails(options: string, name: string, args: seq<string>, store: Store)
    ensures var step, index, u := StepFrom(options, args, store), CursorOf(store).index, Restarted(store);
      && (!u.ok ==> Call(options, name, args, store) == u)
      && (!ThenRemember(u, step, index).ok ==> Call(options, name, args, store) == ThenRemember(u, step, index))
  {
  }

  // ------------------------------------------------------------ whole runs

  /** What the script does between two calls leaves the three state variables as they read. */
  ghost predicate SameState(a: Store, b: Store) {
    forall n :: n in StateNames() ==> Text(a, n) == Text(b, n)
  }

  lemma {:induction false} SameCursor(a: Store, b: Store)
    requires SameState(a, b)
    ensures CursorOf(a) == CursorOf(b)
  {
    assert IndexName() in StateNames() && NextCharName() in StateNames() && LastIndexName() in StateNames();
    hide ParseI32, ParseUsize, IndexName, NextCharName, LastIndexName;
  }

  /** Call `i` takes the store `before[i]` to `after[i]`, none of the calls fails, and the script goes
      on to the next call from what it left. */
  ghost predicate IsRun(options: string, name: string, args: seq<string>, before: seq<Store>, after: seq<Store>) {
    && |before| == |after|
    && (forall i :: 0 <= i < |before| ==> Update(true, after[i]) == Call(options, name, args, before[i]))
    && (forall i :: 0 < i < |before| ==> SameState(after[i - 1], before[i]))
  }

  ghost predicate Finds(options: string, args: seq<string>, store: Store) {
    StepFrom(options, args, store).report.found
  }

  /** The result variable is not the hidden one that holds the place in a cluster. */
  ghost predicate RunConditions(name: string, args: seq<string>) {
    && name != NextCharName()
    && Lengths(args) && |args| < I32_MAX
  }

  /** A call that finds an option reports the first thing that remains, and leaves the rest to the
      next call. */
  lemma {:induction false} OneCall(options: string, name: string, args: seq<string>, before: Store, after: Store,
                                   next: Store)
    requires RunConditions(name, args) && Finds(options, args, before)
    requires Update(true, after) == Call(options, name, args, before) && SameState(after, next)
    ensures Remaining(options, args, CursorOf(before))
         == Prepend(StepFrom(options, args, before).report, Remaining(options, args, CursorOf(next)))
  {
    CallFacts(options, name, args, before);
    StepTakesFirst(options, args, CursorOf(before));
    SameCursor(after, next);
    StepUnfolds(options, args, before);
    hide Call, CursorOf, Next, Remaining, Text;
  }

  /** What remains from one store is what remained from another without the first `k` reports. */
  ghost predicate Leaves(options: string, args: seq<string>, first: Store, k: nat, store: Store) {
    var all, rest := Remaining(options, args, CursorOf(first)), Remaining(options, args, CursorOf(store));
    k <= |all.reports| && rest == Scanned(all.reports[k..], all.operands)
  }

  lemma {:induction false} LeavesAll(options: string, args: seq<string>, store: Store)
    ensures Leaves(options, args, store, 0, store)
  {
    hide Remaining, CursorOf;
    var all := Remaining(options, args, CursorOf(store));
    assert all.reports[0..] == all.reports;
  }

  lemma {:induction false} LeavesOneLess(options: string, args: seq<string>, first: Store, k: nat, store: Store,
                                         next: Store)
    requires Leaves(options, args, first, k, store)
    requires exists r ::
      Remaining(options, args, CursorOf(store)) == Prepend(r, Remaining(options, args, CursorOf(next)))
    ensures Leaves(options, args, first, k + 1, next)
  {
    hide Remaining, CursorOf;
    var all := Remaining(options, args, CursorOf(first));
    assert |all.reports[k..]| >= 1 && all.reports[k..][1..] == all.reports[k + 1..];
  }

  /** After `k` calls that each found an option, the scan without its first `k` reports remains. */
  lemma {:induction false} RunRemains(options: string, name: string, args: seq<string>,
                                      before: seq<Store>, after: seq<Store>, k: nat)
    requires RunConditions(name, args) && IsRun(options, name, args, before, after) && k < |before|
    requires forall i :: 0 <= i < k ==> Finds(options, args, before[i])
    ensures Leaves(options, args, before[0], k, before[k])
  {
    hide Leaves, Remaining, CursorOf, Call, StepFrom, RunConditions, SameState, Prepend;
    if k == 0 {
      LeavesAll(options, args, before[0]);
    } else {
      RunRemains(options, name, args, before, after, k - 1);
      assert Finds(options, args, before[k - 1]) && SameState(after[k - 1], before[k]);
      OneCall(options, name, args, before[k - 1], after[k - 1], before[k]);
      LeavesOneLess(options, args, before[0], k - 1, before[k - 1], before[k]);
    }
  }

  lemma {:induction false} StepUnfolds(options: string, args: seq<string>, store: Store)
    ensures StepFrom(options, args, store) == Next(options, args, CursorOf(store))
    ensures forall r, s :: Prepend(r, s) == Scanned([r] + s.reports, s.operands)
  {
  }

  /** A run from any stored state: call number `k` finds an option exactly while the scan from there
      has one left, and then reports it; the first call after that ends the run, at the first
      operand. So a run has one call more than the scan has reports. */
  lemma {:induction false} RunFollowsScan(options: string, name: string, args: seq<string>,
                       before: seq<Store>, after: seq<Store>, k: nat)
    requires RunConditions(name, args) && IsRun(options, name, args, before, after) && k < |before|
    requires forall i :: 0 <= i < k ==> Finds(options, args, before[i])
    ensures var all := Remaining(options, args, CursorOf(before[0]));
      && k <= |all.reports|
      && (Finds(options, args, before[k]) <==> k < |all.reports|)
      && (k < |all.reports| ==>
            && (name !in WrittenAfter() ==> Text(after[k], name) == Some(all.reports[k].value))
            && Text(after[k], ArgumentName()) == all.reports[k].optarg)
      && (k == |all.reports| ==>
            && (name !in WrittenAfter() ==> Text(after[k], name) == Some("?"))
            && Text(after[k], ArgumentName()) == None
            && |all.operands| <= |args|
            && all.operands == args[|args| - |all.operands|..]
            && Text(after[k], IndexName()) == Some(ToDecimal(|args| - |all.operands| + 1)))
  {
    RunRemains(options, name, args, before, after, k);
    CallFacts(options, name, args, before[k]);
    StepTakesFirst(options, args, CursorOf(before[k]));
    var all := Remaining(options, args, CursorOf(before[0]));
    var rest := Remaining(options, args, CursorOf(before[k]));
    var step := StepFrom(options, args, before[k]);
    StepUnfolds(options, args, before[k]);
    assert Update(true, after[k]) == Call(options, name, args, before[k]);
    assert Finds(options, args, before[k]) <==> step.report.found;
    assert END == Report(false, "?", None);
    hide *;
    if step.report.found {
      assert rest.reports[0] == step.report;
      assert all.reports[k..][0] == all.reports[k];
    } else {
      assert |all.operands| == |args| - (step.cursor.index - 1);
    }
  }

  /** A run that starts afresh reports the scan of the whole list. */
  lemma {:induction false} FreshRun(options: string, args: seq<string>, store: Store)
    requires RawIndex(store) <= 1 && (LastIndex(store) != Some(RawIndex(store)) || Text(store, NextCharName()) == None)
    ensures Remaining(options, args, CursorOf(store)) == Scan(options, args)
  {
    RemainingFromFirstLetter(options, args, 1);
    assert args[0..] == args;
  }

  /** Writing OPTIND starts an argument over exactly if the value differs from the one the last call
      left, or that call left off at an argument's first letter anyway. */
  lemma {:induction false} AssigningOptind(store: Store, n: nat)
    requires 1 <= n <= I32_MAX && Writable(store, IndexName())
    ensures var u := AssignScalar(store, IndexName(), ToDecimal(n));
      && u.ok
      && CursorOf(u.store).index == n
      && (CursorOf(u.store) == Cursor(n, 1) <==> LastIndex(store) != Some(n) || StoredChar(store) == 1)
  {
    var u := AssignScalar(store, IndexName(), ToDecimal(n));
    AssignFacts(Update(true, store), IndexName(), ToDecimal(n));
    NamesDiffer();
    NumberReadsBack(n);
    SameText(store, u.store, {IndexName()}, LastIndexName());
    SameText(store, u.store, {IndexName()}, NextCharName());
    hide ToDecimal, ParseI32, ParseUsize, IndexName, NextCharName, LastIndexName, AssignScalar;
  }
}
