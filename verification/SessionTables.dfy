/** The session tables: keyed rows, the statements that insert, replace and merge them, and what those
    statements do to the rows of one session file and of all the others. */
module SessionTables {
  import opened Options
  import opened SessionLog

  /** A call of the edit tool: the columns of the call itself, and those of its result. */
  datatype EditRow = EditRow(stub: Stub, success: Option<bool>, warnings: seq<string>, parserVersion: nat)

  datatype SessionRow = SessionRow(meta: Meta, mtime: nat, size: nat, byteOffset: nat, lineCount: nat,
                                   lastSynced: nat, parserVersion: nat)

  datatype Tables = Tables(
    calls: map<Key, CallRow>,
    results: map<Key, ResultRow>,
    assistant: map<Key, AssistantRow>,
    users: map<Key, UserRow>,
    edits: map<Key, EditRow>,
    sections: map<Key, SectionRow>)

  const NO_TABLES := Tables(map[], map[], map[], map[], map[], map[])

  // ------------------------------------------------------------ statements

  /** INSERT OR REPLACE, row after row. */
  function Put<V>(t: map<Key, V>, rows: seq<(Key, V)>): map<Key, V> {
    if rows == [] then t else Put(t, rows[..|rows| - 1])[rows[|rows| - 1].0 := rows[|rows| - 1].1]
  }

  /** A call inserts its row, or updates the columns of the call and keeps those of the result. */
  function MergeStub(t: map<Key, EditRow>, k: Key, stub: Stub): map<Key, EditRow> {
    t[k := if k in t then t[k].(stub := stub, parserVersion := EDIT_PARSER_VERSION)
           else EditRow(stub, None, [], EDIT_PARSER_VERSION)]
  }

  /** A result inserts a row with an empty call, or updates the columns of the result alone. */
  function MergeOutcome(t: map<Key, EditRow>, k: Key, o: Outcome): map<Key, EditRow> {
    t[k := if k in t
           then t[k].(success := Some(o.success), warnings := o.warnings, parserVersion := EDIT_PARSER_VERSION)
           else EditRow(Stub(0, 0, 0), Some(o.success), o.warnings, EDIT_PARSER_VERSION)]
  }

  function MergeStubs(t: map<Key, EditRow>, rows: seq<(Key, Stub)>): map<Key, EditRow> {
    if rows == [] then t
    else MergeStub(MergeStubs(t, rows[..|rows| - 1]), rows[|rows| - 1].0, rows[|rows| - 1].1)
  }

  function MergeOutcomes(t: map<Key, EditRow>, rows: seq<(Key, Outcome)>): map<Key, EditRow> {
    if rows == [] then t
    else MergeOutcome(MergeOutcomes(t, rows[..|rows| - 1]), rows[|rows| - 1].0, rows[|rows| - 1].1)
  }

  /** All the statements of one batch, table after table: the calls of edits before their results. */
  function Applied(t: Tables, b: Batch): Tables {
    Tables(Put(t.calls, b.calls), Put(t.results, b.results), Put(t.assistant, b.assistant), Put(t.users, b.users),
           MergeOutcomes(MergeStubs(t.edits, b.stubs), b.outcomes), Put(t.sections, b.sections))
  }

  function Rest<V>(t: map<Key, V>, file: string): map<Key, V> {
    map k | k in t && k.file != file :: t[k]
  }

  function Own<V>(t: map<Key, V>, file: string): map<Key, V> {
    map k | k in t && k.file == file :: t[k]
  }

  /** The rows of all other session files. */
  function Others(t: Tables, file: string): Tables {
    Tables(Rest(t.calls, file), Rest(t.results, file), Rest(t.assistant, file), Rest(t.users, file),
           Rest(t.edits, file), Rest(t.sections, file))
  }

  /** The rows of one session file. */
  function RowsOf(t: Tables, file: string): Tables {
    Tables(Own(t.calls, file), Own(t.results, file), Own(t.assistant, file), Own(t.users, file),
           Own(t.edits, file), Own(t.sections, file))
  }

  function Coalesce<T>(a: Option<T>, b: Option<T>): Option<T> {
    if a.Some? then a else b
  }

  function MergeMeta(found: Meta, stored: Meta): Meta {
    Meta(Coalesce(found.uuid, stored.uuid), Coalesce(found.version, stored.version),
         Coalesce(found.title, stored.title), Coalesce(found.cwd, stored.cwd),
         Coalesce(found.startedAt, stored.startedAt))
  }

  function MergeSession(sessions: map<string, SessionRow>, file: string, row: SessionRow): map<string, SessionRow> {
    sessions[file := if file in sessions then row.(meta := MergeMeta(row.meta, sessions[file].meta)) else row]
  }

  // ------------------------------------------------------------ the database

  class Database {
    var calls: map<Key, CallRow>
    var results: map<Key, ResultRow>
    var assistant: map<Key, AssistantRow>
    var users: map<Key, UserRow>
    var edits: map<Key, EditRow>
    var sections: map<Key, SectionRow>
    var sessions: map<string, SessionRow>

    constructor ()
      ensures Contents() == NO_TABLES && sessions == map[]
    {
      calls, results, assistant, users, edits, sections := map[], map[], map[], map[], map[], map[];
      sessions := map[];
    }

    function Contents(): Tables
      reads this
    {
      Tables(calls, results, assistant, users, edits, sections)
    }

    static method InsertOrReplace<V>(t: map<Key, V>, rows: seq<(Key, V)>) returns (r: map<Key, V>)
      ensures r == Put(t, rows)
    {
      r := t;
      for i := 0 to |rows|
        invariant r == Put(t, rows[..i])
      {
        assert rows[..i + 1][..i] == rows[..i];
        r := r[rows[i].0 := rows[i].1];
      }
      assert rows[..|rows|] == rows;
    }

    method UpsertEditCalls(rows: seq<(Key, Stub)>)
      modifies this`edits
      ensures edits == MergeStubs(old(edits), rows)
    {
      for i := 0 to |rows|
        invariant edits == MergeStubs(old(edits), rows[..i])
      {
        assert rows[..i + 1][..i] == rows[..i];
        var (k, stub) := rows[i];
        if k in edits {
          edits := edits[k := edits[k].(stub := stub, parserVersion := EDIT_PARSER_VERSION)];
        } else {
          edits := edits[k := EditRow(stub, None, [], EDIT_PARSER_VERSION)];
        }
      }
      assert rows[..|rows|] == rows;
    }

    method UpsertEditResults(rows: seq<(Key, Outcome)>)
      modifies this`edits
      ensures edits == MergeOutcomes(old(edits), rows)
    {
      for i := 0 to |rows|
        invariant edits == MergeOutcomes(old(edits), rows[..i])
      {
        assert rows[..i + 1][..i] == rows[..i];
        var (k, o) := rows[i];
        if k in edits {
          edits := edits[k := edits[k].(success := Some(o.success), warnings := o.warnings,
                                        parserVersion := EDIT_PARSER_VERSION)];
        } else {
          edits := edits[k := EditRow(Stub(0, 0, 0), Some(o.success), o.warnings, EDIT_PARSER_VERSION)];
        }
      }
      assert rows[..|rows|] == rows;
    }

    method WriteRecords(rec: SessionRecords, fullRebuild: bool, fileSize: nat, fileMtime: nat, now: nat)
      modifies this
      ensures Contents()
           == Applied(if fullRebuild then Others(old(Contents()), rec.file) else old(Contents()), rec.Contents())
      ensures sessions == MergeSession(old(sessions), rec.file,
                SessionRow(rec.meta, fileMtime, fileSize, rec.finalOffset, rec.finalLineCount, now,
                           EDIT_PARSER_VERSION))
    {
      hide Rest, Put, MergeStubs, MergeOutcomes, MergeMeta, Coalesce;
      if fullRebuild {
        calls, results := Rest(calls, rec.file), Rest(results, rec.file);
        assistant, users := Rest(assistant, rec.file), Rest(users, rec.file);
        edits, sections := Rest(edits, rec.file), Rest(sections, rec.file);
      }
      calls := InsertOrReplace(calls, rec.calls);
      results := InsertOrReplace(results, rec.results);
      assistant := InsertOrReplace(assistant, rec.assistant);
      users := InsertOrReplace(users, rec.users);
      UpsertEditCalls(rec.stubs);
      UpsertEditResults(rec.outcomes);
      sections := InsertOrReplace(sections, rec.sections);
      var row := SessionRow(rec.meta, fileMtime, fileSize, rec.finalOffset, rec.finalLineCount, now,
                            EDIT_PARSER_VERSION);
      if rec.file in sessions {
        row := row.(meta := MergeMeta(row.meta, sessions[rec.file].meta));
      }
      sessions := sessions[rec.file := row];
    }
  }

  // ------------------------------------------------------------ batches one after another

  lemma {:induction false} PutConcat<V>(t: map<Key, V>, a: seq<(Key, V)>, b: seq<(Key, V)>)
    ensures Put(t, a + b) == Put(Put(t, a), b)
    decreases |b|
  {
    if b == [] {
      assert a + b == a;
    } else {
      assert (a + b)[..|a + b| - 1] == a + b[..|b| - 1];
      PutConcat(t, a, b[..|b| - 1]);
    }
  }

  lemma {:induction false} MergeStubsConcat(t: map<Key, EditRow>, a: seq<(Key, Stub)>, b: seq<(Key, Stub)>)
    ensures MergeStubs(t, a + b) == MergeStubs(MergeStubs(t, a), b)
    decreases |b|
  {
    if b == [] {
      assert a + b == a;
    } else {
      assert (a + b)[..|a + b| - 1] == a + b[..|b| - 1];
      MergeStubsConcat(t, a, b[..|b| - 1]);
    }
  }

  lemma {:induction false} MergeOutcomesConcat(t: map<Key, EditRow>, a: seq<(Key, Outcome)>, b: seq<(Key, Outcome)>)
    ensures MergeOutcomes(t, a + b) == MergeOutcomes(MergeOutcomes(t, a), b)
    decreases |b|
  {
    if b == [] {
      assert a + b == a;
    } else {
      assert (a + b)[..|a + b| - 1] == a + b[..|b| - 1];
      MergeOutcomesConcat(t, a, b[..|b| - 1]);
    }
  }

  /** A call and a result touch different columns, so it does not matter which comes first: not even
      when neither row was there. */
  lemma {:induction false} CallAndResultCommute(t: map<Key, EditRow>, k: Key, s: Stub, l: Key, o: Outcome)
    ensures MergeStub(MergeOutcome(t, l, o), k, s) == MergeOutcome(MergeStub(t, k, s), l, o)
  {
  }

  lemma {:induction false} ResultsAndCallCommute(t: map<Key, EditRow>, k: Key, s: Stub, rows: seq<(Key, Outcome)>)
    ensures MergeStub(MergeOutcomes(t, rows), k, s) == MergeOutcomes(MergeStub(t, k, s), rows)
    decreases |rows|
  {
    if rows != [] {
      var front := rows[..|rows| - 1];
      ResultsAndCallCommute(t, k, s, front);
      CallAndResultCommute(MergeOutcomes(t, front), k, s, rows[|rows| - 1].0, rows[|rows| - 1].1);
      hide MergeStub, MergeOutcome;
    }
  }

  lemma {:induction false} ResultsAndCallsCommute(t: map<Key, EditRow>, stubs: seq<(Key, Stub)>,
                                                  rows: seq<(Key, Outcome)>)
    ensures MergeStubs(MergeOutcomes(t, rows), stubs) == MergeOutcomes(MergeStubs(t, stubs), rows)
    decreases |stubs|
  {
    if stubs != [] {
      var front := stubs[..|stubs| - 1];
      ResultsAndCallsCommute(t, front, rows);
      ResultsAndCallCommute(MergeStubs(t, front), stubs[|stubs| - 1].0, stubs[|stubs| - 1].1, rows);
      hide MergeStub, MergeOutcomes;
    }
  }

  /** Two batches written one after the other leave what one batch with all their rows leaves, although
      then every call is written before any result. */
  lemma {:induction false} AppliedConcat(t: Tables, a: Batch, b: Batch)
    ensures Applied(Applied(t, a), b) == Applied(t, a.Plus(b))
  {
    PutConcat(t.calls, a.calls, b.calls);
    PutConcat(t.results, a.results, b.results);
    PutConcat(t.assistant, a.assistant, b.assistant);
    PutConcat(t.users, a.users, b.users);
    PutConcat(t.sections, a.sections, b.sections);
    var called := MergeStubs(t.edits, a.stubs);
    ResultsAndCallsCommute(called, b.stubs, a.outcomes);
    MergeStubsConcat(t.edits, a.stubs, b.stubs);
    MergeOutcomesConcat(MergeStubs(called, b.stubs), a.outcomes, b.outcomes);
    hide Put, MergeStubs, MergeOutcomes;
  }

  // ------------------------------------------------------------ one file's rows

  lemma {:induction false} PutOwn<V>(t: map<Key, V>, rows: seq<(Key, V)>, file: string)
    requires Keyed(rows, file)
    ensures Own(Put(t, rows), file) == Put(Own(t, file), rows)
    ensures Rest(Put(t, rows), file) == Rest(t, file)
    decreases |rows|
  {
    if rows != [] {
      PutOwn(t, rows[..|rows| - 1], file);
    }
  }

  lemma {:induction false} StubsOwn(t: map<Key, EditRow>, rows: seq<(Key, Stub)>, file: string)
    requires Keyed(rows, file)
    ensures Own(MergeStubs(t, rows), file) == MergeStubs(Own(t, file), rows)
    ensures Rest(MergeStubs(t, rows), file) == Rest(t, file)
    decreases |rows|
  {
    if rows != [] {
      StubsOwn(t, rows[..|rows| - 1], file);
    }
  }

  lemma {:induction false} OutcomesOwn(t: map<Key, EditRow>, rows: seq<(Key, Outcome)>, file: string)
    requires Keyed(rows, file)
    ensures Own(MergeOutcomes(t, rows), file) == MergeOutcomes(Own(t, file), rows)
    ensures Rest(MergeOutcomes(t, rows), file) == Rest(t, file)
    decreases |rows|
  {
    if rows != [] {
      OutcomesOwn(t, rows[..|rows| - 1], file);
    }
  }

  /** A batch of one file acts on that file's rows alone, and leaves every other file's rows as they
      were. */
  lemma {:induction false} AppliedOwn(t: Tables, b: Batch, file: string)
    requires b.IsOf(file)
    ensures RowsOf(Applied(t, b), file) == Applied(RowsOf(t, file), b)
    ensures Others(Applied(t, b), file) == Others(t, file)
  {
    PutOwn(t.calls, b.calls, file);
    PutOwn(t.results, b.results, file);
    PutOwn(t.assistant, b.assistant, file);
    PutOwn(t.users, b.users, file);
    PutOwn(t.sections, b.sections, file);
    StubsOwn(t.edits, b.stubs, file);
    OutcomesOwn(MergeStubs(t.edits, b.stubs), b.outcomes, file);
    hide Put, MergeStubs, MergeOutcomes, Own, Rest;
  }

  /** Deleting a file's rows leaves none of them, and all the others. */
  lemma {:induction false} Deleted(t: Tables, file: string)
    ensures RowsOf(Others(t, file), file) == NO_TABLES
    ensures Others(Others(t, file), file) == Others(t, file)
  {
  }

  // ------------------------------------------------------------ what an edit's row says

  /** The last row for a key, if there is one. */
  function LastFor<V>(rows: seq<(Key, V)>, k: Key): Option<V> {
    if rows == [] then None
    else if rows[|rows| - 1].0 == k then Some(rows[|rows| - 1].1)
    else LastFor(rows[..|rows| - 1], k)
  }

  /** The row of an edit combines its last call and its last result, in whatever order the log has
      them; what is missing shows as zeros, or as no result. */
  lemma {:induction false} EditRowMeaning(stubs: seq<(Key, Stub)>, outcomes: seq<(Key, Outcome)>, k: Key)
    ensures var t := MergeOutcomes(MergeStubs(map[], stubs), outcomes);
      var s, o := LastFor(stubs, k), LastFor(outcomes, k);
      && (k in t <==> s.Some? || o.Some?)
      && (k in t ==> t[k] == EditRow(if s.Some? then s.value else Stub(0, 0, 0),
                                     if o.Some? then Some(o.value.success) else None,
                                     if o.Some? then o.value.warnings else [], EDIT_PARSER_VERSION))
    decreases |outcomes|, |stubs|
  {
    if outcomes != [] {
      EditRowMeaning(stubs, outcomes[..|outcomes| - 1], k);
    } else if stubs != [] {
      EditRowMeaning(stubs[..|stubs| - 1], [], k);
    }
  }
}
