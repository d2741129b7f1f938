/** Incremental log synchronisation: deciding from a file's size and times what to read, reading on
    from where the last sync stopped, and why the tables then hold what a rebuild would put there. */
module LogSync {
  import opened Options
  import opened SessionLog
  import opened SessionTables

  /** The tables, and the row kept for each session file. */
  datatype Db = Db(tables: Tables, sessions: map<string, SessionRow>)

  datatype Decision = Skip | Parse(fullRebuild: bool, offset: nat, seqNo: nat)

  function DecideAction(prev: Option<SessionRow>, full: bool, size: nat, mtime: nat): Decision {
    if full || prev == None then Parse(true, 0, 0)
    else
      var p := prev.value;
      if p.parserVersion < EDIT_PARSER_VERSION then Parse(true, 0, 0)
      else if size == p.size && mtime <= p.mtime then Skip
      else if size < p.byteOffset then Parse(true, 0, 0)
      else if size == p.byteOffset && mtime > p.mtime then Parse(true, 0, 0)
      else Parse(false, p.byteOffset, p.lineCount)
  }

  /** A sync looks at the file three times, and it may have grown in between: when it decides, when it
      takes the size to store, and when it reads to the end. */
  datatype Moments = Moments(seen: Log, seenMtime: nat, sized: Log, sizedMtime: nat, read: Log)

  ghost predicate Growing(log: Log, m: Moments) {
    log <= m.seen <= m.sized <= m.read
  }

  function Still(log: Log, mtime: nat): Moments {
    Moments(log, mtime, log, mtime, log)
  }

  /** The number of whole lines up to a byte offset. */
  function LineAt(log: seq<Line>, offset: nat): (n: nat)
    ensures n <= |log| && Bytes(log[..n]) <= offset
  {
    if Bytes(log) <= offset then
      assert log[..|log|] == log;
      |log|
    else
      var front := log[..|log| - 1];
      var n := LineAt(front, offset);
      assert log[..n] == front[..n];
      n
  }

  function Previous(d: Db, file: string): Option<SessionRow> {
    if file in d.sessions then Some(d.sessions[file]) else None
  }

  /** One sync of one file. */
  function Sync(d: Db, file: string, full: bool, m: Moments, now: nat): Db {
    match DecideAction(Previous(d, file), full, Bytes(m.seen), m.seenMtime)
    case Skip => d
    case Parse(fullRebuild, offset, seqNo) =>
      var lines := m.read[LineAt(m.read, offset)..];
      Db(Applied(if fullRebuild then Others(d.tables, file) else d.tables, LogBatch(file, seqNo, lines)),
         MergeSession(d.sessions, file,
           SessionRow(MetaOf(seqNo, lines), m.sizedMtime, Bytes(m.sized), offset + Bytes(lines), seqNo + |lines|,
                      now, EDIT_PARSER_VERSION)))
  }

  method SyncFile(db: Database, file: string, full: bool, m: Moments, now: nat)
    modifies db
    ensures Db(db.Contents(), db.sessions)
         == Sync(old(Db(db.Contents(), db.sessions)), file, full, m, now)
  {
    hide Applied, MergeSession, LogBatch, Others, MetaOf, Bytes, LineAt;
    var prev := if file in db.sessions then Some(db.sessions[file]) else None;
    var decision := DecideAction(prev, full, Bytes(m.seen), m.seenMtime);
    if decision.Skip? { return; }
    var rec := new SessionRecords(file, decision.offset, decision.seqNo);
    rec.ParseLines(m.read[LineAt(m.read, decision.offset)..]);
    db.WriteRecords(rec, decision.fullRebuild, Bytes(m.sized), m.sizedMtime, now);
  }

  // ------------------------------------------------------------ what a sync keeps

  /** The rows one rebuild of a log puts into the tables. */
  function Rebuilt(file: string, log: seq<Line>): Tables {
    Applied(NO_TABLES, LogBatch(file, 0, log))
  }

  /** The file's rows are those of the first lines of the log, as many as its session row says, and the
      stored offset is where they end. */
  ghost predicate Holds(d: Db, file: string, log: Log)
    requires file in d.sessions
  {
    var row := d.sessions[file];
    && row.lineCount <= |log|
    && row.byteOffset == Bytes(log[..row.lineCount])
    && row.size <= row.byteOffset
    && RowsOf(d.tables, file) == Rebuilt(file, log[..row.lineCount])
    && row.meta == MetaOf(0, log[..row.lineCount])
  }

  /** What is stored about the header is nothing that the header of the log does not say. */
  ghost predicate MetaWithin(stored: Meta, log: seq<Line>) {
    MergeMeta(MetaOf(0, log), stored) == MetaOf(0, log)
  }

  /** A file not synced yet may have any rows; so may one last synced by an older parser. */
  ghost predicate Good(d: Db, file: string, log: Log) {
    file in d.sessions ==>
      && d.sessions[file].parserVersion <= EDIT_PARSER_VERSION
      && MetaWithin(d.sessions[file].meta, log)
      && (d.sessions[file].parserVersion == EDIT_PARSER_VERSION ==> Holds(d, file, log))
  }

  lemma {:induction false} PrefixOfPrefix(a: seq<Line>, b: seq<Line>, n: nat)
    requires a <= b && n <= |a|
    ensures b[..n] == a[..n]
  {
  }

  lemma {:induction false} MetaOfPrefix(a: seq<Line>, b: seq<Line>)
    requires a <= b
    ensures a == [] ==> MetaOf(0, a) == NO_META
    ensures a != [] ==> MetaOf(0, b) == MetaOf(0, a)
    ensures MetaWithin(MetaOf(0, a), b)
    ensures forall m :: MetaWithin(m, a) ==> MetaWithin(m, b)
  {
  }

  lemma {:induction false} GrowthKeepsGood(d: Db, file: string, log: Log, longer: Log)
    requires Good(d, file, log) && log <= longer
    ensures Good(d, file, longer)
  {
    MetaOfPrefix(log, longer);
    if file in d.sessions && d.sessions[file].parserVersion == EDIT_PARSER_VERSION {
      PrefixOfPrefix(log, longer, d.sessions[file].lineCount);
      hide RowsOf, Rebuilt, MetaOf, MetaWithin, Bytes;
    }
  }

  lemma {:induction false} BytesGrow(a: seq<Line>, b: Log)
    requires a <= b
    ensures Bytes(a) <= Bytes(b) && (a != b ==> Bytes(a) < Bytes(b))
  {
    var rest: Log := b[|a|..];
    assert b == a + rest;
    BytesConcat(a, rest);
    BytesAtLeast(rest);
  }

  lemma {:induction false} LineAtExact(log: Log, n: nat)
    requires n <= |log|
    ensures LineAt(log, Bytes(log[..n])) == n
  {
    var k := LineAt(log, Bytes(log[..n]));
    LineAtLargest(log, Bytes(log[..n]), n);
    if k > n {
      var longer: Log := log[..k];
      assert longer[..n] == log[..n];
      BytesGrow(log[..n], longer);
    }
  }

  lemma {:induction false} LineAtLargest(log: seq<Line>, offset: nat, n: nat)
    requires n <= |log| && Bytes(log[..n]) <= offset
    ensures LineAt(log, offset) >= n
    decreases |log|
  {
    assert log[..|log|] == log;
    if Bytes(log) > offset {
      assert log[..|log| - 1][..n] == log[..n];
      LineAtLargest(log[..|log| - 1], offset, n);
    }
  }

  lemma {:induction false} RebuildHolds(d: Db, file: string, full: bool, m: Moments, now: nat)
    requires Growing([], m)
    requires DecideAction(Previous(d, file), full, Bytes(m.seen), m.seenMtime) == Parse(true, 0, 0)
    requires file in d.sessions ==> MetaWithin(d.sessions[file].meta, m.read)
    ensures var s := Sync(d, file, full, m, now);
      && file in s.sessions && s.sessions[file].parserVersion == EDIT_PARSER_VERSION
      && s.sessions[file].lineCount == |m.read| && Holds(s, file, m.read)
      && Others(s.tables, file) == Others(d.tables, file)
  {
    assert m.read[..0] == [];
    LineAtExact(m.read, 0);
    assert m.read[0..] == m.read && m.read[..|m.read|] == m.read;
    var batch := LogBatch(file, 0, m.read);
    AppliedOwn(Others(d.tables, file), batch, file);
    Deleted(d.tables, file);
    BytesGrow(m.sized, m.read);
    hide Applied, RowsOf, Others, LogBatch, LineAt;
  }

  lemma {:induction false} ReadOnHolds(d: Db, file: string, full: bool, m: Moments, now: nat, log: Log)
    requires Growing(log, m) && file in d.sessions && Holds(d, file, log)
    requires DecideAction(Previous(d, file), full, Bytes(m.seen), m.seenMtime)
          == Parse(false, d.sessions[file].byteOffset, d.sessions[file].lineCount)
    ensures var s := Sync(d, file, full, m, now);
      && file in s.sessions && s.sessions[file].parserVersion == EDIT_PARSER_VERSION
      && s.sessions[file].lineCount == |m.read| && Holds(s, file, m.read)
      && Others(s.tables, file) == Others(d.tables, file)
  {
    var row := d.sessions[file];
    var n := row.lineCount;
    assert n <= |m.read|;
    var done, rest: seq<Line> := m.read[..n], m.read[n..];
    assert m.read == done + rest && |done| == n;
    assert row.byteOffset == Bytes(done) && row.meta == MetaOf(0, done)
           && RowsOf(d.tables, file) == Rebuilt(file, done) by {
      PrefixOfPrefix(log, m.read, n);
      hide Bytes, RowsOf, Rebuilt, MetaOf;
    }
    hide *;
    LineAtExact(m.read, n);
    SyncReadsOn(d, file, full, m, now, rest);
    var s := Sync(d, file, full, m, now);
    RowsReadOn(d, s, file, done, rest);
    BytesConcat(done, rest);
    BytesGrow(m.sized, m.read);
    MetaReadOn(done, rest);
    HoldsWhole(s, file, m.read);
  }

  lemma {:induction false} HoldsWhole(s: Db, file: string, log: Log)
    requires file in s.sessions && RowsOf(s.tables, file) == Rebuilt(file, log)
    requires var row := s.sessions[file];
      row.lineCount == |log| && row.byteOffset == Bytes(log) && row.size <= Bytes(log) && row.meta == MetaOf(0, log)
    ensures Holds(s, file, log)
  {
    hide RowsOf, Rebuilt, Bytes, MetaOf, Own;
    assert log[..|log|] == log;
  }

  /** The three parts of what a sync writes when it reads on. */
  lemma {:induction false} SyncReadsOn(d: Db, file: string, full: bool, m: Moments, now: nat, rest: seq<Line>)
    requires file in d.sessions
    requires var row := d.sessions[file];
      && DecideAction(Previous(d, file), full, Bytes(m.seen), m.seenMtime)
          == Parse(false, row.byteOffset, row.lineCount)
      && rest == m.read[LineAt(m.read, row.byteOffset)..]
    ensures var s, row := Sync(d, file, full, m, now), d.sessions[file];
      && s.tables == Applied(d.tables, LogBatch(file, row.lineCount, rest))
      && file in s.sessions
      && s.sessions[file] == SessionRow(MergeMeta(MetaOf(row.lineCount, rest), row.meta), m.sizedMtime, Bytes(m.sized),
                                        row.byteOffset + Bytes(rest), row.lineCount + |rest|, now, EDIT_PARSER_VERSION)
  {
    hide LineAt, Bytes, LogBatch, Applied, DecideAction, MergeMeta, MetaOf;
  }

  lemma {:induction false} RebuiltUnfolds(file: string, log: seq<Line>)
    ensures Rebuilt(file, log) == Applied(NO_TABLES, LogBatch(file, 0, log))
  {
    hide Applied, LogBatch;
  }

  lemma {:induction false} RowsReadOn(d: Db, s: Db, file: string, done: seq<Line>, rest: seq<Line>)
    requires RowsOf(d.tables, file) == Rebuilt(file, done)
    requires s.tables == Applied(d.tables, LogBatch(file, |done|, rest))
    ensures RowsOf(s.tables, file) == Rebuilt(file, done + rest)
    ensures Others(s.tables, file) == Others(d.tables, file)
  {
    hide *;
    RebuiltUnfolds(file, done);
    RebuiltUnfolds(file, done + rest);
    var batch := LogBatch(file, |done|, rest);
    LogBatchConcat(file, 0, done, rest);
    AppliedOwn(d.tables, batch, file);
    AppliedConcat(NO_TABLES, LogBatch(file, 0, done), batch);
  }

  lemma {:induction false} MetaReadOn(done: seq<Line>, rest: seq<Line>)
    ensures MergeMeta(MetaOf(|done|, rest), MetaOf(0, done)) == MetaOf(0, done + rest)
  {
    if done == [] {
      assert done + rest == rest;
    }
  }

  /** A file is skipped only when every line it had is stored already. */
  lemma {:induction false} SkipLosesNothing(d: Db, file: string, full: bool, size: nat, mtime: nat, log: Log, seen: Log)
    requires file in d.sessions && Holds(d, file, log) && log <= seen && size == Bytes(seen)
    requires DecideAction(Previous(d, file), full, size, mtime) == Skip
    ensures d.sessions[file].lineCount == |seen|
  {
    var n := d.sessions[file].lineCount;
    PrefixOfPrefix(log, seen, n);
    BytesGrow(seen[..n], seen);
  }

  /** After a sync the file's rows are those of one rebuild from some point of the log not before the
      sync began and not after it ended, and so is its session row; no other file's rows change. */
  lemma {:induction false} SyncCatchesUp(d: Db, file: string, full: bool, m: Moments, now: nat, log: Log)
    requires Good(d, file, log) && Growing(log, m)
    ensures var s := Sync(d, file, full, m, now);
      && Good(s, file, m.read)
      && file in s.sessions && s.sessions[file].parserVersion == EDIT_PARSER_VERSION && Holds(s, file, m.read)
      && |m.seen| <= s.sessions[file].lineCount <= |m.read|
      && Others(s.tables, file) == Others(d.tables, file)
      && forall f :: f != file ==> Previous(s, f) == Previous(d, f)
  {
    hide MetaOf, Bytes, MetaWithin, Applied, Others, LogBatch, LineAt, RowsOf, Rebuilt;
    var decision := DecideAction(Previous(d, file), full, Bytes(m.seen), m.seenMtime);
    var s := Sync(d, file, full, m, now);
    MetaOfPrefix(log, m.read);
    if decision == Parse(true, 0, 0) {
      RebuildHolds(d, file, full, m, now);
    } else {
      assert Holds(d, file, log);
      if decision == Skip {
        SkipLosesNothing(d, file, full, Bytes(m.seen), m.seenMtime, log, m.seen);
        GrowthKeepsGood(d, file, log, m.read);
      } else {
        ReadOnHolds(d, file, full, m, now, log);
      }
    }
    MetaOfPrefix(m.read[..s.sessions[file].lineCount], m.read);
  }

  // ------------------------------------------------------------ runs

  datatype State = State(db: Db, log: Log)

  /** The log grows, or the file is synced, or something happens that does not concern it. */
  ghost predicate Appends(a: State, b: State) {
    a.log <= b.log && b.db == a.db
  }

  ghost predicate Syncs(a: State, b: State, file: string) {
    exists full: bool, m: Moments, now: nat ::
      Growing(a.log, m) && m.read <= b.log && b.db == Sync(a.db, file, full, m, now)
  }

  ghost predicate Elsewhere(a: State, b: State, file: string) {
    && a.log <= b.log
    && RowsOf(b.db.tables, file) == RowsOf(a.db.tables, file)
    && Previous(b.db, file) == Previous(a.db, file)
  }

  ghost predicate IsRun(run: seq<State>, file: string) {
    forall i :: 0 < i < |run| ==>
      Appends(run[i - 1], run[i]) || Syncs(run[i - 1], run[i], file) || Elsewhere(run[i - 1], run[i], file)
  }

  lemma {:induction false} StepKeepsGood(a: State, b: State, file: string)
    requires Good(a.db, file, a.log)
    requires Appends(a, b) || Syncs(a, b, file) || Elsewhere(a, b, file)
    ensures Good(b.db, file, b.log)
  {
    if Syncs(a, b, file) {
      var full: bool, m: Moments, now: nat :|
        Growing(a.log, m) && m.read <= b.log && b.db == Sync(a.db, file, full, m, now);
      SyncCatchesUp(a.db, file, full, m, now, a.log);
      GrowthKeepsGood(b.db, file, m.read, b.log);
    } else {
      GrowthKeepsGood(a.db, file, a.log, b.log);
      ElsewhereKeepsGood(a.db, b.db, file, b.log);
    }
    hide Good, Sync;
  }

  lemma {:induction false} ElsewhereKeepsGood(a: Db, b: Db, file: string, log: Log)
    requires Good(a, file, log)
    requires RowsOf(b.tables, file) == RowsOf(a.tables, file) && Previous(b, file) == Previous(a, file)
    ensures Good(b, file, log)
  {
    hide RowsOf, Rebuilt, MetaOf, Bytes, MetaWithin;
  }

  lemma {:induction false} RunKeepsGood(run: seq<State>, file: string, k: nat)
    requires k < |run| && IsRun(run, file) && Good(run[0].db, file, run[0].log)
    ensures Good(run[k].db, file, run[k].log)
    ensures run[0].log <= run[k].log
  {
    hide Good;
    if k > 0 {
      RunKeepsGood(run, file, k - 1);
      StepKeepsGood(run[k - 1], run[k], file);
    }
  }

  /** A sync of a log that stands still stores all of it. */
  lemma {:induction false} StillSyncStoresAll(d: Db, file: string, full: bool, log: Log, mtime: nat, now: nat)
    requires Good(d, file, log)
    ensures var s := Sync(d, file, full, Still(log, mtime), now);
      && file in s.sessions
      && RowsOf(s.tables, file) == Rebuilt(file, log)
      && s.sessions[file].lineCount == |log|
      && s.sessions[file].byteOffset == Bytes(log)
      && s.sessions[file].meta == MetaOf(0, log)
  {
    hide Good, Sync, Rebuilt, RowsOf, MetaOf, Bytes, Others;
    SyncCatchesUp(d, file, full, Still(log, mtime), now, log);
    assert log[..|log|] == log;
  }

  /** Incremental equals full: after any sequence of appends and syncs, from any good state, one more
      sync of the log as it stands leaves exactly the rows, and the session's lines, offset and header,
      that one full rebuild of that log leaves in any database new to the file. */
  lemma {:induction false} IncrementalEqualsFull(run: seq<State>, file: string, full: bool, mtime: nat, now: nat,
                              other: Db, otherMtime: nat, otherNow: nat)
    requires run != [] && IsRun(run, file) && Good(run[0].db, file, run[0].log)
    requires file !in other.sessions
    ensures var log := run[|run| - 1].log;
      var s := Sync(run[|run| - 1].db, file, full, Still(log, mtime), now);
      var r := Sync(other, file, true, Still(log, otherMtime), otherNow);
      && file in s.sessions && file in r.sessions
      && RowsOf(s.tables, file) == RowsOf(r.tables, file) == Rebuilt(file, log)
      && s.sessions[file].lineCount == r.sessions[file].lineCount == |log|
      && s.sessions[file].byteOffset == r.sessions[file].byteOffset == Bytes(log)
      && s.sessions[file].meta == r.sessions[file].meta == MetaOf(0, log)
  {
    var last := run[|run| - 1];
    RunKeepsGood(run, file, |run| - 1);
    StillSyncStoresAll(last.db, file, full, last.log, mtime, now);
    assert Good(other, file, last.log);
    StillSyncStoresAll(other, file, true, last.log, otherMtime, otherNow);
    hide *;
  }

  /** And at any time in a run the file's rows are those of a rebuild from the first lines of the log,
      as many as its session row says. */
  lemma {:induction false} RowsAreAlwaysARebuild(run: seq<State>, file: string, k: nat)
    requires k < |run| && IsRun(run, file) && file !in run[0].db.sessions
    ensures var d, log := run[k].db, run[k].log;
      file in d.sessions && d.sessions[file].parserVersion == EDIT_PARSER_VERSION ==>
        && d.sessions[file].lineCount <= |log|
        && RowsOf(d.tables, file) == Rebuilt(file, log[..d.sessions[file].lineCount])
  {
    RunKeepsGood(run, file, k);
  }
}
