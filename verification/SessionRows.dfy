/** What the session tables hold of a log, row by row and column by column: read off the log alone, and
    what every sync leaves in the tables. */
module SessionRows {
  import opened Options
  import opened SessionLog
  import opened SessionTables
  import opened LogSync

  // ------------------------------------------------------------ places in a log

  ghost predicate IsMessage(log: seq<Line>, i: nat) {
    i < |log| && log[i].event.User? && log[i].event.text != ""
  }

  ghost predicate IsResult(log: seq<Line>, i: nat) {
    i < |log| && log[i].event.ToolResult?
  }

  ghost predicate IsAnswer(log: seq<Line>, i: nat) {
    i < |log| && log[i].event.Assistant?
  }

  /** Item `j` of line `i` is the tool call `item`. */
  ghost predicate IsCall(log: seq<Line>, i: nat, j: nat, item: Item) {
    IsAnswer(log, i) && j < |log[i].event.content| && log[i].event.content[j] == item && item.ToolCall?
  }

  ghost predicate IsEdit(log: seq<Line>, i: nat, j: nat, item: Item) {
    IsCall(log, i, j, item) && item.name == "edit"
  }

  ghost predicate IsEditResult(log: seq<Line>, i: nat) {
    IsResult(log, i) && log[i].event.name == "edit"
  }

  ghost predicate Before(i: nat, j: nat, ii: nat, jj: nat) {
    i < ii || (i == ii && j < jj)
  }

  /** No later call of the same line has the same id. */
  ghost predicate LastCall(log: seq<Line>, i: nat, j: nat, item: Item) {
    && IsCall(log, i, j, item)
    && forall jj: nat, other :: j < jj && IsCall(log, i, jj, other) ==> other.id != item.id
  }

  /** No later edit, in any line, has the same id. */
  ghost predicate LastEdit(log: seq<Line>, i: nat, j: nat, item: Item) {
    && IsEdit(log, i, j, item)
    && forall ii: nat, jj: nat, other :: Before(i, j, ii, jj) && IsEdit(log, ii, jj, other) ==> other.id != item.id
  }

  /** No later result of an edit has the same id. */
  ghost predicate LastEditResult(log: seq<Line>, i: nat) {
    && IsEditResult(log, i)
    && forall ii: nat :: i < ii && IsEditResult(log, ii) ==> log[ii].event.callId != log[i].event.callId
  }

  ghost predicate IsSection(log: seq<Line>, i: nat, j: nat, item: Item, n: nat) {
    IsEdit(log, i, j, item) && n < |item.sections|
  }

  /** No later edit with the same id has as many sections. */
  ghost predicate LastSection(log: seq<Line>, i: nat, j: nat, item: Item, n: nat) {
    && IsSection(log, i, j, item, n)
    && forall ii: nat, jj: nat, other ::
         Before(i, j, ii, jj) && IsSection(log, ii, jj, other, n) ==> other.id != item.id
  }

  // ------------------------------------------------------------ the texts of an answer

  ghost predicate IsPart(content: seq<Item>, thinking: bool, j: nat) {
    && j < |content|
    && (if thinking then content[j].Thinking? && content[j].text != ""
        else content[j].Prose? && content[j].text != "")
  }

  /** The places of all parts of one kind, in order. */
  ghost predicate Picks(content: seq<Item>, thinking: bool, picked: seq<nat>) {
    && (forall k :: 0 <= k < |picked| ==> IsPart(content, thinking, picked[k]))
    && (forall k, l :: 0 <= k < l < |picked| ==> picked[k] < picked[l])
    && (forall j: nat :: IsPart(content, thinking, j) ==> j in picked)
  }

  ghost predicate PartAt(text: string, part: string, start: nat) {
    start + |part| <= |text| && text[start..start + |part|] == part
  }

  /** `text` is the parts one after the other, part `k` at `starts[k]`, with one line end between two. */
  ghost predicate JoinedAt(text: string, parts: seq<string>, starts: seq<nat>) {
    && |starts| == |parts| > 0
    && starts[0] == 0 && starts[|parts| - 1] + |parts[|parts| - 1]| == |text|
    && (forall k :: 0 <= k < |parts| ==> PartAt(text, parts[k], starts[k]))
    && (forall k :: 0 < k < |parts| ==>
         starts[k] == starts[k - 1] + |parts[k - 1]| + 1 && PartAt(text, "\n", starts[k] - 1))
  }

  ghost predicate IsJoinOf(text: string, content: seq<Item>, thinking: bool) {
    exists picked: seq<nat>, starts: seq<nat> ::
      Picks(content, thinking, picked) && JoinedAt(text, PartsAt(content, thinking, picked), starts)
  }

  ghost function PartsAt(content: seq<Item>, thinking: bool, picked: seq<nat>): seq<string> {
    seq(|picked|, k requires 0 <= k < |picked| =>
      if IsPart(content, thinking, picked[k]) then content[picked[k]].text else "")
  }

  /** All non-empty parts of one kind, joined by line ends; nothing if there are none. */
  ghost predicate IsBlob(blob: Option<string>, content: seq<Item>, thinking: bool) {
    && (blob == None <==> forall j: nat :: !IsPart(content, thinking, j))
    && (blob.Some? ==> IsJoinOf(blob.value, content, thinking))
  }

  // ------------------------------------------------------------ what the tables say

  ghost predicate UsersSay(t: map<Key, UserRow>, file: string, log: seq<Line>) {
    && (forall i: nat :: IsMessage(log, i) ==>
         var k, e := MessageKey(file, i), log[i].event;
         k in t && t[k] == UserRow(e.entryId, e.timestamp, e.text))
    && (forall k :: k in t && k.file == file ==> k.MessageKey? && IsMessage(log, k.seqNo))
  }

  ghost predicate ResultsSay(t: map<Key, ResultRow>, file: string, log: seq<Line>) {
    && (forall i: nat :: IsResult(log, i) ==>
         var e := log[i].event;
         var k := CallKey(file, e.callId, i);
         k in t && t[k] == ResultRow(e.entryId, if e.name == "" then "<unknown>" else e.name, e.name, e.timestamp,
                                     e.text, e.isError))
    && (forall k :: k in t && k.file == file ==>
         k.CallKey? && IsResult(log, k.seqNo) && log[k.seqNo].event.callId == k.callId)
  }

  ghost predicate CallsSay(t: map<Key, CallRow>, file: string, log: seq<Line>) {
    && (forall i: nat, j: nat, item :: IsCall(log, i, j, item) ==> CallKey(file, item.id, i) in t)
    && (forall i: nat, j: nat, item :: LastCall(log, i, j, item) ==>
         var k, e := CallKey(file, item.id, i), log[i].event;
         t[k] == CallRow(e.entryId, if item.name == "" then "<unknown>" else item.name, item.name,
                         e.timestamp, e.model, e.provider, item.argJson))
    && (forall k :: k in t && k.file == file ==>
         k.CallKey? && exists j: nat, item :: IsCall(log, k.seqNo, j, item) && item.id == k.callId)
  }

  ghost predicate AssistantSays(t: map<Key, AssistantRow>, file: string, log: seq<Line>) {
    && (forall i: nat, j: nat, thinking :: IsAnswer(log, i) && IsPart(log[i].event.content, thinking, j) ==>
         MessageKey(file, i) in t)
    && (forall k :: k in t && k.file == file ==>
         && k.MessageKey? && IsAnswer(log, k.seqNo)
         && var e := log[k.seqNo].event;
           && (exists j: nat, thinking :: IsPart(e.content, thinking, j))
           && t[k].entryId == e.entryId && t[k].timestamp == e.timestamp
           && t[k].model == e.model && t[k].provider == e.provider
           && IsBlob(t[k].text, e.content, false) && IsBlob(t[k].thinking, e.content, true))
  }

  /** The half of an edit's row that its last call fills. */
  ghost predicate EditCallsSay(t: map<Key, EditRow>, file: string, log: seq<Line>) {
    && (forall i: nat, j: nat, item :: IsEdit(log, i, j, item) ==> EditKey(file, item.id) in t)
    && (forall i: nat, j: nat, item :: LastEdit(log, i, j, item) ==>
         t[EditKey(file, item.id)].stub == Stub(i, log[i].event.timestamp, item.inputLength))
  }

  /** The half that its last result fills: the warnings of a successful result alone. */
  ghost predicate EditResultsSay(t: map<Key, EditRow>, file: string, log: seq<Line>) {
    && (forall i: nat :: IsEditResult(log, i) ==> EditKey(file, log[i].event.callId) in t)
    && (forall i: nat :: LastEditResult(log, i) ==>
         var e := log[i].event;
         var row := t[EditKey(file, e.callId)];
         row.success == Some(e.successful) && row.warnings == if e.successful then e.warnings else [])
  }

  /** No other rows, and nothing in a half that has no call or no result. */
  ghost predicate EditKeysSay(t: map<Key, EditRow>, file: string, log: seq<Line>) {
    forall k :: k in t && k.file == file ==>
      && k.EditKey? && t[k].parserVersion == EDIT_PARSER_VERSION
      && (HasEdit(log, k.callId) || HasEditResult(log, k.callId))
      && (HasEdit(log, k.callId) || t[k].stub == Stub(0, 0, 0))
      && (HasEditResult(log, k.callId) || (t[k].success == None && t[k].warnings == []))
  }

  ghost predicate EditsSay(t: map<Key, EditRow>, file: string, log: seq<Line>) {
    EditCallsSay(t, file, log) && EditResultsSay(t, file, log) && EditKeysSay(t, file, log)
  }

  ghost predicate HasEdit(log: seq<Line>, id: string) {
    exists i: nat, j: nat, item :: IsEdit(log, i, j, item) && item.id == id
  }

  ghost predicate HasEditResult(log: seq<Line>, id: string) {
    exists i: nat :: IsEditResult(log, i) && log[i].event.callId == id
  }

  ghost predicate SectionsSay(t: map<Key, SectionRow>, file: string, log: seq<Line>) {
    && (forall i: nat, j: nat, item, n: nat :: IsSection(log, i, j, item, n) ==> SectionKey(file, item.id, n) in t)
    && (forall i: nat, j: nat, item, n: nat :: LastSection(log, i, j, item, n) ==>
         t[SectionKey(file, item.id, n)] == SectionRow(i, item.sections[n]))
    && (forall k :: k in t && k.file == file ==>
         && k.SectionKey?
         && exists i: nat, j: nat, item :: IsSection(log, i, j, item, k.index) && item.id == k.callId)
  }

  /** The rows of `file` are what the lines of `log` say, and no more. */
  ghost predicate Say(t: Tables, file: string, log: seq<Line>) {
    && CallsSay(t.calls, file, log) && ResultsSay(t.results, file, log) && AssistantSays(t.assistant, file, log)
    && UsersSay(t.users, file, log) && EditsSay(t.edits, file, log) && SectionsSay(t.sections, file, log)
  }

  // ------------------------------------------------------------ one more line, one more item

  lemma {:induction false} PutOne<V>(t: map<Key, V>, k: Key, v: V)
    ensures Put(t, []) == t
    ensures Put(t, [(k, v)]) == t[k := v]
  {
    assert [(k, v)][..0] == [];
  }

  lemma {:induction false} MergeOne(t: map<Key, EditRow>, k: Key, s: Stub, o: Outcome)
    ensures MergeStubs(t, []) == t && MergeOutcomes(t, []) == t
    ensures MergeStubs(t, [(k, s)]) == MergeStub(t, k, s)
    ensures MergeOutcomes(t, [(k, o)]) == MergeOutcome(t, k, o)
  {
    assert [(k, s)][..0] == [] && [(k, o)][..0] == [];
  }

  lemma {:induction false} EmptyRebuilt(file: string)
    ensures Rebuilt(file, []) == NO_TABLES
  {
  }

  lemma {:induction false} LineRebuilt(file: string, log: seq<Line>, line: Line)
    ensures Rebuilt(file, log + [line]) == Applied(Rebuilt(file, log), LineBatch(file, |log|, line.event))
  {
    hide *;
    var batch := LogBatch(file, 0, log);
    RebuiltUnfolds(file, log);
    RebuiltUnfolds(file, log + [line]);
    LogBatchLine(file, log, line);
    AppliedConcat(NO_TABLES, batch, LineBatch(file, |log|, line.event));
  }

  lemma {:induction false} LogBatchLine(file: string, log: seq<Line>, line: Line)
    ensures LogBatch(file, 0, log + [line]) == LogBatch(file, 0, log).Plus(LineBatch(file, |log|, line.event))
  {
    hide LineBatch;
    assert (log + [line])[..|log|] == log;
  }

  /** A line that is no answer adds one row at most to each table. */
  lemma {:induction false} PlainLine(file: string, log: seq<Line>, line: Line)
    requires !line.event.Assistant?
    ensures var t, u, e, n := Rebuilt(file, log), Rebuilt(file, log + [line]), line.event, |log|;
      && u.calls == t.calls && u.sections == t.sections && u.assistant == t.assistant
      && u.users == (if e.User? && e.text != ""
                     then t.users[MessageKey(file, n) := UserRow(e.entryId, e.timestamp, e.text)] else t.users)
      && u.results == (if e.ToolResult?
                       then t.results[CallKey(file, e.callId, n) :=
                         ResultRow(e.entryId, if e.name == "" then "<unknown>" else e.name, e.name, e.timestamp,
                                   e.text, e.isError)]
                       else t.results)
      && u.edits == (if e.ToolResult? && e.name == "edit"
                     then MergeOutcome(t.edits, EditKey(file, e.callId),
                                       Outcome(e.successful, if e.successful then e.warnings else []))
                     else t.edits)
  {
    LineRebuilt(file, log, line);
    hide Rebuilt, Put, MergeStubs, MergeOutcomes, MergeOutcome;
    var t, e, n := Rebuilt(file, log), line.event, |log|;
    var b := LineBatch(file, n, e);
    MergeOne(t.edits, EditKey(file, ""), Stub(0, 0, 0), Outcome(true, []));
    PutOne(t.calls, CallKey(file, "", n), CallRow("", "", "", 0, "", "", ""));
    PutOne(t.sections, SectionKey(file, "", n), SectionRow(n, Section("", "")));
    PutOne(t.assistant, MessageKey(file, n), AssistantRow("", 0, "", "", None, None));
    if e.User? {
      PutOne(t.users, MessageKey(file, n), UserRow(e.entryId, e.timestamp, e.text));
    } else {
      PutOne(t.users, MessageKey(file, n), UserRow("", 0, ""));
    }
    if e.ToolResult? {
      PutOne(t.results, CallKey(file, e.callId, n),
             ResultRow(e.entryId, ToolName(e.name), e.name, e.timestamp, e.text, e.isError));
      MergeOne(t.edits, EditKey(file, e.callId), Stub(0, 0, 0),
               Outcome(e.successful, if e.successful then e.warnings else []));
    } else {
      PutOne(t.results, CallKey(file, "", n), ResultRow("", "", "", 0, "", false));
    }
  }

  /** An answer without its last item. */
  ghost function Cut(line: Line): Line
    requires line.event.Assistant? && line.event.content != []
  {
    line.(event := line.event.(content := line.event.content[..|line.event.content| - 1]))
  }

  lemma {:induction false} ItemsAlike(file: string, n: nat, e: Event, f: Event, items: seq<Item>)
    requires e.Assistant? && f.Assistant? && f == e.(content := f.content)
    ensures ItemsBatch(file, n, f, items) == ItemsBatch(file, n, e, items)
  {
    if items != [] {
      ItemsAlike(file, n, e, f, items[..|items| - 1]);
    }
  }

  lemma {:induction false} AnswerBatch(file: string, n: nat, e: Event)
    requires e.Assistant?
    ensures var b, items := LineBatch(file, n, e), ItemsBatch(file, n, e, e.content);
      && b.calls == items.calls && b.stubs == items.stubs && b.sections == items.sections
      && b.results == items.results && b.users == items.users && b.outcomes == items.outcomes
  {
    hide ItemsBatch, TextsOf, Blob;
  }

  lemma {:induction false} ItemsPlain(file: string, n: nat, e: Event, items: seq<Item>)
    requires e.Assistant?
    ensures var b := ItemsBatch(file, n, e, items);
      b.results == [] && b.users == [] && b.outcomes == [] && b.assistant == []
  {
    hide SectionRows;
    if items != [] {
      ItemsPlain(file, n, e, items[..|items| - 1]);
    }
  }

  lemma {:induction false} CutBatch(file: string, n: nat, line: Line)
    requires line.event.Assistant? && line.event.content != []
    ensures var a, b := LineBatch(file, n, Cut(line).event), LineBatch(file, n, line.event);
      var e, item := line.event, line.event.content[|line.event.content| - 1];
      && a.outcomes == b.outcomes == []
      && b.calls == a.calls + (if item.ToolCall?
                               then [(CallKey(file, item.id, n),
                                      CallRow(e.entryId, if item.name == "" then "<unknown>" else item.name, item.name,
                                              e.timestamp, e.model, e.provider, item.argJson))]
                               else [])
      && b.stubs == a.stubs + (if item.ToolCall? && item.name == "edit"
                               then [(EditKey(file, item.id), Stub(n, e.timestamp, item.inputLength))] else [])
      && b.sections == a.sections + (if item.ToolCall? && item.name == "edit"
                                     then SectionRows(file, n, item.id, item.sections) else [])
  {
    hide LineBatch, ItemsBatch, TextsOf, SectionRows;
    var e, m := line.event, |line.event.content|;
    AnswerBatch(file, n, e);
    AnswerBatch(file, n, Cut(line).event);
    assert e.content[..m] == e.content;
    ItemsStep(file, n, e, m - 1);
    ItemsAlike(file, n, e, Cut(line).event, e.content[..m - 1]);
    ItemsPlain(file, n, e, e.content);
    ItemsPlain(file, n, e, e.content[..m - 1]);
  }

  lemma {:induction false} AppliedParts(file: string, log: seq<Line>, line: Line)
    ensures var t, u, b := Rebuilt(file, log), Rebuilt(file, log + [line]), LineBatch(file, |log|, line.event);
      && u.calls == Put(t.calls, b.calls) && u.results == Put(t.results, b.results)
      && u.assistant == Put(t.assistant, b.assistant) && u.users == Put(t.users, b.users)
      && u.edits == MergeOutcomes(MergeStubs(t.edits, b.stubs), b.outcomes)
      && u.sections == Put(t.sections, b.sections)
  {
    LineRebuilt(file, log, line);
    hide LineBatch, Rebuilt, Put, MergeStubs, MergeOutcomes;
  }

  /** One more item of an answer: a call sets its own row, and an edit its sections and its half of the
      edit's row. */
  lemma {:induction false} AnswerItem(file: string, log: seq<Line>, line: Line)
    requires line.event.Assistant? && line.event.content != []
    ensures var t, u, n := Rebuilt(file, log + [Cut(line)]), Rebuilt(file, log + [line]), |log|;
      var e, item := line.event, line.event.content[|line.event.content| - 1];
      && u.calls == (if item.ToolCall?
                     then t.calls[CallKey(file, item.id, n) :=
                       CallRow(e.entryId, if item.name == "" then "<unknown>" else item.name, item.name,
                               e.timestamp, e.model, e.provider, item.argJson)]
                     else t.calls)
      && u.edits == (if item.ToolCall? && item.name == "edit"
                     then MergeStub(t.edits, EditKey(file, item.id), Stub(n, e.timestamp, item.inputLength))
                     else t.edits)
      && u.sections == (if item.ToolCall? && item.name == "edit"
                        then Put(t.sections, SectionRows(file, n, item.id, item.sections)) else t.sections)
  {
    hide Cut, LineBatch, Rebuilt, Put, MergeStubs, MergeOutcomes, MergeStub, MergeOutcome, SectionRows;
    var e, item, n := line.event, line.event.content[|line.event.content| - 1], |log|;
    var s := Rebuilt(file, log);
    var a, b := LineBatch(file, n, Cut(line).event), LineBatch(file, n, e);
    CutBatch(file, n, line);
    AppliedParts(file, log, line);
    AppliedParts(file, log, Cut(line));
    var called := MergeStubs(s.edits, a.stubs);
    MergeOne(called, EditKey(file, ""), Stub(0, 0, 0), Outcome(true, []));
    MergeOne(MergeStubs(s.edits, b.stubs), EditKey(file, ""), Stub(0, 0, 0), Outcome(true, []));
    if !item.ToolCall? {
      assert b.calls == a.calls;
    } else {
      PutConcat(s.calls, a.calls, [b.calls[|a.calls|]]);
      PutOne(Put(s.calls, a.calls), CallKey(file, item.id, n),
             CallRow(e.entryId, if item.name == "" then "<unknown>" else item.name, item.name,
                     e.timestamp, e.model, e.provider, item.argJson));
      if item.name == "edit" {
        MergeStubsConcat(s.edits, a.stubs, [b.stubs[|a.stubs|]]);
        MergeOne(called, EditKey(file, item.id), Stub(n, e.timestamp, item.inputLength), Outcome(true, []));
        PutConcat(s.sections, a.sections, SectionRows(file, n, item.id, item.sections));
      }
    }
    if !(item.ToolCall? && item.name == "edit") {
      assert b.stubs == a.stubs && b.sections == a.sections;
    }
  }

  /** An answer before its first item. */
  lemma {:induction false} AnswerStart(file: string, log: seq<Line>, line: Line)
    requires line.event.Assistant? && line.event.content == []
    ensures Rebuilt(file, log + [line]) == Rebuilt(file, log)
  {
    LineRebuilt(file, log, line);
    hide Rebuilt;
  }

  /** A whole answer: no row of a message or a result, and one of its own if it has any text. */
  lemma {:induction false} AnswerRow(file: string, log: seq<Line>, line: Line)
    requires line.event.Assistant?
    ensures var t, u, n, e := Rebuilt(file, log), Rebuilt(file, log + [line]), |log|, line.event;
      var text, thinking := Blob(TextsOf(e.content, false)), Blob(TextsOf(e.content, true));
      && u.users == t.users && u.results == t.results
      && u.assistant == (if text == None && thinking == None then t.assistant
                         else t.assistant[MessageKey(file, n) :=
                           AssistantRow(e.entryId, e.timestamp, e.model, e.provider, text, thinking)])
  {
    hide LineBatch, Rebuilt, Put, MergeStubs, MergeOutcomes, ItemsBatch, TextsOf, Blob;
    var t, n, e := Rebuilt(file, log), |log|, line.event;
    var text, thinking := Blob(TextsOf(e.content, false)), Blob(TextsOf(e.content, true));
    AppliedParts(file, log, line);
    AssistantLine(file, n, e);
    ItemsPlain(file, n, e, e.content);
    var row := (MessageKey(file, n), AssistantRow(e.entryId, e.timestamp, e.model, e.provider, text, thinking));
    assert [] + [row] == [row];
    PutOne(t.users, MessageKey(file, n), UserRow("", 0, ""));
    PutOne(t.results, CallKey(file, "", n), ResultRow("", "", "", 0, "", false));
    PutOne(t.assistant, row.0, row.1);
  }

  /** The sections of one edit, put in their places. */
  lemma {:induction false} SectionsPut(t: map<Key, SectionRow>, file: string, n: nat, id: string,
                                       sections: seq<Section>, m: nat, k: Key)
    requires m <= |sections|
    ensures var u := Put(t, SectionRows(file, n, id, sections)[..m]);
      var its := k.SectionKey? && k.file == file && k.callId == id && k.index < m;
      && (k in u <==> its || k in t)
      && (k in u ==> u[k] == if its then SectionRow(n, sections[k.index]) else t[k])
  {
    var rows := SectionRows(file, n, id, sections);
    if m > 0 {
      SectionsPut(t, file, n, id, sections, m - 1, k);
      assert rows[..m][..m - 1] == rows[..m - 1];
    }
  }

  // ------------------------------------------------------------ what a line or an item adds

  ghost predicate SameColumns(log: seq<Line>, more: seq<Line>) {
    forall i: nat, j: nat, item :: IsCall(log, i, j, item) ==>
      IsAnswer(more, i) && more[i].event == log[i].event.(content := more[i].event.content)
  }

  ghost predicate SameCalls(log: seq<Line>, more: seq<Line>) {
    && SameColumns(log, more)
    && forall i: nat, j: nat, item :: IsCall(more, i, j, item) <==> IsCall(log, i, j, item)
  }

  /** `more` has the call `item` at its end, and all calls of `log`. */
  ghost predicate OneCall(log: seq<Line>, more: seq<Line>, i: nat, j: nat, item: Item) {
    && SameColumns(log, more) && IsCall(more, i, j, item)
    && (forall ii: nat, jj: nat, it ::
         IsCall(more, ii, jj, it) <==> IsCall(log, ii, jj, it) || (ii == i && jj == j && it == item))
    && (forall ii: nat, jj: nat, it :: IsCall(log, ii, jj, it) ==> Before(ii, jj, i, j))
  }

  ghost predicate SameEdits(log: seq<Line>, more: seq<Line>) {
    && SameColumns(log, more)
    && forall i: nat, j: nat, item :: IsEdit(more, i, j, item) <==> IsEdit(log, i, j, item)
  }

  ghost predicate OneEdit(log: seq<Line>, more: seq<Line>, i: nat, j: nat, item: Item) {
    && SameColumns(log, more) && IsEdit(more, i, j, item)
    && (forall ii: nat, jj: nat, it ::
         IsEdit(more, ii, jj, it) <==> IsEdit(log, ii, jj, it) || (ii == i && jj == j && it == item))
    && (forall ii: nat, jj: nat, it :: IsEdit(log, ii, jj, it) ==> Before(ii, jj, i, j))
  }

  ghost predicate SameResults(log: seq<Line>, more: seq<Line>) {
    forall i: nat :: (IsEditResult(more, i) <==> IsEditResult(log, i)) && (IsEditResult(log, i) ==> more[i] == log[i])
  }

  ghost predicate OneResult(log: seq<Line>, more: seq<Line>, i: nat) {
    && IsEditResult(more, i)
    && (forall ii: nat :: IsEditResult(more, ii) <==> IsEditResult(log, ii) || ii == i)
    && (forall ii: nat :: IsEditResult(log, ii) ==> ii < i && more[ii] == log[ii])
  }

  lemma {:induction false} CallsKept(t: map<Key, CallRow>, file: string, log: seq<Line>, more: seq<Line>)
    requires CallsSay(t, file, log) && SameCalls(log, more)
    ensures CallsSay(t, file, more)
  {
    forall i: nat, j: nat, item | LastCall(more, i, j, item)
      ensures LastCall(log, i, j, item) && more[i].event == log[i].event.(content := more[i].event.content)
    {
      assert IsCall(log, i, j, item);
    }
  }

  lemma {:induction false} CallAdded(t: map<Key, CallRow>, file: string, log: seq<Line>, more: seq<Line>,
                                     i: nat, j: nat, item: Item)
    requires CallsSay(t, file, log) && OneCall(log, more, i, j, item)
    ensures var e := more[i].event;
      CallsSay(t[CallKey(file, item.id, i) :=
                 CallRow(e.entryId, if item.name == "" then "<unknown>" else item.name, item.name, e.timestamp,
                         e.model, e.provider, item.argJson)], file, more)
  {
    forall ii: nat, jj: nat, it | LastCall(more, ii, jj, it) && !(ii == i && jj == j)
      ensures LastCall(log, ii, jj, it) && (ii == i ==> it.id != item.id)
      ensures more[ii].event == log[ii].event.(content := more[ii].event.content)
    {
      assert IsCall(log, ii, jj, it);
    }
  }

  lemma {:induction false} EditCallsKept(t: map<Key, EditRow>, u: map<Key, EditRow>, file: string,
                                         log: seq<Line>, more: seq<Line>)
    requires EditCallsSay(t, file, log) && SameEdits(log, more)
    requires forall k :: k in t ==> k in u && u[k].stub == t[k].stub
    ensures EditCallsSay(u, file, more)
  {
    forall i: nat, j: nat, item | LastEdit(more, i, j, item)
      ensures LastEdit(log, i, j, item) && more[i].event == log[i].event.(content := more[i].event.content)
    {
      assert IsEdit(log, i, j, item);
    }
  }

  lemma {:induction false} EditCallAdded(t: map<Key, EditRow>, file: string, log: seq<Line>, more: seq<Line>,
                                         i: nat, j: nat, item: Item)
    requires EditCallsSay(t, file, log) && OneEdit(log, more, i, j, item)
    ensures EditCallsSay(MergeStub(t, EditKey(file, item.id), Stub(i, more[i].event.timestamp, item.inputLength)),
                         file, more)
  {
    forall ii: nat, jj: nat, it | LastEdit(more, ii, jj, it) && !(ii == i && jj == j)
      ensures LastEdit(log, ii, jj, it) && it.id != item.id
      ensures more[ii].event == log[ii].event.(content := more[ii].event.content)
    {
      assert IsEdit(log, ii, jj, it);
    }
  }

  lemma {:induction false} EditResultsKept(t: map<Key, EditRow>, u: map<Key, EditRow>, file: string,
                                           log: seq<Line>, more: seq<Line>)
    requires EditResultsSay(t, file, log) && SameResults(log, more)
    requires forall k :: k in t ==> k in u && u[k].success == t[k].success && u[k].warnings == t[k].warnings
    ensures EditResultsSay(u, file, more)
  {
    forall i: nat | LastEditResult(more, i)
      ensures LastEditResult(log, i)
    {
      assert IsEditResult(log, i);
    }
  }

  lemma {:induction false} EditResultAdded(t: map<Key, EditRow>, file: string, log: seq<Line>, more: seq<Line>, i: nat)
    requires EditResultsSay(t, file, log) && OneResult(log, more, i)
    ensures var e := more[i].event;
      EditResultsSay(MergeOutcome(t, EditKey(file, e.callId),
                                  Outcome(e.successful, if e.successful then e.warnings else [])), file, more)
  {
    forall ii: nat | LastEditResult(more, ii) && ii != i
      ensures LastEditResult(log, ii) && more[ii].event.callId != more[i].event.callId
    {
      assert IsEditResult(log, ii);
    }
  }

  /** Rows with an older key keep an older reason; one new key has a new one. */
  lemma {:induction false} EditKeysGrow(t: map<Key, EditRow>, u: map<Key, EditRow>, file: string,
                                        log: seq<Line>, more: seq<Line>, id: string)
    requires EditKeysSay(t, file, log)
    requires forall other :: HasEdit(log, other) ==> HasEdit(more, other)
    requires forall other :: HasEditResult(log, other) ==> HasEditResult(more, other)
    requires forall k :: k in u ==> k == EditKey(file, id) || (k in t && u[k] == t[k])
    requires EditKey(file, id) in u ==>
      var k := EditKey(file, id);
      && u[k].parserVersion == EDIT_PARSER_VERSION && (HasEdit(more, id) || HasEditResult(more, id))
      && (HasEdit(more, id) || u[k].stub == Stub(0, 0, 0))
      && (HasEditResult(more, id) || (u[k].success == None && u[k].warnings == []))
    ensures EditKeysSay(u, file, more)
  {
    hide HasEdit, HasEditResult;
  }

  lemma {:induction false} HasEditGrows(log: seq<Line>, more: seq<Line>)
    requires forall i: nat, j: nat, item :: IsEdit(log, i, j, item) ==> IsEdit(more, i, j, item)
    ensures forall id :: HasEdit(log, id) ==> HasEdit(more, id)
  {
    forall id | HasEdit(log, id)
      ensures HasEdit(more, id)
    {
      var i: nat, j: nat, item :| IsEdit(log, i, j, item) && item.id == id;
      assert IsEdit(more, i, j, item);
    }
  }

  lemma {:induction false} HasResultGrows(log: seq<Line>, more: seq<Line>)
    requires forall i: nat :: IsEditResult(log, i) ==> IsEditResult(more, i) && more[i] == log[i]
    ensures forall id :: HasEditResult(log, id) ==> HasEditResult(more, id)
  {
    forall id | HasEditResult(log, id)
      ensures HasEditResult(more, id)
    {
      var i: nat :| IsEditResult(log, i) && log[i].event.callId == id;
      assert IsEditResult(more, i);
    }
  }

  lemma {:induction false} SectionsKept(t: map<Key, SectionRow>, file: string, log: seq<Line>, more: seq<Line>)
    requires SectionsSay(t, file, log) && SameEdits(log, more)
    ensures SectionsSay(t, file, more)
  {
    SectionsAlike(log, more);
    forall i: nat, j: nat, item, n: nat | LastSection(more, i, j, item, n)
      ensures LastSection(log, i, j, item, n)
    {
    }
    hide IsSection;
  }

  lemma {:induction false} SectionsAlike(log: seq<Line>, more: seq<Line>)
    requires SameEdits(log, more)
    ensures forall i: nat, j: nat, item, n: nat :: IsSection(more, i, j, item, n) <==> IsSection(log, i, j, item, n)
  {
  }

  lemma {:induction false} SectionsGrow(log: seq<Line>, more: seq<Line>, i: nat, j: nat, item: Item)
    requires OneEdit(log, more, i, j, item)
    ensures more[i].event.Assistant? && item.ToolCall?
    ensures forall ii: nat, jj: nat, it, n: nat :: IsSection(more, ii, jj, it, n) ==> it.ToolCall? && n < |it.sections|
    ensures forall ii: nat, jj: nat, it, n: nat :: IsSection(log, ii, jj, it, n) ==>
      IsSection(more, ii, jj, it, n) && Before(ii, jj, i, j)
    ensures forall ii: nat, jj: nat, it, n: nat :: IsSection(more, ii, jj, it, n) ==>
      IsSection(log, ii, jj, it, n) || (ii == i && jj == j && it == item)
    ensures item.ToolCall? && forall n: nat :: n < |item.sections| ==> IsSection(more, i, j, item, n)
  {
  }

  lemma {:induction false} SectionsAdded(t: map<Key, SectionRow>, file: string, log: seq<Line>, more: seq<Line>,
                                         i: nat, j: nat, item: Item)
    requires SectionsSay(t, file, log) && OneEdit(log, more, i, j, item)
    ensures SectionsSay(Put(t, SectionRows(file, i, item.id, item.sections)), file, more)
  {
    hide *;
    EditIsCall(log, more, i, j, item);
    var u := Put(t, SectionRows(file, i, item.id, item.sections));
    SectionsSet(t, file, i, item.id, item.sections);
    SectionKeysGrow(t, u, file, log, more, i, j, item);
    SectionValuesGrow(t, u, file, log, more, i, j, item);
    SectionsSayBy(u, file, more);
  }

  lemma {:induction false} EditIsCall(log: seq<Line>, more: seq<Line>, i: nat, j: nat, item: Item)
    requires OneEdit(log, more, i, j, item)
    ensures item.ToolCall?
  {
  }

  lemma {:induction false} SectionsSayBy(t: map<Key, SectionRow>, file: string, log: seq<Line>)
    requires forall i: nat, j: nat, item, n: nat :: IsSection(log, i, j, item, n) ==>
      item.ToolCall? && SectionKey(file, item.id, n) in t
    requires forall i: nat, j: nat, item, n: nat :: LastSection(log, i, j, item, n) ==>
      && item.ToolCall? && n < |item.sections| && SectionKey(file, item.id, n) in t
      && t[SectionKey(file, item.id, n)] == SectionRow(i, item.sections[n])
    requires forall k :: k in t && k.file == file ==>
      && k.SectionKey?
      && exists i: nat, j: nat, item :: IsSection(log, i, j, item, k.index) && item.ToolCall? && item.id == k.callId
    ensures SectionsSay(t, file, log)
  {
    hide IsSection, LastSection;
  }

  lemma {:induction false} SectionsSet(t: map<Key, SectionRow>, file: string, n: nat, id: string,
                                       sections: seq<Section>)
    ensures var u := Put(t, SectionRows(file, n, id, sections));
      && (forall k: Key :: k in t ==> k in u)
      && (forall k: Key :: k in u ==>
            k in t || (k.SectionKey? && k.file == file && k.callId == id && k.index < |sections|))
      && (forall m: nat :: m < |sections| ==>
            var k := SectionKey(file, id, m);
            k in u && u[k] == SectionRow(n, sections[m]))
      && forall k: Key :: k in t ==>
           (k.SectionKey? && k.file == file && k.callId == id && k.index < |sections|) || u[k] == t[k]
  {
    var rows := SectionRows(file, n, id, sections);
    assert rows[..|rows|] == rows;
    forall k {
      SectionsPut(t, file, n, id, sections, |rows|, k);
    }
    hide Put, SectionRows;
  }

  lemma {:induction false} SectionValuesGrow(t: map<Key, SectionRow>, u: map<Key, SectionRow>, file: string,
                                             log: seq<Line>, more: seq<Line>, i: nat, j: nat, item: Item)
    requires SectionsSay(t, file, log) && OneEdit(log, more, i, j, item) && item.ToolCall?
    requires forall k: Key :: k in t ==> k in u
    requires forall n: nat :: n < |item.sections| ==>
      var k := SectionKey(file, item.id, n);
      k in u && u[k] == SectionRow(i, item.sections[n])
    requires forall k: Key :: k in t ==>
      (k.SectionKey? && k.file == file && k.callId == item.id && k.index < |item.sections|) || u[k] == t[k]
    ensures forall ii: nat, jj: nat, it, n: nat :: IsSection(more, ii, jj, it, n) ==>
      it.ToolCall? && SectionKey(file, it.id, n) in u
    ensures forall ii: nat, jj: nat, it, n: nat :: LastSection(more, ii, jj, it, n) ==>
      && it.ToolCall? && n < |it.sections| && SectionKey(file, it.id, n) in u
      && u[SectionKey(file, it.id, n)] == SectionRow(ii, it.sections[n])
  {
    SectionsGrow(log, more, i, j, item);
    hide IsSection, IsEdit, IsCall, OneEdit;
    forall ii: nat, jj: nat, it, n: nat | LastSection(more, ii, jj, it, n)
      ensures u[SectionKey(file, it.id, n)] == SectionRow(ii, it.sections[n])
    {
      if !(ii == i && jj == j) {
        assert LastSection(log, ii, jj, it, n);
        assert it.id == item.id ==> !IsSection(more, i, j, item, n);
      }
    }
  }

  lemma {:induction false} SectionKeysGrow(t: map<Key, SectionRow>, u: map<Key, SectionRow>, file: string,
                                           log: seq<Line>, more: seq<Line>, i: nat, j: nat, item: Item)
    requires SectionsSay(t, file, log) && OneEdit(log, more, i, j, item)
    requires forall k :: k in u ==>
      k in t || (k.SectionKey? && k.file == file && k.callId == item.id && k.index < |item.sections|)
    ensures forall k :: k in u && k.file == file ==>
      && k.SectionKey?
      && exists ii: nat, jj: nat, it :: IsSection(more, ii, jj, it, k.index) && it.ToolCall? && it.id == k.callId
  {
    SectionsGrow(log, more, i, j, item);
    hide IsSection, OneEdit;
    forall k | k in u && k.file == file
      ensures k.SectionKey?
      ensures exists ii: nat, jj: nat, it :: IsSection(more, ii, jj, it, k.index) && it.id == k.callId
    {
      if k in t {
        var ii: nat, jj: nat, it :| IsSection(log, ii, jj, it, k.index) && it.id == k.callId;
        assert IsSection(more, ii, jj, it, k.index);
      } else {
        assert IsSection(more, i, j, item, k.index);
      }
    }
  }

  lemma {:induction false} EditsKept(t: map<Key, EditRow>, file: string, log: seq<Line>, more: seq<Line>)
    requires EditsSay(t, file, log) && SameEdits(log, more) && SameResults(log, more)
    ensures EditsSay(t, file, more)
  {
    EditCallsKept(t, t, file, log, more);
    EditResultsKept(t, t, file, log, more);
    HasEditGrows(log, more);
    HasResultGrows(log, more);
    hide HasEdit, HasEditResult, IsEdit, IsEditResult, EditCallsSay, EditResultsSay;
  }

  lemma {:induction false} EditAdded(t: map<Key, EditRow>, file: string, log: seq<Line>, more: seq<Line>,
                                     i: nat, j: nat, item: Item)
    requires EditsSay(t, file, log) && OneEdit(log, more, i, j, item) && SameResults(log, more)
    ensures EditsSay(MergeStub(t, EditKey(file, item.id), Stub(i, more[i].event.timestamp, item.inputLength)), file,
              more)
  {
    var k := EditKey(file, item.id);
    var u := MergeStub(t, k, Stub(i, more[i].event.timestamp, item.inputLength));
    EditCallAdded(t, file, log, more, i, j, item);
    EditResultsKept(t, u, file, log, more);
    HasEditGrows(log, more);
    HasResultGrows(log, more);
    assert k in t ==> u[k].success == t[k].success && u[k].warnings == t[k].warnings;
    EditKeysGrow(t, u, file, log, more, item.id);
  }

  lemma {:induction false} EditResultWritten(t: map<Key, EditRow>, file: string, log: seq<Line>, more: seq<Line>,
                                             i: nat)
    requires EditsSay(t, file, log) && SameEdits(log, more) && OneResult(log, more, i)
    ensures var e := more[i].event;
      EditsSay(MergeOutcome(t, EditKey(file, e.callId),
                            Outcome(e.successful, if e.successful then e.warnings else [])), file, more)
  {
    var e := more[i].event;
    var k := EditKey(file, e.callId);
    var u := MergeOutcome(t, k, Outcome(e.successful, if e.successful then e.warnings else []));
    EditResultAdded(t, file, log, more, i);
    EditCallsKept(t, u, file, log, more);
    HasEditGrows(log, more);
    HasResultGrows(log, more);
    assert k in t ==> u[k].stub == t[k].stub;
    EditKeysGrow(t, u, file, log, more, e.callId);
  }

  // ------------------------------------------------------------ the tables say the log

  lemma {:induction false} PlainPlaces(log: seq<Line>, line: Line)
    requires line.event.Assistant? ==> line.event.content == []
    ensures var more := log + [line];
      && SameCalls(log, more) && SameEdits(log, more)
      && (if line.event.ToolResult? && line.event.name == "edit" then OneResult(log, more, |log|)
          else SameResults(log, more))
  {
  }

  lemma {:induction false} CutPlaces(log: seq<Line>, line: Line)
    requires line.event.Assistant? && line.event.content != []
    ensures var less, more, j := log + [Cut(line)], log + [line], |line.event.content| - 1;
      var item := line.event.content[j];
      && SameResults(less, more)
      && (if item.ToolCall? then OneCall(less, more, |log|, j, item) else SameCalls(less, more))
      && (if item.ToolCall? && item.name == "edit" then OneEdit(less, more, |log|, j, item)
          else SameEdits(less, more))
  {
  }

  /** The calls, edits and sections of any log: one line less each time, or one item less of a last answer. */
  lemma {:induction false} CallTables(file: string, log: seq<Line>)
    ensures var t := Rebuilt(file, log);
      CallsSay(t.calls, file, log) && EditsSay(t.edits, file, log) && SectionsSay(t.sections, file, log)
    decreases |log|, if log != [] && log[|log| - 1].event.Assistant? then |log[|log| - 1].event.content| else 0
  {
    hide *;
    if log == [] {
      NoCalls(file);
    } else {
      var front, line := log[..|log| - 1], log[|log| - 1];
      var e := line.event;
      assert log == front + [line];
      if !e.Assistant? || e.content == [] {
        CallTables(file, front);
        CallTablesPlain(file, front, line);
      } else {
        var less := front + [Cut(line)];
        CutShorter(line);
        assert less[..|less| - 1] == front && less[|less| - 1] == Cut(line);
        CallTables(file, less);
        CallTablesItem(file, front, line);
      }
    }
  }

  lemma {:induction false} NoCalls(file: string)
    ensures var t := Rebuilt(file, []);
      && CallsSay(t.calls, file, []) && EditsSay(t.edits, file, []) && SectionsSay(t.sections, file, [])
      && UsersSay(t.users, file, []) && ResultsSay(t.results, file, []) && AssistantSays(t.assistant, file, [])
  {
    EmptyRebuilt(file);
    hide Rebuilt;
  }

  lemma {:induction false} CutShorter(line: Line)
    requires line.event.Assistant? && line.event.content != []
    ensures Cut(line).event.Assistant? && |Cut(line).event.content| == |line.event.content| - 1
  {
  }

  lemma {:induction false} CallTablesPlain(file: string, log: seq<Line>, line: Line)
    requires line.event.Assistant? ==> line.event.content == []
    requires var t := Rebuilt(file, log);
      CallsSay(t.calls, file, log) && EditsSay(t.edits, file, log) && SectionsSay(t.sections, file, log)
    ensures var t, more := Rebuilt(file, log + [line]), log + [line];
      CallsSay(t.calls, file, more) && EditsSay(t.edits, file, more) && SectionsSay(t.sections, file, more)
  {
    hide *;
    var t, more, e := Rebuilt(file, log), log + [line], line.event;
    assert more[|log|] == line;
    PlainPlaces(log, line);
    CallsKept(t.calls, file, log, more);
    SectionsKept(t.sections, file, log, more);
    if e.Assistant? {
      AnswerStart(file, log, line);
    } else {
      PlainLine(file, log, line);
    }
    if e.ToolResult? && e.name == "edit" {
      EditResultWritten(t.edits, file, log, more, |log|);
    } else {
      EditsKept(t.edits, file, log, more);
    }
  }

  lemma {:induction false} CallTablesItem(file: string, log: seq<Line>, line: Line)
    requires line.event.Assistant? && line.event.content != []
    requires var t, less := Rebuilt(file, log + [Cut(line)]), log + [Cut(line)];
      CallsSay(t.calls, file, less) && EditsSay(t.edits, file, less) && SectionsSay(t.sections, file, less)
    ensures var t, more := Rebuilt(file, log + [line]), log + [line];
      CallsSay(t.calls, file, more) && EditsSay(t.edits, file, more) && SectionsSay(t.sections, file, more)
  {
    hide *;
    var less, more, j := log + [Cut(line)], log + [line], |line.event.content| - 1;
    var t, item := Rebuilt(file, less), line.event.content[j];
    assert more[|log|] == line;
    CutPlaces(log, line);
    AnswerItem(file, log, line);
    if item.ToolCall? {
      CallAdded(t.calls, file, less, more, |log|, j, item);
    } else {
      CallsKept(t.calls, file, less, more);
    }
    if item.ToolCall? && item.name == "edit" {
      EditAdded(t.edits, file, less, more, |log|, j, item);
      SectionsAdded(t.sections, file, less, more, |log|, j, item);
    } else {
      EditsKept(t.edits, file, less, more);
      SectionsKept(t.sections, file, less, more);
    }
  }

  // ------------------------------------------------------------ messages, results and answers

  lemma {:induction false} BlobMeaning(content: seq<Item>, thinking: bool)
    ensures IsBlob(Blob(TextsOf(content, thinking)), content, thinking)
  {
    var picked := TextsPicked(content, thinking);
    var parts := TextsOf(content, thinking);
    assert parts == PartsAt(content, thinking, picked);
    if parts == [] {
      assert picked == [];
    } else {
      var starts := LinesJoined(parts);
      assert IsPart(content, thinking, picked[0]);
      hide *;
      BlobOfTexts(parts);
      IsBlobBy(Blob(parts), content, thinking, picked, starts);
    }
  }

  lemma {:induction false} BlobOfTexts(parts: seq<string>)
    requires parts != []
    ensures Blob(parts) == Some(JoinLines(parts))
  {
    hide JoinLines;
  }

  lemma {:induction false} IsBlobBy(blob: Option<string>, content: seq<Item>, thinking: bool,
                                    picked: seq<nat>, starts: seq<nat>)
    requires blob.Some? && Picks(content, thinking, picked) && picked != []
    requires JoinedAt(blob.value, PartsAt(content, thinking, picked), starts)
    ensures IsBlob(blob, content, thinking)
  {
    hide PartsAt, JoinedAt;
    assert IsPart(content, thinking, picked[0]);
  }

  lemma {:induction false} TextsPicked(content: seq<Item>, thinking: bool) returns (picked: seq<nat>)
    ensures Picks(content, thinking, picked)
    ensures |TextsOf(content, thinking)| == |picked|
    ensures forall k :: 0 <= k < |picked| ==> content[picked[k]].text == TextsOf(content, thinking)[k]
  {
    if content == [] {
      picked := [];
    } else {
      var n := |content| - 1;
      picked := TextsPicked(content[..n], thinking);
      assert forall j: nat :: IsPart(content, thinking, j) <==>
        IsPart(content[..n], thinking, j) || (j == n && IsPart(content, thinking, n));
      if IsPart(content, thinking, n) {
        picked := picked + [n];
      }
    }
  }

  lemma {:induction false} LinesJoined(parts: seq<string>) returns (starts: seq<nat>)
    requires parts != []
    ensures JoinedAt(JoinLines(parts), parts, starts)
  {
    if |parts| == 1 {
      starts := [0];
    } else {
      var after := LinesJoined(parts[1..]);
      var skip := |parts[0]| + 1;
      starts := [0] + seq(|after|, k requires 0 <= k < |after| => after[k] + skip);
      LinesShifted(JoinLines(parts[1..]), parts, after, starts);
      assert JoinLines(parts) == parts[0] + "\n" + JoinLines(parts[1..]);
      hide *;
    }
  }

  lemma {:induction false} PartShifted(head: string, rest: string, part: string, start: nat)
    requires PartAt(rest, part, start)
    ensures PartAt(head + rest, part, |head| + start)
  {
    assert (head + rest)[|head| + start..|head| + start + |part|] == rest[start..start + |part|];
  }

  lemma {:induction false} LinesShifted(rest: string, parts: seq<string>, after: seq<nat>, starts: seq<nat>)
    requires |parts| > 1 && JoinedAt(rest, parts[1..], after)
    requires |starts| == |parts| && starts[0] == 0
    requires forall k :: 0 < k < |parts| ==> starts[k] == after[k - 1] + |parts[0]| + 1
    ensures JoinedAt(parts[0] + "\n" + rest, parts, starts)
  {
    var head := parts[0] + "\n";
    assert PartAt(head + rest, parts[0], 0) && PartAt(head + rest, "\n", |parts[0]|);
    hide PartAt;
    var tail := parts[1..];
    assert forall k :: 0 < k < |parts| ==> parts[k] == tail[k - 1];
    forall k | 0 < k < |parts|
      ensures PartAt(head + rest, parts[k], starts[k])
      ensures starts[k] == starts[k - 1] + |parts[k - 1]| + 1 && PartAt(head + rest, "\n", starts[k] - 1)
    {
      PartShifted(head, rest, tail[k - 1], after[k - 1]);
      if k > 1 {
        assert after[k - 1] == after[k - 2] + |tail[k - 2]| + 1;
        PartShifted(head, rest, "\n", after[k - 1] - 1);
      }
    }
  }

  lemma {:induction false} LineTables(file: string, log: seq<Line>)
    ensures var t := Rebuilt(file, log);
      UsersSay(t.users, file, log) && ResultsSay(t.results, file, log) && AssistantSays(t.assistant, file, log)
    decreases |log|
  {
    hide *;
    if log == [] {
      NoCalls(file);
    } else {
      var front, line := log[..|log| - 1], log[|log| - 1];
      assert log == front + [line];
      LineTables(file, front);
      if line.event.Assistant? {
        AnswerRow(file, front, line);
        BlobMeaning(line.event.content, false);
        BlobMeaning(line.event.content, true);
        OneAnswer(Rebuilt(file, front).assistant, Rebuilt(file, log).assistant, file, front, line,
                  Blob(TextsOf(line.event.content, false)), Blob(TextsOf(line.event.content, true)));
      } else {
        PlainLine(file, front, line);
        NoAnswer(Rebuilt(file, front).assistant, file, front, line);
      }
      OneMessage(Rebuilt(file, front), Rebuilt(file, log), file, front, line);
    }
  }

  lemma {:induction false} OneMessage(t: Tables, u: Tables, file: string, log: seq<Line>, line: Line)
    requires UsersSay(t.users, file, log) && ResultsSay(t.results, file, log)
    requires var e, n := line.event, |log|;
      && u.users == (if e.User? && e.text != ""
                     then t.users[MessageKey(file, n) := UserRow(e.entryId, e.timestamp, e.text)] else t.users)
      && u.results == (if e.ToolResult?
                       then t.results[CallKey(file, e.callId, n) :=
                         ResultRow(e.entryId, if e.name == "" then "<unknown>" else e.name, e.name, e.timestamp,
                                   e.text, e.isError)]
                       else t.results)
    ensures UsersSay(u.users, file, log + [line]) && ResultsSay(u.results, file, log + [line])
  {
    var more := log + [line];
    assert forall i: nat :: i < |log| ==> more[i] == log[i];
    assert forall i: nat :: IsMessage(more, i) ==> IsMessage(log, i) || i == |log|;
    assert forall i: nat :: IsResult(more, i) ==> IsResult(log, i) || i == |log|;
  }

  lemma {:induction false} OneAnswer(t: map<Key, AssistantRow>, u: map<Key, AssistantRow>, file: string,
                                     log: seq<Line>, line: Line, text: Option<string>, thinking: Option<string>)
    requires AssistantSays(t, file, log)
    requires var e := line.event;
      && e.Assistant? && IsBlob(text, e.content, false) && IsBlob(thinking, e.content, true)
      && u == (if text == None && thinking == None then t
               else t[MessageKey(file, |log|) :=
                 AssistantRow(e.entryId, e.timestamp, e.model, e.provider, text, thinking)])
    ensures AssistantSays(u, file, log + [line])
  {
    hide IsJoinOf, IsPart;
    var more := log + [line];
    assert forall i: nat :: i < |log| ==> more[i] == log[i];
    assert forall i: nat :: IsAnswer(more, i) ==> IsAnswer(log, i) || i == |log|;
  }

  lemma {:induction false} NoAnswer(t: map<Key, AssistantRow>, file: string, log: seq<Line>, line: Line)
    requires AssistantSays(t, file, log) && !line.event.Assistant?
    ensures AssistantSays(t, file, log + [line])
  {
    hide IsBlob, IsPart;
    var more := log + [line];
    assert forall i: nat :: i < |log| ==> more[i] == log[i];
    assert forall i: nat :: IsAnswer(more, i) <==> IsAnswer(log, i);
  }

  // ------------------------------------------------------------ what a rebuild and a sync leave

  /** One rebuild leaves, of any log, exactly the rows that the lines of that log call for. */
  lemma {:induction false} RebuildSaysLog(file: string, log: seq<Line>)
    ensures Say(Rebuilt(file, log), file, log)
  {
    CallTables(file, log);
    LineTables(file, log);
    hide Rebuilt, CallsSay, EditsSay, SectionsSay, UsersSay, ResultsSay, AssistantSays;
  }

  /** The rows of one file are the same in two tables. */
  ghost predicate SameOwn<V(!new)>(t: map<Key, V>, u: map<Key, V>, file: string) {
    forall k: Key :: k.file == file ==> (k in t <==> k in u) && (k in t ==> t[k] == u[k])
  }

  /** The rows of all other files are. */
  ghost predicate SameRest<V(!new)>(t: map<Key, V>, u: map<Key, V>, file: string) {
    forall k: Key :: k.file != file ==> (k in t <==> k in u) && (k in t ==> t[k] == u[k])
  }

  lemma {:induction false} LastCallExists(log: seq<Line>, i: nat, j: nat, item: Item)
      returns (jj: nat, last: Item)
    requires IsCall(log, i, j, item)
    ensures LastCall(log, i, jj, last) && last.id == item.id
    decreases |log[i].event.content| - j
  {
    if LastCall(log, i, j, item) {
      jj, last := j, item;
    } else {
      var next: nat, other :| j < next && IsCall(log, i, next, other) && other.id == item.id;
      jj, last := LastCallExists(log, i, next, other);
    }
  }

  lemma {:induction false} LastEditExists(log: seq<Line>, i: nat, j: nat, item: Item)
      returns (ii: nat, jj: nat, last: Item)
    requires IsEdit(log, i, j, item)
    ensures LastEdit(log, ii, jj, last) && last.id == item.id
    decreases |log| - i, |log[i].event.content| - j
  {
    if LastEdit(log, i, j, item) {
      ii, jj, last := i, j, item;
    } else {
      var later: nat, next: nat, other :|
        Before(i, j, later, next) && IsEdit(log, later, next, other) && other.id == item.id;
      ii, jj, last := LastEditExists(log, later, next, other);
    }
  }

  lemma {:induction false} LastResultExists(log: seq<Line>, i: nat) returns (ii: nat)
    requires IsEditResult(log, i)
    ensures LastEditResult(log, ii) && log[ii].event.callId == log[i].event.callId
    decreases |log| - i
  {
    if LastEditResult(log, i) {
      ii := i;
    } else {
      var later: nat :| i < later && IsEditResult(log, later) && log[later].event.callId == log[i].event.callId;
      ii := LastResultExists(log, later);
    }
  }

  lemma {:induction false} LastSectionExists(log: seq<Line>, i: nat, j: nat, item: Item, n: nat)
      returns (ii: nat, jj: nat, last: Item)
    requires IsSection(log, i, j, item, n)
    ensures LastSection(log, ii, jj, last, n) && last.id == item.id
    decreases |log| - i, |log[i].event.content| - j
  {
    if LastSection(log, i, j, item, n) {
      ii, jj, last := i, j, item;
    } else {
      var later: nat, next: nat, other :|
        Before(i, j, later, next) && IsSection(log, later, next, other, n) && other.id == item.id;
      ii, jj, last := LastSectionExists(log, later, next, other, n);
    }
  }

  lemma {:induction false} PicksUnique(content: seq<Item>, thinking: bool, p: seq<nat>, q: seq<nat>, k: nat)
    requires Picks(content, thinking, p) && Picks(content, thinking, q) && k <= |p| && k <= |q|
    ensures forall l :: 0 <= l < k ==> p[l] == q[l]
  {
    if k > 0 {
      PicksUnique(content, thinking, p, q, k - 1);
      NextPickLeast(content, thinking, p, q, k - 1);
      NextPickLeast(content, thinking, q, p, k - 1);
    }
    hide Picks;
  }

  /** What one list picks next, the other does not pick earlier. */
  lemma {:induction false} NextPickLeast(content: seq<Item>, thinking: bool, p: seq<nat>, q: seq<nat>, k: nat)
    requires Picks(content, thinking, p) && Picks(content, thinking, q) && k < |p| && k < |q|
    requires forall l :: 0 <= l < k ==> p[l] == q[l]
    ensures p[k] <= q[k]
  {
    assert IsPart(content, thinking, q[k]);
    hide IsPart;
    var l :| 0 <= l < |p| && p[l] == q[k];
    assert l > k ==> p[k] < p[l];
  }

  lemma {:induction false} SamePicks(content: seq<Item>, thinking: bool, p: seq<nat>, q: seq<nat>)
    requires Picks(content, thinking, p) && Picks(content, thinking, q) && |p| <= |q|
    ensures p == q
  {
    PicksUnique(content, thinking, p, q, |p|);
    if |p| < |q| {
      PickIsShared(content, thinking, p, q, |p|);
    }
  }

  lemma {:induction false} PickIsShared(content: seq<Item>, thinking: bool, p: seq<nat>, q: seq<nat>, k: nat)
    requires Picks(content, thinking, p) && Picks(content, thinking, q) && k < |q|
    ensures q[k] in p
  {
    assert IsPart(content, thinking, q[k]);
  }

  lemma {:induction false} JoinUnique(s: string, t: string, parts: seq<string>, starts: seq<nat>, others: seq<nat>)
    requires JoinedAt(s, parts, starts) && JoinedAt(t, parts, others)
    ensures s == t
    decreases |parts|
  {
    var m := |parts| - 1;
    if m == 0 {
      assert s == s[0..|parts[0]|] && t == t[0..|parts[0]|];
    } else {
      JoinCut(s, parts, starts);
      JoinCut(t, parts, others);
      JoinUnique(s[..starts[m] - 1], t[..others[m] - 1], parts[..m], starts[..m], others[..m]);
    }
  }

  /** A join without its last part and the line end before it. */
  lemma {:induction false} JoinCut(s: string, parts: seq<string>, starts: seq<nat>)
    requires |parts| > 1 && JoinedAt(s, parts, starts)
    ensures var m := |parts| - 1;
      && 0 < starts[m] <= |s| && s == s[..starts[m] - 1] + "\n" + parts[m]
      && JoinedAt(s[..starts[m] - 1], parts[..m], starts[..m])
  {
    var m := |parts| - 1;
    assert starts[m] == starts[m - 1] + |parts[m - 1]| + 1;
    assert PartAt(s, "\n", starts[m] - 1) && PartAt(s, parts[m], starts[m]);
    assert s == s[..starts[m] - 1] + s[starts[m] - 1..starts[m]] + s[starts[m]..];
    var front := s[..starts[m] - 1];
    StartsGrow(s, parts, starts, m);
    forall k | 0 <= k < m
      ensures PartAt(front, parts[k], starts[k])
      ensures k > 0 ==> starts[k] > 0 && PartAt(front, "\n", starts[k] - 1)
    {
      assert PartAt(s, parts[k], starts[k]);
      PartWithin(s, parts[k], starts[k], |front|);
      if k > 0 {
        assert starts[k] == starts[k - 1] + |parts[k - 1]| + 1;
        assert PartAt(s, "\n", starts[k] - 1);
        PartWithin(s, "\n", starts[k] - 1, |front|);
      }
    }
    hide PartAt;
  }

  lemma {:induction false} PartWithin(s: string, part: string, start: nat, n: nat)
    requires PartAt(s, part, start) && start + |part| <= n <= |s|
    ensures PartAt(s[..n], part, start)
  {
    assert s[..n][start..start + |part|] == s[start..start + |part|];
  }

  lemma {:induction false} StartsGrow(s: string, parts: seq<string>, starts: seq<nat>, m: nat)
    requires JoinedAt(s, parts, starts) && m < |parts|
    ensures forall k :: 0 <= k < m ==> starts[k] + |parts[k]| < starts[m]
  {
    hide PartAt;
    if m > 0 {
      StartsGrow(s, parts, starts, m - 1);
    }
  }

  lemma {:induction false} BlobUnique(a: Option<string>, b: Option<string>, content: seq<Item>, thinking: bool)
    requires IsBlob(a, content, thinking) && IsBlob(b, content, thinking)
    ensures a == b
  {
    if a.Some? && b.Some? {
      var p: seq<nat>, starts: seq<nat> :|
        Picks(content, thinking, p) && JoinedAt(a.value, PartsAt(content, thinking, p), starts);
      var q: seq<nat>, others: seq<nat> :|
        Picks(content, thinking, q) && JoinedAt(b.value, PartsAt(content, thinking, q), others);
      if |p| <= |q| {
        SamePicks(content, thinking, p, q);
      } else {
        SamePicks(content, thinking, q, p);
      }
      JoinUnique(a.value, b.value, PartsAt(content, thinking, p), starts, others);
    }
    hide *;
  }

  lemma {:induction false} CallsDetermined(t: map<Key, CallRow>, u: map<Key, CallRow>, file: string, log: seq<Line>)
    requires CallsSay(t, file, log) && CallsSay(u, file, log)
    ensures SameOwn(t, u, file)
  {
    forall k: Key | k.file == file && (k in t || k in u)
      ensures k in t && k in u && t[k] == u[k]
    {
      assert k.CallKey?;
      var j: nat, item :| IsCall(log, k.seqNo, j, item) && item.id == k.callId;
      var jj, last := LastCallExists(log, k.seqNo, j, item);
      assert k == CallKey(file, last.id, k.seqNo);
    }
  }

  lemma {:induction false} EditsDetermined(t: map<Key, EditRow>, u: map<Key, EditRow>, file: string, log: seq<Line>)
    requires EditsSay(t, file, log) && EditsSay(u, file, log)
    ensures SameOwn(t, u, file)
  {
    forall k: Key | k.file == file && (k in t || k in u)
      ensures k in t && k in u && t[k] == u[k]
    {
      assert k.EditKey?;
      if HasEdit(log, k.callId) {
        var i: nat, j: nat, item :| IsEdit(log, i, j, item) && item.id == k.callId;
        var ii, jj, last := LastEditExists(log, i, j, item);
        assert k == EditKey(file, last.id);
      }
      if HasEditResult(log, k.callId) {
        var i: nat :| IsEditResult(log, i) && log[i].event.callId == k.callId;
        var ii := LastResultExists(log, i);
        assert k == EditKey(file, log[ii].event.callId);
      }
    }
  }

  lemma {:induction false} SectionsDetermined(t: map<Key, SectionRow>, u: map<Key, SectionRow>, file: string,
                                              log: seq<Line>)
    requires SectionsSay(t, file, log) && SectionsSay(u, file, log)
    ensures SameOwn(t, u, file)
  {
    forall k: Key | k.file == file && (k in t || k in u)
      ensures k in t && k in u && t[k] == u[k]
    {
      assert k.SectionKey?;
      var i: nat, j: nat, item :| IsSection(log, i, j, item, k.index) && item.id == k.callId;
      var ii, jj, last := LastSectionExists(log, i, j, item, k.index);
      assert k == SectionKey(file, last.id, k.index);
    }
  }

  lemma {:induction false} AnswersDetermined(t: map<Key, AssistantRow>, u: map<Key, AssistantRow>, file: string,
                                             log: seq<Line>)
    requires AssistantSays(t, file, log) && AssistantSays(u, file, log)
    ensures SameOwn(t, u, file)
  {
    forall k: Key | k.file == file && (k in t || k in u)
      ensures k in t && k in u && t[k] == u[k]
    {
      assert k.MessageKey? && IsAnswer(log, k.seqNo);
      var e := log[k.seqNo].event;
      var j: nat, thinking :| IsPart(e.content, thinking, j);
      assert MessageKey(file, k.seqNo) in t && MessageKey(file, k.seqNo) in u;
      BlobUnique(t[k].text, u[k].text, e.content, false);
      BlobUnique(t[k].thinking, u[k].thinking, e.content, true);
    }
  }

  /** That determines the rows: any two tables that say the same log have the same rows of the file. */
  lemma {:induction false} LogDeterminesRows(t: Tables, u: Tables, file: string, log: seq<Line>)
    requires Say(t, file, log) && Say(u, file, log)
    ensures SameOwn(t.calls, u.calls, file) && SameOwn(t.results, u.results, file)
    ensures SameOwn(t.assistant, u.assistant, file) && SameOwn(t.users, u.users, file)
    ensures SameOwn(t.edits, u.edits, file) && SameOwn(t.sections, u.sections, file)
  {
    CallsDetermined(t.calls, u.calls, file, log);
    EditsDetermined(t.edits, u.edits, file, log);
    SectionsDetermined(t.sections, u.sections, file, log);
    AnswersDetermined(t.assistant, u.assistant, file, log);
    hide CallsSay, EditsSay, SectionsSay, AssistantSays;
  }

  lemma {:induction false} OwnIs<V>(t: map<Key, V>, file: string)
    ensures forall k :: (k in Own(t, file) <==> k in t && k.file == file) && (k in Own(t, file) ==>
              Own(t, file)[k] == t[k])
  {
  }

  lemma {:induction false} OwnCallsSay(t: map<Key, CallRow>, file: string, log: seq<Line>)
    requires CallsSay(Own(t, file), file, log)
    ensures CallsSay(t, file, log)
  {
    OwnIs(t, file);
    hide Own;
  }

  lemma {:induction false} OwnResultsSay(t: map<Key, ResultRow>, file: string, log: seq<Line>)
    requires ResultsSay(Own(t, file), file, log)
    ensures ResultsSay(t, file, log)
  {
    OwnIs(t, file);
    hide Own;
  }

  lemma {:induction false} OwnAnswersSay(t: map<Key, AssistantRow>, file: string, log: seq<Line>)
    requires AssistantSays(Own(t, file), file, log)
    ensures AssistantSays(t, file, log)
  {
    OwnIs(t, file);
    hide Own;
    hide IsBlob, IsPart;
  }

  lemma {:induction false} OwnUsersSay(t: map<Key, UserRow>, file: string, log: seq<Line>)
    requires UsersSay(Own(t, file), file, log)
    ensures UsersSay(t, file, log)
  {
    OwnIs(t, file);
    hide Own;
  }

  lemma {:induction false} OwnEditsSay(t: map<Key, EditRow>, file: string, log: seq<Line>)
    requires EditsSay(Own(t, file), file, log)
    ensures EditsSay(t, file, log)
  {
    OwnIs(t, file);
    hide Own;
    hide HasEdit, HasEditResult;
  }

  lemma {:induction false} OwnSectionsSay(t: map<Key, SectionRow>, file: string, log: seq<Line>)
    requires SectionsSay(Own(t, file), file, log)
    ensures SectionsSay(t, file, log)
  {
    OwnIs(t, file);
    hide Own;
  }

  lemma {:induction false} OwnRowsSay(t: Tables, file: string, log: seq<Line>)
    requires Say(RowsOf(t, file), file, log)
    ensures Say(t, file, log)
  {
    hide Own, CallsSay, ResultsSay, AssistantSays, UsersSay, EditsSay, SectionsSay;
    OwnCallsSay(t.calls, file, log);
    OwnResultsSay(t.results, file, log);
    OwnAnswersSay(t.assistant, file, log);
    OwnUsersSay(t.users, file, log);
    OwnEditsSay(t.edits, file, log);
    OwnSectionsSay(t.sections, file, log);
  }

  lemma {:induction false} RestIsSame<V(!new)>(t: map<Key, V>, u: map<Key, V>, file: string)
    requires Rest(t, file) == Rest(u, file)
    ensures SameRest(t, u, file)
  {
    forall k: Key | k.file != file
      ensures (k in t <==> k in u) && (k in t ==> t[k] == u[k])
    {
      assert k in t <==> k in Rest(t, file);
      assert k in u <==> k in Rest(u, file);
    }
  }

  lemma {:induction false} OthersAreSame(t: Tables, u: Tables, file: string)
    requires Others(t, file) == Others(u, file)
    ensures SameRest(t.calls, u.calls, file) && SameRest(t.results, u.results, file)
    ensures SameRest(t.assistant, u.assistant, file) && SameRest(t.users, u.users, file)
    ensures SameRest(t.edits, u.edits, file) && SameRest(t.sections, u.sections, file)
  {
    hide Rest, SameRest;
    RestIsSame(t.calls, u.calls, file);
    RestIsSame(t.results, u.results, file);
    RestIsSame(t.assistant, u.assistant, file);
    RestIsSame(t.users, u.users, file);
    RestIsSame(t.edits, u.edits, file);
    RestIsSame(t.sections, u.sections, file);
  }

  /** After any sequence of appends and syncs of a file new to the tables, one more sync leaves the rows
      its log calls for, the number of its lines and its size in bytes, and what its first line says of
      the session. Rows and session of every other file stay as they were. */
  lemma {:induction false} SyncSaysLog(run: seq<State>, file: string, full: bool, mtime: nat, now: nat)
    requires run != [] && IsRun(run, file) && file !in run[0].db.sessions
    ensures var d, log := run[|run| - 1].db, run[|run| - 1].log;
      var s := Sync(d, file, full, Still(log, mtime), now);
      && Say(s.tables, file, log)
      && file in s.sessions
      && s.sessions[file].lineCount == |log| && s.sessions[file].byteOffset == Bytes(log)
      && s.sessions[file].meta == (if log != [] && log[0].event.Header? then log[0].event.meta
                                   else Meta(None, None, None, None, None))
      && SameRest(s.tables.calls, d.tables.calls, file) && SameRest(s.tables.results, d.tables.results, file)
      && SameRest(s.tables.assistant, d.tables.assistant, file) && SameRest(s.tables.users, d.tables.users, file)
      && SameRest(s.tables.edits, d.tables.edits, file) && SameRest(s.tables.sections, d.tables.sections, file)
      && forall f :: f != file ==>
           (f in s.sessions <==> f in d.sessions) && (f in s.sessions ==> s.sessions[f] == d.sessions[f])
  {
    var d, log := run[|run| - 1].db, run[|run| - 1].log;
    var s := Sync(d, file, full, Still(log, mtime), now);
    hide *;
    NewIsGood(run[0].db, file, run[0].log);
    RunKeepsGood(run, file, |run| - 1);
    StillSyncStoresAll(d, file, full, log, mtime, now);
    StillGrows(log, mtime);
    SyncCatchesUp(d, file, full, Still(log, mtime), now, log);
    RebuildSaysLog(file, log);
    OwnRowsSay(s.tables, file, log);
    OthersAreSame(s.tables, d.tables, file);
    HeaderOf(log);
    forall f | f != file
      ensures (f in s.sessions <==> f in d.sessions) && (f in s.sessions ==> s.sessions[f] == d.sessions[f])
    {
      SessionsAlike(s, d, f);
    }
  }

  lemma {:induction false} NewIsGood(d: Db, file: string, log: Log)
    requires file !in d.sessions
    ensures Good(d, file, log)
  {
  }

  lemma {:induction false} StillGrows(log: Log, mtime: nat)
    ensures Growing(log, Still(log, mtime)) && Still(log, mtime).read == log
  {
  }

  lemma {:induction false} HeaderOf(log: seq<Line>)
    ensures MetaOf(0, log) == if log != [] && log[0].event.Header? then log[0].event.meta
                              else Meta(None, None, None, None, None)
  {
  }

  lemma {:induction false} SessionsAlike(s: Db, d: Db, file: string)
    requires Previous(s, file) == Previous(d, file)
    ensures (file in s.sessions <==> file in d.sessions) && (file in s.sessions ==>
              s.sessions[file] == d.sessions[file])
  {
  }

  /** What one sync reads, from what is stored and what the file shows: nothing of a file that has the
      stored size and is no newer; the whole file if that is asked for, if it is new or was read by an
      older parser, if it has shrunk, or if it was written anew at the same length; and otherwise the
      lines after the stored offset, all rows there are staying. */
  lemma {:induction false} WhatASyncReads(d: Db, file: string, full: bool, m: Moments, now: nat)
    requires Growing([], m)
    ensures var s := Sync(d, file, full, m, now);
      var size := Bytes(m.seen);
      if full || file !in d.sessions || d.sessions[file].parserVersion < 6 then
        ReadsAll(d, s, file, m)
      else
        var row := d.sessions[file];
        if size == row.size && m.seenMtime <= row.mtime then s == d
        else if size < row.byteOffset || (size == row.byteOffset && m.seenMtime > row.mtime)
            then ReadsAll(d, s, file, m)
        else ReadsOn(d, s, file, m, row.byteOffset, row.lineCount)
  {
    hide Bytes, LineAt, Applied, LogBatch, ReadsAll, ReadsOn, MetaOf, MergeSession, Others, Growing;
    var decision := DecideAction(Previous(d, file), full, Bytes(m.seen), m.seenMtime);
    if decision == Parse(true, 0, 0) {
      SyncReadsAll(d, file, full, m, now);
    } else if decision.Parse? {
      SyncKeepsRows(d, file, full, m, now);
    }
  }

  ghost predicate ReadsAll(d: Db, s: Db, file: string, m: Moments) {
    && Say(s.tables, file, m.read)
    && file in s.sessions && s.sessions[file].lineCount == |m.read| && s.sessions[file].byteOffset == Bytes(m.read)
    && s.sessions[file].size == Bytes(m.sized) && s.sessions[file].mtime == m.sizedMtime
  }

  /** `offset` bytes and `count` lines are taken as read. */
  ghost predicate ReadsOn(d: Db, s: Db, file: string, m: Moments, offset: nat, count: nat) {
    && d.tables.calls.Keys <= s.tables.calls.Keys && d.tables.results.Keys <= s.tables.results.Keys
    && d.tables.assistant.Keys <= s.tables.assistant.Keys && d.tables.users.Keys <= s.tables.users.Keys
    && d.tables.edits.Keys <= s.tables.edits.Keys && d.tables.sections.Keys <= s.tables.sections.Keys
    && file in s.sessions
    && s.sessions[file].size == Bytes(m.sized) && s.sessions[file].mtime == m.sizedMtime
    && forall n: nat :: n <= |m.read| && Bytes(m.read[..n]) == offset ==>
         s.sessions[file].lineCount == count + |m.read| - n && s.sessions[file].byteOffset == Bytes(m.read)
  }

  lemma {:induction false} PutKeeps<V>(t: map<Key, V>, rows: seq<(Key, V)>)
    ensures t.Keys <= Put(t, rows).Keys
  {
    if rows != [] {
      PutKeeps(t, rows[..|rows| - 1]);
    }
  }

  lemma {:induction false} StubsKeep(t: map<Key, EditRow>, rows: seq<(Key, Stub)>)
    ensures t.Keys <= MergeStubs(t, rows).Keys
  {
    if rows != [] {
      StubsKeep(t, rows[..|rows| - 1]);
    }
  }

  lemma {:induction false} OutcomesKeep(t: map<Key, EditRow>, rows: seq<(Key, Outcome)>)
    ensures t.Keys <= MergeOutcomes(t, rows).Keys
  {
    if rows != [] {
      OutcomesKeep(t, rows[..|rows| - 1]);
    }
  }

  lemma {:induction false} AppliedKeeps(t: Tables, b: Batch)
    ensures var u := Applied(t, b);
      && t.calls.Keys <= u.calls.Keys && t.results.Keys <= u.results.Keys
      && t.assistant.Keys <= u.assistant.Keys && t.users.Keys <= u.users.Keys
      && t.edits.Keys <= u.edits.Keys && t.sections.Keys <= u.sections.Keys
  {
    PutKeeps(t.calls, b.calls);
    PutKeeps(t.results, b.results);
    PutKeeps(t.assistant, b.assistant);
    PutKeeps(t.users, b.users);
    PutKeeps(t.sections, b.sections);
    StubsKeep(t.edits, b.stubs);
    OutcomesKeep(MergeStubs(t.edits, b.stubs), b.outcomes);
    hide Put, MergeStubs, MergeOutcomes;
  }

  lemma {:induction false} RestOfLog(log: Log, offset: nat)
    ensures forall n: nat :: n <= |log| && Bytes(log[..n]) == offset ==>
      LineAt(log, offset) == n && offset + Bytes(log[n..]) == Bytes(log)
  {
    forall n: nat | n <= |log| && Bytes(log[..n]) == offset
      ensures LineAt(log, offset) == n && offset + Bytes(log[n..]) == Bytes(log)
    {
      LineAtExact(log, n);
      assert log == log[..n] + log[n..];
      BytesConcat(log[..n], log[n..]);
    }
  }

  lemma {:induction false} SyncKeepsRows(d: Db, file: string, full: bool, m: Moments, now: nat)
    requires file in d.sessions
    requires var row := d.sessions[file];
      DecideAction(Previous(d, file), full, Bytes(m.seen), m.seenMtime) == Parse(false, row.byteOffset, row.lineCount)
    ensures ReadsOn(d, Sync(d, file, full, m, now), file, m, d.sessions[file].byteOffset, d.sessions[file].lineCount)
  {
    hide Bytes, LineAt, LogBatch, Applied, DecideAction, MergeMeta, MetaOf, Sync;
    var row := d.sessions[file];
    var at := LineAt(m.read, row.byteOffset);
    AppliedKeeps(d.tables, LogBatch(file, row.lineCount, m.read[at..]));
    RestOfLog(m.read, row.byteOffset);
    SyncReadsOn(d, file, full, m, now, m.read[at..]);
  }

  lemma {:induction false} SyncReadsAll(d: Db, file: string, full: bool, m: Moments, now: nat)
    requires Growing([], m)
    requires DecideAction(Previous(d, file), full, Bytes(m.seen), m.seenMtime) == Parse(true, 0, 0)
    ensures ReadsAll(d, Sync(d, file, full, m, now), file, m)
  {
    hide *;
    var s := Sync(d, file, full, m, now);
    SyncOfAll(d, file, full, m, now);
    AppliedOwn(Others(d.tables, file), LogBatch(file, 0, m.read), file);
    Deleted(d.tables, file);
    RebuiltUnfolds(file, m.read);
    RebuildSaysLog(file, m.read);
    OwnRowsSay(s.tables, file, m.read);
  }

  lemma {:induction false} SyncOfAll(d: Db, file: string, full: bool, m: Moments, now: nat)
    requires Growing([], m)
    requires DecideAction(Previous(d, file), full, Bytes(m.seen), m.seenMtime) == Parse(true, 0, 0)
    ensures var s := Sync(d, file, full, m, now);
      && s.tables == Applied(Others(d.tables, file), LogBatch(file, 0, m.read))
      && LogBatch(file, 0, m.read).IsOf(file)
      && (Say(s.tables, file, m.read) ==> ReadsAll(d, s, file, m))
  {
    hide Applied, Others, LogBatch, LineAt, Say, DecideAction, MergeMeta, MetaOf, Previous, Bytes;
    ReadFromStart(m.read);
  }

  lemma {:induction false} ReadFromStart(log: Log)
    ensures LineAt(log, 0) == 0 && log[0..] == log
  {
    assert log[..0] == [];
    LineAtExact(log, 0);
    hide LineAt;
  }
}
