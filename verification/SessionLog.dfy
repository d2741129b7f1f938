/** Reading a session log: each line of the file becomes rows for the session tables, numbered by the
    line's place in the whole file, wherever the reading began. */
module SessionLog {
  import opened Options

  const EDIT_PARSER_VERSION: nat := 6

  // ------------------------------------------------------------ the log

  /** What the header of a log tells about the session. */
  datatype Meta = Meta(uuid: Option<string>, version: Option<string>, title: Option<string>,
                       cwd: Option<string>, startedAt: Option<nat>)

  const NO_META := Meta(None, None, None, None, None)

  /** One section of an edit, as its parser returns it. */
  datatype Section = Section(targetFile: string, detail: string)

  datatype Item =
    | ToolCall(id: string, name: string, argJson: string, inputLength: nat, sections: seq<Section>)
    | Thinking(text: string)
    | Prose(text: string)
    | OtherItem

  datatype Event =
    | NoEntry
    | Header(meta: Meta)
    | Assistant(entryId: string, timestamp: nat, model: string, provider: string, content: seq<Item>)
    | ToolResult(entryId: string, timestamp: nat, callId: string, name: string, text: string, isError: bool,
                 successful: bool, warnings: seq<string>)
    | User(entryId: string, timestamp: nat, text: string)

  /** A line of the file, with its size in bytes, its line end included. */
  datatype Line = Line(size: nat, event: Event)

  type Log = lines: seq<Line> | forall i :: 0 <= i < |lines| ==> lines[i].size >= 1

  function Bytes(log: seq<Line>): nat {
    if log == [] then 0 else Bytes(log[..|log| - 1]) + log[|log| - 1].size
  }

  // ------------------------------------------------------------ rows

  datatype Key =
    | CallKey(file: string, callId: string, seqNo: nat)
    | MessageKey(file: string, seqNo: nat)
    | EditKey(file: string, callId: string)
    | SectionKey(file: string, callId: string, index: nat)

  datatype CallRow = CallRow(entryId: string, toolName: string, rawName: string, timestamp: nat,
                             model: string, provider: string, argJson: string)
  datatype ResultRow = ResultRow(entryId: string, toolName: string, rawName: string, timestamp: nat,
                                 text: string, isError: bool)
  datatype AssistantRow = AssistantRow(entryId: string, timestamp: nat, model: string, provider: string,
                                       text: Option<string>, thinking: Option<string>)
  datatype UserRow = UserRow(entryId: string, timestamp: nat, text: string)
  datatype Stub = Stub(seqNo: nat, timestamp: nat, inputLength: nat)
  datatype Outcome = Outcome(success: bool, warnings: seq<string>)
  datatype SectionRow = SectionRow(seqNo: nat, section: Section)

  /** The rows gathered from some lines, list by list in the order in which they were met. */
  datatype Batch = Batch(
    calls: seq<(Key, CallRow)>,
    results: seq<(Key, ResultRow)>,
    assistant: seq<(Key, AssistantRow)>,
    users: seq<(Key, UserRow)>,
    stubs: seq<(Key, Stub)>,
    outcomes: seq<(Key, Outcome)>,
    sections: seq<(Key, SectionRow)>)
  {
    function Plus(other: Batch): Batch {
      Batch(calls + other.calls, results + other.results, assistant + other.assistant, users + other.users,
            stubs + other.stubs, outcomes + other.outcomes, sections + other.sections)
    }

    /** Every row belongs to `file`. */
    ghost predicate IsOf(file: string) {
      && Keyed(calls, file) && Keyed(results, file) && Keyed(assistant, file) && Keyed(users, file)
      && Keyed(stubs, file) && Keyed(outcomes, file) && Keyed(sections, file)
    }
  }

  ghost predicate Keyed<V>(rows: seq<(Key, V)>, file: string) {
    forall i :: 0 <= i < |rows| ==> rows[i].0.file == file
  }

  const NO_ROWS := Batch([], [], [], [], [], [], [])

  function ToolName(raw: string): string {
    if raw == "" then "<unknown>" else raw
  }

  predicate IsEditCall(toolName: string) {
    toolName == "edit"
  }

  function SectionRows(file: string, seqNo: nat, id: string, sections: seq<Section>): (rows: seq<(Key, SectionRow)>)
    ensures |rows| == |sections|
    ensures Keyed(rows, file)
  {
    seq(|sections|, i requires 0 <= i < |sections| => (SectionKey(file, id, i), SectionRow(seqNo, sections[i])))
  }

  /** The rows of one tool call. */
  function CallBatch(file: string, seqNo: nat, e: Event, item: Item): (b: Batch)
    requires e.Assistant? && item.ToolCall?
    ensures b.IsOf(file)
  {
    var row := (CallKey(file, item.id, seqNo),
                CallRow(e.entryId, ToolName(item.name), item.name, e.timestamp, e.model, e.provider, item.argJson));
    if IsEditCall(ToolName(item.name)) then
      Batch([row], [], [], [], [(EditKey(file, item.id), Stub(seqNo, e.timestamp, item.inputLength))], [],
            SectionRows(file, seqNo, item.id, item.sections))
    else
      NO_ROWS.(calls := [row])
  }

  function ItemsBatch(file: string, seqNo: nat, e: Event, items: seq<Item>): (b: Batch)
    requires e.Assistant?
    ensures b.IsOf(file)
  {
    if items == [] then NO_ROWS
    else
      var before := ItemsBatch(file, seqNo, e, items[..|items| - 1]);
      var item := items[|items| - 1];
      if item.ToolCall? then before.Plus(CallBatch(file, seqNo, e, item)) else before
  }

  /** The texts of one kind, in order, the empty ones left out. */
  function TextsOf(items: seq<Item>, thinking: bool): seq<string> {
    if items == [] then []
    else
      var before, item := TextsOf(items[..|items| - 1], thinking), items[|items| - 1];
      var wanted := if thinking then item.Thinking? else item.Prose?;
      if wanted && item.text != "" then before + [item.text] else before
  }

  function JoinLines(texts: seq<string>): string {
    if |texts| == 0 then "" else if |texts| == 1 then texts[0] else texts[0] + "\n" + JoinLines(texts[1..])
  }

  function Blob(texts: seq<string>): Option<string> {
    if texts == [] then None else Some(JoinLines(texts))
  }

  /** The rows of one line, which is line number `seqNo` of its file. */
  /** One more item of a message. */
  lemma {:induction false} ItemsStep(file: string, seqNo: nat, e: Event, i: nat)
    requires e.Assistant? && i < |e.content|
    ensures var before, item := ItemsBatch(file, seqNo, e, e.content[..i]), e.content[i];
      && ItemsBatch(file, seqNo, e, e.content[..i + 1])
           == (if item.ToolCall? then before.Plus(CallBatch(file, seqNo, e, item)) else before)
      && TextsOf(e.content[..i + 1], false)
           == TextsOf(e.content[..i], false) + (if item.Prose? && item.text != "" then [item.text] else [])
      && TextsOf(e.content[..i + 1], true)
           == TextsOf(e.content[..i], true) + (if item.Thinking? && item.text != "" then [item.text] else [])
  {
    hide CallBatch;
    assert e.content[..i + 1][..i] == e.content[..i];
  }

  lemma {:induction false} PlusAssociates(a: Batch, b: Batch, c: Batch)
    ensures a.Plus(b).Plus(c) == a.Plus(b.Plus(c))
    ensures a.Plus(NO_ROWS) == a == NO_ROWS.Plus(a)
  {
  }

  function LineBatch(file: string, seqNo: nat, e: Event): (b: Batch)
    ensures b.IsOf(file)
  {
    match e
    case NoEntry => NO_ROWS
    case Header(_) => NO_ROWS
    case Assistant(entryId, timestamp, model, provider, content) =>
      var text, thinking := Blob(TextsOf(content, false)), Blob(TextsOf(content, true));
      var rows := ItemsBatch(file, seqNo, e, content);
      if text == None && thinking == None then rows
      else rows.(assistant := rows.assistant
                   + [(MessageKey(file, seqNo), AssistantRow(entryId, timestamp, model, provider, text, thinking))])
    case ToolResult(entryId, timestamp, callId, name, text, isError, successful, warnings) =>
      var rows := NO_ROWS.(results := [(CallKey(file, callId, seqNo),
                                        ResultRow(entryId, ToolName(name), name, timestamp, text, isError))]);
      if IsEditCall(ToolName(name))
      then rows.(outcomes := [(EditKey(file, callId), Outcome(successful, if successful then warnings else []))])
      else rows
    case User(entryId, timestamp, text) =>
      if text == "" then NO_ROWS
      else NO_ROWS.(users := [(MessageKey(file, seqNo), UserRow(entryId, timestamp, text))])
  }

  lemma {:induction false} AssistantLine(file: string, seqNo: nat, e: Event)
    requires e.Assistant?
    ensures ItemsBatch(file, seqNo, e, e.content[..0]) == NO_ROWS
    ensures TextsOf(e.content[..0], false) == TextsOf(e.content[..0], true) == []
    ensures e.content[..|e.content|] == e.content
    ensures var text, thinking := Blob(TextsOf(e.content, false)), Blob(TextsOf(e.content, true));
      var rows := ItemsBatch(file, seqNo, e, e.content);
      LineBatch(file, seqNo, e) ==
        if text == None && thinking == None then rows
        else rows.(assistant := rows.assistant
                     + [(MessageKey(file, seqNo),
                         AssistantRow(e.entryId, e.timestamp, e.model, e.provider, text, thinking))])
  {
    hide Blob;
  }

  /** The rows of consecutive lines, the first of which is line number `start` of the file. */
  function LogBatch(file: string, start: nat, lines: seq<Line>): (b: Batch)
    ensures b.IsOf(file)
  {
    if lines == [] then NO_ROWS
    else
      LogBatch(file, start, lines[..|lines| - 1])
        .Plus(LineBatch(file, start + |lines| - 1, lines[|lines| - 1].event))
  }

  /** Only the very first line of the file can be the header. */
  function MetaOf(start: nat, lines: seq<Line>): Meta {
    if start == 0 && lines != [] && lines[0].event.Header? then lines[0].event.meta else NO_META
  }

  // ------------------------------------------------------------ the parser

  lemma {:induction false} NothingRead(file: string, start: nat, lines: seq<Line>)
    ensures LogBatch(file, start, lines[..0]) == NO_ROWS
    ensures Bytes(lines[..0]) == 0 && MetaOf(start, lines[..0]) == NO_META
    ensures lines[..|lines|] == lines
  {
  }

  /** One more line of a log. */
  lemma {:induction false} LineStep(file: string, start: nat, lines: seq<Line>, i: nat)
    requires i < |lines|
    ensures var before, e := LogBatch(file, start, lines[..i]), lines[i].event;
      && LogBatch(file, start, lines[..i + 1]) == before.Plus(LineBatch(file, start + i, e))
      && (e.NoEntry? || e.Header? ==> before.Plus(LineBatch(file, start + i, e)) == before)
    ensures Bytes(lines[..i + 1]) == Bytes(lines[..i]) + lines[i].size
    ensures MetaOf(start, lines[..i + 1])
         == if start == 0 && i == 0 && lines[0].event.Header? then lines[0].event.meta else MetaOf(start, lines[..i])
  {
    hide ItemsBatch, TextsOf;
    assert lines[..i + 1][..i] == lines[..i];
    assert lines[..i + 1][0] == lines[0] && (i > 0 ==> lines[..i][0] == lines[0]);
  }

  class SessionRecords {
    const file: string
    var meta: Meta
    var calls: seq<(Key, CallRow)>
    var results: seq<(Key, ResultRow)>
    var assistant: seq<(Key, AssistantRow)>
    var users: seq<(Key, UserRow)>
    var stubs: seq<(Key, Stub)>
    var outcomes: seq<(Key, Outcome)>
    var sections: seq<(Key, SectionRow)>
    var finalOffset: nat
    var finalLineCount: nat

    constructor (file: string, startingOffset: nat, startingSeq: nat)
      ensures this.file == file && Contents() == NO_ROWS && meta == NO_META
      ensures finalOffset == startingOffset && finalLineCount == startingSeq
    {
      this.file, meta := file, NO_META;
      calls, results, assistant, users, stubs, outcomes, sections := [], [], [], [], [], [], [];
      finalOffset, finalLineCount := startingOffset, startingSeq;
    }

    function Contents(): Batch
      reads this
    {
      Batch(calls, results, assistant, users, stubs, outcomes, sections)
    }

    method IngestEditCall(seqNo: nat, e: Event, item: Item)
      requires e.Assistant? && item.ToolCall?
      modifies this`stubs, this`sections
      ensures stubs == old(stubs) + [(EditKey(file, item.id), Stub(seqNo, e.timestamp, item.inputLength))]
      ensures sections == old(sections) + SectionRows(file, seqNo, item.id, item.sections)
    {
      stubs := stubs + [(EditKey(file, item.id), Stub(seqNo, e.timestamp, item.inputLength))];
      ghost var rows := SectionRows(file, seqNo, item.id, item.sections);
      for i := 0 to |item.sections|
        invariant stubs == old(stubs) + [(EditKey(file, item.id), Stub(seqNo, e.timestamp, item.inputLength))]
        invariant sections == old(sections) + rows[..i]
      {
        sections := sections + [(SectionKey(file, item.id, i), SectionRow(seqNo, item.sections[i]))];
        assert rows[..i + 1] == rows[..i] + [rows[i]];
      }
      assert rows[..|item.sections|] == rows;
    }

    method IngestToolCall(seqNo: nat, e: Event, item: Item)
      requires e.Assistant? && item.ToolCall?
      modifies this`calls, this`stubs, this`sections
      ensures Contents() == old(Contents()).Plus(CallBatch(file, seqNo, e, item))
    {
      hide SectionRows, ToolName;
      calls := calls + [(CallKey(file, item.id, seqNo),
                         CallRow(e.entryId, ToolName(item.name), item.name, e.timestamp, e.model, e.provider,
                                 item.argJson))];
      if IsEditCall(ToolName(item.name)) {
        IngestEditCall(seqNo, e, item);
      }
    }

    method IngestAssistant(seqNo: nat, e: Event)
      requires e.Assistant?
      modifies this`calls, this`assistant, this`stubs, this`sections
      ensures Contents() == old(Contents()).Plus(LineBatch(file, seqNo, e))
    {
      hide SectionRows, JoinLines, ToolName, ItemsBatch, TextsOf, LineBatch, CallBatch, Blob;
      AssistantLine(file, seqNo, e);
      var textParts: seq<string>, thinkingParts: seq<string> := [], [];
      for i := 0 to |e.content|
        invariant assistant == old(assistant)
        invariant textParts == TextsOf(e.content[..i], false) && thinkingParts == TextsOf(e.content[..i], true)
        invariant Contents() == old(Contents()).Plus(ItemsBatch(file, seqNo, e, e.content[..i]))
      {
        var item := e.content[i];
        ItemsStep(file, seqNo, e, i);
        match item
        case ToolCall(_, _, _, _, _) =>
          IngestToolCall(seqNo, e, item);
          PlusAssociates(old(Contents()), ItemsBatch(file, seqNo, e, e.content[..i]), CallBatch(file, seqNo, e, item));
        case Thinking(text) =>
          if text != "" { thinkingParts := thinkingParts + [text]; }
        case Prose(text) =>
          if text != "" { textParts := textParts + [text]; }
        case OtherItem =>
      }
      var textBlob, thinkingBlob := Blob(textParts), Blob(thinkingParts);
      if textBlob.Some? || thinkingBlob.Some? {
        assistant := assistant + [(MessageKey(file, seqNo),
                                   AssistantRow(e.entryId, e.timestamp, e.model, e.provider, textBlob, thinkingBlob))];
      }
    }

    method IngestToolResult(seqNo: nat, e: Event)
      requires e.ToolResult?
      modifies this`results, this`outcomes
      ensures Contents() == old(Contents()).Plus(LineBatch(file, seqNo, e))
    {
      results := results + [(CallKey(file, e.callId, seqNo),
                             ResultRow(e.entryId, ToolName(e.name), e.name, e.timestamp, e.text, e.isError))];
      if IsEditCall(ToolName(e.name)) {
        var warnings := if e.successful then e.warnings else [];
        outcomes := outcomes + [(EditKey(file, e.callId), Outcome(e.successful, warnings))];
      }
    }

    method IngestUser(seqNo: nat, e: Event)
      requires e.User?
      modifies this`users
      ensures Contents() == old(Contents()).Plus(LineBatch(file, seqNo, e))
    {
      if e.text == "" { return; }
      users := users + [(MessageKey(file, seqNo), UserRow(e.entryId, e.timestamp, e.text))];
    }

    /** Reads `lines`, the part of the file from the starting offset on. */
    method ParseLines(lines: seq<Line>)
      requires Contents() == NO_ROWS && meta == NO_META
      modifies this
      ensures Contents() == LogBatch(file, old(finalLineCount), lines)
      ensures meta == MetaOf(old(finalLineCount), lines)
      ensures finalOffset == old(finalOffset) + Bytes(lines)
      ensures finalLineCount == old(finalLineCount) + |lines|
    {
      hide LineBatch, LogBatch, Bytes, MetaOf;
      NothingRead(file, finalLineCount, lines);
      var seqNo, offset := finalLineCount, finalOffset;
      for i := 0 to |lines|
        invariant seqNo == old(finalLineCount) + i && offset == old(finalOffset) + Bytes(lines[..i])
        invariant Contents() == LogBatch(file, old(finalLineCount), lines[..i])
        invariant meta == MetaOf(old(finalLineCount), lines[..i])
      {
        LineStep(file, old(finalLineCount), lines, i);
        offset := offset + lines[i].size;
        var e := lines[i].event;
        match e {
          case NoEntry =>
          case Header(m) =>
            if seqNo == 0 { meta := m; }
          case Assistant(_, _, _, _, _) =>
            IngestAssistant(seqNo, e);
          case ToolResult(_, _, _, _, _, _, _, _) =>
            IngestToolResult(seqNo, e);
          case User(_, _, _) =>
            IngestUser(seqNo, e);
        }
        seqNo := seqNo + 1;
      }
      finalOffset, finalLineCount := offset, seqNo;
    }
  }

  // ------------------------------------------------------------ reading in parts

  /** Reading on from line number `start + |a|` adds the rows that reading everything at once adds. */
  lemma {:induction false} LogBatchConcat(file: string, start: nat, a: seq<Line>, b: seq<Line>)
    ensures LogBatch(file, start, a + b) == LogBatch(file, start, a).Plus(LogBatch(file, start + |a|, b))
    decreases |b|
  {
    if b == [] {
      assert a + b == a;
      PlusAssociates(LogBatch(file, start, a), NO_ROWS, NO_ROWS);
    } else {
      var front := b[..|b| - 1];
      assert (a + b)[..|a + b| - 1] == a + front;
      LogBatchConcat(file, start, a, front);
      PlusAssociates(LogBatch(file, start, a), LogBatch(file, start + |a|, front),
                     LineBatch(file, start + |a| + |b| - 1, b[|b| - 1].event));
    }
  }

  lemma {:induction false} BytesConcat(a: seq<Line>, b: seq<Line>)
    ensures Bytes(a + b) == Bytes(a) + Bytes(b)
    decreases |b|
  {
    if b == [] {
      assert a + b == a;
    } else {
      assert (a + b)[..|a + b| - 1] == a + b[..|b| - 1];
      BytesConcat(a, b[..|b| - 1]);
    }
  }

  lemma {:induction false} BytesAtLeast(log: Log)
    ensures Bytes(log) >= |log|
    decreases |log|
  {
    if log != [] {
      BytesAtLeast(log[..|log| - 1]);
    }
  }
}
