/** The rest of the `read` builtin: reading one line character by character with escapes, a
    delimiter and a length limit, and assigning the split fields to the named variables. The input
    is a finite sequence of events; after its last event there is only end of file. */
module ReadBuiltin {
  import opened Options

  const BACKSLASH: char := '\\'

  datatype InputEvent = Character(c: char) | Eof | Timeout | CtrlC | CtrlD

  datatype ReadResult =
    | Line(text: string)
    | AtEof(partial: Option<string>)
    | Interrupted
    | TimedOut(partial: Option<string>)

  datatype LineConfig = LineConfig(delimiter: Option<char>, charLimit: Option<nat>, processEscapes: bool)

  /** The input is read a byte at a time, so a character above 7 bits takes two bytes of UTF-8. */
  function ByteLength(s: string): nat {
    if s == "" then 0 else ByteLength(s[..|s| - 1]) + (if s[|s| - 1] as int < 0x80 then 1 else 2)
  }

  /** A control character that is not ASCII whitespace. */
  predicate IsIgnored(c: char) {
    (c as int < 0x20 || c as int == 0x7F) && c !in {'\t', '\n', '\r', 0x0C as char}
  }

  predicate LimitReached(config: LineConfig, line: string) {
    config.charLimit.Some? && ByteLength(line) >= config.charLimit.value
  }

  function NonEmpty(s: string): Option<string> {
    if s == "" then None else Some(s)
  }

  /** What one event makes of the line so far and of a pending backslash. */
  datatype Progress = More(line: string, pending: bool) | Finished(result: ReadResult)

  function Push(config: LineConfig, line: string, c: char): Progress {
    if LimitReached(config, line + [c]) then Finished(Line(line + [c])) else More(line + [c], false)
  }

  function OnEvent(config: LineConfig, line: string, pending: bool, event: InputEvent): Progress {
    match event
    case Eof => Finished(AtEof(NonEmpty(line)))
    case Timeout => Finished(TimedOut(NonEmpty(if pending then line + [BACKSLASH] else line)))
    case CtrlC => Finished(Interrupted)
    case CtrlD => Finished(if line == "" && !pending then AtEof(None) else Line(line))
    case Character(c) =>
      if config.processEscapes && pending then
        if config.delimiter == Some(c) then More(line, false) else Push(config, line, c)
      else if config.processEscapes && c == BACKSLASH then More(line, true)
      else if config.delimiter == Some(c) then Finished(Line(line))
      else if IsIgnored(c) then More(line, pending)
      else Push(config, line, c)
  }

  /** Reading from the middle of a line: the result and how many events it took. */
  function ReadFrom(config: LineConfig, events: seq<InputEvent>, line: string, pending: bool): (ReadResult, nat) {
    if events == [] then (AtEof(NonEmpty(line)), 0)
    else
      match OnEvent(config, line, pending, events[0])
      case Finished(result) => (result, 1)
      case More(l, p) =>
        var (result, used) := ReadFrom(config, events[1..], l, p);
        (result, used + 1)
  }

  method ReadLineWithReader(config: LineConfig, events: seq<InputEvent>) returns (result: ReadResult, used: nat)
    ensures (result, used) == ReadFrom(config, events, "", false)
    ensures used <= |events|
  {
    var line := "";
    var pendingBackslash := false;
    used := 0;
    assert events[0..] == events;
    while true
      invariant used <= |events|
      invariant !config.processEscapes ==> !pendingBackslash
      invariant var (r, n) := ReadFrom(config, events[used..], line, pendingBackslash);
                ReadFrom(config, events, "", false) == (r, used + n)
      decreases |events| - used
    {
      if used == |events| {
        return AtEof(NonEmpty(line)), used;
      }
      var event := events[used];
      assert events[used..][0] == event && events[used..][1..] == events[used + 1..];
      used := used + 1;
      match event {
        case Eof =>
          return AtEof(NonEmpty(line)), used;
        case Timeout =>
          if pendingBackslash {
            line := line + [BACKSLASH];
          }
          return TimedOut(NonEmpty(line)), used;
        case CtrlC =>
          return Interrupted, used;
        case CtrlD =>
          if line == "" && !pendingBackslash {
            return AtEof(None), used;
          }
          return Line(line), used;
        case Character(c) =>
          if config.processEscapes {
            if pendingBackslash {
              pendingBackslash := false;
              if config.delimiter == Some(c) {
                continue;
              }
              line := line + [c];
              if LimitReached(config, line) {
                return Line(line), used;
              }
              continue;
            }
            if c == BACKSLASH {
              pendingBackslash := true;
              continue;
            }
          }
          if config.delimiter == Some(c) {
            return Line(line), used;
          }
          if IsIgnored(c) {
            continue;
          }
          line := line + [c];
          if LimitReached(config, line) {
            return Line(line), used;
          }
      }
    }
  }

  // ------------------------------------------------------------ what a read returns

  function Typed(s: string): seq<InputEvent> {
    seq(|s|, i requires 0 <= i < |s| => Character(s[i]))
  }

  /** Every character escaped. */
  function Escaped(s: string): string {
    if s == "" then "" else [BACKSLASH, s[0]] + Escaped(s[1..])
  }

  lemma {:induction false} TypedAppend(a: string, b: string)
    ensures Typed(a + b) == Typed(a) + Typed(b)
  {
  }

  lemma {:induction false} EscapedFrom(config: LineConfig, s: string, rest: seq<InputEvent>, line: string)
    requires config.processEscapes && config.charLimit.None?
    requires config.delimiter.Some? ==> config.delimiter.value !in s
    ensures ReadFrom(config, Typed(Escaped(s)) + rest, line, false)
         == (var (r, n) := ReadFrom(config, rest, line + s, false); (r, n + 2 * |s|))
    decreases |s|
  {
    if s == "" {
      assert Typed("") + rest == rest && line + s == line;
    } else {
      var events := Typed(Escaped(s)) + rest;
      var tail := Typed(Escaped(s[1..])) + rest;
      assert events[0] == Character(BACKSLASH) && events[1] == Character(s[0]);
      assert events[1..][0] == Character(s[0]) && events[1..][1..] == tail;
      EscapedFrom(config, s[1..], rest, line + [s[0]]);
      assert line + [s[0]] + s[1..] == line + s;
    }
  }

  /** Reading undoes escaping: any text without the delimiter comes back exactly, control characters
      and backslashes included, and the delimiter is consumed. An escaped delimiter in between is a
      line continuation and leaves nothing. */
  lemma {:induction false} EscapeRoundTrip(config: LineConfig, s: string, t: string, rest: seq<InputEvent>)
    requires config.processEscapes && config.charLimit.None?
    requires config.delimiter.Some? && config.delimiter.value != BACKSLASH
    requires config.delimiter.value !in s && config.delimiter.value !in t
    ensures var d := config.delimiter.value;
      && ReadFrom(config, Typed(Escaped(s)) + ([Character(d)] + rest), "", false) == (Line(s), 2 * |s| + 1)
      && ReadFrom(config, Typed(Escaped(s)) + ([Character(BACKSLASH), Character(d)]
                                               + (Typed(Escaped(t)) + ([Character(d)] + rest))), "", false)
           == (Line(s + t), 2 * |s| + 2 * |t| + 3)
  {
    var d := config.delimiter.value;
    var stop := [Character(d)] + rest;
    assert stop[0] == Character(d);
    EscapedFrom(config, s, stop, "");
    assert "" + s == s;
    var second := Typed(Escaped(t)) + stop;
    var middle := [Character(BACKSLASH), Character(d)] + second;
    EscapedFrom(config, s, middle, "");
    assert middle[1..][0] == Character(d) && middle[1..][1..] == second;
    assert ReadFrom(config, middle, s, false) == (var (r, n) := ReadFrom(config, second, s, false); (r, n + 2));
    EscapedFrom(config, t, stop, s);
  }

  /** The characters a raw read keeps. */
  function Kept(s: string): string {
    if s == "" then "" else (if IsIgnored(s[0]) then "" else [s[0]]) + Kept(s[1..])
  }

  lemma {:induction false} RawFrom(config: LineConfig, s: string, rest: seq<InputEvent>, line: string)
    requires !config.processEscapes && config.charLimit.None?
    requires config.delimiter.Some? ==> config.delimiter.value !in s
    ensures ReadFrom(config, Typed(s) + rest, line, false)
         == (var (r, n) := ReadFrom(config, rest, line + Kept(s), false); (r, n + |s|))
    decreases |s|
  {
    if s == "" {
      assert Typed("") + rest == rest && line + Kept(s) == line;
    } else {
      var tail := Typed(s[1..]) + rest;
      assert Typed(s) + rest == [Character(s[0])] + tail;
      var next := if IsIgnored(s[0]) then line else line + [s[0]];
      assert OnEvent(config, line, false, Character(s[0])) == More(next, false);
      assert next + Kept(s[1..]) == line + Kept(s);
      hide ReadFrom, OnEvent, Kept, Typed;
      Advance(config, Character(s[0]), tail, line, false);
      RawFrom(config, s[1..], rest, next);
    }
  }

  lemma {:induction false} Advance(config: LineConfig, event: InputEvent, tail: seq<InputEvent>, line: string,
                                   pending: bool)
    requires OnEvent(config, line, pending, event).More?
    ensures var p := OnEvent(config, line, pending, event);
            ReadFrom(config, [event] + tail, line, pending)
            == (ReadFrom(config, tail, p.line, p.pending).0, ReadFrom(config, tail, p.line, p.pending).1 + 1)
  {
    assert ([event] + tail)[1..] == tail;
  }

  /** Successive raw reads of an input: the lines, and what is left after the last delimiter. */
  function ReadAll(config: LineConfig, events: seq<InputEvent>, count: nat): seq<ReadResult>
    decreases count
  {
    if count == 0 then []
    else
      ReadFromBound(config, events, "", false);
      var (r, n) := ReadFrom(config, events, "", false);
      [r] + ReadAll(config, events[n..], count - 1)
  }

  lemma {:induction false} ReadFromBound(config: LineConfig, events: seq<InputEvent>, line: string, pending: bool)
    ensures ReadFrom(config, events, line, pending).1 <= |events|
    decreases |events|
  {
    if events != [] && OnEvent(config, line, pending, events[0]).More? {
      var p := OnEvent(config, line, pending, events[0]);
      ReadFromBound(config, events[1..], p.line, p.pending);
    }
  }

  function Terminated(lines: seq<string>, d: char): string {
    if lines == [] then "" else lines[0] + [d] + Terminated(lines[1..], d)
  }

  lemma {:induction false} RawOneLine(config: LineConfig, l: string, d: char, rest: seq<InputEvent>)
    requires !config.processEscapes && config.charLimit.None? && config.delimiter == Some(d)
    requires d !in l && Kept(l) == l
    ensures ReadFrom(config, Typed(l) + ([Character(d)] + rest), "", false) == (Line(l), |l| + 1)
    ensures |Typed(l)| == |l|
  {
    var stop := [Character(d)] + rest;
    RawFrom(config, l, stop, "");
    assert "" + Kept(l) == l;
    assert ReadFrom(config, stop, l, false) == (Line(l), 1);
  }

  /** Reading a text of delimiter-terminated lines, one raw read after another, yields the lines
      one by one and then end of file. */
  lemma {:induction false} RawLines(config: LineConfig, lines: seq<string>, d: char)
    requires !config.processEscapes && config.charLimit.None? && config.delimiter == Some(d)
    requires forall l :: l in lines ==> d !in l && Kept(l) == l
    ensures ReadAll(config, Typed(Terminated(lines, d)), |lines| + 1)
         == LinesThenEnd(lines)
    decreases |lines|
  {
    hide *;
    if lines == [] {
      NothingTyped(config, d);
    } else {
      var rest := Typed(Terminated(lines[1..], d));
      assert lines[0] in lines && forall l :: l in lines[1..] ==> l in lines;
      TerminatedUnfolds(lines, d);
      RawOneLine(config, lines[0], d, rest);
      var events := Typed(lines[0]) + ([Character(d)] + rest);
      ReadAllUnfolds(config, events, |lines| + 1);
      assert events[|lines[0]| + 1..] == rest;
      RawLines(config, lines[1..], d);
      LinesUnfold(lines);
    }
  }

  function LinesThenEnd(lines: seq<string>): seq<ReadResult> {
    if lines == [] then [AtEof(None)] else [Line(lines[0])] + LinesThenEnd(lines[1..])
  }

  lemma {:induction false} LinesUnfold(lines: seq<string>)
    requires lines != []
    ensures LinesThenEnd(lines) == [Line(lines[0])] + LinesThenEnd(lines[1..])
  {
  }

  lemma {:induction false} NothingTyped(config: LineConfig, d: char)
    ensures ReadAll(config, Typed(Terminated([], d)), 1) == LinesThenEnd([])
  {
    assert Typed(Terminated([], d)) == [];
    ReadAllUnfolds(config, [], 1);
  }

  lemma {:induction false} ReadAllUnfolds(config: LineConfig, events: seq<InputEvent>, count: nat)
    ensures ReadFrom(config, events, "", false).1 <= |events|
    ensures ReadAll(config, events, 0) == []
    ensures count > 0 ==>
      var (r, n) := ReadFrom(config, events, "", false);
      ReadAll(config, events, count) == [r] + ReadAll(config, events[n..], count - 1)
  {
    ReadFromBound(config, events, "", false);
    hide ReadFrom;
  }

  lemma {:induction false} TerminatedUnfolds(lines: seq<string>, d: char)
    requires lines != []
    ensures Typed(Terminated(lines, d)) == Typed(lines[0]) + ([Character(d)] + Typed(Terminated(lines[1..], d)))
  {
    TypedAppend(lines[0] + [d], Terminated(lines[1..], d));
    TypedAppend(lines[0], [d]);
  }

  ghost predicate TextIs(r: ReadResult, s: string) {
    match r
    case Line(t) => t == s
    case AtEof(p) => (if p.Some? then p.value else "") == s
    case Interrupted => false
    case TimedOut(p) => (if p.Some? then p.value else "") == s
  }

  function WithoutLimit(config: LineConfig): LineConfig { config.(charLimit := None) }

  /** The limited result is the unlimited one, or stops early with a prefix of it that has just
      reached the limit: one character fewer would not have. */
  ghost predicate StopsEarly(config: LineConfig, limited: (ReadResult, nat), free: (ReadResult, nat))
    requires config.charLimit.Some?
  {
    || limited == free
    || (&& limited.0.Line? && limited.1 <= free.1
        && ByteLength(limited.0.text) >= config.charLimit.value
        && limited.0.text != "" && ByteLength(limited.0.text[..|limited.0.text| - 1]) < config.charLimit.value
        && (free.0.Interrupted? || exists s :: TextIs(free.0, s) && limited.0.text <= s))
  }

  lemma {:induction false} LimitStopsEarly(config: LineConfig, events: seq<InputEvent>, line: string, pending: bool)
    requires config.charLimit.Some? && config.charLimit.value >= 1
    requires !LimitReached(config, line)
    ensures StopsEarly(config, ReadFrom(config, events, line, pending),
              ReadFrom(WithoutLimit(config), events, line, pending))
    decreases |events|
  {
    ReadUnfolds(config, events, line, pending);
    ReadUnfolds(WithoutLimit(config), events, line, pending);
    hide OnEvent, ReadFrom, LimitReached, ByteLength, TextIs;
    if events != [] {
      var p, q := OnEvent(config, line, pending, events[0]), OnEvent(WithoutLimit(config), line, pending, events[0]);
      LimitAtEvent(config, line, pending, events[0]);
      if p.More? {
        LimitStopsEarly(config, events[1..], p.line, p.pending);
      } else if p != q {
        Extends(WithoutLimit(config), events[1..], q.line, q.pending);
        var (r, n) := ReadFrom(WithoutLimit(config), events[1..], q.line, q.pending);
        assert StopsEarly(config, (Line(q.line), 1), (r, n + 1));
      }
    }
  }

  lemma {:induction false} ReadUnfolds(config: LineConfig, events: seq<InputEvent>, line: string, pending: bool)
    ensures ReadFrom(config, events, line, pending)
         == if events == [] then (AtEof(NonEmpty(line)), 0)
            else match OnEvent(config, line, pending, events[0])
                 case Finished(result) => (result, 1)
                 case More(l, p) =>
                   var (result, used) := ReadFrom(config, events[1..], l, p);
                   (result, used + 1)
  {
    hide OnEvent;
  }

  /** At one event the limit changes nothing, or it ends the line right after a character that
      reaches it. */
  lemma {:induction false} LimitAtEvent(config: LineConfig, line: string, pending: bool, event: InputEvent)
    requires config.charLimit.Some? && config.charLimit.value >= 1
    requires !LimitReached(config, line)
    ensures var p, q := OnEvent(config, line, pending, event), OnEvent(WithoutLimit(config), line, pending, event);
      && (p.More? ==> q == p && !LimitReached(config, p.line))
      && (p != q ==>
            && q.More? && p == Finished(Line(q.line)) && q.line != "" && q.line[..|q.line| - 1] == line
            && ByteLength(q.line) >= config.charLimit.value && ByteLength(line) < config.charLimit.value)
  {
    if event.Character? {
      assert (line + [event.c])[..|line|] == line;
    }
    hide ByteLength;
  }

  /** Whatever follows, the text already collected stays a prefix of the result. */
  lemma {:induction false} Extends(config: LineConfig, events: seq<InputEvent>, line: string, pending: bool)
    ensures var (r, n) := ReadFrom(config, events, line, pending);
            r.Interrupted? || exists s :: TextIs(r, s) && line <= s
    decreases |events|
  {
    var (r, n) := ReadFrom(config, events, line, pending);
    if events == [] {
      assert TextIs(r, line);
    } else {
      var p := OnEvent(config, line, pending, events[0]);
      if p.More? {
        Extends(config, events[1..], p.line, p.pending);
        if !r.Interrupted? {
          var s :| TextIs(r, s) && p.line <= s;
          assert line <= p.line <= s;
        }
      } else if !r.Interrupted? {
        var s := if events[0].Timeout? && pending then line + [BACKSLASH]
                 else if events[0].Character? && r.text != line then line + [events[0].c] else line;
        assert TextIs(r, s) && line <= s;
      }
    }
  }
}
