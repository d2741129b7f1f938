/** Reading a line as it is typed: every character plain or after a backslash, in any mixture, and every
    way in which the line can end. */
module ReadTyping {
  import opened Options
  import opened ReadBuiltin

  /** A character typed as it is, or after a backslash. */
  datatype Stroke = Plain(c: char) | Slashed(c: char)

  function Strokes(strokes: seq<Stroke>): seq<InputEvent> {
    if strokes == [] then []
    else Strokes(strokes[..|strokes| - 1]) + EventsOf(strokes[|strokes| - 1])
  }

  function EventsOf(s: Stroke): seq<InputEvent> {
    if s.Plain? then [Character(s.c)] else [Character('\\'), Character(s.c)]
  }

  /** The characters that a read drops: the control characters but tab, line feed, form feed and carriage
      return. */
  predicate IsDropped(c: char) {
    var n := c as int;
    n <= 8 || n == 11 || 14 <= n <= 31 || n == 127
  }

  /** What one stroke stands for: an escaped delimiter continues the line and leaves nothing. */
  function Meant(s: Stroke, delimiter: Option<char>): string {
    if s.Plain? then (if IsDropped(s.c) then "" else [s.c])
    else if delimiter == Some(s.c) then "" else [s.c]
  }

  function Text(strokes: seq<Stroke>, delimiter: Option<char>): string {
    if strokes == [] then ""
    else Text(strokes[..|strokes| - 1], delimiter) + Meant(strokes[|strokes| - 1], delimiter)
  }

  /** A plain stroke is no delimiter, and no backslash either where that escapes; where it does not, all
      strokes are plain. */
  ghost predicate CanBeTyped(config: LineConfig, strokes: seq<Stroke>) {
    forall i :: 0 <= i < |strokes| ==>
      && (strokes[i].Plain? ==> config.delimiter != Some(strokes[i].c))
      && (if config.processEscapes then strokes[i].Plain? ==> strokes[i].c != '\\' else strokes[i].Plain?)
  }

  /** A text does not reach the limit. */
  ghost predicate Below(config: LineConfig, text: string) {
    config.charLimit.Some? ==> text == "" || BytesOf(text) < config.charLimit.value
  }

  /** Two bytes for every character above 7 bits, one for every other. */
  ghost function BytesOf(text: string): nat {
    |text| + |set i | 0 <= i < |text| && text[i] as int >= 0x80|
  }

  lemma {:induction false} BytesAreLength(text: string)
    ensures ByteLength(text) == BytesOf(text)
  {
    var wide := set i | 0 <= i < |text| && text[i] as int >= 0x80;
    if text != "" {
      var n := |text| - 1;
      var front := text[..n];
      BytesAreLength(front);
      var before := set i | 0 <= i < |front| && front[i] as int >= 0x80;
      assert wide == before + (if text[n] as int >= 0x80 then {n} else {});
    }
  }

  lemma {:induction false} DroppedIsIgnored(c: char)
    ensures IsIgnored(c) <==> IsDropped(c)
  {
  }

  lemma {:induction false} LongerText(config: LineConfig, line: string, more: string)
    requires Below(config, line + more) && line != ""
    ensures Below(config, line)
  {
    BytesAreLength(line + more);
    BytesAreLength(line);
    LengthGrows(line, more);
    hide BytesOf, ByteLength;
  }

  lemma {:induction false} LengthGrows(line: string, more: string)
    ensures ByteLength(line) <= ByteLength(line + more)
    decreases |more|
  {
    if more == "" {
      assert line + more == line;
    } else {
      assert (line + more)[..|line + more| - 1] == line + more[..|more| - 1];
      LengthGrows(line, more[..|more| - 1]);
    }
  }

  lemma {:induction false} PlainEvent(config: LineConfig, s: Stroke, line: string)
    requires CanBeTyped(config, [s]) && s.Plain? && Below(config, line + Meant(s, config.delimiter))
    ensures OnEvent(config, line, false, Character(s.c)) == More(line + Meant(s, config.delimiter), false)
  {
    assert [s][0] == s && line + "" == line;
    DroppedIsIgnored(s.c);
    BytesAreLength(line + Meant(s, config.delimiter));
    hide BytesOf, ByteLength, IsIgnored, IsDropped;
  }

  lemma {:induction false} SlashedEvents(config: LineConfig, s: Stroke, line: string)
    requires CanBeTyped(config, [s]) && s.Slashed? && Below(config, line + Meant(s, config.delimiter))
    ensures OnEvent(config, line, false, Character('\\')) == More(line, true)
    ensures OnEvent(config, line, true, Character(s.c)) == More(line + Meant(s, config.delimiter), false)
  {
    assert [s][0] == s && line + "" == line;
    BytesAreLength(line + Meant(s, config.delimiter));
    hide BytesOf, ByteLength;
  }

  /** One stroke that does not reach the limit. */
  lemma {:induction false} StrokeTaken(config: LineConfig, s: Stroke, tail: seq<InputEvent>, line: string)
    requires CanBeTyped(config, [s]) && Below(config, line + Meant(s, config.delimiter))
    ensures var next := line + Meant(s, config.delimiter);
      ReadFrom(config, EventsOf(s) + tail, line, false)
        == (ReadFrom(config, tail, next, false).0, ReadFrom(config, tail, next, false).1 + |EventsOf(s)|)
  {
    hide ReadFrom, OnEvent, Meant, CanBeTyped, Below;
    if s.Plain? {
      PlainEvent(config, s, line);
      Advance(config, Character(s.c), tail, line, false);
    } else {
      SlashedEvents(config, s, line);
      Advance(config, Character(s.c), tail, line, true);
      Advance(config, Character('\\'), [Character(s.c)] + tail, line, false);
      assert EventsOf(s) + tail == [Character('\\')] + ([Character(s.c)] + tail);
    }
  }

  /** Any strokes that do not reach the limit. */
  lemma {:induction false} StrokesTaken(config: LineConfig, strokes: seq<Stroke>, tail: seq<InputEvent>)
    requires CanBeTyped(config, strokes) && Below(config, Text(strokes, config.delimiter))
    ensures var text := Text(strokes, config.delimiter);
      ReadFrom(config, Strokes(strokes) + tail, "", false)
        == (ReadFrom(config, tail, text, false).0, ReadFrom(config, tail, text, false).1 + |Strokes(strokes)|)
    decreases |strokes|
  {
    hide ReadFrom, Meant, EventsOf;
    if strokes == [] {
      assert [] + tail == tail;
    } else {
      var front, last := strokes[..|strokes| - 1], strokes[|strokes| - 1];
      var before := Text(front, config.delimiter);
      assert CanBeTyped(config, [last]) && CanBeTyped(config, front);
      if before != "" {
        LongerText(config, before, Meant(last, config.delimiter));
      }
      StrokesTaken(config, front, EventsOf(last) + tail);
      StrokeTaken(config, last, tail, before);
      assert Strokes(strokes) + tail == Strokes(front) + (EventsOf(last) + tail);
    }
  }

  /** A typed line and its delimiter are read as the text it stands for, with every event up to the
      delimiter taken and none after it: one for a plain character, two for an escaped one. */
  lemma {:induction false} TypedLineIsRead(config: LineConfig, strokes: seq<Stroke>, rest: seq<InputEvent>)
    requires CanBeTyped(config, strokes) && Below(config, Text(strokes, config.delimiter))
    requires config.delimiter.Some? && (config.processEscapes ==> config.delimiter.value != '\\')
    ensures ReadFrom(config, Strokes(strokes) + ([Character(config.delimiter.value)] + rest), "", false)
         == (Line(Text(strokes, config.delimiter)), |Strokes(strokes)| + 1)
  {
    StrokesTaken(config, strokes, [Character(config.delimiter.value)] + rest);
    hide Text, Strokes;
  }

  /** How a typed line ends without its delimiter: at the end of the input, which may come as an event or
      not, with nothing to return if nothing was typed; by an interrupt; by the end-of-transmission key,
      which is an end of file only at the start of a line; or by a timeout. */
  lemma {:induction false} LineEnds(config: LineConfig, strokes: seq<Stroke>, rest: seq<InputEvent>)
    requires CanBeTyped(config, strokes) && Below(config, Text(strokes, config.delimiter))
    ensures var text, n := Text(strokes, config.delimiter), |Strokes(strokes)|;
      var kept := if text == "" then None else Some(text);
      && ReadFrom(config, Strokes(strokes), "", false) == (AtEof(kept), n)
      && ReadFrom(config, Strokes(strokes) + ([Eof] + rest), "", false) == (AtEof(kept), n + 1)
      && ReadFrom(config, Strokes(strokes) + ([CtrlC] + rest), "", false) == (Interrupted, n + 1)
      && ReadFrom(config, Strokes(strokes) + ([CtrlD] + rest), "", false)
           == (if text == "" then AtEof(None) else Line(text), n + 1)
      && ReadFrom(config, Strokes(strokes) + ([Timeout] + rest), "", false) == (TimedOut(kept), n + 1)
  {
    assert Strokes(strokes) + [] == Strokes(strokes);
    StrokesTaken(config, strokes, []);
    StrokesTaken(config, strokes, [Eof] + rest);
    StrokesTaken(config, strokes, [CtrlC] + rest);
    StrokesTaken(config, strokes, [CtrlD] + rest);
    StrokesTaken(config, strokes, [Timeout] + rest);
    hide Text, Strokes;
  }

  /** A backslash with nothing after it is lost at the end of the input, and kept by a timeout alone. */
  lemma {:induction false} LoneBackslash(config: LineConfig, strokes: seq<Stroke>, rest: seq<InputEvent>)
    requires config.processEscapes
    requires CanBeTyped(config, strokes) && Below(config, Text(strokes, config.delimiter))
    ensures var text, n := Text(strokes, config.delimiter), |Strokes(strokes)|;
      && ReadFrom(config, Strokes(strokes) + ([Character('\\'), Eof] + rest), "", false)
           == (AtEof(if text == "" then None else Some(text)), n + 2)
      && ReadFrom(config, Strokes(strokes) + ([Character('\\'), CtrlD] + rest), "", false) == (Line(text), n + 2)
      && ReadFrom(config, Strokes(strokes) + ([Character('\\'), Timeout] + rest), "", false)
           == (TimedOut(Some(text + "\\")), n + 2)
  {
    forall e: InputEvent
      ensures ([Character('\\'), e] + rest)[1..] == [e] + rest && ([e] + rest)[1..] == rest
    {
    }
    StrokesTaken(config, strokes, [Character('\\'), Eof] + rest);
    StrokesTaken(config, strokes, [Character('\\'), CtrlD] + rest);
    StrokesTaken(config, strokes, [Character('\\'), Timeout] + rest);
    hide Text, Strokes;
  }

  lemma {:induction false} StrokeEnds(config: LineConfig, s: Stroke, tail: seq<InputEvent>, line: string)
    requires CanBeTyped(config, [s]) && config.charLimit.Some? && Meant(s, config.delimiter) != ""
    requires BytesOf(line + Meant(s, config.delimiter)) >= config.charLimit.value
    ensures ReadFrom(config, EventsOf(s) + tail, line, false)
         == (Line(line + Meant(s, config.delimiter)), |EventsOf(s)|)
  {
    var next := line + Meant(s, config.delimiter);
    assert [s][0] == s;
    DroppedIsIgnored(s.c);
    BytesAreLength(next);
    hide BytesOf, ByteLength;
    var end := [Character(s.c)] + tail;
    assert OnEvent(config, line, s.Slashed?, Character(s.c)) == Finished(Line(next));
    assert ReadFrom(config, end, line, s.Slashed?) == (Line(next), 1);
    if s.Slashed? {
      assert OnEvent(config, line, false, Character('\\')) == More(line, true);
      Advance(config, Character('\\'), end, line, false);
      assert EventsOf(s) + tail == [Character('\\')] + end;
    }
    hide ReadFrom, OnEvent;
  }

  /** With a limit, the read ends right after the stroke whose character reaches it. */
  lemma {:induction false} LimitEndsLine(config: LineConfig, strokes: seq<Stroke>, s: Stroke, rest: seq<InputEvent>)
    requires CanBeTyped(config, strokes + [s]) && config.charLimit.Some?
    requires Below(config, Text(strokes, config.delimiter)) && Meant(s, config.delimiter) != ""
    requires BytesOf(Text(strokes + [s], config.delimiter)) >= config.charLimit.value
    ensures ReadFrom(config, Strokes(strokes + [s]) + rest, "", false)
         == (Line(Text(strokes + [s], config.delimiter)), |Strokes(strokes + [s])|)
  {
    hide ReadFrom, Meant, EventsOf, BytesOf;
    var all := strokes + [s];
    assert all[..|strokes|] == strokes && all[|strokes|] == s;
    assert forall i :: 0 <= i < |strokes| ==> all[i] == strokes[i];
    StrokesTaken(config, strokes, EventsOf(s) + rest);
    StrokeEnds(config, s, rest, Text(strokes, config.delimiter));
    assert Strokes(all) + rest == Strokes(strokes) + (EventsOf(s) + rest);
  }
}
