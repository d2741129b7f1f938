/** Splitting an input line into fields, as the `read` builtin does: a one-pass state machine over
    four flags, proved against a recursive definition that takes one field and one separator at a
    time. A separator is a maximal run of IFS whitespace, or one other IFS character. */
module IfsSplit {
  import opened Options

  /** The field limit that stands for "no limit", and the length no string exceeds. */
  const USIZE_MAX: nat := 0xFFFF_FFFF_FFFF_FFFF
  const ISIZE_MAX: nat := 0x7FFF_FFFF_FFFF_FFFF

  predicate IsDelimiter(ifs: string, c: char) {
    c in ifs
  }

  /** Space, tab or newline, when it is in IFS. */
  predicate IsIfsWhitespace(ifs: string, c: char) {
    (c == ' ' || c == '\t' || c == '\n') && c in ifs
  }

  function DropLeading(ifs: string, s: string): (r: string)
    ensures |r| <= |s|
    ensures r != "" ==> !IsIfsWhitespace(ifs, r[0])
  {
    if s != "" && IsIfsWhitespace(ifs, s[0]) then DropLeading(ifs, s[1..]) else s
  }

  function DropTrailing(ifs: string, s: string): (r: string)
    ensures r <= s
    ensures r != "" ==> !IsIfsWhitespace(ifs, r[|r| - 1])
  {
    if s != "" && IsIfsWhitespace(ifs, s[|s| - 1]) then DropTrailing(ifs, s[..|s| - 1]) else s
  }

  function Trim(ifs: string, line: string): string {
    DropTrailing(ifs, DropLeading(ifs, line))
  }

  /** The length of the longest prefix without IFS characters: the first field of `t`. */
  function FieldLength(ifs: string, t: string): (k: nat)
    ensures k <= |t|
    ensures forall i :: 0 <= i < k ==> !IsDelimiter(ifs, t[i])
    ensures k < |t| ==> IsDelimiter(ifs, t[k])
  {
    if t == "" || IsDelimiter(ifs, t[0]) then 0 else 1 + FieldLength(ifs, t[1..])
  }

  /** What follows the separator that starts at `k`: one character, or a whole whitespace run. */
  function AfterSeparator(ifs: string, t: string, k: nat): (r: string)
    requires k < |t| && IsDelimiter(ifs, t[k])
    ensures |r| < |t|
  {
    if IsIfsWhitespace(ifs, t[k]) then DropLeading(ifs, t[k + 1..]) else t[k + 1..]
  }

  /** At most `n` fields of a trimmed, non-empty line; the last one permitted takes the rest as it is. */
  function Fields(ifs: string, t: string, n: nat): (r: seq<string>)
    ensures |r| >= 1
    decreases |t|, 0
  {
    if n <= 1 then [DropLeading(ifs, t)]
    else
      var k := FieldLength(ifs, t);
      if k == |t| then [t]
      else [t[..k]] + FieldsAfter(ifs, AfterSeparator(ifs, t, k), n - 1, !IsIfsWhitespace(ifs, t[k]))
  }

  /** The fields after a separator: none when that was a single character at the end of the line. */
  function FieldsAfter(ifs: string, t: string, n: nat, afterCharacter: bool): seq<string>
    decreases |t|, 1
  {
    if t == "" && afterCharacter then [] else Fields(ifs, t, n)
  }

  /** All fields of a trimmed, non-empty line. */
  function AllFields(ifs: string, t: string): (r: seq<string>)
    ensures |r| >= 1
    decreases |t|
  {
    var k := FieldLength(ifs, t);
    if k == |t| then [t]
    else
      var rest := AfterSeparator(ifs, t, k);
      if rest == "" && !IsIfsWhitespace(ifs, t[k]) then [t[..k]] else [t[..k]] + AllFields(ifs, rest)
  }

  function Split(ifs: string, line: string): seq<string> {
    var t := Trim(ifs, line);
    if t == "" then [] else AllFields(ifs, t)
  }

  function SplitAtMost(ifs: string, line: string, n: nat): seq<string> {
    var t := Trim(ifs, line);
    if t == "" then [] else Fields(ifs, t, n)
  }

  // ------------------------------------------------------------ the state machine

  /** The fields still to come from a state of the machine: `n` more fields are permitted (the one
      being collected included), `current` is the field so far and `t` the input left. */
  function Pending(ifs: string, t: string, n: nat, current: string, skipping: bool, afterCharacter: bool,
                   collecting: bool): seq<string>
  {
    if collecting then [current + t]
    else if skipping then FieldsAfter(ifs, DropLeading(ifs, t), n, false)
    else FieldsAfter(ifs, current + t, n, afterCharacter)
  }

  /** The flags and the current field are consistent with each other. */
  predicate Consistent(ifs: string, n: nat, current: string, skipping: bool, afterCharacter: bool, collecting: bool) {
    && (skipping ==> !collecting)
    && (skipping || afterCharacter ==> current == "" || collecting)
    && (n <= 1 && !collecting ==> current == "")
    && (collecting ==> n <= 1 && current != "")
    && forall j :: 0 <= j < |current| && !collecting ==> !IsDelimiter(ifs, current[j])
  }

  lemma {:induction false} FieldLengthIs(ifs: string, current: string, c: char, u: string)
    requires forall j :: 0 <= j < |current| ==> !IsDelimiter(ifs, current[j])
    requires IsDelimiter(ifs, c)
    ensures FieldLength(ifs, current + [c] + u) == |current|
  {
    var t := current + [c] + u;
    var k := FieldLength(ifs, t);
    assert t[|current|] == c;
    assert forall j :: 0 <= j < |current| ==> t[j] == current[j];
  }

  lemma {:induction false} DropLeadingCons(ifs: string, c: char, u: string)
    ensures DropLeading(ifs, [c] + u) == if IsIfsWhitespace(ifs, c) then DropLeading(ifs, u) else [c] + u
  {
    assert ([c] + u)[1..] == u;
  }

  lemma {:induction false} FieldsUnfold(ifs: string, t: string, n: nat)
    ensures n <= 1 ==> Fields(ifs, t, n) == [DropLeading(ifs, t)]
    ensures n > 1 && FieldLength(ifs, t) == |t| ==> Fields(ifs, t, n) == [t]
    ensures var k := FieldLength(ifs, t);
      n > 1 && k < |t| ==>
        Fields(ifs, t, n) == [t[..k]] + FieldsAfter(ifs, AfterSeparator(ifs, t, k), n - 1, !IsIfsWhitespace(ifs, t[k]))
  {
  }

  /** One more character of a whitespace run. */
  lemma {:induction false} SkipStep(ifs: string, u: string, n: nat, c: char, current: string, afterCharacter: bool)
    requires IsIfsWhitespace(ifs, c)
    ensures Pending(ifs, [c] + u, n, current, true, afterCharacter, false)
         == Pending(ifs, u, n, current, true, afterCharacter, false)
  {
    DropLeadingCons(ifs, c, u);
  }

  /** A delimiter that ends a field. */
  lemma {:induction false} DelimiterStep(ifs: string, u: string, n: nat, c: char, current: string, skipping: bool,
                                         afterCharacter: bool)
    requires n > 1 && Consistent(ifs, n, current, skipping, afterCharacter, false)
    requires IsDelimiter(ifs, c) && !(skipping && IsIfsWhitespace(ifs, c))
    ensures Pending(ifs, [c] + u, n, current, skipping, afterCharacter, false)
         == [current] + Pending(ifs, u, n - 1, "", IsIfsWhitespace(ifs, c), !IsIfsWhitespace(ifs, c), false)
  {
    var t := current + [c] + u;
    assert current + ([c] + u) == t;
    assert skipping ==> t == [c] + u && DropLeading(ifs, [c] + u) == t by { DropLeadingCons(ifs, c, u); }
    FieldLengthIs(ifs, current, c, u);
    assert t[..|current|] == current && t[|current|] == c && t[|current| + 1..] == u;
    assert "" + u == u;
    FieldsUnfold(ifs, t, n);
    hide Fields;
  }

  /** A delimiter met at the field limit, before the last field has begun. */
  lemma {:induction false} LimitStep(ifs: string, u: string, n: nat, c: char, skipping: bool, afterCharacter: bool)
    requires n <= 1
    requires IsDelimiter(ifs, c) && !(skipping && IsIfsWhitespace(ifs, c))
    ensures Pending(ifs, [c] + u, n, "", skipping, afterCharacter, false)
         == if IsIfsWhitespace(ifs, c) then Pending(ifs, u, n, "", true, afterCharacter, false)
            else Pending(ifs, u, n, [c], false, afterCharacter, true)
  {
    assert "" + ([c] + u) == [c] + u;
    DropLeadingCons(ifs, c, u);
    var v := DropLeading(ifs, u);
    assert DropLeading(ifs, v) == v;
    FieldsUnfold(ifs, v, n);
    FieldsUnfold(ifs, [c] + u, n);
    hide Fields;
  }

  /** A character that joins the current field. */
  lemma {:induction false} CharacterStep(ifs: string, u: string, n: nat, c: char, current: string, skipping: bool,
                                         afterCharacter: bool, collecting: bool)
    requires Consistent(ifs, n, current, skipping, afterCharacter, collecting)
    requires collecting || !IsDelimiter(ifs, c)
    ensures Pending(ifs, [c] + u, n, current, skipping, afterCharacter, collecting)
         == Pending(ifs, u, n, current + [c], false, false, n <= 1)
  {
    assert current + ([c] + u) == current + [c] + u;
    var t := current + [c] + u;
    if !collecting {
      DropLeadingCons(ifs, c, u);
      assert skipping || n <= 1 ==> t == [c] + u;
      FieldsUnfold(ifs, t, n);
      hide Fields;
    }
  }

  /** What holds before the character at `i`: the flags fit together, and the fields split off so
      far followed by the pending ones are the fields of the whole line. */
  ghost predicate OnTrack(ifs: string, t: string, limit: nat, i: nat, fields: seq<string>, current: string,
                          skipping: bool, afterCharacter: bool, collecting: bool)
  {
    && i <= |t|
    && (|fields| == 0 || |fields| < limit)
    && Consistent(ifs, limit - |fields|, current, skipping, afterCharacter, collecting)
    && (skipping ==> i > 0 && IsIfsWhitespace(ifs, t[i - 1]))
    && Fields(ifs, t, limit)
         == fields + Pending(ifs, t[i..], limit - |fields|, current, skipping, afterCharacter, collecting)
  }

  lemma {:induction false} Begin(ifs: string, t: string, limit: nat)
    requires t != ""
    ensures OnTrack(ifs, t, limit, 0, [], "", false, false, false)
  {
    assert t[0..] == t && "" + t == t;
  }

  lemma {:induction false} OneMore(ifs: string, t: string, limit: nat, i: nat, fields: seq<string>, current: string,
                skipping: bool, afterCharacter: bool, collecting: bool)
    requires i < |t| && OnTrack(ifs, t, limit, i, fields, current, skipping, afterCharacter, collecting)
    ensures var c, n, ws := t[i], limit - |fields|, IsIfsWhitespace(ifs, t[i]);
      if skipping && ws then
        OnTrack(ifs, t, limit, i + 1, fields, current, skipping, afterCharacter, collecting)
      else if n > 1 && IsDelimiter(ifs, c) then
        OnTrack(ifs, t, limit, i + 1, fields + [current], "", ws, !ws, collecting)
      else if !collecting && IsDelimiter(ifs, c) then
        OnTrack(ifs, t, limit, i + 1, fields, if ws then current else current + [c], ws, afterCharacter, !ws)
      else
        OnTrack(ifs, t, limit, i + 1, fields, current + [c], false, false, n <= 1)
  {
    hide Fields, Pending, IsIfsWhitespace, IsDelimiter;
    var c, n, ws, u := t[i], limit - |fields|, IsIfsWhitespace(ifs, t[i]), t[i + 1..];
    assert t[i..] == [c] + u;
    if skipping && ws {
      SkipStep(ifs, u, n, c, current, afterCharacter);
    } else if n > 1 && IsDelimiter(ifs, c) {
      DelimiterStep(ifs, u, n, c, current, skipping, afterCharacter);
      Reassociate(fields, current, Pending(ifs, u, n - 1, "", ws, !ws, false));
    } else if !collecting && IsDelimiter(ifs, c) {
      LimitStep(ifs, u, n, c, skipping, afterCharacter);
      assert current + [c] == [c];
    } else {
      CharacterStep(ifs, u, n, c, current, skipping, afterCharacter, collecting);
    }
  }

  lemma {:induction false} Finish(ifs: string, t: string, limit: nat, fields: seq<string>, current: string,
               skipping: bool, afterCharacter: bool, collecting: bool)
    requires OnTrack(ifs, t, limit, |t|, fields, current, skipping, afterCharacter, collecting)
    requires t != "" && !IsIfsWhitespace(ifs, t[|t| - 1])
    ensures Fields(ifs, t, limit) == if current != "" || !afterCharacter then fields + [current] else fields
  {
    assert t[|t|..] == "";
    EndOfInput(ifs, limit - |fields|, current, afterCharacter, collecting);
    hide Fields, Pending;
  }

  method SplitLineByIfs(ifs: string, line: string, maxFields: Option<nat>) returns (fields: seq<string>)
    requires |line| <= ISIZE_MAX
    ensures maxFields.Some? ==> fields == SplitAtMost(ifs, line, maxFields.value)
    ensures maxFields.None? ==> fields == Split(ifs, line)
  {
    hide Fields, AllFields, OnTrack;
    var trimmed := Trim(ifs, line);
    if trimmed == "" {
      return [];
    }
    var limit := if maxFields.Some? then maxFields.value else USIZE_MAX;
    fields := [];
    var current := "";
    var skipping := false;
    var afterCharacter := false;
    var collecting := false;
    Begin(ifs, trimmed, limit);
    for i := 0 to |trimmed|
      invariant |fields| == 0 || |fields| < limit
      invariant OnTrack(ifs, trimmed, limit, i, fields, current, skipping, afterCharacter, collecting)
    {
      OneMore(ifs, trimmed, limit, i, fields, current, skipping, afterCharacter, collecting);
      var c := trimmed[i];
      if skipping && IsIfsWhitespace(ifs, c) {
        continue;
      }
      skipping := false;
      var isDelimiter := IsDelimiter(ifs, c);
      var atLimit := |fields| + 1 >= limit;
      if !atLimit && isDelimiter {
        fields := fields + [current];
        current := "";
        skipping := IsIfsWhitespace(ifs, c);
        afterCharacter := !skipping;
      } else if atLimit && !collecting && isDelimiter {
        if IsIfsWhitespace(ifs, c) {
          skipping := true;
        } else {
          collecting := true;
          current := current + [c];
        }
      } else {
        collecting := atLimit;
        current := current + [c];
        afterCharacter := false;
      }
    }
    Finish(ifs, trimmed, limit, fields, current, skipping, afterCharacter, collecting);
    if current != "" || !afterCharacter {
      fields := fields + [current];
    }
    if maxFields.None? {
      LargeLimit(ifs, trimmed, USIZE_MAX);
    }
  }

  lemma {:induction false} Reassociate(fields: seq<string>, field: string, rest: seq<string>)
    ensures fields + ([field] + rest) == fields + [field] + rest
  {
  }

  lemma {:induction false} EndOfInput(ifs: string, n: nat, current: string, afterCharacter: bool, collecting: bool)
    requires Consistent(ifs, n, current, false, afterCharacter, collecting)
    ensures Pending(ifs, "", n, current, false, afterCharacter, collecting)
         == if current != "" || !afterCharacter then [current] else []
  {
    assert current + "" == current;
    var k := FieldLength(ifs, current);
    assert !collecting ==> k == |current|;
    FieldsUnfold(ifs, current, n);
    hide Fields;
  }

  /** A limit above the number of characters never bites. */
  lemma {:induction false} LargeLimit(ifs: string, t: string, n: nat)
    requires n > |t| + 1
    ensures Fields(ifs, t, n) == AllFields(ifs, t)
    decreases |t|
  {
    var k := FieldLength(ifs, t);
    if k < |t| {
      LargeLimit(ifs, AfterSeparator(ifs, t, k), n - 1);
    }
  }
}
