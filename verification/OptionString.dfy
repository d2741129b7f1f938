/** The option string of the `getopts` builtin: which options it declares, which of them take an
    argument, and whether errors are to be reported silently. */
module OptionString {
  import opened Options

  /** A ':' at the very front asks for silent error reporting. */
  predicate Silent(options: string) {
    options != "" && options[0] == ':'
  }

  predicate Declares(options: string, c: char) {
    c != ':' && c in options
  }

  /** The position of the first occurrence of `c`. */
  function FirstOf(options: string, c: char): (i: nat)
    requires c in options
    ensures i < |options| && options[i] == c
    ensures forall j :: 0 <= j < i ==> options[j] != c
  {
    if options[0] == c then 0 else FirstOf(options[1..], c) + 1
  }

  /** An option takes an argument when a ':' directly follows its first occurrence. */
  predicate TakesArgument(options: string, c: char)
    requires Declares(options, c)
  {
    var i := FirstOf(options, c);
    i + 1 < |options| && options[i + 1] == ':'
  }

  datatype OptionSpec = OptionSpec(defs: map<char, bool>, silentErrors: bool)

  ghost predicate Describes(spec: OptionSpec, options: string) {
    && (spec.silentErrors <==> Silent(options))
    && forall c :: Entry(spec.defs, options, c)
  }

  ghost predicate Entry(defs: map<char, bool>, options: string, c: char) {
    && (c in defs <==> Declares(options, c))
    && (c in defs ==> (defs[c] <==> TakesArgument(options, c)))
  }

  lemma {:induction false} DescribesEntry(spec: OptionSpec, options: string, c: char)
    requires Describes(spec, options)
    ensures spec.silentErrors <==> Silent(options)
    ensures Entry(spec.defs, options, c)
  {
  }

  /** The position of the last character that is not ':'. */
  function LastLetter(s: string): (i: Option<nat>)
    ensures i == None ==> forall j :: 0 <= j < |s| ==> s[j] == ':'
    ensures i.Some? ==> i.value < |s| && s[i.value] != ':' && forall j :: i.value < j < |s| ==> s[j] == ':'
  {
    if s == "" then None
    else if s[|s| - 1] != ':' then Some(|s| - 1)
    else LastLetter(s[..|s| - 1])
  }

  /** The option a ':' read next would belong to: the last letter, unless it was a duplicate. */
  function OpenOption(s: string): Option<char> {
    match LastLetter(s)
    case None => None
    case Some(i) => if FirstOf(s, s[i]) == i then Some(s[i]) else None
  }

  lemma {:induction false} FirstOfPrefix(a: string, x: char, c: char)
    requires c in a
    ensures c in a + [x] && FirstOf(a + [x], c) == FirstOf(a, c)
  {
    var i := FirstOf(a, c);
    assert (a + [x])[i] == c;
    assert forall j :: 0 <= j < i ==> (a + [x])[j] == a[j];
  }

  /** Reading one more character settles nothing about options declared earlier, except that a ':'
      right after an option's first occurrence gives that option an argument. */
  lemma {:induction false} OneMoreCharacter(done: string, x: char, c: char)
    requires Declares(done, c)
    ensures Declares(done + [x], c)
    ensures TakesArgument(done + [x], c)
        <==> TakesArgument(done, c) || (x == ':' && FirstOf(done, c) == |done| - 1)
  {
    FirstOfPrefix(done, x, c);
  }

  lemma {:induction false} ColonEntry(done: string, defs: map<char, bool>, c: char)
    requires Entry(defs, done, c)
    ensures var owner := OpenOption(done);
      Entry(if owner.Some? then defs[owner.value := true] else defs, done + ":", c)
  {
    if Declares(done, c) {
      OneMoreCharacter(done, ':', c);
      assert LastLetter(done).Some?;
    }
  }

  lemma {:induction false} ColonKeepsOpen(done: string)
    ensures OpenOption(done + ":") == OpenOption(done)
    ensures OpenOption(done).Some? ==> Declares(done, OpenOption(done).value)
    ensures Silent(done + ":") <==> Silent(done) || done == ""
  {
    var next := done + ":";
    assert next[..|done|] == done;
    assert LastLetter(next) == LastLetter(done);
    if LastLetter(done).Some? {
      FirstOfPrefix(done, ':', done[LastLetter(done).value]);
    }
  }

  lemma {:induction false} OnlyColons(done: string, spec: OptionSpec)
    requires Describes(spec, done)
    ensures spec.defs == map[] ==> done == "" || Silent(done)
    ensures done == "" ==> spec.defs == map[]
  {
    if done != "" {
      assert Entry(spec.defs, done, done[0]);
    }
    assert forall c :: Entry(spec.defs, done, c) && c !in done ==> c !in spec.defs;
  }

  /** A ':' turns the option it belongs to into one with an argument; without one, and before any
      option, it is the leading ':'. */
  lemma {:induction false} ColonRead(done: string, spec: OptionSpec)
    requires Describes(spec, done)
    ensures var owner := OpenOption(done);
      && OpenOption(done + ":") == owner
      && (owner.Some? ==> spec.defs != map[])
      && Describes(if owner.Some? then spec.(defs := spec.defs[owner.value := true])
                   else if spec.defs == map[] then spec.(silentErrors := true) else spec, done + ":")
  {
    ColonKeepsOpen(done);
    OnlyColons(done, spec);
    var owner := OpenOption(done);
    assert owner.Some? ==> Entry(spec.defs, done, owner.value);
    var defs := if owner.Some? then spec.defs[owner.value := true] else spec.defs;
    forall c
      ensures Entry(defs, done + ":", c)
    {
      assert Entry(spec.defs, done, c);
      ColonEntry(done, spec.defs, c);
    }
    hide *;
  }

  /** A letter declares an option without argument, unless it is declared already. */
  lemma {:induction false} LetterEntry(done: string, defs: map<char, bool>, x: char, c: char)
    requires x != ':' && Entry(defs, done, c) && Entry(defs, done, x)
    ensures Entry(if x in defs then defs else defs[x := false], done + [x], c)
  {
    if Declares(done, c) {
      OneMoreCharacter(done, x, c);
    }
  }

  lemma {:induction false} LetterRead(done: string, spec: OptionSpec, x: char)
    requires x != ':' && Describes(spec, done)
    ensures OpenOption(done + [x]) == if x in spec.defs then None else Some(x)
    ensures Describes(if x in spec.defs then spec else spec.(defs := spec.defs[x := false]), done + [x])
  {
    assert Entry(spec.defs, done, x);
    var defs := if x in spec.defs then spec.defs else spec.defs[x := false];
    forall c
      ensures Entry(defs, done + [x], c)
    {
      assert Entry(spec.defs, done, c);
      LetterEntry(done, spec.defs, x, c);
    }
    if x in done {
      FirstOfPrefix(done, x, x);
    }
  }

  method ParseOptionSpec(spec: string) returns (r: OptionSpec)
    ensures Describes(r, spec)
  {
    var defs: map<char, bool> := map[];
    var silentErrors := false;
    var lastChar: Option<char> := None;
    for i := 0 to |spec|
      invariant Describes(OptionSpec(defs, silentErrors), spec[..i])
      invariant lastChar == OpenOption(spec[..i])
    {
      var c := spec[i];
      assert spec[..i + 1] == spec[..i] + [c];
      if c == ':' {
        ColonRead(spec[..i], OptionSpec(defs, silentErrors));
        if lastChar.Some? {
          defs := defs[lastChar.value := true];
        } else if defs == map[] {
          silentErrors := true;
        }
      } else {
        LetterRead(spec[..i], OptionSpec(defs, silentErrors), c);
        if c !in defs {
          defs := defs[c := false];
          lastChar := Some(c);
        } else {
          lastChar := None;
        }
      }
    }
    assert spec[..|spec|] == spec;
    r := OptionSpec(defs, silentErrors);
  }
}
