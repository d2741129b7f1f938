/** What a single call of the `getopts` builtin leaves in the shell's variables, case by case, from the
    option string, the arguments, and the place at which the call looks. */
module GetoptsReports {
  import opened Options
  import opened ShellVariables
  import opened OptionString
  import opened GetoptsScan
  import opened Getopts
  import opened GetoptsRuns

  /** A word that holds options: it begins with '-' and is neither "-" nor "--". */
  ghost predicate HoldsOptions(word: string) {
    |word| >= 2 && word[0] == '-' && word[1..] != "-"
  }

  /** The option string has the letter, and not as the ':' that marks arguments and silence. */
  ghost predicate IsDeclared(options: string, c: char) {
    c != ':' && exists j :: 0 <= j < |options| && options[j] == c
  }

  /** A ':' directly follows the first occurrence of the letter. */
  ghost predicate WantsArgument(options: string, c: char) {
    c != ':' && exists j :: 0 <= j < |options| - 1 && options[j] == c && IsNew(options, c, j) && options[j + 1] == ':'
  }

  ghost predicate IsNew(options: string, c: char, j: int)
    requires 0 <= j <= |options|
  {
    forall k :: 0 <= k < j ==> options[k] != c
  }

  ghost predicate AsksForSilence(options: string) {
    exists rest :: options == ":" + rest
  }

  lemma {:induction false} Letters(options: string, c: char)
    ensures Declares(options, c) <==> IsDeclared(options, c)
    ensures Declares(options, c) ==> (TakesArgument(options, c) <==> WantsArgument(options, c))
    ensures Silent(options) <==> AsksForSilence(options)
  {
    if options != "" {
      assert options == [options[0]] + options[1..];
    }
    if Declares(options, c) {
      var i := FirstOf(options, c);
      assert IsNew(options, c, i);
      if WantsArgument(options, c) {
        var j :| 0 <= j < |options| - 1 && options[j] == c && IsNew(options, c, j) && options[j + 1] == ':';
        assert i == j;
      }
    }
  }

  lemma {:induction false} Words(word: string)
    ensures IsOption(word) <==> HoldsOptions(word)
  {
    assert word != "" ==> word == [word[0]] + word[1..];
  }

  /** What a call leaves in the result variable, in OPTARG and in OPTIND. */
  ghost predicate Leaves(after: Store, name: string, value: string, optarg: Option<string>, index: nat) {
    && Text(after, name) == Some(value) && Text(after, "OPTARG") == optarg
    && Text(after, "OPTIND") == Some(ToDecimal(index))
  }

  ghost predicate IsStateName(name: string) {
    name in {"OPTARG", "OPTIND", "__GETOPTS_NEXT_CHAR", "__GETOPTS_LAST_OPTIND"}
  }

  ghost predicate Is(step: Step, found: bool, value: string, optarg: Option<string>, index: nat) {
    step.report == Report(found, value, optarg) && step.cursor.index == index
  }

  lemma {:induction false} StepReports(options: string, args: seq<string>, cursor: Cursor)
    requires cursor.index >= 1
    ensures var s, k := Next(options, args, cursor), cursor.index;
      if k > |args| then Is(s, false, "?", None, |args| + 1)
      else if !HoldsOptions(args[k - 1]) then
        Is(s, false, "?", None, if args[k - 1] == "--" then k + 1 else k)
      else
        var arg := args[k - 1];
        var i := if cursor.letter < |arg| then cursor.letter else 1;
        var c, rest := arg[i], arg[i + 1..];
        var next := if rest == "" then k + 1 else k;
        if !IsDeclared(options, c) then
          Is(s, true, "?", if AsksForSilence(options) then Some([c]) else None, next)
        else if !WantsArgument(options, c) then Is(s, true, [c], None, next)
        else if rest != "" then Is(s, true, [c], Some(rest), k + 1)
        else if k < |args| then Is(s, true, [c], Some(args[k]), k + 2)
        else if AsksForSilence(options) then Is(s, true, ":", Some([c]), k + 1)
        else Is(s, true, "?", None, k + 1)
  {
    var k := cursor.index;
    if k <= |args| {
      var arg := args[k - 1];
      Words(arg);
      if IsOption(arg) {
        Letters(options, arg[CharIndex(arg, cursor.letter)]);
      }
    }
    hide Declares, TakesArgument, Silent, IsDeclared, WantsArgument, AsksForSilence;
  }

  /** A call that does not fail, into a variable that is none of its own. Past the last argument, and at
      one that holds no options, it reports the end, and steps over a "--". At an option it reports the
      letter under the cursor: unknown, alone, or with its argument, which is the rest of the word or the
      next word; and an option string that begins with ':' has the letter of an error reported in OPTARG,
      and a missing argument as ':'. */
  lemma {:induction false} CallReports(options: string, name: string, args: seq<string>, store: Store)
    requires Lengths(args) && Call(options, name, args, store).ok && !IsStateName(name)
    ensures var after, k := Call(options, name, args, store).store, CursorOf(store).index;
      if k > |args| then Leaves(after, name, "?", None, |args| + 1)
      else if !HoldsOptions(args[k - 1]) then
        Leaves(after, name, "?", None, if args[k - 1] == "--" then k + 1 else k)
      else
        var arg := args[k - 1];
        var i := if CursorOf(store).letter < |arg| then CursorOf(store).letter else 1;
        var c, rest := arg[i], arg[i + 1..];
        var next := if rest == "" then k + 1 else k;
        if !IsDeclared(options, c) then
          Leaves(after, name, "?", if AsksForSilence(options) then Some([c]) else None, next)
        else if !WantsArgument(options, c) then Leaves(after, name, [c], None, next)
        else if rest != "" then Leaves(after, name, [c], Some(rest), k + 1)
        else if k < |args| then Leaves(after, name, [c], Some(args[k]), k + 2)
        else if AsksForSilence(options) then Leaves(after, name, ":", Some([c]), k + 1)
        else Leaves(after, name, "?", None, k + 1)
    ensures var k := CursorOf(store).index;
      StepFrom(options, args, store).report.found <==> k <= |args| && HoldsOptions(args[k - 1])
  {
    hide Call, CursorOf, StepFrom, Next, Text, ToDecimal, IsDeclared, WantsArgument, AsksForSilence, Is, Leaves;
    CallFacts(options, name, args, store);
    StepUnfolds(options, args, store);
    StepReports(options, args, CursorOf(store));
    StepLeaves(Call(options, name, args, store).store, name, StepFrom(options, args, store));
  }

  lemma {:induction false} StepLeaves(after: Store, name: string, step: Step)
    requires Text(after, IndexName()) == Some(ToDecimal(step.cursor.index))
    requires Text(after, ArgumentName()) == step.report.optarg
    requires name !in WrittenAfter() + {NextCharName()} ==> Text(after, name) == Some(step.report.value)
    ensures forall found, value, optarg, index :: Is(step, found, value, optarg, index) && !IsStateName(name) ==>
      Leaves(after, name, value, optarg, index) && step.report.found == found
  {
    Names();
    hide Text, ToDecimal;
  }

  lemma {:induction false} Names()
    ensures ArgumentName() == "OPTARG" && IndexName() == "OPTIND"
    ensures NextCharName() == "__GETOPTS_NEXT_CHAR" && LastIndexName() == "__GETOPTS_LAST_OPTIND"
  {
  }

  /** A name a call accepts for its result variable: a letter or an underscore first, and letters, digits and
      underscores after it. */
  lemma {:induction false} NamesAccepted(s: string)
    ensures ValidVariableName(s) <==>
      s != "" && IsLetter(s[0]) && forall i :: 0 < i < |s| ==> IsLetter(s[i]) || s[i] in "0123456789"
  {
    forall c: char
      ensures NameChar(c) <==> IsLetter(c) || c in "0123456789"
      ensures !(IsLetter(c) && '0' <= c <= '9')
    {
      DecimalDigits(c);
    }
    hide NameChar, IsLetter;
    if s != "" {
      DecimalDigits(s[0]);
    }
  }

  /** ASCII alone: 'A' to 'Z', 'a' to 'z', and '_'. */
  ghost predicate IsLetter(c: char) {
    65 <= c as int <= 90 || 97 <= c as int <= 122 || c as int == 95
  }

  lemma {:induction false} DecimalDigits(c: char)
    ensures c in "0123456789" <==> '0' <= c <= '9'
  {
    var digits := "0123456789";
    if '0' <= c <= '9' {
      assert digits[c as int - '0' as int] == c;
    }
  }
}
