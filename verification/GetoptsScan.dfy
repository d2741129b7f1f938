/** Option parsing over a whole argument list: one left-to-right scan, and the same list read one
    option at a time from a cursor. */
module GetoptsScan {
  import opened Options
  import opened OptionString

  /** What one call reports: the text for the named variable, and OPTARG. */
  datatype Report = Report(found: bool, value: string, optarg: Option<string>)

  const END := Report(false, "?", None)

  function Found(c: char, optarg: Option<string>): Report {
    Report(true, [c], optarg)
  }

  function Unknown(options: string, c: char): Report {
    Report(true, "?", if Silent(options) then Some([c]) else None)
  }

  function Missing(options: string, c: char): Report {
    if Silent(options) then Report(true, ":", Some([c])) else Report(true, "?", None)
  }

  predicate IsOption(arg: string) {
    arg != "" && arg[0] == '-' && arg != "-" && arg != "--"
  }

  // ------------------------------------------------------------ one scan of the whole list

  datatype Scanned = Scanned(reports: seq<Report>, operands: seq<string>)

  function Prepend(report: Report, rest: Scanned): Scanned {
    Scanned([report] + rest.reports, rest.operands)
  }

  /** Every option up to the first operand; a "--" in its place is dropped. */
  function Scan(options: string, args: seq<string>): Scanned
    decreases |args|, 0
  {
    if args == [] || !IsOption(args[0]) then
      Scanned([], if args != [] && args[0] == "--" then args[1..] else args)
    else
      ScanCluster(options, args[0][1..], args[1..])
  }

  /** The rest of a cluster of option letters, then the rest of the arguments. */
  function ScanCluster(options: string, cluster: string, rest: seq<string>): Scanned
    decreases |rest|, |cluster| + 1
  {
    if cluster == "" then Scan(options, rest)
    else
      var c, letters := cluster[0], cluster[1..];
      if !Declares(options, c) then Prepend(Unknown(options, c), ScanCluster(options, letters, rest))
      else if !TakesArgument(options, c) then Prepend(Found(c, None), ScanCluster(options, letters, rest))
      else if letters != "" then Prepend(Found(c, Some(letters)), Scan(options, rest))
      else if rest != [] then Prepend(Found(c, Some(rest[0])), Scan(options, rest[1..]))
      else Prepend(Missing(options, c), Scan(options, []))
  }

  // ------------------------------------------------------------ one option at a time

  /** The argument to look at next, counted from one, and the character in it. */
  datatype Cursor = Cursor(index: nat, letter: nat)

  datatype Step = Step(report: Report, cursor: Cursor)

  /** A character position that lies beyond the argument is stale and means the first letter. */
  function CharIndex(arg: string, letter: nat): nat {
    if letter < |arg| then letter else 1
  }

  function Past(arg: string, index: nat, i: nat): Cursor {
    if i + 1 == |arg| then Cursor(index + 1, 1) else Cursor(index, i + 1)
  }

  function Next(options: string, args: seq<string>, cursor: Cursor): Step
    requires cursor.index >= 1
  {
    var index := cursor.index;
    if index > |args| then Step(END, Cursor(|args| + 1, cursor.letter))
    else
      var arg := args[index - 1];
      if !IsOption(arg) then Step(END, Cursor(if arg == "--" then index + 1 else index, cursor.letter))
      else
        var i := CharIndex(arg, cursor.letter);
        var c := arg[i];
        if !Declares(options, c) then Step(Unknown(options, c), Past(arg, index, i))
        else if !TakesArgument(options, c) then Step(Found(c, None), Past(arg, index, i))
        else if i + 1 < |arg| then Step(Found(c, Some(arg[i + 1..])), Cursor(index + 1, 1))
        else if index < |args| then Step(Found(c, Some(args[index])), Cursor(index + 2, 1))
        else Step(Missing(options, c), Cursor(index + 1, 1))
  }

  // ------------------------------------------------------------ the two agree

  /** What a scan still has to report from a cursor. */
  function Remaining(options: string, args: seq<string>, cursor: Cursor): Scanned
    requires cursor.index >= 1
  {
    if cursor.index > |args| then Scanned([], [])
    else
      var arg := args[cursor.index - 1];
      if !IsOption(arg) then Scan(options, args[cursor.index - 1..])
      else ScanCluster(options, arg[CharIndex(arg, cursor.letter)..], args[cursor.index..])
  }

  /** From the first letter of an argument, what remains is the scan of the list from there. */
  lemma {:induction false} RemainingFromFirstLetter(options: string, args: seq<string>, index: nat)
    requires 1 <= index <= |args| + 1
    ensures Remaining(options, args, Cursor(index, 1)) == Scan(options, args[index - 1..])
  {
    if index <= |args| {
      assert args[index - 1..][1..] == args[index..];
      assert args[index - 1..][0] == args[index - 1];
    }
  }

  /** From any cursor at all, one step reports the first thing that remains and leaves the rest; when
      nothing remains it says so, and stands at the first operand. */
  lemma {:induction false} StepTakesFirst(options: string, args: seq<string>, cursor: Cursor)
    requires cursor.index >= 1
    ensures var s, r := Next(options, args, cursor), Remaining(options, args, cursor);
      && 1 <= s.cursor.index <= |args| + 1
      && (if s.report.found
          then r == Prepend(s.report, Remaining(options, args, s.cursor))
          else r.reports == [] && s.report == END && r.operands == args[s.cursor.index - 1..])
  {
    var index := cursor.index;
    if index <= |args| && IsOption(args[index - 1]) {
      var arg := args[index - 1];
      var i := CharIndex(arg, cursor.letter);
      ClusterStep(options, arg, i, args, index);
    } else if index <= |args| {
      assert args[index - 1..][1..] == args[index..];
    }
  }

  lemma {:induction false} ClusterStep(options: string, arg: string, i: nat, args: seq<string>, index: nat)
    requires 1 <= index <= |args| && arg == args[index - 1] && IsOption(arg) && i < |arg|
    ensures var s := Next(options, args, Cursor(index, i));
      && s.report.found && 1 <= s.cursor.index <= |args| + 1
      && ScanCluster(options, arg[i..], args[index..]) == Prepend(s.report, Remaining(options, args, s.cursor))
  {
    hide Remaining, Scan, Declares, TakesArgument;
    var cluster, rest := arg[i..], args[index..];
    assert cluster[0] == arg[i] && cluster[1..] == arg[i + 1..];
    RemainingFromFirstLetter(options, args, index + 1);
    if index < |args| {
      RemainingFromFirstLetter(options, args, index + 2);
      assert rest[1..] == args[index + 1..] && rest[0] == args[index];
    }
    PastRemains(options, arg, i, args, index);
  }

  lemma {:induction false} PastRemains(options: string, arg: string, i: nat, args: seq<string>, index: nat)
    requires 1 <= index <= |args| && arg == args[index - 1] && IsOption(arg) && i < |arg|
    ensures Remaining(options, args, Past(arg, index, i)) == ScanCluster(options, arg[i + 1..], args[index..])
  {
    if i + 1 == |arg| {
      RemainingFromFirstLetter(options, args, index + 1);
    }
  }

  /** A step that finds an option moves on: to a later argument, or within the argument to a later
      character. */
  lemma {:induction false} StepAdvances(options: string, args: seq<string>, cursor: Cursor)
    requires 1 <= cursor.index <= |args| && IsOption(args[cursor.index - 1])
    ensures var s, arg := Next(options, args, cursor), args[cursor.index - 1];
      && s.report.found
      && (s.cursor.index > cursor.index
          || (s.cursor.index == cursor.index
              && CharIndex(arg, cursor.letter) < CharIndex(arg, s.cursor.letter) < |arg|))
  {
  }
}
