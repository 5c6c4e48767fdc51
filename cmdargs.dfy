/** `parse_cmdargs`: fetchtime's command line, `fetchtime [-h] [-p] [-s] [-u] HOST`.

    The arguments are scanned left to right.  `-p` selects the pretty
    printed time and drops the Unix time, `-u` does the reverse (the later
    one wins), `-s` asks for the system clock to be set, `-h` shows the help
    and ends the program successfully, and the one argument not starting
    with a dash is the host.  Anything else ends the program with the usage
    text and a failure status; so does a missing host.  Without `-s` and
    `-u` the time is pretty printed. */
module CmdArgs {
  import opened Optional

  /** `struct CMDArgs`; a hostname of `None` is the NULL pointer. */
  datatype Args = Args(hostname: Option<string>, setTime: bool, pprintTime: bool, printUtime: bool)

  /** Why `die_with_usage` was called. */
  datatype UsageFault =
    | UnknownArgument(arg: string)   // a dash argument that is not one of -h -p -s -u
    | UnknownCommand(arg: string)    // a second argument without a dash
    | NoHostname

  /** How `parse_cmdargs` ends: it returns the arguments, or it shows the
      help and exits successfully, or it shows the usage and exits with a
      failure status. */
  datatype Outcome = Parsed(args: Args) | Help | Usage(fault: UsageFault)

  /** The state of the scan after an argument: go on, or the program ends. */
  datatype Scan = Continue(args: Args) | Stop(outcome: Outcome)

  const Initial: Args := Args(None, false, false, false)

  predicate IsDash(a: string) { |a| > 0 && a[0] == '-' }

  /** The effect of one argument on the arguments read so far. */
  function Step(args: Args, a: string): Scan
  {
    if IsDash(a) then
      if |a| != 2 then Stop(Usage(UnknownArgument(a)))
      else if a[1] == 'h' then Stop(Help)
      else if a[1] == 'p' then Continue(args.(pprintTime := true, printUtime := false))
      else if a[1] == 's' then Continue(args.(setTime := true))
      else if a[1] == 'u' then Continue(args.(printUtime := true, pprintTime := false))
      else Stop(Usage(UnknownArgument(a)))
    else if args.hostname.None? then Continue(args.(hostname := Some(a)))
    else Stop(Usage(UnknownCommand(a)))
  }

  /** Scanning a list of arguments, from the left, up to the first that ends the program. */
  function ScanAll(args: Args, list: seq<string>): Scan
    decreases |list|
  {
    if list == [] then Continue(args)
    else match Step(args, list[0])
      case Stop(o) => Stop(o)
      case Continue(next) => ScanAll(next, list[1..])
  }

  /** What happens after the loop: the pretty-print default, then the host check. */
  function Finish(args: Args): Outcome
  {
    var args := if !args.setTime && !args.printUtime then args.(pprintTime := true) else args;
    if args.hostname.None? then Usage(NoHostname) else Parsed(args)
  }

  /** The arguments after the program name. */
  function Operands(argv: seq<string>): seq<string>
  {
    if |argv| == 0 then [] else argv[1..]
  }

  /** The outcome of `parse_cmdargs` for `argv`. */
  function ParseOutcome(argv: seq<string>): Outcome
  {
    match ScanAll(Initial, Operands(argv))
    case Stop(o) => o
    case Continue(args) => Finish(args)
  }

  /** `parse_cmdargs`: the loop over `argv` from index 1, updating the
      fields of the result in place and leaving at the first argument that
      ends the program. */
  method ParseCmdArgs(argv: seq<string>) returns (outcome: Outcome)
    ensures outcome == ParseOutcome(argv)
  {
    var result := Initial;
    var i := 1;
    while i < |argv|
      invariant 1 <= i && (|argv| == 0 || i <= |argv|)
      invariant ScanAll(Initial, Operands(argv)) == ScanAll(result, if |argv| == 0 then [] else argv[i..])
    {
      var arg := argv[i];
      assert argv[i..][0] == arg && argv[i..][1..] == argv[i + 1..];
      if |arg| > 0 && arg[0] == '-' {
        if |arg| != 2 {
          return Usage(UnknownArgument(arg));
        }
        if arg[1] == 'h' {
          return Help;
        }
        if arg[1] == 'p' {
          result := result.(pprintTime := true);
          result := result.(printUtime := false);
        } else if arg[1] == 's' {
          result := result.(setTime := true);
        } else if arg[1] == 'u' {
          result := result.(printUtime := true);
          result := result.(pprintTime := false);
        } else {
          return Usage(UnknownArgument(arg));
        }
      } else {
        if result.hostname.None? {
          result := result.(hostname := Some(arg));
        } else {
          return Usage(UnknownCommand(arg));
        }
      }
      i := i + 1;
    }

    if !result.setTime && !result.printUtime {
      result := result.(pprintTime := true);
    }

    if result.hostname.None? {
      return Usage(NoHostname);
    }

    outcome := Parsed(result);
  }

  // ---------------------------------------------------------------------------
  // What the outcome means

  /** The later of `-p` and `-u` in a list, if either occurs. */
  function LastPrintChoice(list: seq<string>): (c: Option<char>)
    ensures c == None || c == Some('p') || c == Some('u')
  {
    if list == [] then None
    else match LastPrintChoice(list[1..])
      case Some(c) => Some(c)
      case None =>
        if list[0] == "-p" then Some('p') else if list[0] == "-u" then Some('u') else None
  }

  /** An argument the loop accepts and goes on after: a print or set flag, or a word without a dash. */
  predicate Accepted(a: string)
  {
    !IsDash(a) || a == "-p" || a == "-s" || a == "-u"
  }

  /** The arguments without a dash, in order. */
  function Words(list: seq<string>): (ws: seq<string>)
    ensures |ws| <= |list|
  {
    if list == [] then []
    else (if IsDash(list[0]) then [] else [list[0]]) + Words(list[1..])
  }

  /** The flags spelled out as strings. */
  lemma FlagSpelling(a: string)
    ensures a == "-p" <==> IsDash(a) && |a| == 2 && a[1] == 'p'
    ensures a == "-s" <==> IsDash(a) && |a| == 2 && a[1] == 's'
    ensures a == "-u" <==> IsDash(a) && |a| == 2 && a[1] == 'u'
    ensures a == "-h" <==> IsDash(a) && |a| == 2 && a[1] == 'h'
  {
    if |a| == 2 {
      assert a == [a[0], a[1]];
    }
  }

  /** A scan stops only with the help or a usage error, never with a result. */
  lemma {:induction false} ScanStopsWithoutResult(args: Args, list: seq<string>)
    ensures ScanAll(args, list).Stop? ==> !ScanAll(args, list).outcome.Parsed?
    decreases |list|
  {
    if list != [] && Step(args, list[0]).Continue? {
      ScanStopsWithoutResult(Step(args, list[0]).args, list[1..]);
    }
  }

  /** How a scan that reads the whole list has changed the flags. */
  lemma {:induction false} ScanAllFlags(args: Args, list: seq<string>)
    requires ScanAll(args, list).Continue?
    ensures var out := ScanAll(args, list).args;
      out.setTime == (args.setTime || "-s" in list) &&
      out.printUtime == (if LastPrintChoice(list).None? then args.printUtime else LastPrintChoice(list) == Some('u')) &&
      out.pprintTime == (if LastPrintChoice(list).None? then args.pprintTime else LastPrintChoice(list) == Some('p'))
    decreases |list|
  {
    if list != [] {
      var next := Step(args, list[0]).args;
      ScanAllFlags(next, list[1..]);
      FlagSpelling(list[0]);
      assert "-s" in list <==> list[0] == "-s" || "-s" in list[1..] by {
        assert list == [list[0]] + list[1..];
      }
    }
  }

  /** On success exactly the requested outputs are selected: the clock is set
      iff `-s` was given, the Unix time is printed iff the later of `-p`/`-u`
      is `-u`, and the time is pretty printed iff that later one is `-p`, or
      neither was given and `-s` was not either.  So the two print flags are
      never both on, and the default is the pretty printed time. */
  lemma {:induction false} ParsedFlags(argv: seq<string>)
    requires ParseOutcome(argv).Parsed?
    ensures var args, list := ParseOutcome(argv).args, Operands(argv);
      args.hostname.Some? &&
      args.setTime == ("-s" in list) &&
      args.printUtime == (LastPrintChoice(list) == Some('u')) &&
      args.pprintTime == (LastPrintChoice(list) == Some('p') || (LastPrintChoice(list).None? && "-s" !in list)) &&
      !(args.pprintTime && args.printUtime)
  {
    ScanStopsWithoutResult(Initial, Operands(argv));
    ScanAllFlags(Initial, Operands(argv));
  }

  /** How a scan that reads the whole list has picked up words. */
  lemma {:induction false} ScanAllWords(args: Args, list: seq<string>)
    ensures ScanAll(args, list).Continue? <==>
      (forall k :: 0 <= k < |list| ==> Accepted(list[k])) &&
      |Words(list)| + (if args.hostname.Some? then 1 else 0) <= 1
    ensures ScanAll(args, list).Continue? ==>
      ScanAll(args, list).args.hostname ==
        (if args.hostname.Some? then args.hostname else if Words(list) == [] then None else Some(Words(list)[0]))
    decreases |list|
  {
    if list != [] {
      var head := list[0];
      FlagSpelling(head);
      ScanAllWords(if Step(args, head).Continue? then Step(args, head).args else args, list[1..]);
      assert forall k :: 1 <= k < |list| ==> list[k] == list[1..][k - 1];
    }
  }

  /** The command line succeeds iff every argument is `-p`, `-s`, `-u` or a
      word without a dash, and there is exactly one such word; that word is
      then the host. */
  lemma {:induction false} ParsedIff(argv: seq<string>)
    ensures ParseOutcome(argv).Parsed? <==>
      (forall k :: 0 <= k < |Operands(argv)| ==> Accepted(Operands(argv)[k])) &&
      |Words(Operands(argv))| == 1
    ensures ParseOutcome(argv).Parsed? ==>
      ParseOutcome(argv).args.hostname == Some(Words(Operands(argv))[0])
  {
    ScanStopsWithoutResult(Initial, Operands(argv));
    ScanAllWords(Initial, Operands(argv));
  }

  /** A command line of flags alone, without a host, ends with the usage
      text and a failure status, never with the help. */
  lemma {:induction false} MissingHostname(argv: seq<string>)
    requires forall k :: 0 <= k < |Operands(argv)| ==> Accepted(Operands(argv)[k])
    requires Words(Operands(argv)) == []
    ensures ParseOutcome(argv) == Usage(NoHostname)
  {
    ScanAllWords(Initial, Operands(argv));
  }

  /** A scan over a concatenation continues from where the first part left off. */
  lemma {:induction false} ScanAllAppend(args: Args, front: seq<string>, back: seq<string>)
    ensures ScanAll(args, front + back) ==
      match ScanAll(args, front)
      case Stop(o) => Stop(o)
      case Continue(next) => ScanAll(next, back)
    decreases |front|
  {
    if front == [] {
      assert front + back == back;
    } else {
      assert (front + back)[0] == front[0] && (front + back)[1..] == front[1..] + back;
      if Step(args, front[0]).Continue? {
        ScanAllAppend(Step(args, front[0]).args, front[1..], back);
      }
    }
  }

  /** The first argument that ends the scan decides the outcome, whatever
      follows it: after arguments that leave the scan going, `-h` shows the
      help, and a bad dash argument or a second word is a usage error. */
  lemma {:induction false} FirstStopDecides(prog: string, front: seq<string>, a: string, back: seq<string>)
    requires ScanAll(Initial, front).Continue?
    requires Step(ScanAll(Initial, front).args, a).Stop?
    ensures ParseOutcome([prog] + front + [a] + back) == Step(ScanAll(Initial, front).args, a).outcome
    ensures a == "-h" ==> ParseOutcome([prog] + front + [a] + back) == Help
    ensures IsDash(a) && a != "-h" ==> ParseOutcome([prog] + front + [a] + back) == Usage(UnknownArgument(a))
    ensures !IsDash(a) ==> ParseOutcome([prog] + front + [a] + back) == Usage(UnknownCommand(a))
  {
    assert Operands([prog] + front + [a] + back) == front + ([a] + back);
    ScanAllAppend(Initial, front, [a] + back);
  }
}
