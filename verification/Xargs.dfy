/** The xargs builtin: options, items, and the command lines assembled from them. */
module Xargs {
  import opened Store
  import opened ShellState
  import opened XargsSplit

  datatype Options = Options(nul: bool, skipEmpty: bool, trace: bool, per: nat, replace: string, cmd: seq<string>)

  const PLAIN := Options(false, false, false, 0, "", [])

  datatype Choice = Chosen(options: Options) | Rejected(message: string)

  function Unsupported(a: string): Choice { Rejected("unsupported option " + a) }

  function ParseOptions(o: Oracle, args: seq<string>, opts: Options): Choice
    decreases |args|, 1
  {
    if args == [] || !("-" <= args[0]) || args[0] == "-" then Chosen(opts.(cmd := args))
    else
      var a, rest := args[0], args[1..];
      if a == "--" then Chosen(opts.(cmd := rest))
      else if a == "--null" then ParseOptions(o, rest, opts.(nul := true))
      else if a == "--no-run-if-empty" then ParseOptions(o, rest, opts.(skipEmpty := true))
      else if a == "--verbose" then ParseOptions(o, rest, opts.(trace := true))
      else if "--" <= a then Unsupported(a)
      else FlagTurn(o, args, opts)
  }

  /** An option of one letter, perhaps with a value. */
  function FlagTurn(o: Oracle, args: seq<string>, opts: Options): Choice
    requires args != [] && |args[0]| >= 2
    decreases |args|, 0
  {
    var a, rest := args[0], args[1..];
    var flag, value := a[..2], a[2..];
    if flag == "-n" || flag == "-I" then
      if value == "" && rest == [] then Rejected("option requires an argument -- '" + flag[1..] + "'")
      else
        var text := if value == "" then rest[0] else value;
        var rest' := if value == "" then rest[1..] else rest;
        if flag == "-I" then ParseOptions(o, rest', opts.(replace := text, per := 1))
        else
          var n := o.atoi(text);
          if n.None? || n.value <= 0 then Rejected("invalid number for -n option")
          else ParseOptions(o, rest', opts.(per := n.value))
    else if value != "" then Unsupported(a)
    else if flag == "-0" then ParseOptions(o, rest, opts.(nul := true))
    else if flag == "-r" then ParseOptions(o, rest, opts.(skipEmpty := true))
    else if flag == "-t" then ParseOptions(o, rest, opts.(trace := true))
    else Unsupported(a)
  }

  lemma OptionsEnd(o: Oracle, args: seq<string>, opts: Options)
    requires args == [] || !("-" <= args[0]) || args[0] == "-"
    ensures ParseOptions(o, args, opts) == Chosen(opts.(cmd := args))
  {
  }

  /** One turn of the option loop, by the form of the option. */
  lemma OptionTurn(o: Oracle, args: seq<string>, opts: Options)
    requires args != [] && "-" <= args[0] && args[0] != "-"
    ensures var a, rest, r := args[0], args[1..], ParseOptions(o, args, opts);
            && (a == "--" ==> r == Chosen(opts.(cmd := rest)))
            && (a == "--null" ==> r == ParseOptions(o, rest, opts.(nul := true)))
            && (a == "--no-run-if-empty" ==> r == ParseOptions(o, rest, opts.(skipEmpty := true)))
            && (a == "--verbose" ==> r == ParseOptions(o, rest, opts.(trace := true)))
            && ("--" <= a && a != "--" && a != "--null" && a != "--no-run-if-empty" && a != "--verbose" ==>
                r == Unsupported(a))
    ensures !("--" <= args[0]) ==> ParseOptions(o, args, opts) == FlagTurn(o, args, opts)
  {
  }

  // ---------------------------------------------------------------------
  // Items
  // ---------------------------------------------------------------------

  function TrimSuffix(s: string, c: char): string {
    if s != "" && s[|s| - 1] == c then s[..|s| - 1] else s
  }

  function TrimBlanks(s: string): string {
    if s != "" && (s[0] == ' ' || s[0] == '\t') then TrimBlanks(s[1..]) else s
  }

  function Lines(raw: seq<string>): seq<string> {
    if raw == [] then []
    else
      var line := TrimBlanks(raw[0]);
      (if line == "" then [] else [line]) + Lines(raw[1..])
  }

  function ItemsOf(opts: Options, input: string): Items {
    if opts.nul then Items(if input == "" then [] else SplitOn(TrimSuffix(input, '\0'), '\0'))
    else if opts.replace != "" then Items(Lines(SplitOn(TrimSuffix(input, '\n'), '\n')))
    else Tokenized(input)
  }

  // ---------------------------------------------------------------------
  // Command lines
  // ---------------------------------------------------------------------

  /** strings.ReplaceAll, for a non-empty pattern. */
  function ReplaceAll(s: string, what: string, put: string): string
    requires what != ""
    decreases |s|
  {
    if s == "" then ""
    else if what <= s then put + ReplaceAll(s[|what|..], what, put)
    else [s[0]] + ReplaceAll(s[1..], what, put)
  }

  function ReplaceIn(words: seq<string>, what: string, put: string): seq<string>
    requires what != ""
  {
    if words == [] then [] else [ReplaceAll(words[0], what, put)] + ReplaceIn(words[1..], what, put)
  }

  function Next(per: nat, items: seq<string>): (r: seq<string>)
    ensures r <= items && (items != [] ==> r != [])
  {
    if 0 < per < |items| then items[..per] else items
  }

  function Argv(cmd: seq<string>, replace: string, batch: seq<string>): (r: seq<string>)
    requires cmd != []
    ensures r != []
  {
    if replace == "" then cmd + batch
    else if |batch| == 1 then [cmd[0]] + ReplaceIn(cmd[1..], replace, batch[0])
    else cmd
  }

  /** The command lines of a run that nothing stops. */
  function Argvs(cmd: seq<string>, replace: string, per: nat, items: seq<string>): (r: seq<seq<string>>)
    requires cmd != []
    ensures r != []
    decreases |items|
  {
    var batch := Next(per, items);
    var rest := items[|batch|..];
    [Argv(cmd, replace, batch)] + (if rest == [] then [] else Argvs(cmd, replace, per, rest))
  }

  /** One command line and its successors; a run always has a first one. */
  function RunBatches(o: Oracle, c: Conf, io: IO, trace: bool, cmd: seq<string>, replace: string, per: nat,
                      items: seq<string>, status: int): (r: Out<int>)
    requires cmd != []
    ensures r.c.w.left <= c.w.left
    decreases |items|
  {
    var s := Step(o, c);
    if s.err.Some? then Out(s.c, s.err, 1)
    else
      var batch := Next(per, items);
      var rest := items[|batch|..];
      var argv := Argv(cmd, replace, batch);
      var c1 := if trace then Say(o, s.c, io.err, Spaced(argv), 0).c else s.c;
      var e := External(o, c1, argv, IO(Given(""), io.out, io.err, false));
      if e.err.Some? then Out(e.c, e.err, e.value)
      else if e.value == 126 || e.value == 127 then Out(e.c, None, e.value)
      else if e.value == 255 then Say(o, e.c, io.err, "xargs: " + argv[0] + ": exited with status 255; aborting", 124)
      else
        var status' := if e.value != 0 then 123 else status;
        if rest == [] then Out(e.c, None, status')
        else RunBatches(o, e.c, io, trace, cmd, replace, per, rest, status')
  }

  function Fail1(o: Oracle, c: Conf, io: IO, message: string): (r: Out<int>)
    ensures r.c.w.left == c.w.left
  {
    Say(o, c, io.err, "xargs: " + message, 1)
  }

  function FaultText(f: XargsSplit.Fault): string {
    match f
    case BackslashAtEnd => "backslash at end of input"
    case UnmatchedSingle => "unmatched single quote; by default quotes are special to xargs unless you use the -0 option"
    case UnmatchedDouble => "unmatched double quote; by default quotes are special to xargs unless you use the -0 option"
  }

  function Command(opts: Options): (r: seq<string>)
    ensures r != []
  {
    if opts.cmd == [] then ["echo"] else opts.cmd
  }

  function Run(o: Oracle, c: Conf, args: seq<string>, io: IO): (r: Out<int>)
    ensures r.c.w.left <= c.w.left
  {
    var choice := ParseOptions(o, args, PLAIN);
    if choice.Rejected? then Fail1(o, c, io, choice.message)
    else
      var opts := choice.options;
      var (input, e) := o.read(c.w.trace, io.input);
      var c1 := Log(c, Consumed(io.input));
      if e.Some? then Out(c1, Some(Fail(e.value)), 1)
      else if |input| > MAX_SCRIPT then Out(c1, Some(Fail(Limit)), 1)
      else
        var r := ItemsOf(opts, input);
        if r.Bad? then Fail1(o, c1, io, FaultText(r.fault))
        else if r.items == [] && opts.skipEmpty then Out(c1, None, 0)
        else RunBatches(o, c1, io, opts.trace, Command(opts), opts.replace, opts.per, r.items, 0)
  }

  // ---------------------------------------------------------------------
  // What the command lines carry
  // ---------------------------------------------------------------------

  /** What follows the command's own words, one command line after the other. */
  function Tails(argvs: seq<seq<string>>, n: nat): seq<string>
    requires forall a :: a in argvs ==> n <= |a|
  {
    if argvs == [] then [] else argvs[0][n..] + Tails(argvs[1..], n)
  }

  lemma {:induction false} TailsAppend(xs: seq<seq<string>>, ys: seq<seq<string>>, n: nat)
    requires forall a :: a in xs + ys ==> n <= |a|
    ensures (forall a :: a in xs ==> n <= |a|) && (forall a :: a in ys ==> n <= |a|)
    ensures Tails(xs + ys, n) == Tails(xs, n) + Tails(ys, n)
  {
    assert forall a :: a in xs ==> a in xs + ys;
    assert forall a :: a in ys ==> a in xs + ys;
    if xs == [] {
      assert xs + ys == ys;
    } else {
      assert (xs + ys)[0] == xs[0] && (xs + ys)[1..] == xs[1..] + ys;
      TailsAppend(xs[1..], ys, n);
    }
  }

  lemma ArgvsUnfold(cmd: seq<string>, replace: string, per: nat, items: seq<string>)
    requires cmd != []
    ensures var batch := Next(per, items);
            Argvs(cmd, replace, per, items) == [Argv(cmd, replace, batch)] +
              if batch == items then [] else Argvs(cmd, replace, per, items[|batch|..])
  {
    hide Argv, Next;
    var batch := Next(per, items);
    assert items == batch + items[|batch|..];
  }

  /** The number of command lines is the rounded-up quotient, at least one. */
  predicate Quotient(count: nat, n: nat, per: nat) {
    if per == 0 || n == 0 then count == 1 else (count - 1) * per < n <= count * per
  }

  lemma QuotientStep(count: nat, n: nat, per: nat)
    requires 0 < per < n && Quotient(count, n - per, per)
    ensures Quotient(count + 1, n, per)
  {
    assert (count + 1) * per == count * per + per;
    assert (count - 1) * per == count * per - per;
  }

  /** Without -I, a full run hands every item to exactly one command line, in
      order; every command line starts with the command's own words, every one
      but the last carries exactly N items under -n N, and their number is the
      rounded-up quotient, at least one. */
  lemma {:induction false} ArgvsConserve(cmd: seq<string>, per: nat, items: seq<string>)
    requires cmd != []
    ensures var plan := Argvs(cmd, "", per, items);
            && (forall a :: a in plan ==> cmd <= a)
            && Tails(plan, |cmd|) == items
            && Quotient(|plan|, |items|, per)
            && (forall i :: 0 <= i < |plan| - 1 ==> |plan[i]| == |cmd| + per)
    decreases |items|
  {
    hide Argvs, Quotient;
    var batch := Next(per, items);
    var rest := items[|batch|..];
    ArgvsUnfold(cmd, "", per, items);
    assert (cmd + batch)[|cmd|..] == batch;
    if batch == items {
      assert Quotient(1, |items|, per) by { QuotientOne(|items|, per); }
      assert [cmd + batch][1..] == [];
      assert batch + [] == items;
    } else {
      ArgvsConserve(cmd, per, rest);
      QuotientStep(|Argvs(cmd, "", per, rest)|, |items|, per);
      assert ([cmd + batch] + Argvs(cmd, "", per, rest))[1..] == Argvs(cmd, "", per, rest);
    }
  }

  lemma QuotientOne(n: nat, per: nat)
    requires !(0 < per < n)
    ensures Quotient(1, n, per)
  {
  }

  /** With -I and one item at a time, every item has its own command line. */
  lemma {:induction false} ArgvsReplace(cmd: seq<string>, replace: string, items: seq<string>, i: nat)
    requires cmd != [] && i < |items|
    ensures |Argvs(cmd, replace, 1, items)| == |items|
    ensures Argvs(cmd, replace, 1, items)[i] == Argv(cmd, replace, [items[i]])
    decreases |items|
  {
    if |items| > 1 {
      ArgvsReplace(cmd, replace, items[1..], if i == 0 then 0 else i - 1);
    }
    assert Next(1, items) == [items[0]];
  }

  // ---------------------------------------------------------------------
  // What running a command does
  // ---------------------------------------------------------------------

  /** The command line that is executed for the given words: a name with a slash
      is replaced by the last element of what it leads to. */
  function Line(cwd: string, args: seq<string>): (r: seq<string>)
    requires args != []
    ensures |r| == |args| && r[1..] == args[1..]
  {
    [if '/' in args[0] then Paths.Base(Resolving.Resolve(cwd, args[0])) else args[0]] + args[1..]
  }

  function ExecutedAs(cwd: string, plan: seq<seq<string>>): (r: seq<seq<string>>)
    requires forall a :: a in plan ==> a != []
    ensures |r| == |plan|
    ensures forall i :: 0 <= i < |plan| ==> (assert plan[i] in plan; r[i] == Line(cwd, plan[i]))
  {
    if plan == [] then []
    else
      assert forall a :: a in plan[1..] ==> a in plan;
      assert plan[0] in plan;
      [Line(cwd, plan[0])] + ExecutedAs(cwd, plan[1..])
  }

  /** What came after the first n events is some lookups and one event. */
  predicate LooksThen(t: Trace, n: nat, e: Event) {
    n < |t| && t[|t| - 1] == e && forall i :: n <= i < |t| - 1 ==> t[i].Looked?
  }

  lemma {:induction false} FindLooks(o: Oracle, c: Conf, dirs: seq<string>, name: string)
    ensures var f := FindIn(o, c, dirs, name);
            && f.c.sh == c.sh && c.w.trace <= f.c.w.trace
            && forall i :: |c.w.trace| <= i < |f.c.w.trace| ==> f.c.w.trace[i].Looked?
    decreases |dirs|
  {
    hide InBin, Resolving.Resolve, Paths.PathJoin;
    if dirs != [] {
      var p := Resolving.Resolve(c.sh.cwd, Paths.PathJoin(dirs[0], name));
      FindLooks(o, Log(c, Looked(p)), dirs[1..], name);
      FindLooks(o, c, dirs[1..], name);
    }
  }

  /** Running a command outside the shell: some lookups, and then either it is
      executed, once, with the words given, on the streams given, in this
      shell's directory and with its exported variables, or a message says that it
      was not found and the status is 127. */
  lemma ExternalExecutes(o: Oracle, c: Conf, args: seq<string>, io: IO)
    requires args != []
    ensures var r := External(o, c, args, io);
            var t, n := r.c.w.trace, |r.c.w.trace| - 1;
            && r.c.sh == c.sh && c.w.trace <= t && |c.w.trace| <= n
            && LooksThen(t, |c.w.trace|, t[n])
            && ((t[n].Printed? && t[n].to == io.err && r.err.None? && r.value == 127) ||
                (&& t[n].Executed? && t[n].cwd == c.sh.cwd && t[n].argv == Line(c.sh.cwd, args) && t[n].io == io
                 && "PWD" in t[n].env && t[n].env["PWD"] == c.sh.cwd
                 && (forall k :: k != "PWD" ==>
                       (k in t[n].env <==> k in c.sh.vars && c.sh.vars[k].exported && c.sh.vars[k].isSet))
                 && (forall k :: k in t[n].env && k != "PWD" ==> t[n].env[k] == c.sh.vars[k].text)
                 && (r.value, r.err.Some?) == Result(o, t, n)))
  {
    hide Resolving.Resolve, FindIn, InBin, Paths.Base, SplitOn;
    var dirs := SplitOn(Get(c.sh.vars, "PATH").text, ':');
    FindLooks(o, c, dirs, args[0]);
    assert [args[0]] + args[1..] == args;
    if '/' in args[0] {
      var p := Resolving.Resolve(c.sh.cwd, args[0]);
      if InBin(p) { ExecuteLogs(o, c, [Paths.Base(p)] + args[1..], io); }
    } else {
      var f := FindIn(o, c, dirs, args[0]);
      if f.value { ExecuteLogs(o, f.c, args, io); }
    }
  }

  lemma ExecuteLogs(o: Oracle, c: Conf, argv: seq<string>, io: IO)
    ensures var r := Execute(o, c, argv, io);
            var env := Exported(c.sh.vars)["PWD" := c.sh.cwd];
            && r.c.w.trace == c.w.trace + [Executed(c.sh.cwd, argv, env, io)] && r.c.sh == c.sh
            && (r.value, r.err.Some?) == Result(o, r.c.w.trace, |c.w.trace|)
  {
    var t, e := Execute(o, c, argv, io).c.w.trace,
                Executed(c.sh.cwd, argv, Exported(c.sh.vars)["PWD" := c.sh.cwd], io);
    assert t == c.w.trace + [e];
    assert t[..|c.w.trace|] == c.w.trace && t[|c.w.trace|] == e;
    var x := o.exec(c.w.trace, e.cwd, e.argv, e.env, e.io);
    assert Result(o, t, |c.w.trace|) == (x.0, x.1.Some?);
    assert Execute(o, c, argv, io).value == x.0;
    assert Execute(o, c, argv, io).err.Some? == x.1.Some?;
  }

  /** The status of the command executed at place i of the history, and whether it
      failed: what the world answered there. */
  function Result(o: Oracle, t: Trace, i: nat): (int, bool)
    requires i < |t| && t[i].Executed?
  {
    var (code, e) := o.exec(t[..i], t[i].cwd, t[i].argv, t[i].env, t[i].io);
    (code, e.Some?)
  }

  // ---------------------------------------------------------------------
  // What a run does
  // ---------------------------------------------------------------------

  datatype Ran = Ran(argv: seq<string>, code: int, failed: bool)

  /** The commands executed in the course of a history, with what came of them. */
  function Done(o: Oracle, t: Trace): seq<Ran> {
    if t == [] then []
    else
      var n := |t| - 1;
      Done(o, t[..n]) + (if t[n].Executed? then [Ran(t[n].argv, Result(o, t, n).0, Result(o, t, n).1)] else [])
  }

  lemma DoneLog(o: Oracle, c: Conf, e: Event)
    requires !e.Executed?
    ensures Done(o, Log(c, e).w.trace) == Done(o, c.w.trace)
  {
    var t := c.w.trace + [e];
    assert t[..|t| - 1] == c.w.trace;
  }

  lemma {:induction false} DoneLooks(o: Oracle, s: Trace, t: Trace)
    requires s <= t && forall i :: |s| <= i < |t| ==> t[i].Looked?
    ensures Done(o, t) == Done(o, s)
    decreases |t|
  {
    if |t| > |s| {
      DoneLooks(o, s, t[..|t| - 1]);
    } else {
      assert s == t;
    }
  }

  /** Running a command executes it, once, with the words after its name as they
      were given, or not at all, and then with status 127. */
  lemma DoneExternal(o: Oracle, c: Conf, args: seq<string>, io: IO)
    requires args != []
    ensures var r := External(o, c, args, io);
            && r.c.sh == c.sh
            && (|| (Done(o, r.c.w.trace) == Done(o, c.w.trace) && r.err.None? && r.value == 127)
                || Done(o, r.c.w.trace) ==
                     Done(o, c.w.trace) + [Ran(Line(c.sh.cwd, args), r.value, r.err.Some?)])
  {
    hide External, Line, Result;
    ExternalExecutes(o, c, args, io);
    var t := External(o, c, args, io).c.w.trace;
    DoneLooks(o, c.w.trace, t[..|t| - 1]);
  }

  predicate Stops(r: Ran) { r.failed || r.code == 126 || r.code == 127 || r.code == 255 }

  predicate AnyNonzero(runs: seq<Ran>) { exists r :: r in runs && r.code != 0 }

  function ArgvsOf(runs: seq<Ran>): seq<seq<string>> {
    if runs == [] then [] else [runs[0].argv] + ArgvsOf(runs[1..])
  }

  /** The status of a run that was not stopped by an error: that of the command
      that stopped it, or 127 when the next one was not found, or else 123 or the
      status so far. */
  predicate Verdict(runs: seq<Ran>, planned: nat, status: int, value: int) {
    (forall r :: r in runs ==> !r.failed) &&
    if runs != [] && Stops(runs[|runs| - 1]) then
      var r := runs[|runs| - 1];
      value == if r.code == 255 then 124 else r.code
    else if |runs| == planned then value == if AnyNonzero(runs) then 123 else status
    else value == 127
  }

  /** What RunBatches does, without its mechanism: the commands executed are the
      planned ones from the first one on, none twice and none out of order; the
      run stops only after one that fails or ends with 126, 127 or 255, or when
      the next one is not found or a step is refused, and otherwise all are
      executed. */
  predicate RunsAsPlanned(o: Oracle, c: Conf, out: Out<int>, lines: seq<seq<string>>, runs: seq<Ran>, status: int) {
    && Done(o, out.c.w.trace) == Done(o, c.w.trace) + runs && out.c.sh == c.sh
    && ArgvsOf(runs) <= lines
    && (forall i :: 0 <= i < |runs| - 1 ==> !Stops(runs[i]))
    && (out.err.None? ==> Verdict(runs, |lines|, status, out.value))
  }

  lemma DoneSay(o: Oracle, c: Conf, to: Sink, text: string, code: int)
    ensures var r := Say(o, c, to, text, code);
            Done(o, r.c.w.trace) == Done(o, c.w.trace) && r.value == code && r.err.None? && r.c.sh == c.sh
  {
    DoneLog(o, c, Printed(to, text));
  }

  lemma StepDoesNothing(o: Oracle, c: Conf)
    ensures Done(o, Step(o, c).c.w.trace) == Done(o, c.w.trace) && Step(o, c).c.sh == c.sh
  {
    DoneLog(o, c, Polled);
    if c.w.left > 0 { DoneLog(o, c.(w := c.w.(left := c.w.left - 1)), Started(c.sh.depth)); }
  }

  /** One turn of the loop: its command is executed, or is not found and ends the run. */
  lemma OneBatch(o: Oracle, c: Conf, io: IO, trace: bool, cmd: seq<string>, replace: string,
                 per: nat, items: seq<string>, status: int) returns (c2: Conf, some: seq<Ran>)
    requires cmd != []
    ensures var out, batch := RunBatches(o, c, io, trace, cmd, replace, per, items, status), Next(per, items);
            if Step(o, c).err.Some? then
              out.err.Some? && Done(o, out.c.w.trace) == Done(o, c.w.trace) && out.c.sh == c.sh
            else
              && Done(o, c2.w.trace) == Done(o, c.w.trace) + some && c2.sh == c.sh
              && if some == [] then
                   && Done(o, out.c.w.trace) == Done(o, c2.w.trace)
                   && out.c.sh == c.sh && out.err.None? && out.value == 127
                 else
                   && |some| == 1 && some[0].argv == Line(c.sh.cwd, Argv(cmd, replace, batch))
                   && var one, status' := some[0], if some[0].code != 0 then 123 else status;
                   if !Stops(one) && batch != items then
                     out == RunBatches(o, c2, io, trace, cmd, replace, per, items[|batch|..], status')
                   else
                     && Done(o, out.c.w.trace) == Done(o, c2.w.trace) && out.c.sh == c.sh
                     && (out.err.None? ==>
                           !one.failed &&
                           out.value == if one.code == 255 then 124 else if Stops(one) then one.code else status')
  {
    hide External, Say, Argv, Done, Line;
    var s := Step(o, c);
    StepDoesNothing(o, c);
    var batch := Next(per, items);
    assert items == batch + items[|batch|..];
    var argv := Argv(cmd, replace, batch);
    DoneSay(o, s.c, io.err, Spaced(argv), 0);
    var c1 := if trace then Say(o, s.c, io.err, Spaced(argv), 0).c else s.c;
    var e := External(o, c1, argv, IO(Given(""), io.out, io.err, false));
    DoneExternal(o, c1, argv, IO(Given(""), io.out, io.err, false));
    c2 := e.c;
    some := if Done(o, c2.w.trace) == Done(o, c1.w.trace) then []
            else [Ran(Line(c.sh.cwd, argv), e.value, e.err.Some?)];
    assert Done(o, c1.w.trace) + [] == Done(o, c1.w.trace);
    DoneSay(o, c2, io.err, "xargs: " + argv[0] + ": exited with status 255; aborting", 124);
  }

  lemma VerdictCons(one: Ran, more: seq<Ran>, planned: nat, status: int, value: int)
    requires !Stops(one) && Verdict(more, planned, if one.code != 0 then 123 else status, value)
    ensures Verdict([one] + more, planned + 1, status, value)
  {
    var runs := [one] + more;
    assert more != [] ==> runs[|runs| - 1] == more[|more| - 1];
    assert forall r :: r in runs <==> r == one || r in more;
    assert one in runs;
  }

  lemma VerdictOne(one: Ran, planned: nat, status: int, value: int)
    requires (Stops(one) || planned == 1) && !one.failed
    requires value == if one.code == 255 then 124 else if Stops(one) then one.code
                      else if one.code != 0 then 123 else status
    ensures Verdict([one], planned, status, value)
  {
    assert one in [one];
  }

  /** The planned command lines as they are executed. */
  function Invoked(cwd: string, cmd: seq<string>, replace: string, per: nat, items: seq<string>): seq<seq<string>>
    requires cmd != []
  {
    ArgvsNonempty(cmd, replace, per, items);
    ExecutedAs(cwd, Argvs(cmd, replace, per, items))
  }

  lemma {:induction false} ArgvsNonempty(cmd: seq<string>, replace: string, per: nat, items: seq<string>)
    requires cmd != []
    ensures forall a :: a in Argvs(cmd, replace, per, items) ==> |cmd| <= |a|
    decreases |items|
  {
    hide Argvs;
    var batch := Next(per, items);
    ArgvsUnfold(cmd, replace, per, items);
    ArgvLength(cmd, replace, batch);
    if batch != items { ArgvsNonempty(cmd, replace, per, items[|batch|..]); }
  }

  lemma ArgvLength(cmd: seq<string>, replace: string, batch: seq<string>)
    requires cmd != []
    ensures |cmd| <= |Argv(cmd, replace, batch)|
  {
    if replace != "" && |batch| == 1 { ReplaceInLength(cmd[1..], replace, batch[0]); }
  }

  lemma {:induction false} ReplaceInLength(words: seq<string>, what: string, put: string)
    requires what != ""
    ensures |ReplaceIn(words, what, put)| == |words|
  {
    if words != [] { ReplaceInLength(words[1..], what, put); }
  }

  lemma InvokedUnfold(cwd: string, cmd: seq<string>, replace: string, per: nat, items: seq<string>)
    requires cmd != []
    ensures var batch := Next(per, items);
            Invoked(cwd, cmd, replace, per, items) == [Line(cwd, Argv(cmd, replace, batch))] +
              if batch == items then [] else Invoked(cwd, cmd, replace, per, items[|batch|..])
  {
    hide Argvs, Line, Argv;
    var batch := Next(per, items);
    ArgvsUnfold(cmd, replace, per, items);
    ArgvsNonempty(cmd, replace, per, items);
    var plan := Argvs(cmd, replace, per, items);
    assert plan[1..] == if batch == items then [] else Argvs(cmd, replace, per, items[|batch|..]);
  }

  lemma {:induction false} BatchesRunAsPlanned(o: Oracle, c: Conf, io: IO, trace: bool, cmd: seq<string>,
                                               replace: string, per: nat, items: seq<string>, status: int)
    returns (runs: seq<Ran>)
    requires cmd != []
    ensures RunsAsPlanned(o, c, RunBatches(o, c, io, trace, cmd, replace, per, items, status),
                          Invoked(c.sh.cwd, cmd, replace, per, items), runs, status)
    decreases |items|
  {
    hide RunBatches, Invoked, Line, Argv, Done, Step, Verdict, Next;
    var batch := Next(per, items);
    var c2, some := OneBatch(o, c, io, trace, cmd, replace, per, items, status);
    var lines := Invoked(c.sh.cwd, cmd, replace, per, items);
    InvokedUnfold(c.sh.cwd, cmd, replace, per, items);
    var out := RunBatches(o, c, io, trace, cmd, replace, per, items, status);
    runs := [];
    assert Done(o, c.w.trace) + [] == Done(o, c.w.trace);
    if Step(o, c).err.Some? {
    } else if some == [] {
      VerdictNone(|lines|, status);
    } else if Stops(some[0]) || batch == items {
      runs := some;
      assert some == [some[0]] && ArgvsOf(some) == [some[0].argv] by { assert some[1..] == []; }
      if out.err.None? { VerdictOne(some[0], |lines|, status, out.value); }
    } else {
      var status' := if some[0].code != 0 then 123 else status;
      var more := BatchesRunAsPlanned(o, c2, io, trace, cmd, replace, per, items[|batch|..], status');
      assert some == [some[0]];
      runs := [some[0]] + more;
      PlannedCons(o, c, c2, out, some[0], lines[1..], more, status);
    }
  }

  lemma VerdictNone(planned: nat, status: int)
    requires planned > 0
    ensures Verdict([], planned, status, 127)
  {
  }

  lemma PlannedCons(o: Oracle, c: Conf, c2: Conf, out: Out<int>, one: Ran, lines: seq<seq<string>>, more: seq<Ran>,
                    status: int)
    requires Done(o, c2.w.trace) == Done(o, c.w.trace) + [one] && c2.sh == c.sh && !Stops(one)
    requires RunsAsPlanned(o, c2, out, lines, more, if one.code != 0 then 123 else status)
    ensures RunsAsPlanned(o, c, out, [one.argv] + lines, [one] + more, status)
  {
    hide Done, Verdict;
    var runs := [one] + more;
    assert runs[1..] == more;
    assert Done(o, c.w.trace) + [one] + more == Done(o, c.w.trace) + runs;
    if out.err.None? { VerdictCons(one, more, |lines|, status, out.value); }
  }

  // ---------------------------------------------------------------------
  // The whole builtin
  // ---------------------------------------------------------------------

  lemma {:induction false} ArgvsOfAll(runs: seq<Ran>)
    ensures |ArgvsOf(runs)| == |runs|
  {
    if runs != [] { ArgvsOfAll(runs[1..]); }
  }

  /** Where a prefix of the command lines leaves off, a prefix of the items does. */
  lemma TailsPrefix(plan: seq<seq<string>>, first: seq<seq<string>>, n: nat)
    requires first <= plan && forall a :: a in plan ==> n <= |a|
    ensures forall a :: a in first ==> n <= |a|
    ensures Tails(first, n) <= Tails(plan, n)
  {
    var rest := plan[|first|..];
    assert plan == first + rest;
    TailsAppend(first, rest, n);
  }

  lemma {:induction false} LinesTails(cwd: string, plan: seq<seq<string>>, n: nat)
    requires 0 < n && forall a :: a in plan ==> n <= |a|
    ensures forall a :: a in ExecutedAs(cwd, plan) ==> n <= |a|
    ensures Tails(ExecutedAs(cwd, plan), n) == Tails(plan, n)
    decreases |plan|
  {
    hide Line;
    if plan != [] {
      LinesTails(cwd, plan[1..], n);
      var a, b := plan[0], Line(cwd, plan[0]);
      assert b[n..] == b[1..][n - 1..] && a[n..] == a[1..][n - 1..];
      assert ExecutedAs(cwd, plan)[1..] == ExecutedAs(cwd, plan[1..]);
    }
  }

  /** Without -I: what the executed commands carry after the command's own words. */
  lemma InvokedConserve(cwd: string, cmd: seq<string>, per: nat, items: seq<string>)
    requires cmd != []
    ensures var lines := Invoked(cwd, cmd, "", per, items);
            && (forall a :: a in lines ==> |cmd| <= |a|)
            && Tails(lines, |cmd|) == items
  {
    hide Argvs, Tails, ExecutedAs;
    ArgvsConserve(cmd, per, items);
    ArgvsNonempty(cmd, "", per, items);
    LinesTails(cwd, Argvs(cmd, "", per, items), |cmd|);
  }

  /** The builtin on input that parses, in terms of the commands that the history
      shows as executed: none with -r and no items; otherwise the planned command
      lines from the first one on, each once, and all of them exactly when the
      status is 0 or 123, where 123 says that some command ended with a nonzero
      status.  Without -I what they carry is a prefix of the items, and then all
      of them. */
  lemma RunConserves(o: Oracle, c: Conf, args: seq<string>, io: IO, opts: Options, items: seq<string>)
    returns (runs: seq<Ran>)
    requires ParseOptions(o, args, PLAIN) == Chosen(opts)
    requires o.read(c.w.trace, io.input).1.None? && |o.read(c.w.trace, io.input).0| <= MAX_SCRIPT
    requires ItemsOf(opts, o.read(c.w.trace, io.input).0) == Items(items)
    ensures var out, cmd := Run(o, c, args, io), Command(opts);
            var lines := Invoked(c.sh.cwd, cmd, opts.replace, opts.per, items);
            && Done(o, out.c.w.trace) == Done(o, c.w.trace) + runs
            && (items == [] && opts.skipEmpty ==> runs == [] && out.err.None? && out.value == 0)
            && ArgvsOf(runs) <= lines
            && (forall i :: 0 <= i < |runs| - 1 ==> !Stops(runs[i]))
            && (!(items == [] && opts.skipEmpty) && out.err.None? ==>
                  && (out.value == 0 || out.value == 123 <==>
                        ArgvsOf(runs) == lines && forall r :: r in runs ==> !Stops(r))
                  && (out.value == 123 ==> AnyNonzero(runs)) && (out.value == 0 ==> !AnyNonzero(runs)))
            && (opts.replace == "" ==>
                  && (forall a :: a in ArgvsOf(runs) ==> |cmd| <= |a|)
                  && Tails(ArgvsOf(runs), |cmd|) <= items
                  && (out.err.None? && (out.value == 0 || out.value == 123) ==> Tails(ArgvsOf(runs), |cmd|) == items))
  {
    hide RunBatches, Invoked, Tails, ParseOptions, ItemsOf, Done;
    var cmd := Command(opts);
    var out := Run(o, c, args, io);
    var c1 := Log(c, Consumed(io.input));
    DoneLog(o, c, Consumed(io.input));
    var lines := Invoked(c.sh.cwd, cmd, opts.replace, opts.per, items);
    if opts.replace == "" { InvokedConserve(c.sh.cwd, cmd, opts.per, items); }
    if items == [] && opts.skipEmpty {
      runs := [];
      assert Done(o, c.w.trace) + [] == Done(o, c.w.trace);
    } else {
      runs := BatchesRunAsPlanned(o, c1, io, opts.trace, cmd, opts.replace, opts.per, items, 0);
      assert out == RunBatches(o, c1, io, opts.trace, cmd, opts.replace, opts.per, items, 0);
      ArgvsOfAll(runs);
      if out.err.None? { VerdictMeans(runs, |lines|, out.value); }
      if |runs| == |lines| { assert ArgvsOf(runs) == lines[..|lines|] == lines; }
    }
    if opts.replace == "" { TailsPrefix(lines, ArgvsOf(runs), |cmd|); }
  }

  lemma VerdictMeans(runs: seq<Ran>, planned: nat, value: int)
    requires Verdict(runs, planned, 0, value) && forall i :: 0 <= i < |runs| - 1 ==> !Stops(runs[i])
    ensures value == 0 || value == 123 <==> |runs| == planned && forall r :: r in runs ==> !Stops(r)
    ensures value == 123 ==> AnyNonzero(runs)
    ensures value == 0 ==> !AnyNonzero(runs)
  {
    if runs != [] { assert runs[|runs| - 1] in runs; }
    forall r | r in runs && !Stops(runs[|runs| - 1]) ensures !Stops(r) {
      var i :| 0 <= i < |runs| && runs[i] == r;
    }
  }

  // ---------------------------------------------------------------------
  // Streams
  // ---------------------------------------------------------------------

  /** From place n on: what is read is this shell's input, and first; every command
      executed has an empty input of its own, the shell's output and error output
      and its directory; and every message goes to the error output. */
  predicate OwnStreams(t: Trace, n: nat, cwd: string, io: IO) {
    forall i :: n <= i < |t| ==>
      && (t[i].Consumed? ==> i == n && t[i].from == io.input)
      && (t[i].Executed? ==> t[i].cwd == cwd && t[i].io == IO(Given(""), io.out, io.err, false))
      && (t[i].Printed? ==> t[i].to == io.err)
  }

  lemma OwnLog(c: Conf, e: Event, io: IO, n: nat)
    requires n < |c.w.trace| && OwnStreams(c.w.trace, n, c.sh.cwd, io)
    requires !e.Consumed? && !e.Executed? && (e.Printed? ==> e.to == io.err)
    ensures OwnStreams(Log(c, e).w.trace, n, c.sh.cwd, io)
  {
    var t := Log(c, e).w.trace;
    forall i | n <= i < |c.w.trace| ensures t[i] == c.w.trace[i] {}
  }

  lemma StepOwnStreams(o: Oracle, c: Conf, io: IO, n: nat)
    requires n < |c.w.trace| && OwnStreams(c.w.trace, n, c.sh.cwd, io)
    ensures var s := Step(o, c).c;
            c.w.trace <= s.w.trace && s.sh == c.sh && OwnStreams(s.w.trace, n, c.sh.cwd, io)
  {
    hide OwnStreams;
    OwnLog(c, Polled, io, n);
    if c.w.left > 0 { OwnLog(c.(w := c.w.(left := c.w.left - 1)), Started(c.sh.depth), io, n); }
  }

  lemma ExternalOwnStreams(o: Oracle, c: Conf, argv: seq<string>, io: IO, n: nat)
    requires argv != [] && n < |c.w.trace| && OwnStreams(c.w.trace, n, c.sh.cwd, io)
    ensures var e := External(o, c, argv, IO(Given(""), io.out, io.err, false)).c;
            c.w.trace <= e.w.trace && e.sh == c.sh && OwnStreams(e.w.trace, n, c.sh.cwd, io)
  {
    ExternalExecutes(o, c, argv, IO(Given(""), io.out, io.err, false));
    hide External, Line, Result, OwnStreams;
    ChildOwnStreams(c, External(o, c, argv, IO(Given(""), io.out, io.err, false)).c, argv, io, n);
  }

  lemma {:induction false} BatchesOwnStreams(o: Oracle, c: Conf, io: IO, trace: bool, cmd: seq<string>,
                                             replace: string, per: nat, items: seq<string>, status: int, n: nat)
    requires cmd != [] && n < |c.w.trace| && OwnStreams(c.w.trace, n, c.sh.cwd, io)
    ensures var r := RunBatches(o, c, io, trace, cmd, replace, per, items, status);
            c.w.trace <= r.c.w.trace && OwnStreams(r.c.w.trace, n, c.sh.cwd, io)
    decreases |items|
  {
    hide External, Argv, OwnStreams, Step, Spaced;
    var s := Step(o, c);
    StepOwnStreams(o, c, io, n);
    var batch := Next(per, items);
    var rest := items[|batch|..];
    assert items == batch + rest;
    var argv := Argv(cmd, replace, batch);
    if trace { OwnLog(s.c, Printed(io.err, Spaced(argv)), io, n); }
    var c1 := if trace then Say(o, s.c, io.err, Spaced(argv), 0).c else s.c;
    var e := External(o, c1, argv, IO(Given(""), io.out, io.err, false));
    ExternalOwnStreams(o, c1, argv, io, n);
    OwnLog(e.c, Printed(io.err, "xargs: " + argv[0] + ": exited with status 255; aborting"), io, n);
    if rest != [] {
      BatchesOwnStreams(o, e.c, io, trace, cmd, replace, per, rest, if e.value != 0 then 123 else status, n);
    }
  }

  lemma ChildOwnStreams(c: Conf, d: Conf, argv: seq<string>, io: IO, n: nat)
    requires argv != [] && n < |c.w.trace| <= |d.w.trace| - 1 && c.w.trace <= d.w.trace
    requires OwnStreams(c.w.trace, n, c.sh.cwd, io)
    requires var t, m := d.w.trace, |d.w.trace| - 1;
             && LooksThen(t, |c.w.trace|, t[m])
             && (|| (t[m].Printed? && t[m].to == io.err)
                 || (t[m].Executed? && t[m].cwd == c.sh.cwd && t[m].io == IO(Given(""), io.out, io.err, false)))
    ensures OwnStreams(d.w.trace, n, c.sh.cwd, io)
  {
    var t := d.w.trace;
    forall i | |c.w.trace| <= i < |t| ensures t[i].Looked? || i == |t| - 1 {}
    forall i | n <= i < |c.w.trace| ensures t[i] == c.w.trace[i] {}
  }

  /** The builtin reads its whole input itself and leaves none of it to the commands
      it runs. */
  lemma RunOwnStreams(o: Oracle, c: Conf, args: seq<string>, io: IO)
    ensures var r := Run(o, c, args, io);
            c.w.trace <= r.c.w.trace && OwnStreams(r.c.w.trace, |c.w.trace|, c.sh.cwd, io)
  {
    hide RunBatches, ParseOptions, ItemsOf;
    var choice := ParseOptions(o, args, PLAIN);
    var (input, e) := o.read(c.w.trace, io.input);
    var c1 := Log(c, Consumed(io.input));
    if choice.Chosen? && e.None? && |input| <= MAX_SCRIPT {
      var opts, r := choice.options, ItemsOf(choice.options, input);
      if r.Items? {
        BatchesOwnStreams(o, c1, io, opts.trace, Command(opts), opts.replace, opts.per, r.items, 0, |c.w.trace|);
      }
    }
  }
}
