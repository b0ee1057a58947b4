/** No use after closing: whatever a command reads from or writes to, and whatever
    a message is printed to, is open at that moment. */
module ShellStreams {
  import opened Store
  import opened ShellSyntax
  import opened ShellState
  import opened ShellEval
  import opened ShellSound
  import Xargs

  predicate SourceIn(s: Source, open: seq<nat>) { s.FromFile? ==> s.h in open }

  predicate SinkIn(s: Sink, open: seq<nat>) { s.ToFile? ==> s.h in open }

  /** The files among the streams are open. */
  predicate Held(io: IO, open: seq<nat>) { SourceIn(io.input, open) && SinkIn(io.out, open) && SinkIn(io.err, open) }

  predicate UsesOpen(e: Event, open: seq<nat>) {
    && (e.Executed? ==> Held(e.io, open))
    && (e.Printed? ==> SinkIn(e.to, open))
    && (e.Consumed? ==> SourceIn(e.from, open))
  }

  /** Every event uses only files that were open when it happened. */
  predicate Orderly(t: Trace) {
    t == [] ||
    (Orderly(t[..|t| - 1]) && OpenFiles(t[..|t| - 1]).Some? && UsesOpen(t[|t| - 1], OpenFiles(t[..|t| - 1]).value))
  }

  /** The state of affairs in which a construct is evaluated with streams io. */
  predicate Safe(c: Conf, io: IO) {
    Ready(c) && Orderly(c.w.trace) && Held(io, OpenFiles(c.w.trace).value)
  }

  /** From c to d, where the files open are the same again. */
  lemma SafeStill(c: Conf, d: Conf, io: IO)
    requires Safe(c, io) && Keeps(c, d) && Orderly(d.w.trace)
    ensures Safe(d, io)
  {
  }

  lemma SafeSame(c: Conf, d: Conf, io: IO, io': IO)
    requires Safe(c, io) && Ready(d) && d.w.trace == c.w.trace && Held(io', OpenFiles(c.w.trace).value)
    ensures Safe(d, io')
  {
  }

  // ---------------------------------------------------------------------
  // Primitive operations
  // ---------------------------------------------------------------------

  lemma LogOrderly(c: Conf, e: Event)
    requires Orderly(c.w.trace) && OpenFiles(c.w.trace).Some? && UsesOpen(e, OpenFiles(c.w.trace).value)
    ensures Orderly(Log(c, e).w.trace)
  {
    var t := c.w.trace + [e];
    assert t[..|t| - 1] == c.w.trace;
  }

  lemma StepOrderly(o: Oracle, c: Conf)
    requires Ready(c) && Orderly(c.w.trace)
    ensures Orderly(Step(o, c).c.w.trace)
  {
    LogOrderly(c, Polled);
    if c.w.left > 0 { LogOrderly(c.(w := c.w.(left := c.w.left - 1)), Event.Started(c.sh.depth)); }
  }

  lemma SayOrderly(o: Oracle, c: Conf, to: Sink, text: string, code: int)
    requires Ready(c) && Orderly(c.w.trace) && SinkIn(to, OpenFiles(c.w.trace).value)
    ensures Orderly(Say(o, c, to, text, code).c.w.trace)
    ensures Orderly(Print(o, c, to, text).c.w.trace)
  {
    LogOrderly(c, Printed(to, text));
  }

  lemma {:induction false} FindOrderly(o: Oracle, c: Conf, dirs: seq<string>, name: string)
    requires Ready(c) && Orderly(c.w.trace)
    ensures Orderly(FindIn(o, c, dirs, name).c.w.trace)
    decreases |dirs|
  {
    hide InBin, Resolving.Resolve, Orderly, Ready, Keeps;
    if dirs != [] {
      var p := Resolving.Resolve(c.sh.cwd, Paths.PathJoin(dirs[0], name));
      LookOrderly(c, p);
      FindOrderly(o, c, dirs[1..], name);
      FindOrderly(o, Log(c, Looked(p)), dirs[1..], name);
    }
  }

  lemma LookOrderly(c: Conf, p: string)
    requires Ready(c) && Orderly(c.w.trace)
    ensures Ready(Log(c, Looked(p))) && Orderly(Log(c, Looked(p)).w.trace)
  {
    SoundLook(c, p);
    LogOrderly(c, Looked(p));
  }

  lemma ExecuteOrderly(o: Oracle, c: Conf, argv: seq<string>, io: IO)
    requires Safe(c, io)
    ensures Orderly(Execute(o, c, argv, io).c.w.trace)
  {
    LogOrderly(c, Executed(c.sh.cwd, argv, Exported(c.sh.vars)["PWD" := c.sh.cwd], io));
  }

  lemma ExternalOrderly(o: Oracle, c: Conf, args: seq<string>, io: IO)
    requires args != [] && Safe(c, io)
    ensures Orderly(External(o, c, args, io).c.w.trace)
  {
    hide Execute, Say, Ready, Carries, Resolving.Resolve, FindIn, InBin, Orderly, OpenFiles;
    var name := args[0];
    if '/' in name {
      var p := Resolving.Resolve(c.sh.cwd, name);
      ExecuteOrderly(o, c, [Paths.Base(p)] + args[1..], io);
      SayOrderly(o, c, io.err, p + ": command not found", 127);
    } else {
      var dirs := SplitOn(Get(c.sh.vars, "PATH").text, ':');
      var f := FindIn(o, c, dirs, name);
      SoundFind(o, c, dirs, name);
      FindOrderly(o, c, dirs, name);
      SafeStill(c, f.c, io);
      ExecuteOrderly(o, f.c, args, io);
      SayOrderly(o, f.c, io.err, name + ": command not found", 127);
    }
  }

  lemma DirOrderly(o: Oracle, c: Conf, args: seq<string>, io: IO)
    requires args != [] && Safe(c, io)
    ensures Orderly(ChangeDir(o, c, args, io).c.w.trace) && Orderly(PrintDir(o, c, args, io).c.w.trace)
  {
    hide Paths.Clean, Resolving.Resolve, Orderly;
    var to := if |args| == 2 then args[1] else Get(c.sh.vars, "HOME").text;
    var dest := Resolving.Resolve(c.sh.cwd, if to == "-" then Get(c.sh.vars, "OLDPWD").text else to);
    LookOrderly(c, dest);
    SoundLook(c, dest);
    SayOrderly(o, c, io.err, "cd: too many arguments", 1);
    SayOrderly(o, Log(c, Looked(dest)), io.err, "cd: cannot enter " + dest, 1);
    SayOrderly(o, c, io.out, c.sh.cwd, 0);
  }

  lemma {:induction false} BatchesOrderly(o: Oracle, c: Conf, io: IO, trace: bool, cmd: seq<string>, replace: string,
                                           per: nat, items: seq<string>, status: int)
    requires cmd != [] && Safe(c, io)
    ensures Orderly(Xargs.RunBatches(o, c, io, trace, cmd, replace, per, items, status).c.w.trace)
    decreases |items|
  {
    hide External, Say, Step, Ready, Keeps, Orderly, OpenFiles, Xargs.Argv, Xargs.Next;
    StepOrderly(o, c);
    SoundStep(o, c);
    var s := Step(o, c);
    SafeStill(c, s.c, io);
    var batch := Xargs.Next(per, items);
    var rest := items[|batch|..];
    var argv := Xargs.Argv(cmd, replace, batch);
    SayOrderly(o, s.c, io.err, Spaced(argv), 0);
    SoundSay(o, s.c, io.err, Spaced(argv), 0);
    KeepsSelf(s.c);
    var c1 := if trace then Say(o, s.c, io.err, Spaced(argv), 0).c else s.c;
    SafeStill(s.c, c1, io);
    var child := IO(Given(""), io.out, io.err, false);
    ChildSafe(c1, io);
    var e := External(o, c1, argv, child);
    ExternalOrderly(o, c1, argv, child);
    SoundExternal(o, c1, argv, child);
    SafeStill(c1, e.c, io);
    var c2 := e.c;
    SayOrderly(o, c2, io.err, "xargs: " + argv[0] + ": exited with status 255; aborting", 124);
    if rest != [] { BatchesOrderly(o, c2, io, trace, cmd, replace, per, rest, if e.value != 0 then 123 else status); }
  }

  lemma ChildSafe(c: Conf, io: IO)
    requires Safe(c, io)
    ensures Safe(c, IO(Given(""), io.out, io.err, false))
  {
  }

  lemma NoteSafe(c: Conf, io: IO, e: Event)
    requires Safe(c, io) && (e.Polled? || e.Entered? || (e.Consumed? && e.from == io.input))
    ensures Safe(Log(c, e), io)
  {
    SoundLog(c, e);
    LogOrderly(c, e);
  }

  lemma XargsOrderly(o: Oracle, c: Conf, args: seq<string>, io: IO)
    requires Safe(c, io)
    ensures Orderly(Xargs.Run(o, c, args, io).c.w.trace)
  {
    hide Xargs.ParseOptions, Xargs.RunBatches, Xargs.ItemsOf, Say, Orderly, OpenFiles, Ready;
    var choice := Xargs.ParseOptions(o, args, Xargs.PLAIN);
    if choice.Rejected? {
      SayOrderly(o, c, io.err, "xargs: " + choice.message, 1);
    } else {
      var opts := choice.options;
      var c1 := Log(c, Consumed(io.input));
      NoteSafe(c, io, Consumed(io.input));
      var r := Xargs.ItemsOf(opts, o.read(c.w.trace, io.input).0);
      if r.Bad? {
        SayOrderly(o, c1, io.err, "xargs: " + Xargs.FaultText(r.fault), 1);
      } else {
        BatchesOrderly(o, c1, io, opts.trace, Xargs.Command(opts), opts.replace, opts.per, r.items, 0);
      }
    }
  }

  lemma BuiltinOrderly(o: Oracle, c: Conf, args: seq<string>, io: IO)
    requires args != [] && Safe(c, io)
    ensures Orderly(Builtin(o, c, args, io).c.w.trace)
  {
    hide External, ChangeDir, PrintDir, Xargs.Run, Orderly, OpenFiles;
    ExternalOrderly(o, c, args, io);
    XargsOrderly(o, c, args[1..], io);
    DirOrderly(o, c, args, io);
  }

  lemma {:induction false} AdmitOrderly(o: Oracle, c: Conf, fields: seq<string>, acc: seq<string>)
    requires Ready(c) && Orderly(c.w.trace)
    ensures Orderly(Admit(o, c, fields, acc).c.w.trace)
    decreases |fields|
  {
    hide Orderly, OpenFiles;
    if fields != [] {
      LogOrderly(c, Polled);
      SoundLog(c, Polled);
      AdmitOrderly(o, Poll(o, c).c, fields[1..], acc + [fields[0]]);
    }
  }

  lemma {:induction false} CloseOrderly(o: Oracle, c: Conf, base: seq<nat>, closers: seq<nat>, err: Option<Error>,
                                        code: int)
    requires Ready(c) && Orderly(c.w.trace) && OpenFiles(c.w.trace) == Some(base + closers)
    ensures Orderly(CloseAll(o, c, closers, err, code).c.w.trace)
    decreases |closers|
  {
    hide Orderly, OpenFiles, Shallow, Starts;
    if closers != [] {
      var h, rest := closers[|closers| - 1], closers[..|closers| - 1];
      assert base + closers == base + rest + [h];
      ReadLog(c, Event.Closed(h));
      LogOrderly(c, Event.Closed(h));
      var c1 := Log(c, Event.Closed(h));
      CloseOrderly(o, c1, base, rest, Some(Fail(Other)), 1);
      CloseOrderly(o, c1, base, rest, err, code);
    }
  }

  lemma ComplainOrderly(o: Oracle, c: Conf, e: Error, io: IO)
    requires Safe(c, io)
    ensures Orderly(Complain(o, c, e, io).c.w.trace)
  {
    hide Orderly, OpenFiles, Say;
    NoteSafe(c, io, Polled);
    SayOrderly(o, Poll(o, c).c, io.err, "shale: redirection failed", 1);
  }

  // ---------------------------------------------------------------------
  // Expansion and redirection
  // ---------------------------------------------------------------------

  lemma {:induction false} SubstituteOrderly(o: Oracle, c: Conf, body: seq<Stmt>, io: IO)
    requires Safe(c, io)
    ensures Orderly(Substitute(o, c, body, io).c.w.trace)
    decreases c.w.left, 2
  {
    hide List, Orderly, OpenFiles;
    if c.sh.depth < MAX_DEPTH {
      var child := c.(sh := c.sh.(depth := c.sh.depth + 1));
      ListOrderly(o, child, body, IO(io.input, Captured(|c.w.trace|), io.err, io.inSet), 0);
    }
  }

  lemma {:induction false} PartOrderly(o: Oracle, c: Conf, p: Part, io: IO)
    requires Safe(c, io)
    ensures Orderly(ExpandPart(o, c, p, io).c.w.trace)
    decreases c.w.left, 3, p
  {
    hide Expand, Substitute, Orderly, OpenFiles, Lookup;
    match p
    case Lit(_) =>
    case Var(_) =>
    case Default(name, word) => ExpandOrderly(o, c, word, io);
    case Subst(body) => SubstituteOrderly(o, c, body, io);
  }

  lemma {:induction false} ExpandOrderly(o: Oracle, c: Conf, word: seq<Part>, io: IO)
    requires Safe(c, io)
    ensures Orderly(Expand(o, c, word, io).c.w.trace)
    decreases c.w.left, 3, word
  {
    hide ExpandPart, Orderly, OpenFiles;
    if word != [] {
      PartOrderly(o, c, word[0], io);
      SoundPart(o, c, word[0], io);
      var p := ExpandPart(o, c, word[0], io);
      SafeStill(c, p.c, io);
      if p.err.None? { ExpandOrderly(o, p.c, word[1..], io); }
    }
  }

  lemma {:induction false} FieldsOrderly(o: Oracle, c: Conf, words: seq<Word>, io: IO, acc: seq<string>)
    requires Safe(c, io)
    ensures Orderly(Fields(o, c, words, io, acc).c.w.trace)
    decreases c.w.left, 4, |words|
  {
    hide Expand, Admit, FieldsOf, Orderly, OpenFiles, Ready, Keeps;
    if words != [] {
      ExpandOrderly(o, c, words[0].parts, io);
      SoundExpand(o, c, words[0].parts, io);
      var e := Expand(o, c, words[0].parts, io);
      SafeStill(c, e.c, io);
      if e.err.None? {
        var fs := FieldsOf(o, e.c, words[0].parts, e.value);
        AdmitOrderly(o, e.c, fs, acc);
        SoundAdmit(o, e.c, fs, acc);
        var a := Admit(o, e.c, fs, acc);
        SafeStill(e.c, a.c, io);
        if a.err.None? { FieldsOrderly(o, a.c, words[1..], io, a.value); }
      }
    }
  }

  lemma {:induction false} AssignmentOrderly(o: Oracle, c: Conf, a: Assign, export_: bool, io: IO)
    requires Safe(c, io)
    ensures Orderly(Assignment(o, c, a, export_, io).c.w.trace)
    decreases c.w.left, 4, 0
  {
    hide Expand, Orderly, OpenFiles;
    ExpandOrderly(o, c, a.value, io);
  }

  lemma AssignmentSafe(o: Oracle, c: Conf, a: Assign, export_: bool, io: IO)
    requires Safe(c, io)
    ensures Safe(Assignment(o, c, a, export_, io).c, io)
    decreases c.w.left, 4, 1
  {
    hide Assignment, Orderly, OpenFiles, Ready, Keeps;
    AssignmentOrderly(o, c, a, export_, io);
    SoundAssignment(o, c, a, export_, io);
    SafeStill(c, Assignment(o, c, a, export_, io).c, io);
  }

  lemma {:induction false} AssignmentsOrderly(o: Oracle, c: Conf, xs: seq<Assign>, export_: bool, io: IO)
    requires Safe(c, io)
    ensures Orderly(Assignments(o, c, xs, export_, io).c.w.trace)
    decreases c.w.left, 5, |xs|
  {
    hide Assignment, Orderly, OpenFiles, Ready;
    if xs != [] {
      AssignmentSafe(o, c, xs[0], export_, io);
      AssignmentsOrderly(o, Assignment(o, c, xs[0], export_, io).c, xs[1..], export_, io);
    }
  }

  lemma {:induction false} ExportsOrderly(o: Oracle, c: Conf, xs: seq<Exportable>, io: IO)
    requires Safe(c, io)
    ensures Orderly(Exports(o, c, xs, io).c.w.trace)
    decreases c.w.left, 5, |xs|
  {
    hide Assignment, Orderly, OpenFiles;
    if xs != [] && xs[0].Named? {
      var a := xs[0].assign;
      if a.naked {
        ExportsOrderly(o, c.(sh := c.sh.(vars := c.sh.vars[a.name := Get(c.sh.vars, a.name).(exported := true)])),
            xs[1..], io);
      } else {
        AssignmentSafe(o, c, a, true, io);
        ExportsOrderly(o, Assignment(o, c, a, true, io).c, xs[1..], io);
      }
    }
  }

  lemma {:induction false} PrefixesOrderly(o: Oracle, c: Conf, xs: seq<Assign>, before: Saved, io: IO)
    requires Safe(c, io)
    ensures Orderly(Prefixes(o, c, xs, before, io).c.w.trace)
    decreases c.w.left, 5, |xs|
  {
    hide Assignment, Orderly, OpenFiles, Ready;
    if xs != [] {
      var k := xs[0].name;
      var before' := if k in before then before else before[k := Get(c.sh.vars, k)];
      AssignmentSafe(o, c, xs[0], true, io);
      PrefixesOrderly(o, Assignment(o, c, xs[0], true, io).c, xs[1..], before', io);
    }
  }

  /** The streams after a redirection are open: those there were, or the file just opened. */
  lemma TargetSafe(o: Oracle, c: Conf, rd: Redir, path: string, io: IO)
    requires Safe(c, io)
    ensures Safe(OpenTarget(o, c, rd, path, io).c, OpenTarget(o, c, rd, path, io).value.io)
    ensures OpenTarget(o, c, rd, path, io).err.Some? ==> OpenTarget(o, c, rd, path, io).value.io == io
  {
    hide Orderly, Shallow, Starts;
    var f := o.open(c.w.trace, path, rd.op);
    ReadLog(c, Opened(path, rd.op, !f.Refused?));
    LogOrderly(c, Opened(path, rd.op, !f.Refused?));
    hide OpenFiles;
  }

  lemma {:induction false} RedirectOneSafe(o: Oracle, c: Conf, rd: Redir, io: IO)
    requires Safe(c, io)
    ensures Safe(RedirectOne(o, c, rd, io).c, RedirectOne(o, c, rd, io).value.io)
    ensures RedirectOne(o, c, rd, io).err.Some? ==> RedirectOne(o, c, rd, io).value.io == io
    decreases c.w.left, 5, 0
  {
    hide Expand, Fields, OpenTarget, Orderly, OpenFiles, Resolving.Resolve, Ready, Keeps;
    if rd.op == HereDoc || rd.op == HereString {
      ExpandOrderly(o, c, rd.word, io);
      SoundExpand(o, c, rd.word, io);
      SafeStill(c, Expand(o, c, rd.word, io).c, io);
    } else {
      FieldsOrderly(o, c, [Word(rd.word)], io, []);
      SoundFields(o, c, [Word(rd.word)], io, []);
      var f := Fields(o, c, [Word(rd.word)], io, []);
      SafeStill(c, f.c, io);
      if f.err.None? && |f.value| == 1 && rd.op != DupOut {
        TargetSafe(o, f.c, rd, Resolving.Resolve(f.c.sh.cwd, f.value[0]), io);
      }
    }
  }

  lemma {:induction false} RedirectSafe(o: Oracle, c: Conf, rs: seq<Redir>, io: IO, closers: seq<nat>)
    requires Safe(c, io)
    ensures Safe(Redirect(o, c, rs, io, closers).c, Redirect(o, c, rs, io, closers).value.io)
    decreases c.w.left, 6, |rs|
  {
    hide RedirectOne, Orderly, OpenFiles, Ready;
    if rs != [] {
      RedirectOneSafe(o, c, rs[0], io);
      var r := RedirectOne(o, c, rs[0], io);
      if r.err.None? { RedirectSafe(o, r.c, rs[1..], r.value.io, closers + r.value.closers); }
    }
  }

  // ---------------------------------------------------------------------
  // Statements and commands
  // ---------------------------------------------------------------------

  lemma {:induction false} ListOrderly(o: Oracle, c: Conf, xs: seq<Stmt>, io: IO, code: int)
    requires Safe(c, io)
    ensures Orderly(List(o, c, xs, io, code).c.w.trace)
    decreases c.w.left, 1, |xs|
  {
    hide Statement, Orderly, OpenFiles;
    if xs != [] {
      StatementOrderly(o, c, xs[0], io, false);
      SoundStatement(o, c, xs[0], io, false);
      var s := Statement(o, c, xs[0], io, false);
      SafeStill(c, s.c, io);
      if s.err.None? { ListOrderly(o, s.c.(sh := s.c.sh.(status := s.value)), xs[1..], io, s.value); }
    }
  }

  lemma {:induction false} StatementOrderly(o: Oracle, c: Conf, x: Stmt, io: IO, all: bool)
    requires Safe(c, io)
    ensures Orderly(Statement(o, c, x, io, all).c.w.trace)
    decreases c.w.left, 0
  {
    hide Step, Perform, Orderly, OpenFiles, Ready, Keeps;
    StepOrderly(o, c);
    SoundStep(o, c);
    var s := Step(o, c);
    SafeStill(c, s.c, io);
    if s.err.None? { PerformOrderly(o, s.c, x, io, all); }
  }

  lemma {:induction false} PerformOrderly(o: Oracle, c: Conf, x: Stmt, io: IO, all: bool)
    requires Safe(c, io)
    ensures Orderly(Perform(o, c, x, io, all).c.w.trace)
    decreases c.w.left, 9
  {
    hide Fields, Redirect, Complain, CommandLine, CloseAll, Orderly, OpenFiles, Shallow, Starts, CleanDir;
    var c1 := c.(sh := c.sh.(subStatus := 0));
    if x.cmd.Simple? {
      FieldsOrderly(o, c1, x.cmd.words, io, []);
      SoundFields(o, c1, x.cmd.words, io, []);
    }
    var f := if x.cmd.Simple? then Fields(o, c1, x.cmd.words, io, []) else Out(c1, None, []);
    if f.err.None? {
      SafeStill(c1, f.c, io);
      RedirectedOrderly(o, f.c, x, f.value, io, all);
    }
  }

  /** The redirections, the command under them, and the closing. */
  lemma {:induction false} RedirectedOrderly(o: Oracle, c: Conf, x: Stmt, args: seq<string>, io: IO, all: bool)
    requires Safe(c, io)
    ensures var r := Redirect(o, c, x.redirs, io, []);
            var d := if r.err.Some? then Complain(o, r.c, r.err.value, io)
                else CommandLine(o, r.c, x, args, r.value.io, all);
            Orderly(CloseAll(o, d.c, r.value.closers, d.err, d.value).c.w.trace)
    decreases c.w.left, 8, 1
  {
    hide Fields, Redirect, Complain, CommandLine, CloseAll, Orderly, OpenFiles, Shallow, Starts, CleanDir;
    RedirectSafe(o, c, x.redirs, io, []);
    var files := SoundRedirect(o, c, x.redirs, io, []);
    var r := Redirect(o, c, x.redirs, io, []);
    assert [] + files == files;
    if r.err.Some? {
      assert Safe(r.c, io);
      ComplainOrderly(o, r.c, r.err.value, io);
      SoundComplain(o, r.c, r.err.value, io);
      var d := Complain(o, r.c, r.err.value, io);
      CloseOrderly(o, d.c, OpenFiles(c.w.trace).value, files, d.err, d.value);
    } else {
      CommandLineOrderly(o, r.c, x, args, r.value.io, all);
      SoundCommandLine(o, r.c, x, args, r.value.io, all);
      var d := CommandLine(o, r.c, x, args, r.value.io, all);
      CloseOrderly(o, d.c, OpenFiles(c.w.trace).value, files, d.err, d.value);
    }
  }

  lemma {:induction false} CommandLineOrderly(o: Oracle, c: Conf, x: Stmt, args: seq<string>, io: IO, all: bool)
    requires Safe(c, io)
    ensures Orderly(CommandLine(o, c, x, args, io, all).c.w.trace)
    decreases c.w.left, 8, 0
  {
    hide Call, Command, Orderly, OpenFiles;
    var io' := if all then io.(err := io.out) else io;
    if x.cmd.Simple? { CallOrderly(o, c, x.cmd.assigns, args, io'); } else { CommandOrderly(o, c, x.cmd, io'); }
  }

  lemma {:induction false} CommandOrderly(o: Oracle, c: Conf, x: Cmd, io: IO)
    requires Safe(c, io)
    ensures Orderly(Command(o, c, x, io).c.w.trace)
    decreases c.w.left, 7, x
  {
    hide List, Statement, Pipeline, ForLoop, WhileLoop, Fields, Exports, Orderly, OpenFiles, Ready, Keeps;
    match x
    case Empty =>
    case Simple(_, _) =>
    case Block(body) => ListOrderly(o, c, body, io, 0);
    case Subshell(body) => ListOrderly(o, c, body, io, 0);
    case Pipe(left, right, all) => PipelineOrderly(o, c, left, right, all, io);
    case AndOr(isAnd, first, second) =>
      StatementOrderly(o, c, first, io, false);
      SoundStatement(o, c, first, io, false);
      var r := Statement(o, c, first, io, false);
      SafeStill(c, r.c, io);
      StatementOrderly(o, r.c, second, io, false);
    case If(cond, thn, els) =>
      ListOrderly(o, c, cond, io, 0);
      SoundList(o, c, cond, io, 0);
      var r := List(o, c, cond, io, 0);
      SafeStill(c, r.c, io);
      if r.err.None? {
        if r.value == 0 {
          ListOrderly(o, r.c, thn, io, 0);
        } else if els.Some? {
          CommandOrderly(o, r.c, els.value, io);
        }
      }
    case For(name, overArgs, items, body) =>
      if overArgs {
        ForLoopOrderly(o, c, name, c.sh.args, body, io, 0);
      } else {
        FieldsOrderly(o, c, items, io, []);
        SoundFields(o, c, items, io, []);
        var f := Fields(o, c, items, io, []);
        SafeStill(c, f.c, io);
        if f.err.None? { ForLoopOrderly(o, f.c, name, f.value, body, io, 0); }
      }
    case While(cond, body, until) => WhileLoopOrderly(o, c, cond, body, until, io, 0);
    case Func(_, _) =>
    case Export(xs) => ExportsOrderly(o, c, xs, io);
  }

  lemma {:induction false} ForLoopOrderly(o: Oracle, c: Conf, name: string, items: seq<string>, body: seq<Stmt>,
                                          io: IO, code: int)
    requires Safe(c, io)
    ensures Orderly(ForLoop(o, c, name, items, body, io, code).c.w.trace)
    decreases c.w.left, 2, |items|
  {
    hide List, Step, Orderly, OpenFiles, Keeps;
    if items != [] {
      StepOrderly(o, c);
      SoundStep(o, c);
      var s := Step(o, c);
      SafeStill(c, s.c, io);
      var v := Set(s.c, name, Variable(items[0], true, false));
      if s.err.None? && v.err.None? {
        SafeSame(s.c, v.c, io, io);
        ListOrderly(o, v.c, body, io, 0);
        SoundList(o, v.c, body, io, 0);
        var r := List(o, v.c, body, io, 0);
        SafeStill(v.c, r.c, io);
        ForLoopOrderly(o, r.c, name, items[1..], body, io, r.value);
      }
    }
  }

  lemma {:induction false} WhileLoopOrderly(o: Oracle, c: Conf, cond: seq<Stmt>, body: seq<Stmt>, until: bool, io: IO,
                                            code: int)
    requires Safe(c, io)
    ensures Orderly(WhileLoop(o, c, cond, body, until, io, code).c.w.trace)
    decreases c.w.left, 2
  {
    hide List, Step, Orderly, OpenFiles, Ready, Keeps;
    StepOrderly(o, c);
    SoundStep(o, c);
    var s := Step(o, c);
    SafeStill(c, s.c, io);
    if s.err.None? {
      ListOrderly(o, s.c, cond, io, 0);
      SoundList(o, s.c, cond, io, 0);
      var t := List(o, s.c, cond, io, 0);
      SafeStill(s.c, t.c, io);
      ListOrderly(o, t.c, body, io, 0);
      SoundList(o, t.c, body, io, 0);
      var r := List(o, t.c, body, io, 0);
      SafeStill(t.c, r.c, io);
      WhileLoopOrderly(o, r.c, cond, body, until, io, r.value);
    }
  }

  lemma {:induction false} PipelineOrderly(o: Oracle, c: Conf, left: Stmt, right: Stmt, all: bool, io: IO)
    requires Safe(c, io)
    ensures Orderly(Pipeline(o, c, left, right, all, io).c.w.trace)
    decreases c.w.left, 2
  {
    hide Statement, Orderly, OpenFiles, Shallow, Starts, CleanDir;
    var mine := if o.share(c.w.trace) <= c.w.left then o.share(c.w.trace) else c.w.left;
    var cl := c.(w := c.w.(left := mine));
    StatementOrderly(o, cl, left, io.(out := ToPipe(|c.w.trace|)), all);
    SoundStatement(o, cl, left, io.(out := ToPipe(|c.w.trace|)), all);
    var l := Statement(o, cl, left, io.(out := ToPipe(|c.w.trace|)), all);
    var cr := Conf(c.sh, World(l.c.w.trace, c.w.left - mine, c.w.overdrawn));
    StatementOrderly(o, cr, right, io.(input := FromPipe(|c.w.trace|), inSet := true), false);
    SoundStatement(o, cr, right, io.(input := FromPipe(|c.w.trace|), inSet := true), false);
    var r := Statement(o, cr, right, io.(input := FromPipe(|c.w.trace|), inSet := true), false);
    LogOrderly(Rejoin(c, l.c.w, r.c.w), Polled);
  }

  lemma {:induction false} CallOrderly(o: Oracle, c: Conf, assigns: seq<Assign>, args: seq<string>, io: IO)
    requires Safe(c, io)
    ensures Orderly(Call(o, c, assigns, args, io).c.w.trace)
    decreases c.w.left, 7, 0
  {
    hide Assignments, Prefixes, Invoke, Orderly, OpenFiles, Restore, Ready, Keeps;
    if args == [] {
      AssignmentsOrderly(o, c, assigns, false, io);
    } else {
      PrefixesOrderly(o, c, assigns, map[], io);
      SoundPrefixes(o, c, assigns, map[], io);
      var p := Prefixes(o, c, assigns, map[], io);
      SafeStill(c, p.c, io);
      if p.err.None? { InvokeOrderly(o, p.c, args, io); }
    }
  }

  lemma {:induction false} InvokeOrderly(o: Oracle, c: Conf, args: seq<string>, io: IO)
    requires args != [] && Safe(c, io)
    ensures Orderly(Invoke(o, c, args, io).c.w.trace)
    decreases c.w.left, 6
  {
    hide CallFunction, Nested, Builtin, Safe;
    if args[0] in c.sh.funcs {
      CallFunctionOrderly(o, c, args, io);
    } else {
      NestedOrderly(o, c, args, io);
      BuiltinOrderly(o, c, args, io);
    }
  }

  lemma {:induction false} CallFunctionOrderly(o: Oracle, c: Conf, args: seq<string>, io: IO)
    requires args != [] && args[0] in c.sh.funcs && Safe(c, io)
    ensures Orderly(CallFunction(o, c, args, io).c.w.trace)
    decreases c.w.left, 1
  {
    hide Statement, Orderly, OpenFiles;
    if c.sh.depth < MAX_DEPTH {
      StatementOrderly(o, c.(sh := c.sh.(args := args[1..], depth := c.sh.depth + 1)), c.sh.funcs[args[0]], io, false);
    }
  }

  lemma {:induction false} NestedOrderly(o: Oracle, c: Conf, args: seq<string>, io: IO)
    requires args != [] && Safe(c, io)
    ensures Orderly(Nested(o, c, args, io).c.w.trace)
    decreases c.w.left, 2
  {
    hide List, Orderly, OpenFiles, Say;
    SayOrderly(o, c, io.err, "shale: nested shells support -c SCRIPT", 2);
    if c.sh.depth < MAX_DEPTH && |args| >= 3 {
      var p := o.parse(args[2]);
      if p.Program? {
        var child := c.(sh := NestedShell(c, args));
        NoteSafe(child, io, Entered(args[2]));
        ListOrderly(o, Log(child, Entered(args[2])), p.body, io, 0);
      }
    }
  }

  // ---------------------------------------------------------------------
  // Whole runs
  // ---------------------------------------------------------------------

  /** In every run, of every program, in every world: each command that was run,
      each message and each input read used only files that a redirection had
      opened and none had closed. */
  lemma NoUseAfterClose(o: Oracle, sh: Sh, src: string, io: IO, maxSteps: nat)
    requires sh.depth <= MAX_DEPTH && Held(io, [])
    ensures Orderly(Run(o, sh, src, io, maxSteps).w.trace)
  {
    hide List;
    var p := o.parse(src);
    if p.Program? { ListOrderly(o, Conf(sh, World([], maxSteps, false)), p.body, io, 0); }
  }

  /** What that says of one event. */
  lemma {:induction false} OrderlyAt(t: Trace, i: nat)
    requires Orderly(t) && i < |t|
    ensures OpenFiles(t[..i]).Some? && UsesOpen(t[i], OpenFiles(t[..i]).value)
    decreases |t|
  {
    var s := t[..|t| - 1];
    if i < |t| - 1 {
      OrderlyAt(s, i);
      assert s[..i] == t[..i];
    }
  }
}
