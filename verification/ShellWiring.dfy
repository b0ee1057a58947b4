/** Which streams are used: whatever a construct runs reads from and writes to the
    streams it is given, or to ones made in the course of it, and the two ends of
    a pipe belong to its two stages. */
module ShellWiring {
  import opened Store
  import opened ShellSyntax
  import opened ShellState
  import opened ShellEval
  import Xargs

  // ---------------------------------------------------------------------
  // Where streams come from
  // ---------------------------------------------------------------------

  /** One of the sinks given, no sink, or one made at place n of the history or later. */
  predicate SinkFrom(s: Sink, io: IO, n: nat) {
    || s == io.out || s == io.err || s == NoSink
    || (s.ToFile? && s.h >= n) || (s.ToPipe? && s.p >= n) || (s.Captured? && s.p >= n)
  }

  predicate SourceFrom(s: Source, io: IO, n: nat) {
    s == io.input || s.Given? || (s.FromFile? && s.h >= n) || (s.FromPipe? && s.p >= n)
  }

  predicate StreamsFrom(io': IO, io: IO, n: nat) {
    SourceFrom(io'.input, io, n) && SinkFrom(io'.out, io, n) && SinkFrom(io'.err, io, n)
  }

  predicate Uses(e: Event, io: IO, n: nat) {
    && (e.Executed? ==> StreamsFrom(e.io, io, n))
    && (e.Printed? ==> SinkFrom(e.to, io, n))
    && (e.Consumed? ==> SourceFrom(e.from, io, n))
  }

  /** From s to t only streams of io are used, and ones made at place n or later. */
  predicate Wired(s: Trace, t: Trace, io: IO, n: nat) {
    s <= t && forall i :: |s| <= i < |t| ==> Uses(t[i], io, n)
  }

  lemma WiredSelf(t: Trace, io: IO, n: nat)
    ensures Wired(t, t, io, n)
  {
  }

  lemma WiredLog(c: Conf, e: Event, io: IO, n: nat)
    requires Uses(e, io, n)
    ensures Wired(c.w.trace, Log(c, e).w.trace, io, n)
  {
  }

  /** One after the other: the second with streams that the first may have made. */
  lemma WiredThen(s: Trace, t: Trace, u: Trace, io: IO, io': IO, n: nat, m: nat)
    requires Wired(s, t, io, n) && Wired(t, u, io', m) && n <= m && StreamsFrom(io', io, n)
    ensures Wired(s, u, io, n)
  {
    forall i | |s| <= i < |u| ensures Uses(u[i], io, n) {
      if i < |t| { assert u[i] == t[i]; }
    }
  }

  lemma SameStreams(io: IO, n: nat)
    ensures StreamsFrom(io, io, n)
  {
  }

  // ---------------------------------------------------------------------
  // Operations that run no statements
  // ---------------------------------------------------------------------

  lemma StepWired(o: Oracle, c: Conf, io: IO, n: nat)
    ensures Wired(c.w.trace, Step(o, c).c.w.trace, io, n)
    ensures Step(o, c).err.None? ==> |Step(o, c).c.w.trace| == |c.w.trace| + 1
  {
  }

  lemma SayWired(o: Oracle, c: Conf, to: Sink, text: string, code: int, io: IO, n: nat)
    requires SinkFrom(to, io, n)
    ensures Wired(c.w.trace, Say(o, c, to, text, code).c.w.trace, io, n)
    ensures Wired(c.w.trace, Print(o, c, to, text).c.w.trace, io, n)
  {
  }

  lemma ExternalWired(o: Oracle, c: Conf, args: seq<string>, io: IO, n: nat)
    requires args != []
    ensures Wired(c.w.trace, External(o, c, args, io).c.w.trace, io, n)
  {
    hide External, Xargs.Line, Xargs.Result;
    Xargs.ExternalExecutes(o, c, args, io);
  }

  lemma DirWired(o: Oracle, c: Conf, args: seq<string>, io: IO, n: nat)
    requires args != []
    ensures Wired(c.w.trace, ChangeDir(o, c, args, io).c.w.trace, io, n)
    ensures Wired(c.w.trace, PrintDir(o, c, args, io).c.w.trace, io, n)
  {
    hide Paths.Clean, Resolving.Resolve;
  }

  lemma {:induction false} BatchesWired(o: Oracle, c: Conf, io: IO, trace: bool, cmd: seq<string>, replace: string,
                                         per: nat, items: seq<string>, status: int, n: nat)
    requires cmd != []
    ensures Wired(c.w.trace, Xargs.RunBatches(o, c, io, trace, cmd, replace, per, items, status).c.w.trace, io, n)
    decreases |items|
  {
    hide External, Say, Step, Wired, Xargs.Argv, Xargs.Next;
    StepWired(o, c, io, n);
    var s := Step(o, c);
    var batch := Xargs.Next(per, items);
    var rest := items[|batch|..];
    var argv := Xargs.Argv(cmd, replace, batch);
    SayWired(o, s.c, io.err, Spaced(argv), 0, io, n);
    WiredSelf(s.c.w.trace, io, n);
    var c1 := if trace then Say(o, s.c, io.err, Spaced(argv), 0).c else s.c;
    var child := IO(Given(""), io.out, io.err, false);
    var e := External(o, c1, argv, child);
    ExternalWired(o, c1, argv, child, n);
    WiredThen(c.w.trace, s.c.w.trace, c1.w.trace, io, io, n, n);
    WiredThen(c.w.trace, c1.w.trace, e.c.w.trace, io, child, n, n);
    var message := "xargs: " + argv[0] + ": exited with status 255; aborting";
    SayWired(o, e.c, io.err, message, 124, io, n);
    WiredThen(c.w.trace, e.c.w.trace, Say(o, e.c, io.err, message, 124).c.w.trace, io, io, n, n);
    if rest != [] {
      var status' := if e.value != 0 then 123 else status;
      BatchesWired(o, e.c, io, trace, cmd, replace, per, rest, status', n);
      WiredThen(c.w.trace, e.c.w.trace,
          Xargs.RunBatches(o, e.c, io, trace, cmd, replace, per, rest, status').c.w.trace, io, io, n, n);
    }
  }

  lemma XargsWired(o: Oracle, c: Conf, args: seq<string>, io: IO, n: nat)
    ensures Wired(c.w.trace, Xargs.Run(o, c, args, io).c.w.trace, io, n)
  {
    hide Xargs.ParseOptions, Xargs.RunBatches, Xargs.ItemsOf, Say, Wired;
    var choice := Xargs.ParseOptions(o, args, Xargs.PLAIN);
    if choice.Rejected? {
      SayWired(o, c, io.err, "xargs: " + choice.message, 1, io, n);
    } else {
      var opts := choice.options;
      var c1 := Log(c, Consumed(io.input));
      WiredLog(c, Consumed(io.input), io, n);
      var r := Xargs.ItemsOf(opts, o.read(c.w.trace, io.input).0);
      if r.Bad? {
        var message := "xargs: " + Xargs.FaultText(r.fault);
        SayWired(o, c1, io.err, message, 1, io, n);
        WiredThen(c.w.trace, c1.w.trace, Say(o, c1, io.err, message, 1).c.w.trace, io, io, n, n);
      } else {
        BatchesWired(o, c1, io, opts.trace, Xargs.Command(opts), opts.replace, opts.per, r.items, 0, n);
        WiredThen(c.w.trace, c1.w.trace,
            Xargs.RunBatches(o, c1, io, opts.trace, Xargs.Command(opts), opts.replace, opts.per, r.items, 0).c.w.trace,
            io, io, n, n);
      }
    }
  }

  lemma BuiltinWired(o: Oracle, c: Conf, args: seq<string>, io: IO, n: nat)
    requires args != []
    ensures Wired(c.w.trace, Builtin(o, c, args, io).c.w.trace, io, n)
  {
    hide External, ChangeDir, PrintDir, Xargs.Run, Wired, Without;
    ExternalWired(o, c, args, io, n);
    XargsWired(o, c, args[1..], io, n);
    DirWired(o, c, args, io, n);
    WiredSelf(c.w.trace, io, n);
  }

  lemma {:induction false} AdmitWired(o: Oracle, c: Conf, fields: seq<string>, acc: seq<string>, io: IO, n: nat)
    ensures Wired(c.w.trace, Admit(o, c, fields, acc).c.w.trace, io, n)
    decreases |fields|
  {
    if fields != [] {
      var p := Poll(o, c);
      AdmitWired(o, p.c, fields[1..], acc + [fields[0]], io, n);
    }
  }

  lemma {:induction false} CloseWired(o: Oracle, c: Conf, closers: seq<nat>, err: Option<Error>, code: int, io: IO,
                                      n: nat)
    ensures Wired(c.w.trace, CloseAll(o, c, closers, err, code).c.w.trace, io, n)
    decreases |closers|
  {
    if closers != [] {
      var c1 := Log(c, Event.Closed(closers[|closers| - 1]));
      CloseWired(o, c1, closers[..|closers| - 1], Some(Fail(Other)), 1, io, n);
      CloseWired(o, c1, closers[..|closers| - 1], err, code, io, n);
    }
  }

  lemma ComplainWired(o: Oracle, c: Conf, e: Error, io: IO, n: nat)
    ensures Wired(c.w.trace, Complain(o, c, e, io).c.w.trace, io, n)
  {
  }

  // ---------------------------------------------------------------------
  // Expansion and redirection
  // ---------------------------------------------------------------------

  lemma {:induction false} SubstituteWired(o: Oracle, c: Conf, body: seq<Stmt>, io: IO)
    ensures Wired(c.w.trace, Substitute(o, c, body, io).c.w.trace, io, |c.w.trace|)
    decreases c.w.left, 2
  {
    hide List, Wired;
    var n := |c.w.trace|;
    WiredSelf(c.w.trace, io, n);
    if c.sh.depth < MAX_DEPTH {
      var child := c.(sh := c.sh.(depth := c.sh.depth + 1));
      var inner := IO(io.input, Captured(n), io.err, io.inSet);
      ListWired(o, child, body, inner, 0);
      WiredThen(c.w.trace, c.w.trace, List(o, child, body, inner, 0).c.w.trace, io, inner, n, n);
    }
  }

  lemma {:induction false} PartWired(o: Oracle, c: Conf, p: Part, io: IO)
    ensures Wired(c.w.trace, ExpandPart(o, c, p, io).c.w.trace, io, |c.w.trace|)
    decreases c.w.left, 3, p
  {
    hide Expand, Substitute, Lookup, Wired;
    WiredSelf(c.w.trace, io, |c.w.trace|);
    match p
    case Lit(_) =>
    case Var(_) =>
    case Default(name, word) => ExpandWired(o, c, word, io);
    case Subst(body) => SubstituteWired(o, c, body, io);
  }

  lemma {:induction false} ExpandWired(o: Oracle, c: Conf, word: seq<Part>, io: IO)
    ensures Wired(c.w.trace, Expand(o, c, word, io).c.w.trace, io, |c.w.trace|)
    decreases c.w.left, 3, word
  {
    hide ExpandPart, Wired;
    WiredSelf(c.w.trace, io, |c.w.trace|);
    if word != [] {
      PartWired(o, c, word[0], io);
      var p := ExpandPart(o, c, word[0], io);
      if p.err.None? {
        ExpandWired(o, p.c, word[1..], io);
        Next(c, p.c, Expand(o, p.c, word[1..], io).c, io);
      }
    }
  }

  /** Two parts of an evaluation in a row. */
  lemma Next(c: Conf, d: Conf, e: Conf, io: IO)
    requires Wired(c.w.trace, d.w.trace, io, |c.w.trace|) && Wired(d.w.trace, e.w.trace, io, |d.w.trace|)
    ensures Wired(c.w.trace, e.w.trace, io, |c.w.trace|)
  {
    WiredThen(c.w.trace, d.w.trace, e.w.trace, io, io, |c.w.trace|, |d.w.trace|);
  }

  lemma {:induction false} FieldsWired(o: Oracle, c: Conf, words: seq<Word>, io: IO, acc: seq<string>)
    ensures Wired(c.w.trace, Fields(o, c, words, io, acc).c.w.trace, io, |c.w.trace|)
    decreases c.w.left, 4, |words|
  {
    hide Expand, Admit, FieldsOf, Wired;
    WiredSelf(c.w.trace, io, |c.w.trace|);
    if words != [] {
      ExpandWired(o, c, words[0].parts, io);
      var e := Expand(o, c, words[0].parts, io);
      if e.err.None? {
        var fs := FieldsOf(o, e.c, words[0].parts, e.value);
        AdmitWired(o, e.c, fs, acc, io, |e.c.w.trace|);
        var a := Admit(o, e.c, fs, acc);
        Next(c, e.c, a.c, io);
        if a.err.None? {
          FieldsWired(o, a.c, words[1..], io, a.value);
          Next(c, a.c, Fields(o, a.c, words[1..], io, a.value).c, io);
        }
      }
    }
  }

  lemma {:induction false} AssignmentWired(o: Oracle, c: Conf, a: Assign, export_: bool, io: IO)
    ensures Wired(c.w.trace, Assignment(o, c, a, export_, io).c.w.trace, io, |c.w.trace|)
    decreases c.w.left, 4, 0
  {
    hide Expand, Wired;
    ExpandWired(o, c, a.value, io);
  }

  lemma {:induction false} AssignmentsWired(o: Oracle, c: Conf, xs: seq<Assign>, export_: bool, io: IO)
    ensures Wired(c.w.trace, Assignments(o, c, xs, export_, io).c.w.trace, io, |c.w.trace|)
    decreases c.w.left, 5, |xs|
  {
    hide Assignment, Wired;
    WiredSelf(c.w.trace, io, |c.w.trace|);
    if xs != [] {
      AssignmentWired(o, c, xs[0], export_, io);
      var a := Assignment(o, c, xs[0], export_, io);
      AssignmentsWired(o, a.c, xs[1..], export_, io);
      Next(c, a.c, Assignments(o, a.c, xs[1..], export_, io).c, io);
    }
  }

  lemma {:induction false} ExportsWired(o: Oracle, c: Conf, xs: seq<Exportable>, io: IO)
    ensures Wired(c.w.trace, Exports(o, c, xs, io).c.w.trace, io, |c.w.trace|)
    decreases c.w.left, 5, |xs|
  {
    hide Assignment, Wired;
    WiredSelf(c.w.trace, io, |c.w.trace|);
    if xs != [] && xs[0].Named? {
      var a := xs[0].assign;
      if a.naked {
        ExportsWired(o, c.(sh := c.sh.(vars := c.sh.vars[a.name := Get(c.sh.vars, a.name).(exported := true)])),
            xs[1..], io);
      } else {
        AssignmentWired(o, c, a, true, io);
        var r := Assignment(o, c, a, true, io);
        ExportsWired(o, r.c, xs[1..], io);
        Next(c, r.c, Exports(o, r.c, xs[1..], io).c, io);
      }
    }
  }

  lemma {:induction false} PrefixesWired(o: Oracle, c: Conf, xs: seq<Assign>, before: Saved, io: IO)
    ensures Wired(c.w.trace, Prefixes(o, c, xs, before, io).c.w.trace, io, |c.w.trace|)
    decreases c.w.left, 5, |xs|
  {
    hide Assignment, Wired;
    WiredSelf(c.w.trace, io, |c.w.trace|);
    if xs != [] {
      var k := xs[0].name;
      var before' := if k in before then before else before[k := Get(c.sh.vars, k)];
      AssignmentWired(o, c, xs[0], true, io);
      var a := Assignment(o, c, xs[0], true, io);
      PrefixesWired(o, a.c, xs[1..], before', io);
      Next(c, a.c, Prefixes(o, a.c, xs[1..], before', io).c, io);
    }
  }

  lemma OpenTargetWired(o: Oracle, c: Conf, rd: Redir, path: string, io: IO)
    ensures var r := OpenTarget(o, c, rd, path, io);
            Wired(c.w.trace, r.c.w.trace, io, |c.w.trace|) && StreamsFrom(r.value.io, io, |c.w.trace|)
  {
  }

  lemma {:induction false} RedirectOneWired(o: Oracle, c: Conf, rd: Redir, io: IO)
    ensures var r := RedirectOne(o, c, rd, io);
            Wired(c.w.trace, r.c.w.trace, io, |c.w.trace|) && StreamsFrom(r.value.io, io, |c.w.trace|)
    decreases c.w.left, 5, 0
  {
    hide Expand, Fields, OpenTarget, Resolving.Resolve, Wired;
    if rd.op == HereDoc || rd.op == HereString {
      ExpandWired(o, c, rd.word, io);
    } else {
      FieldsWired(o, c, [Word(rd.word)], io, []);
      var f := Fields(o, c, [Word(rd.word)], io, []);
      if f.err.None? && |f.value| == 1 && rd.op != DupOut {
        var path := Resolving.Resolve(f.c.sh.cwd, f.value[0]);
        OpenTargetWired(o, f.c, rd, path, io);
        Next(c, f.c, OpenTarget(o, f.c, rd, path, io).c, io);
        WiredGrows(c, f.c, io);
        StreamsLater(OpenTarget(o, f.c, rd, path, io).value.io, io, |c.w.trace|, |f.c.w.trace|);
      }
    }
  }

  lemma WiredGrows(c: Conf, d: Conf, io: IO)
    requires Wired(c.w.trace, d.w.trace, io, |c.w.trace|)
    ensures |c.w.trace| <= |d.w.trace|
  {
  }

  lemma StreamsLater(io': IO, io: IO, n: nat, m: nat)
    requires StreamsFrom(io', io, m) && n <= m
    ensures StreamsFrom(io', io, n)
  {
  }

  lemma StreamsChain(io'': IO, io': IO, io: IO, n: nat, m: nat)
    requires StreamsFrom(io', io, n) && StreamsFrom(io'', io', m) && n <= m
    ensures StreamsFrom(io'', io, n)
  {
  }

  lemma {:induction false} RedirectWired(o: Oracle, c: Conf, rs: seq<Redir>, io: IO, closers: seq<nat>)
    ensures var r := Redirect(o, c, rs, io, closers);
            Wired(c.w.trace, r.c.w.trace, io, |c.w.trace|) && StreamsFrom(r.value.io, io, |c.w.trace|)
    decreases c.w.left, 6, |rs|
  {
    hide RedirectOne, Wired, StreamsFrom;
    var n := |c.w.trace|;
    WiredSelf(c.w.trace, io, n);
    SameStreams(io, n);
    if rs != [] {
      RedirectOneWired(o, c, rs[0], io);
      var r := RedirectOne(o, c, rs[0], io);
      WiredGrows(c, r.c, io);
      if r.err.None? {
        RedirectWired(o, r.c, rs[1..], r.value.io, closers + r.value.closers);
        var q := Redirect(o, r.c, rs[1..], r.value.io, closers + r.value.closers);
        WiredThen(c.w.trace, r.c.w.trace, q.c.w.trace, io, r.value.io, n, |r.c.w.trace|);
        StreamsChain(q.value.io, r.value.io, io, n, |r.c.w.trace|);
      }
    }
  }

  // ---------------------------------------------------------------------
  // Statements and commands
  // ---------------------------------------------------------------------

  lemma {:induction false} ListWired(o: Oracle, c: Conf, xs: seq<Stmt>, io: IO, code: int)
    ensures Wired(c.w.trace, List(o, c, xs, io, code).c.w.trace, io, |c.w.trace|)
    decreases c.w.left, 1, |xs|
  {
    hide Statement, Wired;
    WiredSelf(c.w.trace, io, |c.w.trace|);
    if xs != [] {
      StatementWired(o, c, xs[0], io, false);
      var s := Statement(o, c, xs[0], io, false);
      WiredLoosen(c.w.trace, s.c.w.trace, io, |c.w.trace|, |c.w.trace| + 1);
      var c1 := s.c.(sh := s.c.sh.(status := s.value));
      if s.err.None? {
        ListWired(o, c1, xs[1..], io, s.value);
        Next(c, c1, List(o, c1, xs[1..], io, s.value).c, io);
      }
    }
  }

  lemma WiredLoosen(s: Trace, t: Trace, io: IO, n: nat, m: nat)
    requires Wired(s, t, io, m) && n <= m
    ensures Wired(s, t, io, n)
  {
  }

  /** A statement makes nothing before its first event, a step taken or refused. */
  lemma {:induction false} StatementWired(o: Oracle, c: Conf, x: Stmt, io: IO, all: bool)
    ensures Wired(c.w.trace, Statement(o, c, x, io, all).c.w.trace, io, |c.w.trace| + 1)
    decreases c.w.left, 0
  {
    hide Step, Perform, Wired;
    var n := |c.w.trace| + 1;
    StepWired(o, c, io, n);
    var s := Step(o, c);
    if s.err.None? {
      PerformWired(o, s.c, x, io, all);
      SameStreams(io, n);
      WiredThen(c.w.trace, s.c.w.trace, Perform(o, s.c, x, io, all).c.w.trace, io, io, n, |s.c.w.trace|);
    }
  }

  lemma {:induction false} PerformWired(o: Oracle, c: Conf, x: Stmt, io: IO, all: bool)
    ensures Wired(c.w.trace, Perform(o, c, x, io, all).c.w.trace, io, |c.w.trace|)
    decreases c.w.left, 9
  {
    hide Fields, Redirect, Complain, CommandLine, CloseAll, Wired, StreamsFrom;
    var n := |c.w.trace|;
    WiredSelf(c.w.trace, io, n);
    SameStreams(io, n);
    var c1 := c.(sh := c.sh.(subStatus := 0));
    if x.cmd.Simple? { FieldsWired(o, c1, x.cmd.words, io, []); }
    var f := if x.cmd.Simple? then Fields(o, c1, x.cmd.words, io, []) else Out(c1, None, []);
    if f.err.None? {
      RedirectWired(o, f.c, x.redirs, io, []);
      var r := Redirect(o, f.c, x.redirs, io, []);
      Next(c, f.c, r.c, io);
      WiredGrows(c, f.c, io);
      WiredGrows(f.c, r.c, io);
      StreamsLater(r.value.io, io, n, |f.c.w.trace|);
      var d := if r.err.Some? then Complain(o, r.c, r.err.value, io)
          else CommandLine(o, r.c, x, f.value, r.value.io, all);
      if r.err.Some? {
        ComplainWired(o, r.c, r.err.value, io, n);
        WiredThen(c.w.trace, r.c.w.trace, d.c.w.trace, io, io, n, n);
      } else {
        CommandLineWired(o, r.c, x, f.value, r.value.io, all);
        WiredThen(c.w.trace, r.c.w.trace, d.c.w.trace, io, r.value.io, n, |r.c.w.trace|);
      }
      CloseWired(o, d.c, r.value.closers, d.err, d.value, io, n);
      WiredThen(c.w.trace, d.c.w.trace, CloseAll(o, d.c, r.value.closers, d.err, d.value).c.w.trace, io, io, n, n);
    }
  }

  lemma {:induction false} CommandLineWired(o: Oracle, c: Conf, x: Stmt, args: seq<string>, io: IO, all: bool)
    ensures Wired(c.w.trace, CommandLine(o, c, x, args, io, all).c.w.trace, io, |c.w.trace|)
    decreases c.w.left, 8, 0
  {
    hide Call, Command, Wired;
    var n := |c.w.trace|;
    var io' := if all then io.(err := io.out) else io;
    if x.cmd.Simple? { CallWired(o, c, x.cmd.assigns, args, io'); } else { CommandWired(o, c, x.cmd, io'); }
    var k := if x.cmd.Simple? then Call(o, c, x.cmd.assigns, args, io') else Command(o, c, x.cmd, io');
    WiredSelf(c.w.trace, io, n);
    WiredThen(c.w.trace, c.w.trace, k.c.w.trace, io, io', n, n);
  }

  lemma {:induction false} CommandWired(o: Oracle, c: Conf, x: Cmd, io: IO)
    ensures Wired(c.w.trace, Command(o, c, x, io).c.w.trace, io, |c.w.trace|)
    decreases c.w.left, 7, x
  {
    hide List, Statement, Pipeline, ForLoop, WhileLoop, Fields, Exports, Wired;
    var n := |c.w.trace|;
    WiredSelf(c.w.trace, io, n);
    match x
    case Empty =>
    case Simple(_, _) =>
    case Block(body) => ListWired(o, c, body, io, 0);
    case Subshell(body) => ListWired(o, c, body, io, 0);
    case Pipe(left, right, all) =>
      var m := PipelineWires(o, c, left, right, all, io);
      PipelineWired(c, Pipeline(o, c, left, right, all, io).c, io, m);
    case AndOr(isAnd, first, second) =>
      StatementWired(o, c, first, io, false);
      var r := Statement(o, c, first, io, false);
      WiredLoosen(c.w.trace, r.c.w.trace, io, n, n + 1);
      StatementWired(o, r.c, second, io, false);
      var q := Statement(o, r.c, second, io, false);
      WiredLoosen(r.c.w.trace, q.c.w.trace, io, |r.c.w.trace|, |r.c.w.trace| + 1);
      Next(c, r.c, q.c, io);
    case If(cond, thn, els) =>
      ListWired(o, c, cond, io, 0);
      var r := List(o, c, cond, io, 0);
      ListWired(o, r.c, thn, io, 0);
      Next(c, r.c, List(o, r.c, thn, io, 0).c, io);
      if r.err.None? && els.Some? {
        CommandWired(o, r.c, els.value, io);
        Next(c, r.c, Command(o, r.c, els.value, io).c, io);
      }
    case For(name, overArgs, items, body) =>
      if !overArgs { FieldsWired(o, c, items, io, []); }
      var f := if overArgs then Out(c, None, c.sh.args) else Fields(o, c, items, io, []);
      if f.err.None? {
        ForLoopWired(o, f.c, name, f.value, body, io, 0);
        Next(c, f.c, ForLoop(o, f.c, name, f.value, body, io, 0).c, io);
      }
    case While(cond, body, until) => WhileLoopWired(o, c, cond, body, until, io, 0);
    case Func(_, _) =>
    case Export(xs) => ExportsWired(o, c, xs, io);
  }

  lemma {:induction false} ForLoopWired(o: Oracle, c: Conf, name: string, items: seq<string>, body: seq<Stmt>,
                                        io: IO, code: int)
    ensures Wired(c.w.trace, ForLoop(o, c, name, items, body, io, code).c.w.trace, io, |c.w.trace|)
    decreases c.w.left, 2, |items|
  {
    hide List, Step, Wired;
    WiredSelf(c.w.trace, io, |c.w.trace|);
    if items != [] {
      StepWired(o, c, io, |c.w.trace|);
      var s := Step(o, c);
      var v := Set(s.c, name, Variable(items[0], true, false));
      if s.err.None? && v.err.None? {
        ListWired(o, v.c, body, io, 0);
        var r := List(o, v.c, body, io, 0);
        Next(c, v.c, r.c, io);
        ForLoopWired(o, r.c, name, items[1..], body, io, r.value);
        Next(c, r.c, ForLoop(o, r.c, name, items[1..], body, io, r.value).c, io);
      }
    }
  }

  lemma {:induction false} WhileLoopWired(o: Oracle, c: Conf, cond: seq<Stmt>, body: seq<Stmt>, until: bool, io: IO,
                                          code: int)
    ensures Wired(c.w.trace, WhileLoop(o, c, cond, body, until, io, code).c.w.trace, io, |c.w.trace|)
    decreases c.w.left, 2
  {
    hide List, Step, Wired;
    StepWired(o, c, io, |c.w.trace|);
    var s := Step(o, c);
    if s.err.None? {
      ListWired(o, s.c, cond, io, 0);
      var t := List(o, s.c, cond, io, 0);
      Next(c, s.c, t.c, io);
      ListWired(o, t.c, body, io, 0);
      var r := List(o, t.c, body, io, 0);
      Next(c, t.c, r.c, io);
      WhileLoopWired(o, r.c, cond, body, until, io, r.value);
      Next(c, r.c, WhileLoop(o, r.c, cond, body, until, io, r.value).c, io);
    }
  }

  /** The history of a pipeline is that of its left stage and then that of its right
      one.  The left stage uses the pipe in place of the output, the right one in
      place of the input, and besides these and the other streams given each uses
      only what is made later than the pipe. */
  lemma {:induction false} PipelineWires(o: Oracle, c: Conf, left: Stmt, right: Stmt, all: bool, io: IO)
    returns (m: nat)
    ensures var n, t := |c.w.trace|, Pipeline(o, c, left, right, all, io).c.w.trace;
            && n <= m < |t| && t[|t| - 1] == Polled
            && Wired(c.w.trace, t[..m], io.(out := ToPipe(n)), n + 1)
            && Wired(t[..m], t, io.(input := FromPipe(n), inSet := true), n + 1)
    ensures exists share: nat :: share <= c.w.left &&
              Pipeline(o, c, left, right, all, io).c.w.trace[..m] ==
                Statement(o, c.(w := c.w.(left := share)), left, io.(out := ToPipe(|c.w.trace|)), all).c.w.trace
    decreases c.w.left, 2
  {
    hide Statement, Wired;
    var n := |c.w.trace|;
    var mine := if o.share(c.w.trace) <= c.w.left then o.share(c.w.trace) else c.w.left;
    var cl, lio := c.(w := c.w.(left := mine)), io.(out := ToPipe(n));
    StatementWired(o, cl, left, lio, all);
    var l := Statement(o, cl, left, lio, all);
    m := |l.c.w.trace|;
    Longer(c.w.trace, l.c.w.trace, lio, n + 1);
    var cr := Conf(c.sh, World(l.c.w.trace, c.w.left - mine, c.w.overdrawn));
    var rio := io.(input := FromPipe(n), inSet := true);
    StatementWired(o, cr, right, rio, false);
    var r := Statement(o, cr, right, rio, false);
    Longer(l.c.w.trace, r.c.w.trace, rio, m + 1);
    WiredLoosen(l.c.w.trace, r.c.w.trace, rio, n + 1, m + 1);
    var d := Rejoin(c, l.c.w, r.c.w);
    WiredLog(d, Polled, rio, n + 1);
    SameStreams(rio, n + 1);
    WiredThen(l.c.w.trace, r.c.w.trace, Log(d, Polled).w.trace, rio, rio, n + 1, n + 1);
    var t := Pipeline(o, c, left, right, all, io).c.w.trace;
    assert t == r.c.w.trace + [Polled];
    assert t[..m] == l.c.w.trace;
  }

  lemma Longer(s: Trace, t: Trace, io: IO, n: nat)
    requires Wired(s, t, io, n)
    ensures s <= t
  {
  }

  lemma PipelineWired(c: Conf, d: Conf, io: IO, m: nat)
    requires var n, t := |c.w.trace|, d.w.trace;
             && n <= m < |t|
             && Wired(c.w.trace, t[..m], io.(out := ToPipe(n)), n + 1)
             && Wired(t[..m], t, io.(input := FromPipe(n), inSet := true), n + 1)
    ensures Wired(c.w.trace, d.w.trace, io, |c.w.trace|)
  {
    var n, t := |c.w.trace|, d.w.trace;
    forall i | n <= i < |t| ensures Uses(t[i], io, n) {
      if i < m { assert t[..m][i] == t[i]; }
    }
  }

  lemma {:induction false} CallWired(o: Oracle, c: Conf, assigns: seq<Assign>, args: seq<string>, io: IO)
    ensures Wired(c.w.trace, Call(o, c, assigns, args, io).c.w.trace, io, |c.w.trace|)
    decreases c.w.left, 7, 0
  {
    hide Assignments, Prefixes, Invoke, Restore, Wired;
    if args == [] {
      AssignmentsWired(o, c, assigns, false, io);
    } else {
      PrefixesWired(o, c, assigns, map[], io);
      var p := Prefixes(o, c, assigns, map[], io);
      if p.err.None? {
        InvokeWired(o, p.c, args, io);
        Next(c, p.c, Invoke(o, p.c, args, io).c, io);
      }
    }
  }

  lemma {:induction false} InvokeWired(o: Oracle, c: Conf, args: seq<string>, io: IO)
    requires args != []
    ensures Wired(c.w.trace, Invoke(o, c, args, io).c.w.trace, io, |c.w.trace|)
    decreases c.w.left, 6
  {
    hide CallFunction, Nested, Builtin, Wired;
    if args[0] in c.sh.funcs {
      CallFunctionWired(o, c, args, io);
    } else {
      NestedWired(o, c, args, io);
      BuiltinWired(o, c, args, io, |c.w.trace|);
    }
  }

  lemma {:induction false} CallFunctionWired(o: Oracle, c: Conf, args: seq<string>, io: IO)
    requires args != [] && args[0] in c.sh.funcs
    ensures Wired(c.w.trace, CallFunction(o, c, args, io).c.w.trace, io, |c.w.trace|)
    decreases c.w.left, 1
  {
    hide Statement, Wired;
    WiredSelf(c.w.trace, io, |c.w.trace|);
    if c.sh.depth < MAX_DEPTH {
      var c1 := c.(sh := c.sh.(args := args[1..], depth := c.sh.depth + 1));
      StatementWired(o, c1, c.sh.funcs[args[0]], io, false);
      WiredLoosen(c.w.trace, Statement(o, c1, c.sh.funcs[args[0]], io, false).c.w.trace, io, |c.w.trace|,
          |c.w.trace| + 1);
    }
  }

  lemma {:induction false} NestedWired(o: Oracle, c: Conf, args: seq<string>, io: IO)
    requires args != []
    ensures Wired(c.w.trace, Nested(o, c, args, io).c.w.trace, io, |c.w.trace|)
    decreases c.w.left, 2
  {
    hide List, Say, Wired, NestedShell;
    var n := |c.w.trace|;
    WiredSelf(c.w.trace, io, n);
    SayWired(o, c, io.err, "shale: nested shells support -c SCRIPT", 2, io, n);
    if c.sh.depth < MAX_DEPTH && |args| >= 3 {
      var p := o.parse(args[2]);
      if p.Program? {
        var child := Log(c.(sh := NestedShell(c, args)), Entered(args[2]));
        WiredLog(c.(sh := NestedShell(c, args)), Entered(args[2]), io, n);
        ListWired(o, child, p.body, io, 0);
        Next(c, child, List(o, child, p.body, io, 0).c, io);
      }
    }
  }

  // ---------------------------------------------------------------------
  // Pipes
  // ---------------------------------------------------------------------

  /** The streams are older than place n of the history. */
  predicate Older(io: IO, n: nat) {
    && (io.input.FromFile? ==> io.input.h < n) && (io.input.FromPipe? ==> io.input.p < n)
    && SinkOlder(io.out, n) && SinkOlder(io.err, n)
  }

  predicate SinkOlder(s: Sink, n: nat) {
    (s.ToFile? ==> s.h < n) && (s.ToPipe? ==> s.p < n) && (s.Captured? ==> s.p < n)
  }

  predicate WritesTo(e: Event, s: Sink) {
    (e.Executed? && (e.io.out == s || e.io.err == s)) || (e.Printed? && e.to == s)
  }

  predicate ReadsFrom(e: Event, s: Source) {
    (e.Executed? && e.io.input == s) || (e.Consumed? && e.from == s)
  }

  /** A pipe belongs to its stages: all that is written to it is written by the left
      stage and all that is read from it is read by the right one.  The left stage
      writes nothing to the output that the pipe replaces, nor the right one reads
      anything from the input. */
  lemma PipeIsPrivate(o: Oracle, c: Conf, left: Stmt, right: Stmt, all: bool, io: IO) returns (m: nat)
    requires Older(io, |c.w.trace|)
    ensures var n, t := |c.w.trace|, Pipeline(o, c, left, right, all, io).c.w.trace;
            && n <= m < |t|
            && (forall i :: n <= i < |t| && WritesTo(t[i], ToPipe(n)) ==> i < m)
            && (forall i :: n <= i < |t| && ReadsFrom(t[i], FromPipe(n)) ==> m <= i)
            && (io.out != io.err && io.out != NoSink ==> forall i :: n <= i < m ==> !WritesTo(t[i], io.out))
            && (!io.input.Given? ==> forall i :: m <= i < |t| ==> !ReadsFrom(t[i], io.input))
    ensures exists share: nat :: share <= c.w.left &&
              Pipeline(o, c, left, right, all, io).c.w.trace[..m] ==
                Statement(o, c.(w := c.w.(left := share)), left, io.(out := ToPipe(|c.w.trace|)), all).c.w.trace
  {
    hide Pipeline;
    m := PipelineWires(o, c, left, right, all, io);
    var n, t := |c.w.trace|, Pipeline(o, c, left, right, all, io).c.w.trace;
    forall i | n <= i < |t|
      ensures WritesTo(t[i], ToPipe(n)) ==> i < m
      ensures ReadsFrom(t[i], FromPipe(n)) ==> m <= i
      ensures io.out != io.err && io.out != NoSink && i < m ==> !WritesTo(t[i], io.out)
      ensures !io.input.Given? && m <= i ==> !ReadsFrom(t[i], io.input)
    {
      if i < m { assert t[..m][i] == t[i]; }
    }
  }
}
