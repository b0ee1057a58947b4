/** The step budget is transparent: a run that the step limit does not stop is the
    same run under every larger limit, down to the last event. */
module ShellBudget {
  import opened Store
  import opened ShellSyntax
  import opened ShellState
  import opened ShellEval
  import Xargs

  /** The same configuration with k more steps to take. */
  function More(c: Conf, k: nat): Conf { c.(w := c.w.(left := c.w.left + k)) }

  function Extended<T>(r: Out<T>, k: nat): Out<T> { Out(More(r.c, k), r.err, r.value) }

  /** r is what comes of c, r' what comes of c with k more steps. */
  predicate Stable<T(==)>(c: Conf, r: Out<T>, r': Out<T>, k: nat) {
    (c.w.overdrawn ==> r.c.w.overdrawn) && (!r.c.w.overdrawn ==> r' == Extended(r, k))
  }

  // ---------------------------------------------------------------------
  // Primitive operations
  // ---------------------------------------------------------------------

  lemma StepStable(o: Oracle, c: Conf, k: nat)
    ensures Stable(c, Step(o, c), Step(o, More(c, k)), k)
  {
  }

  lemma SayStable(o: Oracle, c: Conf, to: Sink, text: string, code: int, k: nat)
    ensures Say(o, More(c, k), to, text, code) == Extended(Say(o, c, to, text, code), k)
    ensures Say(o, c, to, text, code).c.w.overdrawn == c.w.overdrawn
  {
  }

  lemma LogStable(c: Conf, e: Event, k: nat)
    ensures Log(More(c, k), e) == More(Log(c, e), k) && Log(c, e).w.overdrawn == c.w.overdrawn
  {
  }

  lemma SetStable(c: Conf, name: string, v: Variable, k: nat)
    ensures Set(More(c, k), name, v) == Extended(Set(c, name, v), k) && Set(c, name, v).c.w.overdrawn == c.w.overdrawn
  {
  }

  lemma {:induction false} FindStable(o: Oracle, c: Conf, dirs: seq<string>, name: string, k: nat)
    ensures FindIn(o, More(c, k), dirs, name) == Extended(FindIn(o, c, dirs, name), k)
    ensures FindIn(o, c, dirs, name).c.w.overdrawn == c.w.overdrawn
    decreases |dirs|
  {
    hide InBin, Resolving.Resolve;
    if dirs != [] {
      var p := Resolving.Resolve(c.sh.cwd, Paths.PathJoin(dirs[0], name));
      FindStable(o, c, dirs[1..], name, k);
      FindStable(o, Log(c, Looked(p)), dirs[1..], name, k);
    }
  }

  lemma ExternalStable(o: Oracle, c: Conf, args: seq<string>, io: IO, k: nat)
    requires args != []
    ensures External(o, More(c, k), args, io) == Extended(External(o, c, args, io), k)
    ensures External(o, c, args, io).c.w.overdrawn == c.w.overdrawn
  {
    hide InBin, Resolving.Resolve, FindIn, SplitOn;
    if '/' !in args[0] { FindStable(o, c, SplitOn(Get(c.sh.vars, "PATH").text, ':'), args[0], k); }
  }

  lemma {:induction false} BatchesStable(o: Oracle, c: Conf, io: IO, trace: bool, cmd: seq<string>, replace: string,
                                          per: nat, items: seq<string>, status: int, k: nat)
    requires cmd != []
    ensures Stable(c, Xargs.RunBatches(o, c, io, trace, cmd, replace, per, items, status),
                   Xargs.RunBatches(o, More(c, k), io, trace, cmd, replace, per, items, status), k)
    decreases |items|
  {
    hide External, Xargs.Argv, Step, Say, Xargs.Next;
    StepStable(o, c, k);
    var s := Step(o, c);
    if s.err.None? {
      var batch := Xargs.Next(per, items);
      var rest := items[|batch|..];
      var argv := Xargs.Argv(cmd, replace, batch);
      SayStable(o, s.c, io.err, Spaced(argv), 0, k);
      var c1 := if trace then Say(o, s.c, io.err, Spaced(argv), 0).c else s.c;
      var e := External(o, c1, argv, IO(Given(""), io.out, io.err, false));
      ExternalStable(o, c1, argv, IO(Given(""), io.out, io.err, false), k);
      var c2 := e.c;
      SayStable(o, c2, io.err, "xargs: " + argv[0] + ": exited with status 255; aborting", 124, k);
      if rest != [] {
        BatchesStable(o, c2, io, trace, cmd, replace, per, rest, if e.value != 0 then 123 else status, k);
      }
    }
  }

  lemma XargsStable(o: Oracle, c: Conf, args: seq<string>, io: IO, k: nat)
    ensures Stable(c, Xargs.Run(o, c, args, io), Xargs.Run(o, More(c, k), args, io), k)
  {
    hide Xargs.ParseOptions, Xargs.RunBatches, Xargs.ItemsOf, Say;
    var choice := Xargs.ParseOptions(o, args, Xargs.PLAIN);
    if choice.Rejected? {
      SayStable(o, c, io.err, "xargs: " + choice.message, 1, k);
    } else {
      var opts := choice.options;
      var c1 := Log(c, Consumed(io.input));
      var r := Xargs.ItemsOf(opts, o.read(c.w.trace, io.input).0);
      if r.Items? {
        BatchesStable(o, c1, io, opts.trace, Xargs.Command(opts), opts.replace, opts.per, r.items, 0, k);
      } else {
        SayStable(o, c1, io.err, "xargs: " + Xargs.FaultText(r.fault), 1, k);
      }
    }
  }

  lemma DirStable(o: Oracle, c: Conf, args: seq<string>, io: IO, k: nat)
    requires args != []
    ensures ChangeDir(o, More(c, k), args, io) == Extended(ChangeDir(o, c, args, io), k)
    ensures ChangeDir(o, c, args, io).c.w.overdrawn == c.w.overdrawn
    ensures PrintDir(o, More(c, k), args, io) == Extended(PrintDir(o, c, args, io), k)
    ensures PrintDir(o, c, args, io).c.w.overdrawn == c.w.overdrawn
  {
    hide Paths.Clean, Resolving.Resolve;
  }

  lemma BuiltinStable(o: Oracle, c: Conf, args: seq<string>, io: IO, k: nat)
    requires args != []
    ensures Stable(c, Builtin(o, c, args, io), Builtin(o, More(c, k), args, io), k)
  {
    hide External, ChangeDir, PrintDir, Xargs.Run;
    ExternalStable(o, c, args, io, k);
    XargsStable(o, c, args[1..], io, k);
    DirStable(o, c, args, io, k);
  }

  lemma {:induction false} AdmitStable(o: Oracle, c: Conf, fields: seq<string>, acc: seq<string>, k: nat)
    ensures Admit(o, More(c, k), fields, acc) == Extended(Admit(o, c, fields, acc), k)
    ensures Admit(o, c, fields, acc).c.w.overdrawn == c.w.overdrawn
    decreases |fields|
  {
    hide Size;
    if fields != [] { AdmitStable(o, Poll(o, c).c, fields[1..], acc + [fields[0]], k); }
  }

  lemma {:induction false} CloseStable(o: Oracle, c: Conf, closers: seq<nat>, err: Option<Error>, code: int, k: nat)
    ensures CloseAll(o, More(c, k), closers, err, code) == Extended(CloseAll(o, c, closers, err, code), k)
    ensures CloseAll(o, c, closers, err, code).c.w.overdrawn == c.w.overdrawn
    decreases |closers|
  {
    if closers != [] {
      var h, rest := closers[|closers| - 1], closers[..|closers| - 1];
      var c1 := Log(c, Event.Closed(h));
      CloseStable(o, c1, rest, Some(Fail(Other)), 1, k);
      CloseStable(o, c1, rest, err, code, k);
    }
  }

  lemma ComplainStable(o: Oracle, c: Conf, e: Error, io: IO, k: nat)
    ensures Complain(o, More(c, k), e, io) == Extended(Complain(o, c, e, io), k)
    ensures Complain(o, c, e, io).c.w.overdrawn == c.w.overdrawn
  {
  }

  lemma TargetStable(o: Oracle, c: Conf, rd: Redir, path: string, io: IO, k: nat)
    ensures OpenTarget(o, More(c, k), rd, path, io) == Extended(OpenTarget(o, c, rd, path, io), k)
    ensures OpenTarget(o, c, rd, path, io).c.w.overdrawn == c.w.overdrawn
  {
  }

  // ---------------------------------------------------------------------
  // The evaluator, function by function
  // ---------------------------------------------------------------------

  lemma {:induction false} SubstituteStable(o: Oracle, c: Conf, body: seq<Stmt>, io: IO, k: nat)
    ensures Stable(c, Substitute(o, c, body, io), Substitute(o, More(c, k), body, io), k)
    decreases c.w.left, 2
  {
    hide List;
    if c.sh.depth < MAX_DEPTH {
      ListStable(o, c.(sh := c.sh.(depth := c.sh.depth + 1)), body,
                 IO(io.input, Captured(|c.w.trace|), io.err, io.inSet), 0, k);
    }
  }

  lemma {:induction false} PartStable(o: Oracle, c: Conf, p: Part, io: IO, k: nat)
    ensures Stable(c, ExpandPart(o, c, p, io), ExpandPart(o, More(c, k), p, io), k)
    decreases c.w.left, 3, p
  {
    hide Expand, Substitute, Lookup, Set;
    match p
    case Lit(_) =>
    case Var(_) =>
    case Default(name, word) =>
      ExpandStable(o, c, word, io, k);
      var r := Expand(o, c, word, io);
      SetStable(r.c, name, Variable(Glued(r.value), true, false), k);
    case Subst(body) => SubstituteStable(o, c, body, io, k);
  }

  lemma {:induction false} ExpandStable(o: Oracle, c: Conf, word: seq<Part>, io: IO, k: nat)
    ensures Stable(c, Expand(o, c, word, io), Expand(o, More(c, k), word, io), k)
    decreases c.w.left, 3, word
  {
    hide ExpandPart;
    if word != [] {
      PartStable(o, c, word[0], io, k);
      var p := ExpandPart(o, c, word[0], io);
      if p.err.None? { ExpandStable(o, p.c, word[1..], io, k); }
    }
  }

  /** Splitting a word asks for the history and the variables only. */
  lemma FieldsAlike(o: Oracle, c: Conf, word: seq<Part>, values: seq<seq<string>>, k: nat)
    ensures FieldsOf(o, More(c, k), word, values) == FieldsOf(o, c, word, values)
  {}

  lemma {:induction false} FieldsStable(o: Oracle, c: Conf, words: seq<Word>, io: IO, acc: seq<string>, k: nat)
    ensures Stable(c, Fields(o, c, words, io, acc), Fields(o, More(c, k), words, io, acc), k)
    decreases c.w.left, 4, |words|
  {
    hide Expand, Admit, FieldsOf;
    if words != [] {
      ExpandStable(o, c, words[0].parts, io, k);
      var e := Expand(o, c, words[0].parts, io);
      if e.err.None? {
        var fs := FieldsOf(o, e.c, words[0].parts, e.value);
        FieldsAlike(o, e.c, words[0].parts, e.value, k);
        AdmitStable(o, e.c, fs, acc, k);
        var a := Admit(o, e.c, fs, acc);
        if a.err.None? { FieldsStable(o, a.c, words[1..], io, a.value, k); }
      }
    }
  }

  lemma {:induction false} AssignmentStable(o: Oracle, c: Conf, a: Assign, export_: bool, io: IO, k: nat)
    ensures Stable(c, Assignment(o, c, a, export_, io), Assignment(o, More(c, k), a, export_, io), k)
    decreases c.w.left, 4, 0
  {
    hide Expand, Set;
    ExpandStable(o, c, a.value, io, k);
    var e := Expand(o, c, a.value, io);
    var text := if a.append then Get(e.c.sh.vars, a.name).text + Glued(e.value) else Glued(e.value);
    SetStable(e.c, a.name, Variable(text, true, export_), k);
  }

  lemma {:induction false} AssignmentsStable(o: Oracle, c: Conf, xs: seq<Assign>, export_: bool, io: IO, k: nat)
    ensures Stable(c, Assignments(o, c, xs, export_, io), Assignments(o, More(c, k), xs, export_, io), k)
    decreases c.w.left, 5, |xs|
  {
    hide Assignment;
    if xs != [] {
      AssignmentStable(o, c, xs[0], export_, io, k);
      AssignmentsStable(o, Assignment(o, c, xs[0], export_, io).c, xs[1..], export_, io, k);
    }
  }

  lemma {:induction false} ExportsStable(o: Oracle, c: Conf, xs: seq<Exportable>, io: IO, k: nat)
    ensures Stable(c, Exports(o, c, xs, io), Exports(o, More(c, k), xs, io), k)
    decreases c.w.left, 5, |xs|
  {
    hide Assignment;
    if xs != [] && xs[0].Named? {
      var a := xs[0].assign;
      if a.naked {
        ExportsStable(o, c.(sh := c.sh.(vars := c.sh.vars[a.name := Get(c.sh.vars, a.name).(exported := true)])),
            xs[1..], io, k);
      } else {
        AssignmentStable(o, c, a, true, io, k);
        ExportsStable(o, Assignment(o, c, a, true, io).c, xs[1..], io, k);
      }
    }
  }

  lemma {:induction false} PrefixesStable(o: Oracle, c: Conf, xs: seq<Assign>, before: Saved, io: IO, k: nat)
    ensures Stable(c, Prefixes(o, c, xs, before, io), Prefixes(o, More(c, k), xs, before, io), k)
    decreases c.w.left, 5, |xs|
  {
    hide Assignment;
    if xs != [] {
      var name := xs[0].name;
      var before' := if name in before then before else before[name := Get(c.sh.vars, name)];
      AssignmentStable(o, c, xs[0], true, io, k);
      PrefixesStable(o, Assignment(o, c, xs[0], true, io).c, xs[1..], before', io, k);
    }
  }

  lemma {:induction false} RedirectOneStable(o: Oracle, c: Conf, rd: Redir, io: IO, k: nat)
    ensures Stable(c, RedirectOne(o, c, rd, io), RedirectOne(o, More(c, k), rd, io), k)
    decreases c.w.left, 5, 0
  {
    hide Expand, Fields, OpenTarget, Resolving.Resolve;
    if rd.op == HereDoc || rd.op == HereString {
      ExpandStable(o, c, rd.word, io, k);
    } else {
      FieldsStable(o, c, [Word(rd.word)], io, [], k);
      var f := Fields(o, c, [Word(rd.word)], io, []);
      if f.err.None? && |f.value| == 1 { TargetStable(o, f.c, rd, Resolving.Resolve(f.c.sh.cwd, f.value[0]), io, k); }
    }
  }

  lemma {:induction false} RedirectStable(o: Oracle, c: Conf, rs: seq<Redir>, io: IO, closers: seq<nat>, k: nat)
    ensures Stable(c, Redirect(o, c, rs, io, closers), Redirect(o, More(c, k), rs, io, closers), k)
    decreases c.w.left, 6, |rs|
  {
    hide RedirectOne;
    if rs != [] {
      RedirectOneStable(o, c, rs[0], io, k);
      var r := RedirectOne(o, c, rs[0], io);
      if r.err.None? { RedirectStable(o, r.c, rs[1..], r.value.io, closers + r.value.closers, k); }
    }
  }

  lemma {:induction false} ListStable(o: Oracle, c: Conf, xs: seq<Stmt>, io: IO, code: int, k: nat)
    ensures Stable(c, List(o, c, xs, io, code), List(o, More(c, k), xs, io, code), k)
    decreases c.w.left, 1, |xs|
  {
    hide Statement;
    if xs != [] {
      StatementStable(o, c, xs[0], io, false, k);
      var s := Statement(o, c, xs[0], io, false);
      if s.err.None? { ListStable(o, s.c.(sh := s.c.sh.(status := s.value)), xs[1..], io, s.value, k); }
    }
  }

  lemma {:induction false} StatementStable(o: Oracle, c: Conf, x: Stmt, io: IO, all: bool, k: nat)
    ensures Stable(c, Statement(o, c, x, io, all), Statement(o, More(c, k), x, io, all), k)
    decreases c.w.left, 0
  {
    hide Perform, Step;
    StepStable(o, c, k);
    var s := Step(o, c);
    if s.err.None? { PerformStable(o, s.c, x, io, all, k); }
  }

  lemma {:induction false} PerformStable(o: Oracle, c: Conf, x: Stmt, io: IO, all: bool, k: nat)
    ensures Stable(c, Perform(o, c, x, io, all), Perform(o, More(c, k), x, io, all), k)
    decreases c.w.left, 9
  {
    hide Fields, Redirect, Complain, CommandLine, CloseAll;
    var c1 := c.(sh := c.sh.(subStatus := 0));
    if x.cmd.Simple? { FieldsStable(o, c1, x.cmd.words, io, [], k); }
    var f := if x.cmd.Simple? then Fields(o, c1, x.cmd.words, io, []) else Out(c1, None, []);
    if f.err.None? {
      RedirectStable(o, f.c, x.redirs, io, [], k);
      var r := Redirect(o, f.c, x.redirs, io, []);
      if r.err.Some? {
        ComplainStable(o, r.c, r.err.value, io, k);
        var d := Complain(o, r.c, r.err.value, io);
        CloseStable(o, d.c, r.value.closers, d.err, d.value, k);
      } else {
        CommandLineStable(o, r.c, x, f.value, r.value.io, all, k);
        var d := CommandLine(o, r.c, x, f.value, r.value.io, all);
        CloseStable(o, d.c, r.value.closers, d.err, d.value, k);
      }
    }
  }

  lemma {:induction false} CommandLineStable(o: Oracle, c: Conf, x: Stmt, args: seq<string>, io: IO, all: bool, k: nat)
    ensures Stable(c, CommandLine(o, c, x, args, io, all), CommandLine(o, More(c, k), x, args, io, all), k)
    decreases c.w.left, 8
  {
    hide Call, Command;
    var io' := if all then io.(err := io.out) else io;
    if x.cmd.Simple? { CallStable(o, c, x.cmd.assigns, args, io', k); } else { CommandStable(o, c, x.cmd, io', k); }
  }

  lemma {:induction false} CommandStable(o: Oracle, c: Conf, x: Cmd, io: IO, k: nat)
    ensures Stable(c, Command(o, c, x, io), Command(o, More(c, k), x, io), k)
    decreases c.w.left, 7, x
  {
    hide List, Statement, Pipeline, ForLoop, WhileLoop, Fields, Exports;
    match x
    case Empty =>
    case Simple(_, _) =>
    case Block(body) => ListStable(o, c, body, io, 0, k);
    case Subshell(body) => ListStable(o, c, body, io, 0, k);
    case Pipe(left, right, all) => PipelineStable(o, c, left, right, all, io, k);
    case AndOr(isAnd, first, second) =>
      StatementStable(o, c, first, io, false, k);
      StatementStable(o, Statement(o, c, first, io, false).c, second, io, false, k);
    case If(cond, thn, els) =>
      ListStable(o, c, cond, io, 0, k);
      var r := List(o, c, cond, io, 0);
      if r.err.None? {
        if r.value == 0 {
          ListStable(o, r.c, thn, io, 0, k);
        } else if els.Some? {
          CommandStable(o, r.c, els.value, io, k);
        }
      }
    case For(name, overArgs, items, body) =>
      if !overArgs { FieldsStable(o, c, items, io, [], k); }
      var f := if overArgs then Out(c, None, c.sh.args) else Fields(o, c, items, io, []);
      if f.err.None? { ForLoopStable(o, f.c, name, f.value, body, io, 0, k); }
    case While(cond, body, until) => WhileLoopStable(o, c, cond, body, until, io, 0, k);
    case Func(_, _) =>
    case Export(xs) => ExportsStable(o, c, xs, io, k);
  }

  lemma {:induction false} ForLoopStable(o: Oracle, c: Conf, name: string, items: seq<string>, body: seq<Stmt>,
                                         io: IO, code: int, k: nat)
    ensures Stable(c, ForLoop(o, c, name, items, body, io, code),
                   ForLoop(o, More(c, k), name, items, body, io, code), k)
    decreases c.w.left, 2, |items|
  {
    hide List, Step, Set;
    if items != [] {
      StepStable(o, c, k);
      var s := Step(o, c);
      var v := Set(s.c, name, Variable(items[0], true, false));
      SetStable(s.c, name, Variable(items[0], true, false), k);
      if s.err.None? && v.err.None? {
        ListStable(o, v.c, body, io, 0, k);
        var r := List(o, v.c, body, io, 0);
        ForLoopStable(o, r.c, name, items[1..], body, io, r.value, k);
      }
    }
  }

  lemma {:induction false} WhileLoopStable(o: Oracle, c: Conf, cond: seq<Stmt>, body: seq<Stmt>, until: bool, io: IO,
                                           code: int, k: nat)
    ensures Stable(c, WhileLoop(o, c, cond, body, until, io, code),
                   WhileLoop(o, More(c, k), cond, body, until, io, code), k)
    decreases c.w.left, 2
  {
    hide List, Step;
    StepStable(o, c, k);
    var s := Step(o, c);
    if s.err.None? {
      ListStable(o, s.c, cond, io, 0, k);
      var t := List(o, s.c, cond, io, 0);
      ListStable(o, t.c, body, io, 0, k);
      var r := List(o, t.c, body, io, 0);
      WhileLoopStable(o, r.c, cond, body, until, io, r.value, k);
    }
  }

  lemma {:induction false} PipelineStable(o: Oracle, c: Conf, left: Stmt, right: Stmt, all: bool, io: IO, k: nat)
    ensures Stable(c, Pipeline(o, c, left, right, all, io), Pipeline(o, More(c, k), left, right, all, io), k)
    decreases c.w.left, 2
  {
    hide Statement, Rejoin, PipelineEnd;
    var want := o.share(c.w.trace);
    var mine := if want <= c.w.left then want else c.w.left;
    var mine' := if want <= c.w.left + k then want else c.w.left + k;
    var cl := c.(w := c.w.(left := mine));
    StatementStable(o, cl, left, io.(out := ToPipe(|c.w.trace|)), all, mine' - mine);
    assert More(cl, mine' - mine) == More(c, k).(w := More(c, k).w.(left := mine'));
    var l := Statement(o, cl, left, io.(out := ToPipe(|c.w.trace|)), all);
    var cr := Conf(c.sh, World(l.c.w.trace, c.w.left - mine, c.w.overdrawn));
    var k' := k - (mine' - mine);
    StatementStable(o, cr, right, io.(input := FromPipe(|c.w.trace|), inSet := true), false, k');
    assert More(cr, k') == Conf(c.sh, World(l.c.w.trace, c.w.left + k - mine', c.w.overdrawn));
    var r := Statement(o, cr, right, io.(input := FromPipe(|c.w.trace|), inSet := true), false);
    EndStable(o, c, l, r, mine' - mine, k');
  }

  lemma EndStable(o: Oracle, c: Conf, l: Out<int>, r: Out<int>, k1: nat, k2: nat)
    ensures var d := Rejoin(c, l.c.w, r.c.w);
            && PipelineEnd(o, d, l, r).c.w.overdrawn == (l.c.w.overdrawn || r.c.w.overdrawn)
            && (!l.c.w.overdrawn && !r.c.w.overdrawn ==>
                  PipelineEnd(o, Rejoin(More(c, k1 + k2), Extended(l, k1).c.w, Extended(r, k2).c.w), Extended(l, k1),
                      Extended(r, k2))
                  == Extended(PipelineEnd(o, d, l, r), k1 + k2))
  {
  }

  lemma {:induction false} CallStable(o: Oracle, c: Conf, assigns: seq<Assign>, args: seq<string>, io: IO, k: nat)
    ensures Stable(c, Call(o, c, assigns, args, io), Call(o, More(c, k), assigns, args, io), k)
    decreases c.w.left, 7, 0
  {
    hide Assignments, Prefixes, Invoke, Restore;
    if args == [] {
      AssignmentsStable(o, c, assigns, false, io, k);
    } else {
      PrefixesStable(o, c, assigns, map[], io, k);
      var p := Prefixes(o, c, assigns, map[], io);
      if p.err.None? { InvokeStable(o, p.c, args, io, k); }
    }
  }

  lemma {:induction false} InvokeStable(o: Oracle, c: Conf, args: seq<string>, io: IO, k: nat)
    requires args != []
    ensures Stable(c, Invoke(o, c, args, io), Invoke(o, More(c, k), args, io), k)
    decreases c.w.left, 6
  {
    hide CallFunction, Nested, Builtin;
    if args[0] in c.sh.funcs {
      CallFunctionStable(o, c, args, io, k);
    } else {
      NestedStable(o, c, args, io, k);
      BuiltinStable(o, c, args, io, k);
    }
  }

  lemma {:induction false} CallFunctionStable(o: Oracle, c: Conf, args: seq<string>, io: IO, k: nat)
    requires args != [] && args[0] in c.sh.funcs
    ensures Stable(c, CallFunction(o, c, args, io), CallFunction(o, More(c, k), args, io), k)
    decreases c.w.left, 1
  {
    hide Statement;
    if c.sh.depth < MAX_DEPTH {
      var c1 := c.(sh := c.sh.(args := args[1..], depth := c.sh.depth + 1));
      StatementStable(o, c1, c.sh.funcs[args[0]], io, false, k);
    }
  }

  lemma {:induction false} NestedStable(o: Oracle, c: Conf, args: seq<string>, io: IO, k: nat)
    requires args != []
    ensures Stable(c, Nested(o, c, args, io), Nested(o, More(c, k), args, io), k)
    decreases c.w.left, 2
  {
    hide List, NestedShell, Say;
    SayStable(o, c, io.err, "shale: nested shells support -c SCRIPT", 2, k);
    if c.sh.depth < MAX_DEPTH && |args| >= 3 {
      assert NestedShell(More(c, k), args) == NestedShell(c, args) by { SameNested(c, args, k); }
      var p := o.parse(args[2]);
      if p.Program? {
        var child := c.(sh := NestedShell(c, args));
        LogStable(child, Entered(args[2]), k);
        ListStable(o, Log(child, Entered(args[2])), p.body, io, 0, k);
      }
    }
  }

  lemma SameNested(c: Conf, args: seq<string>, k: nat)
    requires |args| >= 3
    ensures NestedShell(More(c, k), args) == NestedShell(c, args)
  {
  }

  // ---------------------------------------------------------------------
  // Whole runs
  // ---------------------------------------------------------------------

  /** A run that no step was refused to ends the same way, with the same state
      and the same history, under every larger step limit; only the steps left
      over differ. */
  lemma LimitIsTransparent(o: Oracle, sh: Sh, src: string, io: IO, maxSteps: nat, k: nat)
    requires !Run(o, sh, src, io, maxSteps).w.overdrawn
    ensures var r := Run(o, sh, src, io, maxSteps);
            Run(o, sh, src, io, maxSteps + k) == r.(w := r.w.(left := r.w.left + k))
  {
    hide List;
    var p := o.parse(src);
    if p.Program? {
      var c := Conf(sh, World([], maxSteps, false));
      ListStable(o, c, p.body, io, 0, k);
      assert More(c, k) == Conf(sh, World([], maxSteps + k, false));
    }
  }
}
