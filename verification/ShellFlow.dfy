/** Control flow: break and continue written only inside loop bodies and return
    only inside function bodies never escape from a run. */
module ShellFlow {
  import opened Store
  import opened ShellSyntax
  import opened ShellState
  import opened ShellEval
  import Xargs

  // ---------------------------------------------------------------------
  // Well-scoped programs
  // ---------------------------------------------------------------------

  /** Whether a command of this name may stand here. */
  predicate Permitted(name: string, loop: bool, fn: bool) {
    && (name == "break" || name == "continue" ==> loop)
    && (name == "return" ==> fn)
  }

  /** The first word must be written out, unless everything is permitted. */
  predicate NameScoped(words: seq<Word>, loop: bool, fn: bool) {
    || words == []
    || (loop && fn)
    || (words[0].parts != [] && IsLiteral(words[0].parts) && Permitted(LiteralText(words[0].parts), loop, fn))
  }

  /** Substitutions start a scope of their own. */
  predicate PartScoped(p: Part)
    decreases p
  {
    match p
    case Lit(_) => true
    case Var(_) => true
    case Default(_, word) => WordScoped(word)
    case Subst(body) => ListScoped(body, false, false)
  }

  predicate WordScoped(w: seq<Part>)
    decreases w
  {
    w == [] || (PartScoped(w[0]) && WordScoped(w[1..]))
  }

  predicate WordsScoped(ws: seq<Word>)
    decreases ws
  {
    ws == [] || (match ws[0] case Word(parts) => WordScoped(parts) && WordsScoped(ws[1..]))
  }

  predicate AssignsScoped(xs: seq<Assign>)
    decreases xs
  {
    xs == [] || (match xs[0] case Assign(_, value, _, _) => WordScoped(value) && AssignsScoped(xs[1..]))
  }

  predicate ExportsScoped(xs: seq<Exportable>)
    decreases xs
  {
    xs == [] || (ExportScoped(xs[0]) && ExportsScoped(xs[1..]))
  }

  predicate ExportScoped(x: Exportable)
    decreases x
  {
    match x
    case Dynamic => true
    case Named(a) => WordScoped(a.value)
  }

  predicate RedirsScoped(rs: seq<Redir>)
    decreases rs
  {
    rs == [] || (match rs[0] case Redir(_, _, word) => WordScoped(word) && RedirsScoped(rs[1..]))
  }

  predicate ListScoped(xs: seq<Stmt>, loop: bool, fn: bool)
    decreases xs
  {
    xs == [] || (StmtScoped(xs[0], loop, fn) && ListScoped(xs[1..], loop, fn))
  }

  predicate StmtScoped(x: Stmt, loop: bool, fn: bool)
    decreases x
  {
    RedirsScoped(x.redirs) && CmdScoped(x.cmd, loop, fn)
  }

  /** A loop's condition belongs to the scope around the loop; a function body is
      inside a function and outside every loop; subshells and pipelines do not
      start a scope. */
  predicate CmdScoped(x: Cmd, loop: bool, fn: bool)
    decreases x
  {
    match x
    case Empty => true
    case Simple(assigns, words) => AssignsScoped(assigns) && WordsScoped(words) && NameScoped(words, loop, fn)
    case Block(body) => ListScoped(body, loop, fn)
    case Subshell(body) => ListScoped(body, loop, fn)
    case Pipe(left, right, _) => StmtScoped(left, loop, fn) && StmtScoped(right, loop, fn)
    case AndOr(_, first, second) => StmtScoped(first, loop, fn) && StmtScoped(second, loop, fn)
    case If(cond, thn, els) =>
      ListScoped(cond, loop, fn) && ListScoped(thn, loop, fn) && (els.Some? ==> CmdScoped(els.value, loop, fn))
    case For(_, _, items, body) => WordsScoped(items) && ListScoped(body, true, fn)
    case While(cond, body, _) => ListScoped(cond, loop, fn) && ListScoped(body, true, fn)
    case Func(_, fbody) => StmtScoped(fbody, false, true)
    case Export(xs) => ExportsScoped(xs)
  }

  /** The functions a shell has stored. */
  predicate FuncsScoped(sh: Sh) { forall f :: f in sh.funcs ==> StmtScoped(sh.funcs[f], false, true) }

  /** The scripts that nested shells were given in the course of a run. */
  function Scripts(t: Trace): seq<string> {
    if t == [] then []
    else
      var e := t[|t| - 1];
      Scripts(t[..|t| - 1]) + (if e.Entered? then [e.src] else [])
  }

  predicate ScriptScoped(o: Oracle, src: string) {
    o.parse(src).Program? ==> ListScoped(o.parse(src).body, false, false)
  }

  /** Some nested shell was given a script that is not well scoped. */
  predicate Ill(o: Oracle, scripts: seq<string>) { exists src :: src in scripts && !ScriptScoped(o, src) }

  lemma ScriptsLog(c: Conf, e: Event)
    ensures Scripts(Log(c, e).w.trace) == Scripts(c.w.trace) + (if e.Entered? then [e.src] else [])
  {
    var t := c.w.trace + [e];
    assert t[..|t| - 1] == c.w.trace;
  }

  // ---------------------------------------------------------------------
  // What may escape
  // ---------------------------------------------------------------------

  predicate May(e: Option<Error>, loop: bool, fn: bool) {
    e.Some? && e.value.Flow? ==>
      (e.value.kind == Break || e.value.kind == Continue ==> loop) && (e.value.kind == Return ==> fn)
  }

  predicate Contained<T>(r: Out<T>, loop: bool, fn: bool) { May(r.err, loop, fn) && FuncsScoped(r.c.sh) }

  /** Where an evaluation starts: what it evaluates and the stored functions are
      well scoped, unless a script given earlier is not. */
  predicate Scoped(o: Oracle, c: Conf, ok: bool) { Ill(o, Scripts(c.w.trace)) || (FuncsScoped(c.sh) && ok) }

  /** Where it ends: nothing escapes that may not, unless some script given by
      then is not well scoped. */
  predicate Contains<T>(o: Oracle, c: Conf, r: Out<T>, loop: bool, fn: bool) {
    && (Ill(o, Scripts(c.w.trace)) ==> Ill(o, Scripts(r.c.w.trace)))
    && (Ill(o, Scripts(r.c.w.trace)) || Contained(r, loop, fn))
  }

  // ---------------------------------------------------------------------
  // Functions that start no statements
  // ---------------------------------------------------------------------

  predicate NoFlow<T>(c: Conf, r: Out<T>) {
    && r.c.sh.funcs == c.sh.funcs && (r.err.Some? ==> r.err.value.Fail?)
    && Scripts(r.c.w.trace) == Scripts(c.w.trace)
  }

  lemma StepNoFlow(o: Oracle, c: Conf)
    ensures NoFlow(c, Step(o, c)) && Step(o, c).c.sh == c.sh
  {
    ScriptsLog(c, Polled);
    if c.w.left > 0 { ScriptsLog(c.(w := c.w.(left := c.w.left - 1)), Event.Started(c.sh.depth)); }
  }

  lemma SayNoFlow(o: Oracle, c: Conf, to: Sink, text: string, code: int)
    ensures NoFlow(c, Say(o, c, to, text, code)) && NoFlow(c, Print(o, c, to, text))
    ensures Say(o, c, to, text, code).c.sh == c.sh && Say(o, c, to, text, code).err.None?
  {
    ScriptsLog(c, Printed(to, text));
  }

  lemma {:induction false} FindNoFlow(o: Oracle, c: Conf, dirs: seq<string>, name: string)
    ensures FindIn(o, c, dirs, name).c.sh == c.sh && Scripts(FindIn(o, c, dirs, name).c.w.trace) == Scripts(c.w.trace)
    decreases |dirs|
  {
    hide InBin, Resolving.Resolve, Scripts;
    if dirs != [] {
      var p := Resolving.Resolve(c.sh.cwd, Paths.PathJoin(dirs[0], name));
      ScriptsLog(c, Looked(p));
      FindNoFlow(o, c, dirs[1..], name);
      FindNoFlow(o, Log(c, Looked(p)), dirs[1..], name);
    }
  }

  lemma ExecuteNoFlow(o: Oracle, c: Conf, argv: seq<string>, io: IO)
    ensures NoFlow(c, Execute(o, c, argv, io))
  {
    ScriptsLog(c, Executed(c.sh.cwd, argv, Exported(c.sh.vars)["PWD" := c.sh.cwd], io));
  }

  lemma ExternalNoFlow(o: Oracle, c: Conf, args: seq<string>, io: IO)
    requires args != []
    ensures NoFlow(c, External(o, c, args, io))
  {
    hide InBin, Resolving.Resolve, FindIn, SplitOn, Execute, Say, Scripts;
    var name := args[0];
    if '/' in name {
      var p := Resolving.Resolve(c.sh.cwd, name);
      ExecuteNoFlow(o, c, [Paths.Base(p)] + args[1..], io);
      SayNoFlow(o, c, io.err, p + ": command not found", 127);
    } else {
      var f := FindIn(o, c, SplitOn(Get(c.sh.vars, "PATH").text, ':'), name);
      FindNoFlow(o, c, SplitOn(Get(c.sh.vars, "PATH").text, ':'), name);
      ExecuteNoFlow(o, f.c, args, io);
      SayNoFlow(o, f.c, io.err, name + ": command not found", 127);
    }
  }

  lemma {:induction false} BatchesNoFlow(o: Oracle, c: Conf, io: IO, trace: bool, cmd: seq<string>, replace: string,
                                          per: nat, items: seq<string>, status: int)
    requires cmd != []
    ensures NoFlow(c, Xargs.RunBatches(o, c, io, trace, cmd, replace, per, items, status))
    decreases |items|
  {
    hide External, Xargs.Argv, Xargs.Next, Step, Say, Scripts;
    var s := Step(o, c);
    StepNoFlow(o, c);
    if s.err.None? {
      var batch := Xargs.Next(per, items);
      var rest := items[|batch|..];
      var argv := Xargs.Argv(cmd, replace, batch);
      SayNoFlow(o, s.c, io.err, Spaced(argv), 0);
      var c1 := if trace then Say(o, s.c, io.err, Spaced(argv), 0).c else s.c;
      var e := External(o, c1, argv, IO(Given(""), io.out, io.err, false));
      ExternalNoFlow(o, c1, argv, IO(Given(""), io.out, io.err, false));
      var c2 := e.c;
      SayNoFlow(o, c2, io.err, "xargs: " + argv[0] + ": exited with status 255; aborting", 124);
      if rest != [] { BatchesNoFlow(o, c2, io, trace, cmd, replace, per, rest, if e.value != 0 then 123 else status); }
    }
  }

  lemma XargsNoFlow(o: Oracle, c: Conf, args: seq<string>, io: IO)
    ensures NoFlow(c, Xargs.Run(o, c, args, io))
  {
    hide Xargs.ParseOptions, Xargs.RunBatches, Xargs.ItemsOf, Say, Scripts;
    var choice := Xargs.ParseOptions(o, args, Xargs.PLAIN);
    if choice.Rejected? {
      SayNoFlow(o, c, io.err, "xargs: " + choice.message, 1);
    } else {
      var opts := choice.options;
      var c1 := Log(c, Consumed(io.input));
      ScriptsLog(c, Consumed(io.input));
      var r := Xargs.ItemsOf(opts, o.read(c.w.trace, io.input).0);
      if r.Items? {
        BatchesNoFlow(o, c1, io, opts.trace, Xargs.Command(opts), opts.replace, opts.per, r.items, 0);
      } else {
        SayNoFlow(o, c1, io.err, "xargs: " + Xargs.FaultText(r.fault), 1);
      }
    }
  }

  lemma BuiltinFlow(o: Oracle, c: Conf, args: seq<string>, io: IO, loop: bool, fn: bool)
    requires args != [] && Scoped(o, c, Permitted(args[0], loop, fn))
    ensures Contains(o, c, Builtin(o, c, args, io), loop, fn)
  {
    hide External, ChangeDir, PrintDir, Xargs.Run, StmtScoped, Scripts;
    ExternalNoFlow(o, c, args, io);
    XargsNoFlow(o, c, args[1..], io);
    DirNoFlow(o, c, args, io);
  }

  lemma DirNoFlow(o: Oracle, c: Conf, args: seq<string>, io: IO)
    requires args != []
    ensures NoFlow(c, ChangeDir(o, c, args, io)) && NoFlow(c, PrintDir(o, c, args, io))
  {
    hide Paths.Clean, Resolving.Resolve, Scripts;
    var to := if |args| == 2 then args[1] else Get(c.sh.vars, "HOME").text;
    var dest := Resolving.Resolve(c.sh.cwd, if to == "-" then Get(c.sh.vars, "OLDPWD").text else to);
    ScriptsLog(c, Looked(dest));
    SayNoFlow(o, c, io.err, "cd: too many arguments", 1);
    SayNoFlow(o, Log(c, Looked(dest)), io.err, "cd: cannot enter " + dest, 1);
    SayNoFlow(o, c, io.out, c.sh.cwd, 0);
  }

  lemma {:induction false} AdmitFlow(o: Oracle, c: Conf, fields: seq<string>, acc: seq<string>)
    ensures NoFlow(c, Admit(o, c, fields, acc))
    ensures Admit(o, c, fields, acc).err.None? ==> Admit(o, c, fields, acc).value == acc + fields
    decreases |fields|
  {
    hide Scripts, Size;
    if fields == [] {
      assert acc + fields == acc;
    } else {
      ScriptsLog(c, Polled);
      AdmitFlow(o, Poll(o, c).c, fields[1..], acc + [fields[0]]);
      assert acc + [fields[0]] + fields[1..] == acc + fields;
    }
  }

  lemma {:induction false} CloseFlow(o: Oracle, c: Conf, closers: seq<nat>, err: Option<Error>, code: int, loop: bool,
                                     fn: bool)
    requires Scoped(o, c, May(err, loop, fn))
    ensures Contains(o, c, CloseAll(o, c, closers, err, code), loop, fn)
    decreases |closers|
  {
    hide StmtScoped, Scripts;
    if closers != [] {
      var h, rest := closers[|closers| - 1], closers[..|closers| - 1];
      var c1 := Log(c, Event.Closed(h));
      ScriptsLog(c, Event.Closed(h));
      CloseFlow(o, c1, rest, Some(Fail(Other)), 1, loop, fn);
      CloseFlow(o, c1, rest, err, code, loop, fn);
    }
  }

  // ---------------------------------------------------------------------
  // Expansion
  // ---------------------------------------------------------------------

  lemma {:induction false} SubstituteFlow(o: Oracle, c: Conf, body: seq<Stmt>, io: IO)
    requires Scoped(o, c, ListScoped(body, false, false))
    ensures Contains(o, c, Substitute(o, c, body, io), false, false)
    decreases c.w.left, 2
  {
    hide List, ListScoped, StmtScoped, Ill, Scripts;
    if c.sh.depth < MAX_DEPTH {
      ListFlow(o, c.(sh := c.sh.(depth := c.sh.depth + 1)), body,
               IO(io.input, Captured(|c.w.trace|), io.err, io.inSet), 0, false, false);
    }
  }

  lemma {:induction false} PartFlow(o: Oracle, c: Conf, p: Part, io: IO)
    requires Scoped(o, c, PartScoped(p))
    ensures Contains(o, c, ExpandPart(o, c, p, io), false, false)
    decreases c.w.left, 3, p
  {
    hide Expand, Substitute, StmtScoped, Ill, Scripts, ListScoped, WordScoped;
    match p
    case Lit(_) =>
    case Var(_) =>
    case Default(name, word) => ExpandFlow(o, c, word, io);
    case Subst(body) => SubstituteFlow(o, c, body, io);
  }

  lemma {:induction false} ExpandFlow(o: Oracle, c: Conf, word: seq<Part>, io: IO)
    requires Scoped(o, c, WordScoped(word))
    ensures Contains(o, c, Expand(o, c, word, io), false, false)
    decreases c.w.left, 3, word
  {
    hide ExpandPart, PartScoped, StmtScoped, Ill, Scripts;
    if word != [] {
      PartFlow(o, c, word[0], io);
      var p := ExpandPart(o, c, word[0], io);
      if p.err.None? { ExpandFlow(o, p.c, word[1..], io); }
    }
  }

  /** Expansion to fields keeps what is there; a written-out first word is the first field. */
  lemma {:induction false} FieldsFlow(o: Oracle, c: Conf, words: seq<Word>, io: IO, acc: seq<string>)
    requires Scoped(o, c, WordsScoped(words))
    ensures var r := Fields(o, c, words, io, acc);
            && Contains(o, c, r, false, false)
            && (r.err.None? ==> acc <= r.value)
            && (words == [] ==> r.value == acc)
            && (r.err.None? && words != [] && IsLiteral(words[0].parts) && words[0].parts != [] ==>
                  |r.value| > |acc| && r.value[|acc|] == LiteralText(words[0].parts))
    decreases c.w.left, 4, |words|
  {
    hide Expand, Admit, WordScoped, StmtScoped, Ill, Scripts, LiteralText, IsLiteral;
    if words != [] {
      ExpandFlow(o, c, words[0].parts, io);
      var e := Expand(o, c, words[0].parts, io);
      if e.err.None? {
        var fs := FieldsOf(o, e.c, words[0].parts, e.value);
        AdmitFlow(o, e.c, fs, acc);
        var a := Admit(o, e.c, fs, acc);
        if a.err.None? { FieldsFlow(o, a.c, words[1..], io, a.value); }
      }
    }
  }

  lemma {:induction false} AssignmentFlow(o: Oracle, c: Conf, a: Assign, export_: bool, io: IO)
    requires Scoped(o, c, WordScoped(a.value))
    ensures Contains(o, c, Assignment(o, c, a, export_, io), false, false)
    decreases c.w.left, 4, 0
  {
    hide Expand, WordScoped, StmtScoped, Ill, Scripts;
    ExpandFlow(o, c, a.value, io);
  }

  lemma {:induction false} AssignmentsFlow(o: Oracle, c: Conf, xs: seq<Assign>, export_: bool, io: IO)
    requires Scoped(o, c, AssignsScoped(xs))
    ensures Contains(o, c, Assignments(o, c, xs, export_, io), false, false)
    decreases c.w.left, 5, |xs|
  {
    hide Assignment, WordScoped, StmtScoped, Ill, Scripts;
    if xs != [] {
      AssignmentFlow(o, c, xs[0], export_, io);
      AssignmentsFlow(o, Assignment(o, c, xs[0], export_, io).c, xs[1..], export_, io);
    }
  }

  lemma {:induction false} ExportsFlow(o: Oracle, c: Conf, xs: seq<Exportable>, io: IO)
    requires Scoped(o, c, ExportsScoped(xs))
    ensures Contains(o, c, Exports(o, c, xs, io), false, false)
    decreases c.w.left, 5, |xs|
  {
    hide Assignment, WordScoped, StmtScoped, Ill, Scripts;
    if xs != [] && xs[0].Named? {
      var a := xs[0].assign;
      if a.naked {
        ExportsFlow(o, c.(sh := c.sh.(vars := c.sh.vars[a.name := Get(c.sh.vars, a.name).(exported := true)])),
            xs[1..], io);
      } else {
        AssignmentFlow(o, c, a, true, io);
        ExportsFlow(o, Assignment(o, c, a, true, io).c, xs[1..], io);
      }
    }
  }

  lemma {:induction false} PrefixesFlow(o: Oracle, c: Conf, xs: seq<Assign>, before: Saved, io: IO)
    requires Scoped(o, c, AssignsScoped(xs))
    ensures Contains(o, c, Prefixes(o, c, xs, before, io), false, false)
    decreases c.w.left, 5, |xs|
  {
    hide Assignment, WordScoped, StmtScoped, Ill, Scripts;
    if xs != [] {
      var k := xs[0].name;
      var before' := if k in before then before else before[k := Get(c.sh.vars, k)];
      AssignmentFlow(o, c, xs[0], true, io);
      PrefixesFlow(o, Assignment(o, c, xs[0], true, io).c, xs[1..], before', io);
    }
  }

  lemma TargetNoFlow(o: Oracle, c: Conf, rd: Redir, path: string, io: IO)
    ensures NoFlow(c, OpenTarget(o, c, rd, path, io)) && OpenTarget(o, c, rd, path, io).c.sh == c.sh
  {
    ScriptsLog(c, Opened(path, rd.op, !o.open(c.w.trace, path, rd.op).Refused?));
    hide Scripts;
  }

  lemma {:induction false} RedirectOneFlow(o: Oracle, c: Conf, rd: Redir, io: IO)
    requires Scoped(o, c, WordScoped(rd.word))
    ensures Contains(o, c, RedirectOne(o, c, rd, io), false, false)
    decreases c.w.left, 5, 0
  {
    hide Expand, Fields, OpenTarget, StmtScoped, Ill, Scripts, Resolving.Resolve;
    if rd.op == HereDoc || rd.op == HereString {
      ExpandFlow(o, c, rd.word, io);
    } else {
      assert WordScoped(rd.word) ==> WordsScoped([Word(rd.word)]) by { assert [Word(rd.word)][1..] == []; }
      FieldsFlow(o, c, [Word(rd.word)], io, []);
      var f := Fields(o, c, [Word(rd.word)], io, []);
      if f.err.None? && |f.value| == 1 {
        TargetNoFlow(o, f.c, rd, Resolving.Resolve(f.c.sh.cwd, f.value[0]), io);
      }
    }
  }

  lemma {:induction false} RedirectFlow(o: Oracle, c: Conf, rs: seq<Redir>, io: IO, closers: seq<nat>)
    requires Scoped(o, c, RedirsScoped(rs))
    ensures Contains(o, c, Redirect(o, c, rs, io, closers), false, false)
    decreases c.w.left, 6, |rs|
  {
    hide RedirectOne, WordScoped, StmtScoped, Ill, Scripts;
    if rs != [] {
      RedirectOneFlow(o, c, rs[0], io);
      var r := RedirectOne(o, c, rs[0], io);
      if r.err.None? { RedirectFlow(o, r.c, rs[1..], r.value.io, closers + r.value.closers); }
    }
  }

  // ---------------------------------------------------------------------
  // Statements and commands
  // ---------------------------------------------------------------------

  lemma {:induction false} ListFlow(o: Oracle, c: Conf, xs: seq<Stmt>, io: IO, code: int, loop: bool, fn: bool)
    requires Scoped(o, c, ListScoped(xs, loop, fn))
    ensures Contains(o, c, List(o, c, xs, io, code), loop, fn)
    decreases c.w.left, 1, |xs|
  {
    hide Statement, StmtScoped, Ill, Scripts;
    if xs != [] {
      StatementFlow(o, c, xs[0], io, false, loop, fn);
      var s := Statement(o, c, xs[0], io, false);
      var c1 := s.c.(sh := s.c.sh.(status := s.value));
      if s.err.None? { ListFlow(o, c1, xs[1..], io, s.value, loop, fn); }
    }
  }

  lemma {:induction false} StatementFlow(o: Oracle, c: Conf, x: Stmt, io: IO, all: bool, loop: bool, fn: bool)
    requires Scoped(o, c, StmtScoped(x, loop, fn))
    ensures Contains(o, c, Statement(o, c, x, io, all), loop, fn)
    decreases c.w.left, 0
  {
    hide Perform, StmtScoped, Ill, Scripts, Step;
    StepNoFlow(o, c);
    var s := Step(o, c);
    if s.err.None? { PerformFlow(o, s.c, x, io, all, loop, fn); }
  }

  lemma {:induction false} PerformFlow(o: Oracle, c: Conf, x: Stmt, io: IO, all: bool, loop: bool, fn: bool)
    requires Scoped(o, c, StmtScoped(x, loop, fn))
    ensures Contains(o, c, Perform(o, c, x, io, all), loop, fn)
    decreases c.w.left, 9
  {
    hide Fields, Redirect, CommandLine, CloseAll, RedirsScoped, AssignsScoped, WordsScoped, Ill, Scripts, LiteralText;
    hide IsLiteral, FuncsScoped;
    var c1 := c.(sh := c.sh.(subStatus := 0));
    SameFuncs(c.sh, c1.sh);
    if x.cmd.Simple? { FieldsFlow(o, c1, x.cmd.words, io, []); }
    var f := if x.cmd.Simple? then Fields(o, c1, x.cmd.words, io, []) else Out(c1, None, []);
    if f.err.None? {
      RedirectFlow(o, f.c, x.redirs, io, []);
      var r := Redirect(o, f.c, x.redirs, io, []);
      if r.err.Some? {
        var d := Complain(o, r.c, r.err.value, io);
        ComplainFlow(o, r.c, r.err.value, io);
        SameFuncs(r.c.sh, d.c.sh);
        CloseFlow(o, d.c, r.value.closers, d.err, d.value, loop, fn);
      } else {
        CommandLineFlow(o, r.c, x, f.value, r.value.io, all, loop, fn);
        var d := CommandLine(o, r.c, x, f.value, r.value.io, all);
        CloseFlow(o, d.c, r.value.closers, d.err, d.value, loop, fn);
      }
    }
  }

  lemma ComplainFlow(o: Oracle, c: Conf, e: Error, io: IO)
    ensures var d := Complain(o, c, e, io);
            && d.c.sh == c.sh && Scripts(d.c.w.trace) == Scripts(c.w.trace) && (d.err.Some? ==> d.err.value == e)
  {
    hide Scripts, Say;
    ScriptsLog(c, Polled);
    SayNoFlow(o, Poll(o, c).c, io.err, "shale: redirection failed", 1);
  }

  lemma SameFuncs(sh: Sh, sh': Sh)
    requires sh'.funcs == sh.funcs
    ensures FuncsScoped(sh) <==> FuncsScoped(sh')
  {
  }

  lemma {:induction false} CommandLineFlow(o: Oracle, c: Conf, x: Stmt, args: seq<string>, io: IO, all: bool,
                                           loop: bool, fn: bool)
    requires Scoped(o, c, StmtScoped(x, loop, fn) && (x.cmd.Simple? && args != [] ==> Permitted(args[0], loop, fn)))
    ensures Contains(o, c, CommandLine(o, c, x, args, io, all), loop, fn)
    decreases c.w.left, 8
  {
    hide Call, Command, RedirsScoped, Ill, Scripts, FuncsScoped, WordsScoped, AssignsScoped, NameScoped;
    var io' := if all then io.(err := io.out) else io;
    if x.cmd.Simple? {
      CallFlow(o, c, x.cmd.assigns, args, io', loop, fn);
    } else {
      CommandFlow(o, c, x.cmd, io', loop, fn);
    }
    var k := if x.cmd.Simple? then Call(o, c, x.cmd.assigns, args, io') else Command(o, c, x.cmd, io');
    SameFuncs(k.c.sh, CommandLine(o, c, x, args, io, all).c.sh);
  }

  lemma {:induction false} CommandFlow(o: Oracle, c: Conf, x: Cmd, io: IO, loop: bool, fn: bool)
    requires Scoped(o, c, CmdScoped(x, loop, fn))
    ensures Contains(o, c, Command(o, c, x, io), loop, fn)
    decreases c.w.left, 7, x
  {
    hide List, Statement, Pipeline, ForLoop, WhileLoop, Fields, Exports, Ill, Scripts, StmtScoped, ListScoped;
    hide WordsScoped, ExportsScoped;
    match x
    case Empty =>
    case Simple(_, _) =>
    case Block(body) => ListFlow(o, c, body, io, 0, loop, fn);
    case Subshell(body) => ListFlow(o, c, body, io, 0, loop, fn);
    case Pipe(left, right, all) => PipelineFlow(o, c, left, right, all, io, loop, fn);
    case AndOr(isAnd, first, second) =>
      StatementFlow(o, c, first, io, false, loop, fn);
      StatementFlow(o, Statement(o, c, first, io, false).c, second, io, false, loop, fn);
    case If(cond, thn, els) =>
      ListFlow(o, c, cond, io, 0, loop, fn);
      var r := List(o, c, cond, io, 0);
      if r.err.None? {
        if r.value == 0 {
          ListFlow(o, r.c, thn, io, 0, loop, fn);
        } else if els.Some? {
          CommandFlow(o, r.c, els.value, io, loop, fn);
        }
      }
    case For(name, overArgs, items, body) =>
      if !overArgs { FieldsFlow(o, c, items, io, []); }
      var f := if overArgs then Out(c, None, c.sh.args) else Fields(o, c, items, io, []);
      if f.err.None? { ForLoopFlow(o, f.c, name, f.value, body, io, 0, fn); }
    case While(cond, body, until) => WhileLoopFlow(o, c, cond, body, until, io, 0, loop, fn);
    case Func(_, _) =>
    case Export(xs) => ExportsFlow(o, c, xs, io);
  }

  lemma {:induction false} ForLoopFlow(o: Oracle, c: Conf, name: string, items: seq<string>, body: seq<Stmt>, io: IO,
                                       code: int, fn: bool)
    requires Scoped(o, c, ListScoped(body, true, fn))
    ensures Contains(o, c, ForLoop(o, c, name, items, body, io, code), false, fn)
    decreases c.w.left, 2, |items|
  {
    hide List, Ill, Scripts, StmtScoped, ListScoped, Step;
    if items != [] {
      StepNoFlow(o, c);
      var s := Step(o, c);
      var v := Set(s.c, name, Variable(items[0], true, false));
      if s.err.None? && v.err.None? {
        ListFlow(o, v.c, body, io, 0, true, fn);
        var r := List(o, v.c, body, io, 0);
        ForLoopFlow(o, r.c, name, items[1..], body, io, r.value, fn);
      }
    }
  }

  lemma {:induction false} WhileLoopFlow(o: Oracle, c: Conf, cond: seq<Stmt>, body: seq<Stmt>, until: bool, io: IO,
                                         code: int, loop: bool, fn: bool)
    requires Scoped(o, c, ListScoped(cond, loop, fn) && ListScoped(body, true, fn))
    ensures Contains(o, c, WhileLoop(o, c, cond, body, until, io, code), loop, fn)
    decreases c.w.left, 2
  {
    hide List, Ill, Scripts, StmtScoped, ListScoped, Step;
    StepNoFlow(o, c);
    var s := Step(o, c);
    if s.err.None? {
      ListFlow(o, s.c, cond, io, 0, loop, fn);
      var t := List(o, s.c, cond, io, 0);
      ListFlow(o, t.c, body, io, 0, true, fn);
      var r := List(o, t.c, body, io, 0);
      WhileLoopFlow(o, r.c, cond, body, until, io, r.value, loop, fn);
    }
  }

  lemma {:induction false} PipelineFlow(o: Oracle, c: Conf, left: Stmt, right: Stmt, all: bool, io: IO, loop: bool,
                                        fn: bool)
    requires Scoped(o, c, StmtScoped(left, loop, fn) && StmtScoped(right, loop, fn))
    ensures Contains(o, c, Pipeline(o, c, left, right, all, io), loop, fn)
    decreases c.w.left, 2
  {
    hide Statement, Ill, Scripts, StmtScoped, PipelineEnd;
    var mine := if o.share(c.w.trace) <= c.w.left then o.share(c.w.trace) else c.w.left;
    var cl := c.(w := c.w.(left := mine));
    StatementFlow(o, cl, left, io.(out := ToPipe(|c.w.trace|)), all, loop, fn);
    var l := Statement(o, cl, left, io.(out := ToPipe(|c.w.trace|)), all);
    var cr := Conf(c.sh, World(l.c.w.trace, c.w.left - mine, c.w.overdrawn));
    StatementFlow(o, cr, right, io.(input := FromPipe(|c.w.trace|), inSet := true), false, loop, fn);
    var r := Statement(o, cr, right, io.(input := FromPipe(|c.w.trace|), inSet := true), false);
    EndFlow(o, Rejoin(c, l.c.w, r.c.w), l, r, loop, fn);
  }

  lemma EndFlow(o: Oracle, c: Conf, l: Out<int>, r: Out<int>, loop: bool, fn: bool)
    ensures var p := PipelineEnd(o, c, l, r);
            && p.c.sh == c.sh && Scripts(p.c.w.trace) == Scripts(c.w.trace)
            && (May(l.err, loop, fn) && May(r.err, loop, fn) ==> May(p.err, loop, fn))
  {
    ScriptsLog(c, Polled);
    hide Scripts;
  }

  lemma {:induction false} CallFlow(o: Oracle, c: Conf, assigns: seq<Assign>, args: seq<string>, io: IO, loop: bool,
                                    fn: bool)
    requires Scoped(o, c, AssignsScoped(assigns) && (args != [] ==> Permitted(args[0], loop, fn)))
    ensures Contains(o, c, Call(o, c, assigns, args, io), loop, fn)
    decreases c.w.left, 7, 0
  {
    hide Assignments, Prefixes, Invoke, Ill, Scripts, StmtScoped, AssignsScoped, Restore;
    if args == [] {
      AssignmentsFlow(o, c, assigns, false, io);
    } else {
      PrefixesFlow(o, c, assigns, map[], io);
      var p := Prefixes(o, c, assigns, map[], io);
      if p.err.None? { InvokeFlow(o, p.c, args, io, loop, fn); }
    }
  }

  lemma {:induction false} InvokeFlow(o: Oracle, c: Conf, args: seq<string>, io: IO, loop: bool, fn: bool)
    requires args != [] && Scoped(o, c, Permitted(args[0], loop, fn))
    ensures Contains(o, c, Invoke(o, c, args, io), loop, fn)
    decreases c.w.left, 6
  {
    hide CallFunction, Nested, Builtin, Ill, Scripts, StmtScoped, FuncsScoped;
    if args[0] in c.sh.funcs {
      CallFunctionFlow(o, c, args, io);
    } else {
      NestedFlow(o, c, args, io);
      BuiltinFlow(o, c, args, io, loop, fn);
    }
  }

  lemma {:induction false} CallFunctionFlow(o: Oracle, c: Conf, args: seq<string>, io: IO)
    requires args != [] && args[0] in c.sh.funcs && Scoped(o, c, true)
    ensures Contains(o, c, CallFunction(o, c, args, io), false, false)
    decreases c.w.left, 1
  {
    hide Statement, Ill, Scripts, StmtScoped;
    if c.sh.depth < MAX_DEPTH {
      var c1 := c.(sh := c.sh.(args := args[1..], depth := c.sh.depth + 1));
      StatementFlow(o, c1, c.sh.funcs[args[0]], io, false, false, true);
    }
  }

  lemma {:induction false} NestedFlow(o: Oracle, c: Conf, args: seq<string>, io: IO)
    requires args != [] && Scoped(o, c, true)
    ensures Contains(o, c, Nested(o, c, args, io), false, false)
    decreases c.w.left, 2
  {
    hide List, StmtScoped, ListScoped, Say, Scripts;
    SayNoFlow(o, c, io.err, "shale: nested shells support -c SCRIPT", 2);
    if c.sh.depth < MAX_DEPTH && |args| >= 3 {
      var p := o.parse(args[2]);
      if p.Program? {
        var child := c.(sh := NestedShell(c, args));
        EnterScript(o, child, args[2]);
        ListFlow(o, Log(child, Entered(args[2])), p.body, io, 0, false, false);
      }
    }
  }

  /** Once its script is entered, a nested shell starts well scoped or the script
      is known not to be. */
  lemma EnterScript(o: Oracle, c: Conf, src: string)
    requires o.parse(src).Program? && c.sh.funcs == map[]
    ensures Scoped(o, Log(c, Entered(src)), ListScoped(o.parse(src).body, false, false))
    ensures Ill(o, Scripts(c.w.trace)) ==> Ill(o, Scripts(Log(c, Entered(src)).w.trace))
  {
    hide Scripts, ListScoped, StmtScoped;
    ScriptsLog(c, Entered(src));
    assert src in Scripts(c.w.trace) + [src];
  }

  // ---------------------------------------------------------------------
  // Whole runs
  // ---------------------------------------------------------------------

  /** A run never ends with a control-flow signal, whatever else the parser
      accepts, when the script it is given, the functions stored before it and
      every script that the run gives to a nested shell are well scoped. */
  lemma NoStrayFlow(o: Oracle, sh: Sh, src: string, io: IO, maxSteps: nat)
    requires FuncsScoped(sh) && ScriptScoped(o, src)
    requires forall s :: s in Scripts(Run(o, sh, src, io, maxSteps).w.trace) ==> ScriptScoped(o, s)
    ensures var r := Run(o, sh, src, io, maxSteps);
            (r.err.Some? ==> r.err.value.Fail?) && FuncsScoped(r.sh)
  {
    hide List, ListScoped, StmtScoped;
    var p := o.parse(src);
    if p.Program? { ListFlow(o, Conf(sh, World([], maxSteps, false)), p.body, io, 0, false, false); }
  }

  const BREAK := Stmt(Simple([], [Word([Lit("break")])]), [], false)

  lemma BreakWord(o: Oracle, c: Conf, io: IO)
    requires !o.cancelled(c.w.trace)
    ensures Fields(o, c, [Word([Lit("break")])], io, []) == Out(Poll(o, c).c, None, ["break"])
  {
    var w := [Lit("break")];
    assert LiteralText(w) == "break" by { assert w[1..] == [] && w[0].text + "" == "break"; }
    assert Expand(o, c, w, io) == Out(c, None, [["break"]]) by {
      assert Expand(o, c, w[1..], io) == Out(c, None, []);
      assert [["break"]] + [] == [["break"]];
    }
    var d := Poll(o, c).c;
    assert Admit(o, c, ["break"], []) == Out(d, None, ["break"]) by {
      assert ["break"][1..] == [] && [] + ["break"] == ["break"];
      assert Size([]) == 0;
      assert Admit(o, d, [], ["break"]) == Out(d, None, ["break"]);
    }
    assert Fields(o, d, [Word(w)][1..], io, ["break"]) == Out(d, None, ["break"]);
  }

  lemma BreakStatement(o: Oracle, c: Conf, io: IO)
    requires "break" !in c.sh.funcs && c.w.left > 0
    requires forall t :: !o.cancelled(t)
    ensures Statement(o, c, BREAK, io, false).err == Some(Flow(Break, 0))
  {
    hide Fields, Restore;
    var c1 := Step(o, c).c;
    var c2 := c1.(sh := c1.sh.(subStatus := 0));
    BreakWord(o, c2, io);
    var d := Poll(o, c2).c;
    assert Prefixes(o, d, [], map[], io) == Out(d, None, Prefixed(map[], 0));
    assert Invoke(o, d, ["break"], io) == Out(d, Some(Flow(Break, 0)), 0);
    assert Call(o, d, [], ["break"], io).err == Some(Flow(Break, 0));
    assert Perform(o, c1, BREAK, io, false).err == Some(Flow(Break, 0));
  }

  /** Scoping is needed: a break in a subshell outside every loop passes through
      the subshell and ends the run as an error. */
  lemma StrayBreak(o: Oracle, sh: Sh, src: string, io: IO)
    requires o.parse(src) == Program([Stmt(Subshell([BREAK]), [], false)])
    requires "break" !in sh.funcs && forall t :: !o.cancelled(t)
    ensures Run(o, sh, src, io, 2).err == Some(Flow(Break, 0))
  {
    hide Statement;
    var outer := Stmt(Subshell([BREAK]), [], false);
    var c := Conf(sh, World([], 2, false));
    var c1 := Step(o, c).c;
    var c2 := c1.(sh := c1.sh.(subStatus := 0));
    BreakStatement(o, c2, io);
    assert List(o, c2, [BREAK], io, 0).err == Some(Flow(Break, 0));
    assert Command(o, c2, outer.cmd, io).err == Some(Flow(Break, 0));
    assert CommandLine(o, c2, outer, [], io, false).err == Some(Flow(Break, 0));
    assert Perform(o, c1, outer, io, false).err == Some(Flow(Break, 0));
    assert Statement(o, c, outer, io, false) == Perform(o, c1, outer, io, false) by { StatementIs(o, c, outer, io); }
    assert List(o, c, [outer], io, 0).err == Some(Flow(Break, 0));
  }

  lemma StatementIs(o: Oracle, c: Conf, x: Stmt, io: IO)
    requires Step(o, c).err.None?
    ensures Statement(o, c, x, io, false) == Perform(o, Step(o, c).c, x, io, false)
  {
  }
}
