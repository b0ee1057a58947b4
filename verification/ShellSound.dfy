/** What every evaluation keeps: the step budget, the depth bound, the files
    opened for redirections, the positional arguments, the depth, a clean working
    directory, and the agreement of an exit signal with the status beside it. */
module ShellSound {
  import opened Store
  import opened Paths
  import opened Resolving
  import opened ShellSyntax
  import opened ShellState
  import opened ShellEval
  import Xargs

  // ---------------------------------------------------------------------
  // Readings of the trace
  // ---------------------------------------------------------------------

  /** The steps taken. */
  function Starts(t: Trace): nat {
    if t == [] then 0 else Starts(t[..|t| - 1]) + (if t[|t| - 1].Started? then 1 else 0)
  }

  /** The open files, last opened last; None once a file was closed that was not
      the last one opened. */
  function OpenFiles(t: Trace): Option<seq<nat>> {
    if t == [] then Some([])
    else
      var e, before := t[|t| - 1], OpenFiles(t[..|t| - 1]);
      if before.None? then None
      else if e.Opened? && e.ok then Some(before.value + [|t| - 1])
      else if e.Closed? then
        if before.value != [] && before.value[|before.value| - 1] == e.h then Some(before.value[..|before.value| - 1])
        else None
      else before
  }

  /** No step was taken deeper than the limit. */
  predicate Shallow(t: Trace) { forall e :: e in t && e.Started? ==> e.depth <= MAX_DEPTH }

  lemma ReadLog(c: Conf, e: Event)
    ensures var t, t' := c.w.trace, Log(c, e).w.trace;
            && Starts(t') == Starts(t) + (if e.Started? then 1 else 0)
            && (Shallow(t) && (e.Started? ==> e.depth <= MAX_DEPTH) ==> Shallow(t'))
            && (!e.Opened? && !e.Closed? ==> OpenFiles(t') == OpenFiles(t))
            && (e.Opened? && OpenFiles(t).Some? ==>
                  OpenFiles(t') == if e.ok then Some(OpenFiles(t).value + [|t|]) else OpenFiles(t))
            && (forall base :: e.Closed? && OpenFiles(t) == Some(base + [e.h]) ==> OpenFiles(t') == Some(base))
  {
    var t' := c.w.trace + [e];
    assert t'[..|t'| - 1] == c.w.trace;
  }

  // ---------------------------------------------------------------------
  // The invariant
  // ---------------------------------------------------------------------

  predicate CleanDir(cwd: string) { Rooted(cwd) && Clean(cwd) == cwd }

  predicate Ready(c: Conf) {
    && c.sh.depth <= MAX_DEPTH
    && Shallow(c.w.trace) && OpenFiles(c.w.trace).Some?
    && (c.w.overdrawn ==> c.w.left == 0)
  }

  /** Steps taken and steps that remain: none appears, and none is lost unless
      the budget was overdrawn. */
  predicate Paid(w: World, v: World) {
    && Starts(v.trace) + v.left <= Starts(w.trace) + w.left
    && (!v.overdrawn ==> !w.overdrawn && Starts(v.trace) + v.left == Starts(w.trace) + w.left)
  }

  /** From c to d, open files aside. */
  predicate Carries(c: Conf, d: Conf) {
    && Ready(d) && d.sh.args == c.sh.args && d.sh.depth == c.sh.depth && Paid(c.w, d.w)
    && (CleanDir(c.sh.cwd) ==> CleanDir(d.sh.cwd))
  }

  predicate Keeps(c: Conf, d: Conf) {
    Carries(c, d) && OpenFiles(d.w.trace) == OpenFiles(c.w.trace)
  }

  /** An exit signal carries the status returned beside it. */
  predicate Agrees(r: Out<int>) {
    r.err.Some? && r.err.value.Flow? && r.err.value.kind == Exit ==> r.value == r.err.value.code
  }

  predicate NoExit(e: Option<Error>) {
    e.Some? && e.value.Flow? ==> e.value.kind != Exit
  }

  predicate Sound(c: Conf, r: Out<int>) { Keeps(c, r.c) && Agrees(r) }

  // ---------------------------------------------------------------------
  // Primitive operations
  // ---------------------------------------------------------------------

  lemma SoundLog(c: Conf, e: Event)
    requires Ready(c) && !e.Started? && !e.Opened? && !e.Closed?
    ensures Keeps(c, Log(c, e))
  {
    ReadLog(c, e);
  }

  lemma SoundStep(o: Oracle, c: Conf)
    requires Ready(c)
    ensures Sound(c, Step(o, c)) && NoExit(Step(o, c).err) && Step(o, c).c.sh == c.sh
  {
    SoundLog(c, Polled);
    if c.w.left > 0 { ReadLog(c.(w := c.w.(left := c.w.left - 1)), Event.Started(c.sh.depth)); }
  }

  lemma SoundPrint(o: Oracle, c: Conf, to: Sink, text: string)
    requires Ready(c)
    ensures Keeps(c, Print(o, c, to, text).c) && NoExit(Print(o, c, to, text).err)
    ensures Keeps(c, Log(c, Printed(to, text)))
  {
    SoundLog(c, Printed(to, text));
  }

  lemma SoundSay(o: Oracle, c: Conf, to: Sink, text: string, code: int)
    requires Ready(c)
    ensures Sound(c, Say(o, c, to, text, code)) && NoExit(Say(o, c, to, text, code).err)
  {
    SoundPrint(o, c, to, text);
  }

  lemma SoundSet(c: Conf, k: string, v: Variable)
    requires Ready(c)
    ensures Sound(c, Set(c, k, v)) && NoExit(Set(c, k, v).err)
  {
  }

  lemma {:induction false} SoundFind(o: Oracle, c: Conf, dirs: seq<string>, name: string)
    requires Ready(c)
    ensures Keeps(c, FindIn(o, c, dirs, name).c) && FindIn(o, c, dirs, name).c.sh == c.sh
    decreases |dirs|
  {
    hide InBin, Resolve, Ready, Carries;
    if dirs != [] {
      var p := Resolve(c.sh.cwd, PathJoin(dirs[0], name));
      SoundLook(c, p);
      if !InBin(p) {
        SoundFind(o, c, dirs[1..], name);
      } else if !o.executable(c.w.trace, p) {
        SoundFind(o, Log(c, Looked(p)), dirs[1..], name);
        KeepsThen(c, Log(c, Looked(p)), FindIn(o, c, dirs, name).c);
      }
    } else {
      KeepsSelf(c);
    }
  }

  lemma SoundLook(c: Conf, p: string)
    requires Ready(c)
    ensures Keeps(c, Log(c, Looked(p))) && Ready(Log(c, Looked(p)))
  {
    SoundLog(c, Looked(p));
  }

  lemma KeepsSelf(c: Conf)
    requires Ready(c)
    ensures Keeps(c, c)
  {
  }

  lemma KeepsThen(c: Conf, d: Conf, e: Conf)
    requires Keeps(c, d) && Keeps(d, e)
    ensures Keeps(c, e)
  {
  }

  lemma SoundExecute(o: Oracle, c: Conf, argv: seq<string>, io: IO)
    requires Ready(c)
    ensures Keeps(c, Execute(o, c, argv, io).c) && NoExit(Execute(o, c, argv, io).err)
  {
    SoundLog(c, Executed(c.sh.cwd, argv, Exported(c.sh.vars)["PWD" := c.sh.cwd], io));
  }

  lemma SoundExternal(o: Oracle, c: Conf, args: seq<string>, io: IO)
    requires Ready(c) && args != []
    ensures Sound(c, External(o, c, args, io)) && NoExit(External(o, c, args, io).err)
  {
    hide Execute, Say, Ready, Carries, Resolve, FindIn, InBin;
    var name := args[0];
    if '/' in name {
      var p := Resolve(c.sh.cwd, name);
      SoundExecute(o, c, [Base(p)] + args[1..], io);
      SoundSay(o, c, io.err, p + ": command not found", 127);
    } else {
      var f := FindIn(o, c, SplitOn(Get(c.sh.vars, "PATH").text, ':'), name);
      SoundFind(o, c, SplitOn(Get(c.sh.vars, "PATH").text, ':'), name);
      ReadyOf(c, f.c);
      SoundExecute(o, f.c, args, io);
      SoundSay(o, f.c, io.err, name + ": command not found", 127);
      KeepsThen(c, f.c, External(o, c, args, io).c);
    }
  }

  lemma ReadyOf(c: Conf, d: Conf)
    requires Keeps(c, d)
    ensures Ready(d)
  {
  }

  /** A resolved and cleaned name is absolute and clean. */
  lemma CleanTwice(cwd: string, name: string)
    ensures CleanDir(Clean(Resolve(cwd, name)))
  {
    hide Resolve, Clean, Join;
    var d := Destination(cwd, name);
    ResolveIsClimb(cwd, name);
    var r := Resolve(cwd, name);
    assert "/" <= r;
    CleanRooted(r[1..]);
    assert "/" + r[1..] == r;
    var e := Climb([], Split(r[1..]));
    CleanRooted(Text(e));
    TextLeads(e);
  }

  lemma TextLeads(cs: seq<string>)
    requires AllPlain(cs)
    ensures Climb([], Split(Text(cs))) == cs
  {
    if cs == [] {
      assert Split("") == [""];
      ClimbOne([], "");
    } else {
      SplitJoin(cs);
      ClimbKeeps([], cs);
      assert [] + cs == cs;
    }
  }

  lemma SoundChangeDir(o: Oracle, c: Conf, args: seq<string>, io: IO)
    requires Ready(c) && args != []
    ensures Sound(c, ChangeDir(o, c, args, io)) && NoExit(ChangeDir(o, c, args, io).err)
  {
    hide Clean, Resolve;
    var to := if |args| == 2 then args[1] else Get(c.sh.vars, "HOME").text;
    var name := if to == "-" then Get(c.sh.vars, "OLDPWD").text else to;
    var dest := Resolve(c.sh.cwd, name);
    if |args| > 2 {
      SoundSay(o, c, io.err, "cd: too many arguments", 1);
    } else {
      SoundLog(c, Looked(dest));
      if o.isDir(c.w.trace, dest) {
        CleanTwice(c.sh.cwd, name);
      } else {
        SoundSay(o, Log(c, Looked(dest)), io.err, "cd: cannot enter " + dest, 1);
      }
    }
  }

  lemma {:induction false} SoundBatches(o: Oracle, c: Conf, io: IO, trace: bool, cmd: seq<string>, replace: string,
                                        per: nat, items: seq<string>, status: int)
    requires Ready(c) && cmd != []
    ensures var r := Xargs.RunBatches(o, c, io, trace, cmd, replace, per, items, status);
            Sound(c, r) && NoExit(r.err)
    decreases |items|
  {
    hide External, Say, Step, Ready, Carries, Keeps, Xargs.Argv, Xargs.Next;
    var s := Step(o, c);
    SoundStep(o, c);
    ReadyOf(c, s.c);
    var batch := Xargs.Next(per, items);
    var rest := items[|batch|..];
    var argv := Xargs.Argv(cmd, replace, batch);
    SoundSay(o, s.c, io.err, Spaced(argv), 0);
    KeepsSelf(s.c);
    var c1 := if trace then Say(o, s.c, io.err, Spaced(argv), 0).c else s.c;
    KeepsThen(c, s.c, c1);
    ReadyOf(c, c1);
    var e := External(o, c1, argv, IO(Given(""), io.out, io.err, false));
    SoundExternal(o, c1, argv, IO(Given(""), io.out, io.err, false));
    KeepsThen(c, c1, e.c);
    ReadyOf(c, e.c);
    var c2 := e.c;
    KeepsThen(c, e.c, c2);
    ReadyOf(c, c2);
    var message := "xargs: " + argv[0] + ": exited with status 255; aborting";
    SoundSay(o, c2, io.err, message, 124);
    KeepsThen(c, c2, Say(o, c2, io.err, message, 124).c);
    if rest != [] {
      var status' := if e.value != 0 then 123 else status;
      SoundBatches(o, c2, io, trace, cmd, replace, per, rest, status');
      KeepsThen(c, c2, Xargs.RunBatches(o, c2, io, trace, cmd, replace, per, rest, status').c);
    }
  }

  lemma SoundXargs(o: Oracle, c: Conf, args: seq<string>, io: IO)
    requires Ready(c)
    ensures Sound(c, Xargs.Run(o, c, args, io)) && NoExit(Xargs.Run(o, c, args, io).err)
  {
    hide Xargs.ParseOptions, Xargs.RunBatches, Xargs.ItemsOf, Xargs.FaultText, Xargs.Command, Say;
    var choice := Xargs.ParseOptions(o, args, Xargs.PLAIN);
    if choice.Rejected? {
      SoundSay(o, c, io.err, "xargs: " + choice.message, 1);
    } else {
      var opts := choice.options;
      var (input, e) := o.read(c.w.trace, io.input);
      var c1 := Log(c, Consumed(io.input));
      SoundLog(c, Consumed(io.input));
      assert Ready(c1);
      hide Keeps, Ready;
      if e.None? && |input| <= MAX_SCRIPT {
        var r := Xargs.ItemsOf(opts, input);
        if r.Bad? {
          SoundSay(o, c1, io.err, "xargs: " + Xargs.FaultText(r.fault), 1);
          SoundThen(c, c1, Xargs.Run(o, c, args, io));
        } else if r.items != [] || !opts.skipEmpty {
          SoundBatches(o, c1, io, opts.trace, Xargs.Command(opts), opts.replace, opts.per, r.items, 0);
          SoundThen(c, c1, Xargs.Run(o, c, args, io));
        }
      }
    }
  }

  lemma SoundBuiltin(o: Oracle, c: Conf, args: seq<string>, io: IO)
    requires Ready(c) && args != []
    ensures Sound(c, Builtin(o, c, args, io))
  {
    hide External, ChangeDir, PrintDir, Xargs.Run;
    SoundChangeDir(o, c, args, io);
    SoundPrintDir(o, c, args, io);
    SoundXargs(o, c, args[1..], io);
    SoundExternal(o, c, args, io);
  }

  lemma SoundPrintDir(o: Oracle, c: Conf, args: seq<string>, io: IO)
    requires Ready(c) && args != []
    ensures Sound(c, PrintDir(o, c, args, io))
  {
    SoundPrint(o, c, io.out, c.sh.cwd);
  }

  lemma SoundThen(c: Conf, d: Conf, r: Out<int>)
    requires Keeps(c, d) && Sound(d, r)
    ensures Sound(c, r)
  {
  }

  // ---------------------------------------------------------------------
  // The evaluator, function by function
  // ---------------------------------------------------------------------

  lemma {:induction false} SoundSubstitute(o: Oracle, c: Conf, body: seq<Stmt>, io: IO)
    requires Ready(c)
    ensures Keeps(c, Substitute(o, c, body, io).c) && NoExit(Substitute(o, c, body, io).err)
    decreases c.w.left, 2
  {
    hide List, OpenFiles, Shallow, Starts;
    if c.sh.depth < MAX_DEPTH {
      var child := c.(sh := c.sh.(depth := c.sh.depth + 1));
      SoundList(o, child, body, IO(io.input, Captured(|c.w.trace|), io.err, io.inSet), 0);
    }
  }

  lemma {:induction false} SoundPart(o: Oracle, c: Conf, p: Part, io: IO)
    requires Ready(c)
    ensures Keeps(c, ExpandPart(o, c, p, io).c) && NoExit(ExpandPart(o, c, p, io).err)
    decreases c.w.left, 3, p
  {
    hide Expand, Substitute, OpenFiles, Shallow, Starts, Set;
    match p
    case Lit(_) =>
    case Var(_) =>
    case Default(name, word) =>
      SoundExpand(o, c, word, io);
      var r := Expand(o, c, word, io);
      SoundSet(r.c, name, Variable(Glued(r.value), true, false));
    case Subst(body) => SoundSubstitute(o, c, body, io);
  }

  lemma {:induction false} SoundExpand(o: Oracle, c: Conf, word: seq<Part>, io: IO)
    requires Ready(c)
    ensures Keeps(c, Expand(o, c, word, io).c) && NoExit(Expand(o, c, word, io).err)
    decreases c.w.left, 3, word
  {
    hide ExpandPart, OpenFiles, Shallow, Starts;
    if word != [] {
      SoundPart(o, c, word[0], io);
      var p := ExpandPart(o, c, word[0], io);
      if p.err.None? { SoundExpand(o, p.c, word[1..], io); }
    }
  }

  lemma {:induction false} SoundAdmit(o: Oracle, c: Conf, fields: seq<string>, acc: seq<string>)
    requires Ready(c)
    ensures Keeps(c, Admit(o, c, fields, acc).c) && NoExit(Admit(o, c, fields, acc).err)
    decreases |fields|
  {
    hide OpenFiles, Shallow, Starts;
    if fields != [] {
      SoundLog(c, Polled);
      SoundAdmit(o, Poll(o, c).c, fields[1..], acc + [fields[0]]);
    }
  }

  lemma {:induction false} SoundFields(o: Oracle, c: Conf, words: seq<Word>, io: IO, acc: seq<string>)
    requires Ready(c)
    ensures Keeps(c, Fields(o, c, words, io, acc).c) && NoExit(Fields(o, c, words, io, acc).err)
    decreases c.w.left, 4, |words|
  {
    hide Expand, Admit, FieldsOf, OpenFiles, Shallow, Starts;
    if words != [] {
      SoundExpand(o, c, words[0].parts, io);
      var e := Expand(o, c, words[0].parts, io);
      if e.err.None? {
        var fs := FieldsOf(o, e.c, words[0].parts, e.value);
        SoundAdmit(o, e.c, fs, acc);
        var a := Admit(o, e.c, fs, acc);
        if a.err.None? { SoundFields(o, a.c, words[1..], io, a.value); }
      }
    }
  }

  lemma {:induction false} SoundAssignment(o: Oracle, c: Conf, a: Assign, export_: bool, io: IO)
    requires Ready(c)
    ensures Keeps(c, Assignment(o, c, a, export_, io).c) && NoExit(Assignment(o, c, a, export_, io).err)
    decreases c.w.left, 4, 0
  {
    hide Expand, OpenFiles, Shallow, Starts;
    SoundExpand(o, c, a.value, io);
  }

  lemma {:induction false} SoundAssignments(o: Oracle, c: Conf, xs: seq<Assign>, export_: bool, io: IO)
    requires Ready(c)
    ensures Keeps(c, Assignments(o, c, xs, export_, io).c) && NoExit(Assignments(o, c, xs, export_, io).err)
    decreases c.w.left, 5, |xs|
  {
    hide Assignment, OpenFiles, Shallow, Starts;
    if xs != [] {
      SoundAssignment(o, c, xs[0], export_, io);
      SoundAssignments(o, Assignment(o, c, xs[0], export_, io).c, xs[1..], export_, io);
    }
  }

  lemma {:induction false} SoundExports(o: Oracle, c: Conf, xs: seq<Exportable>, io: IO)
    requires Ready(c)
    ensures Keeps(c, Exports(o, c, xs, io).c) && NoExit(Exports(o, c, xs, io).err)
    decreases c.w.left, 5, |xs|
  {
    hide Assignment, OpenFiles, Shallow, Starts;
    if xs != [] && xs[0].Named? {
      var a := xs[0].assign;
      if a.naked {
        SoundExports(o, c.(sh := c.sh.(vars := c.sh.vars[a.name := Get(c.sh.vars, a.name).(exported := true)])),
            xs[1..], io);
      } else {
        SoundAssignment(o, c, a, true, io);
        SoundExports(o, Assignment(o, c, a, true, io).c, xs[1..], io);
      }
    }
  }

  // ---------------------------------------------------------------------
  // Redirections open files and leave them to be closed
  // ---------------------------------------------------------------------

  /** From c to d, files were opened, and `opened` are they. */
  predicate Opens(c: Conf, d: Conf, files: seq<nat>) {
    Carries(c, d) && OpenFiles(c.w.trace).Some? && OpenFiles(d.w.trace) == Some(OpenFiles(c.w.trace).value + files)
  }

  lemma SoundOpenTarget(o: Oracle, c: Conf, rd: Redir, path: string, io: IO)
    requires Ready(c)
    ensures var r := OpenTarget(o, c, rd, path, io); Opens(c, r.c, r.value.closers) && NoExit(r.err)
  {
    hide Shallow, Starts;
    var f := o.open(c.w.trace, path, rd.op);
    ReadLog(c, Opened(path, rd.op, !f.Refused?));
    OpensNothing(c, c);
  }

  lemma OpensNothing(c: Conf, d: Conf)
    requires Ready(c) && Keeps(c, d)
    ensures Opens(c, d, [])
  {
    assert OpenFiles(c.w.trace).value + [] == OpenFiles(c.w.trace).value;
  }

  lemma OpensThen(c: Conf, d: Conf, e: Conf, xs: seq<nat>, ys: seq<nat>)
    requires Opens(c, d, xs) && Opens(d, e, ys)
    ensures Opens(c, e, xs + ys)
  {
    assert OpenFiles(c.w.trace).value + xs + ys == OpenFiles(c.w.trace).value + (xs + ys);
  }

  lemma {:induction false} SoundRedirectOne(o: Oracle, c: Conf, rd: Redir, io: IO)
    requires Ready(c)
    ensures var r := RedirectOne(o, c, rd, io); Opens(c, r.c, r.value.closers) && NoExit(r.err)
    decreases c.w.left, 5, 0
  {
    hide Expand, Fields, OpenTarget, OpenFiles, Shallow, Starts;
    if rd.op == HereDoc || rd.op == HereString {
      SoundExpand(o, c, rd.word, io);
      OpensNothing(c, Expand(o, c, rd.word, io).c);
    } else {
      SoundFields(o, c, [Word(rd.word)], io, []);
      var f := Fields(o, c, [Word(rd.word)], io, []);
      OpensNothing(c, f.c);
      if f.err.None? && |f.value| == 1 && rd.op != DupOut {
        var path := Resolve(f.c.sh.cwd, f.value[0]);
        SoundOpenTarget(o, f.c, rd, path, io);
        var r := OpenTarget(o, f.c, rd, path, io);
        OpensThen(c, f.c, r.c, [], r.value.closers);
        assert [] + r.value.closers == r.value.closers;
      }
    }
  }

  lemma {:induction false} SoundRedirect(o: Oracle, c: Conf, rs: seq<Redir>, io: IO, closers: seq<nat>)
    returns (files: seq<nat>)
    requires Ready(c)
    ensures var r := Redirect(o, c, rs, io, closers);
            Opens(c, r.c, files) && r.value.closers == closers + files &&
            NoExit(r.err)
    decreases c.w.left, 6, |rs|
  {
    hide RedirectOne, OpenFiles, Shallow, Starts, Opens;
    if rs == [] {
      OpensNothing(c, c);
      files := [];
      assert closers + [] == closers;
    } else {
      SoundRedirectOne(o, c, rs[0], io);
      var r := RedirectOne(o, c, rs[0], io);
      files := r.value.closers;
      if r.err.None? {
        OpensReady(c, r.c, files);
        var all := closers + files;
        var more := SoundRedirect(o, r.c, rs[1..], r.value.io, all);
        OpensThen(c, r.c, Redirect(o, c, rs, io, closers).c, files, more);
        assert all + more == closers + (files + more);
        files := files + more;
      }
    }
  }

  lemma OpensReady(c: Conf, d: Conf, xs: seq<nat>)
    requires Opens(c, d, xs)
    ensures Ready(d)
  {
  }

  lemma {:induction false} SoundCloseAll(o: Oracle, c: Conf, base: seq<nat>, closers: seq<nat>, err: Option<Error>,
                                         code: int)
    requires Ready(c) && OpenFiles(c.w.trace) == Some(base + closers) && Agrees(Out(c, err, code))
    ensures var r := CloseAll(o, c, closers, err, code);
            Carries(c, r.c) && OpenFiles(r.c.w.trace) == Some(base) && Agrees(r)
    decreases |closers|
  {
    hide Shallow, Starts, OpenFiles;
    if closers == [] {
      assert base + [] == base;
    } else {
      var h, rest := closers[|closers| - 1], closers[..|closers| - 1];
      assert base + closers == base + rest + [h];
      ReadLog(c, Event.Closed(h));
      var c1 := Log(c, Event.Closed(h));
      SoundCloseAll(o, c1, base, rest, Some(Fail(Other)), 1);
      if !(o.closeFails(c.w.trace, h) && (err.None? || err.value.Flow?)) {
        SoundCloseAll(o, c1, base, rest, err, code);
      }
    }
  }

  // ---------------------------------------------------------------------
  // Statements and commands
  // ---------------------------------------------------------------------

  lemma {:induction false} SoundList(o: Oracle, c: Conf, xs: seq<Stmt>, io: IO, code: int)
    requires Ready(c)
    ensures Sound(c, List(o, c, xs, io, code))
    decreases c.w.left, 1, |xs|
  {
    hide Statement, OpenFiles, Shallow, Starts;
    if xs != [] {
      SoundStatement(o, c, xs[0], io, false);
      var s := Statement(o, c, xs[0], io, false);
      var c1 := s.c.(sh := s.c.sh.(status := s.value));
      if s.err.None? { SoundList(o, c1, xs[1..], io, s.value); }
    }
  }

  lemma {:induction false} SoundStatement(o: Oracle, c: Conf, x: Stmt, io: IO, all: bool)
    requires Ready(c)
    ensures Sound(c, Statement(o, c, x, io, all))
    decreases c.w.left, 0
  {
    hide Step, Perform, OpenFiles, Shallow, Starts, Ready;
    SoundStep(o, c);
    var s := Step(o, c);
    ReadyOf(c, s.c);
    if s.err.None? { SoundPerform(o, s.c, x, io, all); }
  }

  lemma SoundComplain(o: Oracle, c: Conf, e: Error, io: IO)
    requires Ready(c) && NoExit(Some(e))
    ensures Sound(c, Complain(o, c, e, io))
  {
    hide Say, OpenFiles, Shallow, Starts;
    SoundLog(c, Polled);
    SoundSay(o, Poll(o, c).c, io.err, "shale: redirection failed", 1);
  }

  lemma {:induction false} SoundPerform(o: Oracle, c: Conf, x: Stmt, io: IO, all: bool)
    requires Ready(c)
    ensures Sound(c, Perform(o, c, x, io, all))
    decreases c.w.left, 9
  {
    hide Fields, Redirect, Complain, CommandLine, CloseAll, OpenFiles, Shallow, Starts;
    var c1 := c.(sh := c.sh.(subStatus := 0));
    if x.cmd.Simple? { SoundFields(o, c1, x.cmd.words, io, []); }
    var f := if x.cmd.Simple? then Fields(o, c1, x.cmd.words, io, []) else Out(c1, None, []);
    if f.err.None? {
      var files := SoundRedirect(o, f.c, x.redirs, io, []);
      var r := Redirect(o, f.c, x.redirs, io, []);
      assert [] + files == files;
      var d := if r.err.Some? then Complain(o, r.c, r.err.value, io)
          else CommandLine(o, r.c, x, f.value, r.value.io, all);
      if r.err.Some? {
        SoundComplain(o, r.c, r.err.value, io);
      } else {
        SoundCommandLine(o, r.c, x, f.value, r.value.io, all);
      }
      SoundCloseAll(o, d.c, OpenFiles(f.c.w.trace).value, files, d.err, d.value);
    }
  }

  lemma {:induction false} SoundCommandLine(o: Oracle, c: Conf, x: Stmt, args: seq<string>, io: IO, all: bool)
    requires Ready(c)
    ensures Sound(c, CommandLine(o, c, x, args, io, all))
    decreases c.w.left, 8
  {
    hide Call, Command, OpenFiles, Shallow, Starts;
    var io' := if all then io.(err := io.out) else io;
    if x.cmd.Simple? { SoundCall(o, c, x.cmd.assigns, args, io'); } else { SoundCommand(o, c, x.cmd, io'); }
  }

  lemma {:induction false} SoundCommand(o: Oracle, c: Conf, x: Cmd, io: IO)
    requires Ready(c)
    ensures Sound(c, Command(o, c, x, io))
    decreases c.w.left, 7, x
  {
    hide List, Statement, Pipeline, ForLoop, WhileLoop, Fields, Exports, OpenFiles, Shallow, Starts, CleanDir;
    match x
    case Empty =>
    case Simple(_, _) =>
    case Block(body) => SoundList(o, c, body, io, 0);
    case Subshell(body) => SoundList(o, c, body, io, 0);
    case Pipe(left, right, all) => SoundPipeline(o, c, left, right, all, io);
    case AndOr(isAnd, first, second) =>
      SoundStatement(o, c, first, io, false);
      SoundStatement(o, Statement(o, c, first, io, false).c, second, io, false);
    case If(cond, thn, els) =>
      SoundList(o, c, cond, io, 0);
      var r := List(o, c, cond, io, 0);
      if r.err.None? {
        if r.value == 0 { SoundList(o, r.c, thn, io, 0); } else if els.Some? { SoundCommand(o, r.c, els.value, io); }
      }
    case For(name, overArgs, items, body) =>
      if !overArgs { SoundFields(o, c, items, io, []); }
      var f := if overArgs then Out(c, None, c.sh.args) else Fields(o, c, items, io, []);
      if f.err.None? { SoundForLoop(o, f.c, name, f.value, body, io, 0); }
    case While(cond, body, until) => SoundWhileLoop(o, c, cond, body, until, io, 0);
    case Func(_, _) =>
    case Export(xs) => SoundExports(o, c, xs, io);
  }

  lemma {:induction false} SoundForLoop(o: Oracle, c: Conf, name: string, items: seq<string>, body: seq<Stmt>, io: IO,
                                        code: int)
    requires Ready(c)
    ensures Sound(c, ForLoop(o, c, name, items, body, io, code))
    decreases c.w.left, 2, |items|
  {
    hide List, Step, Set, Ready, Keeps;
    KeepsSelf(c);
    if items != [] {
      SoundStep(o, c);
      var s := Step(o, c);
      ReadyOf(c, s.c);
      var v := Set(s.c, name, Variable(items[0], true, false));
      SoundSet(s.c, name, Variable(items[0], true, false));
      ReadyOf(s.c, v.c);
      KeepsThen(c, s.c, v.c);
      if s.err.None? && v.err.None? {
        SoundList(o, v.c, body, io, 0);
        var r := List(o, v.c, body, io, 0);
        ReadyOf(v.c, r.c);
        KeepsThen(c, v.c, r.c);
        SoundForLoop(o, r.c, name, items[1..], body, io, r.value);
        SoundThen(c, r.c, ForLoop(o, r.c, name, items[1..], body, io, r.value));
      }
    }
  }

  lemma {:induction false} SoundWhileLoop(o: Oracle, c: Conf, cond: seq<Stmt>, body: seq<Stmt>, until: bool, io: IO,
                                          code: int)
    requires Ready(c)
    ensures Sound(c, WhileLoop(o, c, cond, body, until, io, code))
    decreases c.w.left, 2
  {
    hide List, Step, Ready, Keeps;
    SoundStep(o, c);
    var s := Step(o, c);
    ReadyOf(c, s.c);
    if s.err.None? {
      SoundList(o, s.c, cond, io, 0);
      var t := List(o, s.c, cond, io, 0);
      ReadyOf(s.c, t.c);
      KeepsThen(c, s.c, t.c);
      SoundList(o, t.c, body, io, 0);
      var r := List(o, t.c, body, io, 0);
      ReadyOf(t.c, r.c);
      KeepsThen(c, t.c, r.c);
      SoundWhileLoop(o, r.c, cond, body, until, io, r.value);
      SoundThen(c, r.c, WhileLoop(o, r.c, cond, body, until, io, r.value));
    }
  }

  lemma SoundRejoin(c: Conf, mine: nat, l: Conf, r: Conf)
    requires Ready(c) && mine <= c.w.left
    requires Keeps(c.(w := c.w.(left := mine)), l)
    requires Keeps(Conf(c.sh, World(l.w.trace, c.w.left - mine, c.w.overdrawn)), r)
    ensures Keeps(c, Rejoin(c, l.w, r.w))
  {
    hide OpenFiles, Shallow, Starts, CleanDir;
  }

  lemma SoundPipelineEnd(o: Oracle, c: Conf, l: Out<int>, r: Out<int>)
    requires Ready(c)
    ensures Sound(c, PipelineEnd(o, c, l, r))
  {
    hide OpenFiles, Shallow, Starts, CleanDir;
    SoundLog(c, Polled);
  }

  lemma {:induction false} SoundPipeline(o: Oracle, c: Conf, left: Stmt, right: Stmt, all: bool, io: IO)
    requires Ready(c)
    ensures Sound(c, Pipeline(o, c, left, right, all, io))
    decreases c.w.left, 2
  {
    hide Statement, OpenFiles, Shallow, Starts, CleanDir, Keeps, Rejoin, PipelineEnd;
    var mine := if o.share(c.w.trace) <= c.w.left then o.share(c.w.trace) else c.w.left;
    var cl := c.(w := c.w.(left := mine));
    SoundStatement(o, cl, left, io.(out := ToPipe(|c.w.trace|)), all);
    var l := Statement(o, cl, left, io.(out := ToPipe(|c.w.trace|)), all);
    ReadyOf(cl, l.c);
    var cr := Conf(c.sh, World(l.c.w.trace, c.w.left - mine, c.w.overdrawn));
    SoundStatement(o, cr, right, io.(input := FromPipe(|c.w.trace|), inSet := true), false);
    var r := Statement(o, cr, right, io.(input := FromPipe(|c.w.trace|), inSet := true), false);
    SoundRejoin(c, mine, l.c, r.c);
    var j := Rejoin(c, l.c.w, r.c.w);
    ReadyOf(c, j);
    SoundPipelineEnd(o, j, l, r);
    SoundThen(c, j, PipelineEnd(o, j, l, r));
  }

  lemma {:induction false} SoundPrefixes(o: Oracle, c: Conf, xs: seq<Assign>, before: Saved, io: IO)
    requires Ready(c)
    ensures Keeps(c, Prefixes(o, c, xs, before, io).c) && NoExit(Prefixes(o, c, xs, before, io).err)
    decreases c.w.left, 5, |xs|
  {
    hide Assignment, OpenFiles, Shallow, Starts;
    if xs != [] {
      var k := xs[0].name;
      var before' := if k in before then before else before[k := Get(c.sh.vars, k)];
      SoundAssignment(o, c, xs[0], true, io);
      SoundPrefixes(o, Assignment(o, c, xs[0], true, io).c, xs[1..], before', io);
    }
  }

  lemma {:induction false} SoundCall(o: Oracle, c: Conf, assigns: seq<Assign>, args: seq<string>, io: IO)
    requires Ready(c)
    ensures Sound(c, Call(o, c, assigns, args, io))
    decreases c.w.left, 7, 0
  {
    hide Assignments, Prefixes, Invoke, OpenFiles, Shallow, Starts, Restore;
    if args == [] {
      SoundAssignments(o, c, assigns, false, io);
    } else {
      SoundPrefixes(o, c, assigns, map[], io);
      var p := Prefixes(o, c, assigns, map[], io);
      if p.err.None? { SoundInvoke(o, p.c, args, io); }
    }
  }

  lemma {:induction false} SoundInvoke(o: Oracle, c: Conf, args: seq<string>, io: IO)
    requires Ready(c) && args != []
    ensures Sound(c, Invoke(o, c, args, io))
    decreases c.w.left, 6
  {
    hide CallFunction, Nested, Builtin, Ready, Keeps, Agrees;
    if args[0] in c.sh.funcs {
      SoundCallFunction(o, c, args, io);
    } else {
      SoundNested(o, c, args, io);
      SoundBuiltin(o, c, args, io);
    }
  }

  lemma {:induction false} SoundCallFunction(o: Oracle, c: Conf, args: seq<string>, io: IO)
    requires Ready(c) && args != [] && args[0] in c.sh.funcs
    ensures Sound(c, CallFunction(o, c, args, io))
    decreases c.w.left, 1
  {
    hide Statement, OpenFiles, Shallow, Starts;
    if c.sh.depth < MAX_DEPTH {
      var c1 := c.(sh := c.sh.(args := args[1..], depth := c.sh.depth + 1));
      SoundStatement(o, c1, c.sh.funcs[args[0]], io, false);
    }
  }

  lemma {:induction false} SoundNested(o: Oracle, c: Conf, args: seq<string>, io: IO)
    requires Ready(c) && args != []
    ensures Sound(c, Nested(o, c, args, io))
    decreases c.w.left, 2
  {
    hide List, OpenFiles, Shallow, Starts, Say;
    SoundSay(o, c, io.err, "shale: nested shells support -c SCRIPT", 2);
    if c.sh.depth < MAX_DEPTH && |args| >= 3 {
      var p := o.parse(args[2]);
      if p.Program? {
        var child := c.(sh := NestedShell(c, args));
        SoundLog(child, Entered(args[2]));
        SoundList(o, Log(child, Entered(args[2])), p.body, io, 0);
      }
    }
  }

  // ---------------------------------------------------------------------
  // Whole runs
  // ---------------------------------------------------------------------

  /** Every run, of every program, in every world: at most maxSteps steps are
      taken, and exactly those missing from the budget unless it was overdrawn;
      no step is taken deeper than 64 calls; every file opened for a redirection
      has been closed, in the reverse order; the positional arguments and the
      depth are as before and a clean working directory stays clean. */
  lemma RunIsSound(o: Oracle, sh: Sh, src: string, io: IO, maxSteps: nat)
    requires sh.depth <= MAX_DEPTH
    ensures var r := Run(o, sh, src, io, maxSteps);
            && Starts(r.w.trace) + r.w.left <= maxSteps
            && (!r.w.overdrawn ==> Starts(r.w.trace) + r.w.left == maxSteps)
            && Shallow(r.w.trace)
            && OpenFiles(r.w.trace) == Some([])
            && r.sh.args == sh.args && r.sh.depth == sh.depth && (CleanDir(sh.cwd) ==> CleanDir(r.sh.cwd))
  {
    var p := o.parse(src);
    if p.Program? { SoundList(o, Conf(sh, World([], maxSteps, false)), p.body, io, 0); }
  }

  /** A run, which takes the code inside an exit signal, reports what a subshell,
      which takes the status beside it, reports for the same program. */
  lemma RunIsSubshell(o: Oracle, sh: Sh, src: string, io: IO, maxSteps: nat)
    requires sh.depth <= MAX_DEPTH && o.parse(src).Program?
    ensures var r := Run(o, sh, src, io, maxSteps);
            var s := Command(o, Conf(sh, World([], maxSteps, false)), Subshell(o.parse(src).body), io);
            r.code == s.value && r.err == s.err && r.w == s.c.w
  {
    SoundList(o, Conf(sh, World([], maxSteps, false)), o.parse(src).body, io, 0);
  }

  predicate ClosedAt(t: Trace, h: nat, j: nat) { h < j < |t| && t[j].Closed? && t[j].h == h }

  predicate IsOpening(t: Trace, h: nat) { h < |t| && t[h].Opened? && t[h].ok }

  /** What the last-opened-first-closed reading says about single files: the
      files still open are those never closed, and the others were closed
      exactly once, after their opening. */
  lemma {:induction false} ClosedOnce(t: Trace, h: nat)
    requires OpenFiles(t).Some? && IsOpening(t, h)
    ensures h in OpenFiles(t).value <==> forall j :: !ClosedAt(t, h, j)
    ensures forall i, j :: ClosedAt(t, h, i) && ClosedAt(t, h, j) ==> i == j
    decreases |t|
  {
    var s, e := t[..|t| - 1], t[|t| - 1];
    OpenAreOpenings(s);
    OpenAreOpenings(t);
    forall j ensures ClosedAt(t, h, j) <==> ClosedAt(s, h, j) || (j == |t| - 1 && e.Closed? && e.h == h && h < |s|) {}
    if h < |s| {
      ClosedOnce(s, h);
      var before := OpenFiles(s).value;
      assert before != [] ==> before == before[..|before| - 1] + [before[|before| - 1]];
      if e.Closed? && e.h == h {
        assert ClosedAt(t, h, |t| - 1);
        assert h in before && h !in before[..|before| - 1];
      } else {
        assert h in OpenFiles(t).value <==> h in before;
        assert forall j :: ClosedAt(t, h, j) <==> ClosedAt(s, h, j);
      }
    } else {
      forall j ensures !ClosedAt(s, h, j) {}
    }
  }

  /** The open files are openings, in the order of opening. */
  lemma {:induction false} OpenAreOpenings(t: Trace)
    requires OpenFiles(t).Some?
    ensures var open := OpenFiles(t).value;
            && (forall h :: h in open ==> IsOpening(t, h))
            && (forall i, j :: 0 <= i < j < |open| ==> open[i] < open[j])
    decreases |t|
  {
    if t != [] {
      var s := t[..|t| - 1];
      OpenAreOpenings(s);
      var before := OpenFiles(s).value;
      assert forall i :: 0 <= i < |before| ==> before[i] in before;
      assert forall h :: IsOpening(s, h) ==> IsOpening(t, h);
    }
  }
}
