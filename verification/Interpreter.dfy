/** The interpreter as the program has it: a Shell object whose methods update its
    fields and, in place, its two tables, and a Run that counts the steps of all
    shells working for it.  Every method is proved against the function of the
    evaluator that specifies it. */
module Interpreter {
  import opened Store
  import opened Paths
  import opened Resolving
  import opened ShellSyntax
  import opened ShellState
  import S = ShellState
  import E = ShellEval
  import opened ShellEval
  import X = Xargs
  import Sound = ShellSound
  import Scope = ShellScope
  import XargsSplit

  class Run {
    const o: Oracle
    const maxSteps: nat
    var trace: Trace
    var steps: nat

    constructor (o: Oracle, maxSteps: nat)
      ensures this.o == o && W() == World([], maxSteps, false)
    {
      this.o, this.maxSteps, trace, steps := o, maxSteps, [], 0;
    }

    /** One stage's view of the counter it shares with the other stage: the steps
        it gets before the counter is used up. */
    constructor Stage(whole: Run, trace: Trace, share: nat)
      requires share <= whole.Left()
      ensures o == whole.o && W() == World(trace, share, whole.steps > whole.maxSteps)
    {
      o, this.trace := whole.o, trace;
      maxSteps := share;
      steps := if whole.steps > whole.maxSteps then share + 1 else 0;
    }

    function Left(): nat
      reads this
    {
      if steps <= maxSteps then maxSteps - steps else 0
    }

    function W(): World
      reads this
    {
      World(trace, Left(), steps > maxSteps)
    }

    method Step(depth: int, ghost sh: Sh) returns (err: Option<Error>)
      requires sh.depth == depth
      modifies this
      ensures var s := S.Step(o, old(Conf(sh, W()))); err == s.err && Conf(sh, W()) == s.c
    {
      if o.cancelled(trace) {
        trace := trace + [Polled];
        return Some(Fail(Cancelled));
      }
      steps := steps + 1;
      if steps > maxSteps {
        return Some(Fail(Limit));
      }
      trace := trace + [Started(depth)];
      err := None;
    }

    method Log(e: Event, ghost sh: Sh)
      modifies this
      ensures Conf(sh, W()) == S.Log(old(Conf(sh, W())), e)
    {
      trace := trace + [e];
    }

    method IsCancelled(ghost sh: Sh) returns (cancelled: bool)
      modifies this
      ensures Out(Conf(sh, W()), None, cancelled) == S.Poll(o, old(Conf(sh, W())))
    {
      cancelled := o.cancelled(trace);
      trace := trace + [Polled];
    }

    method Print(to: Sink, text: string, ghost sh: Sh) returns (err: Option<Error>)
      modifies this
      ensures Out(Conf(sh, W()), err, 0) == S.Print(o, old(Conf(sh, W())), to, text)
    {
      var e := o.write(trace, to, text);
      trace := trace + [Printed(to, text)];
      err := if e.None? then None else Some(Fail(e.value));
    }

    /** The counter as the stages leave it. */
    method Rejoin(left: Run, right: Run, ghost sh: Sh)
      requires left != this && right != this && left.Left() + right.Left() <= Left()
      modifies this
      ensures Conf(sh, W()) == E.Rejoin(old(Conf(sh, W())), left.W(), right.W())
    {
      trace := right.trace;
      if left.steps > left.maxSteps || right.steps > right.maxSteps {
        steps := maxSteps + 1;
      } else {
        steps := maxSteps - (left.Left() + right.Left());
      }
    }
  }

  /** The table of variables, updated in place. */
  class Variables {
    var m: Vars

    constructor (m: Vars)
      ensures this.m == m
    {
      this.m := m;
    }
  }

  /** The table of functions, updated in place. */
  class Functions {
    var m: map<string, Stmt>

    constructor (m: map<string, Stmt>)
      ensures this.m == m
    {
      this.m := m;
    }
  }

  class Shell {
    var cwd: string
    var exited: bool
    const vars: Variables
    const funcs: Functions
    var status: int
    var subStatus: int
    var args: seq<string>
    var depth: int

    function View(): Sh
      reads this, vars, funcs
    {
      Sh(cwd, vars.m, funcs.m, status, subStatus, args, depth)
    }

    function At(r: Run): Conf
      reads this, vars, funcs, r
    {
      Conf(View(), r.W())
    }

    constructor New(cwd: string, env: map<string, string>)
      ensures View() == NewShell(cwd, env) && fresh(vars) && fresh(funcs)
    {
      this.cwd, exited := cwd, false;
      vars := new Variables(Initial(cwd, env));
      funcs := new Functions(map[]);
      status, subStatus, args, depth := 0, 0, [], 0;
    }

    /** A copy with tables of its own. */
    constructor Clone(s: Shell)
      ensures View() == s.View() && fresh(vars) && fresh(funcs)
    {
      cwd, exited := s.cwd, s.exited;
      vars := new Variables(s.vars.m);
      funcs := new Functions(s.funcs.m);
      status, subStatus, args, depth := s.status, s.subStatus, s.args, s.depth;
    }

    // -------------------------------------------------------------------
    // Variables
    // -------------------------------------------------------------------

    method SetVar(r: Run, k: string, v: Variable) returns (err: Option<Error>)
      modifies vars
      ensures var s := S.Set(old(At(r)), k, v); err == s.err && At(r) == s.c
    {
      if |v.text| > MAX_EXPANSION || |vars.m| > MAX_VARS {
        return Some(Fail(Limit));
      }
      vars.m := vars.m[k := v.(exported := v.exported || Get(vars.m, k).exported)];
      err := None;
    }

    method Unset(r: Run, names: seq<string>)
      modifies vars
      ensures At(r) == old(At(r)).(sh := old(View()).(vars := Without(old(vars.m), names)))
    {
      assert vars.m == Without(old(vars.m), names[..0]);
      for i := 0 to |names|
        invariant vars.m == Without(old(vars.m), names[..i])
      {
        vars.m := vars.m - {names[i]};
        assert names[..i + 1] == names[..i] + [names[i]];
      }
      assert names[..|names|] == names;
    }

    // -------------------------------------------------------------------
    // Expansion
    // -------------------------------------------------------------------

    /** A command substitution writes the status of the last substitution and
        nothing else of this shell; the body updates the tables of `copy`. */
    method Substitution(r: Run, body: seq<Stmt>, io: IO)
      returns (value: seq<string>, err: Option<Error>, ghost copy: Shell?)
      modifies `subStatus, r
      ensures Out(At(r), err, value) == E.Substitute(r.o, old(At(r)), body, io)
      ensures unchanged(vars) && unchanged(funcs) && View() == old(View()).(subStatus := subStatus)
      ensures depth < MAX_DEPTH ==>
                && copy != null && fresh(copy) && fresh(copy.vars) && fresh(copy.funcs)
                && var c := old(At(r)).(sh := old(View()).(depth := depth + 1));
                   copy.View() == E.List(r.o, c, body, IO(io.input, Captured(|c.w.trace|), io.err, io.inSet), 0).c.sh
      decreases r.Left(), 2
    {
      hide E.List;
      copy := null;
      if depth >= MAX_DEPTH { return [], Some(Fail(Limit)), copy; }
      var child := new Shell.Clone(this);
      copy := child;
      child.depth := child.depth + 1;
      var before := r.trace;
      var code, e := child.Statements(r, body, IO(io.input, Captured(|before|), io.err, io.inSet));
      subStatus := code;
      var text := r.o.capture(before, r.trace);
      if text.None? { return [], Some(Fail(Limit)), copy; }
      return [text.value], Absorb(e, Exit), copy;
    }

    method PartValue(r: Run, p: Part, io: IO) returns (value: seq<string>, err: Option<Error>)
      modifies `cwd, vars, funcs, `status, `subStatus, `args, `depth, r
      ensures Out(At(r), err, value) == E.ExpandPart(r.o, old(At(r)), p, io)
      decreases r.Left(), 3, p
    {
      hide E.Expand, E.Substitute, Lookup;
      match p
      case Lit(text) => return [text], None;
      case Var(name) => return Lookup(r.o, View(), name), None;
      case Default(name, word) =>
        var v := Spaced(Lookup(r.o, View(), name));
        if v != "" && !r.o.eager { return [v], None; }
        var values, e := WordValues(r, word, io);
        if e.Some? { return [], e; }
        if v != "" { return [v], None; }
        e := SetVar(r, name, Variable(Glued(values), true, false));
        return [Glued(values)], e;
      case Subst(body) =>
        ghost var copy;
        value, err, copy := Substitution(r, body, io);
    }

    /** The values of the parts of a word. */
    method WordValues(r: Run, word: seq<Part>, io: IO) returns (values: seq<seq<string>>, err: Option<Error>)
      modifies `cwd, vars, funcs, `status, `subStatus, `args, `depth, r
      ensures Out(At(r), err, values) == E.Expand(r.o, old(At(r)), word, io)
      ensures (forall p :: p in word ==> !p.Default?) ==> View() == old(View()).(subStatus := subStatus)
      decreases r.Left(), 3, word
    {
      hide E.ExpandPart;
      if forall p :: p in word ==> !p.Default? { Scope.ExpandIsolates(r.o, At(r), word, io); }
      if word == [] { return [], None; }
      var value, e := PartValue(r, word[0], io);
      if e.Some? { return [], e; }
      values, err := WordValues(r, word[1..], io);
      values := [value] + values;
    }

    /** The fields of the words, within the limits on their number and size. */
    method WordFields(r: Run, words: seq<Word>, io: IO) returns (fields: seq<string>, err: Option<Error>)
      modifies `cwd, vars, funcs, `status, `subStatus, `args, `depth, r
      ensures Out(At(r), err, fields) == E.Fields(r.o, old(At(r)), words, io, [])
      decreases r.Left(), 4, |words|
    {
      hide E.Expand, E.FieldsOf;
      fields := [];
      var size := 0;
      assert words[0..] == words;
      for i := 0 to |words|
        invariant size == Size(fields)
        invariant r.Left() <= old(r.Left())
        invariant E.Fields(r.o, old(At(r)), words, io, []) == E.Fields(r.o, At(r), words[i..], io, fields)
      {
        assert words[i..][0] == words[i] && words[i..][1..] == words[i + 1..];
        var values, e := WordValues(r, words[i].parts, io);
        if e.Some? { return [], e; }
        var found := FieldsOf(r.o, At(r), words[i].parts, values);
        ghost var before, had := At(r), fields;
        assert found[0..] == found;
        for j := 0 to |found|
          invariant size == Size(fields)
          invariant r.Left() == before.w.left
          invariant E.Admit(r.o, before, found, had) == E.Admit(r.o, At(r), found[j..], fields)
        {
          assert found[j..][0] == found[j] && found[j..][1..] == found[j + 1..];
          var cancelled := r.IsCancelled(View());
          if cancelled { return [], Some(Fail(Cancelled)); }
          size := size + |found[j]|;
          if |fields| >= MAX_FIELDS || size > MAX_EXPANSION { return [], Some(Fail(Limit)); }
          assert (fields + [found[j]])[..|fields|] == fields;
          fields := fields + [found[j]];
        }
        assert found[|found|..] == [];
      }
      err := None;
    }

    method AssignVar(r: Run, a: Assign, export_: bool, io: IO) returns (err: Option<Error>)
      modifies `cwd, vars, funcs, `status, `subStatus, `args, `depth, r
      ensures var s := E.Assignment(r.o, old(At(r)), a, export_, io); At(r) == s.c && err == s.err
      decreases r.Left(), 4, 0
    {
      hide E.Expand, S.Set;
      var values, e := WordValues(r, a.value, io);
      if e.Some? { return e; }
      var text := Glued(values);
      if a.append { text := Get(vars.m, a.name).text + text; }
      err := SetVar(r, a.name, Variable(text, true, export_));
    }

    // -------------------------------------------------------------------
    // Redirection
    // -------------------------------------------------------------------

    method OpenTarget(r: Run, rd: Redir, path: string, io: IO) returns (res: Redirected, err: Option<Error>)
      modifies r
      ensures Out(At(r), err, res) == E.OpenTarget(r.o, old(At(r)), rd, path, io)
    {
      var f := r.o.open(r.trace, path, rd.op);
      var h := |r.trace|;
      r.Log(Opened(path, rd.op, !f.Refused?), View());
      if f.Refused? { return Redirected(io, []), Some(Fail(f.fault)); }
      if rd.op == ReadFrom {
        if rd.fd != 0 { return Redirected(io, [h]), Some(Fail(Other)); }
        return Redirected(io.(input := FromFile(h), inSet := true), [h]), None;
      }
      if f.Reader? { return Redirected(io, [h]), Some(Fail(Other)); }
      var io' := WithOut(io, rd.op, rd.fd, ToFile(h));
      if io'.None? { return Redirected(io, [h]), Some(Fail(Other)); }
      return Redirected(io'.value, [h]), None;
    }

    method RedirectOne(r: Run, rd: Redir, io: IO) returns (res: Redirected, err: Option<Error>)
      modifies `cwd, vars, funcs, `status, `subStatus, `args, `depth, r
      ensures Out(At(r), err, res) == E.RedirectOne(r.o, old(At(r)), rd, io)
      decreases r.Left(), 5, 0
    {
      hide E.Expand, E.Fields, E.OpenTarget, Resolve;
      res := Redirected(io, []);
      if rd.op == HereDoc || rd.op == HereString {
        var values, e := WordValues(r, rd.word, io);
        if e.Some? { return res, e; }
        var text := Glued(values);
        if |text| > MAX_EXPANSION || (rd.op == HereString && |text| == MAX_EXPANSION) { return res, Some(Fail(Limit)); }
        var body := if rd.op == HereString then text + "\n" else text;
        return Redirected(io.(input := Given(body), inSet := true), []), None;
      }
      var names, e := WordFields(r, [Word(rd.word)], io);
      if e.Some? { return res, e; }
      if |names| != 1 { return res, Some(Fail(Other)); }
      if rd.op == DupOut {
        var w := DupTarget(io, names[0]);
        if w.None? { return res, Some(Fail(Other)); }
        var io' := WithOut(io, DupOut, rd.fd, w.value);
        if io'.None? { return res, Some(Fail(Other)); }
        return Redirected(io'.value, []), None;
      }
      res, err := OpenTarget(r, rd, Resolve(cwd, names[0]), io);
    }

    /** Redirections in order, up to the first that fails; what has been opened is
        returned to be closed. */
    method Redirections(r: Run, rs: seq<Redir>, io: IO) returns (io': IO, closers: seq<nat>, err: Option<Error>)
      modifies `cwd, vars, funcs, `status, `subStatus, `args, `depth, r
      ensures Out(At(r), err, Redirected(io', closers)) == E.Redirect(r.o, old(At(r)), rs, io, [])
      decreases r.Left(), 6, |rs|
    {
      hide E.RedirectOne;
      io', closers := io, [];
      assert rs[0..] == rs;
      for i := 0 to |rs|
        invariant r.Left() <= old(r.Left())
        invariant E.Redirect(r.o, old(At(r)), rs, io, []) == E.Redirect(r.o, At(r), rs[i..], io', closers)
      {
        assert rs[i..][0] == rs[i] && rs[i..][1..] == rs[i + 1..];
        var one, e := RedirectOne(r, rs[i], io');
        closers := closers + one.closers;
        if e.Some? { return io', closers, e; }
        io' := one.io;
      }
      err := None;
    }

    /** The deferred closing of what a statement has opened. */
    method CloseFiles(r: Run, closers: seq<nat>, code0: int, err0: Option<Error>)
      returns (code: int, err: Option<Error>)
      modifies r
      ensures Out(At(r), err, code) == E.CloseAll(r.o, old(At(r)), closers, err0, code0)
    {
      code, err := code0, err0;
      assert closers[..|closers|] == closers;
      for i := |closers| downto 0
        invariant E.CloseAll(r.o, old(At(r)), closers, err0, code0) == E.CloseAll(r.o, At(r), closers[..i], err, code)
      {
        assert closers[..i + 1][..i] == closers[..i];
        var fails := r.o.closeFails(r.trace, closers[i]);
        r.Log(Event.Closed(closers[i]), View());
        if fails && (err.None? || err.value.Flow?) {
          code, err := 1, Some(Fail(Other));
        }
      }
    }

    // -------------------------------------------------------------------
    // Statements and commands
    // -------------------------------------------------------------------

    method Statements(r: Run, xs: seq<Stmt>, io: IO) returns (code: int, err: Option<Error>)
      modifies `cwd, vars, funcs, `status, `subStatus, `args, `depth, r
      ensures Out(At(r), err, code) == E.List(r.o, old(At(r)), xs, io, 0)
      decreases r.Left(), 1, |xs|
    {
      hide E.Statement;
      code := 0;
      assert xs[0..] == xs;
      for i := 0 to |xs|
        invariant r.Left() <= old(r.Left())
        invariant E.List(r.o, old(At(r)), xs, io, 0) == E.List(r.o, At(r), xs[i..], io, code)
      {
        assert xs[i..][0] == xs[i] && xs[i..][1..] == xs[i + 1..];
        code, err := Statement(r, xs[i], io, false);
        status := code;
        if err.Some? { return; }
      }
      err := None;
    }

    method Complain(r: Run, e: Error, io: IO) returns (code: int, err: Option<Error>)
      modifies r
      ensures Out(At(r), err, code) == E.Complain(r.o, old(At(r)), e, io)
    {
      if e == Fail(Limit) { return 1, Some(e); }
      var cancelled := r.IsCancelled(View());
      if cancelled { return 1, Some(e); }
      var _ := r.Print(io.err, "shale: redirection failed", View());
      return 1, None;
    }

    method Statement(r: Run, x: Stmt, io: IO, all: bool) returns (code: int, err: Option<Error>)
      modifies `cwd, vars, funcs, `status, `subStatus, `args, `depth, r
      ensures Out(At(r), err, code) == E.Statement(r.o, old(At(r)), x, io, all)
      ensures (x.cmd.Subshell? || x.cmd.Pipe?) && x.redirs == [] ==> Scope.SameButStatus(old(View()), View())
      decreases r.Left(), 0
    {
      hide E.Fields, E.Redirect, E.Complain, E.CloseAll, E.Call, E.Command, S.Step;
      if (x.cmd.Subshell? || x.cmd.Pipe?) && x.redirs == [] { Scope.CopiesIsolate(r.o, At(r), x, io, all); }
      err := r.Step(depth, View());
      if err.Some? { return 1, err; }
      ghost var performed := E.Perform(r.o, At(r), x, io, all);
      subStatus := 0;
      var argv: seq<string> := [];
      if x.cmd.Simple? {
        argv, err := WordFields(r, x.cmd.words, io);
        if err.Some? { return 1, err; }
      }
      var io', closers, e := Redirections(r, x.redirs, io);
      if e.Some? {
        code, err := Complain(r, e.value, io);
      } else {
        ghost var done := E.CommandLine(r.o, At(r), x, argv, io', all);
        if all { io' := io'.(err := io'.out); }
        if x.cmd.Simple? {
          code, err := Call(r, x.cmd.assigns, argv, io');
        } else {
          code, err := Command(r, x.cmd, io');
        }
        if x.negated && err.None? {
          code := if code == 0 then 1 else 0;
        }
        status := code;
      }
      code, err := CloseFiles(r, closers, code, err);
    }

    method Command(r: Run, x: Cmd, io: IO) returns (code: int, err: Option<Error>)
      modifies `cwd, vars, funcs, `status, `subStatus, `args, `depth, r
      ensures Out(At(r), err, code) == E.Command(r.o, old(At(r)), x, io)
      decreases r.Left(), 7, x
    {
      hide E.List, E.Statement, E.Pipeline, E.ForLoop, E.WhileLoop, E.Fields, E.Exports;
      match x
      case Empty => return subStatus, None;
      case Simple(_, _) => return 2, Some(Fail(Other));
      case Block(body) => code, err := Statements(r, body, io);
      case Subshell(body) =>
        ghost var copy;
        code, err, copy := InCopy(r, body, io);
      case Pipe(left, right, all) => code, err := Pipeline(r, left, right, all, io);
      case AndOr(isAnd, first, second) =>
        code, err := Statement(r, first, io, false);
        if err.Some? { return; }
        if (isAnd && code == 0) || (!isAnd && code != 0) {
          code, err := Statement(r, second, io, false);
        }
      case If(cond, thn, els) =>
        code, err := Statements(r, cond, io);
        if err.Some? { return; }
        if code == 0 {
          code, err := Statements(r, thn, io);
        } else if els.Some? {
          code, err := Command(r, els.value, io);
        } else {
          code := 0;
        }
      case For(name, overArgs, items, body) =>
        var over := args;
        if !overArgs {
          over, err := WordFields(r, items, io);
          if err.Some? { return 1, err; }
        }
        code, err := ForLoop(r, name, over, body, io);
      case While(cond, body, until) => code, err := WhileLoop(r, cond, body, until, io);
      case Func(name, fbody) =>
        if |funcs.m| >= MAX_FUNCS { return 1, Some(Fail(Limit)); }
        funcs.m := funcs.m[name := fbody];
        return 0, None;
      case Export(xs) => code, err := Exports(r, xs, io);
    }

    /** A subshell writes nothing of this shell, neither its fields nor its tables;
        all that the list does is done to the tables of `copy`. */
    method InCopy(r: Run, body: seq<Stmt>, io: IO) returns (code: int, err: Option<Error>, ghost copy: Shell)
      modifies r
      ensures Out(At(r), err, code) == E.Command(r.o, old(At(r)), Subshell(body), io)
      ensures unchanged(this) && unchanged(vars) && unchanged(funcs)
      ensures fresh(copy) && fresh(copy.vars) && fresh(copy.funcs)
      ensures copy.View() == E.List(r.o, old(At(r)), body, io, 0).c.sh
      decreases r.Left(), 2
    {
      hide E.List;
      var child := new Shell.Clone(this);
      code, err := child.Statements(r, body, io);
      err := Absorb(err, Exit);
      copy := child;
    }

    method ForLoop(r: Run, name: string, items: seq<string>, body: seq<Stmt>, io: IO)
      returns (code: int, err: Option<Error>)
      modifies `cwd, vars, funcs, `status, `subStatus, `args, `depth, r
      ensures Out(At(r), err, code) == E.ForLoop(r.o, old(At(r)), name, items, body, io, 0)
      decreases r.Left(), 2, |items|
    {
      hide E.List, S.Step, S.Set;
      code := 0;
      assert items[0..] == items;
      for i := 0 to |items|
        invariant r.Left() <= old(r.Left())
        invariant E.ForLoop(r.o, old(At(r)), name, items, body, io, 0) ==
            E.ForLoop(r.o, At(r), name, items[i..], body, io, code)
      {
        assert items[i..][0] == items[i] && items[i..][1..] == items[i + 1..];
        err := r.Step(depth, View());
        if err.Some? { return 1, err; }
        err := SetVar(r, name, Variable(items[i], true, false));
        if err.Some? { return 1, err; }
        code, err := Statements(r, body, io);
        if err.Some? && err.value.Flow? {
          if err.value.kind == Break { return 0, None; }
          if err.value.kind == Continue { continue; }
        }
        if err.Some? { return; }
      }
      err := None;
    }

    method WhileLoop(r: Run, cond: seq<Stmt>, body: seq<Stmt>, until: bool, io: IO)
      returns (code: int, err: Option<Error>)
      modifies `cwd, vars, funcs, `status, `subStatus, `args, `depth, r
      ensures Out(At(r), err, code) == E.WhileLoop(r.o, old(At(r)), cond, body, until, io, 0)
      decreases r.Left(), 2
    {
      hide E.List, S.Step;
      code := 0;
      while true
        invariant r.Left() <= old(r.Left())
        invariant E.WhileLoop(r.o, old(At(r)), cond, body, until, io, 0) ==
            E.WhileLoop(r.o, At(r), cond, body, until, io, code)
        decreases r.Left()
      {
        err := r.Step(depth, View());
        if err.Some? { return 1, err; }
        var test: int;
        test, err := Statements(r, cond, io);
        if err.Some? { return test, err; }
        if (test == 0) == until { return code, None; }
        code, err := Statements(r, body, io);
        if err.Some? && err.value.Flow? {
          if err.value.kind == Break { return 0, None; }
          if err.value.kind == Continue { continue; }
        }
        if err.Some? { return; }
      }
    }

    method Exports(r: Run, xs: seq<Exportable>, io: IO) returns (code: int, err: Option<Error>)
      modifies `cwd, vars, funcs, `status, `subStatus, `args, `depth, r
      ensures Out(At(r), err, code) == E.Exports(r.o, old(At(r)), xs, io)
      decreases r.Left(), 5, |xs|
    {
      hide E.Assignment;
      assert xs[0..] == xs;
      for i := 0 to |xs|
        invariant r.Left() <= old(r.Left())
        invariant E.Exports(r.o, old(At(r)), xs, io) == E.Exports(r.o, At(r), xs[i..], io)
      {
        assert xs[i..][0] == xs[i] && xs[i..][1..] == xs[i + 1..];
        if xs[i].Dynamic? { return 2, Some(Fail(Other)); }
        var a := xs[i].assign;
        if a.naked {
          vars.m := vars.m[a.name := Get(vars.m, a.name).(exported := true)];
        } else {
          err := AssignVar(r, a, true, io);
          if err.Some? { return 1, err; }
        }
      }
      return 0, None;
    }

    // -------------------------------------------------------------------
    // Pipelines
    // -------------------------------------------------------------------

    /** One stage, in a copy of this shell, with its share of the steps: it writes
        to no object there was before, only to those of the copy. */
    method Stage(r: Run, trace: Trace, share: nat, x: Stmt, io: IO, all: bool)
      returns (stage: Run, code: int, err: Option<Error>, ghost res: Out<int>, ghost copy: Shell)
      requires share <= r.Left()
      ensures fresh(stage) && fresh(copy) && fresh(copy.vars) && fresh(copy.funcs)
      ensures unchanged(this) && unchanged(vars) && unchanged(funcs) && copy.View() == res.c.sh
      ensures res == E.Statement(r.o, Conf(View(), World(trace, share, r.W().overdrawn)), x, io, all)
      ensures stage.W() == res.c.w && err == res.err && code == res.value
      decreases r.Left(), 1
    {
      hide E.Statement;
      var own := new Shell.Clone(this);
      stage := new Run.Stage(r, trace, share);
      assert own.At(stage) == Conf(View(), World(trace, share, r.W().overdrawn));
      code, err := own.Statement(stage, x, io, all);
      res := Out(own.At(stage), err, code);
      copy := own;
    }

    method Pipeline(r: Run, left: Stmt, right: Stmt, all: bool, io: IO) returns (code: int, err: Option<Error>)
      modifies r
      ensures Out(At(r), err, code) == E.Pipeline(r.o, old(At(r)), left, right, all, io)
      ensures unchanged(this) && unchanged(vars) && unchanged(funcs)
      decreases r.Left(), 2
    {
      hide E.Statement, E.Rejoin, E.PipelineEnd;
      var mine := if r.o.share(r.trace) <= r.Left() then r.o.share(r.trace) else r.Left();
      var pipe := |r.trace|;
      var ls, lcode, lerr, l, _ := Stage(r, r.trace, mine, left, io.(out := ToPipe(pipe)), all);
      var io' := io.(input := FromPipe(pipe), inSet := true);
      var rs, rcode, rerr, rt, _ := Stage(r, ls.trace, r.Left() - mine, right, io', false);
      r.Rejoin(ls, rs, View());
      code, err := PipelineEnd(r, lcode, lerr, rcode, rerr, l, rt);
    }

    /** Which of the two results is the pipeline's. */
    method PipelineEnd(r: Run, lcode: int, lerr: Option<Error>, rcode: int, rerr: Option<Error>,
                       ghost left: Out<int>, ghost right: Out<int>) returns (code: int, err: Option<Error>)
      requires left.err == lerr && left.value == lcode && right.err == rerr && right.value == rcode
      modifies r
      ensures Out(At(r), err, code) == E.PipelineEnd(r.o, old(At(r)), left, right)
    {
      var le, re := Absorb(lerr, Exit), Absorb(rerr, Exit);
      var cancelled := r.IsCancelled(View());
      if cancelled { return 1, Some(Fail(Cancelled)); }
      if re.Some? { return rcode, re; }
      if le.Some? && le != Some(Fail(ClosedPipe)) { return lcode, le; }
      return rcode, None;
    }

    // -------------------------------------------------------------------
    // Simple commands
    // -------------------------------------------------------------------

    /** Prefix assignments; `before` is what they are to be set back to. */
    method Prefix(r: Run, xs: seq<Assign>, io: IO) returns (before: Saved, err: Option<Error>)
      modifies `cwd, vars, funcs, `status, `subStatus, `args, `depth, r
      ensures var p := E.Prefixes(r.o, old(At(r)), xs, map[], io);
              At(r) == p.c && err == p.err &&
              before == p.value.before
      decreases r.Left(), 5, |xs|
    {
      hide E.Assignment;
      before := map[];
      assert xs[0..] == xs;
      for i := 0 to |xs|
        invariant r.Left() <= old(r.Left())
        invariant E.Prefixes(r.o, old(At(r)), xs, map[], io) == E.Prefixes(r.o, At(r), xs[i..], before, io)
      {
        assert xs[i..][0] == xs[i] && xs[i..][1..] == xs[i + 1..];
        var k := xs[i].name;
        if k !in before {
          before := before[k := Get(vars.m, k)];
        }
        err := AssignVar(r, xs[i], true, io);
        if err.Some? { return; }
      }
      err := None;
    }

    /** The saved values that have been put back. */
    static ghost function Back(before: Saved, keys: set<string>): Saved {
      map k | k in before && k !in keys :: before[k]
    }

    static lemma BackOne(vars: Vars, before: Saved, keys: set<string>, k: string)
      requires k in keys && k in before
      ensures E.Restore(vars, Back(before, keys - {k})) ==
              if before[k].isSet || before[k].exported then E.Restore(vars, Back(before, keys))[k := before[k]]
              else E.Restore(vars, Back(before, keys)) - {k}
    {
    }

    /** The deferred restoration, in whatever order the map is walked. */
    method RestoreVars(before: Saved)
      modifies vars
      ensures vars.m == E.Restore(old(vars.m), before)
    {
      hide E.Restore, Back;
      var keys := before.Keys;
      RestoreNothing(vars.m, before);
      while keys != {}
        invariant keys <= before.Keys
        invariant vars.m == E.Restore(old(vars.m), Back(before, keys))
      {
        var k :| k in keys;
        BackOne(old(vars.m), before, keys, k);
        keys := keys - {k};
        if before[k].isSet || before[k].exported {
          vars.m := vars.m[k := before[k]];
        } else {
          vars.m := vars.m - {k};
        }
      }
      RestoreAll(before);
    }

    static lemma RestoreNothing(vars: Vars, before: Saved)
      ensures E.Restore(vars, Back(before, before.Keys)) == vars
    {
      assert Back(before, before.Keys) == map[];
    }

    static lemma RestoreAll(before: Saved)
      ensures Back(before, {}) == before
    {
    }

    method Call(r: Run, assigns: seq<Assign>, argv: seq<string>, io: IO) returns (code: int, err: Option<Error>)
      modifies `cwd, vars, funcs, `status, `subStatus, `args, `depth, r
      ensures Out(At(r), err, code) == E.Call(r.o, old(At(r)), assigns, argv, io)
      decreases r.Left(), 7, 0
    {
      hide E.Assignment, E.Prefixes, E.Invoke, E.Restore;
      if argv == [] {
        assert assigns[0..] == assigns;
        for i := 0 to |assigns|
          invariant r.Left() <= old(r.Left())
          invariant E.Assignments(r.o, old(At(r)), assigns, false, io) ==
              E.Assignments(r.o, At(r), assigns[i..], false, io)
        {
          assert assigns[i..][0] == assigns[i] && assigns[i..][1..] == assigns[i + 1..];
          err := AssignVar(r, assigns[i], false, io);
          if err.Some? { return 1, err; }
        }
        return subStatus, None;
      }
      var before: Saved;
      before, err := Prefix(r, assigns, io);
      if err.Some? {
        code := 1;
      } else {
        code, err := Invoke(r, argv, io);
      }
      RestoreVars(before);
    }

    method CallFunction(r: Run, argv: seq<string>, io: IO) returns (code: int, err: Option<Error>)
      requires argv != [] && argv[0] in funcs.m
      modifies `cwd, vars, funcs, `status, `subStatus, `args, `depth, r
      ensures Out(At(r), err, code) == E.CallFunction(r.o, old(At(r)), argv, io)
      decreases r.Left(), 1
    {
      hide E.Statement;
      if depth >= MAX_DEPTH { return 1, Some(Fail(Limit)); }
      var saved := args;
      args, depth := argv[1..], depth + 1;
      code, err := Statement(r, funcs.m[argv[0]], io, false);
      err := Absorb(err, Return);
      args, depth := saved, depth - 1;
    }

    /** The shell that runs a nested script, with tables of its own. */
    method NestedChild(ghost c: Conf, argv: seq<string>) returns (child: Shell)
      requires c.sh == View() && |argv| >= 3
      ensures fresh(child) && fresh(child.vars) && fresh(child.funcs)
      ensures child.View() == NestedShell(c, argv)
    {
      child := new Shell.New(cwd, Exported(vars.m));
      child.depth := depth + 1;
      child.vars.m := child.vars.m["0" := Variable(argv[0], true, false)];
      if |argv| > 3 {
        child.args := argv[4..];
        child.vars.m := child.vars.m["0" := Variable(argv[3], true, false)];
      }
    }

    method Nested(r: Run, argv: seq<string>, io: IO) returns (code: int, err: Option<Error>)
      requires argv != []
      modifies r
      ensures Out(At(r), err, code) == E.Nested(r.o, old(At(r)), argv, io)
      ensures unchanged(this) && unchanged(vars) && unchanged(funcs)
      decreases r.Left(), 2
    {
      hide E.List, NestedShell;
      if depth >= MAX_DEPTH { return 1, Some(Fail(Limit)); }
      if |argv| < 3 || argv[1] != "-c" {
        var _ := r.Print(io.err, "shale: nested shells support -c SCRIPT", View());
        return 2, None;
      }
      var p := r.o.parse(argv[2]);
      if p.Malformed? { return 2, Some(Fail(p.fault)); }
      var child := NestedChild(At(r), argv);
      r.Log(Entered(argv[2]), child.View());
      code, err := child.Statements(r, p.body, io);
      err := Absorb(err, Exit);
    }

    method Invoke(r: Run, argv: seq<string>, io: IO) returns (code: int, err: Option<Error>)
      requires argv != []
      modifies `cwd, vars, funcs, `status, `subStatus, `args, `depth, r
      ensures Out(At(r), err, code) == E.Invoke(r.o, old(At(r)), argv, io)
      decreases r.Left(), 6
    {
      hide E.CallFunction, E.Nested, S.ChangeDir, S.PrintDir, S.External, X.Run, Without;
      if argv[0] in funcs.m {
        code, err := CallFunction(r, argv, io);
        return;
      }
      var name := argv[0];
      if name == "bash" || name == "sh" {
        code, err := Nested(r, argv, io);
      } else if name == ":" || name == "true" {
        return 0, None;
      } else if name == "false" {
        return 1, None;
      } else if name == "cd" {
        code, err := ChangeDir(r, argv, io);
      } else if name == "pwd" {
        code, err := PrintDir(r, argv, io);
      } else if name == "unset" {
        Unset(r, argv[1..]);
        return 0, None;
      } else if name == "exit" || name == "return" {
        code, err := Leave(r, argv);
      } else if name == "break" || name == "continue" {
        code, err := LoopControl(argv);
      } else if name == "xargs" {
        code, err := Xargs(r, argv[1..], io);
      } else {
        code, err := External(r, argv, io);
      }
    }

    // -------------------------------------------------------------------
    // Builtins and commands outside the shell
    // -------------------------------------------------------------------

    method ChangeDir(r: Run, argv: seq<string>, io: IO) returns (code: int, err: Option<Error>)
      requires argv != []
      modifies `cwd, vars, funcs, `status, `subStatus, `args, `depth, r
      ensures Out(At(r), err, code) == S.ChangeDir(r.o, old(At(r)), argv, io)
    {
      hide Resolve, Clean;
      if |argv| > 2 {
        var _ := r.Print(io.err, "cd: too many arguments", View());
        return 1, None;
      }
      var dest := Get(vars.m, "HOME").text;
      if |argv| == 2 { dest := argv[1]; }
      if dest == "-" { dest := Get(vars.m, "OLDPWD").text; }
      dest := Resolve(cwd, dest);
      var found := r.o.isDir(r.trace, dest);
      r.Log(Looked(dest), View());
      if !found {
        var _ := r.Print(io.err, "cd: cannot enter " + dest, View());
        return 1, None;
      }
      vars.m := vars.m["OLDPWD" := Variable(cwd, true, true)];
      cwd := Clean(dest);
      vars.m := vars.m["PWD" := Variable(cwd, true, true)];
      return 0, None;
    }

    method PrintDir(r: Run, argv: seq<string>, io: IO) returns (code: int, err: Option<Error>)
      requires argv != []
      modifies r
      ensures Out(At(r), err, code) == S.PrintDir(r.o, old(At(r)), argv, io)
    {
      if |argv| > 1 && !(|argv| == 2 && (argv[1] == "-L" || argv[1] == "-P")) { return 2, None; }
      err := r.Print(io.out, cwd, View());
      code := 0;
    }

    method Leave(r: Run, argv: seq<string>) returns (code: int, err: Option<Error>)
      requires argv != []
      ensures Out(At(r), err, code) == S.Leave(r.o, At(r), argv)
    {
      code := status;
      if |argv| > 2 { return 2, Some(Fail(Other)); }
      if |argv| == 2 {
        var n := r.o.atoi(argv[1]);
        if n.None? { return 2, Some(Fail(Other)); }
        code := n.value % 256;
      }
      err := Some(Flow(if argv[0] == "exit" then Exit else Return, code));
    }

    method LoopControl(argv: seq<string>) returns (code: int, err: Option<Error>)
      requires argv != []
      ensures forall c :: Out(c, err, code) == S.LoopControl(c, argv)
    {
      if |argv| != 1 { return 2, Some(Fail(Other)); }
      return 0, Some(Flow(if argv[0] == "break" then Break else Continue, 0));
    }

    /** The search of PATH for an executable in /bin or /usr/bin. */
    method FindIn(r: Run, dirs: seq<string>, name: string) returns (found: bool)
      modifies r
      ensures Out(At(r), None, found) == S.FindIn(r.o, old(At(r)), dirs, name)
    {
      hide Resolve, InBin;
      assert dirs[0..] == dirs;
      for i := 0 to |dirs|
        invariant S.FindIn(r.o, old(At(r)), dirs, name) == S.FindIn(r.o, At(r), dirs[i..], name)
      {
        assert dirs[i..][0] == dirs[i] && dirs[i..][1..] == dirs[i + 1..];
        var p := Resolve(cwd, PathJoin(dirs[i], name));
        if !InBin(p) { continue; }
        found := r.o.executable(r.trace, p);
        r.Log(Looked(p), View());
        if found { return; }
      }
      found := false;
    }

    method Execute(r: Run, argv: seq<string>, io: IO) returns (code: int, err: Option<Error>)
      modifies r
      ensures Out(At(r), err, code) == S.Execute(r.o, old(At(r)), argv, io)
    {
      var env := Exported(vars.m)["PWD" := cwd];
      var (status', fault) := r.o.exec(r.trace, cwd, argv, env, io);
      r.Log(Executed(cwd, argv, env, io), View());
      code, err := status', if fault.None? then None else Some(Fail(fault.value));
    }

    method External(r: Run, argv: seq<string>, io: IO) returns (code: int, err: Option<Error>)
      requires argv != []
      modifies r
      ensures Out(At(r), err, code) == S.External(r.o, old(At(r)), argv, io)
    {
      hide Resolve, InBin, S.FindIn, S.Execute, SplitOn;
      var name := argv[0];
      if '/' in name {
        var p := Resolve(cwd, name);
        if !InBin(p) {
          var _ := r.Print(io.err, p + ": command not found", View());
          return 127, None;
        }
        code, err := Execute(r, [Base(p)] + argv[1..], io);
      } else {
        var found := FindIn(r, SplitOn(Get(vars.m, "PATH").text, ':'), name);
        if !found {
          var _ := r.Print(io.err, name + ": command not found", View());
          return 127, None;
        }
        code, err := Execute(r, argv, io);
      }
    }

    // -------------------------------------------------------------------
    // xargs
    // -------------------------------------------------------------------

    method XargsOptions(r: Run, argv: seq<string>) returns (choice: X.Choice)
      ensures choice == X.ParseOptions(r.o, argv, X.PLAIN)
    {
      hide X.ParseOptions;
      var opts := X.PLAIN;
      var i := 0;
      assert argv[0..] == argv;
      while i < |argv| && "-" <= argv[i] && argv[i] != "-"
        invariant i <= |argv|
        invariant X.ParseOptions(r.o, argv, X.PLAIN) == X.ParseOptions(r.o, argv[i..], opts)
      {
        var a := argv[i];
        X.OptionTurn(r.o, argv[i..], opts);
        assert argv[i..][0] == a && argv[i..][1..] == argv[i + 1..];
        if a == "--" {
          return X.Chosen(opts.(cmd := argv[i + 1..]));
        }
        if "--" <= a {
          if a == "--null" {
            opts := opts.(nul := true);
          } else if a == "--no-run-if-empty" {
            opts := opts.(skipEmpty := true);
          } else if a == "--verbose" {
            opts := opts.(trace := true);
          } else {
            return X.Unsupported(a);
          }
          i := i + 1;
          continue;
        }
        var flag, value := a[..2], a[2..];
        if flag == "-0" {
          opts := opts.(nul := true);
        } else if flag == "-r" {
          opts := opts.(skipEmpty := true);
        } else if flag == "-t" {
          opts := opts.(trace := true);
        } else if flag == "-n" || flag == "-I" {
          if value == "" {
            if i + 1 >= |argv| { return X.Rejected("option requires an argument -- '" + flag[1..] + "'"); }
            i := i + 1;
            value := argv[i];
            assert argv[i..][0] == value && argv[i..][1..] == argv[i + 1..];
          }
          if flag == "-I" {
            opts := opts.(replace := value, per := 1);
            i := i + 1;
            continue;
          }
          var n := r.o.atoi(value);
          if n.None? || n.value <= 0 { return X.Rejected("invalid number for -n option"); }
          opts := opts.(per := n.value);
          value := "";
        } else {
          return X.Unsupported(a);
        }
        if value != "" { return X.Unsupported(a); }
        i := i + 1;
      }
      X.OptionsEnd(r.o, argv[i..], opts);
      choice := X.Chosen(opts.(cmd := argv[i..]));
    }

    /** The items of the input, by the mode the options select. */
    method XargsItems(opts: X.Options, input: string) returns (items: XargsSplit.Items)
      ensures items == X.ItemsOf(opts, input)
    {
      if opts.nul {
        var parts := SplitOn(X.TrimSuffix(input, '\0'), '\0');
        return XargsSplit.Items(if input == "" then [] else parts);
      }
      if opts.replace == "" {
        items := XargsSplit.Split(input);
        return;
      }
      var raw := SplitOn(X.TrimSuffix(input, '\n'), '\n');
      var lines: seq<string> := [];
      assert raw[0..] == raw;
      assert lines + X.Lines(raw) == X.Lines(raw);
      for i := 0 to |raw|
        invariant lines + X.Lines(raw[i..]) == X.Lines(raw)
      {
        assert raw[i..][0] == raw[i] && raw[i..][1..] == raw[i + 1..];
        var line := X.TrimBlanks(raw[i]);
        if line != "" { lines := lines + [line]; }
      }
      assert lines + [] == lines;
      items := XargsSplit.Items(lines);
    }

    method XargsBatches(r: Run, io: IO, trace: bool, cmd: seq<string>, replace: string, per: nat, items0: seq<string>)
      returns (code: int, err: Option<Error>)
      requires cmd != []
      modifies r
      ensures Out(At(r), err, code) == X.RunBatches(r.o, old(At(r)), io, trace, cmd, replace, per, items0, 0)
    {
      hide S.External, S.Step, X.ReplaceAll;
      var status', items, first := 0, items0, true;
      while first || items != []
        invariant X.RunBatches(r.o, old(At(r)), io, trace, cmd, replace, per, items0, 0) ==
                  if first || items != [] then X.RunBatches(r.o, At(r), io, trace, cmd, replace, per, items, status')
                  else Out(At(r), None, status')
        decreases first, |items|
      {
        err := r.Step(depth, View());
        if err.Some? { return 1, err; }
        var batch := items;
        if 0 < per < |items| { batch := items[..per]; }
        items := items[|batch|..];
        var argv := X.Argv(cmd, replace, batch);
        if trace {
          var _ := r.Print(io.err, Spaced(argv), View());
        }
        code, err := External(r, argv, IO(Given(""), io.out, io.err, false));
        if err.Some? { return; }
        if code == 126 || code == 127 { return; }
        if code == 255 {
          var _ := r.Print(io.err, "xargs: " + argv[0] + ": exited with status 255; aborting", View());
          return 124, None;
        }
        if code != 0 { status' := 123; }
        first := false;
      }
      return status', None;
    }

    method Xargs(r: Run, argv: seq<string>, io: IO) returns (code: int, err: Option<Error>)
      modifies r
      ensures Out(At(r), err, code) == X.Run(r.o, old(At(r)), argv, io)
    {
      hide X.ParseOptions, X.ItemsOf, X.RunBatches;
      var choice := XargsOptions(r, argv);
      if choice.Rejected? {
        var _ := r.Print(io.err, "xargs: " + choice.message, View());
        return 1, None;
      }
      var opts := choice.options;
      var (input, fault) := r.o.read(r.trace, io.input);
      r.Log(Consumed(io.input), View());
      if fault.Some? { return 1, Some(Fail(fault.value)); }
      if |input| > MAX_SCRIPT { return 1, Some(Fail(Limit)); }
      var items := XargsItems(opts, input);
      if items.Bad? {
        var _ := r.Print(io.err, "xargs: " + X.FaultText(items.fault), View());
        return 1, None;
      }
      if items.items == [] && opts.skipEmpty { return 0, None; }
      code, err := XargsBatches(r, io, opts.trace, X.Command(opts), opts.replace, opts.per, items.items);
    }

    // -------------------------------------------------------------------
    // A whole run
    // -------------------------------------------------------------------

    method RunScript(o: Oracle, src: string, io: IO, maxSteps: nat)
      returns (code: int, err: Option<Error>, ghost w: World)
      modifies this, vars, funcs
      ensures Finished(code, err, exited, View(), w) == E.Run(o, old(View()), src, io, maxSteps)
      ensures old(depth) <= MAX_DEPTH ==>
                Sound.Starts(w.trace) <= maxSteps && Sound.OpenFiles(w.trace) == Some([]) &&
                args == old(args) && depth == old(depth)
    {
      if depth <= MAX_DEPTH { Sound.RunIsSound(o, View(), src, io, maxSteps); }
      exited := false;
      var r := new Run(o, maxSteps);
      w := r.W();
      assert At(r) == Conf(old(View()), World([], maxSteps, false));
      var p := o.parse(src);
      if p.Malformed? { return 2, Some(Fail(p.fault)), w; }
      code, err := Statements(r, p.body, io);
      w := r.W();
      if err.Some? && err.value.Flow? && err.value.kind == Exit {
        exited := true;
        code, err := err.value.code, None;
      }
    }
  }
}
