/** The interpreter as functions: what a statement does to the state of the shell
    and to the world.  Every function that starts statements consumes steps, so
    the recursion ends on the steps that remain, then on the syntax. */
module ShellEval {
  import opened Store
  import opened ShellSyntax
  import opened ShellState
  import Xargs

  // ---------------------------------------------------------------------
  // Expansion
  // ---------------------------------------------------------------------

  function Substitute(o: Oracle, c: Conf, body: seq<Stmt>, io: IO): (r: Out<seq<string>>)
    ensures r.c.w.left <= c.w.left
    decreases c.w.left, 2
  {
    if c.sh.depth >= MAX_DEPTH then Out(c, Some(Fail(Limit)), [])
    else
      var child := c.(sh := c.sh.(depth := c.sh.depth + 1));
      var r := List(o, child, body, IO(io.input, Captured(|c.w.trace|), io.err, io.inSet), 0);
      var c' := r.c.(sh := c.sh.(subStatus := r.value));
      var text := o.capture(c.w.trace, r.c.w.trace);
      if text.None? then Out(c', Some(Fail(Limit)), [])
      else Out(c', Absorb(r.err, Exit), [text.value])
  }

  function ExpandPart(o: Oracle, c: Conf, p: Part, io: IO): (r: Out<seq<string>>)
    ensures r.c.w.left <= c.w.left
    decreases c.w.left, 3, p
  {
    match p
    case Lit(text) => Out(c, None, [text])
    case Var(name) => Out(c, None, Lookup(o, c.sh, name))
    case Default(name, word) =>
      var v := Spaced(Lookup(o, c.sh, name));
      if v != "" && !o.eager then Out(c, None, [v])
      else
        var r := Expand(o, c, word, io);
        if r.err.Some? then Out(r.c, r.err, [])
        else if v != "" then Out(r.c, None, [v])
        else
          var s := Set(r.c, name, Variable(Glued(r.value), true, false));
          Out(s.c, s.err, [Glued(r.value)])
    case Subst(body) => Substitute(o, c, body, io)
  }

  /** The values of the parts of a word. */
  function Expand(o: Oracle, c: Conf, word: seq<Part>, io: IO): (r: Out<seq<seq<string>>>)
    ensures r.c.w.left <= c.w.left
    decreases c.w.left, 3, word
  {
    if word == [] then Out(c, None, [])
    else
      var p := ExpandPart(o, c, word[0], io);
      if p.err.Some? then Out(p.c, p.err, [])
      else
        var r := Expand(o, p.c, word[1..], io);
        Out(r.c, r.err, [p.value] + r.value)
  }

  function FieldsOf(o: Oracle, c: Conf, word: seq<Part>, values: seq<seq<string>>): seq<string> {
    if IsLiteral(word) && word != [] then [LiteralText(word)] else o.split(c.w.trace, c.sh, word, values)
  }

  function Size(fields: seq<string>): nat {
    if fields == [] then 0 else Size(fields[..|fields| - 1]) + |fields[|fields| - 1]|
  }

  /** Fields are accepted one by one, within the limits. */
  function Admit(o: Oracle, c: Conf, fields: seq<string>, acc: seq<string>): (r: Out<seq<string>>)
    ensures r.c.w.left == c.w.left
    decreases |fields|
  {
    if fields == [] then Out(c, None, acc)
    else
      var p := Poll(o, c);
      if p.value then Out(p.c, Some(Fail(Cancelled)), [])
      else if |acc| >= MAX_FIELDS || Size(acc) + |fields[0]| > MAX_EXPANSION then Out(p.c, Some(Fail(Limit)), [])
      else Admit(o, p.c, fields[1..], acc + [fields[0]])
  }

  function Fields(o: Oracle, c: Conf, words: seq<Word>, io: IO, acc: seq<string>): (r: Out<seq<string>>)
    ensures r.c.w.left <= c.w.left
    decreases c.w.left, 4, |words|
  {
    if words == [] then Out(c, None, acc)
    else
      var e := Expand(o, c, words[0].parts, io);
      if e.err.Some? then Out(e.c, e.err, [])
      else
        var a := Admit(o, e.c, FieldsOf(o, e.c, words[0].parts, e.value), acc);
        if a.err.Some? then a else Fields(o, a.c, words[1..], io, a.value)
  }

  function Assignment(o: Oracle, c: Conf, a: Assign, export_: bool, io: IO): (r: Out<int>)
    ensures r.c.w.left <= c.w.left
    decreases c.w.left, 4, 0
  {
    var e := Expand(o, c, a.value, io);
    if e.err.Some? then Out(e.c, e.err, 1)
    else
      var text := if a.append then Get(e.c.sh.vars, a.name).text + Glued(e.value) else Glued(e.value);
      Set(e.c, a.name, Variable(text, true, export_))
  }

  /** Assignments in order, up to the first that fails. */
  function Assignments(o: Oracle, c: Conf, xs: seq<Assign>, export_: bool, io: IO): (r: Out<int>)
    ensures r.c.w.left <= c.w.left
    decreases c.w.left, 5, |xs|
  {
    if xs == [] then Out(c, None, 0)
    else
      var a := Assignment(o, c, xs[0], export_, io);
      if a.err.Some? then Out(a.c, a.err, 1) else Assignments(o, a.c, xs[1..], export_, io)
  }

  function Exports(o: Oracle, c: Conf, xs: seq<Exportable>, io: IO): (r: Out<int>)
    ensures r.c.w.left <= c.w.left
    decreases c.w.left, 5, |xs|
  {
    if xs == [] then Out(c, None, 0)
    else if xs[0].Dynamic? then Out(c, Some(Fail(Other)), 2)
    else
      var a := xs[0].assign;
      if a.naked then
        Exports(o, c.(sh := c.sh.(vars := c.sh.vars[a.name := Get(c.sh.vars, a.name).(exported := true)])), xs[1..], io)
      else
        var r := Assignment(o, c, a, true, io);
        if r.err.Some? then Out(r.c, r.err, 1) else Exports(o, r.c, xs[1..], io)
  }

  // ---------------------------------------------------------------------
  // Redirection
  // ---------------------------------------------------------------------

  datatype Redirected = Redirected(io: IO, closers: seq<nat>)

  function WithOut(io: IO, op: RedirOp, fd: int, w: Sink): Option<IO> {
    if op == WriteAll || op == AppendAll then Some(io.(out := w, err := w))
    else if fd == 1 then Some(io.(out := w))
    else if fd == 2 then Some(io.(err := w))
    else None
  }

  /** A file opened for a redirection; it is to be closed even when it turns out
      unusable. */
  function OpenTarget(o: Oracle, c: Conf, rd: Redir, path: string, io: IO): (r: Out<Redirected>)
    ensures r.c.w.left == c.w.left
  {
    var f := o.open(c.w.trace, path, rd.op);
    var h := |c.w.trace|;
    var c1 := Log(c, Opened(path, rd.op, !f.Refused?));
    if f.Refused? then Out(c1, Some(Fail(f.fault)), Redirected(io, []))
    else if rd.op == ReadFrom then
      if rd.fd != 0 then Out(c1, Some(Fail(Other)), Redirected(io, [h]))
      else Out(c1, None, Redirected(io.(input := FromFile(h), inSet := true), [h]))
    else if f.Reader? then Out(c1, Some(Fail(Other)), Redirected(io, [h]))
    else
      var io' := WithOut(io, rd.op, rd.fd, ToFile(h));
      if io'.None? then Out(c1, Some(Fail(Other)), Redirected(io, [h]))
      else Out(c1, None, Redirected(io'.value, [h]))
  }

  function DupTarget(io: IO, name: string): Option<Sink> {
    if name == "1" then Some(io.out)
    else if name == "2" then Some(io.err)
    else if name == "-" then Some(NoSink)
    else None
  }

  function RedirectOne(o: Oracle, c: Conf, rd: Redir, io: IO): (r: Out<Redirected>)
    ensures r.c.w.left <= c.w.left
    decreases c.w.left, 5, 0
  {
    var none := Redirected(io, []);
    if rd.op == HereDoc || rd.op == HereString then
      var e := Expand(o, c, rd.word, io);
      var text := if e.err.None? then Glued(e.value) else "";
      if e.err.Some? then Out(e.c, e.err, none)
      else if |text| > MAX_EXPANSION then Out(e.c, Some(Fail(Limit)), none)
      else if rd.op == HereString && |text| == MAX_EXPANSION then Out(e.c, Some(Fail(Limit)), none)
      else
        var body := if rd.op == HereString then text + "\n" else text;
        Out(e.c, None, Redirected(io.(input := Given(body), inSet := true), []))
    else
      var f := Fields(o, c, [Word(rd.word)], io, []);
      if f.err.Some? then Out(f.c, f.err, none)
      else if |f.value| != 1 then Out(f.c, Some(Fail(Other)), none)
      else if rd.op == DupOut then
        var w := DupTarget(io, f.value[0]);
        var io' := if w.None? then None else WithOut(io, DupOut, rd.fd, w.value);
        if io'.None? then Out(f.c, Some(Fail(Other)), none) else Out(f.c, None, Redirected(io'.value, []))
      else OpenTarget(o, f.c, rd, Resolving.Resolve(f.c.sh.cwd, f.value[0]), io)
  }

  /** Redirections in order; the result names what is to be closed, even when one fails. */
  function Redirect(o: Oracle, c: Conf, rs: seq<Redir>, io: IO, closers: seq<nat>): (r: Out<Redirected>)
    ensures r.c.w.left <= c.w.left
    decreases c.w.left, 6, |rs|
  {
    if rs == [] then Out(c, None, Redirected(io, closers))
    else
      var r := RedirectOne(o, c, rs[0], io);
      var all := closers + r.value.closers;
      if r.err.Some? then Out(r.c, r.err, Redirected(io, all)) else Redirect(o, r.c, rs[1..], r.value.io, all)
  }

  /** Closing, last opened first; a failure to close is reported unless there is
      a more serious error already. */
  function CloseAll(o: Oracle, c: Conf, closers: seq<nat>, err: Option<Error>, code: int): (r: Out<int>)
    ensures r.c.w.left == c.w.left
    decreases |closers|
  {
    if closers == [] then Out(c, err, code)
    else
      var h := closers[|closers| - 1];
      var c1 := Log(c, Event.Closed(h));
      var rest := closers[..|closers| - 1];
      if o.closeFails(c.w.trace, h) && (err.None? || err.value.Flow?) then CloseAll(o, c1, rest, Some(Fail(Other)), 1)
      else CloseAll(o, c1, rest, err, code)
  }

  // ---------------------------------------------------------------------
  // Statements and commands
  // ---------------------------------------------------------------------

  function List(o: Oracle, c: Conf, xs: seq<Stmt>, io: IO, code: int): (r: Out<int>)
    ensures r.c.w.left <= c.w.left
    decreases c.w.left, 1, |xs|
  {
    if xs == [] then Out(c, None, code)
    else
      var s := Statement(o, c, xs[0], io, false);
      var c1 := s.c.(sh := s.c.sh.(status := s.value));
      if s.err.Some? then Out(c1, s.err, s.value) else List(o, c1, xs[1..], io, s.value)
  }

  /** A failed redirection is a message and a status, unless the run must end. */
  function Complain(o: Oracle, c: Conf, e: Error, io: IO): (r: Out<int>)
    ensures r.c.w.left == c.w.left
  {
    if e == Fail(Limit) then Out(c, Some(e), 1)
    else
      var p := Poll(o, c);
      if p.value then Out(p.c, Some(e), 1) else Say(o, p.c, io.err, "shale: redirection failed", 1)
  }

  function Negate(x: Stmt, r: Out<int>): int {
    if x.negated && r.err.None? then (if r.value == 0 then 1 else 0) else r.value
  }

  /** A statement whose step has been taken. */
  function Perform(o: Oracle, c: Conf, x: Stmt, io: IO, all: bool): (r: Out<int>)
    ensures r.c.w.left <= c.w.left
    decreases c.w.left, 9
  {
    var c1 := c.(sh := c.sh.(subStatus := 0));
    var f := if x.cmd.Simple? then Fields(o, c1, x.cmd.words, io, []) else Out(c1, None, []);
    if f.err.Some? then Out(f.c, f.err, 1)
    else
      var r := Redirect(o, f.c, x.redirs, io, []);
      var d := if r.err.Some? then Complain(o, r.c, r.err.value, io)
          else CommandLine(o, r.c, x, f.value, r.value.io, all);
      CloseAll(o, d.c, r.value.closers, d.err, d.value)
  }

  /** The command itself, its words expanded and its redirections in place. */
  function CommandLine(o: Oracle, c: Conf, x: Stmt, args: seq<string>, io: IO, all: bool): (r: Out<int>)
    ensures r.c.w.left <= c.w.left
    decreases c.w.left, 8
  {
    var io' := if all then io.(err := io.out) else io;
    var k := if x.cmd.Simple? then Call(o, c, x.cmd.assigns, args, io') else Command(o, c, x.cmd, io');
    var code := Negate(x, k);
    Out(k.c.(sh := k.c.sh.(status := code)), k.err, code)
  }

  function Statement(o: Oracle, c: Conf, x: Stmt, io: IO, all: bool): (r: Out<int>)
    ensures r.c.w.left <= c.w.left
    decreases c.w.left, 0
  {
    var s := Step(o, c);
    if s.err.Some? then Out(s.c, s.err, 1) else Perform(o, s.c, x, io, all)
  }

  function Command(o: Oracle, c: Conf, x: Cmd, io: IO): (r: Out<int>)
    ensures r.c.w.left <= c.w.left
    decreases c.w.left, 7, x
  {
    match x
    case Empty => Out(c, None, c.sh.subStatus)
    case Simple(_, _) => Out(c, Some(Fail(Other)), 2)
    case Block(body) => List(o, c, body, io, 0)
    case Subshell(body) =>
      var r := List(o, c, body, io, 0);
      Out(r.c.(sh := c.sh), Absorb(r.err, Exit), r.value)
    case Pipe(left, right, all) => Pipeline(o, c, left, right, all, io)
    case AndOr(isAnd, first, second) =>
      var r := Statement(o, c, first, io, false);
      if r.err.None? && isAnd == (r.value == 0) then Statement(o, r.c, second, io, false) else r
    case If(cond, thn, els) =>
      var r := List(o, c, cond, io, 0);
      if r.err.Some? then r
      else if r.value == 0 then List(o, r.c, thn, io, 0)
      else if els.Some? then Command(o, r.c, els.value, io)
      else Out(r.c, None, 0)
    case For(name, overArgs, items, body) =>
      var f := if overArgs then Out(c, None, c.sh.args) else Fields(o, c, items, io, []);
      if f.err.Some? then Out(f.c, f.err, 1) else ForLoop(o, f.c, name, f.value, body, io, 0)
    case While(cond, body, until) => WhileLoop(o, c, cond, body, until, io, 0)
    case Func(name, fbody) =>
      if |c.sh.funcs| >= MAX_FUNCS then Out(c, Some(Fail(Limit)), 1)
      else Out(c.(sh := c.sh.(funcs := c.sh.funcs[name := fbody])), None, 0)
    case Export(xs) => Exports(o, c, xs, io)
  }

  function ForLoop(o: Oracle, c: Conf, name: string, items: seq<string>, body: seq<Stmt>, io: IO,
                   code: int): (r: Out<int>)
    ensures r.c.w.left <= c.w.left
    decreases c.w.left, 2, |items|
  {
    if items == [] then Out(c, None, code)
    else
      var s := Step(o, c);
      if s.err.Some? then Out(s.c, s.err, 1)
      else
        var v := Set(s.c, name, Variable(items[0], true, false));
        if v.err.Some? then Out(v.c, v.err, 1)
        else
          var r := List(o, v.c, body, io, 0);
          if r.err.Some? && r.err.value.Flow? && r.err.value.kind == Break then Out(r.c, None, 0)
          else if Absorb(r.err, Continue).Some? then r
          else ForLoop(o, r.c, name, items[1..], body, io, r.value)
  }

  function WhileLoop(o: Oracle, c: Conf, cond: seq<Stmt>, body: seq<Stmt>, until: bool, io: IO,
                     code: int): (r: Out<int>)
    ensures r.c.w.left <= c.w.left
    decreases c.w.left, 2
  {
    var s := Step(o, c);
    if s.err.Some? then Out(s.c, s.err, 1)
    else
      var t := List(o, s.c, cond, io, 0);
      if t.err.Some? then t
      else if (t.value == 0) == until then Out(t.c, None, code)
      else
        var r := List(o, t.c, body, io, 0);
        if r.err.Some? && r.err.value.Flow? && r.err.value.kind == Break then Out(r.c, None, 0)
        else if Absorb(r.err, Continue).Some? then r
        else WhileLoop(o, r.c, cond, body, until, io, r.value)
  }

  // ---------------------------------------------------------------------
  // Pipelines
  // ---------------------------------------------------------------------

  /** The budget of the stages together again. */
  function Rejoin(c: Conf, left: World, right: World): Conf {
    var overdrawn := left.overdrawn || right.overdrawn;
    Conf(c.sh, World(right.trace, if overdrawn then 0 else left.left + right.left, overdrawn))
  }

  /** Both stages run on copies of the shell.  They take their steps from one
      counter: whatever the interleaving, the left one gets some share of the
      steps that remain and the right one the others. */
  function Pipeline(o: Oracle, c: Conf, left: Stmt, right: Stmt, all: bool, io: IO): (r: Out<int>)
    ensures r.c.w.left <= c.w.left
    decreases c.w.left, 2
  {
    var mine := if o.share(c.w.trace) <= c.w.left then o.share(c.w.trace) else c.w.left;
    var l := Statement(o, c.(w := c.w.(left := mine)), left, io.(out := ToPipe(|c.w.trace|)), all);
    var r := Statement(o, Conf(c.sh, World(l.c.w.trace, c.w.left - mine, c.w.overdrawn)), right,
                       io.(input := FromPipe(|c.w.trace|), inSet := true), false);
    PipelineEnd(o, Rejoin(c, l.c.w, r.c.w), l, r)
  }

  /** Which of the two results is the pipeline's. */
  function PipelineEnd(o: Oracle, c: Conf, l: Out<int>, r: Out<int>): (out: Out<int>)
    ensures out.c.w.left == c.w.left
  {
    var p := Poll(o, c);
    var le, re := Absorb(l.err, Exit), Absorb(r.err, Exit);
    if p.value then Out(p.c, Some(Fail(Cancelled)), 1)
    else if re.Some? then Out(p.c, re, r.value)
    else if le.Some? && le != Some(Fail(ClosedPipe)) then Out(p.c, le, l.value)
    else Out(p.c, None, r.value)
  }

  // ---------------------------------------------------------------------
  // Simple commands
  // ---------------------------------------------------------------------

  /** What the assigned variables are to be set back to: their values just before
      each was first assigned. */
  type Saved = map<string, Variable>

  function Restore(vars: Vars, before: Saved): Vars {
    map k | k in vars.Keys + before.Keys && (k in before ==> before[k].isSet || before[k].exported) ::
      if k in before then before[k] else vars[k]
  }

  datatype Prefixed = Prefixed(before: Saved, code: int)

  function Prefixes(o: Oracle, c: Conf, xs: seq<Assign>, before: Saved, io: IO): (r: Out<Prefixed>)
    ensures r.c.w.left <= c.w.left
    decreases c.w.left, 5, |xs|
  {
    if xs == [] then Out(c, None, Prefixed(before, 0))
    else
      var k := xs[0].name;
      var before' := if k in before then before else before[k := Get(c.sh.vars, k)];
      var a := Assignment(o, c, xs[0], true, io);
      if a.err.Some? then Out(a.c, a.err, Prefixed(before', 1)) else Prefixes(o, a.c, xs[1..], before', io)
  }

  function Call(o: Oracle, c: Conf, assigns: seq<Assign>, args: seq<string>, io: IO): (r: Out<int>)
    ensures r.c.w.left <= c.w.left
    decreases c.w.left, 7, 0
  {
    if args == [] then
      var a := Assignments(o, c, assigns, false, io);
      if a.err.Some? then Out(a.c, a.err, 1) else Out(a.c, None, a.c.sh.subStatus)
    else
      var p := Prefixes(o, c, assigns, map[], io);
      var r := if p.err.Some? then Out(p.c, p.err, 1) else Invoke(o, p.c, args, io);
      Out(r.c.(sh := r.c.sh.(vars := Restore(r.c.sh.vars, p.value.before))), r.err, r.value)
  }

  function CallFunction(o: Oracle, c: Conf, args: seq<string>, io: IO): (r: Out<int>)
    requires args != [] && args[0] in c.sh.funcs
    ensures r.c.w.left <= c.w.left
    decreases c.w.left, 1
  {
    if c.sh.depth >= MAX_DEPTH then Out(c, Some(Fail(Limit)), 1)
    else
      var c1 := c.(sh := c.sh.(args := args[1..], depth := c.sh.depth + 1));
      var r := Statement(o, c1, c.sh.funcs[args[0]], io, false);
      Out(r.c.(sh := r.c.sh.(args := c.sh.args, depth := r.c.sh.depth - 1)), Absorb(r.err, Return), r.value)
  }

  /** The shell that sh -c runs its script in. */
  function NestedShell(c: Conf, args: seq<string>): Sh
    requires |args| >= 3
  {
    var sh := NewShell(c.sh.cwd, Exported(c.sh.vars));
    var zero := Variable(if |args| > 3 then args[3] else args[0], true, false);
    sh.(depth := c.sh.depth + 1, args := if |args| > 3 then args[4..] else [], vars := sh.vars["0" := zero])
  }

  function Nested(o: Oracle, c: Conf, args: seq<string>, io: IO): (r: Out<int>)
    requires args != []
    ensures r.c.w.left <= c.w.left
    decreases c.w.left, 2
  {
    if c.sh.depth >= MAX_DEPTH then Out(c, Some(Fail(Limit)), 1)
    else if |args| < 3 || args[1] != "-c" then Say(o, c, io.err, "shale: nested shells support -c SCRIPT", 2)
    else
      var p := o.parse(args[2]);
      if p.Malformed? then Out(c, Some(Fail(p.fault)), 2)
      else
        var r := List(o, Log(c.(sh := NestedShell(c, args)), Entered(args[2])), p.body, io, 0);
        Out(r.c.(sh := c.sh), Absorb(r.err, Exit), r.value)
  }

  /** The builtins that never run statements. */
  function Builtin(o: Oracle, c: Conf, args: seq<string>, io: IO): (r: Out<int>)
    requires args != []
    ensures r.c.w.left <= c.w.left
  {
    var name := args[0];
    if name == ":" || name == "true" then Out(c, None, 0)
    else if name == "false" then Out(c, None, 1)
    else if name == "cd" then ChangeDir(o, c, args, io)
    else if name == "pwd" then PrintDir(o, c, args, io)
    else if name == "unset" then Out(c.(sh := c.sh.(vars := Without(c.sh.vars, args[1..]))), None, 0)
    else if name == "exit" || name == "return" then Leave(o, c, args)
    else if name == "break" || name == "continue" then LoopControl(c, args)
    else if name == "xargs" then Xargs.Run(o, c, args[1..], io)
    else External(o, c, args, io)
  }

  function Invoke(o: Oracle, c: Conf, args: seq<string>, io: IO): (r: Out<int>)
    requires args != []
    ensures r.c.w.left <= c.w.left
    decreases c.w.left, 6
  {
    if args[0] in c.sh.funcs then CallFunction(o, c, args, io)
    else if args[0] == "bash" || args[0] == "sh" then Nested(o, c, args, io)
    else Builtin(o, c, args, io)
  }

  // ---------------------------------------------------------------------
  // A whole run
  // ---------------------------------------------------------------------

  datatype Finished = Finished(code: int, err: Option<Error>, exited: bool, sh: Sh, w: World)

  function Run(o: Oracle, sh: Sh, src: string, io: IO, maxSteps: nat): Finished {
    var w := World([], maxSteps, false);
    var p := o.parse(src);
    if p.Malformed? then Finished(2, Some(Fail(p.fault)), false, sh, w)
    else
      var r := List(o, Conf(sh, w), p.body, io, 0);
      if r.err.Some? && r.err.value.Flow? && r.err.value.kind == Exit
      then Finished(r.err.value.code, None, true, r.c.sh, r.c.w)
      else Finished(r.value, r.err, false, r.c.sh, r.c.w)
  }
}
