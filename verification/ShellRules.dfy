/** The language by rules: for every construct, from what its parts do what it
    does.  A derivation is a tree of conclusions, each of which follows by a rule
    from those below it.  The evaluator computes exactly what can be derived. */
module ShellRules {
  import opened Store
  import opened ShellSyntax
  import opened ShellState
  import opened ShellEval
  import Resolving
  import Xargs

  /** What is evaluated.  `last` is the status so far, `got` the fields so far. */
  datatype Goal =
    | OfPart(p: Part)
    | OfWord(word: seq<Part>)
    | OfFields(words: seq<Word>, got: seq<string>)
    | OfAssign(a: Assign, export_: bool)
    | OfAssigns(xs: seq<Assign>, export_: bool)
    | OfExports(exports: seq<Exportable>)
    | OfRedir(rd: Redir)
    | OfRedirs(rs: seq<Redir>, open: seq<nat>)
    | OfList(stmts: seq<Stmt>, last: int)
    | OfStmt(x: Stmt, all: bool)
    | OfLine(x: Stmt, args: seq<string>, all: bool)
    | OfCmd(cmd: Cmd)
    | OfFor(name: string, items: seq<string>, body: seq<Stmt>, last: int)
    | OfWhile(cond: seq<Stmt>, body: seq<Stmt>, until: bool, last: int)
    | OfPrefix(xs: seq<Assign>, before: Saved)
    | OfCall(xs: seq<Assign>, args: seq<string>)
    | OfInvoke(args: seq<string>)

  datatype Value =
    | Status(code: int)
    | Texts(parts: seq<seq<string>>)
    | Text(part: seq<string>)
    | Words(fields: seq<string>)
    | Streams(io: IO, files: seq<nat>)
    | Kept(before: Saved, code: int)

  type Outcome = Out<Value>

  /** From this configuration, with these streams, the goal has this outcome. */
  datatype Judgment = Judgment(goal: Goal, io: IO, c: Conf, out: Outcome)

  datatype Tree = Tree(j: Judgment, from: seq<Tree>)

  function Roots(ts: seq<Tree>): seq<Judgment> { seq(|ts|, i requires 0 <= i < |ts| => ts[i].j) }

  predicate Asks(p: Judgment, goal: Goal, io: IO, c: Conf) { p.goal == goal && p.io == io && p.c == c }

  predicate Ends(j: Judgment, c: Conf, err: Option<Error>, code: int) { j.out == Out(c, err, Status(code)) }

  function OfCode(r: Out<int>): Outcome { Out(r.c, r.err, Status(r.value)) }

  /** The status is remembered. */
  function Marked(c: Conf, code: int): Conf { c.(sh := c.sh.(status := code)) }

  predicate IsStatus(p: Judgment) { p.out.value.Status? }

  // ---------------------------------------------------------------------
  // Lists and statements
  // ---------------------------------------------------------------------

  /** A list: its statements in order, up to the first that ends with an error. */
  predicate ListRule(j: Judgment, xs: seq<Stmt>, last: int, ps: seq<Judgment>) {
    if xs == [] then ps == [] && Ends(j, j.c, None, last)
    else
      && ps != [] && Asks(ps[0], OfStmt(xs[0], false), j.io, j.c) && IsStatus(ps[0])
      && var r := ps[0].out;
         var after := Marked(r.c, r.value.code);
         if r.err.Some? then |ps| == 1 && Ends(j, after, r.err, r.value.code)
         else |ps| == 2 && Asks(ps[1], OfList(xs[1..], r.value.code), j.io, after) && j.out == ps[1].out
  }

  /** A statement takes a step.  A redirection that fails is a message and a status,
      unless a limit or the cancelling of the run made it fail.  The words of a simple command are expanded, then
      the redirections made, then the command run; in the end the files opened
      for it are closed, the last first. */
  predicate StmtRule(o: Oracle, j: Judgment, x: Stmt, all: bool, ps: seq<Judgment>) {
    var s := Step(o, j.c);
    if s.err.Some? then ps == [] && Ends(j, s.c, s.err, 1)
    else
      var c1 := s.c.(sh := s.c.sh.(subStatus := 0));
      if x.cmd.Simple? then
        && ps != [] && Asks(ps[0], OfFields(x.cmd.words, []), j.io, c1)
        && var f := ps[0].out;
           if f.err.Some? then |ps| == 1 && Ends(j, f.c, f.err, 1)
           else f.value.Words? && RedirectedRule(o, j, f.c, x, f.value.fields, all, ps[1..])
      else RedirectedRule(o, j, c1, x, [], all, ps)
  }

  predicate RedirectedRule(o: Oracle, j: Judgment, c: Conf, x: Stmt, args: seq<string>, all: bool, ps: seq<Judgment>) {
    && ps != [] && Asks(ps[0], OfRedirs(x.redirs, []), j.io, c) && ps[0].out.value.Streams?
    && var r := ps[0].out;
       if r.err.Some? then
         && |ps| == 1
         && if r.err.value == Fail(Limit) then ClosedRule(o, j, r.c, r.value.files, r.err, 1)
            else if o.cancelled(r.c.w.trace) then ClosedRule(o, j, Log(r.c, Polled), r.value.files, r.err, 1)
            else
              var said := Printed(j.io.err, "shale: redirection failed");
              ClosedRule(o, j, Log(Log(r.c, Polled), said), r.value.files, None, 1)
       else
         && |ps| == 2 && Asks(ps[1], OfLine(x, args, all), r.value.io, r.c) && IsStatus(ps[1])
         && ClosedRule(o, j, ps[1].out.c, r.value.files, ps[1].out.err, ps[1].out.value.code)
  }

  predicate ClosedRule(o: Oracle, j: Judgment, c: Conf, files: seq<nat>, err: Option<Error>, code: int) {
    var d := CloseAll(o, c, files, err, code);
    Ends(j, d.c, d.err, d.value)
  }

  /** The command under its redirections: |& joins its errors to its output, and ! turns a
      status of zero into one and any other into zero, unless there is an error. */
  predicate LineRule(j: Judgment, x: Stmt, args: seq<string>, all: bool, ps: seq<Judgment>) {
    && |ps| == 1 && IsStatus(ps[0])
    && Asks(ps[0], if x.cmd.Simple? then OfCall(x.cmd.assigns, args) else OfCmd(x.cmd),
            IO(j.io.input, j.io.out, if all then j.io.out else j.io.err, j.io.inSet), j.c)
    && var r := ps[0].out;
       var code := if !x.negated || r.err.Some? then r.value.code else if r.value.code == 0 then 1 else 0;
       Ends(j, Marked(r.c, code), r.err, code)
  }

  // ---------------------------------------------------------------------
  // Compound commands
  // ---------------------------------------------------------------------

  predicate CmdRule(o: Oracle, j: Judgment, x: Cmd, ps: seq<Judgment>) {
    match x
    case Empty => ps == [] && Ends(j, j.c, None, j.c.sh.subStatus)
    case Simple(_, _) => ps == [] && Ends(j, j.c, Some(Fail(Other)), 2)
    case Block(body) => |ps| == 1 && Asks(ps[0], OfList(body, 0), j.io, j.c) && j.out == ps[0].out
    case Subshell(body) => SubshellRule(j, body, ps)
    case Pipe(left, right, all) => PipeRule(o, j, left, right, all, ps)
    case AndOr(isAnd, first, second) => if isAnd then AndRule(j, first, second, ps) else OrRule(j, first, second, ps)
    case If(cond, thn, els) => IfRule(j, cond, thn, els, ps)
    case For(name, overArgs, items, body) =>
      if overArgs then |ps| == 1 && Asks(ps[0], OfFor(name, j.c.sh.args, body, 0), j.io, j.c) && j.out == ps[0].out
      else ForRule(j, name, items, body, ps)
    case While(cond, body, until) =>
      |ps| == 1 && Asks(ps[0], OfWhile(cond, body, until, 0), j.io, j.c) && j.out == ps[0].out
    case Func(name, fbody) =>
      && ps == []
      && if |j.c.sh.funcs| >= MAX_FUNCS then Ends(j, j.c, Some(Fail(Limit)), 1)
         else Ends(j, j.c.(sh := j.c.sh.(funcs := j.c.sh.funcs[name := fbody])), None, 0)
    case Export(xs) => |ps| == 1 && Asks(ps[0], OfExports(xs), j.io, j.c) && j.out == ps[0].out
  }

  /** A subshell: the list runs, the shell is as before, and an exit ends only it. */
  predicate SubshellRule(j: Judgment, body: seq<Stmt>, ps: seq<Judgment>) {
    && |ps| == 1 && Asks(ps[0], OfList(body, 0), j.io, j.c) && IsStatus(ps[0])
    && var r := ps[0].out;
       Ends(j, Conf(j.c.sh, r.c.w), if r.err.Some? && IsExit(r.err.value) then None else r.err, r.value.code)
  }

  predicate IsExit(e: Error) { e.Flow? && e.kind == Exit }

  /** `first && second`: the second runs exactly when the first succeeds. */
  predicate AndRule(j: Judgment, first: Stmt, second: Stmt, ps: seq<Judgment>) {
    && ps != [] && Asks(ps[0], OfStmt(first, false), j.io, j.c) && IsStatus(ps[0])
    && var r := ps[0].out;
       if r.err.None? && r.value.code == 0
       then |ps| == 2 && Asks(ps[1], OfStmt(second, false), j.io, r.c) && j.out == ps[1].out
       else |ps| == 1 && j.out == r
  }

  /** `first || second`: the second runs exactly when the first fails. */
  predicate OrRule(j: Judgment, first: Stmt, second: Stmt, ps: seq<Judgment>) {
    && ps != [] && Asks(ps[0], OfStmt(first, false), j.io, j.c) && IsStatus(ps[0])
    && var r := ps[0].out;
       if r.err.None? && r.value.code != 0
       then |ps| == 2 && Asks(ps[1], OfStmt(second, false), j.io, r.c) && j.out == ps[1].out
       else |ps| == 1 && j.out == r
  }

  /** A conditional: a status of zero selects the then part, any other the else
      part, and without one the status is zero. */
  predicate IfRule(j: Judgment, cond: seq<Stmt>, thn: seq<Stmt>, els: Option<Cmd>, ps: seq<Judgment>) {
    && ps != [] && Asks(ps[0], OfList(cond, 0), j.io, j.c) && IsStatus(ps[0])
    && var r := ps[0].out;
       if r.err.Some? then |ps| == 1 && j.out == r
       else if r.value.code == 0 then |ps| == 2 && Asks(ps[1], OfList(thn, 0), j.io, r.c) && j.out == ps[1].out
       else if els.Some? then |ps| == 2 && Asks(ps[1], OfCmd(els.value), j.io, r.c) && j.out == ps[1].out
       else |ps| == 1 && Ends(j, r.c, None, 0)
  }

  predicate ForRule(j: Judgment, name: string, items: seq<Word>, body: seq<Stmt>, ps: seq<Judgment>) {
    && ps != [] && Asks(ps[0], OfFields(items, []), j.io, j.c)
    && var f := ps[0].out;
       if f.err.Some? then |ps| == 1 && Ends(j, f.c, f.err, 1)
       else
         && |ps| == 2 && f.value.Words? && Asks(ps[1], OfFor(name, f.value.fields, body, 0), j.io, f.c)
         && j.out == ps[1].out
  }

  /** What a loop makes of its body's outcome: None when it goes on. */
  function AfterBody(r: Outcome): Option<Outcome>
    requires r.value.Status?
  {
    if r.err.None? || (r.err.value.Flow? && r.err.value.kind == Continue) then None
    else if r.err.value.Flow? && r.err.value.kind == Break then Some(Out(r.c, None, Status(0)))
    else Some(r)
  }

  /** A for loop takes a step, binds the name to the first item and runs the body;
      break ends it with status zero, and continue goes on with the next item. */
  predicate LoopRule(o: Oracle, j: Judgment, name: string, items: seq<string>, body: seq<Stmt>, last: int,
                     ps: seq<Judgment>) {
    if items == [] then ps == [] && Ends(j, j.c, None, last)
    else
      var s := Step(o, j.c);
      if s.err.Some? then ps == [] && Ends(j, s.c, s.err, 1)
      else
        var v := Set(s.c, name, Variable(items[0], true, false));
        if v.err.Some? then ps == [] && Ends(j, v.c, v.err, 1)
        else
          && ps != [] && Asks(ps[0], OfList(body, 0), j.io, v.c) && IsStatus(ps[0])
          && var r := ps[0].out;
             if AfterBody(r).Some? then |ps| == 1 && j.out == AfterBody(r).value
             else
               && |ps| == 2 && Asks(ps[1], OfFor(name, items[1..], body, r.value.code), j.io, r.c)
               && j.out == ps[1].out
  }

  /** A while loop takes a step and runs its condition; a status of zero lets it go
      on, and for until any other; then the body runs and all begins again. */
  predicate WhileRule(o: Oracle, j: Judgment, cond: seq<Stmt>, body: seq<Stmt>, until: bool, last: int,
                      ps: seq<Judgment>) {
    var s := Step(o, j.c);
    if s.err.Some? then ps == [] && Ends(j, s.c, s.err, 1)
    else
      && ps != [] && Asks(ps[0], OfList(cond, 0), j.io, s.c) && IsStatus(ps[0])
      && var t := ps[0].out;
         var goesOn := if until then t.value.code != 0 else t.value.code == 0;
         if t.err.Some? then |ps| == 1 && j.out == t
         else if !goesOn then |ps| == 1 && Ends(j, t.c, None, last)
         else
           && |ps| >= 2 && Asks(ps[1], OfList(body, 0), j.io, t.c) && IsStatus(ps[1])
           && var r := ps[1].out;
              if AfterBody(r).Some? then |ps| == 2 && j.out == AfterBody(r).value
              else
                && |ps| == 3 && Asks(ps[2], OfWhile(cond, body, until, r.value.code), j.io, r.c)
                && j.out == ps[2].out
  }

  /** A pipeline: the left stage writes to a pipe in place of the output and the
      right one reads from it in place of the input, each in a copy of the shell
      and with its share of the steps.  Its outcome is that of a cancelled run; or
      the right stage's error; or the left one's, unless its reader had left; or
      the right stage's status.  An exit ends only its stage. */
  predicate PipeRule(o: Oracle, j: Judgment, left: Stmt, right: Stmt, all: bool, ps: seq<Judgment>) {
    var c, n := j.c, |j.c.w.trace|;
    var share := if o.share(c.w.trace) <= c.w.left then o.share(c.w.trace) else c.w.left;
    && |ps| == 2 && IsStatus(ps[0]) && IsStatus(ps[1])
    && var l, r := ps[0].out, ps[1].out;
       && Asks(ps[0], OfStmt(left, all), IO(j.io.input, ToPipe(n), j.io.err, j.io.inSet),
               Conf(c.sh, World(c.w.trace, share, c.w.overdrawn)))
       && Asks(ps[1], OfStmt(right, false), IO(FromPipe(n), j.io.out, j.io.err, true),
               Conf(c.sh, World(l.c.w.trace, c.w.left - share, c.w.overdrawn)))
       && Joins(o, j, l, r)
  }

  /** The outcome of a pipeline, from those of its stages. */
  predicate Joins(o: Oracle, j: Judgment, l: Outcome, r: Outcome)
    requires l.value.Status? && r.value.Status?
  {
    var drawn := l.c.w.overdrawn || r.c.w.overdrawn;
    var end := World(r.c.w.trace + [Polled], if drawn then 0 else l.c.w.left + r.c.w.left, drawn);
    var lost := o.cancelled(r.c.w.trace);
    var rightErr, leftErr := r.err.Some? && !IsExit(r.err.value), l.err.Some? && !IsExit(l.err.value);
    if lost then Ends(j, Conf(j.c.sh, end), Some(Fail(Cancelled)), 1)
    else if rightErr then Ends(j, Conf(j.c.sh, end), r.err, r.value.code)
    else if leftErr && l.err != Some(Fail(ClosedPipe)) then Ends(j, Conf(j.c.sh, end), l.err, l.value.code)
    else Ends(j, Conf(j.c.sh, end), None, r.value.code)
  }

  // ---------------------------------------------------------------------
  // Simple commands
  // ---------------------------------------------------------------------

  /** Assignments alone are made in the shell, and have the status of the last
      substitution.  Before a command they are made for the command: afterwards
      each variable is what it was before its first one. */
  predicate CallRule(j: Judgment, xs: seq<Assign>, args: seq<string>, ps: seq<Judgment>) {
    if args == [] then
      && |ps| == 1 && Asks(ps[0], OfAssigns(xs, false), j.io, j.c)
      && var a := ps[0].out;
         if a.err.Some? then Ends(j, a.c, a.err, 1) else Ends(j, a.c, None, a.c.sh.subStatus)
    else
      && ps != [] && Asks(ps[0], OfPrefix(xs, map[]), j.io, j.c) && ps[0].out.value.Kept?
      && var p := ps[0].out;
         if p.err.Some? then |ps| == 1 && PutBack(j, p.value.before, p.c, p.err, 1)
         else
           && |ps| == 2 && Asks(ps[1], OfInvoke(args), j.io, p.c) && IsStatus(ps[1])
           && PutBack(j, p.value.before, ps[1].out.c, ps[1].out.err, ps[1].out.value.code)
  }

  /** The outcome with the variables saved put back: one that was neither set nor
      exported is gone. */
  predicate PutBack(j: Judgment, before: Saved, c: Conf, err: Option<Error>, code: int) {
    && j.out.err == err && j.out.value == Status(code) && j.out.c.w == c.w
    && j.out.c.sh == c.sh.(vars := j.out.c.sh.vars)
    && forall k :: k in before.Keys + c.sh.vars.Keys + j.out.c.sh.vars.Keys ==>
         if k in before then
           if before[k].isSet || before[k].exported then k in j.out.c.sh.vars && j.out.c.sh.vars[k] == before[k]
           else k !in j.out.c.sh.vars
         else k in c.sh.vars && k in j.out.c.sh.vars && j.out.c.sh.vars[k] == c.sh.vars[k]
  }

  predicate PrefixRule(j: Judgment, xs: seq<Assign>, before: Saved, ps: seq<Judgment>) {
    if xs == [] then ps == [] && j.out == Out(j.c, None, Kept(before, 0))
    else
      var k := xs[0].name;
      var saved := if k in before then before else before[k := Get(j.c.sh.vars, k)];
      && ps != [] && Asks(ps[0], OfAssign(xs[0], true), j.io, j.c)
      && var a := ps[0].out;
         if a.err.Some? then |ps| == 1 && j.out == Out(a.c, a.err, Kept(saved, 1))
         else |ps| == 2 && Asks(ps[1], OfPrefix(xs[1..], saved), j.io, a.c) && j.out == ps[1].out
  }

  /** Functions come before nested shells, and those before builtins and commands. */
  predicate InvokeRule(o: Oracle, j: Judgment, args: seq<string>, ps: seq<Judgment>) {
    var c := j.c;
    if args == [] then false
    else if args[0] in c.sh.funcs then FunctionRule(j, args, ps)
    else if args[0] == "sh" || args[0] == "bash" then NestedRule(o, j, args, ps)
    else ps == [] && BuiltinRule(o, j, args)
  }

  predicate BuiltinRule(o: Oracle, j: Judgment, args: seq<string>)
    requires args != []
  {
    var c, name := j.c, args[0];
    if name == ":" || name == "true" then Ends(j, c, None, 0)
    else if name == "false" then Ends(j, c, None, 1)
    else if name == "cd" then j.out == OfCode(ChangeDir(o, c, args, j.io))
    else if name == "pwd" then j.out == OfCode(PrintDir(o, c, args, j.io))
    else if name == "unset" then
      Ends(j, c.(sh := c.sh.(vars := map k | k in c.sh.vars && k !in args[1..] :: c.sh.vars[k])), None, 0)
    else if name == "exit" || name == "return" then j.out == OfCode(Leave(o, c, args))
    else if name == "break" || name == "continue" then j.out == OfCode(LoopControl(c, args))
    else if name == "xargs" then j.out == OfCode(Xargs.Run(o, c, args[1..], j.io))
    else j.out == OfCode(External(o, c, args, j.io))
  }

  /** A function's body sees the arguments as its own and runs one level deeper; a
      return ends only it. */
  predicate FunctionRule(j: Judgment, args: seq<string>, ps: seq<Judgment>)
    requires args != [] && args[0] in j.c.sh.funcs
  {
    var c := j.c;
    if c.sh.depth >= MAX_DEPTH then ps == [] && Ends(j, c, Some(Fail(Limit)), 1)
    else
      && |ps| == 1 && IsStatus(ps[0])
      && Asks(ps[0], OfStmt(c.sh.funcs[args[0]], false), j.io,
              c.(sh := c.sh.(args := args[1..], depth := c.sh.depth + 1)))
      && var r := ps[0].out;
         Ends(j, r.c.(sh := r.c.sh.(args := c.sh.args, depth := r.c.sh.depth - 1)),
              if r.err.Some? && r.err.value.Flow? && r.err.value.kind == Return then None else r.err, r.value.code)
  }

  /** sh -c runs its script in a new shell, one level deeper, with the exported
      variables; an exit ends only it, and this shell is as before. */
  predicate NestedRule(o: Oracle, j: Judgment, args: seq<string>, ps: seq<Judgment>) {
    var c := j.c;
    if c.sh.depth >= MAX_DEPTH then ps == [] && Ends(j, c, Some(Fail(Limit)), 1)
    else if |args| < 3 || args[1] != "-c" then
      var r := Say(o, c, j.io.err, "shale: nested shells support -c SCRIPT", 2);
      ps == [] && Ends(j, r.c, r.err, r.value)
    else if o.parse(args[2]).Malformed? then ps == [] && Ends(j, c, Some(Fail(o.parse(args[2]).fault)), 2)
    else
      && |ps| == 1 && IsStatus(ps[0]) && ps[0].goal == OfList(o.parse(args[2]).body, 0) && ps[0].io == j.io
      && ps[0].c.w == c.w.(trace := c.w.trace + [Entered(args[2])])
      && NestedStart(ps[0].c.sh, c.sh, args)
      && var r := ps[0].out;
         Ends(j, Conf(c.sh, r.c.w), if r.err.Some? && IsExit(r.err.value) then None else r.err, r.value.code)
  }

  /** How a nested shell starts. */
  predicate NestedStart(sh: Sh, parent: Sh, args: seq<string>)
    requires |args| >= 3
  {
    && sh.cwd == parent.cwd && sh.depth == parent.depth + 1 && sh.funcs == map[] && sh.status == sh.subStatus == 0
    && sh.args == (if |args| > 3 then args[4..] else [])
    && sh.vars == Initial(parent.cwd, Exported(parent.vars))["0" :=
         Variable(if |args| > 3 then args[3] else args[0], true, false)]
  }

  // ---------------------------------------------------------------------
  // Assignments
  // ---------------------------------------------------------------------

  predicate AssignRule(j: Judgment, a: Assign, export_: bool, ps: seq<Judgment>) {
    && |ps| == 1 && Asks(ps[0], OfWord(a.value), j.io, j.c)
    && var e := ps[0].out;
       if e.err.Some? then Ends(j, e.c, e.err, 1)
       else
         && e.value.Texts?
         && var text := (if a.append then Get(e.c.sh.vars, a.name).text else "") + Glued(e.value.parts);
            SetTo(j, e.c, a.name, text, export_)
  }

  /** A variable is set, within the limits; once exported it stays so. */
  predicate SetTo(j: Judgment, c: Conf, k: string, text: string, export_: bool) {
    if |text| > MAX_EXPANSION || |c.sh.vars| > MAX_VARS then Ends(j, c, Some(Fail(Limit)), 1)
    else
      var exported := export_ || (k in c.sh.vars && c.sh.vars[k].exported);
      Ends(j, c.(sh := c.sh.(vars := c.sh.vars[k := Variable(text, true, exported)])), None, 0)
  }

  predicate AssignsRule(j: Judgment, xs: seq<Assign>, export_: bool, ps: seq<Judgment>) {
    if xs == [] then ps == [] && Ends(j, j.c, None, 0)
    else
      && ps != [] && Asks(ps[0], OfAssign(xs[0], export_), j.io, j.c)
      && var a := ps[0].out;
         if a.err.Some? then |ps| == 1 && Ends(j, a.c, a.err, 1)
         else |ps| == 2 && Asks(ps[1], OfAssigns(xs[1..], export_), j.io, a.c) && j.out == ps[1].out
  }

  predicate ExportsRule(j: Judgment, xs: seq<Exportable>, ps: seq<Judgment>) {
    if xs == [] then ps == [] && Ends(j, j.c, None, 0)
    else if xs[0].Dynamic? then ps == [] && Ends(j, j.c, Some(Fail(Other)), 2)
    else if xs[0].assign.naked then
      var k := xs[0].assign.name;
      var v := Get(j.c.sh.vars, k);
      var vars := j.c.sh.vars[k := Variable(v.text, v.isSet, true)];
      && |ps| == 1 && Asks(ps[0], OfExports(xs[1..]), j.io, j.c.(sh := j.c.sh.(vars := vars)))
      && j.out == ps[0].out
    else
      && ps != [] && Asks(ps[0], OfAssign(xs[0].assign, true), j.io, j.c)
      && var a := ps[0].out;
         if a.err.Some? then |ps| == 1 && Ends(j, a.c, a.err, 1)
         else |ps| == 2 && Asks(ps[1], OfExports(xs[1..]), j.io, a.c) && j.out == ps[1].out
  }

  // ---------------------------------------------------------------------
  // Expansion
  // ---------------------------------------------------------------------

  predicate PartRule(o: Oracle, j: Judgment, p: Part, ps: seq<Judgment>) {
    match p
    case Lit(text) => ps == [] && j.out == Out(j.c, None, Text([text]))
    case Var(name) => ps == [] && j.out == Out(j.c, None, Text(Lookup(o, j.c.sh, name)))
    case Default(name, word) => DefaultRule(o, j, name, word, ps)
    case Subst(body) => SubstRule(o, j, body, ps)
  }

  /** ${name:=word}: a value that is not empty stands; otherwise the word's value is
      assigned and stands. */
  predicate DefaultRule(o: Oracle, j: Judgment, name: string, word: seq<Part>, ps: seq<Judgment>) {
    var v := Spaced(Lookup(o, j.c.sh, name));
    if v != "" && !o.eager then ps == [] && j.out == Out(j.c, None, Text([v]))
    else
      && |ps| == 1 && Asks(ps[0], OfWord(word), j.io, j.c)
      && var e := ps[0].out;
         if e.err.Some? then j.out == Out(e.c, e.err, Text([]))
         else if v != "" then j.out == Out(e.c, None, Text([v]))
         else
           && e.value.Texts?
           && var text := Glued(e.value.parts);
              var s := Set(e.c, name, Variable(text, true, false));
              j.out == Out(s.c, s.err, Text([text]))
  }

  /** $(body): the list runs in a copy of the shell, one level deeper, its output
      captured; its status is kept as that of the last substitution. */
  predicate SubstRule(o: Oracle, j: Judgment, body: seq<Stmt>, ps: seq<Judgment>) {
    var c := j.c;
    if c.sh.depth >= MAX_DEPTH then ps == [] && j.out == Out(c, Some(Fail(Limit)), Text([]))
    else
      && |ps| == 1 && IsStatus(ps[0])
      && Asks(ps[0], OfList(body, 0), IO(j.io.input, Captured(|c.w.trace|), j.io.err, j.io.inSet),
              Conf(c.sh.(depth := c.sh.depth + 1), c.w))
      && var r := ps[0].out;
         var after := Conf(c.sh.(subStatus := r.value.code), r.c.w);
         var text := o.capture(c.w.trace, r.c.w.trace);
         if text.None? then j.out == Out(after, Some(Fail(Limit)), Text([]))
         else j.out == Out(after, if r.err.Some? && IsExit(r.err.value) then None else r.err, Text([text.value]))
  }

  /** The parts of a word, from left to right. */
  predicate WordRule(j: Judgment, w: seq<Part>, ps: seq<Judgment>) {
    if w == [] then ps == [] && j.out == Out(j.c, None, Texts([]))
    else
      && ps != [] && Asks(ps[0], OfPart(w[0]), j.io, j.c)
      && var p := ps[0].out;
         if p.err.Some? then |ps| == 1 && j.out == Out(p.c, p.err, Texts([]))
         else
           && |ps| == 2 && Asks(ps[1], OfWord(w[1..]), j.io, p.c) && p.value.Text? && ps[1].out.value.Texts?
           && j.out == Out(ps[1].out.c, ps[1].out.err, Texts([p.value.part] + ps[1].out.value.parts))
  }

  predicate FieldsRule(o: Oracle, j: Judgment, words: seq<Word>, got: seq<string>, ps: seq<Judgment>) {
    if words == [] then ps == [] && j.out == Out(j.c, None, Words(got))
    else
      && ps != [] && Asks(ps[0], OfWord(words[0].parts), j.io, j.c)
      && var e := ps[0].out;
         if e.err.Some? then |ps| == 1 && j.out == Out(e.c, e.err, Words([]))
         else
           && e.value.Texts?
           && var a := Admit(o, e.c, FieldsOf(o, e.c, words[0].parts, e.value.parts), got);
              if a.err.Some? then |ps| == 1 && j.out == Out(a.c, a.err, Words(a.value))
              else |ps| == 2 && Asks(ps[1], OfFields(words[1..], a.value), j.io, a.c) && j.out == ps[1].out
  }

  // ---------------------------------------------------------------------
  // Redirections
  // ---------------------------------------------------------------------

  /** What a descriptor stands for: 1 the output, 2 the errors. */
  function Descriptor(io: IO, fd: int): Sink { if fd == 1 then io.out else io.err }

  /** The streams after a descriptor was pointed at a sink: it, and no other, has changed. */
  predicate Pointed(io': IO, io: IO, fd: int, w: Sink) {
    && io'.input == io.input && io'.inSet == io.inSet
    && Descriptor(io', fd) == w && Descriptor(io', 3 - fd) == Descriptor(io, 3 - fd)
  }

  predicate Both(op: RedirOp) { op == WriteAll || op == AppendAll }

  predicate MakesStreams(j: Judgment, c: Conf, err: Option<Error>, io: IO, files: seq<nat>) {
    j.out == Out(c, err, Streams(io, files))
  }

  /** A here document or string is the input.  n>&m points n at what m stands for,
      and n>&- at nothing.  A file is opened under the name that its word expands to,
      and is the input, or what the descriptor stands for, or both outputs. */
  predicate RedirRule(o: Oracle, j: Judgment, rd: Redir, ps: seq<Judgment>) {
    if rd.op == HereDoc || rd.op == HereString then
      && |ps| == 1 && Asks(ps[0], OfWord(rd.word), j.io, j.c)
      && var e := ps[0].out;
         if e.err.Some? then MakesStreams(j, e.c, e.err, j.io, [])
         else
           && e.value.Texts?
           && var text := Glued(e.value.parts);
              var body := if rd.op == HereString then text + "\n" else text;
              if |body| > MAX_EXPANSION
              then MakesStreams(j, e.c, Some(Fail(Limit)), j.io, [])
              else MakesStreams(j, e.c, None, IO(Given(body), j.io.out, j.io.err, true), [])
    else
      && |ps| == 1 && Asks(ps[0], OfFields([Word(rd.word)], []), j.io, j.c)
      && var f := ps[0].out;
         if f.err.Some? then MakesStreams(j, f.c, f.err, j.io, [])
         else
           && f.value.Words?
           && if |f.value.fields| != 1 then MakesStreams(j, f.c, Some(Fail(Other)), j.io, [])
              else if rd.op == DupOut then DupRule(j, f.c, rd.fd, f.value.fields[0])
              else OpenRule(o, j, f.c, rd, Resolving.Resolve(f.c.sh.cwd, f.value.fields[0]))
  }

  predicate DupRule(j: Judgment, c: Conf, fd: int, target: string) {
    var known := target == "1" || target == "2" || target == "-";
    var w := if target == "1" then Descriptor(j.io, 1) else if target == "2" then Descriptor(j.io, 2) else NoSink;
    if known && (fd == 1 || fd == 2)
    then j.out.value.Streams? && MakesStreams(j, c, None, j.out.value.io, []) && Pointed(j.out.value.io, j.io, fd, w)
    else MakesStreams(j, c, Some(Fail(Other)), j.io, [])
  }

  predicate OpenRule(o: Oracle, j: Judgment, c: Conf, rd: Redir, path: string) {
    var f, h := o.open(c.w.trace, path, rd.op), |c.w.trace|;
    var after := c.(w := c.w.(trace := c.w.trace + [Opened(path, rd.op, !f.Refused?)]));
    if f.Refused? then MakesStreams(j, after, Some(Fail(f.fault)), j.io, [])
    else if rd.op == ReadFrom then
      if rd.fd == 0 then MakesStreams(j, after, None, IO(FromFile(h), j.io.out, j.io.err, true), [h])
      else MakesStreams(j, after, Some(Fail(Other)), j.io, [h])
    else if f.Reader? || !(Both(rd.op) || rd.fd == 1 || rd.fd == 2)
    then MakesStreams(j, after, Some(Fail(Other)), j.io, [h])
    else if Both(rd.op) then MakesStreams(j, after, None, IO(j.io.input, ToFile(h), ToFile(h), j.io.inSet), [h])
    else
      && j.out.value.Streams? && MakesStreams(j, after, None, j.out.value.io, [h])
      && Pointed(j.out.value.io, j.io, rd.fd, ToFile(h))
  }

  /** Redirections from left to right, each under the ones before it. */
  predicate RedirsRule(j: Judgment, rs: seq<Redir>, open: seq<nat>, ps: seq<Judgment>) {
    if rs == [] then ps == [] && MakesStreams(j, j.c, None, j.io, open)
    else
      && ps != [] && Asks(ps[0], OfRedir(rs[0]), j.io, j.c) && ps[0].out.value.Streams?
      && var r := ps[0].out;
         if r.err.Some? then |ps| == 1 && MakesStreams(j, r.c, r.err, j.io, open + r.value.files)
         else
           && |ps| == 2 && Asks(ps[1], OfRedirs(rs[1..], open + r.value.files), r.value.io, r.c)
           && j.out == ps[1].out
  }

  // ---------------------------------------------------------------------
  // Derivations
  // ---------------------------------------------------------------------

  /** The conclusion follows from the premises. */
  predicate Follows(o: Oracle, j: Judgment, ps: seq<Judgment>) {
    match j.goal
    case OfPart(p) => PartRule(o, j, p, ps)
    case OfWord(w) => WordRule(j, w, ps)
    case OfFields(words, got) => FieldsRule(o, j, words, got, ps)
    case OfAssign(a, x) => AssignRule(j, a, x, ps)
    case OfAssigns(xs, x) => AssignsRule(j, xs, x, ps)
    case OfExports(xs) => ExportsRule(j, xs, ps)
    case OfRedir(rd) => RedirRule(o, j, rd, ps)
    case OfRedirs(rs, open) => RedirsRule(j, rs, open, ps)
    case OfList(xs, last) => ListRule(j, xs, last, ps)
    case OfStmt(x, all) => StmtRule(o, j, x, all, ps)
    case OfLine(x, args, all) => LineRule(j, x, args, all, ps)
    case OfCmd(cmd) => CmdRule(o, j, cmd, ps)
    case OfFor(name, items, body, last) => LoopRule(o, j, name, items, body, last, ps)
    case OfWhile(cond, body, until, last) => WhileRule(o, j, cond, body, until, last, ps)
    case OfPrefix(xs, before) => PrefixRule(j, xs, before, ps)
    case OfCall(xs, args) => CallRule(j, xs, args, ps)
    case OfInvoke(args) => InvokeRule(o, j, args, ps)
  }

  predicate Derivation(o: Oracle, t: Tree) {
    Follows(o, t.j, Roots(t.from)) && forall d :: d in t.from ==> Derivation(o, d)
  }
}
