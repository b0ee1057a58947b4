/** The state of the interpreter and the world it acts on.  What the file system,
    the streams and the commands answer is not fixed: each answer is an arbitrary
    function of everything that happened before it. */
module ShellState {
  import opened Store
  import opened Paths
  import opened Resolving
  import opened ShellSyntax

  const MAX_SCRIPT := 0x10_0000
  const MAX_EXPANSION := 0x10_0000
  const MAX_FIELDS := 10000
  const MAX_VARS := 10000
  const MAX_FUNCS := 1000
  const MAX_DEPTH := 64

  datatype Kind = Exit | Return | Break | Continue
  datatype Fault = Limit | Cancelled | ClosedPipe | Other

  /** An error that ends a command: a control-flow signal or a failure. */
  datatype Error = Flow(kind: Kind, code: int) | Fail(fault: Fault)

  datatype Variable = Variable(text: string, isSet: bool, exported: bool)

  const UNSET := Variable("", false, false)

  type Vars = map<string, Variable>

  /** The fields of one shell. */
  datatype Sh = Sh(cwd: string, vars: Vars, funcs: map<string, Stmt>, status: int, subStatus: int,
                   args: seq<string>, depth: int)

  /** A file is known by the place in the history of its opening, a pipe and the text
      of a substitution by the place where it was made. */
  datatype Source = Stdin | Given(text: string) | FromFile(h: nat) | FromPipe(p: nat)
  datatype Sink = Stdout | Stderr | ToFile(h: nat) | ToPipe(p: nat) | Captured(p: nat) | NoSink

  datatype IO = IO(input: Source, out: Sink, err: Sink, inSet: bool)

  /** What the interpreter did, in order. */
  datatype Event =
    | Started(depth: int)                      // a step taken at this depth
    | Polled                                   // the context asked whether it is cancelled
    | Opened(path: string, op: RedirOp, ok: bool)
    | Closed(h: nat)
    | Executed(cwd: string, argv: seq<string>, env: map<string, string>, io: IO)
    | Printed(to: Sink, text: string)
    | Looked(path: string)
    | Consumed(from: Source)
    | Entered(src: string)                     // a nested shell about to run this script

  type Trace = seq<Event>

  datatype Opening = Refused(fault: Fault) | Reader | Writer
  datatype Parsed = Program(body: seq<Stmt>) | Malformed(fault: Fault)

  datatype Oracle = Oracle(
    cancelled: Trace -> bool,
    exec: (Trace, string, seq<string>, map<string, string>, IO) -> (int, Option<Fault>),
    open: (Trace, string, RedirOp) -> Opening,
    closeFails: (Trace, nat) -> bool,
    isDir: (Trace, string) -> bool,
    executable: (Trace, string) -> bool,
    write: (Trace, Sink, string) -> Option<Fault>,
    read: (Trace, Source) -> (string, Option<Fault>),
    capture: (Trace, Trace) -> Option<string>,   // what a substitution wrote; None when too much
    share: Trace -> nat,                         // how many steps the left stage gets
    parse: string -> Parsed,
    split: (Trace, Sh, seq<Part>, seq<seq<string>>) -> seq<string>,
    eager: bool,                                 // ${x:=w} expands w even when x has a value
    atoi: string -> Option<int>,
    itoa: int -> string)

  /** What happened, the steps that remain, and whether a step was refused for
      want of steps. */
  datatype World = World(trace: Trace, left: nat, overdrawn: bool)

  datatype Conf = Conf(sh: Sh, w: World)

  datatype Out<+T> = Out(c: Conf, err: Option<Error>, value: T)

  function Log(c: Conf, e: Event): (d: Conf)
    ensures d.w.left == c.w.left
  {
    c.(w := c.w.(trace := c.w.trace + [e]))
  }

  // ---------------------------------------------------------------------
  // Steps and cancellation
  // ---------------------------------------------------------------------

  function Step(o: Oracle, c: Conf): (r: Out<int>)
    ensures r.c.w.left <= c.w.left && (r.err.None? ==> r.c.w.left < c.w.left)
  {
    if o.cancelled(c.w.trace) then Out(Log(c, Polled), Some(Fail(Cancelled)), 1)
    else if c.w.left == 0 then Out(c.(w := c.w.(overdrawn := true)), Some(Fail(Limit)), 1)
    else Out(Log(c.(w := c.w.(left := c.w.left - 1)), Started(c.sh.depth)), None, 0)
  }

  function Poll(o: Oracle, c: Conf): (r: Out<bool>)
    ensures r.c.w.left == c.w.left
  {
    Out(Log(c, Polled), None, o.cancelled(c.w.trace))
  }

  function Print(o: Oracle, c: Conf, to: Sink, text: string): (r: Out<int>)
    ensures r.c.w.left == c.w.left
  {
    var e := o.write(c.w.trace, to, text);
    Out(Log(c, Printed(to, text)), if e.None? then None else Some(Fail(e.value)), 0)
  }

  /** A message whose failure is ignored. */
  function Say(o: Oracle, c: Conf, to: Sink, text: string, code: int): (r: Out<int>)
    ensures r.c.w.left == c.w.left
  {
    Out(Print(o, c, to, text).c, None, code)
  }

  // ---------------------------------------------------------------------
  // Variables
  // ---------------------------------------------------------------------

  function Get(vars: Vars, k: string): Variable { if k in vars then vars[k] else UNSET }

  function Set(c: Conf, k: string, v: Variable): (r: Out<int>)
    ensures r.c.w == c.w
  {
    if |v.text| > MAX_EXPANSION || |c.sh.vars| > MAX_VARS then Out(c, Some(Fail(Limit)), 1)
    else
      var v' := v.(exported := v.exported || Get(c.sh.vars, k).exported);
      Out(c.(sh := c.sh.(vars := c.sh.vars[k := v'])), None, 0)
  }

  /** The value of a parameter; "@" and "*" have one per argument. */
  function Lookup(o: Oracle, sh: Sh, k: string): seq<string> {
    if k == "?" then [o.itoa(sh.status)]
    else if k == "#" then [o.itoa(|sh.args|)]
    else if k == "@" || k == "*" then sh.args
    else if k == "$" || k == "PPID" then ["1"]
    else if k == "0" then [if Get(sh.vars, k).isSet then Get(sh.vars, k).text else "shale"]
    else
      var i := o.atoi(k);
      if i.Some? && 0 < i.value <= |sh.args| then [sh.args[i.value - 1]] else [Get(sh.vars, k).text]
  }

  function Spaced(xs: seq<string>): string {
    if xs == [] then "" else if |xs| == 1 then xs[0] else xs[0] + " " + Spaced(xs[1..])
  }

  function Glued(xs: seq<seq<string>>): string {
    if xs == [] then "" else Spaced(xs[0]) + Glued(xs[1..])
  }

  function Exported(vars: Vars): map<string, string> {
    map k | k in vars && vars[k].exported && vars[k].isSet :: vars[k].text
  }

  /** The variables of a new shell. */
  function Initial(cwd: string, env: map<string, string>): Vars {
    var defaults := map["HOME" := "/work", "PATH" := "/usr/bin:/bin", "TMPDIR" := "/tmp", "LC_ALL" := "C",
        "TZ" := "UTC"];
    var all := (defaults + env)["PWD" := cwd];
    map k | k in all :: Variable(all[k], true, true)
  }

  function NewShell(cwd: string, env: map<string, string>): Sh {
    Sh(cwd, Initial(cwd, env), map[], 0, 0, [], 0)
  }

  // ---------------------------------------------------------------------
  // Commands outside the shell
  // ---------------------------------------------------------------------

  function SplitOn(s: string, sep: char): (r: seq<string>)
    ensures r != []
  {
    if s == "" then [""]
    else
      var rest := SplitOn(s[1..], sep);
      if s[0] == sep then [""] + rest else [[s[0]] + rest[0]] + rest[1..]
  }

  predicate InBin(p: string) { Dir(p) == "/bin" || Dir(p) == "/usr/bin" }

  function FindIn(o: Oracle, c: Conf, dirs: seq<string>, name: string): (r: Out<bool>)
    ensures r.c.w.left == c.w.left
    decreases |dirs|
  {
    if dirs == [] then Out(c, None, false)
    else
      var p := Resolve(c.sh.cwd, PathJoin(dirs[0], name));
      if !InBin(p) then FindIn(o, c, dirs[1..], name)
      else if o.executable(c.w.trace, p) then Out(Log(c, Looked(p)), None, true)
      else FindIn(o, Log(c, Looked(p)), dirs[1..], name)
  }

  function Execute(o: Oracle, c: Conf, argv: seq<string>, io: IO): (r: Out<int>)
    ensures r.c.w.left == c.w.left
  {
    var env := Exported(c.sh.vars)["PWD" := c.sh.cwd];
    var (code, e) := o.exec(c.w.trace, c.sh.cwd, argv, env, io);
    Out(Log(c, Executed(c.sh.cwd, argv, env, io)), if e.None? then None else Some(Fail(e.value)), code)
  }

  function External(o: Oracle, c: Conf, args: seq<string>, io: IO): (r: Out<int>)
    requires args != []
    ensures r.c.w.left == c.w.left
  {
    var name := args[0];
    if '/' in name then
      var p := Resolve(c.sh.cwd, name);
      if !InBin(p) then Say(o, c, io.err, p + ": command not found", 127)
      else Execute(o, c, [Base(p)] + args[1..], io)
    else
      var f := FindIn(o, c, SplitOn(Get(c.sh.vars, "PATH").text, ':'), name);
      if !f.value then Say(o, f.c, io.err, name + ": command not found", 127)
      else Execute(o, f.c, args, io)
  }

  // ---------------------------------------------------------------------
  // Builtins that need no evaluation
  // ---------------------------------------------------------------------

  function ChangeDir(o: Oracle, c: Conf, args: seq<string>, io: IO): (r: Out<int>)
    requires args != []
    ensures r.c.w.left == c.w.left
  {
    if |args| > 2 then Say(o, c, io.err, "cd: too many arguments", 1)
    else
      var to := if |args| == 2 then args[1] else Get(c.sh.vars, "HOME").text;
      var dest := Resolve(c.sh.cwd, if to == "-" then Get(c.sh.vars, "OLDPWD").text else to);
      var c1 := Log(c, Looked(dest));
      if !o.isDir(c.w.trace, dest) then Say(o, c1, io.err, "cd: cannot enter " + dest, 1)
      else
        var cwd := Clean(dest);
        var vars := c.sh.vars["OLDPWD" := Variable(c.sh.cwd, true, true)]["PWD" := Variable(cwd, true, true)];
        Out(c1.(sh := c1.sh.(cwd := cwd, vars := vars)), None, 0)
  }

  function PrintDir(o: Oracle, c: Conf, args: seq<string>, io: IO): (r: Out<int>)
    requires args != []
    ensures r.c.w.left == c.w.left
  {
    if |args| > 1 && !(|args| == 2 && (args[1] == "-L" || args[1] == "-P")) then Out(c, None, 2)
    else Print(o, c, io.out, c.sh.cwd)
  }

  function Without(vars: Vars, names: seq<string>): Vars { map k | k in vars && k !in names :: vars[k] }

  /** exit and return */
  function Leave(o: Oracle, c: Conf, args: seq<string>): (r: Out<int>)
    requires args != []
    ensures r.c == c
  {
    if |args| > 2 then Out(c, Some(Fail(Other)), 2)
    else
      var kind := if args[0] == "exit" then Exit else Return;
      if |args| == 1 then Out(c, Some(Flow(kind, c.sh.status)), c.sh.status)
      else
        var n := o.atoi(args[1]);
        if n.None? then Out(c, Some(Fail(Other)), 2)
        else Out(c, Some(Flow(kind, n.value % 256)), n.value % 256)
  }

  function LoopControl(c: Conf, args: seq<string>): (r: Out<int>)
    requires args != []
    ensures r.c == c
  {
    if |args| != 1 then Out(c, Some(Fail(Other)), 2)
    else Out(c, Some(Flow(if args[0] == "break" then Break else Continue, 0)), 0)
  }

  /** The signal that a boundary of the given kind absorbs. */
  function Absorb(e: Option<Error>, kind: Kind): Option<Error> {
    if e.Some? && e.value.Flow? && e.value.kind == kind then None else e
  }
}
