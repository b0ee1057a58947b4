/** Laws of the language on concrete ground: what the status of true and false
    selects, what a command executed outside the shell is given, where cd goes,
    which argument a parameter is. */
module ShellLaws {
  import opened Store
  import opened Paths
  import opened Resolving
  import opened ShellSyntax
  import opened ShellState
  import opened ShellEval
  import Sound = ShellSound
  import Xargs

  // ---------------------------------------------------------------------
  // Written-out simple commands
  // ---------------------------------------------------------------------

  predicate AllWritten(words: seq<Word>) { forall w :: w in words ==> w.parts != [] && IsLiteral(w.parts) }

  function TextsOf(words: seq<Word>): seq<string>
    requires AllWritten(words)
  {
    if words == [] then [] else [LiteralText(words[0].parts)] + TextsOf(words[1..])
  }

  /** The history has grown by steps and polls only. */
  predicate Quietly(s: Trace, t: Trace) { s <= t && forall i :: |s| <= i < |t| ==> t[i].Started? || t[i].Polled? }

  lemma QuietlyThen(s: Trace, t: Trace, u: Trace)
    requires Quietly(s, t) && Quietly(t, u)
    ensures Quietly(s, u)
  {
    forall i | |s| <= i < |u| ensures u[i].Started? || u[i].Polled? {
      if i < |t| { assert u[i] == t[i]; }
    }
  }

  lemma {:induction false} LiteralValues(o: Oracle, c: Conf, w: seq<Part>, io: IO)
    requires IsLiteral(w)
    ensures var r := Expand(o, c, w, io); r.c == c && r.err.None?
    decreases w
  {
    if w != [] {
      assert w[0] in w && forall p :: p in w[1..] ==> p in w;
      LiteralValues(o, c, w[1..], io);
    }
  }

  lemma {:induction false} LiteralFields(o: Oracle, c: Conf, words: seq<Word>, io: IO, got: seq<string>)
    requires AllWritten(words)
    ensures var r := Fields(o, c, words, io, got);
            && r.c.sh == c.sh && r.c.w.left == c.w.left && Quietly(c.w.trace, r.c.w.trace)
            && (r.err.None? ==> r.value == got + TextsOf(words))
    decreases |words|
  {
    hide Expand;
    if words != [] {
      assert words[0] in words && forall w :: w in words[1..] ==> w in words;
      LiteralValues(o, c, words[0].parts, io);
      var text := LiteralText(words[0].parts);
      var e := Expand(o, c, words[0].parts, io);
      assert FieldsOf(o, e.c, words[0].parts, e.value) == [text];
      OneField(o, c, text, got);
      var a := Admit(o, c, [text], got);
      if a.err.None? {
        LiteralFields(o, a.c, words[1..], io, a.value);
        var r := Fields(o, a.c, words[1..], io, a.value);
        QuietlyThen(c.w.trace, a.c.w.trace, r.c.w.trace);
        assert got + [text] + TextsOf(words[1..]) == got + TextsOf(words);
      }
    }
  }

  lemma OneField(o: Oracle, c: Conf, text: string, got: seq<string>)
    ensures var a := Admit(o, c, [text], got);
            && a.c.sh == c.sh && a.c.w.left == c.w.left && Quietly(c.w.trace, a.c.w.trace)
            && (a.err.None? ==> a.value == got + [text])
  {
    assert [text][1..] == [];
    assert Admit(o, Poll(o, c).c, [], got + [text]) == Out(Poll(o, c).c, None, got + [text]);
  }

  /** A simple command of written-out words. */
  function Plainly(words: seq<Word>, negated: bool): Stmt { Stmt(Simple([], words), [], negated) }

  /** Such a command is refused before it is started, or it is its words carried out
      on the streams given, from a state that is as before but for the status of the
      last substitution. */
  lemma PlainStatement(o: Oracle, c: Conf, words: seq<Word>, negated: bool, io: IO, all: bool) returns (d: Conf)
    requires words != [] && AllWritten(words)
    ensures d.sh == c.sh.(subStatus := 0) && Quietly(c.w.trace, d.w.trace) && TextsOf(words) != []
    ensures var r := Statement(o, c, Plainly(words, negated), io, all);
            var k := Invoke(o, d, TextsOf(words), if all then io.(err := io.out) else io);
            || (r.err.Some? && Quietly(c.w.trace, r.c.w.trace))
            || (var code := if negated && k.err.None? then (if k.value == 0 then 1 else 0) else k.value;
                r == Out(k.c.(sh := k.c.sh.(status := code)), k.err, code))
  {
    var x := Plainly(words, negated);
    var s := Step(o, c);
    d := c.(sh := c.sh.(subStatus := 0));
    if s.err.None? {
      var c1 := s.c.(sh := s.c.sh.(subStatus := 0));
      LiteralFields(o, c1, words, io, []);
      var f := Fields(o, c1, words, io, []);
      QuietlyThen(c.w.trace, c1.w.trace, f.c.w.trace);
      d := f.c;
      if f.err.None? {
        var args := TextsOf(words);
        assert [] + args == args;
        PlainCall(o, d, args, if all then io.(err := io.out) else io);
        hide Fields, Call, Step, Invoke;
        assert Redirect(o, d, [], io, []) == Out(d, None, Redirected(io, []));
        var e := CommandLine(o, d, x, args, io, all);
        assert CloseAll(o, e.c, [], e.err, e.value) == e;
        assert Statement(o, c, x, io, all) == Perform(o, s.c, x, io, all);
      }
    }
  }

  lemma PlainCall(o: Oracle, c: Conf, args: seq<string>, io: IO)
    requires args != []
    ensures Call(o, c, [], args, io) == Invoke(o, c, args, io)
  {
    hide Invoke;
    var r := Invoke(o, c, args, io);
    assert Prefixes(o, c, [], map[], io) == Out(c, None, Prefixed(map[], 0));
    assert Restore(r.c.sh.vars, map[]) == r.c.sh.vars;
    assert r.c.(sh := r.c.sh.(vars := r.c.sh.vars)) == r.c;
  }

  // ---------------------------------------------------------------------
  // true and false, and what they select
  // ---------------------------------------------------------------------

  const TRUE := Plainly([Word([Lit("true")])], false)
  const FALSE := Plainly([Word([Lit("false")])], false)

  /** The condition that is only that constant. */
  function Constant(yes: bool): Stmt { if yes then TRUE else FALSE }

  function NameOf(yes: bool): string { if yes then "true" else "false" }

  lemma ConstantWords(yes: bool)
    ensures var words := [Word([Lit(NameOf(yes))])];
            AllWritten(words) && TextsOf(words) == [NameOf(yes)] && Constant(yes) == Plainly(words, false)
  {
    var w: seq<Part> := [Lit(NameOf(yes))];
    assert w[1..] == [] && [Word(w)][1..] == [];
    assert LiteralText(w) == NameOf(yes) + "" == NameOf(yes);
  }

  /** true and false do nothing, and have the status zero and one. */
  lemma ConstantStatus(o: Oracle, c: Conf, yes: bool, io: IO)
    requires NameOf(yes) !in c.sh.funcs
    ensures var r := Statement(o, c, Constant(yes), io, false);
            && Quietly(c.w.trace, r.c.w.trace)
            && (r.err.None? ==> r.value == (if yes then 0 else 1) && r.c.sh == c.sh.(status := r.value, subStatus := 0))
  {
    var words := [Word([Lit(NameOf(yes))])];
    ConstantWords(yes);
    var d := PlainStatement(o, c, words, false, io, false);
    hide Statement, Quietly;
    assert NameOf(yes) != "bash" && NameOf(yes) != "sh";
    assert Invoke(o, d, [NameOf(yes)], io) == Out(d, None, if yes then 0 else 1);
  }

  /** What is left of the world after the constant as a condition. */
  function Past(o: Oracle, c: Conf, yes: bool, io: IO): Conf {
    var r := Statement(o, c, Constant(yes), io, false);
    r.c.(sh := r.c.sh.(status := r.value))
  }

  /** The condition, when it is not refused, does nothing but take its step. */
  predicate Holds(o: Oracle, c: Conf, yes: bool, io: IO) {
    NameOf(yes) !in c.sh.funcs && Statement(o, c, Constant(yes), io, false).err.None?
  }

  lemma PastIsQuiet(o: Oracle, c: Conf, yes: bool, io: IO)
    requires Holds(o, c, yes, io)
    ensures Quietly(c.w.trace, Past(o, c, yes, io).w.trace)
    ensures Past(o, c, yes, io).sh == c.sh.(status := if yes then 0 else 1, subStatus := 0)
    ensures List(o, c, [Constant(yes)], io, 0) == Out(Past(o, c, yes, io), None, if yes then 0 else 1)
  {
    hide Quietly;
    ConstantStatus(o, c, yes, io);
    hide Statement, Constant;
    assert [Constant(yes)][1..] == [];
    var r := Statement(o, c, Constant(yes), io, false);
    assert List(o, Past(o, c, yes, io), [], io, r.value) == Out(Past(o, c, yes, io), None, r.value);
  }

  /** `if true` is its then part and `if false` its else part, or nothing at all
      with status zero. */
  lemma ConstantIf(o: Oracle, c: Conf, yes: bool, thn: seq<Stmt>, els: Option<Cmd>, io: IO)
    requires Holds(o, c, yes, io)
    ensures var d := Past(o, c, yes, io);
            Command(o, c, If([Constant(yes)], thn, els), io) ==
              if yes then List(o, d, thn, io, 0)
              else if els.Some? then Command(o, d, els.value, io) else Out(d, None, 0)
  {
    PastIsQuiet(o, c, yes, io);
    hide List, Statement, Constant, Past, Quietly;
  }

  /** `true && x` and `false || x` are x; `false && x` and `true || x` are the
      constant, and x is not begun. */
  lemma ConstantAndOr(o: Oracle, c: Conf, yes: bool, isAnd: bool, x: Stmt, io: IO)
    requires Holds(o, c, yes, io)
    ensures var d := Past(o, c, yes, io);
            Command(o, c, AndOr(isAnd, Constant(yes), x), io) ==
              if yes == isAnd then Statement(o, d, x, io, false) else Out(d, None, if yes then 0 else 1)
  {
    ConstantStatus(o, c, yes, io);
    hide Statement, Constant, Quietly;
    var r := Statement(o, c, Constant(yes), io, false);
    assert r.c == Past(o, c, yes, io);
  }

  /** `! true` has status one, and `! false` zero. */
  lemma ConstantNot(o: Oracle, c: Conf, yes: bool, io: IO)
    requires NameOf(yes) !in c.sh.funcs
    ensures var r := Statement(o, c, Constant(yes).(negated := true), io, false);
            && Quietly(c.w.trace, r.c.w.trace)
            && (r.err.None? ==> r.value == (if yes then 1 else 0) && r.c.sh == c.sh.(status := r.value, subStatus := 0))
  {
    var words := [Word([Lit(NameOf(yes))])];
    ConstantWords(yes);
    var d := PlainStatement(o, c, words, true, io, false);
    hide Statement, Quietly;
    assert NameOf(yes) != "bash" && NameOf(yes) != "sh";
    assert Invoke(o, d, [NameOf(yes)], io) == Out(d, None, if yes then 0 else 1);
  }

  /** `while false` and `until true` run their body never, and have status zero; `while
      true` and `until false` run it first and then all over again. */
  lemma ConstantLoop(o: Oracle, c: Conf, yes: bool, until: bool, body: seq<Stmt>, io: IO)
    requires Step(o, c).err.None? && Holds(o, Step(o, c).c, yes, io)
    ensures var d := Past(o, Step(o, c).c, yes, io);
            var r := List(o, d, body, io, 0);
            var out := Command(o, c, While([Constant(yes)], body, until), io);
            && (yes == until ==> out == Out(d, None, 0))
            && (yes != until && r.err.None? ==> out == WhileLoop(o, r.c, [Constant(yes)], body, until, io, r.value))
            && (yes != until && r.err.Some? && r.err.value.Fail? ==> out == r)
            && (yes != until && r.err == Some(Flow(Break, 0)) ==> out == Out(r.c, None, 0))
  {
    PastIsQuiet(o, Step(o, c).c, yes, io);
    hide List, Statement, Constant, Past, Step, Quietly;
  }

  /** A for loop over one item more runs its body for that one first. */
  lemma ForFirst(o: Oracle, c: Conf, name: string, item: string, rest: seq<string>, body: seq<Stmt>, io: IO, last: int)
    requires Step(o, c).err.None? && |item| <= MAX_EXPANSION && |c.sh.vars| <= MAX_VARS
    ensures var s := Step(o, c).c;
            var d := s.(sh := s.sh.(vars := s.sh.vars[name := Variable(item, true, Get(s.sh.vars, name).exported)]));
            var r := List(o, d, body, io, 0);
            var out := ForLoop(o, c, name, [item] + rest, body, io, last);
            && (r.err.None? ==> out == ForLoop(o, r.c, name, rest, body, io, r.value))
            && (r.err.Some? && r.err.value.Fail? ==> out == r)
            && (r.err == Some(Flow(Break, 0)) ==> out == Out(r.c, None, 0))
            && (r.err == Some(Flow(Continue, 0)) ==> out == ForLoop(o, r.c, name, rest, body, io, r.value))
    ensures ForLoop(o, c, name, [], body, io, last) == Out(c, None, last)
  {
    assert ([item] + rest)[0] == item && ([item] + rest)[1..] == rest;
    hide List, Quietly;
  }

  // ---------------------------------------------------------------------
  // Commands outside the shell, alone and as stages of a pipeline
  // ---------------------------------------------------------------------

  const BUILTINS := ["bash", "sh", ":", "true", "false", "cd", "pwd", "unset", "exit", "return", "break", "continue",
    "xargs"]

  /** From place n on at most one command is executed, as the last event: this one. */
  predicate LastExecutes(o: Oracle, t: Trace, n: nat, cwd: string, argv: seq<string>, io: IO, code: int) {
    forall i :: n <= i < |t| && t[i].Executed? ==>
      && i == |t| - 1 && t[i].cwd == cwd && t[i].argv == argv && t[i].io == io && code == Xargs.Result(o, t, i).0
  }

  lemma ExternalLast(o: Oracle, c: Conf, args: seq<string>, io: IO)
    requires args != []
    ensures var r := External(o, c, args, io);
            && c.w.trace < r.c.w.trace
            && LastExecutes(o, r.c.w.trace, |c.w.trace|, c.sh.cwd, Xargs.Line(c.sh.cwd, args), io, r.value)
            && (r.value != 127 ==> r.c.w.trace[|r.c.w.trace| - 1].Executed?)
  {
    Xargs.ExternalExecutes(o, c, args, io);
    hide External, Xargs.Line, Xargs.Result;
  }

  lemma LastAfterQuiet(o: Oracle, s: Trace, d: Trace, t: Trace, cwd: string, argv: seq<string>, io: IO, code: int)
    requires Quietly(s, d) && d <= t && LastExecutes(o, t, |d|, cwd, argv, io, code)
    ensures s <= t && LastExecutes(o, t, |s|, cwd, argv, io, code)
  {
    forall i | |s| <= i < |d| ensures !t[i].Executed? { assert t[i] == d[i]; }
  }

  /** A command of written-out words that is neither a function nor a builtin, on
      these streams: it is not executed, or it is the last thing that happens, on
      exactly these streams, with the words as written, and the status is its
      own. */
  lemma PlainExecutes(o: Oracle, c: Conf, words: seq<Word>, io: IO, all: bool)
    requires words != [] && AllWritten(words)
    requires TextsOf(words) != [] ==> TextsOf(words)[0] !in c.sh.funcs && TextsOf(words)[0] !in BUILTINS
    ensures TextsOf(words) != []
    ensures var r := Statement(o, c, Plainly(words, false), io, all);
            && c.w.trace <= r.c.w.trace
            && LastExecutes(o, r.c.w.trace, |c.w.trace|, c.sh.cwd, Xargs.Line(c.sh.cwd, TextsOf(words)),
                            if all then io.(err := io.out) else io, r.value)
            && (r.err.None? && r.value != 127 ==>
                  c.w.trace < r.c.w.trace && r.c.w.trace[|r.c.w.trace| - 1].Executed?)
  {
    var d := PlainStatement(o, c, words, false, io, all);
    var args, io' := TextsOf(words), if all then io.(err := io.out) else io;
    PlainIsExternal(o, d, args, io');
    ExternalLast(o, d, args, io');
    var r, k := Statement(o, c, Plainly(words, false), io, all), External(o, d, args, io');
    hide Statement, External, Xargs.Line, Xargs.Result, Invoke, LastExecutes;
    if r.err.Some? && Quietly(c.w.trace, r.c.w.trace) {
      NothingExecutes(o, c.w.trace, r.c.w.trace, c.sh.cwd, Xargs.Line(c.sh.cwd, args), io', r.value);
    } else {
      LastAfterQuiet(o, c.w.trace, d.w.trace, k.c.w.trace, c.sh.cwd, Xargs.Line(c.sh.cwd, args), io', k.value);
    }
  }

  lemma NothingExecutes(o: Oracle, s: Trace, t: Trace, cwd: string, argv: seq<string>, io: IO, code: int)
    requires Quietly(s, t)
    ensures s <= t && LastExecutes(o, t, |s|, cwd, argv, io, code)
  {
  }

  lemma PlainIsExternal(o: Oracle, c: Conf, args: seq<string>, io: IO)
    requires args != [] && args[0] !in c.sh.funcs && args[0] !in BUILTINS
    ensures Invoke(o, c, args, io) == External(o, c, args, io)
  {
    hide External;
  }

  /** Two such commands as a pipeline: what the left one is executed with as output is
      the pipe, and what the right one is executed with as input is the same pipe. */
  lemma PipelineExecutes(o: Oracle, c: Conf, a: seq<Word>, b: seq<Word>, all: bool, io: IO) returns (m: nat)
    requires a != [] && AllWritten(a) && b != [] && AllWritten(b)
    requires TextsOf(a) != [] ==> TextsOf(a)[0] !in c.sh.funcs && TextsOf(a)[0] !in BUILTINS
    requires TextsOf(b) != [] ==> TextsOf(b)[0] !in c.sh.funcs && TextsOf(b)[0] !in BUILTINS
    ensures TextsOf(a) != [] && TextsOf(b) != []
    ensures var n, t := |c.w.trace|, Pipeline(o, c, Plainly(a, false), Plainly(b, false), all, io).c.w.trace;
            && n <= m < |t| && t[|t| - 1] == Polled
            && (forall i :: n <= i < m && t[i].Executed? ==>
                  && i == m - 1 && t[i].argv == Xargs.Line(c.sh.cwd, TextsOf(a)) && t[i].io.input == io.input
                  && t[i].io.out == ToPipe(n) && t[i].io.err == if all then ToPipe(n) else io.err)
            && (forall i :: m <= i < |t| && t[i].Executed? ==>
                  && i == |t| - 2 && t[i].argv == Xargs.Line(c.sh.cwd, TextsOf(b)) && t[i].io.input == FromPipe(n)
                  && t[i].io.inSet && t[i].io.out == io.out && t[i].io.err == io.err)
  {
    hide Statement, Plainly, Xargs.Line, LastExecutes, AllWritten, TextsOf;
    var n := |c.w.trace|;
    var mine := if o.share(c.w.trace) <= c.w.left then o.share(c.w.trace) else c.w.left;
    var cl, lio := c.(w := c.w.(left := mine)), io.(out := ToPipe(n));
    PlainExecutes(o, cl, a, lio, all);
    var l := Statement(o, cl, Plainly(a, false), lio, all);
    m := |l.c.w.trace|;
    var cr := Conf(c.sh, World(l.c.w.trace, c.w.left - mine, c.w.overdrawn));
    var rio := io.(input := FromPipe(n), inSet := true);
    PlainExecutes(o, cr, b, rio, false);
    var r := Statement(o, cr, Plainly(b, false), rio, false);
    var t := Pipeline(o, c, Plainly(a, false), Plainly(b, false), all, io).c.w.trace;
    assert t == r.c.w.trace + [Polled];
    hide Pipeline;
    BothExecute(o, c.w.trace, l.c.w.trace, r.c.w.trace, c.sh.cwd, Xargs.Line(c.sh.cwd, TextsOf(a)),
                Xargs.Line(c.sh.cwd, TextsOf(b)), if all then lio.(err := lio.out) else lio, rio, l.value, r.value);
  }

  lemma BothExecute(o: Oracle, s: Trace, u: Trace, v: Trace, cwd: string, a: seq<string>, b: seq<string>, lio: IO,
                    rio: IO, x: int, y: int)
    requires s <= u <= v && LastExecutes(o, u, |s|, cwd, a, lio, x) && LastExecutes(o, v, |u|, cwd, b, rio, y)
    ensures var t := v + [Polled];
            && (forall i :: |s| <= i < |u| && t[i].Executed? ==> i == |u| - 1 && t[i].argv == a && t[i].io == lio)
            && (forall i :: |u| <= i < |t| && t[i].Executed? ==> i == |t| - 2 && t[i].argv == b && t[i].io == rio)
  {
    hide Xargs.Result;
    var t := v + [Polled];
    forall i | |s| <= i < |u| && t[i].Executed? ensures t[i] == u[i] {}
  }

  // ---------------------------------------------------------------------
  // cd
  // ---------------------------------------------------------------------

  /** Where cd is asked to go. */
  function Wish(sh: Sh, args: seq<string>): string
    requires 1 <= |args| <= 2
  {
    var to := if |args| == 1 then Get(sh.vars, "HOME").text else args[1];
    if to == "-" then Get(sh.vars, "OLDPWD").text else to
  }

  lemma CleanResolved(cwd: string, name: string)
    ensures Clean(Resolve(cwd, name)) == "/" + Text(Destination(cwd, name))
  {
    hide Join, Clean;
    var d, r := Destination(cwd, name), Resolve(cwd, name);
    ResolveIsClimb(cwd, name);
    hide Resolve;
    CleanRooted(r[1..]);
    assert "/" + r[1..] == r;
    Sound.TextLeads(d);
    if d != [] && AsksForDirectory(name) {
      assert r[1..] == Text(d) + "/" + "";
      SplitAppend(Text(d), "");
      assert Split("") == [""];
      ClimbAppend([], Split(Text(d)), [""]);
      ClimbOne(d, "");
    } else {
      assert r[1..] == Text(d);
    }
  }

  /** cd goes where following the components of the name leads, when that is a
      directory: this is then the working directory and PWD, and OLDPWD is the one
      before; nothing else changes.  Otherwise the shell stays as it is, and the
      status is one. */
  lemma ChangeDirGoes(o: Oracle, c: Conf, args: seq<string>, io: IO)
    requires 1 <= |args| <= 2
    ensures var r, name := ChangeDir(o, c, args, io), Wish(c.sh, args);
            && r.err.None?
            && (r.value == 0 <==> o.isDir(c.w.trace, Resolve(c.sh.cwd, name)))
            && (r.value == 0 ==>
                  && r.c.sh.cwd == "/" + Text(Destination(c.sh.cwd, name))
                  && Get(r.c.sh.vars, "PWD") == Variable(r.c.sh.cwd, true, true)
                  && Get(r.c.sh.vars, "OLDPWD") == Variable(c.sh.cwd, true, true)
                  && (forall k :: k != "PWD" && k != "OLDPWD" ==> Get(r.c.sh.vars, k) == Get(c.sh.vars, k))
                  && r.c.sh == c.sh.(cwd := r.c.sh.cwd, vars := r.c.sh.vars))
            && (r.value != 0 ==> r.c.sh == c.sh && r.value == 1)
  {
    CleanResolved(c.sh.cwd, Wish(c.sh, args));
    hide Clean, Resolve;
  }

  /** Going somewhere and back: after cd and `cd -` the working directory is the one
      before, and OLDPWD the one between. */
  lemma ThereAndBack(o: Oracle, c: Conf, there: string, io: IO)
    requires Sound.CleanDir(c.sh.cwd)
    requires var r := ChangeDir(o, c, ["cd", there], io);
             r.value == 0 && ChangeDir(o, r.c, ["cd", "-"], io).value == 0
    ensures var r := ChangeDir(o, c, ["cd", there], io);
            var b := ChangeDir(o, r.c, ["cd", "-"], io);
            && b.c.sh.cwd == c.sh.cwd
            && Get(b.c.sh.vars, "PWD").text == c.sh.cwd && Get(b.c.sh.vars, "OLDPWD").text == r.c.sh.cwd
  {
    var r := ChangeDir(o, c, ["cd", there], io);
    ChangeDirGoes(o, c, ["cd", there], io);
    ChangeDirGoes(o, r.c, ["cd", "-"], io);
    hide ChangeDir, Clean;
    var cwd := c.sh.cwd;
    CleanRooted(cwd[1..]);
    assert "/" + cwd[1..] == cwd;
    var d := Climb([], Split(cwd[1..]));
    SplitCons('/', cwd[1..]);
    ClimbAppend([], [""], Split(cwd[1..]));
    ClimbOne([], "");
    assert Split(cwd) == [""] + Split(cwd[1..]);
    assert Destination(r.c.sh.cwd, cwd) == d;
  }

  // ---------------------------------------------------------------------
  // Arguments
  // ---------------------------------------------------------------------

  /** Numbers are read as they are written, and are not names of special parameters. */
  ghost predicate Numerals(o: Oracle) {
    forall i: nat :: i > 0 ==>
      o.atoi(o.itoa(i)) == Some(i) && o.itoa(i) !in ["?", "#", "@", "*", "$", "PPID", "0"]
  }

  /** $1 is the first argument and so on up to $#; together they are $@. */
  lemma Arguments(o: Oracle, sh: Sh, i: nat)
    requires Numerals(o) && 0 < i <= |sh.args|
    ensures Lookup(o, sh, o.itoa(i)) == [sh.args[i - 1]]
    ensures |Lookup(o, sh, "@")| == |sh.args| && Lookup(o, sh, "@")[i - 1] == sh.args[i - 1]
    ensures Lookup(o, sh, "#") == [o.itoa(|Lookup(o, sh, "@")|)] && Lookup(o, sh, "?") == [o.itoa(sh.status)]
  {
    assert o.itoa(i) !in ["?", "#", "@", "*", "$", "PPID", "0"];
    forall k | k in ["?", "#", "@", "*", "$", "PPID", "0"] ensures o.itoa(i) != k {}
    assert ["?", "#", "@", "*", "$", "PPID", "0"][0] == "?";
  }

  /** In a function's body they are the words after its name. */
  lemma FunctionArguments(o: Oracle, c: Conf, args: seq<string>, i: nat)
    requires Numerals(o) && args != [] && 0 < i < |args|
    ensures Lookup(o, c.sh.(args := args[1..], depth := c.sh.depth + 1), o.itoa(i)) == [args[i]]
  {
    Arguments(o, c.sh.(args := args[1..], depth := c.sh.depth + 1), i);
  }

  // ---------------------------------------------------------------------
  // Looking a command up
  // ---------------------------------------------------------------------

  /** Where a name may be: under it in those directories that lead to a program
      directory, in their order. */
  function Candidates(cwd: string, dirs: seq<string>, name: string): seq<string> {
    if dirs == [] then []
    else
      var p := Resolve(cwd, PathJoin(dirs[0], name));
      (if InBin(p) then [p] else []) + Candidates(cwd, dirs[1..], name)
  }

  /** From place n on the history is the lookups of some first ones of these paths,
      and none but the last of them found a program. */
  predicate Searches(o: Oracle, t: Trace, n: nat, paths: seq<string>) {
    && n <= |t| <= n + |paths|
    && (forall i :: n <= i < |t| ==> t[i] == Looked(paths[i - n]))
    && (forall i :: n <= i < |t| - 1 ==> !FoundAt(o, t, i))
  }

  predicate FoundAt(o: Oracle, t: Trace, i: nat)
    requires i < |t|
  {
    t[i].Looked? && o.executable(t[..i], t[i].path)
  }

  /** The search looks at one candidate after the other and stops at the first that
      is a program; it fails only when all were looked at and none is. */
  lemma {:induction false} FindsFirst(o: Oracle, c: Conf, dirs: seq<string>, name: string)
    ensures var r, n, paths := FindIn(o, c, dirs, name), |c.w.trace|, Candidates(c.sh.cwd, dirs, name);
            var t := r.c.w.trace;
            && r.c.sh == c.sh && r.err.None? && c.w.trace <= t && Searches(o, t, n, paths)
            && (r.value <==> n < |t| && FoundAt(o, t, |t| - 1))
            && (!r.value ==> |t| == n + |paths|)
    decreases |dirs|
  {
    hide InBin, Resolve, PathJoin, Searches, FoundAt;
    if dirs == [] {
      SearchesNone(o, c.w.trace);
    } else {
      var p := Resolve(c.sh.cwd, PathJoin(dirs[0], name));
      var c1, rest := Log(c, Looked(p)), Candidates(c.sh.cwd, dirs[1..], name);
      assert [] + rest == rest;
      if !InBin(p) {
        FindsFirst(o, c, dirs[1..], name);
      } else if o.executable(c.w.trace, p) {
        SearchesNone(o, c1.w.trace);
        SearchesFirst(o, c.w.trace, c1.w.trace, p, rest);
      } else {
        FindsFirst(o, c1, dirs[1..], name);
        SearchesFirst(o, c.w.trace, FindIn(o, c1, dirs[1..], name).c.w.trace, p, rest);
      }
    }
  }

  lemma SearchesNone(o: Oracle, t: Trace)
    ensures forall paths :: Searches(o, t, |t|, paths)
  {
  }

  lemma SearchesFirst(o: Oracle, s: Trace, t: Trace, p: string, rest: seq<string>)
    requires s + [Looked(p)] <= t && Searches(o, t, |s| + 1, rest)
    requires o.executable(s, p) ==> |t| == |s| + 1
    ensures Searches(o, t, |s|, [p] + rest) && (FoundAt(o, t, |s|) <==> o.executable(s, p))
  {
    assert t[..|s|] == s && t[|s|] == Looked(p);
  }

  /** A command is executed exactly when its name leads into a program directory, or
      is found there; the names without a slash are searched for on PATH. */
  lemma ExecutesFound(o: Oracle, c: Conf, args: seq<string>, io: IO)
    requires args != []
    ensures var r, n := External(o, c, args, io), |c.w.trace|;
            var t, dirs := r.c.w.trace, SplitOn(Get(c.sh.vars, "PATH").text, ':');
            && n < |t|
            && if '/' in args[0] then
                 |t| == n + 1 && (t[n].Executed? <==> InBin(Resolve(c.sh.cwd, args[0])))
               else
                 && Searches(o, t[..|t| - 1], n, Candidates(c.sh.cwd, dirs, args[0]))
                 && (t[|t| - 1].Executed? <==> n < |t| - 1 && FoundAt(o, t, |t| - 2))
                 && (!t[|t| - 1].Executed? ==> |t| - 1 == n + |Candidates(c.sh.cwd, dirs, args[0])|)
  {
    hide InBin, Resolve, Candidates, Searches, SplitOn, FindIn, Base;
    if '/' !in args[0] {
      var dirs := SplitOn(Get(c.sh.vars, "PATH").text, ':');
      FindsFirst(o, c, dirs, args[0]);
      var u, t := FindIn(o, c, dirs, args[0]).c.w.trace, External(o, c, args, io).c.w.trace;
      assert t[..|t| - 1] == u;
      if |u| > 0 { assert t[..|u| - 1] == u[..|u| - 1]; }
    }
  }

  // ---------------------------------------------------------------------
  // Limits on fields
  // ---------------------------------------------------------------------

  lemma {:induction false} SizeOfMore(xs: seq<string>, ys: seq<string>)
    ensures Size(xs) <= Size(xs + ys)
    decreases |ys|
  {
    if ys == [] {
      assert xs + ys == xs;
    } else {
      var all := xs + ys;
      assert all[..|all| - 1] == xs + ys[..|ys| - 1];
      SizeOfMore(xs, ys[..|ys| - 1]);
    }
  }

  lemma SizeSnoc(xs: seq<string>, y: string)
    ensures Size(xs + [y]) == Size(xs) + |y|
  {
    assert (xs + [y])[..|xs|] == xs;
  }

  /** Unless the run is cancelled, the fields of a word are accepted, in order,
      exactly when with those before they are not more, nor larger together, than
      is allowed. */
  lemma {:induction false} AdmitExactly(o: Oracle, c: Conf, fields: seq<string>, got: seq<string>)
    requires |got| <= MAX_FIELDS && Size(got) <= MAX_EXPANSION
    ensures var r := Admit(o, c, fields, got);
            && (r.err.None? ==> r.value == got + fields)
            && (r.err != Some(Fail(Cancelled)) ==>
                  (r.err.None? <==> |got + fields| <= MAX_FIELDS && Size(got + fields) <= MAX_EXPANSION))
            && (r.err.Some? ==> r.err == Some(Fail(Cancelled)) || r.err == Some(Fail(Limit)))
    decreases |fields|
  {
    if fields == [] {
      assert got + fields == got;
    } else {
      var p := Poll(o, c);
      var more := got + [fields[0]];
      SizeSnoc(got, fields[0]);
      assert more + fields[1..] == got + fields;
      SizeOfMore(more, fields[1..]);
      if |got| < MAX_FIELDS && Size(more) <= MAX_EXPANSION { AdmitExactly(o, p.c, fields[1..], more); }
    }
  }

  // ---------------------------------------------------------------------
  // Ways to leave
  // ---------------------------------------------------------------------

  /** exit and return with a number: the status is the number modulo 256, never
      negative; without one, it is the last status. */
  lemma LeaveStatus(o: Oracle, c: Conf, name: string, text: string)
    requires (name == "exit" || name == "return") && o.atoi(text).Some?
    ensures var r, n := Leave(o, c, [name, text]), o.atoi(text).value;
            && 0 <= r.value < 256 && (exists k: int :: n == 256 * k + r.value)
            && r.err == Some(Flow(if name == "exit" then Exit else Return, r.value))
    ensures Leave(o, c, [name]).value == c.sh.status
    ensures Leave(o, c, [name]).err == Some(Flow(if name == "exit" then Exit else Return, c.sh.status))
  {
    var n := o.atoi(text).value;
    assert n == 256 * (n / 256) + n % 256;
  }

  /** unset removes the names, and no others. */
  lemma UnsetRemoves(o: Oracle, c: Conf, names: seq<string>, io: IO, k: string)
    ensures var r := Builtin(o, c, ["unset"] + names, io);
            && r.err.None? && r.value == 0 && r.c == c.(sh := c.sh.(vars := r.c.sh.vars))
            && (k in r.c.sh.vars <==> k in c.sh.vars && k !in names)
            && (k in r.c.sh.vars ==> r.c.sh.vars[k] == c.sh.vars[k])
  {
    assert (["unset"] + names)[1..] == names;
  }

  /** break and continue say what they are; with more words they are an error. */
  lemma LoopSignals(c: Conf, name: string, more: seq<string>)
    requires name == "break" || name == "continue"
    ensures LoopControl(c, [name]).err == Some(Flow(if name == "break" then Break else Continue, 0))
    ensures LoopControl(c, [name]).value == 0
    ensures more != [] ==> LoopControl(c, [name] + more) == Out(c, Some(Fail(Other)), 2)
  {
    assert [name] + [] == [name];
  }

  /** pwd prints the working directory on its output. */
  lemma PwdPrints(o: Oracle, c: Conf, args: seq<string>, io: IO)
    requires args == ["pwd"] || args == ["pwd", "-L"] || args == ["pwd", "-P"]
    ensures var r := PrintDir(o, c, args, io);
            && r.c == c.(w := c.w.(trace := c.w.trace + [Printed(io.out, c.sh.cwd)]))
            && (r.err.None? ==> r.value == 0)
  {
  }

  /** The variables of a new shell: those given, the default ones that are not given,
      and PWD, all exported, and no others. */
  lemma InitialVars(cwd: string, env: map<string, string>, k: string)
    ensures var vars, defaults := Initial(cwd, env), {"HOME", "PATH", "TMPDIR", "LC_ALL", "TZ"};
            && (k in vars <==> k == "PWD" || k in env || k in defaults)
            && (k in vars ==> vars[k].isSet && vars[k].exported)
            && Get(vars, "PWD").text == cwd
            && (k in env && k != "PWD" ==> Get(vars, k).text == env[k])
    ensures "HOME" !in env ==> Get(Initial(cwd, env), "HOME").text == "/work"
    ensures "PATH" !in env ==> Get(Initial(cwd, env), "PATH").text == "/usr/bin:/bin"
  {
  }

  // ---------------------------------------------------------------------
  // Closing
  // ---------------------------------------------------------------------

  /** The event at place i is a closing that failed. */
  predicate ClosingFailed(o: Oracle, t: Trace, i: nat)
    requires i < |t|
  {
    t[i].Closed? && o.closeFails(t[..i], t[i].h)
  }

  predicate AnyFailed(o: Oracle, t: Trace, n: nat) {
    exists i :: n <= i < |t| && ClosingFailed(o, t, i)
  }

  /** From place n on the history closes the files, the last first. */
  predicate ClosesAll(t: Trace, n: nat, closers: seq<nat>) {
    && |t| == n + |closers|
    && forall i :: n <= i < |t| ==> t[i] == Event.Closed(closers[|t| - 1 - i])
  }

  /** The outcome where there was one and some closing failed or none did. */
  function AfterClosing(failed: bool, err: Option<Error>, code: int): (Option<Error>, int) {
    if failed && (err.None? || err.value.Flow?) then (Some(Fail(Other)), 1) else (err, code)
  }

  /** Files are closed, each once and the last first; the outcome is the one there
      was, unless a closing failed and it was no failure already. */
  lemma {:induction false} CloseOutcome(o: Oracle, c: Conf, closers: seq<nat>, err: Option<Error>, code: int)
    ensures var r, n := CloseAll(o, c, closers, err, code), |c.w.trace|;
            && r.c.sh == c.sh && c.w.trace <= r.c.w.trace
            && ClosesAll(r.c.w.trace, n, closers)
            && (r.err, r.value) == AfterClosing(AnyFailed(o, r.c.w.trace, n), err, code)
    decreases |closers|
  {
    var n := |c.w.trace|;
    if closers != [] {
      var h, rest := closers[|closers| - 1], closers[..|closers| - 1];
      var c1 := Log(c, Event.Closed(h));
      var fails := o.closeFails(c.w.trace, h);
      var (e, k) := AfterClosing(fails, err, code);
      CloseOutcome(o, c1, rest, e, k);
      var r := CloseAll(o, c1, rest, e, k);
      assert CloseAll(o, c, closers, err, code) == r;
      ClosedBefore(o, r.c.w.trace, c.w.trace, h, rest);
    }
  }

  /** One more file closed first. */
  lemma ClosedBefore(o: Oracle, t: Trace, before: Trace, h: nat, rest: seq<nat>)
    requires before + [Event.Closed(h)] <= t && ClosesAll(t, |before| + 1, rest)
    ensures ClosesAll(t, |before|, rest + [h])
    ensures AnyFailed(o, t, |before|) <==> o.closeFails(before, h) || AnyFailed(o, t, |before| + 1)
  {
    var n := |before|;
    assert t[..n] == before && t[n] == Event.Closed(h);
    assert ClosingFailed(o, t, n) <==> o.closeFails(before, h);
    if AnyFailed(o, t, n) {
      var i :| n <= i < |t| && ClosingFailed(o, t, i);
      assert i == n || AnyFailed(o, t, n + 1);
    }
    if AnyFailed(o, t, n + 1) {
      var i :| n + 1 <= i < |t| && ClosingFailed(o, t, i);
      assert n <= i;
    }
  }
}
