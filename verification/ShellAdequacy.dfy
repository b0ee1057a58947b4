/** The evaluator and the rules agree: what is derived is what the evaluator
    computes, and what it computes can be derived. */
module ShellAdequacy {
  import opened Store
  import opened ShellSyntax
  import opened ShellState
  import opened ShellEval
  import opened ShellRules
  import Resolving
  import Xargs

  function OfStreams(r: Out<Redirected>): Outcome { Out(r.c, r.err, Streams(r.value.io, r.value.closers)) }

  /** What the evaluator makes of a goal. */
  function Computed(o: Oracle, goal: Goal, io: IO, c: Conf): Outcome {
    match goal
    case OfPart(p) => var r := ExpandPart(o, c, p, io); Out(r.c, r.err, Text(r.value))
    case OfWord(w) => var r := Expand(o, c, w, io); Out(r.c, r.err, Texts(r.value))
    case OfFields(words, got) => var r := Fields(o, c, words, io, got); Out(r.c, r.err, Words(r.value))
    case OfAssign(a, x) => OfCode(Assignment(o, c, a, x, io))
    case OfAssigns(xs, x) => OfCode(Assignments(o, c, xs, x, io))
    case OfExports(xs) => OfCode(Exports(o, c, xs, io))
    case OfRedir(rd) => OfStreams(RedirectOne(o, c, rd, io))
    case OfRedirs(rs, open) => OfStreams(Redirect(o, c, rs, io, open))
    case OfList(xs, last) => OfCode(List(o, c, xs, io, last))
    case OfStmt(x, all) => OfCode(Statement(o, c, x, io, all))
    case OfLine(x, args, all) => OfCode(CommandLine(o, c, x, args, io, all))
    case OfCmd(cmd) => OfCode(Command(o, c, cmd, io))
    case OfFor(name, items, body, last) => OfCode(ForLoop(o, c, name, items, body, io, last))
    case OfWhile(cond, body, until, last) => OfCode(WhileLoop(o, c, cond, body, until, io, last))
    case OfPrefix(xs, before) =>
      var r := Prefixes(o, c, xs, before, io); Out(r.c, r.err, Kept(r.value.before, r.value.code))
    case OfCall(xs, args) => OfCode(Call(o, c, xs, args, io))
    case OfInvoke(args) => if args == [] then Out(c, None, Status(0)) else OfCode(Invoke(o, c, args, io))
  }

  predicate Right(o: Oracle, j: Judgment) { j.out == Computed(o, j.goal, j.io, j.c) }

  predicate AllRight(o: Oracle, ps: seq<Judgment>) { forall p :: p in ps ==> Right(o, p) }

  // ---------------------------------------------------------------------
  // What is derived is computed
  // ---------------------------------------------------------------------

  lemma ListRight(o: Oracle, j: Judgment, xs: seq<Stmt>, last: int, ps: seq<Judgment>)
    requires j.goal == OfList(xs, last) && ListRule(j, xs, last, ps) && AllRight(o, ps)
    ensures Right(o, j)
  {
    hide Statement;
    if xs != [] { assert Right(o, ps[0]); }
    if |ps| == 2 { assert Right(o, ps[1]); }
  }

  /** A statement whose words are expanded. */
  function Redirecting(o: Oracle, c: Conf, x: Stmt, args: seq<string>, io: IO, all: bool): Out<int> {
    var r := Redirect(o, c, x.redirs, io, []);
    var d := if r.err.Some? then Complain(o, r.c, r.err.value, io)
        else CommandLine(o, r.c, x, args, r.value.io, all);
    CloseAll(o, d.c, r.value.closers, d.err, d.value)
  }

  lemma PerformIs(o: Oracle, c: Conf, x: Stmt, io: IO, all: bool)
    ensures var c1 := c.(sh := c.sh.(subStatus := 0));
            Perform(o, c, x, io, all) ==
              if !x.cmd.Simple? then Redirecting(o, c1, x, [], io, all)
              else
                var f := Fields(o, c1, x.cmd.words, io, []);
                if f.err.Some? then Out(f.c, f.err, 1) else Redirecting(o, f.c, x, f.value, io, all)
  {
    hide Fields, Redirect, CommandLine, Complain, CloseAll;
  }

  lemma RedirectedRight(o: Oracle, j: Judgment, c: Conf, x: Stmt, args: seq<string>, all: bool, ps: seq<Judgment>)
    requires RedirectedRule(o, j, c, x, args, all, ps) && AllRight(o, ps)
    ensures j.out == OfCode(Redirecting(o, c, x, args, j.io, all))
  {
    hide Redirect, CommandLine, CloseAll;
    assert Right(o, ps[0]);
    if |ps| > 1 { assert Right(o, ps[1]); }
  }

  lemma StmtRight(o: Oracle, j: Judgment, x: Stmt, all: bool, ps: seq<Judgment>)
    requires j.goal == OfStmt(x, all) && StmtRule(o, j, x, all, ps) && AllRight(o, ps)
    ensures Right(o, j)
  {
    hide Step, Fields, Redirecting, RedirectedRule, Perform;
    var s := Step(o, j.c);
    if s.err.None? {
      PerformIs(o, s.c, x, j.io, all);
      var c1 := s.c.(sh := s.c.sh.(subStatus := 0));
      if x.cmd.Simple? {
        assert Right(o, ps[0]);
        var f := Fields(o, c1, x.cmd.words, j.io, []);
        if f.err.None? {
          assert AllRight(o, ps[1..]) by { assert forall p :: p in ps[1..] ==> p in ps; }
          RedirectedRight(o, j, f.c, x, f.value, all, ps[1..]);
        }
      } else {
        RedirectedRight(o, j, c1, x, [], all, ps);
      }
    }
  }

  lemma LineRight(o: Oracle, j: Judgment, x: Stmt, args: seq<string>, all: bool, ps: seq<Judgment>)
    requires j.goal == OfLine(x, args, all) && LineRule(j, x, args, all, ps) && AllRight(o, ps)
    ensures Right(o, j)
  {
    hide Call, Command;
    assert Right(o, ps[0]);
  }

  lemma CmdRight(o: Oracle, j: Judgment, x: Cmd, ps: seq<Judgment>)
    requires j.goal == OfCmd(x) && CmdRule(o, j, x, ps) && AllRight(o, ps)
    ensures Right(o, j)
  {
    hide List, Statement, Pipeline, ForLoop, WhileLoop, Fields, Exports, PipeRule;
    if |ps| > 0 { assert Right(o, ps[0]); }
    if |ps| > 1 { assert Right(o, ps[1]); }
    if x.Pipe? { PipeRight(o, j, x.left, x.right, x.all, ps); }
  }

  lemma PipeRight(o: Oracle, j: Judgment, left: Stmt, right: Stmt, all: bool, ps: seq<Judgment>)
    requires PipeRule(o, j, left, right, all, ps) && AllRight(o, ps)
    ensures j.out == OfCode(Pipeline(o, j.c, left, right, all, j.io))
  {
    hide Statement, Joins, PipelineEnd;
    assert Right(o, ps[0]) && Right(o, ps[1]);
    var n, c := |j.c.w.trace|, j.c;
    var mine := if o.share(c.w.trace) <= c.w.left then o.share(c.w.trace) else c.w.left;
    var l := Statement(o, c.(w := c.w.(left := mine)), left, j.io.(out := ToPipe(n)), all);
    var r := Statement(o, Conf(c.sh, World(l.c.w.trace, c.w.left - mine, c.w.overdrawn)), right,
                       j.io.(input := FromPipe(n), inSet := true), false);
    JoinsIsEnd(o, j, l, r);
  }

  lemma JoinsIsEnd(o: Oracle, j: Judgment, l: Out<int>, r: Out<int>)
    ensures Joins(o, j, OfCode(l), OfCode(r)) <==>
            j.out == OfCode(PipelineEnd(o, Rejoin(j.c, l.c.w, r.c.w), l, r))
  {
  }

  lemma LoopRight(o: Oracle, j: Judgment, name: string, items: seq<string>, body: seq<Stmt>, last: int,
                  ps: seq<Judgment>)
    requires j.goal == OfFor(name, items, body, last) && LoopRule(o, j, name, items, body, last, ps) && AllRight(o, ps)
    ensures Right(o, j)
  {
    hide List, Step, Set;
    if |ps| > 0 { assert Right(o, ps[0]); }
    if |ps| > 1 { assert Right(o, ps[1]); }
  }

  lemma WhileRight(o: Oracle, j: Judgment, cond: seq<Stmt>, body: seq<Stmt>, until: bool, last: int,
                   ps: seq<Judgment>)
    requires j.goal == OfWhile(cond, body, until, last) && WhileRule(o, j, cond, body, until, last, ps)
    requires AllRight(o, ps)
    ensures Right(o, j)
  {
    hide List, Step;
    if |ps| > 0 { assert Right(o, ps[0]); }
    if |ps| > 1 { assert Right(o, ps[1]); }
    if |ps| > 2 { assert Right(o, ps[2]); }
  }

  lemma CallRight(o: Oracle, j: Judgment, xs: seq<Assign>, args: seq<string>, ps: seq<Judgment>)
    requires j.goal == OfCall(xs, args) && CallRule(j, xs, args, ps) && AllRight(o, ps)
    ensures Right(o, j)
  {
    hide Assignments, Prefixes, Invoke, PutBack, Restore;
    assert Right(o, ps[0]);
    if |ps| > 1 { assert Right(o, ps[1]); }
    if args != [] {
      var before := ps[0].out.value.before;
      if |ps| == 1 {
        PutBackIsRestore(j, before, ps[0].out.c, ps[0].out.err, 1);
      } else {
        PutBackIsRestore(j, before, ps[1].out.c, ps[1].out.err, ps[1].out.value.code);
      }
    }
  }

  lemma PutBackIsRestore(j: Judgment, before: Saved, c: Conf, err: Option<Error>, code: int)
    ensures PutBack(j, before, c, err, code) <==>
            j.out == Out(c.(sh := c.sh.(vars := Restore(c.sh.vars, before))), err, Status(code))
  {
    if PutBack(j, before, c, err, code) {
      assert j.out.c.sh.vars == Restore(c.sh.vars, before);
      assert j.out.c == c.(sh := c.sh.(vars := Restore(c.sh.vars, before)));
    }
  }

  lemma PrefixRight(o: Oracle, j: Judgment, xs: seq<Assign>, before: Saved, ps: seq<Judgment>)
    requires j.goal == OfPrefix(xs, before) && PrefixRule(j, xs, before, ps) && AllRight(o, ps)
    ensures Right(o, j)
  {
    hide Assignment;
    if |ps| > 0 { assert Right(o, ps[0]); }
    if |ps| > 1 { assert Right(o, ps[1]); }
  }

  lemma InvokeRight(o: Oracle, j: Judgment, args: seq<string>, ps: seq<Judgment>)
    requires j.goal == OfInvoke(args) && InvokeRule(o, j, args, ps) && AllRight(o, ps)
    ensures Right(o, j)
  {
    hide Statement, List, Builtin, BuiltinRule, Nested, NestedRule, CallFunction, FunctionRule;
    if args[0] in j.c.sh.funcs {
      FunctionRight(o, j, args, ps);
    } else if args[0] == "sh" || args[0] == "bash" {
      NestedRight(o, j, args, ps);
    } else {
      BuiltinIs(o, j, args);
    }
  }

  lemma BuiltinIs(o: Oracle, j: Judgment, args: seq<string>)
    requires args != []
    ensures BuiltinRule(o, j, args) <==> j.out == OfCode(Builtin(o, j.c, args, j.io))
  {
    hide External, ChangeDir, PrintDir, Leave, LoopControl, Xargs.Run;
  }

  lemma FunctionRight(o: Oracle, j: Judgment, args: seq<string>, ps: seq<Judgment>)
    requires args != [] && args[0] in j.c.sh.funcs && FunctionRule(j, args, ps) && AllRight(o, ps)
    ensures j.out == OfCode(CallFunction(o, j.c, args, j.io))
  {
    hide Statement;
    if |ps| > 0 { assert Right(o, ps[0]); }
  }

  lemma NestedRight(o: Oracle, j: Judgment, args: seq<string>, ps: seq<Judgment>)
    requires args != [] && NestedRule(o, j, args, ps) && AllRight(o, ps)
    ensures j.out == OfCode(Nested(o, j.c, args, j.io))
  {
    hide List, Say, Initial, Exported;
    if |ps| > 0 {
      assert Right(o, ps[0]);
      StartIsNested(ps[0].c.sh, j.c, args);
    }
  }

  lemma StartIsNested(sh: Sh, c: Conf, args: seq<string>)
    requires |args| >= 3
    ensures NestedStart(sh, c.sh, args) <==> sh == NestedShell(c, args)
  {
    hide Initial, Exported;
  }

  lemma AssignRight(o: Oracle, j: Judgment, a: Assign, x: bool, ps: seq<Judgment>)
    requires j.goal == OfAssign(a, x) && AssignRule(j, a, x, ps) && AllRight(o, ps)
    ensures Right(o, j)
  {
    hide Expand;
    assert Right(o, ps[0]);
    assert forall s: string :: "" + s == s;
  }

  lemma AssignsRight(o: Oracle, j: Judgment, xs: seq<Assign>, x: bool, ps: seq<Judgment>)
    requires j.goal == OfAssigns(xs, x) && AssignsRule(j, xs, x, ps) && AllRight(o, ps)
    ensures Right(o, j)
  {
    hide Assignment;
    if |ps| > 0 { assert Right(o, ps[0]); }
    if |ps| > 1 { assert Right(o, ps[1]); }
  }

  lemma ExportsRight(o: Oracle, j: Judgment, xs: seq<Exportable>, ps: seq<Judgment>)
    requires j.goal == OfExports(xs) && ExportsRule(j, xs, ps) && AllRight(o, ps)
    ensures Right(o, j)
  {
    hide Assignment;
    if |ps| > 0 { assert Right(o, ps[0]); }
    if |ps| > 1 { assert Right(o, ps[1]); }
  }

  lemma PartRight(o: Oracle, j: Judgment, p: Part, ps: seq<Judgment>)
    requires j.goal == OfPart(p) && PartRule(o, j, p, ps) && AllRight(o, ps)
    ensures Right(o, j)
  {
    hide Expand, List, Lookup, Set;
    if |ps| > 0 { assert Right(o, ps[0]); }
    if p.Subst? { SubstRight(o, j, p.body, ps); }
  }

  lemma SubstRight(o: Oracle, j: Judgment, body: seq<Stmt>, ps: seq<Judgment>)
    requires SubstRule(o, j, body, ps) && AllRight(o, ps)
    ensures var r := Substitute(o, j.c, body, j.io); j.out == Out(r.c, r.err, Text(r.value))
  {
    hide List;
    if |ps| > 0 { assert Right(o, ps[0]); }
  }

  lemma WordRight(o: Oracle, j: Judgment, w: seq<Part>, ps: seq<Judgment>)
    requires j.goal == OfWord(w) && WordRule(j, w, ps) && AllRight(o, ps)
    ensures Right(o, j)
  {
    hide ExpandPart;
    if |ps| > 0 { assert Right(o, ps[0]); }
    if |ps| > 1 { assert Right(o, ps[1]); }
  }

  lemma FieldsRight(o: Oracle, j: Judgment, words: seq<Word>, got: seq<string>, ps: seq<Judgment>)
    requires j.goal == OfFields(words, got) && FieldsRule(o, j, words, got, ps) && AllRight(o, ps)
    ensures Right(o, j)
  {
    hide Expand, Admit, FieldsOf;
    if |ps| > 0 { assert Right(o, ps[0]); }
    if |ps| > 1 { assert Right(o, ps[1]); }
  }

  lemma RedirRight(o: Oracle, j: Judgment, rd: Redir, ps: seq<Judgment>)
    requires j.goal == OfRedir(rd) && RedirRule(o, j, rd, ps) && AllRight(o, ps)
    ensures Right(o, j)
  {
    hide Expand, Fields, Resolving.Resolve;
    assert Right(o, ps[0]);
  }

  lemma RedirsRight(o: Oracle, j: Judgment, rs: seq<Redir>, open: seq<nat>, ps: seq<Judgment>)
    requires j.goal == OfRedirs(rs, open) && RedirsRule(j, rs, open, ps) && AllRight(o, ps)
    ensures Right(o, j)
  {
    hide RedirectOne;
    if |ps| > 0 { assert Right(o, ps[0]); }
    if |ps| > 1 { assert Right(o, ps[1]); }
  }

  lemma RuleRight(o: Oracle, j: Judgment, ps: seq<Judgment>)
    requires Follows(o, j, ps) && AllRight(o, ps)
    ensures Right(o, j)
  {
    hide PartRule, WordRule, FieldsRule, AssignRule, AssignsRule, ExportsRule, RedirRule, RedirsRule, ListRule;
    hide StmtRule, LineRule, CmdRule, LoopRule, WhileRule, PrefixRule, CallRule, InvokeRule, Right, AllRight;
    match j.goal
    case OfPart(p) => PartRight(o, j, p, ps);
    case OfWord(w) => WordRight(o, j, w, ps);
    case OfFields(words, got) => FieldsRight(o, j, words, got, ps);
    case OfAssign(a, x) => AssignRight(o, j, a, x, ps);
    case OfAssigns(xs, x) => AssignsRight(o, j, xs, x, ps);
    case OfExports(xs) => ExportsRight(o, j, xs, ps);
    case OfRedir(rd) => RedirRight(o, j, rd, ps);
    case OfRedirs(rs, open) => RedirsRight(o, j, rs, open, ps);
    case OfList(xs, last) => ListRight(o, j, xs, last, ps);
    case OfStmt(x, all) => StmtRight(o, j, x, all, ps);
    case OfLine(x, args, all) => LineRight(o, j, x, args, all, ps);
    case OfCmd(cmd) => CmdRight(o, j, cmd, ps);
    case OfFor(name, items, body, last) => LoopRight(o, j, name, items, body, last, ps);
    case OfWhile(cond, body, until, last) => WhileRight(o, j, cond, body, until, last, ps);
    case OfPrefix(xs, before) => PrefixRight(o, j, xs, before, ps);
    case OfCall(xs, args) => CallRight(o, j, xs, args, ps);
    case OfInvoke(args) => InvokeRight(o, j, args, ps);
  }

  /** Every derivation ends in what the evaluator computes, so that no two disagree. */
  lemma {:induction false} DerivedIsComputed(o: Oracle, t: Tree)
    requires Derivation(o, t)
    ensures Right(o, t.j)
    decreases t
  {
    hide Follows, Right;
    forall p | p in Roots(t.from) ensures Right(o, p) {
      var i :| 0 <= i < |t.from| && Roots(t.from)[i] == p;
      assert t.from[i] in t.from;
      DerivedIsComputed(o, t.from[i]);
    }
    RuleRight(o, t.j, Roots(t.from));
  }

  // ---------------------------------------------------------------------
  // What is computed is derived
  // ---------------------------------------------------------------------

  /** What the evaluator says of a goal. */
  function Says(o: Oracle, goal: Goal, io: IO, c: Conf): Judgment { Judgment(goal, io, c, Computed(o, goal, io, c)) }

  /** The tree derives what the evaluator says. */
  predicate Shows(o: Oracle, t: Tree, goal: Goal, io: IO, c: Conf) {
    Derivation(o, t) && t.j == Says(o, goal, io, c)
  }

  lemma Node0(o: Oracle, j: Judgment) returns (t: Tree)
    requires Follows(o, j, [])
    ensures Derivation(o, t) && t.j == j
  {
    hide Follows;
    t := Tree(j, []);
    assert Roots([]) == [];
  }

  lemma Node1(o: Oracle, j: Judgment, a: Tree) returns (t: Tree)
    requires Follows(o, j, [a.j]) && Derivation(o, a)
    ensures Derivation(o, t) && t.j == j
  {
    hide Follows;
    t := Tree(j, [a]);
    assert Roots([a]) == [a.j];
    assert Derivation(o, t) by { forall d | d in t.from ensures Derivation(o, d) { assert d == a; } }
  }

  lemma Node2(o: Oracle, j: Judgment, a: Tree, b: Tree) returns (t: Tree)
    requires Follows(o, j, [a.j, b.j]) && Derivation(o, a) && Derivation(o, b)
    ensures Derivation(o, t) && t.j == j
  {
    hide Follows;
    t := Tree(j, [a, b]);
    assert Roots([a, b]) == [a.j, b.j];
    assert Derivation(o, t) by { forall d | d in t.from ensures Derivation(o, d) { assert d == a || d == b; } }
  }

  lemma Node3(o: Oracle, j: Judgment, a: Tree, b: Tree, d: Tree) returns (t: Tree)
    requires Follows(o, j, [a.j, b.j, d.j]) && Derivation(o, a) && Derivation(o, b) && Derivation(o, d)
    ensures Derivation(o, t) && t.j == j
  {
    hide Follows;
    t := Tree(j, [a, b, d]);
    assert Roots([a, b, d]) == [a.j, b.j, d.j];
    assert Derivation(o, t) by {
      forall e | e in t.from ensures Derivation(o, e) { assert e == a || e == b || e == d; }
    }
  }

  lemma {:induction false} DerivePart(o: Oracle, c: Conf, p: Part, io: IO) returns (t: Tree)
    ensures Shows(o, t, OfPart(p), io, c)
    decreases c.w.left, 3, p
  {
    hide Expand, List, Lookup, Set, Derivation;
    var j := Says(o, OfPart(p), io, c);
    match p
    case Lit(_) => t := Node0(o, j);
    case Var(_) => t := Node0(o, j);
    case Default(name, word) =>
      if Spaced(Lookup(o, c.sh, name)) != "" && !o.eager {
        t := Node0(o, j);
      } else {
        var a := DeriveWord(o, c, word, io);
        t := Node1(o, j, a);
      }
    case Subst(body) => t := DeriveSubst(o, c, body, io);
  }

  lemma {:induction false} DeriveSubst(o: Oracle, c: Conf, body: seq<Stmt>, io: IO) returns (t: Tree)
    ensures Shows(o, t, OfPart(Subst(body)), io, c)
    decreases c.w.left, 2
  {
    hide List, Derivation;
    var j := Says(o, OfPart(Subst(body)), io, c);
    assert ExpandPart(o, c, Subst(body), io) == Substitute(o, c, body, io);
    var r := Substitute(o, c, body, io);
    assert j.out == Out(r.c, r.err, Text(r.value));
    if c.sh.depth >= MAX_DEPTH {
      t := Node0(o, j);
    } else {
      var child := Conf(c.sh.(depth := c.sh.depth + 1), c.w);
      var a := DeriveList(o, child, body, IO(io.input, Captured(|c.w.trace|), io.err, io.inSet), 0);
      t := Node1(o, j, a);
    }
  }

  lemma {:induction false} DeriveWord(o: Oracle, c: Conf, w: seq<Part>, io: IO) returns (t: Tree)
    ensures Shows(o, t, OfWord(w), io, c)
    decreases c.w.left, 3, w
  {
    hide ExpandPart, Derivation;
    var j := Says(o, OfWord(w), io, c);
    if w == [] {
      t := Node0(o, j);
    } else {
      var a := DerivePart(o, c, w[0], io);
      var p := ExpandPart(o, c, w[0], io);
      if p.err.Some? {
        t := Node1(o, j, a);
      } else {
        var b := DeriveWord(o, p.c, w[1..], io);
        t := Node2(o, j, a, b);
      }
    }
  }

  lemma {:induction false} DeriveFields(o: Oracle, c: Conf, words: seq<Word>, io: IO, got: seq<string>)
    returns (t: Tree)
    ensures Shows(o, t, OfFields(words, got), io, c)
    decreases c.w.left, 4, |words|
  {
    hide Expand, Admit, FieldsOf, Derivation;
    var j := Says(o, OfFields(words, got), io, c);
    if words == [] {
      t := Node0(o, j);
    } else {
      var a := DeriveWord(o, c, words[0].parts, io);
      var e := Expand(o, c, words[0].parts, io);
      var d := Admit(o, e.c, FieldsOf(o, e.c, words[0].parts, e.value), got);
      if e.err.Some? || d.err.Some? {
        t := Node1(o, j, a);
      } else {
        var b := DeriveFields(o, d.c, words[1..], io, d.value);
        t := Node2(o, j, a, b);
      }
    }
  }

  lemma {:induction false} DeriveAssign(o: Oracle, c: Conf, a: Assign, x: bool, io: IO) returns (t: Tree)
    ensures Shows(o, t, OfAssign(a, x), io, c)
    decreases c.w.left, 4, 0
  {
    hide Expand, Derivation;
    var d := DeriveWord(o, c, a.value, io);
    assert forall s: string :: "" + s == s;
    t := Node1(o, Says(o, OfAssign(a, x), io, c), d);
  }

  lemma {:induction false} DeriveAssigns(o: Oracle, c: Conf, xs: seq<Assign>, x: bool, io: IO) returns (t: Tree)
    ensures Shows(o, t, OfAssigns(xs, x), io, c)
    decreases c.w.left, 5, |xs|
  {
    hide Assignment, Derivation;
    var j := Says(o, OfAssigns(xs, x), io, c);
    if xs == [] {
      t := Node0(o, j);
    } else {
      var a := DeriveAssign(o, c, xs[0], x, io);
      var r := Assignment(o, c, xs[0], x, io);
      if r.err.Some? {
        t := Node1(o, j, a);
      } else {
        var b := DeriveAssigns(o, r.c, xs[1..], x, io);
        t := Node2(o, j, a, b);
      }
    }
  }

  lemma {:induction false} DeriveExports(o: Oracle, c: Conf, xs: seq<Exportable>, io: IO) returns (t: Tree)
    ensures Shows(o, t, OfExports(xs), io, c)
    decreases c.w.left, 5, |xs|
  {
    hide Assignment, Derivation;
    var j := Says(o, OfExports(xs), io, c);
    if xs == [] || xs[0].Dynamic? {
      t := Node0(o, j);
    } else if xs[0].assign.naked {
      var k := xs[0].assign.name;
      var d := c.(sh := c.sh.(vars := c.sh.vars[k := Get(c.sh.vars, k).(exported := true)]));
      var a := DeriveExports(o, d, xs[1..], io);
      t := Node1(o, j, a);
    } else {
      var a := DeriveAssign(o, c, xs[0].assign, true, io);
      var r := Assignment(o, c, xs[0].assign, true, io);
      if r.err.Some? {
        t := Node1(o, j, a);
      } else {
        var b := DeriveExports(o, r.c, xs[1..], io);
        t := Node2(o, j, a, b);
      }
    }
  }

  lemma {:induction false} DeriveRedir(o: Oracle, c: Conf, rd: Redir, io: IO) returns (t: Tree)
    ensures Shows(o, t, OfRedir(rd), io, c)
    decreases c.w.left, 5, 0
  {
    hide Expand, Fields, Resolving.Resolve, Derivation;
    var j := Says(o, OfRedir(rd), io, c);
    if rd.op == HereDoc || rd.op == HereString {
      var a := DeriveWord(o, c, rd.word, io);
      t := Node1(o, j, a);
    } else {
      var a := DeriveFields(o, c, [Word(rd.word)], io, []);
      t := Node1(o, j, a);
    }
  }

  lemma {:induction false} DeriveRedirs(o: Oracle, c: Conf, rs: seq<Redir>, io: IO, open: seq<nat>) returns (t: Tree)
    ensures Shows(o, t, OfRedirs(rs, open), io, c)
    decreases c.w.left, 6, |rs|
  {
    hide RedirectOne, Derivation;
    var j := Says(o, OfRedirs(rs, open), io, c);
    if rs == [] {
      t := Node0(o, j);
    } else {
      var a := DeriveRedir(o, c, rs[0], io);
      var r := RedirectOne(o, c, rs[0], io);
      if r.err.Some? {
        t := Node1(o, j, a);
      } else {
        var b := DeriveRedirs(o, r.c, rs[1..], r.value.io, open + r.value.closers);
        t := Node2(o, j, a, b);
      }
    }
  }

  lemma {:induction false} DeriveList(o: Oracle, c: Conf, xs: seq<Stmt>, io: IO, last: int) returns (t: Tree)
    ensures Shows(o, t, OfList(xs, last), io, c)
    decreases c.w.left, 1, |xs|
  {
    hide Statement, Derivation;
    var j := Says(o, OfList(xs, last), io, c);
    if xs == [] {
      t := Node0(o, j);
    } else {
      var a := DeriveStmt(o, c, xs[0], io, false);
      var s := Statement(o, c, xs[0], io, false);
      if s.err.Some? {
        t := Node1(o, j, a);
      } else {
        var b := DeriveList(o, Marked(s.c, s.value), xs[1..], io, s.value);
        t := Node2(o, j, a, b);
      }
    }
  }

  lemma {:induction false} DeriveStmt(o: Oracle, c: Conf, x: Stmt, io: IO, all: bool) returns (t: Tree)
    ensures Shows(o, t, OfStmt(x, all), io, c)
    decreases c.w.left, 0
  {
    hide Step, Perform, Derivation;
    var s := Step(o, c);
    if s.err.Some? { t := Node0(o, Says(o, OfStmt(x, all), io, c)); } else { t := DerivePerform(o, c, x, io, all); }
  }

  lemma {:induction false} DerivePerform(o: Oracle, c: Conf, x: Stmt, io: IO, all: bool) returns (t: Tree)
    requires Step(o, c).err.None?
    ensures Shows(o, t, OfStmt(x, all), io, c)
    decreases Step(o, c).c.w.left, 9
  {
    hide Step, Fields, Redirecting, RedirectedRule, Perform, Derivation;
    var j, s := Says(o, OfStmt(x, all), io, c), Step(o, c);
    PerformIs(o, s.c, x, io, all);
    var c1 := s.c.(sh := s.c.sh.(subStatus := 0));
    if x.cmd.Simple? {
      var a := DeriveFields(o, c1, x.cmd.words, io, []);
      var f := Fields(o, c1, x.cmd.words, io, []);
      if f.err.Some? {
        t := Node1(o, j, a);
      } else {
        var ts := DeriveRedirecting(o, j, f.c, x, f.value, all);
        if |ts| == 1 {
          assert [a.j, ts[0].j][1..] == Roots(ts);
          t := Node2(o, j, a, ts[0]);
        } else {
          assert [a.j, ts[0].j, ts[1].j][1..] == Roots(ts);
          t := Node3(o, j, a, ts[0], ts[1]);
        }
      }
    } else {
      var ts := DeriveRedirecting(o, j, c1, x, [], all);
      if |ts| == 1 {
        assert [ts[0].j] == Roots(ts);
        t := Node1(o, j, ts[0]);
      } else {
        assert [ts[0].j, ts[1].j] == Roots(ts);
        t := Node2(o, j, ts[0], ts[1]);
      }
    }
  }

  lemma {:induction false} DeriveRedirecting(o: Oracle, j: Judgment, c: Conf, x: Stmt, args: seq<string>, all: bool)
    returns (ts: seq<Tree>)
    requires j.out == OfCode(Redirecting(o, c, x, args, j.io, all))
    ensures 1 <= |ts| <= 2 && RedirectedRule(o, j, c, x, args, all, Roots(ts))
    ensures forall d :: d in ts ==> Derivation(o, d)
    decreases c.w.left, 8, 1
  {
    hide Redirect, CommandLine, CloseAll, Derivation;
    var a := DeriveRedirs(o, c, x.redirs, j.io, []);
    var r := Redirect(o, c, x.redirs, j.io, []);
    ts := [a];
    if r.err.None? {
      var b := DeriveLine(o, r.c, x, args, r.value.io, all);
      ts := [a, b];
    }
  }

  lemma {:induction false} DeriveLine(o: Oracle, c: Conf, x: Stmt, args: seq<string>, io: IO, all: bool)
    returns (t: Tree)
    ensures Shows(o, t, OfLine(x, args, all), io, c)
    decreases c.w.left, 8, 0
  {
    hide Call, Command, Derivation;
    var j, io' := Says(o, OfLine(x, args, all), io, c), if all then io.(err := io.out) else io;
    var a;
    if x.cmd.Simple? { a := DeriveCall(o, c, x.cmd.assigns, args, io'); } else { a := DeriveCmd(o, c, x.cmd, io'); }
    t := Node1(o, j, a);
  }

  lemma {:induction false} DeriveCmd(o: Oracle, c: Conf, x: Cmd, io: IO) returns (t: Tree)
    ensures Shows(o, t, OfCmd(x), io, c)
    decreases c.w.left, 7, x, 1
  {
    hide List, Statement, Pipeline, ForLoop, WhileLoop, Fields, Exports, PipeRule, Derivation;
    var j := Says(o, OfCmd(x), io, c);
    match x
    case Empty => t := Node0(o, j);
    case Simple(_, _) => t := Node0(o, j);
    case Block(body) =>
      var a := DeriveList(o, c, body, io, 0);
      t := Node1(o, j, a);
    case Subshell(body) =>
      var a := DeriveList(o, c, body, io, 0);
      t := Node1(o, j, a);
    case Pipe(left, right, all) => t := DerivePipe(o, c, left, right, all, io);
    case AndOr(_, _, _) => t := DeriveAndOr(o, c, x, io);
    case If(_, _, _) => t := DeriveIf(o, c, x, io);
    case For(_, _, _, _) => t := DeriveForCmd(o, c, x, io);
    case While(cond, body, until) =>
      var a := DeriveWhile(o, c, cond, body, until, io, 0);
      t := Node1(o, j, a);
    case Func(_, _) => t := Node0(o, j);
    case Export(xs) =>
      var a := DeriveExports(o, c, xs, io);
      t := Node1(o, j, a);
  }

  lemma {:induction false} DeriveAndOr(o: Oracle, c: Conf, x: Cmd, io: IO) returns (t: Tree)
    requires x.AndOr?
    ensures Shows(o, t, OfCmd(x), io, c)
    decreases c.w.left, 7, x, 0
  {
    hide Statement, Derivation;
    var j := Says(o, OfCmd(x), io, c);
    var AndOr(isAnd, first, second) := x;
    var a := DeriveStmt(o, c, first, io, false);
    var r := Statement(o, c, first, io, false);
    if r.err.None? && isAnd == (r.value == 0) {
      var b := DeriveStmt(o, r.c, second, io, false);
      t := Node2(o, j, a, b);
    } else {
      t := Node1(o, j, a);
    }
  }

  lemma {:induction false} DeriveIf(o: Oracle, c: Conf, x: Cmd, io: IO) returns (t: Tree)
    requires x.If?
    ensures Shows(o, t, OfCmd(x), io, c)
    decreases c.w.left, 7, x, 0
  {
    hide List, Derivation;
    var j := Says(o, OfCmd(x), io, c);
    var If(cond, thn, els) := x;
    var a := DeriveList(o, c, cond, io, 0);
    var r := List(o, c, cond, io, 0);
    if r.err.None? && r.value == 0 {
      var b := DeriveList(o, r.c, thn, io, 0);
      t := Node2(o, j, a, b);
    } else if r.err.None? && els.Some? {
      var b := DeriveCmd(o, r.c, els.value, io);
      t := Node2(o, j, a, b);
    } else {
      t := Node1(o, j, a);
    }
  }

  lemma {:induction false} DeriveForCmd(o: Oracle, c: Conf, x: Cmd, io: IO) returns (t: Tree)
    requires x.For?
    ensures Shows(o, t, OfCmd(x), io, c)
    decreases c.w.left, 7, x, 0
  {
    hide ForLoop, Fields, Derivation;
    var j := Says(o, OfCmd(x), io, c);
    var For(name, overArgs, items, body) := x;
    if overArgs {
      var a := DeriveFor(o, c, name, c.sh.args, body, io, 0);
      t := Node1(o, j, a);
    } else {
      var a := DeriveFields(o, c, items, io, []);
      var f := Fields(o, c, items, io, []);
      if f.err.Some? {
        t := Node1(o, j, a);
      } else {
        var b := DeriveFor(o, f.c, name, f.value, body, io, 0);
        t := Node2(o, j, a, b);
      }
    }
  }

  lemma OfStmtMeans(o: Oracle, c: Conf, x: Stmt, io: IO, all: bool)
    ensures Computed(o, OfStmt(x, all), io, c) == OfCode(Statement(o, c, x, io, all))
  {
    hide Statement;
  }

  lemma OfPipeMeans(o: Oracle, c: Conf, left: Stmt, right: Stmt, all: bool, io: IO)
    ensures Computed(o, OfCmd(Pipe(left, right, all)), io, c) == OfCode(Pipeline(o, c, left, right, all, io))
  {
    hide Pipeline;
  }

  lemma PipeMeets(o: Oracle, c: Conf, left: Stmt, right: Stmt, all: bool, io: IO)
    ensures var n, share := |c.w.trace|, if o.share(c.w.trace) <= c.w.left then o.share(c.w.trace) else c.w.left;
            var cl, lio := c.(w := c.w.(left := share)), io.(out := ToPipe(n));
            var l := Statement(o, cl, left, lio, all);
            var cr, rio := Conf(c.sh, World(l.c.w.trace, c.w.left - share, c.w.overdrawn)),
                           io.(input := FromPipe(n), inSet := true);
            PipeRule(o, Says(o, OfCmd(Pipe(left, right, all)), io, c), left, right, all,
                     [Says(o, OfStmt(left, all), lio, cl), Says(o, OfStmt(right, false), rio, cr)])
  {
    hide Statement, Computed, Joins, PipelineEnd;
    var n, share := |c.w.trace|, if o.share(c.w.trace) <= c.w.left then o.share(c.w.trace) else c.w.left;
    var cl, lio, rio := c.(w := c.w.(left := share)), io.(out := ToPipe(n)), io.(input := FromPipe(n), inSet := true);
    var l := Statement(o, cl, left, lio, all);
    var cr := Conf(c.sh, World(l.c.w.trace, c.w.left - share, c.w.overdrawn));
    var r := Statement(o, cr, right, rio, false);
    OfStmtMeans(o, cl, left, lio, all);
    OfStmtMeans(o, cr, right, rio, false);
    OfPipeMeans(o, c, left, right, all, io);
    JoinsIsEnd(o, Says(o, OfCmd(Pipe(left, right, all)), io, c), l, r);
  }

  lemma {:induction false} DerivePipe(o: Oracle, c: Conf, left: Stmt, right: Stmt, all: bool, io: IO)
    returns (t: Tree)
    ensures Shows(o, t, OfCmd(Pipe(left, right, all)), io, c)
    decreases c.w.left, 2
  {
    hide Statement, Pipeline, Derivation, PipeRule;
    var j, n := Says(o, OfCmd(Pipe(left, right, all)), io, c), |c.w.trace|;
    PipeMeets(o, c, left, right, all, io);
    var share := if o.share(c.w.trace) <= c.w.left then o.share(c.w.trace) else c.w.left;
    var cl := c.(w := c.w.(left := share));
    var a := DeriveStmt(o, cl, left, io.(out := ToPipe(n)), all);
    var l := Statement(o, cl, left, io.(out := ToPipe(n)), all);
    var cr := Conf(c.sh, World(l.c.w.trace, c.w.left - share, c.w.overdrawn));
    var b := DeriveStmt(o, cr, right, io.(input := FromPipe(n), inSet := true), false);
    t := Node2(o, j, a, b);
  }

  lemma {:induction false} DeriveFor(o: Oracle, c: Conf, name: string, items: seq<string>, body: seq<Stmt>, io: IO,
                                     last: int) returns (t: Tree)
    ensures Shows(o, t, OfFor(name, items, body, last), io, c)
    decreases c.w.left, 2, |items|
  {
    hide List, Step, Set, Derivation;
    var j := Says(o, OfFor(name, items, body, last), io, c);
    if items == [] {
      t := Node0(o, j);
    } else {
      var s := Step(o, c);
      var v := Set(s.c, name, Variable(items[0], true, false));
      if s.err.Some? || v.err.Some? {
        t := Node0(o, j);
      } else {
        var a := DeriveList(o, v.c, body, io, 0);
        var r := List(o, v.c, body, io, 0);
        if AfterBody(OfCode(r)).Some? {
          t := Node1(o, j, a);
        } else {
          var b := DeriveFor(o, r.c, name, items[1..], body, io, r.value);
          t := Node2(o, j, a, b);
        }
      }
    }
  }

  lemma {:induction false} DeriveWhile(o: Oracle, c: Conf, cond: seq<Stmt>, body: seq<Stmt>, until: bool, io: IO,
                                       last: int) returns (t: Tree)
    ensures Shows(o, t, OfWhile(cond, body, until, last), io, c)
    decreases c.w.left, 2
  {
    hide List, Step, Derivation;
    var j := Says(o, OfWhile(cond, body, until, last), io, c);
    var s := Step(o, c);
    if s.err.Some? {
      t := Node0(o, j);
    } else {
      var a := DeriveList(o, s.c, cond, io, 0);
      var q := List(o, s.c, cond, io, 0);
      if q.err.Some? || (q.value == 0) == until {
        t := Node1(o, j, a);
      } else {
        var b := DeriveList(o, q.c, body, io, 0);
        var r := List(o, q.c, body, io, 0);
        if AfterBody(OfCode(r)).Some? {
          t := Node2(o, j, a, b);
        } else {
          var d := DeriveWhile(o, r.c, cond, body, until, io, r.value);
          t := Node3(o, j, a, b, d);
        }
      }
    }
  }

  lemma {:induction false} DerivePrefix(o: Oracle, c: Conf, xs: seq<Assign>, before: Saved, io: IO) returns (t: Tree)
    ensures Shows(o, t, OfPrefix(xs, before), io, c)
    decreases c.w.left, 5, |xs|
  {
    hide Assignment, Derivation;
    var j := Says(o, OfPrefix(xs, before), io, c);
    if xs == [] {
      t := Node0(o, j);
    } else {
      var k := xs[0].name;
      var saved := if k in before then before else before[k := Get(c.sh.vars, k)];
      var a := DeriveAssign(o, c, xs[0], true, io);
      var r := Assignment(o, c, xs[0], true, io);
      if r.err.Some? {
        t := Node1(o, j, a);
      } else {
        var b := DerivePrefix(o, r.c, xs[1..], saved, io);
        t := Node2(o, j, a, b);
      }
    }
  }

  lemma {:induction false} DeriveCall(o: Oracle, c: Conf, xs: seq<Assign>, args: seq<string>, io: IO) returns (t: Tree)
    ensures Shows(o, t, OfCall(xs, args), io, c)
    decreases c.w.left, 7, 0
  {
    hide Assignments, Prefixes, Invoke, PutBack, Restore, Derivation;
    var j := Says(o, OfCall(xs, args), io, c);
    if args == [] {
      var a := DeriveAssigns(o, c, xs, false, io);
      t := Node1(o, j, a);
    } else {
      var a := DerivePrefix(o, c, xs, map[], io);
      var p := Prefixes(o, c, xs, map[], io);
      if p.err.Some? {
        PutBackIsRestore(j, p.value.before, p.c, p.err, 1);
        t := Node1(o, j, a);
      } else {
        var b := DeriveInvoke(o, p.c, args, io);
        var r := Invoke(o, p.c, args, io);
        PutBackIsRestore(j, p.value.before, r.c, r.err, r.value);
        t := Node2(o, j, a, b);
      }
    }
  }

  lemma {:induction false} DeriveInvoke(o: Oracle, c: Conf, args: seq<string>, io: IO) returns (t: Tree)
    requires args != []
    ensures Shows(o, t, OfInvoke(args), io, c)
    decreases c.w.left, 6
  {
    hide CallFunction, Nested, Builtin, BuiltinRule, FunctionRule, NestedRule, Derivation;
    if args[0] in c.sh.funcs {
      t := DeriveFunction(o, c, args, io);
    } else if args[0] == "sh" || args[0] == "bash" {
      t := DeriveNested(o, c, args, io);
    } else {
      BuiltinIs(o, Says(o, OfInvoke(args), io, c), args);
      t := Node0(o, Says(o, OfInvoke(args), io, c));
    }
  }

  lemma {:induction false} DeriveFunction(o: Oracle, c: Conf, args: seq<string>, io: IO) returns (t: Tree)
    requires args != [] && args[0] in c.sh.funcs
    ensures Shows(o, t, OfInvoke(args), io, c)
    decreases c.w.left, 1
  {
    hide Statement, Nested, Builtin, Derivation;
    var j := Says(o, OfInvoke(args), io, c);
    assert Invoke(o, c, args, io) == CallFunction(o, c, args, io);
    assert j.out == OfCode(CallFunction(o, c, args, io));
    if c.sh.depth >= MAX_DEPTH {
      t := Node0(o, j);
    } else {
      var c1 := c.(sh := c.sh.(args := args[1..], depth := c.sh.depth + 1));
      var a := DeriveStmt(o, c1, c.sh.funcs[args[0]], io, false);
      t := Node1(o, j, a);
    }
  }

  lemma {:induction false} DeriveNested(o: Oracle, c: Conf, args: seq<string>, io: IO) returns (t: Tree)
    requires args != [] && args[0] !in c.sh.funcs && (args[0] == "sh" || args[0] == "bash")
    ensures Shows(o, t, OfInvoke(args), io, c)
    decreases c.w.left, 2
  {
    hide List, Say, NestedShell, NestedStart, Builtin, Derivation;
    var j := Says(o, OfInvoke(args), io, c);
    assert Invoke(o, c, args, io) == Nested(o, c, args, io);
    assert j.out == OfCode(Nested(o, c, args, io));
    if c.sh.depth >= MAX_DEPTH || |args| < 3 || args[1] != "-c" || o.parse(args[2]).Malformed? {
      t := Node0(o, j);
    } else {
      var child := Log(c.(sh := NestedShell(c, args)), Entered(args[2]));
      var a := DeriveList(o, child, o.parse(args[2]).body, io, 0);
      StartIsNested(child.sh, c, args);
      t := Node1(o, j, a);
    }
  }

  // ---------------------------------------------------------------------
  // Both
  // ---------------------------------------------------------------------

  /** There is a derivation of the judgment. */
  ghost predicate Derivable(o: Oracle, j: Judgment) { exists t :: Derivation(o, t) && t.j == j }

  /** For every statement: the evaluator's outcome can be derived, and no other. */
  lemma StatementByRules(o: Oracle, c: Conf, x: Stmt, io: IO, all: bool, out: Outcome)
    ensures Derivable(o, Judgment(OfStmt(x, all), io, c, out)) <==> out == OfCode(Statement(o, c, x, io, all))
  {
    hide Statement, Derivation;
    var j := Judgment(OfStmt(x, all), io, c, out);
    if t :| Derivation(o, t) && t.j == j { DerivedIsComputed(o, t); }
    var t := DeriveStmt(o, c, x, io, all);
  }

  /** So for every compound command. */
  lemma CommandByRules(o: Oracle, c: Conf, x: Cmd, io: IO, out: Outcome)
    ensures Derivable(o, Judgment(OfCmd(x), io, c, out)) <==> out == OfCode(Command(o, c, x, io))
  {
    hide Command, Derivation;
    var j := Judgment(OfCmd(x), io, c, out);
    if t :| Derivation(o, t) && t.j == j { DerivedIsComputed(o, t); }
    var t := DeriveCmd(o, c, x, io);
  }

  /** And for every script: what a run returns is what its list is derived to do. */
  lemma RunByRules(o: Oracle, sh: Sh, src: string, io: IO, maxSteps: nat, out: Outcome)
    requires o.parse(src).Program?
    ensures var r, start := Run(o, sh, src, io, maxSteps), Conf(sh, World([], maxSteps, false));
            Derivable(o, Judgment(OfList(o.parse(src).body, 0), io, start, out)) ==>
              && out.value.Status? && r.sh == out.c.sh && r.w == out.c.w
              && (r.exited <==> out.err.Some? && IsExit(out.err.value))
              && (r.exited ==> r.err.None? && r.code == out.err.value.code)
              && (!r.exited ==> r.err == out.err && r.code == out.value.code)
    ensures exists out :: Derivable(o, Judgment(OfList(o.parse(src).body, 0), io,
                                                Conf(sh, World([], maxSteps, false)), out))
  {
    hide List, Derivation;
    var start, body := Conf(sh, World([], maxSteps, false)), o.parse(src).body;
    var j := Judgment(OfList(body, 0), io, start, out);
    if t :| Derivation(o, t) && t.j == j { DerivedIsComputed(o, t); }
    var t := DeriveList(o, start, body, io, 0);
    assert Derivable(o, Judgment(OfList(body, 0), io, start, t.j.out));
  }
}
