/** Path resolution inside the guest namespace: purely lexical, from a working
    directory, never above the root. */
module Resolving {
  import opened Paths

  /** The name ends in a slash or in ".". */
  predicate AsksForDirectory(name: string) { (name != "" && name[|name| - 1] == '/') || Base(name) == "." }

  function Resolve(cwd: string, name: string): string {
    var directory := AsksForDirectory(name);
    var full := if Rooted(name) then name else PathJoin(cwd, name);
    var clean := Clean("/" + full);
    if directory && clean != "/" then clean + "/" else clean
  }

  // ---------------------------------------------------------------------
  // The independent reading: a stack of components
  // ---------------------------------------------------------------------

  /** One component followed from the directory `stack`: empty components and "."
      stay, ".." goes up, and stays at the root. */
  function Go(stack: seq<string>, c: string): seq<string> {
    if c == "" || c == "." then stack
    else if c == ".." then (if stack == [] then [] else stack[..|stack| - 1])
    else stack + [c]
  }

  function Climb(stack: seq<string>, cs: seq<string>): seq<string>
    decreases |cs|
  {
    if cs == [] then stack else Climb(Go(stack, cs[0]), cs[1..])
  }

  /** The directory a name leads to from cwd. */
  function Destination(cwd: string, name: string): seq<string> {
    Climb(if Rooted(name) then [] else Climb([], Split(cwd)), Split(name))
  }

  /** Components that a clean absolute path consists of. */
  predicate Plain(c: string) { c != "" && c != "." && c != ".." && '/' !in c }

  predicate AllPlain(cs: seq<string>) { forall c :: c in cs ==> Plain(c) }

  lemma {:induction false} ClimbAppend(stack: seq<string>, xs: seq<string>, ys: seq<string>)
    ensures Climb(stack, xs + ys) == Climb(Climb(stack, xs), ys)
    decreases |xs|
  {
    if xs == [] {
      assert xs + ys == ys;
    } else {
      assert (xs + ys)[1..] == xs[1..] + ys;
      ClimbAppend(Go(stack, xs[0]), xs[1..], ys);
    }
  }

  lemma {:induction false} ClimbPlain(stack: seq<string>, cs: seq<string>)
    requires AllPlain(stack) && forall c :: c in cs ==> '/' !in c
    ensures AllPlain(Climb(stack, cs))
    decreases |cs|
  {
    if cs != [] {
      assert cs[0] in cs && forall c :: c in cs[1..] ==> c in cs;
      ClimbPlain(Go(stack, cs[0]), cs[1..]);
    }
  }

  lemma {:induction false} ClimbKeeps(stack: seq<string>, cs: seq<string>)
    requires AllPlain(cs)
    ensures Climb(stack, cs) == stack + cs
    decreases |cs|
  {
    if cs == [] {
      assert stack + cs == stack;
    } else {
      assert Plain(cs[0]);
      assert stack + [cs[0]] + cs[1..] == stack + cs;
      ClimbKeeps(stack + [cs[0]], cs[1..]);
    }
  }

  lemma ClimbOne(stack: seq<string>, c: string)
    ensures Climb(stack, [c]) == Go(stack, c)
  {
    assert [c][1..] == [];
    assert Climb(Go(stack, c), []) == Go(stack, c);
  }

  /** Cleaning a rooted path is climbing. */
  lemma {:induction false} RootedWalk(stack: seq<string>, cs: seq<string>)
    requires AllPlain(stack) && forall c :: c in cs ==> '/' !in c
    ensures Walk(true, stack, cs) == Climb(stack, cs)
    decreases |cs|
  {
    if cs != [] {
      assert cs[0] in cs && forall c :: c in cs[1..] ==> c in cs;
      if stack != [] { assert Plain(stack[|stack| - 1]); }
      RootedWalk(Go(stack, cs[0]), cs[1..]);
    }
  }

  predicate NoDots(cs: seq<string>) { forall c :: c in cs ==> c != "" && c != "." && '/' !in c }

  /** Cleaning a relative path first does not change where it leads. */
  lemma {:induction false} RelativeWalk(start: seq<string>, kept: seq<string>, cs: seq<string>)
    requires NoDots(kept) && forall c :: c in cs ==> '/' !in c
    ensures NoDots(Walk(false, kept, cs))
    ensures Climb(start, Walk(false, kept, cs)) == Climb(Climb(start, kept), cs)
    decreases |cs|
  {
    if cs != [] {
      assert cs[0] in cs && forall c :: c in cs[1..] ==> c in cs;
      RelativePush(start, kept, cs[0]);
      RelativeWalk(start, Push(false, kept, cs[0]), cs[1..]);
    }
  }

  lemma RelativePush(start: seq<string>, kept: seq<string>, c: string)
    requires NoDots(kept) && '/' !in c
    ensures NoDots(Push(false, kept, c))
    ensures Climb(start, Push(false, kept, c)) == Go(Climb(start, kept), c)
  {
    if c == "" || c == "." {
    } else if c == ".." && kept != [] && kept[|kept| - 1] != ".." {
      var init, last := kept[..|kept| - 1], kept[|kept| - 1];
      assert last in kept && kept == init + [last];
      ClimbAppend(start, init, [last]);
      ClimbOne(Climb(start, init), last);
    } else {
      ClimbAppend(start, kept, [c]);
      ClimbOne(Climb(start, kept), c);
    }
  }

  /** Where the components of Clean(s) lead. */
  lemma CleanLeads(start: seq<string>, s: string)
    requires !Rooted(s) || start == []
    ensures Climb(start, Split(Clean(s))) == Climb(start, Split(s))
  {
    var w := Walk(Rooted(s), [], Split(s));
    if Rooted(s) {
      RootedWalk([], Split(s));
      ClimbPlain([], Split(s));
      ClimbKeeps([], w);
      SplitSlashText(w);
      ClimbAppend([], [""], w);
      ClimbOne([], "");
      ClimbAppend([], [""], [""]);
      assert [""] + [""] == ["", ""];
    } else {
      RelativeWalk(start, [], Split(s));
      assert Climb(start, []) == start;
      if w == [] {
        SplitPlain(".");
        ClimbOne(start, ".");
      } else {
        SplitJoin(w);
      }
    }
  }

  lemma SplitSlashText(cs: seq<string>)
    requires forall c :: c in cs ==> '/' !in c
    ensures Split("/" + Text(cs)) == [""] + (if cs == [] then [""] else cs)
  {
    SplitCons('/', Text(cs));
    if cs != [] { SplitJoin(cs); }
  }

  lemma CleanRooted(s: string)
    ensures Clean("/" + s) == "/" + Text(Climb([], Split(s)))
    ensures AllPlain(Climb([], Split(s)))
  {
    SplitCons('/', s);
    RootedWalk([], Split("/" + s));
    ClimbAppend([], [""], Split(s));
    ClimbOne([], "");
    ClimbPlain([], Split(s));
  }

  /** Joining with the working directory and cleaning is going there first. */
  lemma JoinLeads(cwd: string, name: string)
    ensures Climb([], Split(PathJoin(cwd, name))) == Climb(Climb([], Split(cwd)), Split(name))
  {
    assert Split("") == [""];
    ClimbOne([], "");
    if cwd == "" && name == "" {
    } else if cwd == "" {
      CleanLeads([], name);
    } else if name == "" {
      CleanLeads([], cwd);
      ClimbOne(Climb([], Split(cwd)), "");
    } else {
      CleanLeads([], cwd + "/" + name);
      SplitAppend(cwd, name);
      ClimbAppend([], Split(cwd), Split(name));
    }
  }

  /** Resolution, for every working directory and every name, is following the
      components one by one from the root or the working directory; the result
      is absolute and free of empty, "." and ".." components, and ends in a
      slash exactly when the name asks for a directory other than the root. */
  lemma ResolveIsClimb(cwd: string, name: string)
    ensures AllPlain(Destination(cwd, name))
    ensures Resolve(cwd, name) == "/" + Text(Destination(cwd, name)) +
              (if Destination(cwd, name) != [] && AsksForDirectory(name) then "/" else "")
  {
    var full := if Rooted(name) then name else PathJoin(cwd, name);
    if !Rooted(name) { JoinLeads(cwd, name); }
    assert Climb([], Split(full)) == Destination(cwd, name);
    CleanRooted(full);
    var d := Destination(cwd, name);
    if d != [] {
      assert Plain(d[0]);
      assert Join(d) != "";
    }
    assert "/" + Text(d) + "" == "/" + Text(d);
  }

  lemma LastOfJoin(cs: seq<string>) returns (x: string)
    requires cs != [] && AllPlain(cs)
    ensures "/" + Join(cs) == x + "/" + cs[|cs| - 1]
  {
    var init, last := cs[..|cs| - 1], cs[|cs| - 1];
    LastAppend(cs);
    if init == [] {
      JoinOne(last);
      x := "";
      assert "" + "/" + last == "/" + last;
    } else {
      JoinAppend(init, [last]);
      JoinOne(last);
      x := "/" + Join(init);
      assert "/" + (Join(init) + "/" + last) == x + "/" + last;
    }
  }

  /** A clean absolute path does not ask for a directory. */
  lemma CleanAsksNothing(cs: seq<string>)
    requires cs != [] && AllPlain(cs)
    ensures var r := "/" + Join(cs); r[|r| - 1] != '/' && Base(r) == cs[|cs| - 1] && Base(r) != "."
  {
    hide Join;
    var r := "/" + Join(cs);
    var x := LastOfJoin(cs);
    var last := cs[|cs| - 1];
    assert Plain(last);
    LastSlashAppend(x, last);
    assert r[|r| - 1] == last[|last| - 1];
    assert TrimSlashes(r) == r;
    assert r[|x| + 1..] == last;
  }

  /** Resolving a resolved name again, from anywhere, changes nothing. */
  lemma ResolveIdempotent(cwd: string, name: string, other: string)
    ensures Resolve(other, Resolve(cwd, name)) == Resolve(cwd, name)
  {
    hide Resolve, Join, Base;
    var d, r := Destination(cwd, name), Resolve(cwd, name);
    ResolveIsClimb(cwd, name);
    ResolveIsClimb(other, r);
    SplitSlashText(d);
    ClimbKeeps([], d);
    ClimbAppend([], [""], if d == [] then [""] else d);
    ClimbOne([], "");
    assert [] + d == d;
    assert Climb([], Split("/" + Text(d))) == d;
    if r != "/" + Text(d) {
      SplitAppend("/" + Text(d), "");
      assert "/" + Text(d) + "/" + "" == r;
      ClimbAppend([], Split("/" + Text(d)), Split(""));
      assert Split("") == [""];
      ClimbOne(d, "");
    } else if d != [] {
      CleanAsksNothing(d);
    }
  }
}
