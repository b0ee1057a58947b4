/** Mounts that show one filesystem: being read-only is a property of all of them
    together. */
module SharedMounts {
  import opened Paths
  import opened Resolving
  import opened Store
  import opened Tree
  import opened Invariant
  import opened Runs
  import opened Routing
  import opened NamespaceSpec
  import R = NamespaceRuns

  // ---------------------------------------------------------------------
  // Names below a mount
  // ---------------------------------------------------------------------

  function Below(m: MountPoint, rel: string): string { m.path + "/" + rel }

  /** A name below a mount point leads to the mount's components and then its own. */
  lemma BelowTarget(m: MountPoint, rel: string)
    requires GoodPath(m.path) && Valid(rel) && rel != "."
    ensures Target(Below(m, rel)) == MountComps(m.path) + Comps(rel)
    ensures Below(m, rel) == "/" + Join(MountComps(m.path) + Comps(rel)) && NoNul(Below(m, rel))
    ensures ValidElements(MountComps(m.path) + Comps(rel)) && Comps(rel) != []
  {
    hide Join, Split, Climb;
    GoodPathComps(m.path);
    assert "/" <= m.path;
    PathOfComps(rel);
    var cs := MountComps(m.path) + Comps(rel);
    JoinAppend(MountComps(m.path), Comps(rel));
    assert Below(m, rel) == "/" + Text(cs);
    SplitSlashText(cs);
    ClimbAppend([], [""], cs);
    ClimbOne([], "");
    ClimbKeeps([], cs);
    assert [] + cs == cs;
    NoNulJoin(cs);
  }

  lemma {:induction false} NoNulJoin(cs: seq<string>)
    requires cs != [] && ValidElements(cs)
    ensures NoNul(Join(cs))
    decreases |cs|
  {
    assert ValidElement(cs[0]);
    if |cs| > 1 {
      assert ValidElements(cs[1..]) by { assert forall c :: c in cs[1..] ==> c in cs; }
      NoNulJoin(cs[1..]);
    }
  }

  /** Such a name may be changed unless its mount is sealed. */
  lemma BelowRoutes(mounts: seq<MountPoint>, j: nat, rel: string)
    requires GoodMounts(mounts) && j < |mounts| && Valid(rel) && rel != "."
    ensures Route(mounts, Below(mounts[j], rel)) == Ok(On(j, rel))
    ensures !HoldsMount(mounts, CleanName(Below(mounts[j], rel)))
  {
    hide Clean, Route, Join, Split;
    assert GoodPath(mounts[j].path);
    var name, m := Below(mounts[j], rel), MountComps(mounts[j].path);
    BelowTarget(mounts[j], rel);
    RouteIsPrefix(mounts, name);
    assert m <= Target(name);
    var at := Route(mounts, name).value;
    CoverUnique(mounts, Target(name), j, at.mount);
    CompsInjective(at.rel, rel);
    CleanNameIs(name);
    assert CleanName(name) == name;
    forall i | 0 <= i < |mounts|
      ensures !(name == mounts[i].path || name + "/" <= mounts[i].path || name == "/")
    {
      HoldsNone(mounts, i, j, rel);
    }
  }

  lemma HoldsNone(mounts: seq<MountPoint>, i: nat, j: nat, rel: string)
    requires GoodMounts(mounts) && i < |mounts| && j < |mounts|
    ensures var name := Below(mounts[j], rel);
            !(name == mounts[i].path || name + "/" <= mounts[i].path || name == "/")
  {
    hide Clean;
    var name, p, q := Below(mounts[j], rel), mounts[i].path, mounts[j].path;
    NotAbove(mounts, i, j);
    assert q + "/" <= name;
    assert name <= p ==> q + "/" <= p;
  }

  lemma NotAbove(mounts: seq<MountPoint>, i: nat, j: nat)
    requires GoodMounts(mounts) && i < |mounts| && j < |mounts|
    ensures !(mounts[j].path + "/" <= mounts[i].path) && |mounts[j].path| > 1
  {
    hide Clean;
    assert GoodPath(mounts[j].path);
    if i > j {
      assert !Overlap(mounts[i].path, mounts[j].path);
    } else if i < j {
      assert !Overlap(mounts[j].path, mounts[i].path);
    }
  }

  // ---------------------------------------------------------------------
  // A change is always possible
  // ---------------------------------------------------------------------

  /** A name of most components. */
  lemma {:induction false} Deepest(names: set<string>) returns (p: string)
    requires names != {}
    ensures p in names && forall q :: q in names ==> |Comps(q)| <= |Comps(p)|
    decreases |names|
  {
    var x :| x in names;
    p := x;
    if names != {x} {
      var y := Deepest(names - {x});
      if |Comps(y)| > |Comps(x)| { p := y; }
      assert forall q :: q in names ==> q == x || q in names - {x};
    }
  }

  /** A filesystem with another name than the root's has one to remove. */
  lemma Removable<N, H>(st: State<N, H>) returns (p: string)
    requires Inv(st) && WellFormed(st) && |st.names| > 1
    ensures Valid(p) && p != "." && p in st.names && Store.Remove(st, p).1.None?
    ensures p !in Store.Remove(st, p).0.names
  {
    InvTree(st);
    hide Inv, Valid, Comps;
    p := Deepest(st.names.Keys);
    if p == "." {
      forall q | q in st.names ensures q == "." {
        PlacedComps(st, q);
        RootComps();
      }
      assert st.names.Keys <= {"."};
      Small(st.names.Keys, ".");
      assert false;
    }
    PlacedComps(st, p);
    forall q | q in st.names ensures Dir(q) != p {
      PlacedComps(st, q);
      RootComps();
    }
  }

  lemma RootComps()
    ensures Comps(".") == [] && Dir(".") == "."
  {
  }

  lemma Small(s: set<string>, x: string)
    requires s <= {x}
    ensures |s| <= 1
  {
    if s != {} { assert s == {x}; }
  }

  function Xs(k: nat): string { seq(k, _ => 'x') }

  /** A name for one more entry of the root. */
  lemma Spare<N, H>(st: State<N, H>) returns (c: string)
    requires Inv(st) && WellFormed(st)
    ensures Valid(c) && c != "." && c !in st.names && ParentError(st, c).None?
  {
    InvTree(st);
    hide Inv;
    var p := Longest(st.names.Keys);
    c := Xs(|p| + 1);
    assert ValidElement(c) by { assert c[0] == 'x'; }
    CompsPathOf([c]);
    DirBaseTop(c);
  }

  lemma {:induction false} Longest(names: set<string>) returns (p: string)
    requires names != {}
    ensures p in names && forall q :: q in names ==> |q| <= |p|
    decreases |names|
  {
    var x :| x in names;
    p := x;
    if names != {x} {
      var y := Longest(names - {x});
      if |y| > |x| { p := y; }
      assert forall q :: q in names ==> q == x || q in names - {x};
    }
  }

  /** The filesystem keeps its names and bytes over a run. */
  ghost predicate Stays<N, H>(mounts: seq<MountPoint>, sp: Space<N, H>, ops: seq<R.SpaceOp<N, H>>, b: nat)
    requires GoodSpace(mounts, sp) && R.Possible(mounts, sp, ops) && b < |sp.backs|
  {
    var sp' := R.After(mounts, sp, ops);
    b < |sp'.backs| && R.SameContents(sp.backs[b], sp'.backs[b])
  }

  /** A mount of it that is not sealed: some operation changes its names. */
  lemma OneChanges<N, H>(mounts: seq<MountPoint>, sp: Space<N, H>, j: nat, n: N) returns (op: R.SpaceOp<N, H>)
    requires GoodSpace(mounts, sp) && WellFormedSpace(mounts, sp) && R.FreshInode(sp, n)
    requires j < |mounts| && !mounts[j].readOnly && mounts[j].canWrite
    ensures R.Enabled(sp, op) && |R.Step(mounts, sp, op).backs| == |sp.backs|
    ensures R.Step(mounts, sp, op).backs[sp.shows[j]].names.Keys != sp.backs[sp.shows[j]].names.Keys
  {
    var b := sp.shows[j];
    var st := sp.backs[b];
    if |st.names| < MAX_NODES {
      var c := Spare(st);
      var name := Below(mounts[j], c);
      BelowRoutes(mounts, j, c);
      hide GoodSpace, WellFormed, Inv, Route, HoldsMount, CleanName;
      op := R.SpaceMkdir(name, n);
      assert Writable(mounts, name) == Ok(On(j, c));
      assert c in Store.Mkdir(st, c, n).0.names;
    } else {
      var p := Removable(st);
      var name := Below(mounts[j], p);
      BelowRoutes(mounts, j, p);
      BelowStat(mounts, sp, j, p);
      hide GoodSpace, WellFormed, Inv, Route, HoldsMount, CleanName, Stat, Store.Remove;
      op := R.SpaceRemove(name, Stat(mounts, sp, name).value);
      assert Writable(mounts, name) == Ok(On(j, p));
    }
  }

  lemma BelowStat<N, H>(mounts: seq<MountPoint>, sp: Space<N, H>, j: nat, rel: string)
    requires GoodSpace(mounts, sp) && WellFormedSpace(mounts, sp) && j < |mounts| && Valid(rel) && rel != "."
    requires rel in sp.backs[sp.shows[j]].names
    ensures Stat(mounts, sp, Below(mounts[j], rel)).Ok?
  {
    hide Inv, WellFormed, Route, HoldsMount, CleanName, Join, Split, Climb, Resolve;
    var name, cs := Below(mounts[j], rel), MountComps(mounts[j].path) + Comps(rel);
    BelowRoutes(mounts, j, rel);
    BelowTarget(mounts[j], rel);
    CleanAsksNothing(cs);
    ResolveIsClimb("/", name);
    assert name != "/dev/null/";
  }

  /** Over every run a mount keeps its names and bytes exactly when each mount that
      shows its filesystem is read-only, or the filesystem cannot write. */
  lemma ReadOnlyExactly<N, H>(mounts: seq<MountPoint>, sp: Space<N, H>, i: nat, n: N)
    requires GoodSpace(mounts, sp) && R.FreshInode(sp, n)
    requires i < |mounts| && R.NoWriters(Part(sp, On(i, ".")))
    ensures (forall ops :: R.Possible(mounts, sp, ops) ==> Stays(mounts, sp, ops, sp.shows[i])) <==>
            R.IsSealed(mounts, sp.shows, sp.shows[i])
  {
    GoodIsWellFormed(mounts, sp);
    hide GoodSpace, WellFormed, R.NoWriters, R.Enabled, R.Step, R.SameContents;
    var b := sp.shows[i];
    if R.IsSealed(mounts, sp.shows, b) {
      forall ops | R.Possible(mounts, sp, ops) ensures Stays(mounts, sp, ops, b) {
        R.SealedStays(mounts, sp, ops, b);
      }
    } else {
      var j :| 0 <= j < |mounts| && j < |sp.shows| && sp.shows[j] == b && !mounts[j].readOnly && mounts[j].canWrite;
      var op := OneChanges(mounts, sp, j, n);
      OneRun(mounts, sp, op);
      NamesTell(sp.backs[b], R.Step(mounts, sp, op).backs[b]);
      assert !Stays(mounts, sp, [op], b);
    }
  }

  lemma OneRun<N, H>(mounts: seq<MountPoint>, sp: Space<N, H>, op: R.SpaceOp<N, H>)
    requires GoodSpace(mounts, sp) && R.Enabled(sp, op)
    ensures R.Possible(mounts, sp, [op]) && R.After(mounts, sp, [op]) == R.Step(mounts, sp, op)
  {
    hide GoodSpace, R.Step, R.Enabled;
    R.StepKeepsSpace(mounts, sp, op);
    assert [op][1..] == [];
  }

  lemma NamesTell<N, H>(st: State<N, H>, st': State<N, H>)
    ensures R.SameContents(st, st') ==> st'.names.Keys == st.names.Keys
  {
    if R.SameContents(st, st') {
      assert R.Contents(st).Keys == st.names.Keys;
      assert R.Contents(st').Keys == st'.names.Keys;
    }
  }
}
