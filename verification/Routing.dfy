/** Routing a guest path to the filesystem that owns it. */
module Routing {
  import opened Paths
  import opened Resolving
  import opened Store

  /** Where a filesystem is mounted and whether it may be written through the
      namespace: canWrite says that the backend has write operations at all. */
  datatype MountPoint = MountPoint(path: string, readOnly: bool, canWrite: bool)

  predicate NoNul(s: string) { '\0' !in s }

  /** The check a mount path has to pass. */
  predicate GoodPath(path: string) {
    "/" <= path && path != "/" && Clean(path) == path && NoNul(path)
  }

  predicate Overlap(a: string, b: string) {
    a == b || b + "/" <= a || a + "/" <= b
  }

  ghost predicate GoodMounts(mounts: seq<MountPoint>) {
    && (forall i :: 0 <= i < |mounts| ==> GoodPath(mounts[i].path))
    && (forall i, j :: 0 <= j < i < |mounts| ==> !Overlap(mounts[i].path, mounts[j].path))
  }

  predicate Covers(path: string, clean: string) { clean == path || path + "/" <= clean }

  /** The first mount at or above a clean path. */
  function FirstCover(mounts: seq<MountPoint>, clean: string): (r: Option<nat>)
    ensures r.Some? ==> r.value < |mounts| && Covers(mounts[r.value].path, clean)
    ensures r.None? ==> forall i :: 0 <= i < |mounts| ==> !Covers(mounts[i].path, clean)
  {
    if mounts == [] then None
    else if Covers(mounts[0].path, clean) then Some(0)
    else match FirstCover(mounts[1..], clean) case Some(i) => Some(i + 1) case None => None
  }

  function CleanName(name: string): string { Clean(Resolve("/", name)) }

  function TrimPrefix(s: string, p: string): string { if p <= s then s[|p|..] else s }

  datatype Place = Root(rel: string) | On(mount: nat, rel: string)

  function Route(mounts: seq<MountPoint>, name: string): (r: Result<Place>)
    ensures r.Ok? && r.value.On? ==> r.value.mount < |mounts|
  {
    if !NoNul(name) then Err(Invalid)
    else
      var clean := CleanName(name);
      match FirstCover(mounts, clean)
      case Some(i) =>
        var rel := TrimPrefix(TrimPrefix(clean, mounts[i].path), "/");
        Ok(On(i, if rel == "" then "." else rel))
      case None =>
        var rel := TrimPrefix(clean, "/");
        Ok(Root(if rel == "" then "." else rel))
  }

  // ---------------------------------------------------------------------
  // Routing by components
  // ---------------------------------------------------------------------

  /** The components a name leads to from the root. */
  ghost function Target(name: string): seq<string> { Destination("/", name) }

  lemma CleanNameIs(name: string)
    ensures AllPlain(Target(name)) && CleanName(name) == "/" + Text(Target(name))
  {
    var d, r := Target(name), Resolve("/", name);
    ResolveIsClimb("/", name);
    assert Rooted(r);
    ResolveLeads(name);
    RootedWalk([], Split(r));
    assert Walk(true, [], Split(r)) == Climb([], Split(r));
  }

  lemma ResolveLeads(name: string)
    ensures Climb([], Split(Resolve("/", name))) == Target(name)
  {
    var d, r := Target(name), Resolve("/", name);
    ResolveIsClimb("/", name);
    SplitSlashText(d);
    ClimbKeeps([], d);
    ClimbAppend([], [""], if d == [] then [""] else d);
    ClimbOne([], "");
    assert [] + d == d;
    if r != "/" + Text(d) {
      SplitAppend("/" + Text(d), "");
      assert "/" + Text(d) + "/" + "" == r;
      ClimbAppend([], Split("/" + Text(d)), Split(""));
      assert Split("") == [""];
      ClimbOne(d, "");
    }
  }

  ghost function MountComps(path: string): seq<string>
    requires "/" <= path
  {
    Split(path[1..])
  }

  lemma GoodPathComps(path: string)
    requires GoodPath(path)
    ensures path == "/" + Join(MountComps(path)) && ValidElements(MountComps(path))
  {
    var s := path[1..];
    assert path == "/" + s;
    CleanRooted(s);
    var d := Climb([], Split(s));
    assert s == Text(d);
    assert Text([]) == "" && "/" + "" == "/";
    SplitJoin(d);
    forall c | c in d ensures ValidElement(c) {
      assert Plain(c);
      if '\0' in c { NulInJoin(d, c); }
    }
  }

  lemma {:induction false} NulInJoin(cs: seq<string>, c: string)
    requires cs != [] && c in cs && '\0' in c
    ensures '\0' in Join(cs)
  {
    if c == cs[0] {
      var k :| 0 <= k < |c| && c[k] == '\0';
      assert Join(cs)[k] == '\0';
    } else {
      NulInJoin(cs[1..], c);
      var t := Join(cs[1..]);
      var k :| 0 <= k < |t| && t[k] == '\0';
      assert Join(cs)[|cs[0]| + 1 + k] == '\0';
    }
  }

  /** The textual test for a mount is the component prefix test. */
  lemma CoversComps(path: string, cs: seq<string>)
    requires GoodPath(path) && ValidElements(cs)
    ensures Covers(path, "/" + Text(cs)) <==> MountComps(path) <= cs
  {
    GoodPathComps(path);
    var m := MountComps(path);
    var b := Join(m);
    NotRooted(m);
    CompsPathOf(m);
    if cs == [] {
      assert |path| > 1;
    } else {
      var a := Join(cs);
      CompsPathOf(cs);
      WithinComps(a, b);
      SlashedPrefix(a, b);
    }
  }

  lemma SlashedPrefix(a: string, b: string)
    ensures Covers("/" + b, "/" + a) <==> Within(a, b)
  {
    assert ("/" + a)[1..] == a && ("/" + b)[1..] == b;
    assert ("/" + b + "/")[1..] == b + "/";
    if b + "/" <= a { assert "/" + b + "/" <= "/" + a; }
    if "/" + b + "/" <= "/" + a { assert b + "/" == ("/" + a)[1..][..|b| + 1]; }
  }

  lemma OverlapComps(a: string, b: string)
    requires GoodPath(a) && GoodPath(b)
    ensures Overlap(a, b) <==> MountComps(a) <= MountComps(b) || MountComps(b) <= MountComps(a)
  {
    GoodPathComps(a);
    GoodPathComps(b);
    CoversComps(a, MountComps(b));
    CoversComps(b, MountComps(a));
  }

  lemma {:induction false} ClimbNoNul(stack: seq<string>, cs: seq<string>)
    requires ValidElements(stack) && forall c :: c in cs ==> '/' !in c && NoNul(c)
    ensures ValidElements(Climb(stack, cs))
    decreases |cs|
  {
    if cs != [] {
      assert cs[0] in cs && forall c :: c in cs[1..] ==> c in cs;
      ClimbNoNul(Go(stack, cs[0]), cs[1..]);
    }
  }

  lemma {:induction false} SplitNoNul(s: string)
    requires NoNul(s)
    ensures forall c :: c in Split(s) ==> NoNul(c)
  {
    if s != "" {
      var r := Split(s[1..]);
      SplitNoNul(s[1..]);
      assert NoNul(r[0]);
      forall c | c in Split(s) ensures NoNul(c) {
        assert c in r || c == "" || c == [s[0]] + r[0];
      }
    }
  }

  lemma TargetValid(name: string)
    requires NoNul(name)
    ensures ValidElements(Target(name))
  {
    SplitNoNul(name);
    SplitNoNul("/");
    assert Climb([], Split("/")) == [] by {
      SplitCons('/', "");
      assert Split("") == [""];
      assert ['/'] + "" == "/";
      ClimbAppend([], [""], [""]);
      ClimbOne([], "");
      assert [""] + [""] == ["", ""];
    }
    ClimbNoNul([], Split(name));
  }

  /** At most one mount covers a path, so the order of the mounts is immaterial. */
  lemma CoverUnique(mounts: seq<MountPoint>, cs: seq<string>, i: nat, j: nat)
    requires GoodMounts(mounts) && i < |mounts| && j < |mounts|
    requires MountComps(mounts[i].path) <= cs && MountComps(mounts[j].path) <= cs
    ensures i == j
  {
    OverlapComps(mounts[i].path, mounts[j].path);
    OverlapComps(mounts[j].path, mounts[i].path);
    PrefixesNest(MountComps(mounts[i].path), MountComps(mounts[j].path), cs);
  }

  lemma PrefixesNest(a: seq<string>, b: seq<string>, cs: seq<string>)
    requires a <= cs && b <= cs
    ensures a <= b || b <= a
  {
    if |a| <= |b| { assert a == b[..|a|]; } else { assert b == a[..|b|]; }
  }

  /** Every NUL-free name routes to a valid name inside exactly one filesystem:
      the part of its target below the one mount that covers it. */
  lemma RouteIsPrefix(mounts: seq<MountPoint>, name: string)
    requires GoodMounts(mounts)
    ensures Route(mounts, name).Err? <==> !NoNul(name)
    ensures match Route(mounts, name)
      case Err(_) => true
      case Ok(On(i, rel)) =>
        var m := MountComps(mounts[i].path);
        m <= Target(name) && Valid(rel) && Comps(rel) == Target(name)[|m|..]
      case Ok(Root(rel)) =>
        (forall i :: 0 <= i < |mounts| ==> !(MountComps(mounts[i].path) <= Target(name)))
        && Valid(rel) && Comps(rel) == Target(name)
  {
    if NoNul(name) {
      var cs, clean := Target(name), CleanName(name);
      CleanNameIs(name);
      TargetValid(name);
      forall i | 0 <= i < |mounts| ensures Covers(mounts[i].path, clean) <==> MountComps(mounts[i].path) <= cs {
        CoversComps(mounts[i].path, cs);
      }
      match FirstCover(mounts, clean)
      case Some(i) => RelBelow(mounts[i].path, cs);
      case None => RelOfRoot(cs);
    }
  }

  lemma RelOfRoot(cs: seq<string>)
    requires ValidElements(cs)
    ensures var rel := TrimPrefix("/" + Text(cs), "/");
            (if rel == "" then "." else rel) == PathOf(cs) && Valid(PathOf(cs)) && Comps(PathOf(cs)) == cs
  {
    CompsPathOf(cs);
    assert TrimPrefix("/" + Text(cs), "/") == Text(cs);
    if cs != [] { NotRooted(cs); }
  }

  lemma RelBelow(path: string, cs: seq<string>)
    requires GoodPath(path) && ValidElements(cs) && MountComps(path) <= cs
    ensures var m := MountComps(path);
            var rel := TrimPrefix(TrimPrefix("/" + Text(cs), path), "/");
            (if rel == "" then "." else rel) == PathOf(cs[|m|..]) && Valid(PathOf(cs[|m|..]))
            && Comps(PathOf(cs[|m|..])) == cs[|m|..]
  {
    GoodPathComps(path);
    var m, r := MountComps(path), cs[|MountComps(path)|..];
    assert cs == m + r;
    assert ValidElements(r) by { assert forall c :: c in r ==> c in cs; }
    CompsPathOf(r);
    if r == [] {
      assert cs == m;
      assert TrimPrefix("/" + Text(cs), path) == "";
    } else {
      JoinAppend(m, r);
      assert "/" + Text(cs) == path + ("/" + Join(r));
      assert TrimPrefix("/" + Text(cs), path) == "/" + Join(r);
      NotRooted(r);
    }
  }

  lemma RouteToMount(mounts: seq<MountPoint>, name: string, m: MountPoint)
    requires GoodMounts(mounts) && m in mounts && NoNul(name) && MountComps(m.path) <= Target(name)
    ensures match Route(mounts, name)
      case Ok(On(i, rel)) => mounts[i] == m && rel == PathOf(Target(name)[|MountComps(m.path)|..])
      case _ => false
  {
    RouteIsPrefix(mounts, name);
    var k :| 0 <= k < |mounts| && mounts[k] == m;
    var r := Route(mounts, name).value;
    if r.On? {
      CoverUnique(mounts, Target(name), k, r.mount);
      PathOfComps(r.rel);
    }
  }

  /** Route does not depend on the order in which the mounts are tried. */
  lemma RouteOrderFree(mounts: seq<MountPoint>, mounts': seq<MountPoint>, name: string)
    requires GoodMounts(mounts) && GoodMounts(mounts')
    requires forall m :: m in mounts <==> m in mounts'
    ensures match (Route(mounts, name), Route(mounts', name))
      case (Ok(On(i, rel)), Ok(On(j, rel'))) => mounts[i] == mounts'[j] && rel == rel'
      case (Ok(Root(rel)), Ok(Root(rel'))) => rel == rel'
      case (Err(e), Err(e')) => e == e'
      case _ => false
  {
    RouteIsPrefix(mounts, name);
    RouteIsPrefix(mounts', name);
    if NoNul(name) {
      var r, r' := Route(mounts, name).value, Route(mounts', name).value;
      PathOfComps(r.rel);
      if r.On? {
        RouteToMount(mounts', name, mounts[r.mount]);
      } else if r'.On? {
        RouteToMount(mounts, name, mounts'[r'.mount]);
      } else {
        CompsInjective(r.rel, r'.rel);
      }
    }
  }
}
