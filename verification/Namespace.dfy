/** The guest namespace over actual filesystem objects: each method is proved
    against the function of the same name in module NamespaceSpec. */
module Namespace {
  import opened Paths
  import opened Resolving
  import opened Listing
  import opened Store
  import opened Invariant
  import opened Memory
  import opened Routing
  import opened NamespaceSpec
  import opened NamespaceRuns

  /** A mount as requested: where, what, and whether only for reading.  canWrite
      says that the backend offers write operations. */
  datatype Mount = Mount(path: string, fs: MemoryFS, readOnly: bool, canWrite: bool) {
    function Point(): MountPoint { MountPoint(path, readOnly, canWrite) }
  }

  function Points(ms: seq<Mount>): (r: seq<MountPoint>)
    ensures |r| == |ms| && forall i :: 0 <= i < |ms| ==> r[i] == ms[i].Point()
  {
    seq(|ms|, i requires 0 <= i < |ms| => ms[i].Point())
  }

  /** The filesystems of a list of mounts. */
  ghost function Systems(ms: seq<Mount>): set<MemoryFS> { set m | m in ms :: m.fs }

  /** They, each once. */
  ghost function Backs(ms: seq<Mount>): (r: seq<MemoryFS>)
    ensures forall i, j :: 0 <= i < j < |r| ==> r[i] != r[j]
    ensures forall fs :: fs in Systems(ms) ==> fs in r
    ensures forall fs :: fs in r ==> fs in Systems(ms)
  {
    if ms == [] then []
    else
      var init, last := ms[..|ms| - 1], ms[|ms| - 1];
      assert ms == init + [last];
      var r := Backs(init);
      if last.fs in r then r else r + [last.fs]
  }

  /** Which of them a mount shows. */
  ghost function IndexIn(fss: seq<MemoryFS>, fs: MemoryFS): (k: nat)
    requires fs in fss
    ensures k < |fss| && fss[k] == fs
  {
    if fss[0] == fs then 0 else 1 + IndexIn(fss[1..], fs)
  }

  ghost function Shows(ms: seq<Mount>): (r: seq<nat>)
    ensures |r| == |ms|
    ensures forall i :: 0 <= i < |ms| ==> r[i] < |Backs(ms)| && Backs(ms)[r[i]] == ms[i].fs
  {
    seq(|ms|, i requires 0 <= i < |ms| => IndexIn(Backs(ms), ms[i].fs))
  }

  lemma ShownBy(ms: seq<Mount>, b: nat) returns (i: nat)
    requires b < |Backs(ms)|
    ensures i < |ms| && ms[i].fs == Backs(ms)[b] && Shows(ms)[i] == b
  {
    var fs := Backs(ms)[b];
    assert fs in Backs(ms);
    var m :| m in ms && m.fs == fs;
    i :| 0 <= i < |ms| && ms[i] == m;
  }

  /** The objects that filesystems consist of. */
  ghost function Objects(fss: set<MemoryFS>): set<object>
    reads fss
  {
    set fs, o | fs in fss && o in fs.Repr() :: o
  }

  ghost function AbsAll(ms: seq<Mount>, fss: seq<MemoryFS>): (r: seq<State<Node?, MemoryFile?>>)
    requires forall fs :: fs in fss ==> fs in Systems(ms)
    reads Systems(ms), Objects(Systems(ms))
    ensures |r| == |fss| && forall i :: 0 <= i < |fss| ==> r[i] == fss[i].Abs()
  {
    if fss == [] then []
    else
      assert fss[|fss| - 1] in fss && forall fs :: fs in fss[..|fss| - 1] ==> fs in fss;
      assert forall o :: o in fss[|fss| - 1].Repr() ==> o in Objects(Systems(ms));
      AbsAll(ms, fss[..|fss| - 1]) + [fss[|fss| - 1].Abs()]
  }

  class Namespace {
    const root: MemoryFS
    const mounts: seq<Mount>

    ghost function Repr(): set<object>
      reads root, Systems(mounts)
    {
      root.Repr() + Objects(Systems(mounts))
    }

    ghost function Abs(): Space<Node?, MemoryFile?>
      reads root, root.Repr(), Systems(mounts), Objects(Systems(mounts))
    {
      Space(root.Abs(), AbsAll(mounts, Backs(mounts)), Shows(mounts))
    }

    /** Different filesystems are separate from each other. */
    ghost predicate Separate()
      reads root, Systems(mounts)
    {
      && (forall i :: 0 <= i < |mounts| ==> mounts[i].fs.Repr() !! root.Repr())
      && (forall i, j :: 0 <= i < |mounts| && 0 <= j < |mounts| && mounts[i].fs != mounts[j].fs ==>
            mounts[i].fs.Repr() !! mounts[j].fs.Repr())
    }

    ghost predicate Valid()
      reads root, root.Repr(), Systems(mounts), Objects(Systems(mounts))
    {
      && Separate()
      && root.Valid() && (forall i :: 0 <= i < |mounts| ==> mounts[i].fs.Valid())
      && GoodSpace(Points(mounts), Abs())
    }

    constructor (root: MemoryFS, mounts: seq<Mount>)
      ensures this.root == root && this.mounts == mounts
    {
      this.root, this.mounts := root, mounts;
    }

    function System(at: Place): MemoryFS
      requires at.On? ==> at.mount < |mounts|
    {
      if at.On? then mounts[at.mount].fs else root
    }

    /** A mount shows the filesystem at a place. */
    predicate ShowsIt(j: nat, at: Place)
      requires j < |mounts| && (at.On? ==> at.mount < |mounts|)
    {
      at.On? && mounts[j].fs == mounts[at.mount].fs
    }

    /** All filesystems but the one at a place are as they were. */
    twostate predicate OthersSame(at: Place)
      requires at.On? ==> at.mount < |mounts|
      reads root, root.Repr(), Systems(mounts), Objects(Systems(mounts))
    {
      && (at.On? ==> Same(root))
      && forall j :: 0 <= j < |mounts| && !ShowsIt(j, at) ==> Same(mounts[j].fs)
    }

    static twostate predicate Same(fs: MemoryFS)
      reads fs, fs.Repr()
    {
      fs.Repr() == old(fs.Repr()) && fs.Abs() == old(fs.Abs()) && (old(fs.Wired()) ==> fs.Wired())
    }

    static twostate lemma SystemSame(fs: MemoryFS)
      requires forall o :: o in old(fs.Repr()) ==> unchanged(o)
      ensures Same(fs)
    {
      assert fs in old(fs.Repr());
    }

    /** The whole after one filesystem changed. */
    twostate lemma Settled(at: Place)
      requires at.On? ==> at.mount < |mounts|
      requires old(Valid()) && OthersSame(at) && System(at).Valid()
      requires old(System(at).Repr()) <= System(at).Repr() && fresh(System(at).Repr() - old(System(at).Repr()))
      ensures Abs() == WithPart(old(Abs()), at, System(at).Abs())
      ensures GoodSpace(Points(mounts), Abs()) ==> Valid()
    {
      hide MemoryFS.Abs, MemoryFS.Wired, GoodSpace;
      StaySeparate(at);
      BacksSettled(at);
    }

    twostate lemma BacksSettled(at: Place)
      requires at.On? ==> at.mount < |mounts|
      requires OthersSame(at)
      ensures Abs().backs == WithPart(old(Abs()), at, System(at).Abs()).backs
    {
      hide MemoryFS.Abs, MemoryFS.Wired, MemoryFS.Repr, Backs;
      forall b | 0 <= b < |Backs(mounts)|
        ensures Abs().backs[b] == WithPart(old(Abs()), at, System(at).Abs()).backs[b]
      {
        var i := ShownBy(mounts, b);
        if at.On? && Shows(mounts)[at.mount] != b { assert !ShowsIt(i, at); }
      }
    }

    twostate lemma StaySeparate(at: Place)
      requires at.On? ==> at.mount < |mounts|
      requires old(Separate()) && OthersSame(at)
      requires old(System(at).Repr()) <= System(at).Repr() && fresh(System(at).Repr() - old(System(at).Repr()))
      ensures Separate()
    {
      hide MemoryFS.Abs;
    }

    /** What validity gives for one filesystem and for the whole. */
    lemma Facts(at: Place)
      requires Valid() && (at.On? ==> at.mount < |mounts|)
      ensures Separate() && GoodSpace(Points(mounts), Abs()) && WellFormedSpace(Points(mounts), Abs())
      ensures System(at).Valid() && Has(Abs(), at) && Part(Abs(), at) == System(at).Abs()
    {
      GoodIsWellFormed(Points(mounts), Abs());
    }

    /** Whether a name denotes a directory, or why it denotes nothing. */
    function Stat(name: string): Result<bool>
      reads root, Systems(mounts)
    {
      if Resolve("/", name) == "/dev/null" then Ok(false)
      else if Resolve("/", name) == "/dev/null/" then Err(NotDirectory)
      else
        match Route(Points(mounts), name)
        case Err(e) => Err(e)
        case Ok(at) =>
          assert at.On? ==> mounts[at.mount] in mounts;
          match System(at).Stat(at.rel)
          case Err(e) => Err(e)
          case Ok(isDir) => if EndsInSlash(name) && !isDir then Err(NotDirectory) else Ok(isDir)
    }

    lemma StatIs(name: string)
      requires Valid()
      ensures WellFormedSpace(Points(mounts), Abs()) && Stat(name) == NamespaceSpec.Stat(Points(mounts), Abs(), name)
    {
      hide MemoryFS.Abs, MemoryFS.Valid, Namespace.Valid, Namespace.Abs, WellFormedSpace, Route, Resolve, Part;
      Facts(Place.Root("."));
      if Route(Points(mounts), name).Ok? {
        var at := Route(Points(mounts), name).value;
        Facts(at);
        System(at).Fields();
        if at.rel in System(at).nodes { System(at).NodeKnown(at.rel); }
      }
    }

    /** Other filesystems are as they were when only one filesystem's objects changed. */
    twostate lemma Updated(at: Place)
      requires at.On? ==> at.mount < |mounts|
      requires old(Separate())
      requires forall o :: o in old(Repr()) && o !in old(System(at).Repr()) ==> unchanged(o)
      ensures OthersSame(at)
    {
      hide MemoryFS.Abs;
      if at.On? {
        assert forall o :: o in old(root.Repr()) ==> o in old(Repr()) && o !in old(System(at).Repr());
        SystemSame(root);
      }
      forall j | 0 <= j < |mounts| && !ShowsIt(j, at) ensures Same(mounts[j].fs) {
        assert mounts[j] in mounts;
        assert forall o :: o in old(mounts[j].fs.Repr()) ==> o in old(Repr()) && o !in old(System(at).Repr());
        SystemSame(mounts[j].fs);
      }
    }

    /** Objects allocated since are new to every filesystem. */
    twostate lemma NewObjects(new n: Node?, new h: MemoryFile?)
      requires n == null || fresh(n)
      requires h == null || fresh(h)
      ensures FreshInode(old(Abs()), n) && FreshHandle(old(Abs()), h)
    {
      forall b | 0 <= b < |Backs(mounts)|
        ensures n !in old(Abs().backs[b].inodes) && h !in old(Abs().backs[b].handles)
      {
        var i := ShownBy(mounts, b);
      }
    }

    method MkdirAt(at: Place) returns (e: Option<Errno>, ghost n: Node?)
      requires at.On? ==> at.mount < |mounts|
      requires Separate() && System(at).Valid()
      modifies System(at).Repr()
      ensures OthersSame(at) && System(at).Valid()
      ensures (System(at).Abs(), e) == Store.Mkdir(old(System(at).Abs()), at.rel, n)
      ensures n == null || fresh(n)
      ensures old(System(at).Repr()) <= System(at).Repr() && fresh(System(at).Repr() - old(System(at).Repr()))
    {
      hide MemoryFS.Abs, MemoryFS.Valid, OthersSame;
      var fs := System(at);
      e, n := fs.Mkdir(at.rel);
      Updated(at);
    }

    method OpenAt(at: Place, f: Flags) returns (r: Result<MemoryFile>, ghost n: Node?, ghost h: MemoryFile?)
      requires at.On? ==> at.mount < |mounts|
      requires Separate() && System(at).Valid()
      modifies System(at).Repr()
      ensures OthersSame(at) && System(at).Valid()
      ensures (System(at).Abs(), r) == OpenFile(old(System(at).Abs()), at.rel, f, n, h)
      ensures (n == null || fresh(n)) && (h == null || fresh(h)) && (r.Ok? ==> h == r.value)
      ensures old(System(at).Repr()) <= System(at).Repr() && fresh(System(at).Repr() - old(System(at).Repr()))
    {
      hide MemoryFS.Abs, MemoryFS.Valid, OthersSame;
      var fs := System(at);
      r, n, h := fs.OpenFile(at.rel, f);
      Updated(at);
    }

    method RemoveAt(at: Place) returns (e: Option<Errno>)
      requires at.On? ==> at.mount < |mounts|
      requires Separate() && System(at).Valid()
      modifies System(at).Repr()
      ensures OthersSame(at) && System(at).Valid() && System(at).Repr() == old(System(at).Repr())
      ensures (System(at).Abs(), e) == Store.Remove(old(System(at).Abs()), at.rel)
    {
      hide MemoryFS.Abs, MemoryFS.Valid, OthersSame;
      var fs := System(at);
      e := fs.Remove(at.rel);
      Updated(at);
    }

    method RenameAt(at: Place, to: string) returns (e: Option<Errno>)
      requires at.On? ==> at.mount < |mounts|
      requires Separate() && System(at).Valid()
      modifies System(at).Repr()
      ensures OthersSame(at) && System(at).Valid() && System(at).Repr() == old(System(at).Repr())
      ensures (System(at).Abs(), e) == Store.Rename(old(System(at).Abs()), at.rel, to)
    {
      hide MemoryFS.Abs, MemoryFS.Valid, OthersSame;
      var fs := System(at);
      e := fs.Rename(at.rel, to);
      Updated(at);
    }

    method Mkdir(name: string) returns (e: Option<Errno>, ghost n: Node?)
      requires Valid()
      modifies Repr()
      ensures Valid() && WellFormedSpace(Points(mounts), old(Abs()))
      ensures (Abs(), e) == NamespaceSpec.Mkdir(Points(mounts), old(Abs()), name, n)
    {
      hide MemoryFS.Abs, MemoryFS.Valid, MemoryFS.Wired, Namespace.Valid, Namespace.Abs, OthersSame, GoodSpace;
      hide WellFormedSpace, Writable, Part, WithPart, Store.Mkdir, FreshInode, FreshHandle, NamespaceSpec.Has;
      ghost var before := Abs();
      n := null;
      Facts(Place.Root("."));
      var w := Writable(Points(mounts), name);
      if w.Err? { return Some(w.error), n; }
      Facts(w.value);
      label Start:
      e, n := MkdirAt(w.value);
      Settled@Start(w.value);
      NewObjects@Start(n, null);
      MkdirKeepsSpace(Points(mounts), before, name, n);
    }

    method Open(name: string, flag: Flags)
        returns (r: Result<Opened<MemoryFile>>, ghost n: Node?, ghost h: MemoryFile?)
      requires Valid()
      modifies Repr()
      ensures Valid() && WellFormedSpace(Points(mounts), old(Abs()))
      ensures (Abs(), r) == NamespaceSpec.Open(Points(mounts), old(Abs()), name, flag, n, h)
    {
      hide MemoryFS.Abs, MemoryFS.Valid, MemoryFS.Wired, Namespace.Valid, Namespace.Abs, OthersSame, GoodSpace;
      hide WellFormedSpace, Part, WithPart, OpenFile, FreshInode, FreshHandle, NamespaceSpec.Has, Namespace.Stat;
      hide NamespaceSpec.Stat, Route, Resolve;
      ghost var before := Abs();
      n, h := null, null;
      Facts(Place.Root("."));
      StatIs(name);
      if EndsInSlash(name) {
        var info := Stat(name);
        if info.Err? { return Err(info.error), n, h; }
      }
      if Resolve("/", name) == "/dev/null" { return Ok(NullFile), n, h; }
      var route := Route(Points(mounts), name);
      if route.Err? { return Err(route.error), n, h; }
      var at := route.value;
      if Wants(flag) && Sealed(Points(mounts), at) { return Err(ReadOnly), n, h; }
      Facts(at);
      label Start:
      var got: Result<MemoryFile>;
      got, n, h := OpenAt(at, if Wants(flag) then flag else READ);
      Settled@Start(at);
      NewObjects@Start(n, h);
      OpenKeepsSpace(Points(mounts), before, name, flag, n, h);
      r := match got case Ok(f) => Ok(File(f)) case Err(e) => Err(e);
    }

    method Remove(name: string, dir: bool) returns (e: Option<Errno>)
      requires Valid()
      modifies Repr()
      ensures Valid() && WellFormedSpace(Points(mounts), old(Abs()))
      ensures (Abs(), e) == NamespaceSpec.Remove(Points(mounts), old(Abs()), name, dir)
    {
      hide MemoryFS.Abs, MemoryFS.Valid, MemoryFS.Wired, Namespace.Valid, Namespace.Abs, OthersSame, GoodSpace;
      hide WellFormedSpace, Writable, Part, WithPart, Store.Remove, NamespaceSpec.Has, NamespaceSpec.Stat;
      hide Namespace.Stat;
      ghost var before := Abs();
      Facts(Place.Root("."));
      StatIs(name);
      var w := Writable(Points(mounts), name);
      if w.Err? { return Some(w.error); }
      var info := Stat(name);
      if info.Err? { return Some(info.error); }
      if info.value != dir { return Some(if dir then NotDirectory else IsDirectory); }
      Facts(w.value);
      label Start:
      e := RemoveAt(w.value);
      Settled@Start(w.value);
      RemoveKeepsSpace(Points(mounts), before, name, dir);
    }

    method Rename(src: string, dst: string) returns (e: Option<Errno>)
      requires Valid()
      modifies Repr()
      ensures Valid() && WellFormedSpace(Points(mounts), old(Abs()))
      ensures (Abs(), e) == NamespaceSpec.Rename(Points(mounts), old(Abs()), src, dst)
    {
      hide MemoryFS.Abs, MemoryFS.Valid, MemoryFS.Wired, Namespace.Valid, Namespace.Abs, OthersSame, GoodSpace;
      hide WellFormedSpace, Writable, Owner, Part, WithPart, Store.Rename, NamespaceSpec.Has, NamespaceSpec.Stat;
      hide Namespace.Stat;
      ghost var before := Abs();
      Facts(Place.Root("."));
      StatIs(src);
      StatIs(dst);
      if EndsInSlash(src) {
        var info := Stat(src);
        if info.Err? { return Some(info.error); }
      }
      if EndsInSlash(dst) {
        var info := Stat(dst);
        if info.Err? { return Some(info.error); }
      }
      var w := Writable(Points(mounts), src);
      if w.Err? { return Some(w.error); }
      var g := Writable(Points(mounts), dst);
      if g.Err? { return Some(g.error); }
      if Owner(Points(mounts), src) != Owner(Points(mounts), dst) { return Some(CrossDevice); }
      Facts(w.value);
      label Start:
      e := RenameAt(w.value, g.value.rel);
      Settled@Start(w.value);
      RenameKeepsSpace(Points(mounts), before, src, dst);
    }
  }

  // ---------------------------------------------------------------------
  // Building a namespace
  // ---------------------------------------------------------------------

  ghost predicate AllDirs(st: State<Node?, MemoryFile?>) {
    forall p :: p in st.names ==> DirAt(st, p)
  }

  /** Making a directory where there are only directories. */
  lemma MkdirInDirs(st: State<Node?, MemoryFile?>, cs: seq<string>, n: Node?)
    requires Inv(st) && WellFormed(st) && AllDirs(st) && n !in st.inodes
    requires cs != [] && ValidElements(cs) && PathOf(cs[..|cs| - 1]) in st.names
    ensures var (s, e) := Store.Mkdir(st, PathOf(cs), n);
      && AllDirs(s) && (forall p :: p in st.names ==> p in s.names)
      && (e.None? || e == Some(Exists) || e == Some(NoSpace))
      && (e == Some(NoSpace) || s.names.Keys == st.names.Keys + {PathOf(cs)})
      && (e == Some(NoSpace) ==> PathOf(cs) !in st.names && |st.names.Keys| >= MAX_NODES)
  {
    hide Inv;
    CompsPathOf(cs);
    ParentIsDir(st, cs);
    MkdirDirs(st, PathOf(cs), n);
  }

  lemma ParentIsDir(st: State<Node?, MemoryFile?>, cs: seq<string>)
    requires WellFormed(st) && AllDirs(st)
    requires cs != [] && ValidElements(cs) && PathOf(cs[..|cs| - 1]) in st.names
    ensures ParentError(st, PathOf(cs)).None?
  {
    hide WellFormed;
    var name, init := PathOf(cs), cs[..|cs| - 1];
    CompsPathOf(cs);
    DirBase(name);
    assert ValidElements(init) by { assert forall c :: c in init ==> c in cs; }
    CompsPathOf(init);
    CompsInjective(Dir(name), PathOf(init));
    assert DirAt(st, Dir(name));
  }

  lemma MkdirDirs(st: State<Node?, MemoryFile?>, name: string, n: Node?)
    requires WellFormed(st) && AllDirs(st) && n !in st.inodes
    ensures AllDirs(Store.Mkdir(st, name, n).0)
    ensures forall p :: p in st.names ==> p in Store.Mkdir(st, name, n).0.names
  {
    hide ParentError, Valid;
    var s := Store.Mkdir(st, name, n).0;
    forall p | p in s.names ensures DirAt(s, p) {
      if p in st.names { assert DirAt(st, p); }
    }
  }

  /** The names of a directory given by its components and of those above it. */
  ghost function Chain(cs: seq<string>): (r: set<string>)
    ensures forall k :: 0 < k <= |cs| ==> PathOf(cs[..k]) in r
  {
    if cs == [] then {}
    else
      assert forall k :: 0 < k < |cs| ==> cs[..|cs| - 1][..k] == cs[..k];
      assert cs[..|cs|] == cs;
      Chain(cs[..|cs| - 1]) + {PathOf(cs)}
  }

  lemma {:induction false} ChainPrefix(cs: seq<string>, j: nat)
    requires j <= |cs|
    ensures Chain(cs[..j]) <= Chain(cs)
    decreases |cs|
  {
    if j < |cs| {
      assert cs[..|cs| - 1][..j] == cs[..j];
      ChainPrefix(cs[..|cs| - 1], j);
    } else {
      assert cs[..j] == cs;
    }
  }

  lemma {:induction false} LargerSet<T>(a: set<T>, b: set<T>)
    requires a <= b
    ensures |a| <= |b|
    decreases a
  {
    if a != {} {
      var x :| x in a;
      LargerSet(a - {x}, b - {x});
    }
  }

  /** One directory of the root, whose parent is there. */
  method MakeDir(root: MemoryFS, cs: seq<string>) returns (e: Option<Errno>)
    requires root.Valid() && AllDirs(root.Abs()) && ValidElements(cs)
    requires cs != [] && PathOf(cs[..|cs| - 1]) in root.Abs().names.Keys
    modifies root.Repr()
    ensures root.Valid() && AllDirs(root.Abs())
    ensures old(root.Repr()) <= root.Repr() && fresh(root.Repr() - old(root.Repr()))
    ensures e.None? || e == Some(Exists) || e == Some(NoSpace)
    ensures e != Some(NoSpace) ==> root.Abs().names.Keys == old(root.Abs().names.Keys) + {PathOf(cs)}
    ensures e == Some(NoSpace) ==>
              PathOf(cs) !in old(root.Abs().names.Keys) && |old(root.Abs().names.Keys)| >= MAX_NODES
  {
    hide MemoryFS.Abs, MemoryFS.Wired, Inv, AllDirs, Store.Mkdir;
    ghost var st := root.Abs();
    RootKnown(st);
    label Start:
    ghost var n;
    e, n := root.Mkdir(PathOf(cs));
    FreshNode@Start(root, n);
    MkdirInDirs(st, cs, n);
  }

  /** Every prefix of a mount path becomes a directory of the root, if there is room
      for all of them. */
  method MakeDirs(root: MemoryFS, cs: seq<string>) returns (e: Option<Errno>)
    requires root.Valid() && AllDirs(root.Abs()) && ValidElements(cs)
    modifies root.Repr()
    ensures root.Valid() && AllDirs(root.Abs())
    ensures old(root.Repr()) <= root.Repr() && fresh(root.Repr() - old(root.Repr()))
    ensures e.None? ==> root.Abs().names.Keys == old(root.Abs().names.Keys) + Chain(cs)
    ensures e.Some? ==> e == Some(NoSpace) && |old(root.Abs().names.Keys) + Chain(cs)| > MAX_NODES
  {
    hide MemoryFS.Abs, MemoryFS.Valid, AllDirs, Chain, ValidElements, PathOf, UpTo;
    ghost var before := root.Abs().names.Keys;
    RootRoom(root);
    UpToNone(before, cs);
    for j := 0 to |cs|
      invariant root.Valid() && AllDirs(root.Abs())
      invariant old(root.Repr()) <= root.Repr() && fresh(root.Repr() - old(root.Repr()))
      invariant UpTo(before, root.Abs().names.Keys, cs, j)
    {
      ghost var names := root.Abs().names.Keys;
      var dir := cs[..j + 1];
      UpToNext(before, names, cs, j, dir);
      e := MakeDir(root, dir);
      if e.Some? && e != Some(Exists) {
        NoRoom(before, names, cs, j);
        return;
      }
    }
    UpToAll(before, root.Abs().names.Keys, cs);
    e := None;
  }

  /** The names after the first j directories. */
  ghost predicate UpTo(before: set<string>, names: set<string>, cs: seq<string>, j: nat) {
    j <= |cs| && names == before + Chain(cs[..j]) && PathOf(cs[..j]) in names
  }

  lemma UpToNone(before: set<string>, cs: seq<string>)
    requires PathOf([]) in before
    ensures UpTo(before, before, cs, 0)
  {
    assert cs[..0] == [];
  }

  lemma UpToNext(before: set<string>, names: set<string>, cs: seq<string>, j: nat, dir: seq<string>)
    requires UpTo(before, names, cs, j) && j < |cs| && dir == cs[..j + 1] && ValidElements(cs)
    ensures dir != [] && ValidElements(dir) && PathOf(dir[..|dir| - 1]) in names
    ensures UpTo(before, names + {PathOf(dir)}, cs, j + 1)
  {
    hide PathOf;
    assert dir[..|dir| - 1] == cs[..j];
    assert ValidElements(dir) by { assert forall c :: c in dir ==> c in cs; }
  }

  lemma UpToAll(before: set<string>, names: set<string>, cs: seq<string>)
    requires UpTo(before, names, cs, |cs|)
    ensures names == before + Chain(cs)
  {
    assert cs[..|cs|] == cs;
  }

  lemma RootRoom(root: MemoryFS)
    requires root.Valid()
    ensures |root.Abs().names.Keys| <= MAX_NODES && PathOf([]) in root.Abs().names.Keys
  {
    hide MemoryFS.Abs, MemoryFS.Wired, Inv;
    RootKnown(root.Abs());
  }

  lemma NoRoom(before: set<string>, names: set<string>, cs: seq<string>, j: nat)
    requires j < |cs| && UpTo(before, names, cs, j)
    requires PathOf(cs[..j + 1]) !in names && |names| >= MAX_NODES
    ensures |before + Chain(cs)| > MAX_NODES
  {
    assert cs[..j + 1][..j] == cs[..j];
    ChainPrefix(cs, j + 1);
    LargerSet(names + {PathOf(cs[..j + 1])}, before + Chain(cs));
  }

  twostate lemma FreshNode(root: MemoryFS, new n: Node?)
    requires n == null || fresh(n)
    ensures n !in old(root.Abs().inodes)
  {}

  lemma RootKnown(st: State<Node?, MemoryFile?>)
    requires Inv(st)
    ensures WellFormed(st) && PathOf([]) in st.names && |st.names.Keys| <= MAX_NODES
  {}

  // ---------------------------------------------------------------------
  // The order of the mounts
  // ---------------------------------------------------------------------

  /** Insertion before the first mount with a shorter path. */
  function InsertMount(ms: seq<Mount>, m: Mount): (r: seq<Mount>)
    ensures multiset(r) == multiset(ms) + multiset{m}
  {
    if ms == [] then [m]
    else if |ms[0].path| < |m.path| then [m] + ms
    else
      assert ms == [ms[0]] + ms[1..];
      [ms[0]] + InsertMount(ms[1..], m)
  }

  /** Sorting by descending path length (sort.Slice). */
  function SortMounts(ms: seq<Mount>): (r: seq<Mount>)
    ensures multiset(r) == multiset(ms) && |r| == |ms|
  {
    if ms == [] then []
    else
      assert ms == [ms[0]] + ms[1..];
      var r := InsertMount(SortMounts(ms[1..]), ms[0]);
      assert |multiset(r)| == |multiset(ms)|;
      r
  }

  lemma SameElements(a: seq<Mount>, b: seq<Mount>)
    requires multiset(a) == multiset(b)
    ensures forall m :: m in a <==> m in b
  {
    forall m ensures m in a <==> m in b {
      assert m in a <==> m in multiset(a);
      assert m in b <==> m in multiset(b);
    }
  }

  lemma PlaceOf(a: seq<Mount>, b: seq<Mount>, i: nat) returns (k: nat)
    requires multiset(a) == multiset(b) && i < |a|
    ensures k < |b| && b[k] == a[i]
  {
    SameElements(a, b);
    assert a[i] in a;
    assert a[i] in b;
    k :| 0 <= k < |b| && b[k] == a[i];
  }

  lemma TwoPlaces(a: seq<Mount>, i: nat, j: nat)
    requires i < j < |a| && a[i] == a[j]
    ensures multiset(a)[a[i]] >= 2
  {
    assert a == a[..j] + [a[j]] + a[j + 1..];
    assert a[..j][i] == a[i];
    assert multiset(a) == multiset(a[..j]) + multiset{a[j]} + multiset(a[j + 1..]);
    assert a[i] in multiset(a[..j]);
  }

  lemma {:induction false} OnePlace(a: seq<Mount>, m: Mount)
    requires forall i, j :: 0 <= i < j < |a| ==> a[i] != a[j]
    ensures multiset(a)[m] <= 1
    decreases |a|
  {
    if a != [] {
      assert a == a[..|a| - 1] + [a[|a| - 1]];
      OnePlace(a[..|a| - 1], m);
      if a[|a| - 1] == m {
        assert forall i :: 0 <= i < |a| - 1 ==> a[i] != m;
        assert m !in a[..|a| - 1];
        assert m !in multiset(a[..|a| - 1]);
      }
    }
  }

  /** Distinct mounts stay at distinct places, so pairwise facts survive sorting. */
  lemma SortedPlaces(ms: seq<Mount>, i: nat, j: nat) returns (a: nat, b: nat)
    requires forall i, j :: 0 <= i < j < |ms| ==> ms[i] != ms[j]
    requires i < |ms| && j < |ms| && i != j
    ensures a < |ms| && b < |ms| && a != b && SortMounts(ms)[i] == ms[a] && SortMounts(ms)[j] == ms[b]
  {
    var s := SortMounts(ms);
    a := PlaceOf(s, ms, i);
    b := PlaceOf(s, ms, j);
    if s[i] == s[j] {
      OnePlace(ms, s[i]);
      if i < j { TwoPlaces(s, i, j); } else { TwoPlaces(s, j, i); }
    }
  }

  lemma DistinctMounts(ms: seq<Mount>)
    requires GoodMounts(Points(ms))
    ensures forall i, j :: 0 <= i < j < |ms| ==> ms[i] != ms[j]
  {
    forall i, j | 0 <= i < j < |ms| ensures ms[i] != ms[j] {
      assert !Overlap(Points(ms)[j].path, Points(ms)[i].path);
    }
  }

  lemma SortedGood(ms: seq<Mount>)
    requires GoodMounts(Points(ms))
    ensures GoodMounts(Points(SortMounts(ms)))
  {
    hide GoodPath, SortMounts;
    var s := SortMounts(ms);
    DistinctMounts(ms);
    forall i | 0 <= i < |s| ensures GoodPath(Points(s)[i].path) {
      var k := PlaceOf(s, ms, i);
      assert GoodPath(Points(ms)[k].path);
    }
    forall i, j | 0 <= j < i < |s| ensures !Overlap(Points(s)[i].path, Points(s)[j].path) {
      var a, b := SortedPlaces(ms, i, j);
      if a < b {
        assert !Overlap(Points(ms)[b].path, Points(ms)[a].path);
      } else {
        assert !Overlap(Points(ms)[a].path, Points(ms)[b].path);
      }
    }
  }

  /** Different filesystems share no object. */
  ghost predicate Apart(fss: set<MemoryFS>)
    reads fss
  {
    forall fs, gs :: fs in fss && gs in fss && fs != gs ==> fs.Repr() !! gs.Repr()
  }

  lemma InSystems(ms: seq<Mount>, i: nat)
    requires i < |ms|
    ensures ms[i].fs in Systems(ms)
  {
    assert ms[i] in ms;
  }

  lemma SortedSystems(ms: seq<Mount>)
    ensures Systems(SortMounts(ms)) == Systems(ms)
  {
    var s := SortMounts(ms);
    assert multiset(s) == multiset(ms);
    SameElements(s, ms);
    hide SortMounts;
    forall fs | fs in Systems(ms) ensures fs in Systems(s) {
      var m :| m in ms && m.fs == fs;
      assert m in s;
    }
    forall fs | fs in Systems(s) ensures fs in Systems(ms) {
      var m :| m in s && m.fs == fs;
      assert m in ms;
    }
  }

  /** The directories that every namespace starts with. */
  const FIXED := ["tmp", "work", "dev"]

  ghost function NamesIn(cs: seq<string>): set<string> { set c | c in cs }

  /** The names of the root of a new namespace: the fixed ones, and each mount path
      with those above it. */
  ghost function Needed(ms: seq<Mount>): set<string> {
    if ms == [] then {"."} + NamesIn(FIXED)
    else
      var path := ms[|ms| - 1].path;
      Needed(ms[..|ms| - 1]) + (if "/" <= path then Chain(MountComps(path)) else {})
  }

  lemma {:induction false} NeededMore(ms: seq<Mount>, i: nat)
    requires i <= |ms|
    ensures Needed(ms[..i]) <= Needed(ms)
    decreases |ms|
  {
    if i < |ms| {
      assert ms[..|ms| - 1][..i] == ms[..i];
      NeededMore(ms[..|ms| - 1], i);
    } else {
      assert ms[..i] == ms;
    }
  }

  lemma {:induction false} NeededPaths(st: State<Node?, MemoryFile?>, ms: seq<Mount>)
    requires Needed(ms) <= st.names.Keys
    ensures HasPaths(st, ms)
    decreases |ms|
  {
    hide Clean, NoNul;
    if ms != [] {
      var init, last := ms[..|ms| - 1], ms[|ms| - 1];
      NeededPaths(st, init);
      forall i, k | 0 <= i < |ms| && GoodPath(ms[i].path) && 0 < k <= |MountComps(ms[i].path)|
        ensures PathOf(MountComps(ms[i].path)[..k]) in st.names
      {
        if i < |ms| - 1 { assert init[i] == ms[i]; } else { GoodPathComps(ms[i].path); }
      }
    }
  }

  /** The first i mounts are good, and have too many directories for a filesystem. */
  ghost predicate Overflows(ms: seq<Mount>, i: nat) {
    i <= |ms| && GoodMounts(Points(ms[..i])) && |Needed(ms[..i])| > MAX_NODES
  }

  /** The first i mounts are good and fit, and the next one is bad or overlaps one
      of them. */
  ghost predicate Refused(ms: seq<Mount>, i: nat) {
    && i < |ms| && GoodMounts(Points(ms[..i])) && !GoodMounts(Points(ms[..i + 1]))
    && |Needed(ms[..i])| <= MAX_NODES
  }

  lemma FewerGood(ms: seq<Mount>, i: nat)
    requires i <= |ms| && GoodMounts(Points(ms))
    ensures GoodMounts(Points(ms[..i]))
  {
    hide GoodPath, Overlap;
    var p, q := Points(ms), Points(ms[..i]);
    assert forall j :: 0 <= j < i ==> q[j] == p[j];
  }

  /** At most one of these can be, so they tell the two errors apart. */
  lemma OneReason(ms: seq<Mount>, i: nat, j: nat)
    requires Overflows(ms, i)
    ensures !Refused(ms, j)
  {
    hide GoodMounts;
    if Refused(ms, j) {
      if i <= j {
        assert ms[..j][..i] == ms[..i];
        NeededMore(ms[..j], i);
        LargerSet(Needed(ms[..i]), Needed(ms[..j]));
      } else {
        assert ms[..i][..j + 1] == ms[..j + 1];
        FewerGood(ms[..i], j + 1);
      }
    }
  }

  /** The directories of a root cover the mount paths. */
  ghost predicate HasPaths(st: State<Node?, MemoryFile?>, ms: seq<Mount>) {
    forall i, k :: 0 <= i < |ms| && GoodPath(ms[i].path) && 0 < k <= |MountComps(ms[i].path)| ==>
      PathOf(MountComps(ms[i].path)[..k]) in st.names
  }

  lemma PathsProtect(st: State<Node?, MemoryFile?>, ms: seq<Mount>)
    requires AllDirs(st) && HasPaths(st, ms) && GoodMounts(Points(ms))
    ensures GoodMounts(Points(SortMounts(ms))) && Protected(Points(SortMounts(ms)), st)
  {
    SortedGood(ms);
    var s := SortMounts(ms);
    forall i, k | 0 <= i < |s| && 0 < k <= |MountComps(Points(s)[i].path)|
      ensures DirAt(st, PathOf(MountComps(Points(s)[i].path)[..k]))
    {
      var a := PlaceOf(s, ms, i);
      assert GoodPath(Points(ms)[a].path);
    }
  }

  // ---------------------------------------------------------------------
  // New
  // ---------------------------------------------------------------------

  lemma OneMoreMount(ms: seq<Mount>, i: nat)
    requires i < |ms| && GoodMounts(Points(ms[..i])) && GoodPath(ms[i].path)
    requires forall j :: 0 <= j < i ==> !Overlap(ms[i].path, ms[j].path)
    ensures GoodMounts(Points(ms[..i + 1]))
  {
    hide GoodPath, Overlap;
    var p, q := Points(ms[..i]), Points(ms[..i + 1]);
    assert forall j :: 0 <= j < i ==> q[j] == p[j];
  }

  lemma BadMount(ms: seq<Mount>, i: nat)
    requires i < |ms|
    requires !GoodPath(ms[i].path) || exists j :: 0 <= j < i && Overlap(ms[i].path, ms[j].path)
    ensures !GoodMounts(Points(ms[..i + 1]))
  {
    hide GoodPath, Overlap;
    var p := Points(ms[..i + 1]);
    assert p[i].path == ms[i].path;
    if GoodPath(ms[i].path) {
      var j :| 0 <= j < i && Overlap(ms[i].path, ms[j].path);
      assert Overlap(p[i].path, p[j].path);
    }
  }

  lemma FreshAllDirs(limit: int, n: Node?)
    ensures AllDirs(Fresh<Node?, MemoryFile?>(limit, n))
    ensures Fresh<Node?, MemoryFile?>(limit, n).names.Keys == {"."}
  {}

  lemma ChainOne(c: string)
    requires ValidElement(c)
    ensures Chain([c]) == {c} && ValidElements([c])
  {
    assert [c][..0] == [];
    assert Chain([]) == {};
  }

  method FixedDir(root: MemoryFS, c: string) returns (e: Option<Errno>)
    requires root.Valid() && AllDirs(root.Abs()) && ValidElement(c) && |root.Abs().names.Keys| < MAX_NODES
    modifies root.Repr()
    ensures root.Valid() && AllDirs(root.Abs())
    ensures old(root.Repr()) <= root.Repr() && fresh(root.Repr() - old(root.Repr()))
    ensures e.None? && root.Abs().names.Keys == old(root.Abs().names.Keys) + {c}
    ensures |root.Abs().names.Keys| <= |old(root.Abs().names.Keys)| + 1
  {
    hide MemoryFS.Abs, MemoryFS.Wired, Inv, AllDirs, Chain, ValidElements, ValidElement;
    ChainOne(c);
    OneMore(root.Abs().names.Keys, c);
    e := MakeDirs(root, [c]);
  }

  lemma OneMore(names: set<string>, c: string)
    ensures |names + {c}| <= |names| + 1
  {
    if c in names { assert names + {c} == names; }
  }

  lemma FixedElements(i: nat)
    requires i < |FIXED|
    ensures ValidElement(FIXED[i]) && NamesIn(FIXED[..i + 1]) == NamesIn(FIXED[..i]) + {FIXED[i]}
  {
    assert FIXED[..i + 1] == FIXED[..i] + [FIXED[i]];
  }

  lemma AllFixed()
    ensures NamesIn(FIXED[..0]) == {} && Needed([]) == {"."} + NamesIn(FIXED[..|FIXED|])
    ensures |FIXED| < MAX_NODES && |{"."}| == 1
  {
    assert FIXED[..|FIXED|] == FIXED;
  }

  method FixedDirs(root: MemoryFS) returns (e: Option<Errno>)
    requires root.Valid() && AllDirs(root.Abs()) && root.Abs().names.Keys == {"."}
    modifies root.Repr()
    ensures root.Valid() && AllDirs(root.Abs())
    ensures old(root.Repr()) <= root.Repr() && fresh(root.Repr() - old(root.Repr()))
    ensures e.None? && root.Abs().names.Keys == Needed([])
  {
    hide MemoryFS.Abs, MemoryFS.Valid, AllDirs, ValidElement, NamesIn, Needed;
    AllFixed();
    for i := 0 to |FIXED|
      invariant root.Valid() && AllDirs(root.Abs())
      invariant old(root.Repr()) <= root.Repr() && fresh(root.Repr() - old(root.Repr()))
      invariant root.Abs().names.Keys == {"."} + NamesIn(FIXED[..i]) && |root.Abs().names.Keys| <= 1 + i
    {
      FixedElements(i);
      e := FixedDir(root, FIXED[i]);
      if e.Some? { return; }
    }
    e := None;
  }

  /** The root of a new namespace, for whose fixed directories there is room. */
  method NewRoot(maxBytes: int64) returns (root: MemoryFS, e: Option<Errno>)
    ensures root.Valid() && AllDirs(root.Abs()) && fresh(root.Repr())
    ensures e.None? && root.Abs().names.Keys == Needed([])
  {
    hide MemoryFS.Abs, MemoryFS.Wired, Inv, AllDirs, Store.Mkdir;
    root := new MemoryFS(maxBytes);
    FreshAllDirs(if maxBytes <= 0 then DEFAULT_LIMIT as int else maxBytes as int, root.nodes["."]);
    e := FixedDirs(root);
  }

  /** Whether the i-th mount has a good path that overlaps none before it. */
  method Acceptable(mounts: seq<Mount>, i: nat) returns (ok: bool)
    requires i < |mounts| && GoodMounts(Points(mounts[..i]))
    ensures ok <==> GoodMounts(Points(mounts[..i + 1]))
    ensures ok ==> GoodPath(mounts[i].path)
  {
    hide GoodPath, Overlap, GoodMounts;
    if !GoodPath(mounts[i].path) {
      BadMount(mounts, i);
      return false;
    }
    for j := 0 to i
      invariant forall k :: 0 <= k < j ==> !Overlap(mounts[i].path, mounts[k].path)
    {
      if Overlap(mounts[i].path, mounts[j].path) {
        BadMount(mounts, i);
        return false;
      }
    }
    OneMoreMount(mounts, i);
    ok := true;
  }

  lemma NoMounts()
    ensures GoodMounts(Points([]))
  {
  }

  lemma NeededNext(ms: seq<Mount>, i: nat)
    requires i < |ms| && "/" <= ms[i].path
    ensures Needed(ms[..i + 1]) == Needed(ms[..i]) + Chain(MountComps(ms[i].path))
  {
    hide Chain;
    assert ms[..i + 1][..i] == ms[..i];
  }

  /** The directories for one mount, after its path is checked. */
  method PrepareOne(root: MemoryFS, mounts: seq<Mount>, i: nat) returns (e: Option<Errno>)
    requires i < |mounts| && GoodMounts(Points(mounts[..i]))
    requires root.Valid() && AllDirs(root.Abs()) && root.Abs().names.Keys == Needed(mounts[..i])
    modifies root.Repr()
    ensures root.Valid() && AllDirs(root.Abs())
    ensures old(root.Repr()) <= root.Repr() && fresh(root.Repr() - old(root.Repr()))
    ensures e.None? ==> GoodMounts(Points(mounts[..i + 1])) && root.Abs().names.Keys == Needed(mounts[..i + 1])
    ensures e.Some? ==>
              (e == Some(NoSpace) && Overflows(mounts, i + 1)) || (e == Some(Invalid) && Refused(mounts, i))
  {
    hide MemoryFS.Abs, MemoryFS.Valid, AllDirs, Needed, Clean, GoodMounts, Chain, ValidElements, Split;
    RootRoom(root);
    var fits := Acceptable(mounts, i);
    if !fits { return Some(Invalid); }
    GoodPathComps(mounts[i].path);
    NeededNext(mounts, i);
    e := MakeDirs(root, Split(mounts[i].path[1..]));
  }

  /** The directories for all mounts, in the order given; the paths are checked on the way. */
  method Prepare(root: MemoryFS, mounts: seq<Mount>) returns (e: Option<Errno>)
    requires root.Valid() && AllDirs(root.Abs()) && root.Abs().names.Keys == Needed([])
    modifies root.Repr()
    ensures root.Valid() && AllDirs(root.Abs())
    ensures old(root.Repr()) <= root.Repr() && fresh(root.Repr() - old(root.Repr()))
    ensures e.None? ==> GoodMounts(Points(mounts)) && root.Abs().names.Keys == Needed(mounts)
    ensures e.Some? ==>
              || (e == Some(NoSpace) && exists i: nat :: Overflows(mounts, i))
              || (e == Some(Invalid) && exists i: nat :: Refused(mounts, i))
  {
    hide MemoryFS.Abs, MemoryFS.Valid, AllDirs, Needed, GoodMounts, Overflows, Refused, Points;
    assert GoodMounts(Points(mounts[..0])) by { NoMounts(); }
    for i := 0 to |mounts|
      invariant root.Valid() && AllDirs(root.Abs())
      invariant old(root.Repr()) <= root.Repr() && fresh(root.Repr() - old(root.Repr()))
      invariant GoodMounts(Points(mounts[..i])) && root.Abs().names.Keys == Needed(mounts[..i])
    {
      e := PrepareOne(root, mounts, i);
      if e.Some? { return; }
    }
    assert mounts[..|mounts|] == mounts;
    e := None;
  }

  /** A namespace over filesystems, of which several mounts may show one: built
      exactly when every mount path is clean, absolute and not the root, no two
      overlap, and the directories they need fit in a filesystem. */
  method New(mounts: seq<Mount>, maxBytes: int64) returns (ns: Namespace?, e: Option<Errno>)
    requires Apart(Systems(mounts)) && forall fs :: fs in Systems(mounts) ==> fs.Valid()
    ensures e.None? <==> ns != null
    ensures ns != null ==> ns.Valid() && fresh(ns) && fresh(ns.root.Repr()) && ns.mounts == SortMounts(mounts)
    ensures ns != null ==> ns.root.Abs().names.Keys == Needed(mounts)
    ensures e.None? <==> GoodMounts(Points(mounts)) && |Needed(mounts)| <= MAX_NODES
    ensures e.Some? ==>
              || (e == Some(NoSpace) && exists i: nat :: Overflows(mounts, i))
              || (e == Some(Invalid) && exists i: nat :: Refused(mounts, i))
  {
    hide MemoryFS.Abs, MemoryFS.Valid, Namespace.Valid, AllDirs, SortMounts, GoodMounts, HasPaths, Apart, Systems;
    hide Needed, Overflows, Refused;
    var root;
    root, e := NewRoot(maxBytes);
    if e.Some? { return null, e; }
    e := Prepare(root, mounts);
    WhenBuilt(root, mounts, e);
    if e.Some? { return null, e; }
    ns := new Namespace(root, SortMounts(mounts));
    MountsKept(Systems(mounts), root);
    NeededPaths(root.Abs(), mounts);
    Assembled(ns, mounts);
  }

  lemma WhenBuilt(root: MemoryFS, ms: seq<Mount>, e: Option<Errno>)
    requires root.Valid()
    requires e.None? ==> GoodMounts(Points(ms)) && root.Abs().names.Keys == Needed(ms)
    requires e.Some? ==> (exists i: nat :: Overflows(ms, i)) || (exists i: nat :: Refused(ms, i))
    ensures e.None? <==> GoodMounts(Points(ms)) && |Needed(ms)| <= MAX_NODES
  {
    hide MemoryFS.Abs, MemoryFS.Wired, Inv, GoodMounts, Needed;
    RootKnown(root.Abs());
    if e.Some? && GoodMounts(Points(ms)) {
      if i: nat :| Overflows(ms, i) {
        NeededMore(ms, i);
        LargerSet(Needed(ms[..i]), Needed(ms));
      } else {
        var i: nat :| Refused(ms, i);
        FewerGood(ms, i + 1);
        assert false;
      }
    }
  }

  /** Building the root leaves the mounted filesystems alone. */
  twostate lemma MountsKept(fss: set<MemoryFS>, new root: MemoryFS)
    requires old(Apart(fss)) && forall fs :: fs in fss ==> old(fs.Valid())
    requires forall fs, o :: fs in fss && o in old(fs.Repr()) ==> unchanged(o)
    requires fresh(root.Repr())
    ensures Apart(fss)
    ensures forall fs :: fs in fss ==> fs.Valid() && fs.Repr() !! root.Repr()
  {
    hide MemoryFS.Abs, MemoryFS.Wired, Inv;
    forall fs | fs in fss ensures Namespace.Same(fs) { Namespace.SystemSame(fs); }
    assert Apart(fss) by {
      forall fs, gs | fs in fss && gs in fss && fs != gs ensures fs.Repr() !! gs.Repr() {}
    }
  }

  /** The parts of a new namespace fit together. */
  lemma Assembled(ns: Namespace, mounts: seq<Mount>)
    requires ns.mounts == SortMounts(mounts) && ns.root.Valid() && Apart(Systems(mounts))
    requires forall fs :: fs in Systems(mounts) ==> fs.Valid() && fs.Repr() !! ns.root.Repr()
    requires AllDirs(ns.root.Abs()) && HasPaths(ns.root.Abs(), mounts) && GoodMounts(Points(mounts))
    ensures ns.Valid()
  {
    hide MemoryFS.Abs, MemoryFS.Wired, Inv, MemoryFS.Repr, AllDirs, HasPaths, GoodMounts, Protected, SortMounts;
    hide Systems;
    PathsProtect(ns.root.Abs(), mounts);
    SortedSystems(mounts);
    forall i | 0 <= i < |ns.mounts| ensures ns.mounts[i].fs in Systems(mounts) { InSystems(ns.mounts, i); }
    forall b | 0 <= b < |ns.Abs().backs| ensures Inv(ns.Abs().backs[b]) { var i := ShownBy(ns.mounts, b); }
  }
}
