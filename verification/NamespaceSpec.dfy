/** The guest namespace as a value: a root filesystem and the mounted ones, and
    each namespace operation as a function. */
module NamespaceSpec {
  import opened Paths
  import opened Resolving
  import opened Listing
  import opened Store
  import opened Tree
  import opened Renaming
  import opened Invariant
  import opened Runs
  import opened Routing

  /** The root filesystem, the mounted ones, and for each mount the one it shows;
      several mounts may show one filesystem. */
  datatype Space<N, H> = Space(root: State<N, H>, backs: seq<State<N, H>>, shows: seq<nat>)

  ghost predicate Fits<N, H>(mounts: seq<MountPoint>, sp: Space<N, H>) {
    |sp.shows| == |mounts| && forall i :: 0 <= i < |sp.shows| ==> sp.shows[i] < |sp.backs|
  }

  datatype Opened<+H> = NullFile | File(file: H)

  ghost predicate WellFormedSpace<N, H>(mounts: seq<MountPoint>, sp: Space<N, H>) {
    && Fits(mounts, sp) && WellFormed(sp.root)
    && forall i :: 0 <= i < |sp.backs| ==> WellFormed(sp.backs[i])
  }

  ghost predicate Has<N, H>(sp: Space<N, H>, at: Place) {
    at.On? ==> at.mount < |sp.shows| && sp.shows[at.mount] < |sp.backs|
  }

  ghost function Part<N, H>(sp: Space<N, H>, at: Place): State<N, H>
    requires Has(sp, at)
  {
    if at.On? then sp.backs[sp.shows[at.mount]] else sp.root
  }

  ghost function WithPart<N, H>(sp: Space<N, H>, at: Place, st: State<N, H>): Space<N, H>
    requires Has(sp, at)
  {
    if at.On? then sp.(backs := sp.backs[sp.shows[at.mount] := st]) else sp.(root := st)
  }

  /** Places in one filesystem, going by what the mounts show. */
  predicate SamePart(shows: seq<nat>, a: Place, b: Place) {
    && a.On? == b.On?
    && (a.On? ==> a.mount < |shows| && b.mount < |shows| && shows[a.mount] == shows[b.mount])
  }

  predicate EndsInSlash(name: string) { name != "" && name[|name| - 1] == '/' }

  /** Whether a name denotes a directory, or why it denotes nothing. */
  ghost function Stat<N, H>(mounts: seq<MountPoint>, sp: Space<N, H>, name: string): Result<bool>
    requires WellFormedSpace(mounts, sp)
  {
    if Resolve("/", name) == "/dev/null" then Ok(false)
    else if Resolve("/", name) == "/dev/null/" then Err(NotDirectory)
    else
      match Route(mounts, name)
      case Err(e) => Err(e)
      case Ok(at) =>
        var st := Part(sp, at);
        if !Valid(at.rel) then Err(Invalid)
        else if at.rel !in st.names then Err(NotExist)
        else
          var isDir := st.inodes[st.names[at.rel]].isDir;
          if EndsInSlash(name) && !isDir then Err(NotDirectory) else Ok(isDir)
  }

  const READ := Flags(false, false, false, false, false, false)

  /** The flags ask for more than reading. */
  predicate Wants(f: Flags) { f.wronly || f.rdwr || f.create || f.trunc || f.append }

  predicate Sealed(mounts: seq<MountPoint>, at: Place)
    requires at.On? ==> at.mount < |mounts|
  {
    at.On? && (mounts[at.mount].readOnly || !mounts[at.mount].canWrite)
  }

  ghost function Open<N, H>(mounts: seq<MountPoint>, sp: Space<N, H>, name: string, f: Flags, n: N, h: H)
    : (Space<N, H>, Result<Opened<H>>)
    requires WellFormedSpace(mounts, sp)
  {
    if EndsInSlash(name) && Stat(mounts, sp, name).Err? then (sp, Err(Stat(mounts, sp, name).error))
    else if Resolve("/", name) == "/dev/null" then (sp, Ok(NullFile))
    else
      match Route(mounts, name)
      case Err(e) => (sp, Err(e))
      case Ok(at) =>
        if Wants(f) && Sealed(mounts, at) then (sp, Err(ReadOnly))
        else
          var (st, r) := OpenFile(Part(sp, at), at.rel, if Wants(f) then f else READ, n, h);
          (WithPart(sp, at, st), match r case Ok(k) => Ok(File(k)) case Err(e) => Err(e))
  }

  /** A mount point is at or below the path. */
  predicate HoldsMount(mounts: seq<MountPoint>, clean: string) {
    exists i :: 0 <= i < |mounts| &&
      (clean == mounts[i].path || clean + "/" <= mounts[i].path || clean == "/")
  }

  /** The place a name may be changed at. */
  function Writable(mounts: seq<MountPoint>, name: string): (r: Result<Place>)
    ensures r.Ok? ==> Route(mounts, name) == r
  {
    if HoldsMount(mounts, CleanName(name)) then Err(Busy)
    else
      match Route(mounts, name)
      case Err(e) => Err(e)
      case Ok(at) => if Sealed(mounts, at) then Err(ReadOnly) else Ok(at)
  }

  ghost function Mkdir<N, H>(mounts: seq<MountPoint>, sp: Space<N, H>, name: string, n: N): (Space<N, H>, Option<Errno>)
    requires WellFormedSpace(mounts, sp)
  {
    match Writable(mounts, name)
    case Err(e) => (sp, Some(e))
    case Ok(at) =>
      var (st, e) := Store.Mkdir(Part(sp, at), at.rel, n);
      (WithPart(sp, at, st), e)
  }

  ghost function Remove<N, H>(mounts: seq<MountPoint>, sp: Space<N, H>, name: string, dir: bool)
    : (Space<N, H>, Option<Errno>)
    requires WellFormedSpace(mounts, sp)
  {
    match Writable(mounts, name)
    case Err(e) => (sp, Some(e))
    case Ok(at) =>
      match Stat(mounts, sp, name)
      case Err(e) => (sp, Some(e))
      case Ok(isDir) =>
        if isDir != dir then (sp, Some(if dir then NotDirectory else IsDirectory))
        else
          var (st, e) := Store.Remove(Part(sp, at), at.rel);
          (WithPart(sp, at, st), e)
  }

  /** The mount path that owns a name. */
  function Owner(mounts: seq<MountPoint>, name: string): string {
    match FirstCover(mounts, CleanName(name)) case Some(i) => mounts[i].path case None => "/"
  }

  ghost function Rename<N, H>(mounts: seq<MountPoint>, sp: Space<N, H>, src: string, dst: string)
    : (Space<N, H>, Option<Errno>)
    requires WellFormedSpace(mounts, sp)
  {
    if EndsInSlash(src) && Stat(mounts, sp, src).Err? then (sp, Some(Stat(mounts, sp, src).error))
    else if EndsInSlash(dst) && Stat(mounts, sp, dst).Err? then (sp, Some(Stat(mounts, sp, dst).error))
    else
      match Writable(mounts, src)
      case Err(e) => (sp, Some(e))
      case Ok(at) =>
        match Writable(mounts, dst)
        case Err(e) => (sp, Some(e))
        case Ok(to) =>
          if Owner(mounts, src) != Owner(mounts, dst) then (sp, Some(CrossDevice))
          else
            var (st, e) := Store.Rename(Part(sp, at), at.rel, to.rel);
            (WithPart(sp, at, st), e)
  }

  // ---------------------------------------------------------------------
  // The invariant
  // ---------------------------------------------------------------------

  ghost predicate DirAt<N, H>(st: State<N, H>, p: string) {
    p in st.names && st.names[p] in st.inodes && st.inodes[st.names[p]].isDir
  }

  /** Every mount path, and every path above one, is a directory of the root. */
  ghost predicate Protected<N, H>(mounts: seq<MountPoint>, root: State<N, H>)
    requires GoodMounts(mounts)
  {
    forall i, k :: 0 <= i < |mounts| && 0 < k <= |MountComps(mounts[i].path)| ==>
      DirAt(root, PathOf(MountComps(mounts[i].path)[..k]))
  }

  ghost predicate GoodSpace<N, H>(mounts: seq<MountPoint>, sp: Space<N, H>) {
    && GoodMounts(mounts) && Fits(mounts, sp)
    && Inv(sp.root) && (forall i :: 0 <= i < |sp.backs| ==> Inv(sp.backs[i]))
    && Protected(mounts, sp.root)
  }

  lemma GoodIsWellFormed<N, H>(mounts: seq<MountPoint>, sp: Space<N, H>)
    requires GoodSpace(mounts, sp)
    ensures WellFormedSpace(mounts, sp)
  {
    InvTree(sp.root);
    forall i | 0 <= i < |sp.backs| ensures WellFormed(sp.backs[i]) { InvTree(sp.backs[i]); }
  }

  // ---------------------------------------------------------------------
  // Mount points cannot be created over, removed or moved
  // ---------------------------------------------------------------------

  /** A name that may be changed is not at or above any mount point. */
  lemma WritableAvoidsMounts(mounts: seq<MountPoint>, name: string, i: nat)
    requires GoodMounts(mounts) && Writable(mounts, name).Ok? && i < |mounts|
    ensures !(Target(name) <= MountComps(mounts[i].path))
  {
    var cs, m, path := Target(name), MountComps(mounts[i].path), mounts[i].path;
    CleanNameIs(name);
    RouteIsPrefix(mounts, name);
    TargetValid(name);
    GoodPathComps(path);
    assert !(CleanName(name) == path || CleanName(name) + "/" <= path || CleanName(name) == "/");
    if cs != [] && cs <= m {
      CompsPathOf(cs);
      CompsPathOf(m);
      WithinComps(Join(m), Join(cs));
      SlashedPrefix(Join(m), Join(cs));
    }
  }

  /** So a root name that may be changed differs from, and is not above, any
      protected directory. */
  lemma RootChangeAvoids(mounts: seq<MountPoint>, name: string, i: nat, k: nat)
    requires GoodMounts(mounts) && Writable(mounts, name).Ok? && Writable(mounts, name).value.Root?
    requires i < |mounts| && 0 < k <= |MountComps(mounts[i].path)|
    ensures var rel, p := Writable(mounts, name).value.rel, PathOf(MountComps(mounts[i].path)[..k]);
            Valid(rel) && p != rel && (rel != "." ==> !Within(p, rel))
  {
    var m := MountComps(mounts[i].path);
    var rel, p := Writable(mounts, name).value.rel, PathOf(m[..k]);
    WritableAvoidsMounts(mounts, name, i);
    RouteIsPrefix(mounts, name);
    GoodPathComps(mounts[i].path);
    assert ValidElements(m[..k]) by { assert forall c :: c in m[..k] ==> c in m; }
    CompsPathOf(m[..k]);
    if rel != "." { WithinComps(p, rel); }
  }
}
