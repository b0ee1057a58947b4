/** Runs of namespace and handle operations: mount points stay, sealed filesystems
    stay unchanged, and each operation changes at most the filesystem that owns
    its path. */
module NamespaceRuns {
  import opened Paths
  import opened Resolving
  import opened Listing
  import opened Store
  import opened Tree
  import opened Renaming
  import opened Invariant
  import opened Runs
  import opened Routing
  import opened NamespaceSpec

  /** A namespace operation, or an operation on an open file of the root
      (mount None) or of a mounted filesystem. */
  datatype SpaceOp<N, H> =
    | SpaceOpen(name: string, flags: Flags, n: N, h: H)
    | SpaceMkdir(name: string, n: N)
    | SpaceRemove(name: string, dir: bool)
    | SpaceRename(src: string, dst: string)
    | SpaceFile(at: Place, op: Op<N, H>)

  ghost predicate FileOp<N, H>(op: Op<N, H>) {
    !op.OpOpen? && !op.OpMkdir? && !op.OpRemove? && !op.OpRename?
  }

  ghost predicate FreshInode<N, H>(sp: Space<N, H>, n: N) {
    n !in sp.root.inodes && forall i :: 0 <= i < |sp.backs| ==> n !in sp.backs[i].inodes
  }

  ghost predicate FreshHandle<N, H>(sp: Space<N, H>, h: H) {
    h !in sp.root.handles && forall i :: 0 <= i < |sp.backs| ==> h !in sp.backs[i].handles
  }

  ghost predicate Enabled<N, H>(sp: Space<N, H>, op: SpaceOp<N, H>) {
    match op
    case SpaceOpen(_, _, n, h) => FreshInode(sp, n) && FreshHandle(sp, h)
    case SpaceMkdir(_, n) => FreshInode(sp, n)
    case SpaceRemove(_, _) => true
    case SpaceRename(_, _) => true
    case SpaceFile(at, o) => Has(sp, at) && FileOp(o) && o.h in Part(sp, at).handles
  }

  ghost function Step<N, H>(mounts: seq<MountPoint>, sp: Space<N, H>, op: SpaceOp<N, H>): Space<N, H>
    requires GoodSpace(mounts, sp) && Enabled(sp, op)
  {
    GoodIsWellFormed(mounts, sp);
    match op
    case SpaceOpen(name, f, n, h) => Open(mounts, sp, name, f, n, h).0
    case SpaceMkdir(name, n) => NamespaceSpec.Mkdir(mounts, sp, name, n).0
    case SpaceRemove(name, dir) => NamespaceSpec.Remove(mounts, sp, name, dir).0
    case SpaceRename(src, dst) => NamespaceSpec.Rename(mounts, sp, src, dst).0
    case SpaceFile(at, o) => WithPart(sp, at, Runs.Step(Part(sp, at), o))
  }

  // ---------------------------------------------------------------------
  // One filesystem operation at a place
  // ---------------------------------------------------------------------

  /** A protected directory survives an operation on the root that avoids it. */
  lemma OpenKeepsDir<N, H>(st: State<N, H>, name: string, f: Flags, n: N, h: H, p: string)
    requires Inv(st) && WellFormed(st) && DirAt(st, p) && n !in st.inodes
    ensures DirAt(OpenFile(st, name, f, n, h).0, p)
  {
    hide Inv, ParentError, Valid;
  }

  lemma MkdirKeepsDir<N, H>(st: State<N, H>, name: string, n: N, p: string)
    requires WellFormed(st) && DirAt(st, p) && n !in st.inodes
    ensures DirAt(Store.Mkdir(st, name, n).0, p)
  {
    hide ParentError, Valid;
  }

  lemma RemoveKeepsDir<N, H>(st: State<N, H>, name: string, p: string)
    requires WellFormed(st) && DirAt(st, p) && p != name
    ensures DirAt(Store.Remove(st, name).0, p)
  {
    hide HasChild, Valid;
  }

  lemma RenameKeepsDir<N, H>(st: State<N, H>, src: string, dst: string, p: string)
    requires Inv(st) && WellFormed(st) && DirAt(st, p) && !Within(p, src) && p != dst
    ensures DirAt(Store.Rename(st, src, dst).0, p)
  {
    hide Inv;
    if Moves(st, src, dst) {
      InvTree(st);
      MovesMovable(st, src, dst);
      MovesResult(st, src, dst);
      StaysPut(st, src, dst, p);
    }
  }

  lemma FileOpKeepsDir<N, H>(st: State<N, H>, op: Op<N, H>, p: string)
    requires Inv(st) && Runs.Enabled(st, op) && FileOp(op) && DirAt(st, p)
    ensures DirAt(Runs.Step(st, op), p)
  {
    hide Inv, Overlay, Resized, Snapshot, ReadAt;
  }

  // ---------------------------------------------------------------------
  // The invariant of the namespace
  // ---------------------------------------------------------------------

  lemma WithPartGood<N, H>(mounts: seq<MountPoint>, sp: Space<N, H>, at: Place, st: State<N, H>)
    requires GoodSpace(mounts, sp) && Has(sp, at) && Inv(st) && (at.Root? ==> Protected(mounts, st))
    ensures GoodSpace(mounts, WithPart(sp, at, st))
  {}

  lemma GoodPart<N, H>(mounts: seq<MountPoint>, sp: Space<N, H>, at: Place)
    requires GoodSpace(mounts, sp) && (at.On? ==> at.mount < |mounts|)
    ensures GoodMounts(mounts) && Has(sp, at) && Inv(Part(sp, at)) && WellFormed(Part(sp, at))
    ensures at.Root? ==> Protected(mounts, Part(sp, at))
  {
    hide GoodMounts, Protected;
    GoodIsWellFormed(mounts, sp);
  }

  lemma OpenKeepsSpace<N, H>(mounts: seq<MountPoint>, sp: Space<N, H>, name: string, f: Flags, n: N, h: H)
    requires GoodSpace(mounts, sp) && WellFormedSpace(mounts, sp) && FreshInode(sp, n) && FreshHandle(sp, h)
    ensures GoodSpace(mounts, Open(mounts, sp, name, f, n, h).0)
  {
    hide Inv, Protected, GoodMounts, OpenFile, Stat, WellFormed;
    if Route(mounts, name).Ok? {
      var at := Route(mounts, name).value;
      var g := if Wants(f) then f else READ;
      var st := Part(sp, at);
      OpenFileKeeps(st, at.rel, g, n, h);
      if at.Root? { OpenKeepsProtected(mounts, st, at.rel, g, n, h); }
      WithPartGood(mounts, sp, at, OpenFile(st, at.rel, g, n, h).0);
    }
  }

  lemma NewInPart<N, H>(sp: Space<N, H>, n: N, at: Place)
    requires FreshInode(sp, n) && Has(sp, at)
    ensures n !in Part(sp, at).inodes
  {
  }

  lemma OpenKeepsProtected<N, H>(mounts: seq<MountPoint>, st: State<N, H>, name: string, f: Flags, n: N, h: H)
    requires GoodMounts(mounts) && Inv(st) && WellFormed(st) && Protected(mounts, st) && n !in st.inodes
    ensures Protected(mounts, OpenFile(st, name, f, n, h).0)
  {
    hide Inv, OpenFile;
    forall i, k | 0 <= i < |mounts| && 0 < k <= |MountComps(mounts[i].path)|
      ensures DirAt(OpenFile(st, name, f, n, h).0, PathOf(MountComps(mounts[i].path)[..k]))
    {
      OpenKeepsDir(st, name, f, n, h, PathOf(MountComps(mounts[i].path)[..k]));
    }
  }

  lemma MkdirKeepsSpace<N, H>(mounts: seq<MountPoint>, sp: Space<N, H>, name: string, n: N)
    requires GoodSpace(mounts, sp) && WellFormedSpace(mounts, sp) && FreshInode(sp, n)
    ensures GoodSpace(mounts, NamespaceSpec.Mkdir(mounts, sp, name, n).0)
  {
    hide Inv, Store.Mkdir, Protected, Route, Writable, GoodMounts, WellFormed, GoodSpace, WithPart, Part;
    if Writable(mounts, name).Ok? {
      var at := Writable(mounts, name).value;
      assert Route(mounts, name) == Ok(at);
      GoodPart(mounts, sp, at);
      NewInPart(sp, n, at);
      var st := Part(sp, at);
      MkdirKeeps(st, at.rel, n);
      if at.Root? { MkdirKeepsProtected(mounts, st, at.rel, n); }
      WithPartGood(mounts, sp, at, Store.Mkdir(st, at.rel, n).0);
    }
  }

  lemma MkdirKeepsProtected<N, H>(mounts: seq<MountPoint>, st: State<N, H>, name: string, n: N)
    requires GoodMounts(mounts) && WellFormed(st) && Protected(mounts, st) && n !in st.inodes
    ensures Protected(mounts, Store.Mkdir(st, name, n).0)
  {
    hide Store.Mkdir;
    forall i, k | 0 <= i < |mounts| && 0 < k <= |MountComps(mounts[i].path)|
      ensures DirAt(Store.Mkdir(st, name, n).0, PathOf(MountComps(mounts[i].path)[..k]))
    {
      MkdirKeepsDir(st, name, n, PathOf(MountComps(mounts[i].path)[..k]));
    }
  }

  lemma RemoveKeepsSpace<N, H>(mounts: seq<MountPoint>, sp: Space<N, H>, name: string, dir: bool)
    requires GoodSpace(mounts, sp) && WellFormedSpace(mounts, sp)
    ensures GoodSpace(mounts, NamespaceSpec.Remove(mounts, sp, name, dir).0)
  {
    hide Inv, Store.Remove, Protected, Stat, Route, Writable, GoodMounts, WellFormed, GoodSpace, WithPart, Part;
    if Writable(mounts, name).Ok? {
      var at := Writable(mounts, name).value;
      assert Route(mounts, name) == Ok(at);
      GoodPart(mounts, sp, at);
      var st := Part(sp, at);
      RemoveKeeps(st, at.rel);
      if at.Root? { RemoveKeepsProtected(mounts, st, name); }
      WithPartGood(mounts, sp, at, Store.Remove(st, at.rel).0);
    }
  }

  lemma RemoveKeepsProtected<N, H>(mounts: seq<MountPoint>, st: State<N, H>, name: string)
    requires GoodMounts(mounts) && WellFormed(st) && Protected(mounts, st)
    requires Writable(mounts, name).Ok? && Writable(mounts, name).value.Root?
    ensures Protected(mounts, Store.Remove(st, Writable(mounts, name).value.rel).0)
  {
    hide Store.Remove, Writable;
    var rel := Writable(mounts, name).value.rel;
    forall i, k | 0 <= i < |mounts| && 0 < k <= |MountComps(mounts[i].path)|
      ensures DirAt(Store.Remove(st, rel).0, PathOf(MountComps(mounts[i].path)[..k]))
    {
      RootChangeAvoids(mounts, name, i, k);
      RemoveKeepsDir(st, rel, PathOf(MountComps(mounts[i].path)[..k]));
    }
  }

  lemma RenameKeepsSpace<N, H>(mounts: seq<MountPoint>, sp: Space<N, H>, src: string, dst: string)
    requires GoodSpace(mounts, sp) && WellFormedSpace(mounts, sp)
    ensures GoodSpace(mounts, NamespaceSpec.Rename(mounts, sp, src, dst).0)
  {
    hide Inv, Store.Rename, Protected, Stat, Route, Writable, Owner, GoodMounts, WellFormed, GoodSpace, WithPart, Part;
    if Writable(mounts, src).Ok? && Writable(mounts, dst).Ok? && Owner(mounts, src) == Owner(mounts, dst) {
      var at, to := Writable(mounts, src).value, Writable(mounts, dst).value;
      assert Route(mounts, src) == Ok(at);
      GoodPart(mounts, sp, at);
      var st := Part(sp, at);
      RenameKeeps(st, at.rel, to.rel);
      SameOwnerSamePlace(mounts, src, dst);
      if at.Root? { RenameKeepsProtected(mounts, st, src, dst); }
      WithPartGood(mounts, sp, at, Store.Rename(st, at.rel, to.rel).0);
    }
  }

  /** Comparing owners by mount path is comparing the mounts routed to, so the
      destination's filesystem is the source's. */
  lemma SameOwnerSamePlace(mounts: seq<MountPoint>, src: string, dst: string)
    requires GoodMounts(mounts) && Writable(mounts, src).Ok? && Writable(mounts, dst).Ok?
    ensures var at, to := Writable(mounts, src).value, Writable(mounts, dst).value;
      Owner(mounts, src) == Owner(mounts, dst) <==>
        (at.Root? && to.Root?) || (at.On? && to.On? && at.mount == to.mount)
  {
    var at, to := Writable(mounts, src).value, Writable(mounts, dst).value;
    if at.On? { assert GoodPath(mounts[at.mount].path); }
    if to.On? { assert GoodPath(mounts[to.mount].path); }
    if at.On? && to.On? && at.mount != to.mount {
      if at.mount < to.mount {
        assert !Overlap(mounts[to.mount].path, mounts[at.mount].path);
      } else {
        assert !Overlap(mounts[at.mount].path, mounts[to.mount].path);
      }
    }
  }

  lemma RenameKeepsProtected<N, H>(mounts: seq<MountPoint>, st: State<N, H>, src: string, dst: string)
    requires GoodMounts(mounts) && Inv(st) && WellFormed(st) && Protected(mounts, st)
    requires Writable(mounts, src).Ok? && Writable(mounts, src).value.Root?
    requires Writable(mounts, dst).Ok? && Writable(mounts, dst).value.Root?
    ensures Protected(mounts, Store.Rename(st, Writable(mounts, src).value.rel, Writable(mounts, dst).value.rel).0)
  {
    hide Inv, Store.Rename, Writable;
    var a, b := Writable(mounts, src).value.rel, Writable(mounts, dst).value.rel;
    forall i, k | 0 <= i < |mounts| && 0 < k <= |MountComps(mounts[i].path)|
      ensures DirAt(Store.Rename(st, a, b).0, PathOf(MountComps(mounts[i].path)[..k]))
    {
      RootChangeAvoids(mounts, src, i, k);
      RootChangeAvoids(mounts, dst, i, k);
      RenameAvoiding(st, a, b, PathOf(MountComps(mounts[i].path)[..k]));
    }
  }

  lemma RenameAvoiding<N, H>(st: State<N, H>, a: string, b: string, p: string)
    requires Inv(st) && WellFormed(st) && DirAt(st, p) && p != b && p != a && (a != "." ==> !Within(p, a))
    ensures DirAt(Store.Rename(st, a, b).0, p)
  {
    if a == "." {
      assert Store.Rename(st, a, b).0 == st;
    } else {
      RenameKeepsDir(st, a, b, p);
    }
  }

  lemma FileKeepsSpace<N, H>(mounts: seq<MountPoint>, sp: Space<N, H>, at: Place, op: Op<N, H>)
    requires GoodSpace(mounts, sp) && Enabled(sp, SpaceFile(at, op))
    ensures GoodSpace(mounts, WithPart(sp, at, Runs.Step(Part(sp, at), op)))
  {
    hide Inv, Protected;
    var st := Part(sp, at);
    StepKeeps(st, op);
    if at.Root? { FileOpKeepsProtected(mounts, st, op); }
    WithPartGood(mounts, sp, at, Runs.Step(st, op));
  }

  lemma FileOpKeepsProtected<N, H>(mounts: seq<MountPoint>, st: State<N, H>, op: Op<N, H>)
    requires GoodMounts(mounts) && Inv(st) && Protected(mounts, st) && Runs.Enabled(st, op) && FileOp(op)
    ensures Protected(mounts, Runs.Step(st, op))
  {
    hide Inv, Runs.Step;
    forall i, k | 0 <= i < |mounts| && 0 < k <= |MountComps(mounts[i].path)|
      ensures DirAt(Runs.Step(st, op), PathOf(MountComps(mounts[i].path)[..k]))
    {
      FileOpKeepsDir(st, op, PathOf(MountComps(mounts[i].path)[..k]));
    }
  }

  lemma StepKeepsSpace<N, H>(mounts: seq<MountPoint>, sp: Space<N, H>, op: SpaceOp<N, H>)
    requires GoodSpace(mounts, sp) && Enabled(sp, op)
    ensures GoodSpace(mounts, Step(mounts, sp, op))
  {
    hide GoodSpace, Open, NamespaceSpec.Mkdir, NamespaceSpec.Remove, NamespaceSpec.Rename;
    GoodIsWellFormed(mounts, sp);
    match op
    case SpaceOpen(name, f, n, h) => OpenKeepsSpace(mounts, sp, name, f, n, h);
    case SpaceMkdir(name, n) => MkdirKeepsSpace(mounts, sp, name, n);
    case SpaceRemove(name, dir) => RemoveKeepsSpace(mounts, sp, name, dir);
    case SpaceRename(src, dst) => RenameKeepsSpace(mounts, sp, src, dst);
    case SpaceFile(at, o) => FileKeepsSpace(mounts, sp, at, o);
  }

  // ---------------------------------------------------------------------
  // Whole runs
  // ---------------------------------------------------------------------

  ghost predicate Possible<N, H>(mounts: seq<MountPoint>, sp: Space<N, H>, ops: seq<SpaceOp<N, H>>)
    requires GoodSpace(mounts, sp)
    decreases |ops|
  {
    ops == [] ||
    (Enabled(sp, ops[0]) && (StepKeepsSpace(mounts, sp, ops[0]); Possible(mounts, Step(mounts, sp, ops[0]), ops[1..])))
  }

  ghost function After<N, H>(mounts: seq<MountPoint>, sp: Space<N, H>, ops: seq<SpaceOp<N, H>>): (r: Space<N, H>)
    requires GoodSpace(mounts, sp) && Possible(mounts, sp, ops)
    ensures GoodSpace(mounts, r)
    decreases |ops|
  {
    if ops == [] then sp
    else
      StepKeepsSpace(mounts, sp, ops[0]);
      After(mounts, Step(mounts, sp, ops[0]), ops[1..])
  }

  /** After any run, every mount path and every path above one is still a
      directory of the root filesystem. */
  lemma MountPointsStay<N, H>(mounts: seq<MountPoint>, sp: Space<N, H>, ops: seq<SpaceOp<N, H>>, i: nat,
                              cs: seq<string>)
    requires GoodSpace(mounts, sp) && Possible(mounts, sp, ops)
    requires i < |mounts| && cs <= MountComps(mounts[i].path)
    ensures DirAt(After(mounts, sp, ops).root, PathOf(cs))
  {
    var r := After(mounts, sp, ops).root;
    if cs == [] {
      InvTree(r);
    } else {
      assert cs == MountComps(mounts[i].path)[..|cs|];
    }
  }

  /** Where an operation may have an effect. */
  ghost function OpPlace<N, H>(mounts: seq<MountPoint>, op: SpaceOp<N, H>): Option<Place> {
    match op
    case SpaceFile(at, _) => Some(at)
    case SpaceRename(src, _) => (match Route(mounts, src) case Ok(at) => Some(at) case Err(_) => None)
    case _ => match Route(mounts, op.name) case Ok(at) => Some(at) case Err(_) => None
  }

  /** The filesystem at a place is the mounted filesystem b. */
  ghost predicate Shown<N, H>(sp: Space<N, H>, at: Place, b: nat) {
    at.On? && at.mount < |sp.shows| && sp.shows[at.mount] == b
  }

  ghost predicate ChangesOnly<N, H>(sp: Space<N, H>, sp': Space<N, H>, at: Place) {
    && |sp'.backs| == |sp.backs| && sp'.shows == sp.shows
    && (at.On? ==> sp'.root == sp.root)
    && forall b :: 0 <= b < |sp.backs| && !Shown(sp, at, b) ==> sp'.backs[b] == sp.backs[b]
  }

  lemma WithPartChanges<N, H>(sp: Space<N, H>, at: Place, st: State<N, H>)
    requires Has(sp, at)
    ensures ChangesOnly(sp, WithPart(sp, at, st), at) && ChangesOnly(sp, sp, at)
  {}

  lemma OpenChangesOnly<N, H>(mounts: seq<MountPoint>, sp: Space<N, H>, name: string, f: Flags, n: N, h: H)
    requires WellFormedSpace(mounts, sp)
    ensures match Route(mounts, name)
      case Err(_) => Open(mounts, sp, name, f, n, h).0 == sp
      case Ok(at) => ChangesOnly(sp, Open(mounts, sp, name, f, n, h).0, at)
  {
    hide Stat, Route, OpenFile, WithPart, ChangesOnly, WellFormed;
    if Route(mounts, name).Ok? {
      var at := Route(mounts, name).value;
      WithPartChanges(sp, at, OpenFile(Part(sp, at), at.rel, if Wants(f) then f else READ, n, h).0);
    }
  }

  lemma MkdirChangesOnly<N, H>(mounts: seq<MountPoint>, sp: Space<N, H>, name: string, n: N)
    requires WellFormedSpace(mounts, sp)
    ensures match Route(mounts, name)
      case Err(_) => NamespaceSpec.Mkdir(mounts, sp, name, n).0 == sp
      case Ok(at) => ChangesOnly(sp, NamespaceSpec.Mkdir(mounts, sp, name, n).0, at)
  {
    hide Route, Store.Mkdir, WithPart, ChangesOnly, WellFormed, HoldsMount;
    if Route(mounts, name).Ok? {
      var at := Route(mounts, name).value;
      WithPartChanges(sp, at, Store.Mkdir(Part(sp, at), at.rel, n).0);
    }
  }

  lemma RemoveChangesOnly<N, H>(mounts: seq<MountPoint>, sp: Space<N, H>, name: string, dir: bool)
    requires WellFormedSpace(mounts, sp)
    ensures match Route(mounts, name)
      case Err(_) => NamespaceSpec.Remove(mounts, sp, name, dir).0 == sp
      case Ok(at) => ChangesOnly(sp, NamespaceSpec.Remove(mounts, sp, name, dir).0, at)
  {
    hide Stat, Route, Store.Remove, WithPart, ChangesOnly, WellFormed, HoldsMount;
    if Route(mounts, name).Ok? {
      var at := Route(mounts, name).value;
      WithPartChanges(sp, at, Store.Remove(Part(sp, at), at.rel).0);
    }
  }

  lemma RenameChangesOnly<N, H>(mounts: seq<MountPoint>, sp: Space<N, H>, src: string, dst: string)
    requires WellFormedSpace(mounts, sp)
    ensures match Route(mounts, src)
      case Err(_) => NamespaceSpec.Rename(mounts, sp, src, dst).0 == sp
      case Ok(at) => ChangesOnly(sp, NamespaceSpec.Rename(mounts, sp, src, dst).0, at)
  {
    hide Stat, Route, Store.Rename, WithPart, ChangesOnly, WellFormed, HoldsMount, Owner;
    if Route(mounts, src).Ok? {
      var at := Route(mounts, src).value;
      WithPartChanges(sp, at, sp.root);
      if Writable(mounts, dst).Ok? {
        WithPartChanges(sp, at, Store.Rename(Part(sp, at), at.rel, Writable(mounts, dst).value.rel).0);
      }
    }
  }

  /** An operation changes at most the filesystem its path is routed to. */
  lemma OnlyOwnerChanges<N, H>(mounts: seq<MountPoint>, sp: Space<N, H>, op: SpaceOp<N, H>)
    requires GoodSpace(mounts, sp) && Enabled(sp, op)
    ensures match OpPlace(mounts, op)
      case None => Step(mounts, sp, op) == sp
      case Some(at) => ChangesOnly(sp, Step(mounts, sp, op), at)
  {
    GoodIsWellFormed(mounts, sp);
    hide GoodSpace, Open, NamespaceSpec.Mkdir, NamespaceSpec.Remove, NamespaceSpec.Rename, Route, ChangesOnly;
    hide Runs.Step;
    match op
    case SpaceOpen(name, f, n, h) => OpenChangesOnly(mounts, sp, name, f, n, h);
    case SpaceMkdir(name, n) => MkdirChangesOnly(mounts, sp, name, n);
    case SpaceRemove(name, dir) => RemoveChangesOnly(mounts, sp, name, dir);
    case SpaceRename(src, dst) => RenameChangesOnly(mounts, sp, src, dst);
    case SpaceFile(at, o) => WithPartChanges(sp, at, Runs.Step(Part(sp, at), o));
  }

  // ---------------------------------------------------------------------
  // Read-only mounts
  // ---------------------------------------------------------------------

  /** What the names of a filesystem denote: kinds and bytes. */
  ghost function Contents<N, H>(st: State<N, H>): map<string, (bool, seq<byte>)>
    requires WellFormed(st)
  {
    map p | p in st.names :: (st.inodes[st.names[p]].isDir, st.inodes[st.names[p]].data)
  }

  /** No handle that is open may write. */
  ghost predicate NoWriters<N, H>(st: State<N, H>) {
    forall h :: h in st.handles && !st.handles[h].closed ==> !st.handles[h].writable
  }

  ghost predicate SameContents<N, H>(st: State<N, H>, st': State<N, H>) {
    WellFormed(st) && WellFormed(st') && Contents(st') == Contents(st) && NoWriters(st')
  }

  lemma ReadingOpenKeepsContents<N, H>(st: State<N, H>, name: string, n: N, h: H)
    requires Inv(st) && WellFormed(st) && NoWriters(st) && n !in st.inodes && h !in st.handles
    ensures SameContents(st, OpenFile(st, name, READ, n, h).0)
  {
    OpenFileKeeps(st, name, READ, n, h);
    InvTree(OpenFile(st, name, READ, n, h).0);
    hide Inv, Valid, ParentError;
  }

  /** Closing drops only bytes that no name denotes. */
  lemma CloseKeepsContents<N, H>(st: State<N, H>, h: H)
    requires Inv(st) && WellFormed(st) && NoWriters(st) && h in st.handles
    ensures SameContents(st, Close(st, h).0)
  {
    CloseKeeps(st, h);
    InvTree(Close(st, h).0);
    forall p | p in st.names ensures st.inodes[st.names[p]].linked { NameFits(st, p); }
    hide Inv;
  }

  lemma FileOpKeepsContents<N, H>(st: State<N, H>, op: Op<N, H>)
    requires Inv(st) && WellFormed(st) && NoWriters(st) && Runs.Enabled(st, op) && FileOp(op)
    ensures SameContents(st, Runs.Step(st, op))
  {
    StepKeeps(st, op);
    InvTree(Runs.Step(st, op));
    hide Inv, Close, Snapshot, ReadAt, Overlay, Resized;
    if op.OpClose? { CloseKeepsContents(st, op.h); }
  }

  /** Every mount that shows filesystem b is read-only, or b cannot write. */
  ghost predicate IsSealed(mounts: seq<MountPoint>, shows: seq<nat>, b: nat) {
    forall i :: 0 <= i < |mounts| && i < |shows| && shows[i] == b ==> mounts[i].readOnly || !mounts[i].canWrite
  }

  ghost predicate RoutesTo(mounts: seq<MountPoint>, shows: seq<nat>, name: string, b: nat) {
    match Route(mounts, name) case Ok(at) => at.On? && at.mount < |shows| && shows[at.mount] == b case Err(_) => false
  }

  lemma SealedOpen<N, H>(mounts: seq<MountPoint>, sp: Space<N, H>, name: string, f: Flags, n: N, h: H, b: nat)
    requires WellFormedSpace(mounts, sp) && IsSealed(mounts, sp.shows, b) && RoutesTo(mounts, sp.shows, name, b)
    requires b < |sp.backs| && Inv(sp.backs[b]) && NoWriters(sp.backs[b])
    requires n !in sp.backs[b].inodes && h !in sp.backs[b].handles
    ensures var sp' := Open(mounts, sp, name, f, n, h).0;
            |sp'.backs| == |sp.backs| && SameContents(sp.backs[b], sp'.backs[b])
  {
    hide Stat, Route, OpenFile, Inv, Contents;
    ReadingOpenKeepsContents(sp.backs[b], Route(mounts, name).value.rel, n, h);
  }

  lemma SealedNames(mounts: seq<MountPoint>, shows: seq<nat>, name: string, b: nat)
    requires IsSealed(mounts, shows, b) && RoutesTo(mounts, shows, name, b)
    ensures Writable(mounts, name).Err?
  {
    hide Route, HoldsMount;
  }

  /** No operation changes the names or bytes of a filesystem that every mount of
      it seals. */
  lemma SealedStepStays<N, H>(mounts: seq<MountPoint>, sp: Space<N, H>, op: SpaceOp<N, H>, b: nat)
    requires GoodSpace(mounts, sp) && Enabled(sp, op) && IsSealed(mounts, sp.shows, b)
    requires b < |sp.backs| && NoWriters(sp.backs[b])
    ensures var sp' := Step(mounts, sp, op);
            sp'.shows == sp.shows && b < |sp'.backs| && SameContents(sp.backs[b], sp'.backs[b])
  {
    OnlyOwnerChanges(mounts, sp, op);
    GoodIsWellFormed(mounts, sp);
    hide Step, Route, Inv, WellFormed, Contents, IsSealed;
    if OpPlace(mounts, op).Some? && Shown(sp, OpPlace(mounts, op).value, b) {
      SealedAtStays(mounts, sp, op, b);
    } else {
      Unchanged(sp.backs[b]);
    }
  }

  lemma SealedAtStays<N, H>(mounts: seq<MountPoint>, sp: Space<N, H>, op: SpaceOp<N, H>, b: nat)
    requires GoodSpace(mounts, sp) && Enabled(sp, op) && IsSealed(mounts, sp.shows, b)
    requires b < |sp.backs| && Inv(sp.backs[b]) && NoWriters(sp.backs[b])
    requires OpPlace(mounts, op).Some? && Shown(sp, OpPlace(mounts, op).value, b)
    ensures b < |Step(mounts, sp, op).backs| && SameContents(sp.backs[b], Step(mounts, sp, op).backs[b])
  {
    GoodIsWellFormed(mounts, sp);
    hide GoodSpace, Open, Runs.Step, Stat, Inv, SameContents, Writable, Route, NoWriters, WellFormed, Store.Mkdir;
    hide Store.Remove, Store.Rename, IsSealed;
    Unchanged(sp.backs[b]);
    match op
    case SpaceOpen(name, f, n, h) => SealedOpen(mounts, sp, name, f, n, h, b);
    case SpaceMkdir(name, _) => SealedNames(mounts, sp.shows, name, b);
    case SpaceRemove(name, _) => SealedNames(mounts, sp.shows, name, b);
    case SpaceRename(src, _) => SealedNames(mounts, sp.shows, src, b);
    case SpaceFile(_, o) => FileOpKeepsContents(sp.backs[b], o);
  }

  lemma Unchanged<N, H>(st: State<N, H>)
    requires WellFormed(st) && NoWriters(st)
    ensures SameContents(st, st)
  {}

  /** Over any run, a filesystem that every mount of it seals keeps its names and
      bytes. */
  lemma {:induction false} SealedStays<N, H>(mounts: seq<MountPoint>, sp: Space<N, H>, ops: seq<SpaceOp<N, H>>, b: nat)
    requires GoodSpace(mounts, sp) && Possible(mounts, sp, ops) && IsSealed(mounts, sp.shows, b)
    requires b < |sp.backs| && WellFormed(sp.backs[b]) && NoWriters(sp.backs[b])
    ensures var sp' := After(mounts, sp, ops);
            sp'.shows == sp.shows && b < |sp'.backs| && SameContents(sp.backs[b], sp'.backs[b])
    decreases |ops|
  {
    hide GoodSpace, Enabled, Step, IsSealed, WellFormed, Contents, NoWriters;
    if ops != [] {
      SealedStepStays(mounts, sp, ops[0], b);
      StepKeepsSpace(mounts, sp, ops[0]);
      SealedStays(mounts, Step(mounts, sp, ops[0]), ops[1..], b);
    }
  }
}
