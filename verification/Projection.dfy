/** What a run of the namespace does to one of its filesystems: a run of that
    filesystem's own operations.  So all that holds of such runs holds of runs of
    the namespace. */
module Projection {
  import opened Paths
  import opened Resolving
  import opened Store
  import opened Invariant
  import opened Runs
  import opened Edits
  import opened Routing
  import opened NamespaceSpec
  import R = NamespaceRuns
  import Renaming

  // ---------------------------------------------------------------------
  // Opening
  // ---------------------------------------------------------------------

  /** Flags that ask for reading alone all mean the same. */
  lemma ReadingFlags<N, H>(st: State<N, H>, name: string, f: Flags, n: N, h: H)
    requires WellFormed(st) && !Wants(f)
    ensures OpenFile(st, name, f, n, h) == OpenFile(st, name, READ, n, h)
  {
    hide ParentError, Valid;
  }

  /** What a successful opening of a filesystem leaves, in terms of the flags. */
  ghost predicate OpenedAs<N, H>(st: State<N, H>, t: State<N, H>, name: string, f: Flags, n: N, h: H)
    requires WellFormed(st)
  {
    && name in t.names && t.names[name] in t.inodes && h in t.handles
    && (if name in st.names then t.names == st.names else f.create && t.names == st.names[name := n])
    && t.handles[h] == Handle(t.names[name], !f.wronly, f.wronly || f.rdwr, f.append, false, 0, None, 0)
    && (forall k :: k in st.handles ==> k in t.handles && t.handles[k] == st.handles[k])
    && (forall m :: m in st.inodes && m != t.names[name] ==> m in t.inodes && t.inodes[m] == st.inodes[m])
    && t.inodes[t.names[name]].data ==
         (if f.trunc || name !in st.names then [] else st.inodes[st.names[name]].data)
    && (f.trunc ==> f.wronly || f.rdwr)
  }

  lemma OpenFileMeans<N, H>(st: State<N, H>, name: string, f: Flags, n: N, h: H)
    requires WellFormed(st) && n !in st.inodes && h !in st.handles && OpenFile(st, name, f, n, h).1.Ok?
    ensures OpenedAs(st, OpenFile(st, name, f, n, h).0, name, f, n, h) && OpenFile(st, name, f, n, h).1 == Ok(h)
  {
    hide ParentError, Valid;
  }

  /** Through the namespace, for every name but the null device: the handle is on
      the inode that the name has at the place it is routed to, it reads, writes
      and appends as the flags ask, its cursor is at the beginning, and the file is
      empty if it is truncated or new, and otherwise has the bytes it had. */
  lemma OpenMeans<N, H>(mounts: seq<MountPoint>, sp: Space<N, H>, name: string, f: Flags, n: N, h: H)
    requires GoodSpace(mounts, sp) && R.FreshInode(sp, n) && R.FreshHandle(sp, h)
    requires WellFormedSpace(mounts, sp) && Open(mounts, sp, name, f, n, h).1 == Ok(File(h))
    ensures Route(mounts, name).Ok?
    ensures var (sp', at) := (Open(mounts, sp, name, f, n, h).0, Route(mounts, name).value);
            && Has(sp, at) && Has(sp', at) && WellFormed(Part(sp, at))
            && OpenedAs(Part(sp, at), Part(sp', at), at.rel, f, n, h)
    ensures Wants(f) ==> !Sealed(mounts, Route(mounts, name).value)
  {
    hide GoodSpace, Stat, Route, WellFormed, OpenFile, OpenedAs;
    var at := Route(mounts, name).value;
    var st := Part(sp, at);
    FreshIn(sp, n, h, at);
    OpenFileMeans(st, at.rel, if Wants(f) then f else READ, n, h);
    if !Wants(f) { ReadingFlags(st, at.rel, f, n, h); }
    if !Wants(f) { OpenFileMeans(st, at.rel, f, n, h); }
  }

  lemma FreshIn<N, H>(sp: Space<N, H>, n: N, h: H, at: Place)
    requires R.FreshInode(sp, n) && R.FreshHandle(sp, h) && Has(sp, at)
    ensures n !in Part(sp, at).inodes && h !in Part(sp, at).handles
  {
  }

  /** A name opens for reading exactly when it denotes something, but for one kind of
      name: /dev/null/. and the like are refused by Stat and open what the root
      filesystem has at dev/null. */
  lemma ReadsWhatIs<N, H>(mounts: seq<MountPoint>, sp: Space<N, H>, name: string, n: N, h: H)
    requires WellFormedSpace(mounts, sp)
    ensures var there := Route(mounts, name).Ok? &&
                         var at := Route(mounts, name).value; Valid(at.rel) && at.rel in Part(sp, at).names;
            Open(mounts, sp, name, READ, n, h).1.Ok? <==>
              Stat(mounts, sp, name).Ok? || (Resolve("/", name) == "/dev/null/" && !EndsInSlash(name) && there)
  {
    hide Route, Resolve, WellFormed, Valid;
  }

  /** Replacing a file's contents: it is opened for writing and truncated, and
      written once.  Then it holds what was written, whatever it held before. */
  lemma ReplacesContents<N, H>(mounts: seq<MountPoint>, sp: Space<N, H>, name: string, f: Flags, n: N, h: H,
                               p: seq<byte>)
    requires GoodSpace(mounts, sp) && R.FreshInode(sp, n) && R.FreshHandle(sp, h) && WellFormedSpace(mounts, sp)
    requires f.trunc && Open(mounts, sp, name, f, n, h).1 == Ok(File(h))
    ensures var (sp', at) := (Open(mounts, sp, name, f, n, h).0, Route(mounts, name).value);
            Route(mounts, name).Ok? && Has(sp', at) && WellFormed(Part(sp', at)) && h in Part(sp', at).handles
    ensures var st := Part(Open(mounts, sp, name, f, n, h).0, Route(mounts, name).value);
            var (at, t, e) := (Route(mounts, name).value, Write(st, h, p).0, Write(st, h, p).1);
            e.None? ==> at.rel in t.names && t.names[at.rel] in t.inodes && t.inodes[t.names[at.rel]].data == p
  {
    OpenMeans(mounts, sp, name, f, n, h);
    R.OpenKeepsSpace(mounts, sp, name, f, n, h);
    var (sp', at) := (Open(mounts, sp, name, f, n, h).0, Route(mounts, name).value);
    hide GoodSpace, Open, Stat, Route, Inv, Write;
    PartInv(mounts, sp', at);
    if Write(Part(sp', at), h, p).1.None? { FillsEmpty(Part(sp', at), h, p); }
  }

  lemma FillsEmpty<N, H>(st: State<N, H>, h: H, p: seq<byte>)
    requires Inv(st) && WellFormed(st) && h in st.handles && st.handles[h].inode in st.inodes
    requires st.inodes[st.handles[h].inode].data == [] && st.handles[h].pos == 0 && Write(st, h, p).1.None?
    ensures var t := Write(st, h, p).0;
            t.names == st.names && st.handles[h].inode in t.inodes && t.inodes[st.handles[h].inode].data == p
  {
    FileBytes.WriteResult(st, h, p);
    OverlayNothing(p);
    hide WellFormed, Inv, Write, Overlay;
  }

  lemma OverlayNothing(p: seq<byte>)
    ensures Overlay([], 0, p) == p
  {
    FileBytes.OverlayAt([], 0, p);
  }

  // ---------------------------------------------------------------------
  // Projecting a run
  // ---------------------------------------------------------------------

  /** The operation that the filesystem at a place is given. */
  ghost function ProjectOp<N, H>(mounts: seq<MountPoint>, sp: Space<N, H>, op: R.SpaceOp<N, H>, at: Place)
    : (r: seq<Op<N, H>>)
    requires WellFormedSpace(mounts, sp)
  {
    match op
    case SpaceOpen(name, f, n, h) =>
      if (EndsInSlash(name) ==> Stat(mounts, sp, name).Ok?) && Resolve("/", name) != "/dev/null"
        && Route(mounts, name).Ok? && SamePart(sp.shows, Route(mounts, name).value, at)
        && !(Wants(f) && Sealed(mounts, Route(mounts, name).value))
      then [OpOpen(Route(mounts, name).value.rel, f, n, h)]
      else []
    case SpaceMkdir(name, n) =>
      if Changes(mounts, sp, name, at) then [OpMkdir(Route(mounts, name).value.rel, n)] else []
    case SpaceRemove(name, dir) =>
      if Changes(mounts, sp, name, at) && Stat(mounts, sp, name) == Ok(dir)
      then [OpRemove(Route(mounts, name).value.rel)]
      else []
    case SpaceRename(src, dst) =>
      if Changes(mounts, sp, src, at) && Changes(mounts, sp, dst, at) && Owner(mounts, src) == Owner(mounts, dst)
        && (EndsInSlash(src) ==> Stat(mounts, sp, src).Ok?) && (EndsInSlash(dst) ==> Stat(mounts, sp, dst).Ok?)
      then [OpRename(Route(mounts, src).value.rel, Route(mounts, dst).value.rel)]
      else []
    case SpaceFile(to, o) => if SamePart(sp.shows, to, at) then [o] else []
  }

  /** The name may be changed, and lies in the filesystem at the place. */
  ghost predicate Changes<N, H>(mounts: seq<MountPoint>, sp: Space<N, H>, name: string, at: Place) {
    && Writable(mounts, name).Ok? && Route(mounts, name).Ok?
    && SamePart(sp.shows, Route(mounts, name).value, at)
  }

  ghost function Project<N, H>(mounts: seq<MountPoint>, sp: Space<N, H>, ops: seq<R.SpaceOp<N, H>>, at: Place)
    : (r: seq<Op<N, H>>)
    requires GoodSpace(mounts, sp) && R.Possible(mounts, sp, ops)
    decreases |ops|
  {
    if ops == [] then []
    else
      GoodIsWellFormed(mounts, sp);
      R.StepKeepsSpace(mounts, sp, ops[0]);
      ProjectOp(mounts, sp, ops[0], at) + Project(mounts, R.Step(mounts, sp, ops[0]), ops[1..], at)
  }

  /** One filesystem in place of another, seen from a place. */
  lemma PartAt<N, H>(sp: Space<N, H>, to: Place, st: State<N, H>, at: Place)
    requires Has(sp, to) && Has(sp, at)
    ensures var sp' := WithPart(sp, to, st);
            Has(sp', at) && Part(sp', at) == if SamePart(sp.shows, to, at) then st else Part(sp, at)
    ensures SamePart(sp.shows, to, at) ==> Part(sp, to) == Part(sp, at)
  {
  }

  lemma {:induction false} OneOp<N, H>(st: State<N, H>, op: Op<N, H>)
    requires Inv(st) && Enabled(st, op)
    ensures Possible(st, [op]) && After(st, [op]) == Step(st, op)
  {
    hide Inv, Step, Enabled;
    StepKeeps(st, op);
    assert [op][1..] == [];
    assert Possible(Step(st, op), []);
  }

  lemma NoOp<N, H>(st: State<N, H>)
    requires Inv(st)
    ensures Possible(st, []) && After(st, []) == st
  {
  }

  /** What StepProjects says, of one operation. */
  ghost predicate Projects<N, H>(st: State<N, H>, ops: seq<Op<N, H>>, t: State<N, H>)
    requires Inv(st)
  {
    Possible(st, ops) && After(st, ops) == t
  }

  lemma OpenProjects<N, H>(mounts: seq<MountPoint>, sp: Space<N, H>, name: string, f: Flags, n: N, h: H, at: Place)
    requires GoodSpace(mounts, sp) && WellFormedSpace(mounts, sp) && Has(sp, at) && Inv(Part(sp, at))
    requires R.FreshInode(sp, n) && R.FreshHandle(sp, h)
    ensures var sp' := Open(mounts, sp, name, f, n, h).0;
            Has(sp', at) && Projects(Part(sp, at), ProjectOp(mounts, sp, R.SpaceOpen(name, f, n, h), at), Part(sp', at))
  {
    hide GoodSpace, Stat, Route, Resolve, WellFormed, Inv, OpenFile, Part, WithPart, SamePart, Possible, After;
    NoOp(Part(sp, at));
    if Route(mounts, name).Ok? {
      var to := Route(mounts, name).value;
      R.GoodPart(mounts, sp, to);
      var g := if Wants(f) then f else READ;
      if !Wants(f) { ReadingFlags(Part(sp, to), to.rel, f, n, h); }
      PartAt(sp, to, OpenFile(Part(sp, to), to.rel, g, n, h).0, at);
      FreshIn(sp, n, h, to);
      OneOp(Part(sp, to), OpOpen(to.rel, f, n, h));
    }
  }

  lemma MkdirProjects<N, H>(mounts: seq<MountPoint>, sp: Space<N, H>, name: string, n: N, at: Place)
    requires GoodSpace(mounts, sp) && WellFormedSpace(mounts, sp) && Has(sp, at) && Inv(Part(sp, at))
    requires R.FreshInode(sp, n)
    ensures var sp' := NamespaceSpec.Mkdir(mounts, sp, name, n).0;
            Has(sp', at) && Projects(Part(sp, at), ProjectOp(mounts, sp, R.SpaceMkdir(name, n), at), Part(sp', at))
  {
    hide GoodSpace, Writable, Route, WellFormed, Inv, Store.Mkdir, Part, WithPart, SamePart, Possible, After;
    NoOp(Part(sp, at));
    if Writable(mounts, name).Ok? {
      var to := Writable(mounts, name).value;
      assert Route(mounts, name) == Ok(to);
      R.GoodPart(mounts, sp, to);
      PartAt(sp, to, Store.Mkdir(Part(sp, to), to.rel, n).0, at);
      R.NewInPart(sp, n, to);
      OneOp(Part(sp, to), OpMkdir(to.rel, n));
    }
  }

  lemma RemoveProjects<N, H>(mounts: seq<MountPoint>, sp: Space<N, H>, name: string, dir: bool, at: Place)
    requires GoodSpace(mounts, sp) && WellFormedSpace(mounts, sp) && Has(sp, at) && Inv(Part(sp, at))
    ensures var sp' := NamespaceSpec.Remove(mounts, sp, name, dir).0;
            Has(sp', at) && Projects(Part(sp, at), ProjectOp(mounts, sp, R.SpaceRemove(name, dir), at), Part(sp', at))
  {
    hide GoodSpace, Writable, Stat, Route, WellFormed, Inv, Store.Remove, Part, WithPart, SamePart, Possible, After;
    NoOp(Part(sp, at));
    if Writable(mounts, name).Ok? {
      var to := Writable(mounts, name).value;
      assert Route(mounts, name) == Ok(to);
      R.GoodPart(mounts, sp, to);
      PartAt(sp, to, Store.Remove(Part(sp, to), to.rel).0, at);
      OneOp(Part(sp, to), OpRemove(to.rel));
    }
  }

  lemma RenameProjects<N, H>(mounts: seq<MountPoint>, sp: Space<N, H>, src: string, dst: string, at: Place)
    requires GoodSpace(mounts, sp) && WellFormedSpace(mounts, sp) && Has(sp, at) && Inv(Part(sp, at))
    ensures var sp' := NamespaceSpec.Rename(mounts, sp, src, dst).0;
            Has(sp', at) && Projects(Part(sp, at), ProjectOp(mounts, sp, R.SpaceRename(src, dst), at), Part(sp', at))
  {
    hide GoodSpace, Writable, Stat, Route, Owner, WellFormed, Inv, Store.Rename, Part, WithPart, Possible, After;
    NoOp(Part(sp, at));
    if Writable(mounts, src).Ok? && Writable(mounts, dst).Ok? {
      var to, other := Writable(mounts, src).value, Writable(mounts, dst).value;
      assert Route(mounts, src) == Ok(to) && Route(mounts, dst) == Ok(other);
      R.GoodPart(mounts, sp, to);
      R.SameOwnerSamePlace(mounts, src, dst);
      PartAt(sp, to, Store.Rename(Part(sp, to), to.rel, other.rel).0, at);
      OneOp(Part(sp, to), OpRename(to.rel, other.rel));
    }
  }

  lemma FileProjects<N, H>(mounts: seq<MountPoint>, sp: Space<N, H>, to: Place, o: Op<N, H>, at: Place)
    requires GoodSpace(mounts, sp) && WellFormedSpace(mounts, sp) && Has(sp, at) && Inv(Part(sp, at))
    requires R.Enabled(sp, R.SpaceFile(to, o))
    ensures var sp' := R.Step(mounts, sp, R.SpaceFile(to, o));
            Has(sp', at) && Projects(Part(sp, at), ProjectOp(mounts, sp, R.SpaceFile(to, o), at), Part(sp', at))
  {
    NoOp(Part(sp, at));
    hide WellFormed, Inv, Possible, After, Step;
    assert Inv(Part(sp, to)) by { PartInv(mounts, sp, to); }
    PartAt(sp, to, Step(Part(sp, to), o), at);
    OneOp(Part(sp, to), o);
    hide GoodSpace, Part, WithPart, SamePart;
  }

  lemma PartInv<N, H>(mounts: seq<MountPoint>, sp: Space<N, H>, at: Place)
    requires GoodSpace(mounts, sp) && Has(sp, at)
    ensures Inv(Part(sp, at))
  {
  }

  lemma StepProjects<N, H>(mounts: seq<MountPoint>, sp: Space<N, H>, op: R.SpaceOp<N, H>, at: Place)
    requires GoodSpace(mounts, sp) && R.Enabled(sp, op) && Has(sp, at)
    ensures WellFormedSpace(mounts, sp) && Inv(Part(sp, at))
    ensures var sp' := R.Step(mounts, sp, op);
            Has(sp', at) && Projects(Part(sp, at), ProjectOp(mounts, sp, op, at), Part(sp', at))
  {
    GoodIsWellFormed(mounts, sp);
    PartInv(mounts, sp, at);
    hide GoodSpace, WellFormedSpace, Inv, ProjectOp, Projects, Part, NamespaceSpec.Has, Open, NamespaceSpec.Mkdir;
    hide NamespaceSpec.Remove, NamespaceSpec.Rename;
    match op
    case SpaceOpen(name, f, n, h) => OpenProjects(mounts, sp, name, f, n, h, at);
    case SpaceMkdir(name, n) => MkdirProjects(mounts, sp, name, n, at);
    case SpaceRemove(name, dir) => RemoveProjects(mounts, sp, name, dir, at);
    case SpaceRename(src, dst) => RenameProjects(mounts, sp, src, dst, at);
    case SpaceFile(to, o) => FileProjects(mounts, sp, to, o, at);
  }

  /** A run of the namespace is, for each of its filesystems, a run of operations of
      that filesystem: those routed to it that no rule of the namespace refuses,
      with the names below the mount and the flags as given. */
  lemma {:induction false} RunProjects<N, H>(mounts: seq<MountPoint>, sp: Space<N, H>, ops: seq<R.SpaceOp<N, H>>,
                                              at: Place)
    requires GoodSpace(mounts, sp) && R.Possible(mounts, sp, ops) && Has(sp, at)
    ensures var sp' := R.After(mounts, sp, ops);
            && Inv(Part(sp, at)) && Has(sp', at)
            && Possible(Part(sp, at), Project(mounts, sp, ops, at))
            && Part(sp', at) == After(Part(sp, at), Project(mounts, sp, ops, at))
    decreases |ops|
  {
    PartInv(mounts, sp, at);
    hide GoodSpace, WellFormedSpace, Inv, ProjectOp, Part, NamespaceSpec.Has, R.Step, R.Enabled;
    if ops == [] {
      NoOp(Part(sp, at));
    } else {
      R.StepKeepsSpace(mounts, sp, ops[0]);
      StepProjects(mounts, sp, ops[0], at);
      var s := R.Step(mounts, sp, ops[0]);
      RunProjects(mounts, s, ops[1..], at);
      RunsJoin(Part(sp, at), ProjectOp(mounts, sp, ops[0], at), Project(mounts, s, ops[1..], at));
    }
  }

  lemma {:induction false} RunsJoin<N, H>(st: State<N, H>, a: seq<Op<N, H>>, b: seq<Op<N, H>>)
    requires Inv(st) && Possible(st, a) && Possible(After(st, a), b)
    ensures Possible(st, a + b) && After(st, a + b) == After(After(st, a), b)
    decreases |a|
  {
    hide Inv, Step, Enabled;
    if a == [] {
      assert a + b == b;
    } else {
      StepKeeps(st, a[0]);
      RunsJoin(Step(st, a[0]), a[1..], b);
      assert (a + b)[0] == a[0] && (a + b)[1..] == a[1..] + b;
    }
  }

  // ---------------------------------------------------------------------
  // What holds of files in a namespace
  // ---------------------------------------------------------------------

  /** After any run of the namespace, the bytes of every file that a name or an open
      handle reaches are those it had, none if the run has made it, edited by the
      writes, truncations and truncating openings of the run on it, through all
      mounts, names and handles. */
  lemma SpaceRunEdits<N, H>(mounts: seq<MountPoint>, sp: Space<N, H>, ops: seq<R.SpaceOp<N, H>>, at: Place, n: N)
    requires GoodSpace(mounts, sp) && R.Possible(mounts, sp, ops) && Has(sp, at)
    requires Has(R.After(mounts, sp, ops), at) && Reachable(Part(R.After(mounts, sp, ops), at), n)
    ensures Inv(Part(sp, at)) && Possible(Part(sp, at), Project(mounts, sp, ops, at))
    ensures BytesOf(Part(R.After(mounts, sp, ops), at), n) ==
            EditedAll(BytesOf(Part(sp, at), n), EditsIn(Part(sp, at), Project(mounts, sp, ops, at), n))
  {
    RunProjects(mounts, sp, ops, at);
    hide GoodSpace, Inv, Project, R.After, R.Possible, Possible, After, EditsIn, Part, NamespaceSpec.Has;
    RunEdits(Part(sp, at), Project(mounts, sp, ops, at), n);
  }

  // ---------------------------------------------------------------------
  // What names denote afterwards
  // ---------------------------------------------------------------------

  /** The name is none of the null device. */
  predicate Plain(name: string) { Resolve("/", name) != "/dev/null" && Resolve("/", name) != "/dev/null/" }

  /** A directory is made where nothing was, and is then there. */
  lemma MkdirShows<N, H>(mounts: seq<MountPoint>, sp: Space<N, H>, name: string, n: N)
    requires GoodSpace(mounts, sp) && WellFormedSpace(mounts, sp) && R.FreshInode(sp, n) && Plain(name)
    requires NamespaceSpec.Mkdir(mounts, sp, name, n).1.None?
    ensures var sp' := NamespaceSpec.Mkdir(mounts, sp, name, n).0;
            && GoodSpace(mounts, sp') && WellFormedSpace(mounts, sp')
            && Stat(mounts, sp, name) == Err(NotExist) && Stat(mounts, sp', name) == Ok(true)
  {
    R.MkdirKeepsSpace(mounts, sp, name, n);
    GoodIsWellFormed(mounts, NamespaceSpec.Mkdir(mounts, sp, name, n).0);
    hide GoodSpace, Route, Resolve, WellFormed, ParentError, Valid, HoldsMount;
    var at := Route(mounts, name).value;
    PartAt(sp, at, Store.Mkdir(Part(sp, at), at.rel, n).0, at);
  }

  /** What is removed was of the kind asked for, and is then gone. */
  lemma RemoveShows<N, H>(mounts: seq<MountPoint>, sp: Space<N, H>, name: string, dir: bool)
    requires GoodSpace(mounts, sp) && WellFormedSpace(mounts, sp) && Plain(name)
    requires NamespaceSpec.Remove(mounts, sp, name, dir).1.None?
    ensures var sp' := NamespaceSpec.Remove(mounts, sp, name, dir).0;
            && GoodSpace(mounts, sp') && WellFormedSpace(mounts, sp')
            && Stat(mounts, sp, name) == Ok(dir) && Stat(mounts, sp', name) == Err(NotExist)
  {
    R.RemoveKeepsSpace(mounts, sp, name, dir);
    GoodIsWellFormed(mounts, NamespaceSpec.Remove(mounts, sp, name, dir).0);
    hide GoodSpace, Route, Resolve, WellFormed, Valid, HoldsMount, HasChild;
    var at := Route(mounts, name).value;
    PartAt(sp, at, Store.Remove(Part(sp, at), at.rel).0, at);
  }

  /** After a rename the new name denotes what the old one did, and the old one
      nothing, unless the two name one place. */
  lemma RenameShows<N, H>(mounts: seq<MountPoint>, sp: Space<N, H>, src: string, dst: string)
    requires GoodSpace(mounts, sp) && WellFormedSpace(mounts, sp) && Plain(src) && Plain(dst)
    requires NamespaceSpec.Rename(mounts, sp, src, dst).1.None?
    ensures Route(mounts, src).Ok? && Route(mounts, dst).Ok?
    ensures var sp' := NamespaceSpec.Rename(mounts, sp, src, dst).0;
            && GoodSpace(mounts, sp') && WellFormedSpace(mounts, sp')
            && Stat(mounts, sp, src).Ok? && Stat(mounts, sp', dst) == Stat(mounts, sp, src)
            && (Route(mounts, src).value.rel != Route(mounts, dst).value.rel ==>
                  Stat(mounts, sp', src) == Err(NotExist))
  {
    R.RenameKeepsSpace(mounts, sp, src, dst);
    GoodIsWellFormed(mounts, NamespaceSpec.Rename(mounts, sp, src, dst).0);
    R.SameOwnerSamePlace(mounts, src, dst);
    var at, to := Route(mounts, src).value, Route(mounts, dst).value;
    R.GoodPart(mounts, sp, at);
    var st := Part(sp, at);
    RenameDenotes(st, at.rel, to.rel);
    hide GoodSpace, Route, Resolve, WellFormed, HoldsMount, Store.Rename, Owner;
    PartAt(sp, at, Store.Rename(st, at.rel, to.rel).0, at);
    PartAt(sp, at, Store.Rename(st, at.rel, to.rel).0, to);
  }

  lemma RenameDenotes<N, H>(st: State<N, H>, src: string, dst: string)
    requires WellFormed(st) && Inv(st) && Store.Rename(st, src, dst).1.None?
    ensures Valid(src) && Valid(dst) && src in st.names
    ensures var t := Store.Rename(st, src, dst).0;
            && dst in t.names && t.names[dst] == st.names[src] && st.names[src] in t.inodes
            && t.inodes[st.names[src]].isDir == st.inodes[st.names[src]].isDir
            && (src != dst ==> src !in t.names)
            && (dst in st.names ==> st.inodes[st.names[dst]].isDir == st.inodes[st.names[src]].isDir)
  {
    if src != dst {
      InvTree(st);
      Renaming.MovesMovable(st, src, dst);
      Renaming.MovesResult(st, src, dst);
      Renaming.SrcGone(st, src, dst);
      Renaming.RenamedAt(st.names, src, dst, dst);
      assert src + dst[|dst|..] == src;
    }
    hide Valid, Renamed, ParentError, HasChild, Inv;
  }
}
