/** The state of one in-memory filesystem as a value, and each of its operations
    as a function of that state.  N is the type of inode identities and H the
    type of handle identities; identities passed to an operation that creates an
    inode or a handle must be fresh. */
module Store {
  import opened Paths
  import opened Listing

  newtype byte = x: int | 0 <= x < 256

  const MAX_NODES := 10000

  datatype Option<+T> = None | Some(value: T)

  datatype Errno =
    | Invalid | NotExist | Exists | NotDirectory | IsDirectory | NotEmpty | NoSpace
    | Permission | Closed | EndOfFile | Busy | ReadOnly | CrossDevice

  datatype Result<+T> = Ok(value: T) | Err(error: Errno)

  /** The flags of os.OpenFile that the filesystem looks at. */
  datatype Flags = Flags(wronly: bool, rdwr: bool, create: bool, excl: bool, trunc: bool, append: bool) {
    predicate Writable() { wronly || rdwr }
    predicate Readable() { !wronly }
  }

  datatype Inode = Inode(isDir: bool, data: seq<byte>, refs: int, linked: bool)

  datatype Handle<N> = Handle(inode: N, readable: bool, writable: bool, append: bool, closed: bool,
                              pos: int, entries: Option<seq<Entry<N>>>, dirPos: int)

  datatype State<N, H> = State(limit: int, used: int, names: map<string, N>,
                               inodes: map<N, Inode>, handles: map<H, Handle<N>>)

  datatype Whence = Start | Current | End | OtherWhence

  // ---------------------------------------------------------------------
  // Names
  // ---------------------------------------------------------------------

  /** Every name denotes a known inode, and every handle refers to one. */
  ghost predicate WellFormed<N, H>(st: State<N, H>) {
    && (forall p :: p in st.names ==> st.names[p] in st.inodes)
    && (forall h :: h in st.handles ==> st.handles[h].inode in st.inodes)
  }

  /** The check that the directory part of name exists and is a directory. */
  ghost function ParentError<N, H>(st: State<N, H>, name: string): Option<Errno>
    requires WellFormed(st)
  {
    var d := Dir(name);
    if !Valid(d) then Some(Invalid)
    else if d !in st.names then Some(NotExist)
    else if !st.inodes[st.names[d]].isDir then Some(NotDirectory)
    else None
  }

  ghost function Create<N, H>(st: State<N, H>, name: string, isDir: bool, n: N): State<N, H> {
    st.(names := st.names[name := n], inodes := st.inodes[n := Inode(isDir, [], 0, true)])
  }

  /** Replacing an inode's bytes, charged to the budget. */
  ghost function SetData<N, H>(st: State<N, H>, n: N, data: seq<byte>): State<N, H>
    requires n in st.inodes
  {
    st.(used := st.used - |st.inodes[n].data| + |data|,
        inodes := st.inodes[n := st.inodes[n].(data := data)])
  }

  ghost function NewHandle<N>(n: N, f: Flags): Handle<N> {
    Handle(n, f.Readable(), f.Writable(), f.append, false, 0, None, 0)
  }

  /** Handle h enters, and its inode counts it. */
  ghost function AddHandle<N, H>(st: State<N, H>, h: H, x: Handle<N>): State<N, H>
    requires x.inode in st.inodes
  {
    var i := st.inodes[x.inode];
    st.(inodes := st.inodes[x.inode := i.(refs := i.refs + 1)], handles := st.handles[h := x])
  }

  ghost function OpenInode<N, H>(st: State<N, H>, n: N, f: Flags, h: H): (State<N, H>, Result<H>)
    requires n in st.inodes
  {
    if st.inodes[n].isDir && (f.Writable() || f.trunc) then (st, Err(IsDirectory))
    else if f.trunc && !f.Writable() then (st, Err(Permission))
    else
      var s := if f.trunc then SetData(st, n, []) else st;
      (AddHandle(s, h, NewHandle(n, f)), Ok(h))
  }

  ghost function OpenFile<N, H>(st: State<N, H>, name: string, f: Flags, n: N, h: H): (State<N, H>, Result<H>)
    requires WellFormed(st)
  {
    if !Valid(name) then (st, Err(Invalid))
    else if name in st.names then
      if f.create && f.excl then (st, Err(Exists)) else OpenInode(st, st.names[name], f, h)
    else if !f.create then (st, Err(NotExist))
    else if ParentError(st, name).Some? then (st, Err(ParentError(st, name).value))
    else if |st.names| >= MAX_NODES then (st, Err(NoSpace))
    else OpenInode(Create(st, name, false, n), n, f, h)
  }

  ghost function Mkdir<N, H>(st: State<N, H>, name: string, n: N): (State<N, H>, Option<Errno>)
    requires WellFormed(st)
  {
    if !Valid(name) then (st, Some(Invalid))
    else if name in st.names then (st, Some(Exists))
    else if ParentError(st, name).Some? then (st, ParentError(st, name))
    else if |st.names| >= MAX_NODES then (st, Some(NoSpace))
    else (Create(st, name, true, n), None)
  }

  /** Some name has directory `name` as its directory part. */
  ghost predicate HasChild<N>(names: map<string, N>, name: string) {
    exists p :: p in names && Dir(p) == name
  }

  /** Dropping the bytes of an inode that no name and no handle reaches. */
  ghost function Unlink<N, H>(st: State<N, H>, n: N): State<N, H>
    requires n in st.inodes
  {
    var s := st.(inodes := st.inodes[n := st.inodes[n].(linked := false)]);
    if s.inodes[n].refs == 0 then SetData(s, n, []) else s
  }

  ghost function Remove<N, H>(st: State<N, H>, name: string): (State<N, H>, Option<Errno>)
    requires WellFormed(st)
  {
    if !Valid(name) then (st, Some(Invalid))
    else if name !in st.names then (st, Some(NotExist))
    else if name == "." then (st, Some(Permission))
    else
      var n := st.names[name];
      if st.inodes[n].isDir && HasChild(st.names, name) then (st, Some(NotEmpty))
      else (Unlink(st.(names := st.names - {name}), n), None)
  }

  /** The part of the map at or below `src`, under its names after the move. */
  ghost function Moved<N>(names: map<string, N>, src: string, dst: string): map<string, N> {
    assert forall p | p in names && Within(p, src) :: src + (dst + p[|src|..])[|dst|..] == p;
    map q | q in (set p | p in names && Within(p, src) :: dst + p[|src|..]) :: names[src + q[|dst|..]]
  }

  ghost function Renamed<N>(names: map<string, N>, src: string, dst: string): map<string, N> {
    (map p | p in names && !Within(p, src) :: names[p]) + Moved(names, src, dst)
  }

  /** Why the existing inode at the destination cannot be replaced. */
  ghost function ReplaceError<N, H>(st: State<N, H>, n: N, name: string): Option<Errno>
    requires WellFormed(st) && n in st.inodes
  {
    if name !in st.names then None
    else
      var there := st.inodes[st.names[name]];
      if st.inodes[n].isDir && !there.isDir then Some(NotDirectory)
      else if !st.inodes[n].isDir && there.isDir then Some(IsDirectory)
      else if there.isDir && HasChild(st.names, name) then Some(NotEmpty)
      else None
  }

  ghost function Rename<N, H>(st: State<N, H>, src: string, dst: string): (State<N, H>, Option<Errno>)
    requires WellFormed(st)
  {
    if !Valid(src) then (st, Some(Invalid))
    else if src !in st.names then (st, Some(NotExist))
    else if !Valid(dst) then (st, Some(Invalid))
    else if src == "." || dst == "." then (st, Some(Permission))
    else if src == dst then (st, None)
    else if src + "/" <= dst then (st, Some(Invalid))
    else if ParentError(st, dst).Some? then (st, ParentError(st, dst))
    else if ReplaceError(st, st.names[src], dst).Some? then (st, ReplaceError(st, st.names[src], dst))
    else
      var s := if dst in st.names then Unlink(st, st.names[dst]) else st;
      (s.(names := Renamed(s.names, src, dst)), None)
  }

  ghost predicate IsChild<N>(names: map<string, N>, dir: string, p: string) {
    p in names && p != dir && Dir(p) == dir
  }

  ghost function EntryOf<N, H>(st: State<N, H>, p: string): Entry<N>
    requires WellFormed(st) && p in st.names
  {
    var n := st.names[p];
    Entry(Base(p), n, st.inodes[n].isDir, |st.inodes[n].data|)
  }

  ghost function Children<N, H>(st: State<N, H>, dir: string): set<Entry<N>>
    requires WellFormed(st)
  {
    set p | p in st.names && IsChild(st.names, dir, p) :: EntryOf(st, p)
  }

  // ---------------------------------------------------------------------
  // Handles
  // ---------------------------------------------------------------------

  ghost function SetHandle<N, H>(st: State<N, H>, h: H, x: Handle<N>): State<N, H> {
    st.(handles := st.handles[h := x])
  }

  /** An inode with one handle less; without name and handles its bytes go. */
  ghost function Released(i: Inode): Inode {
    var refs := i.refs - 1;
    i.(refs := refs, data := if !i.linked && refs == 0 then [] else i.data)
  }

  ghost function Close<N, H>(st: State<N, H>, h: H): (State<N, H>, Option<Errno>)
    requires WellFormed(st) && h in st.handles
  {
    var x := st.handles[h];
    if x.closed then (st, Some(Closed))
    else
      var i := st.inodes[x.inode];
      (st.(used := st.used - |i.data| + |Released(i).data|,
           inodes := st.inodes[x.inode := Released(i)],
           handles := st.handles[h := x.(closed := true)]), None)
  }

  /** The bytes a read of `len` bytes at `off` delivers, and how it ends. */
  ghost function ReadAt<N, H>(st: State<N, H>, h: H, len: nat, off: int): (seq<byte>, Option<Errno>)
    requires WellFormed(st) && h in st.handles
  {
    var x := st.handles[h];
    var i := st.inodes[x.inode];
    if x.closed then ([], Some(Closed))
    else if !x.readable then ([], Some(Permission))
    else if i.isDir then ([], Some(IsDirectory))
    else if off < 0 then ([], Some(Invalid))
    else if len == 0 then ([], None)
    else if off >= |i.data| then ([], Some(EndOfFile))
    else if off + len > |i.data| then (i.data[off..], Some(EndOfFile))
    else (i.data[off..off + len], None)
  }

  ghost function Read<N, H>(st: State<N, H>, h: H, len: nat): (State<N, H>, seq<byte>, Option<Errno>)
    requires WellFormed(st) && h in st.handles
  {
    var (bs, e) := ReadAt(st, h, len, st.handles[h].pos);
    (SetHandle(st, h, st.handles[h].(pos := st.handles[h].pos + |bs|)), bs, e)
  }

  function Zeros(n: nat): seq<byte> { seq(n, i => 0) }

  /** d cut or extended with zeros to the given size. */
  function Resized(d: seq<byte>, size: nat): seq<byte> {
    if size <= |d| then d[..size] else d + Zeros(size - |d|)
  }

  /** p laid over d at off; a gap before off reads as zeros. */
  function Overlay(d: seq<byte>, off: nat, p: seq<byte>): seq<byte> {
    var e := if off + |p| > |d| then Resized(d, off + |p|) else d;
    e[..off] + p + e[off + |p|..]
  }

  ghost function Resize<N, H>(st: State<N, H>, n: N, size: int): (State<N, H>, Option<Errno>)
    requires n in st.inodes
  {
    if size < 0 then (st, Some(Invalid))
    else if size > st.limit then (st, Some(NoSpace))
    else if size - |st.inodes[n].data| > st.limit - st.used then (st, Some(NoSpace))
    else (SetData(st, n, Resized(st.inodes[n].data, size)), None)
  }

  ghost function WriteAtOffset<N, H>(st: State<N, H>, h: H, p: seq<byte>, off: int): (State<N, H>, Option<Errno>)
    requires WellFormed(st) && h in st.handles
  {
    var x := st.handles[h];
    var d := st.inodes[x.inode].data;
    if x.closed then (st, Some(Closed))
    else if !x.writable then (st, Some(Permission))
    else if off < 0 then (st, Some(Invalid))
    else if off > st.limit - |p| then (st, Some(NoSpace))
    else if p == [] then (st, None)
    else if off + |p| > |d| && off + |p| - |d| > st.limit - st.used then (st, Some(NoSpace))
    else (SetData(st, x.inode, Overlay(d, off, p)), None)
  }

  ghost function Write<N, H>(st: State<N, H>, h: H, p: seq<byte>): (State<N, H>, Option<Errno>)
    requires WellFormed(st) && h in st.handles
  {
    var x := st.handles[h];
    var pos := if x.append then |st.inodes[x.inode].data| else x.pos;
    var (s, e) := WriteAtOffset(st, h, p, pos);
    (SetHandle(s, h, x.(pos := if e.None? then pos + |p| else pos)), e)
  }

  ghost function WriteAt<N, H>(st: State<N, H>, h: H, p: seq<byte>, off: int): (State<N, H>, Option<Errno>)
    requires WellFormed(st) && h in st.handles
  {
    if st.handles[h].closed then (st, Some(Closed))
    else if st.handles[h].append then (st, Some(Invalid))
    else WriteAtOffset(st, h, p, off)
  }

  ghost function Seek<N, H>(st: State<N, H>, h: H, off: int, whence: Whence): (State<N, H>, Result<int>)
    requires WellFormed(st) && h in st.handles
  {
    var x := st.handles[h];
    if x.closed then (st, Err(Closed))
    else if whence.OtherWhence? then (st, Err(Invalid))
    else
      var base := match whence
        case Current => x.pos
        case End => |st.inodes[x.inode].data|
        case _ => 0;
      if off < -base || off > st.limit - base then (st, Err(Invalid))
      else
        var y := x.(pos := base + off);
        (SetHandle(st, h, if base + off == 0 then y.(dirPos := 0, entries := None) else y), Ok(base + off))
  }

  ghost function Truncate<N, H>(st: State<N, H>, h: H, size: int): (State<N, H>, Option<Errno>)
    requires WellFormed(st) && h in st.handles
  {
    if st.handles[h].closed then (st, Some(Closed))
    else if !st.handles[h].writable then (st, Some(Permission))
    else Resize(st, st.handles[h].inode, size)
  }

  // ---------------------------------------------------------------------
  // The invariant
  // ---------------------------------------------------------------------

  /** The bytes held by all inodes together. */
  ghost function Bytes<N>(inodes: map<N, Inode>): nat {
    if inodes == map[] then 0
    else
      var n :| n in inodes;
      |inodes[n].data| + Bytes(inodes - {n})
  }

  /** The handles open on inode n. */
  ghost function OpenOn<N, H>(handles: map<H, Handle<N>>, n: N): set<H> {
    set h | h in handles && !handles[h].closed && handles[h].inode == n
  }

  /** p is a valid name whose directory part is a directory. */
  ghost predicate Placed<N, H>(st: State<N, H>, p: string)
    requires WellFormed(st)
  {
    && Valid(p)
    && (p != "." ==> Dir(p) in st.names && st.inodes[st.names[Dir(p)]].isDir)
  }

  /** The flat map is a tree of inodes: every name sits in a directory, and no
      inode has two names. */
  ghost predicate IsTree<N, H>(st: State<N, H>)
    requires WellFormed(st)
  {
    && "." in st.names && st.inodes[st.names["."]].isDir
    && (forall p {:trigger Placed(st, p)} :: p in st.names ==> Placed(st, p))
    && (forall p, q :: p in st.names && q in st.names && st.names[p] == st.names[q] ==> p == q)
    && |st.names| <= MAX_NODES
  }

  ghost predicate Reached<N>(names: map<string, N>, n: N) {
    exists p :: p in names && names[p] == n
  }

  /** Reference counts, links and dead inodes. */
  ghost predicate GoodInode<N, H>(st: State<N, H>, n: N)
    requires n in st.inodes
  {
    var i := st.inodes[n];
    && i.refs == |OpenOn(st.handles, n)|
    && (i.linked <==> Reached(st.names, n))
    && (i.isDir ==> i.data == [])
    && (!i.linked && i.refs == 0 ==> i.data == [])
  }

  ghost predicate GoodHandle<N, H>(st: State<N, H>, h: H)
    requires WellFormed(st) && h in st.handles
  {
    var x := st.handles[h];
    && 0 <= x.pos <= st.limit
    && (x.writable ==> !st.inodes[x.inode].isDir)
    && (x.entries.None? ==> x.dirPos == 0)
    && (x.entries.Some? ==> Sorted(x.entries.value) && 0 <= x.dirPos <= |x.entries.value|)
  }

  ghost predicate Inv<N, H>(st: State<N, H>) {
    && WellFormed(st)
    && IsTree(st)
    && (forall n {:trigger GoodInode(st, n)} :: n in st.inodes ==> GoodInode(st, n))
    && (forall h {:trigger GoodHandle(st, h)} :: h in st.handles ==> GoodHandle(st, h))
    && 0 < st.limit && st.used == Bytes(st.inodes) && st.used <= st.limit
  }

  /** Children of one directory have distinct names. */
  lemma ChildrenDistinct<N, H>(st: State<N, H>, dir: string)
    requires WellFormed(st) && IsTree(st)
    ensures DistinctNames(Children(st, dir))
  {
    forall d, e | d in Children(st, dir) && e in Children(st, dir) && d.name == e.name ensures d == e {
      var p :| p in st.names && IsChild(st.names, dir, p) && EntryOf(st, p) == d;
      var q :| q in st.names && IsChild(st.names, dir, q) && EntryOf(st, q) == e;
      assert Placed(st, p) && Placed(st, q);
      SameDirBase(p, q);
    }
  }

  /** The listing of the directory called name. */
  ghost function ListDir<N, H>(st: State<N, H>, name: string): Result<seq<Entry<N>>>
    requires WellFormed(st) && IsTree(st)
  {
    if !Valid(name) then Err(Invalid)
    else if name !in st.names then Err(NotExist)
    else if !st.inodes[st.names[name]].isDir then Err(NotDirectory)
    else
      ChildrenDistinct(st, name);
      Ok(Ascending(Children(st, name)))
  }

  /** The handle's snapshot of its directory: the one it holds, or else the
      current listing of whatever name its inode has now. */
  ghost function Snapshot<N, H>(st: State<N, H>, h: H): Result<seq<Entry<N>>>
    requires Inv(st) && h in st.handles
  {
    var x := st.handles[h];
    if x.entries.Some? then Ok(x.entries.value)
    else if !Reached(st.names, x.inode) then Err(NotExist)
    else
      var p :| p in st.names && st.names[p] == x.inode;
      ListDir(st, p)
  }

  /** One page of a directory: at most count entries, all the rest when count <= 0. */
  ghost function ReadDir<N, H>(st: State<N, H>, h: H, count: int): (State<N, H>, Result<seq<Entry<N>>>)
    requires Inv(st) && h in st.handles
  {
    var x := st.handles[h];
    assert GoodHandle(st, h);
    if x.closed then (st, Err(Closed))
    else
      match Snapshot(st, h)
      case Err(e) => (st, Err(e))
      case Ok(es) =>
        var y := x.(entries := Some(es));
        if y.dirPos == |es| && count > 0 then (SetHandle(st, h, y), Err(EndOfFile))
        else
          var end := if 0 < count < |es| - y.dirPos then y.dirPos + count else |es|;
          (SetHandle(st, h, y.(dirPos := end)), Ok(es[y.dirPos..end]))
  }
}
