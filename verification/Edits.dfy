/** A file over whole runs, as long as a name or an open handle reaches it: its
    bytes are the fold of the successful writes and truncations on its inode,
    through whatever handles and names. */
module Edits {
  import opened Paths
  import opened Store
  import opened Renaming
  import opened Invariant
  import opened FileBytes
  import opened Runs
  import opened Handles

  /** A change of a byte array: bytes laid over it, or a new size. */
  datatype Edit = Put(off: nat, p: seq<byte>) | Cut(size: nat)

  function Edited(d: seq<byte>, e: Edit): seq<byte> {
    match e
    case Put(off, p) => Overlay(d, off, p)
    case Cut(size) => Resized(d, size)
  }

  function EditedAll(d: seq<byte>, es: seq<Edit>): seq<byte>
    decreases |es|
  {
    if es == [] then d else EditedAll(Edited(d, es[0]), es[1..])
  }

  /** What an operation does to the bytes of inode n, when it succeeds: a write
      puts its bytes at the cursor or at the end, a positioned write at its
      offset; truncating sets the size, and so does a truncating open. */
  ghost function EditsOf<N, H>(st: State<N, H>, op: Op<N, H>, n: N): seq<Edit>
    requires Inv(st) && Enabled(st, op)
  {
    match op
    case OpOpen(name, f, m, k) =>
      if f.trunc && name in st.names && st.names[name] == n && OpenFile(st, name, f, m, k).1.Ok? then [Cut(0)] else []
    case OpWrite(h, p) =>
      var x := Placing(st, h);
      if x.inode == n && p != [] && x.pos >= 0 && Write(st, h, p).1.None? then [Put(x.pos, p)] else []
    case OpWriteAt(h, p, off) =>
      if st.handles[h].inode == n && p != [] && off >= 0 && WriteAt(st, h, p, off).1.None? then [Put(off, p)] else []
    case OpTruncate(h, size) =>
      if st.handles[h].inode == n && size >= 0 && Truncate(st, h, size).1.None? then [Cut(size)] else []
    case _ => []
  }

  /** What a run does to the bytes of inode n. */
  ghost function EditsIn<N, H>(st: State<N, H>, ops: seq<Op<N, H>>, n: N): seq<Edit>
    requires Inv(st) && Possible(st, ops)
    decreases |ops|
  {
    if ops == [] then []
    else
      StepKeeps(st, ops[0]);
      EditsOf(st, ops[0], n) + EditsIn(Step(st, ops[0]), ops[1..], n)
  }

  /** The bytes that inode n has; none before it exists. */
  ghost function BytesOf<N, H>(st: State<N, H>, n: N): seq<byte> {
    if n in st.inodes then st.inodes[n].data else []
  }

  /** A name or an open handle reaches the inode. */
  ghost predicate Reachable<N, H>(st: State<N, H>, n: N) { n in st.inodes && Live(st.inodes[n]) }

  lemma EditedOne(d: seq<byte>, e: Edit)
    ensures EditedAll(d, [e]) == Edited(d, e)
  {
    assert [e][1..] == [];
  }

  lemma {:induction false} EditedAppend(d: seq<byte>, a: seq<Edit>, b: seq<Edit>)
    ensures EditedAll(d, a + b) == EditedAll(EditedAll(d, a), b)
    decreases |a|
  {
    if a == [] {
      assert a + b == b;
    } else {
      assert (a + b)[1..] == a[1..] + b;
      EditedAppend(Edited(d, a[0]), a[1..], b);
    }
  }

  lemma WriteEdits<N, H>(st: State<N, H>, g: H, p: seq<byte>)
    requires Inv(st) && WellFormed(st) && g in st.handles
    ensures var n := st.handles[g].inode;
      && n in Write(st, g, p).0.inodes
      && BytesOf(Write(st, g, p).0, n) == EditedAll(BytesOf(st, n), EditsOf(st, OpWrite(g, p), n))
  {
    assert GoodHandle(st, g);
    hide Inv, Overlay, EditedAll;
    var n := st.handles[g].inode;
    if Write(st, g, p).1.None? {
      WriteResult(st, g, p);
      if p != [] { EditedOne(BytesOf(st, n), Put(Placing(st, g).pos, p)); }
    } else {
      FailedWrite(st, g, p);
    }
    assert EditedAll(BytesOf(st, n), []) == BytesOf(st, n) by { NoEdits(BytesOf(st, n)); }
  }

  lemma NoEdits(d: seq<byte>)
    ensures EditedAll(d, []) == d
  {
  }

  lemma WriteAtEdits<N, H>(st: State<N, H>, g: H, p: seq<byte>, off: int)
    requires Inv(st) && WellFormed(st) && g in st.handles
    ensures var n := st.handles[g].inode;
      && n in WriteAt(st, g, p, off).0.inodes
      && BytesOf(WriteAt(st, g, p, off).0, n) == EditedAll(BytesOf(st, n), EditsOf(st, OpWriteAt(g, p, off), n))
  {
    hide Inv, Overlay, EditedAll;
    var d := BytesOf(st, st.handles[g].inode);
    NoEdits(d);
    if off >= 0 { EditedOne(d, Put(off, p)); }
  }

  lemma TruncateEdits<N, H>(st: State<N, H>, g: H, size: int)
    requires Inv(st) && WellFormed(st) && g in st.handles
    ensures var n := st.handles[g].inode;
      && n in Truncate(st, g, size).0.inodes
      && BytesOf(Truncate(st, g, size).0, n) == EditedAll(BytesOf(st, n), EditsOf(st, OpTruncate(g, size), n))
  {
    hide Inv, Resized, EditedAll;
    var d := BytesOf(st, st.handles[g].inode);
    NoEdits(d);
    if size >= 0 { EditedOne(d, Cut(size)); }
  }

  lemma OpenEdits<N, H>(st: State<N, H>, name: string, f: Flags, m: N, k: H)
    requires Inv(st) && WellFormed(st) && name in st.names && f.trunc && m !in st.inodes && k !in st.handles
    ensures var n := st.names[name];
      && n in OpenFile(st, name, f, m, k).0.inodes
      && BytesOf(OpenFile(st, name, f, m, k).0, n) == EditedAll(BytesOf(st, n), EditsOf(st, OpOpen(name, f, m, k), n))
  {
    hide Inv, EditedAll, ParentError, Valid;
    var d := BytesOf(st, st.names[name]);
    NoEdits(d);
    EditedOne(d, Cut(0));
  }

  /** From st to s: inodes stay, one that is reachable was so if it was there, and
      has the same bytes. */
  ghost predicate Kept<N, H>(st: State<N, H>, s: State<N, H>, n: N) {
    && (n in st.inodes ==> n in s.inodes)
    && (Reachable(s, n) ==> BytesOf(s, n) == BytesOf(st, n) && (n in st.inodes ==> Reachable(st, n)))
  }

  lemma UnlinkKept<N, H>(st: State<N, H>, m: N, n: N)
    requires m in st.inodes && st.inodes[m].refs >= 0
    ensures Kept(st, Unlink(st, m), n)
  {
  }

  lemma RemoveKept<N, H>(st: State<N, H>, name: string, n: N)
    requires Inv(st) && WellFormed(st)
    ensures Kept(st, Remove(st, name).0, n)
  {
    if Remove(st, name).1.None? {
      var m := st.names[name];
      assert GoodInode(st, m);
      hide Inv, IsTree, Kept;
      UnlinkKept(st, m, n);
      var s := st.(names := st.names - {name});
      assert Unlink(s, m) == Unlink(st, m).(names := s.names);
      assert Kept(st, Unlink(s, m), n) by { SameInodesKept(st, Unlink(st, m), Unlink(s, m), n); }
    } else {
      hide Inv, IsTree;
    }
  }

  lemma SameInodesKept<N, H>(st: State<N, H>, s: State<N, H>, t: State<N, H>, n: N)
    requires Kept(st, s, n) && t.inodes == s.inodes
    ensures Kept(st, t, n)
  {
  }

  lemma RenameKept<N, H>(st: State<N, H>, src: string, dst: string, n: N)
    requires Inv(st) && WellFormed(st)
    ensures Kept(st, Rename(st, src, dst).0, n)
  {
    if Moves(st, src, dst) {
      MovesResult(st, src, dst);
      if dst in st.names { assert GoodInode(st, st.names[dst]); }
      hide Inv, IsTree, Rename, Unlink, Kept;
      SameKept(st, n);
      if dst in st.names { UnlinkKept(st, st.names[dst], n); }
      var s := if dst in st.names then Unlink(st, st.names[dst]) else st;
      SameInodesKept(st, s, Rename(st, src, dst).0, n);
    } else {
      hide Inv, IsTree, Unlink, Renamed, ReplaceError, ParentError, Valid, HasChild;
    }
  }

  lemma SameKept<N, H>(st: State<N, H>, n: N)
    ensures Kept(st, st, n)
  {
  }

  lemma OpenKept<N, H>(st: State<N, H>, name: string, f: Flags, m: N, k: H, n: N)
    requires Inv(st) && WellFormed(st) && m !in st.inodes && k !in st.handles
    requires !(f.trunc && name in st.names && st.names[name] == n)
    ensures Kept(st, OpenFile(st, name, f, m, k).0, n)
  {
    hide ParentError, Valid, Kept, Inv, IsTree, OpenInode, Create;
    SameKept(st, n);
    if name in st.names {
      NameFits(st, name);
      OpenInodeKept(st, st, st.names[name], f, k, n);
    } else {
      CreateKept(st, name, m, n);
      OpenInodeKept(st, Create(st, name, false, m), m, f, k, n);
    }
  }

  lemma CreateKept<N, H>(st: State<N, H>, name: string, m: N, n: N)
    requires m !in st.inodes
    ensures Kept(st, Create(st, name, false, m), n)
    ensures var s := Create(st, name, false, m); m in s.inodes && s.inodes[m] == Inode(false, [], 0, true)
  {
  }

  lemma OpenInodeKept<N, H>(st: State<N, H>, s: State<N, H>, a: N, f: Flags, k: H, n: N)
    requires Kept(st, s, n) && a in s.inodes && s.inodes[a].linked
    requires f.trunc && a == n ==> s.inodes[a].data == []
    ensures Kept(st, OpenInode(s, a, f, k).0, n)
  {
  }

  lemma MkdirKept<N, H>(st: State<N, H>, name: string, m: N, n: N)
    requires WellFormed(st) && m !in st.inodes
    ensures Kept(st, Mkdir(st, name, m).0, n)
  {
    hide ParentError, Valid;
  }

  lemma CloseKept<N, H>(st: State<N, H>, g: H, n: N)
    requires Inv(st) && WellFormed(st) && g in st.handles
    ensures Kept(st, Close(st, g).0, n)
  {
    OpenIsLive(st, g);
    assert GoodInode(st, st.handles[g].inode);
    hide Inv, IsTree;
  }

  lemma HandleOpKept<N, H>(st: State<N, H>, op: Op<N, H>, n: N)
    requires Inv(st) && WellFormed(st) && Enabled(st, op) && !Touches(st, op, n)
    requires !op.OpOpen? && !op.OpMkdir? && !op.OpRemove? && !op.OpRename? && !op.OpClose?
    ensures Kept(st, Step(st, op), n)
  {
    hide Inv, Overlay, Resized, Snapshot, ReadAt, IsTree, Zeros, Placed;
  }

  lemma UntouchedKept<N, H>(st: State<N, H>, op: Op<N, H>, n: N)
    requires Inv(st) && Enabled(st, op) && !Touches(st, op, n)
    ensures Kept(st, Step(st, op), n)
  {
    InvTree(st);
    hide Inv, OpenFile, Mkdir, Remove, Rename, Close, Read, Write, WriteAt, Truncate, Seek, ReadDir, Kept;
    match op
    case OpOpen(name, f, m, k) => OpenKept(st, name, f, m, k, n);
    case OpMkdir(name, m) => MkdirKept(st, name, m, n);
    case OpRemove(name) => RemoveKept(st, name, n);
    case OpRename(src, dst) => RenameKept(st, src, dst, n);
    case OpClose(g) => CloseKept(st, g, n);
    case _ => HandleOpKept(st, op, n);
  }

  /** An operation that may change the inode's bytes leaves it as reachable as it was. */
  lemma TouchedStays<N, H>(st: State<N, H>, op: Op<N, H>, n: N)
    requires Inv(st) && WellFormed(st) && Enabled(st, op) && Touches(st, op, n)
    ensures n in st.inodes && n in Step(st, op).inodes
    ensures Reachable(Step(st, op), n) ==> Reachable(st, n)
  {
    if op.OpOpen? { NameFits(st, op.name); }
    hide Inv, Overlay, Resized, IsTree, Zeros, Placed, ParentError, Valid;
  }

  /** One operation after which the inode is reachable: its bytes are edited as it says. */
  lemma StepEdits<N, H>(st: State<N, H>, op: Op<N, H>, n: N)
    requires Inv(st) && Enabled(st, op)
    ensures n in st.inodes ==> n in Step(st, op).inodes
    ensures Reachable(Step(st, op), n) && n in st.inodes ==> Reachable(st, n)
    ensures Reachable(Step(st, op), n) || n !in Step(st, op).inodes ==>
              BytesOf(Step(st, op), n) == EditedAll(BytesOf(st, n), EditsOf(st, op, n))
  {
    InvTree(st);
    hide Inv, OpenFile, Mkdir, Remove, Rename, Close, Read, Write, WriteAt, Truncate, Seek, ReadDir, EditedAll;
    NoEdits(BytesOf(st, n));
    if Touches(st, op, n) {
      TouchedStays(st, op, n);
      match op
      case OpOpen(name, f, m, k) => OpenEdits(st, name, f, m, k);
      case OpWrite(g, p) => WriteEdits(st, g, p);
      case OpWriteAt(g, p, off) => WriteAtEdits(st, g, p, off);
      case OpTruncate(g, size) => TruncateEdits(st, g, size);
    } else {
      UntouchedKept(st, op, n);
    }
  }

  /** After any run, the bytes of an inode that a name or an open handle reaches are
      the bytes it had, none if the run has made it, edited by the successful writes
      and truncations of the run on that inode, in order, through all handles and
      under all names. */
  lemma {:induction false} RunEdits<N, H>(st: State<N, H>, ops: seq<Op<N, H>>, n: N)
    requires Inv(st) && Possible(st, ops)
    requires Reachable(After(st, ops), n) || n !in After(st, ops).inodes
    ensures n in st.inodes ==> Reachable(st, n)
    ensures BytesOf(After(st, ops), n) == EditedAll(BytesOf(st, n), EditsIn(st, ops, n))
    decreases |ops|
  {
    hide Inv, Step, EditsOf, EditedAll, Enabled, BytesOf, Live;
    if ops == [] {
      NoEdits(BytesOf(st, n));
    } else {
      StepKeeps(st, ops[0]);
      StepEdits(st, ops[0], n);
      var s := Step(st, ops[0]);
      RunEdits(s, ops[1..], n);
      EditedAppend(BytesOf(st, n), EditsOf(st, ops[0], n), EditsIn(s, ops[1..], n));
    }
  }

  lemma {:induction false} HandleStaysOpen<N, H>(st: State<N, H>, ops: seq<Op<N, H>>, h: H)
    requires Inv(st) && Possible(st, ops) && h in st.handles && !st.handles[h].closed && OpClose(h) !in ops
    ensures var t := After(st, ops);
            h in t.handles && !t.handles[h].closed && t.handles[h].inode == st.handles[h].inode
    decreases |ops|
  {
    hide Inv, Step, Enabled;
    if ops != [] {
      StepKeeps(st, ops[0]);
      assert ops[0] in ops && forall x :: x in ops[1..] ==> x in ops;
      HandleStays(st, ops[0], h);
      HandleStaysOpen(Step(st, ops[0]), ops[1..], h);
    }
  }

  /** So for the inode of a handle that the run does not close. */
  /** So for the inode of a handle that the run does not close. */
  lemma HandleEdits<N, H>(st: State<N, H>, ops: seq<Op<N, H>>, h: H)
    requires Inv(st) && Possible(st, ops) && h in st.handles && !st.handles[h].closed && OpClose(h) !in ops
    ensures var n, t := st.handles[h].inode, After(st, ops);
      && h in t.handles && !t.handles[h].closed && t.handles[h].inode == n && n in t.inodes
      && BytesOf(t, n) == EditedAll(BytesOf(st, n), EditsIn(st, ops, n))
  {
    HandleStaysOpen(st, ops, h);
    OpenIsLive(After(st, ops), h);
    RunEdits(st, ops, st.handles[h].inode);
  }

  /** In a filesystem that began empty, every file reachable after a run is what the
      run has written to it. */
  lemma FilesAreWritten<N, H>(limit: int, root: N, ops: seq<Op<N, H>>, n: N)
    requires limit > 0 && (FreshKeeps<N, H>(limit, root); Possible(Fresh<N, H>(limit, root), ops))
    requires Reachable(After(Fresh<N, H>(limit, root), ops), n)
    ensures BytesOf(After(Fresh<N, H>(limit, root), ops), n) ==
            EditedAll([], EditsIn(Fresh<N, H>(limit, root), ops, n))
  {
    hide Inv, After, EditsIn, EditedAll, Possible;
    FreshKeeps<N, H>(limit, root);
    assert BytesOf(Fresh<N, H>(limit, root), n) == [];
    RunEdits(Fresh<N, H>(limit, root), ops, n);
  }

  /** So what a write at the cursor or at the end of the file has put there is read
      back through any handle on the inode, after any run that leaves the bytes of
      the inode alone. */
  lemma ReadsLastPut<N, H>(st: State<N, H>, g: H, h: H, p: seq<byte>, ops: seq<Op<N, H>>)
    requires Inv(st) && g in st.handles && h in st.handles && st.handles[g].inode == st.handles[h].inode
    requires !st.handles[h].closed && st.handles[h].readable && p != [] && Write(st, g, p).1.None?
    requires var s := Write(st, g, p).0;
             Inv(s) && h in s.handles && Possible(s, ops) && Untouched(s, ops, h)
    ensures var s := Write(st, g, p).0;
            h in After(s, ops).handles && ReadAt(After(s, ops), h, |p|, Placing(st, g).pos) == (p, None)
  {
    var s, x := Write(st, g, p).0, Placing(st, g);
    WriteResult(st, g, p);
    assert GoodHandle(st, g);
    var d := st.inodes[x.inode].data;
    HandleStays(st, OpWrite(g, p), h);
    SameReadable(st, g, p, h);
    HandleFollowsInode(s, ops, h, |p|, x.pos);
    OverlayAt(d, x.pos, p);
    var e := Overlay(d, x.pos, p);
    assert e[x.pos..x.pos + |p|] == p;
  }

  lemma SameReadable<N, H>(st: State<N, H>, g: H, p: seq<byte>, h: H)
    requires WellFormed(st) && g in st.handles && h in st.handles
    ensures h in Write(st, g, p).0.handles && Write(st, g, p).0.handles[h].readable == st.handles[h].readable
  {
    hide Overlay;
  }
}
