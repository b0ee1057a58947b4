/** Whole runs of the filesystem: any sequence of operations on names and handles. */
module Runs {
  import opened Paths
  import opened Listing
  import opened Store
  import opened Tree
  import opened Renaming
  import opened Invariant
  import opened FileBytes

  /** One operation.  The inode and handle identities of an opening or creating
      operation are those it would allocate. */
  datatype Op<N, H> =
    | OpOpen(name: string, flags: Flags, n: N, h: H)
    | OpMkdir(name: string, n: N)
    | OpRemove(name: string)
    | OpRename(src: string, dst: string)
    | OpClose(h: H)
    | OpRead(h: H, len: nat)
    | OpWrite(h: H, p: seq<byte>)
    | OpWriteAt(h: H, p: seq<byte>, off: int)
    | OpSeek(h: H, off: int, whence: Whence)
    | OpTruncate(h: H, size: int)
    | OpReadDir(h: H, count: int)

  /** Handles in use are known, allocated identities are new. */
  ghost predicate Enabled<N, H>(st: State<N, H>, op: Op<N, H>) {
    match op
    case OpOpen(_, _, n, h) => n !in st.inodes && h !in st.handles
    case OpMkdir(_, n) => n !in st.inodes
    case OpRemove(_) => true
    case OpRename(_, _) => true
    case _ => op.h in st.handles
  }

  ghost function Step<N, H>(st: State<N, H>, op: Op<N, H>): State<N, H>
    requires Inv(st) && Enabled(st, op)
  {
    match op
    case OpOpen(name, f, n, h) => OpenFile(st, name, f, n, h).0
    case OpMkdir(name, n) => Mkdir(st, name, n).0
    case OpRemove(name) => Remove(st, name).0
    case OpRename(src, dst) => Rename(st, src, dst).0
    case OpClose(h) => Close(st, h).0
    case OpRead(h, len) => Read(st, h, len).0
    case OpWrite(h, p) => Write(st, h, p).0
    case OpWriteAt(h, p, off) => WriteAt(st, h, p, off).0
    case OpSeek(h, off, whence) => Seek(st, h, off, whence).0
    case OpTruncate(h, size) => Truncate(st, h, size).0
    case OpReadDir(h, count) => ReadDir(st, h, count).0
  }

  lemma StepKeeps<N, H>(st: State<N, H>, op: Op<N, H>)
    requires Inv(st) && Enabled(st, op)
    ensures Inv(Step(st, op))
  {
    hide Inv;
    match op
    case OpOpen(name, f, n, h) => OpenFileKeeps(st, name, f, n, h);
    case OpMkdir(name, n) => MkdirKeeps(st, name, n);
    case OpRemove(name) => RemoveKeeps(st, name);
    case OpRename(src, dst) => RenameKeeps(st, src, dst);
    case OpClose(h) => CloseKeeps(st, h);
    case OpRead(h, len) => ReadKeeps(st, h, len);
    case OpWrite(h, p) => WriteKeeps(st, h, p);
    case OpWriteAt(h, p, off) => WriteAtOffsetKeeps(st, h, p, off);
    case OpSeek(h, off, whence) => SeekKeeps(st, h, off, whence);
    case OpTruncate(h, size) => TruncateKeeps(st, h, size);
    case OpReadDir(h, count) => ReadDirKeeps(st, h, count);
  }

  /** ops can be carried out one after the other from st. */
  ghost predicate Possible<N, H>(st: State<N, H>, ops: seq<Op<N, H>>)
    requires Inv(st)
    decreases |ops|
  {
    ops == [] || (Enabled(st, ops[0]) && (StepKeeps(st, ops[0]); Possible(Step(st, ops[0]), ops[1..])))
  }

  ghost function After<N, H>(st: State<N, H>, ops: seq<Op<N, H>>): (s: State<N, H>)
    requires Inv(st) && Possible(st, ops)
    ensures Inv(s)
    decreases |ops|
  {
    if ops == [] then st
    else
      StepKeeps(st, ops[0]);
      After(Step(st, ops[0]), ops[1..])
  }

  /** After any run from an empty filesystem, `used` counts exactly the bytes of
      linked or open inodes, within the limit; every inode's reference count is
      its number of open handles; and inodes out of reach hold no bytes. */
  lemma BudgetOfRuns<N, H>(limit: int, root: N, ops: seq<Op<N, H>>)
    requires 0 < limit && (FreshKeeps<N, H>(limit, root); Possible(Fresh(limit, root), ops))
    ensures Inv<N, H>(Fresh(limit, root))
    ensures var s := After(Fresh(limit, root), ops);
      && 0 <= s.used == Bytes(LiveInodes(s.inodes)) <= limit == s.limit
      && (forall n :: n in s.inodes ==> s.inodes[n].refs == |OpenOn(s.handles, n)|)
      && (forall n :: n in s.inodes && !Live(s.inodes[n]) ==> s.inodes[n].data == [])
  {
    FreshKeeps<N, H>(limit, root);
    var s := After(Fresh(limit, root), ops);
    LimitStays(Fresh<N, H>(limit, root), ops);
    forall n | n in s.inodes
      ensures s.inodes[n].refs == |OpenOn(s.handles, n)| && (!Live(s.inodes[n]) ==> s.inodes[n].data == [])
    {
      assert GoodInode(s, n);
    }
    BytesOfLive(s.inodes);
  }

  lemma {:induction false} LimitStays<N, H>(st: State<N, H>, ops: seq<Op<N, H>>)
    requires Inv(st) && Possible(st, ops)
    ensures After(st, ops).limit == st.limit
    decreases |ops|
  {
    if ops != [] {
      StepKeeps(st, ops[0]);
      LimitStays(Step(st, ops[0]), ops[1..]);
      StepLimit(st, ops[0]);
    }
  }

  lemma StepLimit<N, H>(st: State<N, H>, op: Op<N, H>)
    requires Inv(st) && Enabled(st, op)
    ensures Step(st, op).limit == st.limit
  {
    hide Inv;
  }

  // ---------------------------------------------------------------------
  // Failed operations
  // ---------------------------------------------------------------------

  /** Opening with O_CREATE and O_TRUNC but no write flag fails after the name has
      been created. */
  ghost predicate LeavesEmptyFile<N, H>(st: State<N, H>, name: string, f: Flags)
    requires WellFormed(st)
  {
    && f.create && f.trunc && !f.Writable()
    && Valid(name) && name !in st.names && ParentError(st, name).None? && |st.names| < MAX_NODES
  }

  /** A failed open changes nothing, except in exactly that case, where an empty
      file stays behind.  Failed operations on names change nothing at all. */
  lemma FailureIsClean<N, H>(st: State<N, H>, name: string, f: Flags, n: N, h: H, dst: string)
    requires Inv(st) && WellFormed(st) && n !in st.inodes
    ensures OpenFile(st, name, f, n, h).1.Err? ==>
              (OpenFile(st, name, f, n, h).0 == st <==> !LeavesEmptyFile(st, name, f))
    ensures LeavesEmptyFile(st, name, f) ==>
              OpenFile(st, name, f, n, h) == (Create(st, name, false, n), Err(Permission))
    ensures Mkdir(st, name, n).1.Some? ==> Mkdir(st, name, n).0 == st
    ensures Remove(st, name).1.Some? ==> Remove(st, name).0 == st
    ensures Rename(st, name, dst).1.Some? ==> Rename(st, name, dst).0 == st
  {
    hide Inv, Valid, ParentError, ReplaceError, HasChild, Renamed, Unlink;
    assert n !in st.inodes && n in Create(st, name, false, n).inodes;
    if name in st.names && OpenFile(st, name, f, n, h).1.Err? { ExistingOpen(st, name, f, n, h); }
  }

  lemma ExistingOpen<N, H>(st: State<N, H>, name: string, f: Flags, n: N, h: H)
    requires WellFormed(st) && name in st.names && OpenFile(st, name, f, n, h).1.Err?
    ensures OpenFile(st, name, f, n, h).0 == st
  {
    hide Valid, ParentError, WellFormed;
  }

  lemma FreshHasRoom<N, H>(limit: int, root: N, name: string)
    requires ValidElement(name)
    ensures var st := Fresh<N, H>(limit, root);
            && WellFormed(st) && Valid(name) && name !in st.names && ParentError(st, name).None?
            && |st.names| < MAX_NODES && "." in st.names && st.names == map["." := root]
  {
    hide Split, Join, Clean, LastSlash;
    assert PathOf([name]) == name by { JoinOne(name); }
    CompsPathOf([name]);
    DirBaseTop(name);
  }

  lemma JoinOne(name: string)
    ensures PathOf([name]) == name
  {
  }

  /** Both happen in a filesystem that has just been made: the failed open leaves a
      file behind. */
  lemma EmptyFileIsLeft<N, H>(limit: int, root: N, name: string, f: Flags, n: N, h: H)
    requires 0 < limit && n != root && ValidElement(name) && f.create && f.trunc && !f.Writable()
    ensures var st := Fresh<N, H>(limit, root);
      && WellFormed(st) && OpenFile(st, name, f, n, h).1 == Err(Permission)
      && OpenFile(st, name, f, n, h).0.names == map["." := root, name := n]
  {
    FreshHasRoom<N, H>(limit, root, name);
    hide Valid, ParentError;
  }

  const APPENDING := Flags(true, false, true, false, false, true)

  /** And the failed append moves its cursor: one byte is written, the cursor is
      brought back, and as many bytes as the limit allows no longer fit. */
  lemma AppendMovesCursor<N, H>(root: N, n: N, h: H, b: byte, p: seq<byte>)
    requires n != root && p != []
    ensures var st := Fresh<N, H>(|p|, root);
      var ops := [OpOpen("a", APPENDING, n, h), OpWrite(h, [b]), OpSeek(h, 0, Start)];
      && Inv(st) && Possible(st, ops)
      && var t := After(st, ops);
         && WellFormed(t) && h in t.handles && Write(t, h, p).1.Some?
         && t.handles[h].pos == 0 && Write(t, h, p).0.handles[h].pos == 1
  {
    FreshKeeps<N, H>(|p|, root);
    var st := Fresh<N, H>(|p|, root);
    var a, w, k := OpOpen("a", APPENDING, n, h), OpWrite(h, [b]), OpSeek(h, 0, Start);
    OpensA(|p|, root, n, h);
    WritesB(|p|, root, n, h, b);
    assert Enabled(st, a) && Step(st, a) == OpenFile(st, "a", APPENDING, n, h).0;
    hide Inv, OpenFile, Write, Overlay, Fresh, Possible, After;
    StepKeeps(st, a);
    var s1 := Step(st, a);
    assert Enabled(s1, w) && Step(s1, w) == Write(s1, h, [b]).0;
    StepKeeps(s1, w);
    var s2 := Step(s1, w);
    assert s2.handles[h] == NewHandle(n, APPENDING).(pos := 1);
    BackToStart(s2, h);
    ThreeSteps(st, a, w, k);
    RefusedAppend(Step(s2, k), h, p);
  }

  lemma ThreeSteps<N, H>(st: State<N, H>, a: Op<N, H>, b: Op<N, H>, c: Op<N, H>)
    requires Inv(st) && Enabled(st, a) && Inv(Step(st, a)) && Enabled(Step(st, a), b)
    requires Inv(Step(Step(st, a), b)) && Enabled(Step(Step(st, a), b), c)
    ensures Possible(st, [a, b, c]) && After(st, [a, b, c]) == Step(Step(Step(st, a), b), c)
    ensures Inv(Step(Step(Step(st, a), b), c))
  {
    hide Inv, Step, Enabled;
    StepKeeps(Step(Step(st, a), b), c);
    assert [c][1..] == [] && [b, c][1..] == [c] && [a, b, c][1..] == [b, c];
    assert After(Step(Step(Step(st, a), b), c), []) == Step(Step(Step(st, a), b), c);
    assert Possible(Step(Step(st, a), b), [c]);
    assert After(Step(Step(st, a), b), [c]) == Step(Step(Step(st, a), b), c);
    assert Possible(Step(st, a), [b, c]);
    assert After(Step(st, a), [b, c]) == Step(Step(Step(st, a), b), c);
  }

  lemma BackToStart<N, H>(st: State<N, H>, h: H)
    requires Inv(st) && h in st.handles && !st.handles[h].closed
    ensures var k := OpSeek(h, 0, Start);
      && Enabled(st, k)
      && var t := Step(st, k);
         && WellFormed(st) && WellFormed(t) && h in t.handles && t.limit == st.limit && t.inodes == st.inodes
         && t.handles[h] == st.handles[h].(pos := 0, dirPos := 0, entries := None)
  {
    InvTree(st);
    StepKeeps(st, OpSeek(h, 0, Start));
    InvTree(Step(st, OpSeek(h, 0, Start)));
    assert 0 <= st.limit;
    hide Inv;
  }

  lemma RefusedAppend<N, H>(st: State<N, H>, h: H, p: seq<byte>)
    requires WellFormed(st) && h in st.handles && st.handles[h].append && !st.handles[h].closed
    requires p != [] && st.limit == |p| && |st.inodes[st.handles[h].inode].data| == 1
    ensures Write(st, h, p).1.Some? && Write(st, h, p).0.handles[h].pos == 1
  {
    hide Overlay;
  }

  /** The file after opening it. */
  lemma OpensA<N, H>(limit: int, root: N, n: N, h: H)
    requires 0 < limit && n != root
    ensures var st := Fresh<N, H>(limit, root);
      && WellFormed(st)
      && var s := OpenFile(st, "a", APPENDING, n, h).0;
         && WellFormed(s) && h in s.handles && s.handles[h] == NewHandle(n, APPENDING)
         && s.limit == limit && s.used == 0 && n in s.inodes && s.inodes[n].data == []
  {
    FreshHasRoom<N, H>(limit, root, "a");
    hide Valid, ParentError;
  }

  /** And after the first byte. */
  lemma WritesB<N, H>(limit: int, root: N, n: N, h: H, b: byte)
    requires 0 < limit && n != root && WellFormed(Fresh<N, H>(limit, root))
    requires var s := OpenFile(Fresh<N, H>(limit, root), "a", APPENDING, n, h).0;
      && WellFormed(s) && h in s.handles && s.handles[h] == NewHandle(n, APPENDING)
      && s.limit == limit && s.used == 0 && n in s.inodes && s.inodes[n].data == []
    ensures var s := OpenFile(Fresh<N, H>(limit, root), "a", APPENDING, n, h).0;
      var t := Write(s, h, [b]).0;
      && h in t.handles && t.handles[h] == NewHandle(n, APPENDING).(pos := 1)
      && t.limit == limit && n in t.inodes && t.inodes[n].data == [b]
  {
    hide OpenFile, Overlay;
    OverlayAt([], 0, [b]);
    assert Overlay([], 0, [b]) == [b];
  }
}
