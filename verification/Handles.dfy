/** Open handles across whole runs: they follow their inode, not the name it was
    opened under. */
module Handles {
  import opened Paths
  import opened Listing
  import opened Store
  import opened Tree
  import opened Renaming
  import opened Invariant
  import opened FileBytes
  import opened Runs

  /** The operation writes to, or truncates, inode n. */
  ghost predicate Touches<N, H>(st: State<N, H>, op: Op<N, H>, n: N)
    requires Inv(st) && Enabled(st, op)
  {
    match op
    case OpOpen(name, f, _, _) => f.trunc && name in st.names && st.names[name] == n
    case OpWrite(h, _) => st.handles[h].inode == n
    case OpWriteAt(h, _, _) => st.handles[h].inode == n
    case OpTruncate(h, _) => st.handles[h].inode == n
    case _ => false
  }

  /** h stays open on its inode, whose bytes stay the same. */
  ghost predicate SameView<N, H>(s: State<N, H>, t: State<N, H>, h: H) {
    && WellFormed(s) && WellFormed(t) && h in s.handles && h in t.handles
    && t.handles[h].inode == s.handles[h].inode && t.handles[h].closed == s.handles[h].closed
    && t.handles[h].readable == s.handles[h].readable
    && t.inodes[t.handles[h].inode].data == s.inodes[s.handles[h].inode].data
    && t.inodes[t.handles[h].inode].isDir == s.inodes[s.handles[h].inode].isDir
  }

  lemma SharedClose<N, H>(st: State<N, H>, g: H, h: H)
    requires Inv(st) && g in st.handles && h in st.handles && g != h
    requires !st.handles[g].closed && !st.handles[h].closed
    requires st.handles[g].inode == st.handles[h].inode
    ensures st.inodes[st.handles[h].inode].refs >= 2
  {
    var n := st.handles[h].inode;
    assert GoodInode(st, n);
    assert {g, h} <= OpenOn(st.handles, n);
    SubsetSize({g, h}, OpenOn(st.handles, n));
  }

  lemma {:induction false} SubsetSize<T>(a: set<T>, b: set<T>)
    requires a <= b
    ensures |a| <= |b|
    decreases a
  {
    if a != {} {
      var x :| x in a;
      SubsetSize(a - {x}, b - {x});
    }
  }

  lemma UnlinkFollows<N, H>(st: State<N, H>, m: N, h: H)
    requires Inv(st) && m in st.inodes && h in st.handles && !st.handles[h].closed
    ensures WellFormed(st) && SameView(st, Unlink(st, m), h)
  {
    var n := st.handles[h].inode;
    assert GoodInode(st, n);
    assert h in OpenOn(st.handles, n);
  }

  lemma RemoveFollows<N, H>(st: State<N, H>, name: string, h: H)
    requires Inv(st) && WellFormed(st) && h in st.handles && !st.handles[h].closed && Inv(Remove(st, name).0)
    ensures SameView(st, Remove(st, name).0, h)
  {
    hide Inv, IsTree;
    InvTree(Remove(st, name).0);
    if Remove(st, name).1.None? {
      UnlinkFollows(st, st.names[name], h);
      var s := st.(names := st.names - {name});
      assert Unlink(s, st.names[name]) == Unlink(st, st.names[name]).(names := s.names);
    }
  }

  lemma RenameFollows<N, H>(st: State<N, H>, src: string, dst: string, h: H)
    requires Inv(st) && WellFormed(st) && h in st.handles && !st.handles[h].closed && Inv(Rename(st, src, dst).0)
    ensures SameView(st, Rename(st, src, dst).0, h)
  {
    hide Inv, IsTree;
    InvTree(Rename(st, src, dst).0);
    if Moves(st, src, dst) {
      MovesResult(st, src, dst);
      if dst in st.names { UnlinkFollows(st, st.names[dst], h); }
    }
  }

  lemma OpenFollows<N, H>(st: State<N, H>, name: string, f: Flags, n: N, k: H, h: H)
    requires Inv(st) && WellFormed(st) && h in st.handles && !st.handles[h].closed
    requires n !in st.inodes && k !in st.handles && Inv(OpenFile(st, name, f, n, k).0)
    requires !(f.trunc && name in st.names && st.names[name] == st.handles[h].inode)
    ensures SameView(st, OpenFile(st, name, f, n, k).0, h)
  {
    hide Inv, IsTree, ParentError, Valid, Placed;
    assert st.handles[h].inode in st.inodes;
    hide WellFormed;
    InvTree(OpenFile(st, name, f, n, k).0);
  }

  lemma CloseFollows<N, H>(st: State<N, H>, g: H, h: H)
    requires Inv(st) && WellFormed(st) && h in st.handles && g in st.handles && g != h && !st.handles[h].closed
    requires Inv(Close(st, g).0)
    ensures SameView(st, Close(st, g).0, h)
  {
    if !st.handles[g].closed && st.handles[g].inode == st.handles[h].inode { SharedClose(st, g, h); }
  }

  lemma StepFollows<N, H>(st: State<N, H>, op: Op<N, H>, h: H)
    requires Inv(st) && Enabled(st, op) && h in st.handles && !st.handles[h].closed
    requires op != OpClose(h) && !Touches(st, op, st.handles[h].inode)
    ensures SameView(st, Step(st, op), h)
  {
    hide Inv, OpenFile, Mkdir, Remove, Rename, Close;
    InvTree(st);
    StepKeeps(st, op);
    InvTree(Step(st, op));
    match op
    case OpOpen(name, f, n, k) => OpenFollows(st, name, f, n, k, h);
    case OpMkdir(name, n) => MkdirFollows(st, name, n, h);
    case OpRemove(name) => RemoveFollows(st, name, h);
    case OpRename(src, dst) => RenameFollows(st, src, dst, h);
    case OpClose(g) => CloseFollows(st, g, h);
    case _ => CursorOpFollows(st, op, h);
  }

  lemma CursorOpFollows<N, H>(st: State<N, H>, op: Op<N, H>, h: H)
    requires Inv(st) && WellFormed(st) && Enabled(st, op) && Inv(Step(st, op)) && h in st.handles
    requires !op.OpOpen? && !op.OpMkdir? && !op.OpRemove? && !op.OpRename? && !op.OpClose?
    requires !Touches(st, op, st.handles[h].inode)
    ensures SameView(st, Step(st, op), h)
  {
    hide Inv, Step, Touches, SameView;
    if op.OpWrite? || op.OpWriteAt? || op.OpTruncate? {
      WritingFollows(st, op, h);
    } else {
      MovingFollows(st, op, h);
    }
  }

  /** Reading, seeking and listing write nothing but the cursor and the listing of
      their handle. */
  lemma MovingFollows<N, H>(st: State<N, H>, op: Op<N, H>, h: H)
    requires Inv(st) && WellFormed(st) && Enabled(st, op) && h in st.handles
    requires op.OpRead? || op.OpSeek? || op.OpReadDir?
    ensures SameView(st, Step(st, op), h)
  {
    hide Inv, Read, Seek, ReadDir, SameView;
    match op
    case OpRead(g, len) => ReadFollows(st, g, len, h);
    case OpSeek(g, off, whence) => SeekFollows(st, g, off, whence, h);
    case OpReadDir(g, count) => ReadDirFollows(st, g, count, h);
  }

  lemma ReadFollows<N, H>(st: State<N, H>, g: H, len: nat, h: H)
    requires WellFormed(st) && g in st.handles && h in st.handles
    ensures SameView(st, Read(st, g, len).0, h)
  {
    hide ReadAt;
  }

  lemma SeekFollows<N, H>(st: State<N, H>, g: H, off: int, whence: Whence, h: H)
    requires WellFormed(st) && g in st.handles && h in st.handles
    ensures SameView(st, Seek(st, g, off, whence).0, h)
  {
  }

  lemma ReadDirFollows<N, H>(st: State<N, H>, g: H, count: int, h: H)
    requires Inv(st) && WellFormed(st) && g in st.handles && h in st.handles
    ensures SameView(st, ReadDir(st, g, count).0, h)
  {
    hide Inv, Snapshot;
  }

  lemma WritingFollows<N, H>(st: State<N, H>, op: Op<N, H>, h: H)
    requires Inv(st) && WellFormed(st) && Enabled(st, op) && Inv(Step(st, op)) && h in st.handles
    requires (op.OpWrite? || op.OpWriteAt? || op.OpTruncate?) && !Touches(st, op, st.handles[h].inode)
    ensures SameView(st, Step(st, op), h)
  {
    hide Inv, Overlay, Resized, Snapshot, ReadAt, IsTree, Zeros, Placed;
    assert st.handles[h].inode in st.inodes;
    InvTree(Step(st, op));
  }

  lemma MkdirFollows<N, H>(st: State<N, H>, name: string, n: N, h: H)
    requires Inv(st) && WellFormed(st) && h in st.handles && n !in st.inodes && Inv(Mkdir(st, name, n).0)
    ensures SameView(st, Mkdir(st, name, n).0, h)
  {
    hide Inv, IsTree, ParentError;
    InvTree(Mkdir(st, name, n).0);
  }

  /** No operation of the run closes h or writes to its inode. */
  ghost predicate Untouched<N, H>(st: State<N, H>, ops: seq<Op<N, H>>, h: H)
    requires Inv(st) && Possible(st, ops) && h in st.handles
    decreases |ops|
  {
    ops == [] ||
    (&& ops[0] != OpClose(h) && !Touches(st, ops[0], st.handles[h].inode)
     && (StepKeeps(st, ops[0]); h in Step(st, ops[0]).handles)
     && Untouched(Step(st, ops[0]), ops[1..], h))
  }

  lemma {:induction false} RunFollows<N, H>(st: State<N, H>, ops: seq<Op<N, H>>, h: H)
    requires Inv(st) && Possible(st, ops) && h in st.handles && !st.handles[h].closed && Untouched(st, ops, h)
    ensures SameView(st, After(st, ops), h)
    decreases |ops|
  {
    if ops != [] {
      StepKeeps(st, ops[0]);
      StepFollows(st, ops[0], h);
      RunFollows(Step(st, ops[0]), ops[1..], h);
    }
  }

  /** Across any run of renames, removals, overwriting renames, re-creations and
      writes to other inodes, an open handle keeps reading the same bytes. */
  lemma HandleFollowsInode<N, H>(st: State<N, H>, ops: seq<Op<N, H>>, h: H, len: nat, off: int)
    requires Inv(st) && Possible(st, ops) && h in st.handles && !st.handles[h].closed && Untouched(st, ops, h)
    ensures h in After(st, ops).handles && ReadAt(After(st, ops), h, len, off) == ReadAt(st, h, len, off)
  {
    RunFollows(st, ops, h);
  }

  /** What was written through one handle is read back through any handle on the
      same inode, whatever happened to its names in between. */
  lemma ReadsLastWrite<N, H>(st: State<N, H>, g: H, h: H, p: seq<byte>, off: int, ops: seq<Op<N, H>>)
    requires Inv(st) && g in st.handles && h in st.handles && st.handles[g].inode == st.handles[h].inode
    requires !st.handles[h].closed && st.handles[h].readable && p != []
    requires WriteAt(st, g, p, off).1.None?
    requires var s := WriteAt(st, g, p, off).0;
             Inv(s) && h in s.handles && Possible(s, ops) && Untouched(s, ops, h)
    ensures var s := WriteAt(st, g, p, off).0;
            h in After(s, ops).handles && ReadAt(After(s, ops), h, |p|, off) == (p, None)
  {
    var s := WriteAt(st, g, p, off).0;
    var d := st.inodes[st.handles[g].inode].data;
    HandleFollowsInode(s, ops, h, |p|, off);
    OverlayAt(d, off, p);
    assert GoodHandle(st, g);
    var e := Overlay(d, off, p);
    assert e[off..off + |p|] == p;
  }

  // ---------------------------------------------------------------------
  // Directory handles
  // ---------------------------------------------------------------------

  /** A fresh listing through a handle shows exactly the entries its inode has
      now, in strictly ascending order, under whatever name it has now. */
  lemma SnapshotIsDirectory<N, H>(st: State<N, H>, h: H)
    requires Inv(st) && h in st.handles && st.handles[h].entries.None?
    ensures Snapshot(st, h).Ok? <==>
              st.inodes[st.handles[h].inode].linked && st.inodes[st.handles[h].inode].isDir
    ensures Snapshot(st, h).Ok? ==>
              && Sorted(Snapshot(st, h).value)
              && (set e | e in Snapshot(st, h).value :: Dirent(st.handles[h].inode, e.name, e.inode))
                 == set d | d in Dirents(st.names) && d.dir == st.handles[h].inode
  {
    var n := st.handles[h].inode;
    assert GoodInode(st, n);
    if Reached(st.names, n) {
      var p :| p in st.names && st.names[p] == n;
      assert Placed(st, p);
      if st.inodes[n].isDir {
        ChildrenDistinct(st, p);
        var es := Ascending(Children(st, p));
        forall e | e in es ensures Dirent(n, e.name, e.inode) in Dirents(st.names) {
          assert e in Elements(es);
          EntryIsDirent(st, p, e);
        }
        forall d | d in Dirents(st.names) && d.dir == n ensures exists e :: e in es && d == Dirent(n, e.name, e.inode) {
          var e := DirentIsEntry(st, p, d);
          assert e in Elements(es);
        }
      }
    }
  }

  lemma EntryIsDirent<N, H>(st: State<N, H>, p: string, e: Entry<N>)
    requires WellFormed(st) && IsTree(st) && p in st.names && e in Children(st, p)
    ensures Dirent(st.names[p], e.name, e.inode) in Dirents(st.names)
  {
    var q :| q in st.names && IsChild(st.names, p, q) && e == EntryOf(st, q);
    DirOfRoot();
    DirentIn(st.names, q);
  }

  lemma DirentIsEntry<N, H>(st: State<N, H>, p: string, d: Dirent<N>) returns (e: Entry<N>)
    requires WellFormed(st) && IsTree(st) && p in st.names && d in Dirents(st.names) && d.dir == st.names[p]
    ensures e in Children(st, p) && d == Dirent(st.names[p], e.name, e.inode)
  {
    var q := DirentName(st.names, d);
    assert Placed(st, q);
    NotOwnDir(q);
    assert IsChild(st.names, p, q);
    e := EntryOf(st, q);
  }

  /** What the operation delivers if it is a ReadDir on h. */
  ghost function Page<N, H>(st: State<N, H>, op: Op<N, H>, h: H): seq<Entry<N>>
    requires Inv(st) && Enabled(st, op)
  {
    if op.OpReadDir? && op.h == h && ReadDir(st, h, op.count).1.Ok? then ReadDir(st, h, op.count).1.value else []
  }

  /** The entries that the ReadDir calls on h deliver in the course of a run. */
  ghost function Pages<N, H>(st: State<N, H>, ops: seq<Op<N, H>>, h: H): seq<Entry<N>>
    requires Inv(st) && Possible(st, ops)
    decreases |ops|
  {
    if ops == [] then []
    else
      StepKeeps(st, ops[0]);
      Page(st, ops[0], h) + Pages(Step(st, ops[0]), ops[1..], h)
  }

  /** The operation brings h back to its beginning. */
  ghost predicate Rewinds<N, H>(st: State<N, H>, op: Op<N, H>, h: H)
    requires Inv(st) && Enabled(st, op)
  {
    op.OpSeek? && op.h == h && Seek(st, h, op.off, op.whence).1 == Ok(0)
  }

  /** h is neither closed nor brought back to its beginning in the course of a run. */
  ghost predicate Undisturbed<N, H>(st: State<N, H>, ops: seq<Op<N, H>>, h: H)
    requires Inv(st) && Possible(st, ops)
    decreases |ops|
  {
    ops == [] ||
    (&& ops[0] != OpClose(h) && !Rewinds(st, ops[0], h)
     && (StepKeeps(st, ops[0]); Undisturbed(Step(st, ops[0]), ops[1..], h)))
  }

  /** A handle brought back to its beginning holds no listing any more. */
  lemma RewindForgets<N, H>(st: State<N, H>, op: Op<N, H>, h: H)
    requires Inv(st) && Enabled(st, op) && Rewinds(st, op, h)
    ensures h in Step(st, op).handles && Step(st, op).handles[h].entries.None?
    ensures Step(st, op).handles[h].dirPos == 0 && !Step(st, op).handles[h].closed
  {
    hide Inv;
  }

  /** What a handle holds of a listing. */
  ghost predicate SameListing<N>(x: Handle<N>, y: Handle<N>) {
    x.entries == y.entries && x.dirPos == y.dirPos && x.closed == y.closed
  }

  lemma NameOpsKeepHandles<N, H>(st: State<N, H>, name: string, dst: string, n: N)
    requires WellFormed(st)
    ensures Mkdir(st, name, n).0.handles == st.handles
    ensures Remove(st, name).0.handles == st.handles
    ensures Rename(st, name, dst).0.handles == st.handles
  {
    hide Valid, ParentError, ReplaceError, Renamed, HasChild;
  }

  lemma OpenKeepsOthers<N, H>(st: State<N, H>, name: string, f: Flags, n: N, k: H, h: H)
    requires WellFormed(st) && h in st.handles && k != h
    ensures h in OpenFile(st, name, f, n, k).0.handles && OpenFile(st, name, f, n, k).0.handles[h] == st.handles[h]
  {
    hide Valid, ParentError, WellFormed;
  }

  /** Other operations leave the listing a handle holds alone. */
  lemma ListingStays<N, H>(st: State<N, H>, op: Op<N, H>, h: H)
    requires Inv(st) && WellFormed(st) && Enabled(st, op) && h in st.handles
    requires op != OpClose(h) && !Rewinds(st, op, h) && !(op.OpReadDir? && op.h == h)
    ensures h in Step(st, op).handles && SameListing(Step(st, op).handles[h], st.handles[h])
  {
    hide Inv, OpenFile, Mkdir, Remove, Rename, Overlay, Resized, Snapshot, ReadAt, WellFormed;
    match op
    case OpOpen(name, f, n, k) => OpenKeepsOthers(st, name, f, n, k, h);
    case OpMkdir(name, n) => NameOpsKeepHandles(st, name, name, n);
    case OpRemove(name) => NameOpsKeepHandles(st, name, name, st.handles[h].inode);
    case OpRename(src, dst) => NameOpsKeepHandles(st, src, dst, st.handles[h].inode);
    case _ =>
  }

  /** One operation delivers the next piece of the listing, or nothing. */
  lemma PageIsNextPiece<N, H>(st: State<N, H>, op: Op<N, H>, h: H)
    requires Inv(st) && Enabled(st, op) && op != OpClose(h) && !Rewinds(st, op, h)
    requires h in st.handles && !st.handles[h].closed && st.handles[h].entries.Some?
    ensures var s := Step(st, op);
      && h in s.handles && !s.handles[h].closed && s.handles[h].entries == st.handles[h].entries
      && 0 <= st.handles[h].dirPos <= s.handles[h].dirPos <= |st.handles[h].entries.value|
      && Page(st, op, h) == st.handles[h].entries.value[st.handles[h].dirPos..s.handles[h].dirPos]
  {
    assert GoodHandle(st, h);
    hide Inv;
    if !(op.OpReadDir? && op.h == h) { ListingStays(st, op, h); }
  }

  /** Successive pages, with anything in between, are consecutive pieces of the
      listing taken by the first: each entry once, in order. */
  lemma {:induction false} PagesAreTheListing<N, H>(st: State<N, H>, ops: seq<Op<N, H>>, h: H)
    requires Inv(st) && Possible(st, ops) && Undisturbed(st, ops, h)
    requires h in st.handles && !st.handles[h].closed && st.handles[h].entries.Some?
    ensures var x, es := st.handles[h], st.handles[h].entries.value;
      && h in After(st, ops).handles
      && 0 <= x.dirPos <= After(st, ops).handles[h].dirPos <= |es|
      && Pages(st, ops, h) == es[x.dirPos..After(st, ops).handles[h].dirPos]
    decreases |ops|
  {
    hide Inv, Step, Enabled, Page;
    if ops == [] {
      PositionInListing(st, h);
    } else {
      StepKeeps(st, ops[0]);
      PageIsNextPiece(st, ops[0], h);
      PagesAreTheListing(Step(st, ops[0]), ops[1..], h);
    }
  }

  lemma PositionInListing<N, H>(st: State<N, H>, h: H)
    requires Inv(st) && h in st.handles && st.handles[h].entries.Some?
    ensures 0 <= st.handles[h].dirPos <= |st.handles[h].entries.value|
  {
    assert GoodHandle(st, h);
  }

  /** A run whose first operation reads a page through h, which holds no listing yet. */
  ghost predicate StartsListing<N, H>(st: State<N, H>, ops: seq<Op<N, H>>, h: H)
    requires Inv(st)
  {
    && Possible(st, ops) && Undisturbed(st, ops, h)
    && ops != [] && ops[0].OpReadDir? && ops[0].h == h
    && h in st.handles && !st.handles[h].closed && st.handles[h].entries.None? && Snapshot(st, h).Ok?
  }

  /** The two together, from a handle that holds no listing yet: the pages read
      are the first entries of the directory's listing, each once; and the end of
      the directory is reported exactly when they are all of it. */
  lemma PagesFromFresh<N, H>(st: State<N, H>, ops: seq<Op<N, H>>, h: H)
    requires Inv(st) && StartsListing(st, ops, h)
    ensures var t, es := After(st, ops), Snapshot(st, h).value;
      && h in t.handles && Pages(st, ops, h) <= es
      && (forall n :: n > 0 ==> (ReadDir(t, h, n).1 == Err(EndOfFile) <==> Pages(st, ops, h) == es))
      && (set e | e in es :: Dirent(st.handles[h].inode, e.name, e.inode))
         == set d | d in Dirents(st.names) && d.dir == st.handles[h].inode
  {
    SnapshotIsDirectory(st, h);
    PagesSoFar(st, ops, h);
    var t, es := After(st, ops), Snapshot(st, h).value;
    hide Inv, Snapshot, ReadDir, Dirents, After, Pages, Possible;
    forall n | n > 0 ensures ReadDir(t, h, n).1 == Err(EndOfFile) <==> Pages(st, ops, h) == es {
      EndOfListing(t, h, n);
    }
  }

  lemma PagesSoFar<N, H>(st: State<N, H>, ops: seq<Op<N, H>>, h: H)
    requires Inv(st) && StartsListing(st, ops, h)
    ensures var t, es := After(st, ops), Snapshot(st, h).value;
      && h in t.handles && !t.handles[h].closed && t.handles[h].entries == Some(es)
      && 0 <= t.handles[h].dirPos <= |es| && Pages(st, ops, h) == es[..t.handles[h].dirPos]
  {
    hide Inv, Snapshot, ReadDir, Page;
    StepKeeps(st, ops[0]);
    FirstPage(st, ops[0].count, h);
    var s, rest := Step(st, ops[0]), ops[1..];
    assert s == ReadDir(st, h, ops[0].count).0 && ops[0] == OpReadDir(h, ops[0].count);
    hide Step, Enabled;
    PagesAreTheListing(s, rest, h);
    ListingAtEnd(s, rest, h);
    var es, t := Snapshot(st, h).value, After(s, rest);
    assert es[..s.handles[h].dirPos] + es[s.handles[h].dirPos..t.handles[h].dirPos] == es[..t.handles[h].dirPos];
  }

  lemma FirstPage<N, H>(st: State<N, H>, count: int, h: H)
    requires Inv(st) && h in st.handles && !st.handles[h].closed && st.handles[h].entries.None? && Snapshot(st, h).Ok?
    ensures var s, es := ReadDir(st, h, count).0, Snapshot(st, h).value;
      && h in s.handles && !s.handles[h].closed && s.handles[h].entries == Some(es)
      && 0 <= s.handles[h].dirPos <= |es|
      && Page(st, OpReadDir(h, count), h) == es[..s.handles[h].dirPos]
  {
    assert GoodHandle(st, h);
    hide Inv, Snapshot;
  }

  /** A run that neither closes nor repositions h keeps the listing it holds. */
  lemma {:induction false} ListingAtEnd<N, H>(st: State<N, H>, ops: seq<Op<N, H>>, h: H)
    requires Inv(st) && Possible(st, ops) && Undisturbed(st, ops, h)
    requires h in st.handles && !st.handles[h].closed && st.handles[h].entries.Some?
    ensures var t := After(st, ops);
      h in t.handles && !t.handles[h].closed && t.handles[h].entries == st.handles[h].entries
    decreases |ops|
  {
    hide Inv, Step, Enabled, Page;
    if ops != [] {
      StepKeeps(st, ops[0]);
      PageIsNextPiece(st, ops[0], h);
      ListingAtEnd(Step(st, ops[0]), ops[1..], h);
    }
  }

  lemma EndOfListing<N, H>(st: State<N, H>, h: H, n: int)
    requires Inv(st) && h in st.handles && !st.handles[h].closed && st.handles[h].entries.Some? && n > 0
    ensures ReadDir(st, h, n).1 == Err(EndOfFile) <==> st.handles[h].dirPos == |st.handles[h].entries.value|
  {
    hide Inv;
  }

  // ---------------------------------------------------------------------
  // Handles under operations
  // ---------------------------------------------------------------------

  /** Only closing a handle closes it, and no operation gives it another inode. */
  lemma HandleStays<N, H>(st: State<N, H>, op: Op<N, H>, h: H)
    requires Inv(st) && Enabled(st, op) && h in st.handles
    ensures h in Step(st, op).handles && Step(st, op).handles[h].inode == st.handles[h].inode
    ensures op != OpClose(h) ==> Step(st, op).handles[h].closed == st.handles[h].closed
    ensures op == OpClose(h) ==> Step(st, op).handles[h].closed
  {
    InvTree(st);
    hide Inv, OpenFile, Mkdir, Remove, Rename, Overlay, Resized, Snapshot, ReadAt, WellFormed;
    match op
    case OpOpen(name, f, n, k) => OpenKeepsOthers(st, name, f, n, k, h);
    case OpMkdir(name, n) => NameOpsKeepHandles(st, name, name, n);
    case OpRemove(name) => NameOpsKeepHandles(st, name, name, st.handles[h].inode);
    case OpRename(src, dst) => NameOpsKeepHandles(st, src, dst, st.handles[h].inode);
    case _ =>
  }
}
