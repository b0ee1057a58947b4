/** Every operation of the filesystem keeps its invariant: the tree shape, the
    reference counts, the byte budget and the handle cursors. */
module Invariant {
  import opened Paths
  import opened Listing
  import opened Store
  import opened Tree
  import opened Renaming

  // ---------------------------------------------------------------------
  // The byte budget as a sum
  // ---------------------------------------------------------------------

  lemma {:induction false} BytesRemove<N>(m: map<N, Inode>, n: N)
    requires n in m
    ensures Bytes(m) == |m[n].data| + Bytes(m - {n})
    decreases |m|
  {
    var k :| k in m && Bytes(m) == |m[k].data| + Bytes(m - {k});
    if k != n {
      BytesRemove(m - {k}, n);
      BytesRemove(m - {n}, k);
      assert m - {k} - {n} == m - {n} - {k};
    }
  }

  lemma BytesUpdate<N>(m: map<N, Inode>, n: N, i: Inode)
    ensures Bytes(m[n := i]) == Bytes(m) - (if n in m then |m[n].data| else 0) + |i.data|
  {
    BytesRemove(m[n := i], n);
    if n in m {
      BytesRemove(m, n);
      assert m[n := i] - {n} == m - {n};
    } else {
      assert m[n := i] - {n} == m;
    }
  }

  ghost predicate Live(i: Inode) { i.linked || i.refs > 0 }

  /** The inodes that a name or an open handle reaches. */
  ghost function LiveInodes<N>(m: map<N, Inode>): map<N, Inode> {
    map n | n in m && Live(m[n]) :: m[n]
  }

  /** The budget counts exactly the bytes of live inodes. */
  lemma {:induction false} BytesOfLive<N>(m: map<N, Inode>)
    requires forall n :: n in m && !Live(m[n]) ==> m[n].data == []
    ensures Bytes(m) == Bytes(LiveInodes(m))
    decreases |m|
  {
    if m != map[] {
      var n :| n in m;
      var rest := m - {n};
      BytesRemove(m, n);
      BytesOfLive(rest);
      if Live(m[n]) {
        BytesRemove(LiveInodes(m), n);
        assert LiveInodes(m) - {n} == LiveInodes(rest);
      } else {
        assert LiveInodes(m) == LiveInodes(rest);
      }
    }
  }

  // ---------------------------------------------------------------------
  // Building blocks
  // ---------------------------------------------------------------------

  lemma CreateKeeps<N, H>(st: State<N, H>, name: string, isDir: bool, n: N)
    requires Inv(st) && n !in st.inodes && Valid(name) && name !in st.names
    requires ParentError(st, name).None? && |st.names| < MAX_NODES
    ensures Inv(Create(st, name, isDir, n))
  {
    var s := Create(st, name, isDir, n);
    BytesUpdate(st.inodes, n, Inode(isDir, [], 0, true));
    forall p | p in s.names ensures Placed(s, p) {
      assert p in st.names ==> Placed(st, p);
    }
    assert OpenOn(s.handles, n) == {};
    forall m | m in s.inodes ensures GoodInode(s, m) {
      if m != n {
        assert GoodInode(st, m);
        assert forall p :: p in st.names ==> p in s.names && s.names[p] == st.names[p];
      } else {
        assert s.names[name] == n;
      }
    }
    forall h | h in s.handles ensures GoodHandle(s, h) { assert GoodHandle(st, h); }
  }

  /** Data may change within the budget, except that a dead inode or a directory stays empty. */
  lemma SetDataKeeps<N, H>(st: State<N, H>, n: N, data: seq<byte>)
    requires Inv(st) && n in st.inodes
    requires data == [] || (!st.inodes[n].isDir && Live(st.inodes[n]))
    requires st.used - |st.inodes[n].data| + |data| <= st.limit
    ensures Inv(SetData(st, n, data))
  {
    var s := SetData(st, n, data);
    BytesUpdate(st.inodes, n, st.inodes[n].(data := data));
    forall p | p in s.names ensures Placed(s, p) { assert Placed(st, p); }
    forall m | m in s.inodes ensures GoodInode(s, m) { assert GoodInode(st, m); }
    forall h | h in s.handles ensures GoodHandle(s, h) { assert GoodHandle(st, h); }
  }

  lemma AddHandleKeeps<N, H>(st: State<N, H>, h: H, x: Handle<N>)
    requires Inv(st) && h !in st.handles && x.inode in st.inodes && !x.closed
    requires x.writable ==> !st.inodes[x.inode].isDir
    requires x.pos == 0 && x.entries.None? && x.dirPos == 0
    requires Live(st.inodes[x.inode])
    ensures Inv(AddHandle(st, h, x))
  {
    hide OpenOn, Bytes, GoodInode;
    var s, n := AddHandle(st, h, x), x.inode;
    BytesUpdate(st.inodes, n, s.inodes[n]);
    forall p | p in s.names ensures Placed(s, p) { assert Placed(st, p); }
    forall m | m in s.inodes ensures GoodInode(s, m) { AddedInode(st, h, x, m); }
    forall k | k in s.handles ensures GoodHandle(s, k) { assert k != h ==> GoodHandle(st, k); }
  }

  lemma AddedInode<N, H>(st: State<N, H>, h: H, x: Handle<N>, m: N)
    requires Inv(st) && h !in st.handles && x.inode in st.inodes && !x.closed
    requires x.writable ==> !st.inodes[x.inode].isDir
    requires Live(st.inodes[x.inode]) && m in st.inodes
    ensures GoodInode(AddHandle(st, h, x), m)
  {
    hide OpenOn, Bytes, IsTree;
    assert GoodInode(st, m);
    OpenOnAdded(st.handles, h, x, m);
  }

  lemma OpenOnAdded<N, H>(handles: map<H, Handle<N>>, h: H, x: Handle<N>, m: N)
    requires h !in handles && !x.closed
    ensures OpenOn(handles[h := x], m) == OpenOn(handles, m) + if m == x.inode then {h} else {}
    ensures |OpenOn(handles[h := x], m)| == |OpenOn(handles, m)| + if m == x.inode then 1 else 0
  {
  }

  lemma AttachKeeps<N, H>(st: State<N, H>, n: N, f: Flags, h: H, s: State<N, H>)
    requires Inv(st) && h !in st.handles && n in st.inodes && Live(st.inodes[n])
    requires f.Writable() ==> !st.inodes[n].isDir
    requires s == AddHandle(st, h, NewHandle(n, f))
    ensures Inv(s)
  {
    AddHandleKeeps(st, h, NewHandle(n, f));
  }

  /** Closing h when no bytes are lost by it. */
  ghost function DropHandle<N, H>(st: State<N, H>, h: H): State<N, H>
    requires h in st.handles && st.handles[h].inode in st.inodes
  {
    var n := st.handles[h].inode;
    st.(inodes := st.inodes[n := st.inodes[n].(refs := st.inodes[n].refs - 1)],
        handles := st.handles[h := st.handles[h].(closed := true)])
  }

  lemma DropHandleKeeps<N, H>(st: State<N, H>, h: H)
    requires Inv(st) && h in st.handles && !st.handles[h].closed
    requires var i := st.inodes[st.handles[h].inode]; i.linked || i.refs != 1 || i.data == []
    ensures Inv(DropHandle(st, h))
  {
    hide OpenOn, GoodInode;
    var s, n := DropHandle(st, h), st.handles[h].inode;
    BytesUpdate(st.inodes, n, s.inodes[n]);
    forall p | p in s.names ensures Placed(s, p) { assert Placed(st, p); }
    forall m | m in s.inodes ensures GoodInode(s, m) { DroppedInode(st, h, m); }
    forall k | k in s.handles ensures GoodHandle(s, k) { assert GoodHandle(st, k); }
  }

  lemma DroppedInode<N, H>(st: State<N, H>, h: H, m: N)
    requires Inv(st) && h in st.handles && !st.handles[h].closed && m in st.inodes
    requires var i := st.inodes[st.handles[h].inode]; i.linked || i.refs != 1 || i.data == []
    ensures GoodInode(DropHandle(st, h), m)
  {
    var s := DropHandle(st, h);
    assert GoodInode(st, m);
    OpenOnDropped(st.handles, h, s.handles[h], m);
    hide OpenOn, Bytes, IsTree;
  }

  lemma OpenOnDropped<N, H>(handles: map<H, Handle<N>>, h: H, x: Handle<N>, m: N)
    requires h in handles && !handles[h].closed && x.closed && x.inode == handles[h].inode
    ensures OpenOn(handles[h := x], m) == OpenOn(handles, m) - if m == x.inode then {h} else {}
    ensures |OpenOn(handles[h := x], m)| == |OpenOn(handles, m)| - if m == x.inode then 1 else 0
  {
    assert m == x.inode ==> h in OpenOn(handles, m);
  }

  /** Moving the cursors of a handle. */
  lemma SetHandleKeeps<N, H>(st: State<N, H>, h: H, x: Handle<N>)
    requires Inv(st) && h in st.handles
    requires x.inode == st.handles[h].inode && x.closed == st.handles[h].closed
    requires x.writable == st.handles[h].writable && 0 <= x.pos <= st.limit
    requires x.entries.None? ==> x.dirPos == 0
    requires x.entries.Some? ==> Sorted(x.entries.value) && 0 <= x.dirPos <= |x.entries.value|
    ensures Inv(SetHandle(st, h, x))
  {
    var s := SetHandle(st, h, x);
    forall p | p in s.names ensures Placed(s, p) { assert Placed(st, p); }
    forall m | m in s.inodes ensures GoodInode(s, m) {
      assert GoodInode(st, m);
      assert OpenOn(s.handles, m) == OpenOn(st.handles, m);
    }
    forall k | k in s.handles ensures GoodHandle(s, k) { assert GoodHandle(st, k); }
  }

  /** Replacing the names by a tree over the same inodes. */
  lemma NamesKeep<N, H>(st: State<N, H>, names: map<string, N>)
    requires Inv(st)
    requires forall m :: Reached(names, m) <==> Reached(st.names, m)
    requires WellFormed(st.(names := names)) && IsTree(st.(names := names))
    ensures Inv(st.(names := names))
  {
    var s := st.(names := names);
    forall m | m in s.inodes ensures GoodInode(s, m) { assert GoodInode(st, m); }
    forall k | k in s.handles ensures GoodHandle(s, k) { assert GoodHandle(st, k); }
  }

  ghost function Relinked<N, H>(st: State<N, H>, names: map<string, N>, n: N): State<N, H>
    requires n in st.inodes
  {
    st.(names := names, inodes := st.inodes[n := st.inodes[n].(linked := false)])
  }

  /** Replacing the names by a tree over the same inodes except n, when no bytes
      are lost by it. */
  lemma RelinkKeeps<N, H>(st: State<N, H>, names: map<string, N>, n: N)
    requires Inv(st) && n in st.inodes && (st.inodes[n].refs == 0 ==> st.inodes[n].data == [])
    requires forall m :: Reached(names, m) <==> Reached(st.names, m) && m != n
    requires WellFormed(st.(names := names)) && IsTree(st.(names := names))
    ensures Inv(Relinked(st, names, n))
  {
    var s := Relinked(st, names, n);
    BytesUpdate(st.inodes, n, s.inodes[n]);
    forall p | p in s.names ensures Placed(s, p) { assert Placed(st.(names := names), p); }
    forall m | m in s.inodes ensures GoodInode(s, m) { assert GoodInode(st, m); }
    forall k | k in s.handles ensures GoodHandle(s, k) { assert GoodHandle(st, k); }
  }

  lemma TreeAnyData<N, H>(st: State<N, H>, n: N, data: seq<byte>)
    requires WellFormed(st) && IsTree(st) && n in st.inodes
    ensures WellFormed(SetData(st, n, data)) && IsTree(SetData(st, n, data))
  {
    var s := SetData(st, n, data);
    forall p | p in s.names ensures Placed(s, p) { assert Placed(st, p); }
  }

  lemma UnlinkKeeps<N, H>(st: State<N, H>, names: map<string, N>, n: N)
    requires Inv(st) && n in st.inodes
    requires forall m :: Reached(names, m) <==> Reached(st.names, m) && m != n
    requires WellFormed(st.(names := names)) && IsTree(st.(names := names))
    ensures Inv(Unlink(st, n).(names := names))
  {
    hide GoodInode, GoodHandle, OpenOn, Placed, Bytes;
    if st.inodes[n].refs == 0 {
      BytesRemove(st.inodes, n);
      SetDataKeeps(st, n, []);
      var s := SetData(st, n, []);
      TreeAnyData(st.(names := names), n, []);
      assert s.(names := names) == SetData(st.(names := names), n, []);
      RelinkKeeps(s, names, n);
      assert Relinked(s, names, n) == Unlink(st, n).(names := names);
    } else {
      RelinkKeeps(st, names, n);
    }
  }

  lemma InvTree<N, H>(st: State<N, H>)
    requires Inv(st)
    ensures WellFormed(st) && IsTree(st)
  {}

  // ---------------------------------------------------------------------
  // The operations
  // ---------------------------------------------------------------------

  lemma OpenInodeKeeps<N, H>(st: State<N, H>, n: N, f: Flags, h: H)
    requires Inv(st) && n in st.inodes && st.inodes[n].linked && h !in st.handles
    ensures Inv(OpenInode(st, n, f, h).0)
  {
    assert GoodInode(st, n);
    BytesRemove(st.inodes, n);
    if !(st.inodes[n].isDir && (f.Writable() || f.trunc)) && !(f.trunc && !f.Writable()) {
      var s := if f.trunc then SetData(st, n, []) else st;
      if f.trunc { SetDataKeeps(st, n, []); }
      AddHandleKeeps(s, h, NewHandle(n, f));
    }
  }

  lemma OpenFileKeeps<N, H>(st: State<N, H>, name: string, f: Flags, n: N, h: H)
    requires Inv(st) && n !in st.inodes && h !in st.handles
    ensures Inv(OpenFile(st, name, f, n, h).0)
  {
    if Valid(name) {
      if name in st.names {
        assert GoodInode(st, st.names[name]);
        OpenInodeKeeps(st, st.names[name], f, h);
      } else if f.create && ParentError(st, name).None? && |st.names| < MAX_NODES {
        CreateKeeps(st, name, false, n);
        OpenInodeKeeps(Create(st, name, false, n), n, f, h);
      }
    }
  }

  lemma MkdirKeeps<N, H>(st: State<N, H>, name: string, n: N)
    requires Inv(st) && n !in st.inodes
    ensures Inv(Mkdir(st, name, n).0)
  {
    if Mkdir(st, name, n).1.None? { CreateKeeps(st, name, true, n); }
  }

  lemma UnlinkResult<N, H>(st: State<N, H>, n: N, i: Inode)
    requires n in st.inodes
    requires i == st.inodes[n].(linked := false, data := if st.inodes[n].refs == 0 then [] else st.inodes[n].data)
    ensures Unlink(st, n) == st.(used := st.used - |st.inodes[n].data| + |i.data|, inodes := st.inodes[n := i])
  {
    if st.inodes[n].refs == 0 {
      assert st.inodes[n := st.inodes[n].(linked := false)][n := i] == st.inodes[n := i];
    }
  }

  /** Without a childless name the map is still a tree. */
  lemma RemovedTree<N, H>(st: State<N, H>, name: string)
    requires WellFormed(st) && IsTree(st) && name in st.names && name != "."
    requires st.inodes[st.names[name]].isDir ==> !HasChild(st.names, name)
    ensures WellFormed(st.(names := st.names - {name})) && IsTree(st.(names := st.names - {name}))
  {
    hide Valid, Dir;
    var s := st.(names := st.names - {name});
    forall p | p in s.names ensures Placed(s, p) {
      assert Placed(st, p);
      assert p != "." && Dir(p) == name ==> HasChild(st.names, name);
    }
  }

  /** The inodes with a name after a removal: all but the one removed. */
  lemma RemovedReaches<N, H>(st: State<N, H>, name: string, m: N)
    requires WellFormed(st) && IsTree(st) && name in st.names
    ensures Reached(st.names - {name}, m) <==> Reached(st.names, m) && m != st.names[name]
  {
    if Reached(st.names, m) && m != st.names[name] {
      var p :| p in st.names && st.names[p] == m;
      assert p in st.names - {name};
    }
  }

  lemma RemoveKeeps<N, H>(st: State<N, H>, name: string)
    requires Inv(st)
    ensures Inv(Remove(st, name).0)
  {
    hide Inv, IsTree;
    InvTree(st);
    if Remove(st, name).1.None? {
      var n, names := st.names[name], st.names - {name};
      RemovedTree(st, name);
      forall m ensures Reached(names, m) <==> Reached(st.names, m) && m != n { RemovedReaches(st, name, m); }
      UnlinkKeeps(st, names, n);
      assert Unlink(st.(names := names), n) == Unlink(st, n).(names := names);
    }
  }

  lemma RenamedTree<N, H>(st: State<N, H>, src: string, dst: string)
    requires Movable(st, src, dst)
    ensures var s := st.(names := Renamed(st.names, src, dst)); WellFormed(s) && IsTree(s)
  {
    var s := st.(names := Renamed(st.names, src, dst));
    forall q | q in s.names ensures s.names[q] in s.inodes { AfterRename(st, src, dst, q); }
    DirBase(src);
    RootStays(st, src, dst);
    forall q | q in s.names ensures Placed(s, q) { RenamedPlaced(st, src, dst, q); }
    forall p, q | p in s.names && q in s.names && s.names[p] == s.names[q] ensures p == q {
      RenamedInjective(st, src, dst, p, q);
    }
    RenamedCount(st, src, dst);
  }

  lemma RootStays<N, H>(st: State<N, H>, src: string, dst: string)
    requires Movable(st, src, dst)
    ensures "." in Renamed(st.names, src, dst) && Renamed(st.names, src, dst)["."] == st.names["."]
  {
    DirOfRoot();
    WithinComps(".", src);
    PathOfComps(src);
    StaysPut(st, src, dst, ".");
  }

  lemma RenamedCount<N, H>(st: State<N, H>, src: string, dst: string)
    requires Movable(st, src, dst)
    ensures |Renamed(st.names, src, dst)| <= |st.names|
  {
    var names' := Renamed(st.names, src, dst);
    var back := (q: string) => if Within(q, dst) then src + q[|dst|..] else q;
    forall q | q in names'.Keys ensures back(q) in st.names.Keys { AfterRename(st, src, dst, q); }
    forall q, q' | q in names'.Keys && q' in names'.Keys && back(q) == back(q') ensures q == q' {
      AfterRename(st, src, dst, q);
      AfterRename(st, src, dst, q');
      if Within(q, dst) { BeforeWithin(src, dst, q); }
      if Within(q', dst) { BeforeWithin(src, dst, q'); }
    }
    InjectionCount(names'.Keys, st.names.Keys, back);
  }

  lemma {:induction false} InjectionCount(a: set<string>, b: set<string>, f: string -> string)
    requires forall x :: x in a ==> f(x) in b
    requires forall x, y :: x in a && y in a && f(x) == f(y) ==> x == y
    ensures |a| <= |b|
    decreases a
  {
    if a != {} {
      var x :| x in a;
      InjectionCount(a - {x}, b - {f(x)}, f);
    }
  }

  /** The inodes with a name after the rename: all but the one replaced. */
  lemma RenamedReaches<N, H>(st: State<N, H>, src: string, dst: string, m: N)
    requires Movable(st, src, dst)
    ensures Reached(Renamed(st.names, src, dst), m)
       <==> Reached(st.names, m) && (dst in st.names ==> m != st.names[dst])
  {
    var names' := Renamed(st.names, src, dst);
    assert Within(dst, dst);
    if Reached(names', m) {
      var q :| q in names' && names'[q] == m;
      AfterRename(st, src, dst, q);
      if Within(q, dst) { BeforeWithin(src, dst, q); }
    }
    if Reached(st.names, m) && (dst in st.names ==> m != st.names[dst]) {
      var p :| p in st.names && st.names[p] == m;
      if Within(p, src) {
        AfterWithin(src, dst, p);
        RenamedAt(st.names, src, dst, dst + p[|src|..]);
      } else {
        StaysPut(st, src, dst, p);
      }
    }
  }

  lemma RenameKeeps<N, H>(st: State<N, H>, src: string, dst: string)
    requires Inv(st)
    ensures Inv(Rename(st, src, dst).0)
  {
    if Moves(st, src, dst) {
      MovesMovable(st, src, dst);
      MovesResult(st, src, dst);
      RenamedTree(st, src, dst);
      forall m ensures Reached(Renamed(st.names, src, dst), m)
                  <==> Reached(st.names, m) && (dst in st.names ==> m != st.names[dst])
      {
        RenamedReaches(st, src, dst, m);
      }
      if dst in st.names {
        UnlinkKeeps(st, Renamed(st.names, src, dst), st.names[dst]);
      } else {
        NamesKeep(st, Renamed(st.names, src, dst));
      }
    }
  }

  lemma CloseKeeps<N, H>(st: State<N, H>, h: H)
    requires Inv(st) && h in st.handles
    ensures Inv(Close(st, h).0)
  {
    if !st.handles[h].closed {
      var n := st.handles[h].inode;
      var i := st.inodes[n];
      assert GoodInode(st, n);
      BytesRemove(st.inodes, n);
      var s := if !i.linked && i.refs == 1 then SetData(st, n, []) else st;
      if !i.linked && i.refs == 1 { SetDataKeeps(st, n, []); }
      DropHandleKeeps(s, h);
      assert DropHandle(s, h) == Close(st, h).0;
    }
  }

  lemma CloseTwice<N, H>(st: State<N, H>, h: H)
    requires h in st.handles && WellFormed(st) && st.handles[h].closed
    ensures Close(st, h) == (st, Some(Closed))
  {}

  lemma CloseResult<N, H>(st: State<N, H>, h: H)
    requires h in st.handles && WellFormed(st) && !st.handles[h].closed
    ensures var n := st.handles[h].inode;
            var i := Released(st.inodes[n]);
            Close(st, h) == (st.(used := st.used - |st.inodes[n].data| + |i.data|, inodes := st.inodes[n := i],
                                 handles := st.handles[h := st.handles[h].(closed := true)]), None)
  {}

  lemma ReadKeeps<N, H>(st: State<N, H>, h: H, len: nat)
    requires Inv(st) && h in st.handles
    ensures Inv(Read(st, h, len).0)
  {
    assert GoodHandle(st, h);
    assert GoodInode(st, st.handles[h].inode);
    BytesRemove(st.inodes, st.handles[h].inode);
    SetHandleKeeps(st, h, Read(st, h, len).0.handles[h]);
  }

  lemma InodeFits<N, H>(st: State<N, H>, n: N)
    requires Inv(st) && n in st.inodes
    ensures WellFormed(st) && |st.inodes[n].data| <= st.used <= st.limit && GoodInode(st, n)
  {
    assert GoodInode(st, n);
    BytesRemove(st.inodes, n);
  }

  lemma NameFits<N, H>(st: State<N, H>, name: string)
    requires Inv(st) && name in st.names
    ensures st.names[name] in st.inodes && st.inodes[st.names[name]].linked
    ensures |st.inodes[st.names[name]].data| <= st.used <= st.limit
  {
    assert GoodInode(st, st.names[name]);
    BytesRemove(st.inodes, st.names[name]);
  }

  /** An inode with an open handle is live, and fits the budget. */
  lemma OpenIsLive<N, H>(st: State<N, H>, h: H)
    requires Inv(st) && h in st.handles
    ensures |st.inodes[st.handles[h].inode].data| <= st.used
    ensures !st.handles[h].closed ==> Live(st.inodes[st.handles[h].inode])
  {
    var n := st.handles[h].inode;
    assert GoodInode(st, n);
    BytesRemove(st.inodes, n);
    if !st.handles[h].closed { assert h in OpenOn(st.handles, n); }
  }

  lemma WriteAtOffsetKeeps<N, H>(st: State<N, H>, h: H, p: seq<byte>, off: int)
    requires Inv(st) && h in st.handles
    ensures Inv(WriteAtOffset(st, h, p, off).0)
  {
    assert GoodHandle(st, h);
    OpenIsLive(st, h);
    var n := st.handles[h].inode;
    if WriteAtOffset(st, h, p, off).1.None? && p != [] {
      SetDataKeeps(st, n, Overlay(st.inodes[n].data, off, p));
    }
  }

  lemma SetDataSame<N, H>(st: State<N, H>, n: N)
    requires n in st.inodes
    ensures SetData(st, n, st.inodes[n].data) == st
  {
    assert st.inodes[n := st.inodes[n]] == st.inodes;
  }

  lemma SetDataTwice<N, H>(st: State<N, H>, n: N, a: seq<byte>, b: seq<byte>)
    requires n in st.inodes
    ensures SetData(SetData(st, n, a), n, b) == SetData(st, n, b)
  {
    assert st.inodes[n := st.inodes[n].(data := a)][n := st.inodes[n].(data := b)]
        == st.inodes[n := st.inodes[n].(data := b)];
  }

  /** The outcome of a write, case by case. */
  lemma WriteAtOffsetIs<N, H>(st: State<N, H>, h: H, p: seq<byte>, off: int)
    requires WellFormed(st) && h in st.handles && st.used <= st.limit
    ensures var x, d, r := st.handles[h], st.inodes[st.handles[h].inode].data, WriteAtOffset(st, h, p, off);
      if x.closed then r == (st, Some(Closed))
      else if !x.writable then r == (st, Some(Permission))
      else if off < 0 then r == (st, Some(Invalid))
      else if off > st.limit - |p| then r == (st, Some(NoSpace))
      else if p == [] then r == (st, None)
      else
        var e := if off + |p| > |d| then Resized(d, off + |p|) else d;
        if |e| - |d| > st.limit - st.used then r == (st, Some(NoSpace))
        else r == (SetData(st, x.inode, e[..off] + p + e[off + |p|..]), None)
  {}

  /** The handle with its cursor where the next write goes. */
  ghost function Placing<N, H>(st: State<N, H>, h: H): Handle<N>
    requires WellFormed(st) && h in st.handles
  {
    var x := st.handles[h];
    x.(pos := if x.append then |st.inodes[x.inode].data| else x.pos)
  }

  lemma PlaceKeeps<N, H>(st: State<N, H>, h: H)
    requires Inv(st) && h in st.handles
    ensures WellFormed(st) && Inv(SetHandle(st, h, Placing(st, h)))
    ensures WellFormed(SetHandle(st, h, Placing(st, h))) && h in SetHandle(st, h, Placing(st, h)).handles
  {
    OpenIsLive(st, h);
    assert GoodHandle(st, h);
    SetHandleKeeps(st, h, Placing(st, h));
  }

  /** A write does not depend on the cursor, nor change it. */
  lemma WriteCommutes<N, H>(st: State<N, H>, h: H, x: Handle<N>, p: seq<byte>, off: int)
    requires WellFormed(st) && h in st.handles && x == st.handles[h].(pos := x.pos)
    ensures WellFormed(SetHandle(st, h, x))
    ensures WriteAtOffset(SetHandle(st, h, x), h, p, off)
         == (SetHandle(WriteAtOffset(st, h, p, off).0, h, x), WriteAtOffset(st, h, p, off).1)
  {}

  lemma SetHandleTwice<N, H>(st: State<N, H>, h: H, x: Handle<N>, y: Handle<N>)
    ensures SetHandle(SetHandle(st, h, x), h, y) == SetHandle(st, h, y)
  {
    assert st.handles[h := x][h := y] == st.handles[h := y];
  }

  /** A write places the cursor, writes there, and moves the cursor on. */
  lemma WriteIs<N, H>(st: State<N, H>, h: H, p: seq<byte>, s: State<N, H>, e: Option<Errno>)
    requires Inv(st) && WellFormed(st) && h in st.handles
    requires var x := Placing(st, h);
             WellFormed(SetHandle(st, h, x)) && h in SetHandle(st, h, x).handles
             && (s, e) == WriteAtOffset(SetHandle(st, h, x), h, p, x.pos)
    ensures var x := Placing(st, h);
            Write(st, h, p) == (SetHandle(s, h, x.(pos := if e.None? then x.pos + |p| else x.pos)), e)
    ensures Inv(Write(st, h, p).0)
  {
    hide Inv, WriteAtOffset, SetHandle;
    var x := Placing(st, h);
    WriteKeeps(st, h, p);
    WriteCommutes(st, h, x, p, x.pos);
    SetHandleTwice(WriteAtOffset(st, h, p, x.pos).0, h, x, x.(pos := if e.None? then x.pos + |p| else x.pos));
  }

  lemma WriteKeeps<N, H>(st: State<N, H>, h: H, p: seq<byte>)
    requires Inv(st) && h in st.handles
    ensures Inv(Write(st, h, p).0)
  {
    var x := st.handles[h];
    OpenIsLive(st, h);
    assert GoodHandle(st, h);
    var pos := if x.append then |st.inodes[x.inode].data| else x.pos;
    WriteAtOffsetKeeps(st, h, p, pos);
    SetHandleKeeps(WriteAtOffset(st, h, p, pos).0, h, Write(st, h, p).0.handles[h]);
  }

  lemma SeekKeeps<N, H>(st: State<N, H>, h: H, off: int, whence: Whence)
    requires Inv(st) && h in st.handles
    ensures Inv(Seek(st, h, off, whence).0)
  {
    assert GoodHandle(st, h);
    if Seek(st, h, off, whence).1.Ok? {
      SetHandleKeeps(st, h, Seek(st, h, off, whence).0.handles[h]);
    }
  }

  lemma ResizeKeeps<N, H>(st: State<N, H>, h: H, size: int)
    requires Inv(st) && h in st.handles && !st.handles[h].closed && st.handles[h].writable
    ensures Inv(Resize(st, st.handles[h].inode, size).0)
  {
    TruncateKeeps(st, h, size);
  }

  lemma TruncateKeeps<N, H>(st: State<N, H>, h: H, size: int)
    requires Inv(st) && h in st.handles
    ensures Inv(Truncate(st, h, size).0)
  {
    assert GoodHandle(st, h);
    OpenIsLive(st, h);
    var n := st.handles[h].inode;
    if Truncate(st, h, size).1.None? {
      SetDataKeeps(st, n, Resized(st.inodes[n].data, size));
    }
  }

  lemma SnapshotLong<N, H>(st: State<N, H>, h: H)
    requires Inv(st) && h in st.handles
    ensures match Snapshot(st, h)
            case Ok(es) => 0 <= st.handles[h].dirPos <= |es|
            case Err(_) => true
  {
    assert GoodHandle(st, h);
  }

  lemma ReadDirKeeps<N, H>(st: State<N, H>, h: H, count: int)
    requires Inv(st) && h in st.handles
    ensures Inv(ReadDir(st, h, count).0)
  {
    assert GoodHandle(st, h);
    hide Inv;
    if ReadDir(st, h, count).0 != st {
      SetHandleKeeps(st, h, ReadDir(st, h, count).0.handles[h]);
    }
  }

  /** A new filesystem. */
  ghost function Fresh<N, H>(limit: int, root: N): State<N, H> {
    State(limit, 0, map["." := root], map[root := Inode(true, [], 0, true)], map[])
  }

  lemma FreshKeeps<N, H>(limit: int, root: N)
    requires 0 < limit
    ensures Inv<N, H>(Fresh(limit, root))
  {
    var st: State<N, H> := Fresh(limit, root);
    BytesUpdate(map[], root, Inode(true, [], 0, true));
    assert map[][root := Inode(true, [], 0, true)] == st.inodes;
    assert st.names["."] == root;
    assert OpenOn(st.handles, root) == {};
  }

  /** An inode has at most one name, and no name is empty. */
  lemma OneName<N, H>(st: State<N, H>, name: string)
    requires Inv(st) && name in st.names
    ensures name != "" && forall p :: p in st.names && st.names[p] == st.names[name] ==> p == name
  {
    assert Placed(st, name);
    assert Split("") == [""] && !ValidElement("");
  }

  // ---------------------------------------------------------------------
  // Collecting a directory listing
  // ---------------------------------------------------------------------

  ghost function ChildrenAmong<N, H>(st: State<N, H>, dir: string, seen: set<string>): set<Entry<N>>
    requires WellFormed(st)
  {
    set p | p in seen && IsChild(st.names, dir, p) :: EntryOf(st, p)
  }

  ghost predicate NoRepeat<N>(es: seq<Entry<N>>) {
    forall i, j :: 0 <= i < j < |es| ==> es[i].name != es[j].name
  }

  /** es lists, in some order and once each, the children of dir among seen. */
  ghost predicate Collected<N, H>(st: State<N, H>, dir: string, seen: set<string>, es: seq<Entry<N>>)
    requires WellFormed(st)
  {
    Elements(es) == ChildrenAmong(st, dir, seen) && NoRepeat(es)
  }

  lemma CollectedNone<N, H>(st: State<N, H>, dir: string)
    requires WellFormed(st)
    ensures Collected(st, dir, {}, [])
  {}

  lemma ChildrenGrow<N, H>(st: State<N, H>, dir: string, seen: set<string>, p: string)
    requires WellFormed(st)
    ensures ChildrenAmong(st, dir, seen + {p})
         == ChildrenAmong(st, dir, seen) + (if IsChild(st.names, dir, p) then {EntryOf(st, p)} else {})
  {
    hide EntryOf, WellFormed, Dir;
  }

  /** One more name looked at. */
  lemma CollectOne<N, H>(st: State<N, H>, dir: string, seen: set<string>, es: seq<Entry<N>>, p: string)
    requires WellFormed(st) && IsTree(st) && Collected(st, dir, seen, es) && p in st.names && p !in seen
    ensures Collected(st, dir, seen + {p}, if IsChild(st.names, dir, p) then es + [EntryOf(st, p)] else es)
  {
    hide IsTree, IsChild, EntryOf, ChildrenAmong, NoRepeat, Elements;
    ChildrenGrow(st, dir, seen, p);
    if IsChild(st.names, dir, p) {
      forall d | d in Elements(es) ensures d.name != EntryOf(st, p).name {
        NewName(st, dir, seen, p, d);
      }
      AppendEntry(es, EntryOf(st, p));
    }
  }

  lemma NewName<N, H>(st: State<N, H>, dir: string, seen: set<string>, p: string, d: Entry<N>)
    requires WellFormed(st) && IsTree(st) && p !in seen && IsChild(st.names, dir, p)
    requires d in ChildrenAmong(st, dir, seen)
    ensures d.name != EntryOf(st, p).name
  {
    var q :| q in seen && IsChild(st.names, dir, q) && d == EntryOf(st, q);
    if d.name == EntryOf(st, p).name { SameNameSameChild(st, dir, p, q); }
  }

  lemma AppendEntry<N>(es: seq<Entry<N>>, e: Entry<N>)
    requires NoRepeat(es) && forall d :: d in Elements(es) ==> d.name != e.name
    ensures Elements(es + [e]) == Elements(es) + {e} && NoRepeat(es + [e])
  {
    assert forall i :: 0 <= i < |es| ==> es[i] in Elements(es);
  }

  lemma SameNameSameChild<N, H>(st: State<N, H>, dir: string, p: string, q: string)
    requires WellFormed(st) && IsTree(st) && IsChild(st.names, dir, p) && IsChild(st.names, dir, q)
    requires EntryOf(st, p).name == EntryOf(st, q).name
    ensures p == q
  {
    assert Placed(st, p) && Placed(st, q);
    SameDirBase(p, q);
  }

  lemma CollectedAll<N, H>(st: State<N, H>, dir: string, es: seq<Entry<N>>)
    requires WellFormed(st) && IsTree(st) && Collected(st, dir, st.names.Keys, es)
    ensures DistinctNames(Children(st, dir)) && Sort(es) == Ascending(Children(st, dir))
  {
    ChildrenDistinct(st, dir);
    assert Elements(es) == Children(st, dir);
    SortSorted(es);
    SortedUnique(Sort(es), Ascending(Children(st, dir)));
  }
}
