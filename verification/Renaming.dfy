/** Renaming on the flat map is a subtree move: one directory entry is taken
    out, one is put in, and nothing else in the tree changes. */
module Renaming {
  import opened Paths
  import opened Listing
  import opened Store
  import opened Tree

  /** q's name before the move of src to dst. */
  ghost function Before(src: string, dst: string, q: string): string
    requires Within(q, dst)
  {
    src + q[|dst|..]
  }

  lemma BeforeWithin(src: string, dst: string, q: string)
    requires Within(q, dst)
    ensures Within(Before(src, dst, q), src)
    ensures dst + Before(src, dst, q)[|src|..] == q
    ensures q == dst <==> Before(src, dst, q) == src
  {
    var t := q[|dst|..];
    assert dst + t == q;
    assert (src + t)[|src|..] == t;
    if q != dst {
      assert t[0] == (dst + "/")[|dst|];
      assert src + "/" == (src + t)[..|src| + 1];
    }
  }

  lemma AfterWithin(src: string, dst: string, p: string)
    requires Within(p, src)
    ensures Within(dst + p[|src|..], dst) && Before(src, dst, dst + p[|src|..]) == p
  {
    BeforeWithin(dst, src, p);
  }

  lemma MovedAt<N>(names: map<string, N>, src: string, dst: string, q: string)
    ensures q in Moved(names, src, dst) <==> Within(q, dst) && Before(src, dst, q) in names
    ensures q in Moved(names, src, dst) ==> Moved(names, src, dst)[q] == names[Before(src, dst, q)]
  {
    if Within(q, dst) { BeforeWithin(src, dst, q); }
    if q in Moved(names, src, dst) {
      var p :| p in names && Within(p, src) && q == dst + p[|src|..];
      AfterWithin(src, dst, p);
    }
  }

  lemma MovedNothing<N>(src: string, dst: string)
    ensures Moved<N>(map[], src, dst) == map[]
  {}

  /** One more name taken into account. */
  lemma MovedExtend<N>(a: map<string, N>, b: map<string, N>, src: string, dst: string, p: string)
    requires p !in a && p in b && a == b - {p}
    ensures Within(p, src) ==> Moved(b, src, dst) == Moved(a, src, dst)[dst + p[|src|..] := b[p]]
    ensures !Within(p, src) ==> Moved(b, src, dst) == Moved(a, src, dst)
  {
    forall q ensures q in Moved(b, src, dst) <==>
                       q in Moved(a, src, dst) || (Within(p, src) && q == dst + p[|src|..])
    {
      MovedAt(a, src, dst, q);
      MovedAt(b, src, dst, q);
      if Within(q, dst) { BeforeWithin(src, dst, q); }
      if Within(p, src) { AfterWithin(src, dst, p); }
    }
    forall q | q in Moved(b, src, dst)
      ensures Moved(b, src, dst)[q] == if Within(p, src) && q == dst + p[|src|..] then b[p] else Moved(a, src, dst)[q]
    {
      MovedAt(a, src, dst, q);
      MovedAt(b, src, dst, q);
      if Within(q, dst) { BeforeWithin(src, dst, q); }
      if Within(p, src) { AfterWithin(src, dst, p); }
    }
    if Within(p, src) { AfterWithin(src, dst, p); }
  }

  /** What the renamed map holds at q. */
  lemma RenamedAt<N>(names: map<string, N>, src: string, dst: string, q: string)
    ensures Within(q, dst) && Before(src, dst, q) in names ==>
              q in Renamed(names, src, dst) && Renamed(names, src, dst)[q] == names[Before(src, dst, q)]
    ensures !(Within(q, dst) && Before(src, dst, q) in names) ==>
              (q in Renamed(names, src, dst) <==> q in names && !Within(q, src))
    ensures !(Within(q, dst) && Before(src, dst, q) in names) && q in names && !Within(q, src) ==>
              Renamed(names, src, dst)[q] == names[q]
  {
    if Within(q, dst) && Before(src, dst, q) in names {
      BeforeWithin(src, dst, q);
      var p := Before(src, dst, q);
      assert q == dst + p[|src|..];
      assert q in Moved(names, src, dst);
    } else if q in Moved(names, src, dst) {
      var p :| p in names && Within(p, src) && q == dst + p[|src|..];
      AfterWithin(src, dst, p);
    }
  }

  /** The conditions under which the rename of src to dst takes place. */
  ghost predicate Moves<N, H>(st: State<N, H>, src: string, dst: string) {
    WellFormed(st) && src != dst && Rename(st, src, dst).1.None?
  }

  /** What holds whenever src can move to dst: dst and its directory are outside
      the moved subtree, and nothing exists below dst. */
  ghost predicate Movable<N, H>(st: State<N, H>, src: string, dst: string) {
    && WellFormed(st) && IsTree(st)
    && Valid(src) && src in st.names && src != "." && Valid(dst) && dst != "."
    && !Within(dst, src) && !Within(Dir(dst), src) && !Within(Dir(dst), dst)
    && Dir(dst) in st.names && st.inodes[st.names[Dir(dst)]].isDir
    && forall p {:trigger Within(p, dst)} :: p in st.names && Within(p, dst) ==> p == dst
  }

  /** The state after a rename that takes place. */
  lemma MovesResult<N, H>(st: State<N, H>, src: string, dst: string)
    requires Moves(st, src, dst)
    ensures src in st.names
    ensures dst !in st.names ==> Rename(st, src, dst).0 == st.(names := Renamed(st.names, src, dst))
    ensures dst in st.names ==>
              Rename(st, src, dst).0 == Unlink(st, st.names[dst]).(names := Renamed(st.names, src, dst))
    ensures Rename(st, src, dst).0.names == Renamed(st.names, src, dst)
  {}

  /** What a rename that takes place has found out. */
  lemma MovesMeans<N, H>(st: State<N, H>, src: string, dst: string)
    requires Moves(st, src, dst)
    ensures Valid(src) && src in st.names && src != "." && Valid(dst) && dst != "." && !Within(dst, src)
    ensures Valid(Dir(dst)) && Dir(dst) in st.names && st.inodes[st.names[Dir(dst)]].isDir
    ensures dst in st.names && st.inodes[st.names[dst]].isDir ==> !HasChild(st.names, dst)
  {
    hide Valid, Dir, Renamed, Unlink, HasChild;
  }

  /** Below a name that is no directory, or an empty one, there is nothing. */
  lemma NothingBelow<N, H>(st: State<N, H>, dst: string, p: string)
    requires WellFormed(st) && IsTree(st) && Valid(dst) && dst != "."
    requires dst in st.names && st.inodes[st.names[dst]].isDir ==> !HasChild(st.names, dst)
    requires p in st.names && Within(p, dst)
    ensures p == dst
  {
    hide IsTree, Valid, HasChild, Comps;
    PlacedComps(st, p);
    if p != dst {
      Beneath(p, dst);
      AncestorIsDirectory(st, p, dst);
      DescendantGivesChild(st, p, dst);
    }
  }

  lemma MovesMovable<N, H>(st: State<N, H>, src: string, dst: string)
    requires WellFormed(st) && IsTree(st) && Moves(st, src, dst)
    ensures Movable(st, src, dst)
  {
    MovesMeans(st, src, dst);
    hide IsTree, Moves, Valid, HasChild, Comps, Dir, Within, WellFormed;
    DirBase(dst);
    if Within(Dir(dst), src) {
      DirNotRoot(dst, src);
      WithinComps(Dir(dst), src);
      WithinComps(dst, src);
    }
    if Within(Dir(dst), dst) {
      DirNotRoot(dst, dst);
      WithinComps(Dir(dst), dst);
    }
    forall p {:trigger Within(p, dst)} | p in st.names && Within(p, dst) ensures p == dst {
      NothingBelow(st, dst, p);
    }
  }

  lemma DirNotRoot(p: string, q: string)
    requires Valid(p) && p != "." && Valid(q) && q != "." && Within(Dir(p), q)
    ensures Dir(p) != "."
  {
    DirBase(p);
    if Dir(p) == "." { WithinComps(Dir(p), q); }
  }

  /** Where an unmoved name sits after the rename. */
  lemma StaysPut<N, H>(st: State<N, H>, src: string, dst: string, q: string)
    requires Movable(st, src, dst)
    requires q in st.names && !Within(q, src) && q != dst
    ensures q in Renamed(st.names, src, dst) && Renamed(st.names, src, dst)[q] == st.names[q]
  {
    assert !Within(q, dst);
    RenamedAt(st.names, src, dst, q);
  }

  /** A name that exists after the rename is src's subtree moved, or unmoved. */
  lemma AfterRename<N, H>(st: State<N, H>, src: string, dst: string, q: string)
    requires Movable(st, src, dst)
    requires q in Renamed(st.names, src, dst)
    ensures Within(q, dst) ==>
              Before(src, dst, q) in st.names && Renamed(st.names, src, dst)[q] == st.names[Before(src, dst, q)]
    ensures !Within(q, dst) ==>
              q in st.names && !Within(q, src) && Renamed(st.names, src, dst)[q] == st.names[q]
  {
    RenamedAt(st.names, src, dst, q);
    if Within(q, dst) && Before(src, dst, q) !in st.names {
      assert q == dst;
      BeforeWithin(src, dst, q);
    }
  }

  /** Moving a name keeps its last component and moves its directory along. */
  lemma ShiftWithin(src: string, dst: string, q: string)
    requires Valid(src) && src != "." && Valid(dst) && dst != "."
    requires Within(q, dst) && q != dst && Valid(Before(src, dst, q))
    ensures Valid(q) && q != "." && Before(src, dst, q) != "."
    ensures Base(q) == Base(Before(src, dst, q))
    ensures Within(Dir(q), dst) && Before(src, dst, Dir(q)) == Dir(Before(src, dst, q))
  {
    var r := q[|dst|..];
    assert q == dst + r;
    assert r[0] == (dst + "/")[|dst|];
    Shift(src, dst, r);
    WithinPrefix(dst, Up(r));
  }

  lemma WithinPrefix(a: string, u: string)
    requires u == "" || "/" <= u
    ensures Within(a + u, a) && (a + u)[|a|..] == u
  {
    if u == "" { assert a + u == a; } else { assert (a + u)[..|a| + 1] == a + "/"; }
  }

  /** The directory and last component of a name in the moved subtree. */
  lemma MovedPlace<N, H>(st: State<N, H>, src: string, dst: string, q: string)
    requires Movable(st, src, dst)
    requires q in Renamed(st.names, src, dst) && Within(q, dst) && q != dst
    ensures Valid(q) && q != "." && Before(src, dst, q) != "." && Base(q) == Base(Before(src, dst, q))
    ensures Dir(Before(src, dst, q)) in st.names && Dir(q) in Renamed(st.names, src, dst)
    ensures Renamed(st.names, src, dst)[Dir(q)] == st.names[Dir(Before(src, dst, q))]
  {
    AfterRename(st, src, dst, q);
    PlacedComps(st, Before(src, dst, q));
    ShiftWithin(src, dst, q);
    RenamedAt(st.names, src, dst, Dir(q));
  }

  lemma RenamedPlaced<N, H>(st: State<N, H>, src: string, dst: string, q: string)
    requires Movable(st, src, dst)
    requires q in Renamed(st.names, src, dst)
    ensures Valid(q)
    ensures q != "." ==> Dir(q) in Renamed(st.names, src, dst)
    ensures q != "." ==> Renamed(st.names, src, dst)[Dir(q)] in st.inodes
    ensures q != "." ==> st.inodes[Renamed(st.names, src, dst)[Dir(q)]].isDir
  {
    AfterRename(st, src, dst, q);
    if q == dst {
      StaysPut(st, src, dst, Dir(dst));
    } else if Within(q, dst) {
      MovedPlace(st, src, dst, q);
      PlacedComps(st, Before(src, dst, q));
    } else {
      PlacedComps(st, q);
      if q != "." { UnmovedDir(st, src, dst, q); }
    }
  }

  lemma UnmovedDir<N, H>(st: State<N, H>, src: string, dst: string, q: string)
    requires Movable(st, src, dst)
    requires q in st.names && q != "." && !Within(q, src) && !Within(q, dst)
    ensures Dir(q) in st.names
    ensures Dir(q) in Renamed(st.names, src, dst) && Renamed(st.names, src, dst)[Dir(q)] == st.names[Dir(q)]
  {
    PlacedComps(st, q);
    NotWithinDir(q, src);
    NotWithinDir(q, dst);
    assert Within(dst, dst);
    StaysPut(st, src, dst, Dir(q));
  }

  lemma NotWithinDir(q: string, a: string)
    requires Valid(q) && q != "." && Valid(a) && a != "." && !Within(q, a)
    ensures !Within(Dir(q), a)
  {
    DirBase(q);
    WithinComps(q, a);
    WithinComps(Dir(q), a);
  }

  /** Distinct names keep distinct inodes. */
  lemma RenamedInjective<N, H>(st: State<N, H>, src: string, dst: string, q: string, q': string)
    requires Movable(st, src, dst)
    requires q in Renamed(st.names, src, dst) && q' in Renamed(st.names, src, dst)
    requires Renamed(st.names, src, dst)[q] == Renamed(st.names, src, dst)[q']
    ensures q == q'
  {
    AfterRename(st, src, dst, q);
    AfterRename(st, src, dst, q');
    if Within(q, dst) { BeforeWithin(src, dst, q); }
    if Within(q', dst) { BeforeWithin(src, dst, q'); }
  }

  // ---------------------------------------------------------------------
  // Renaming as a change of two directory entries
  // ---------------------------------------------------------------------

  /** The textbook rename on directory entries: the source entry and any entry
      at the destination go, and the destination entry appears. */
  ghost function Relink<N>(es: set<Dirent<N>>, source: Dirent<N>, target: Dirent<N>): set<Dirent<N>> {
    (set e | e in es && e != source && !(e.dir == target.dir && e.name == target.name)) + {target}
  }

  /** The entry of an unmoved name survives. */
  lemma UnmovedDirent<N, H>(st: State<N, H>, src: string, dst: string, q: string)
    requires Movable(st, src, dst)
    requires q in st.names && q != "." && !Within(q, src) && !Within(q, dst)
    ensures Dir(q) in st.names && Dir(q) in Renamed(st.names, src, dst) && q in Renamed(st.names, src, dst)
    ensures DirentOf(Renamed(st.names, src, dst), q) == DirentOf(st.names, q)
    ensures DirentOf(st.names, q).node != st.names[src]
    ensures DirentOf(st.names, q).dir == st.names[Dir(dst)] ==> Base(q) != Base(dst)
  {
    assert Within(dst, dst);
    UnmovedDir(st, src, dst, q);
    StaysPut(st, src, dst, q);
    PlacedComps(st, q);
    if DirentOf(st.names, q).dir == st.names[Dir(dst)] && Base(q) == Base(dst) {
      NotOwnDir(q);
      NotOwnDir(dst);
      SameDirBase(q, dst);
    }
  }

  /** The entry of a name strictly inside the moved subtree is the same entry. */
  lemma MovedDirent<N, H>(st: State<N, H>, src: string, dst: string, q: string)
    requires Movable(st, src, dst)
    requires q in Renamed(st.names, src, dst) && Within(q, dst) && q != dst
    ensures Before(src, dst, q) in st.names && Before(src, dst, q) != "." && q != "."
    ensures Dir(Before(src, dst, q)) in st.names && Dir(q) in Renamed(st.names, src, dst)
    ensures DirentOf(Renamed(st.names, src, dst), q) == DirentOf(st.names, Before(src, dst, q))
    ensures DirentOf(st.names, Before(src, dst, q)).node != st.names[src]
    ensures DirentOf(st.names, Before(src, dst, q)).dir != st.names[Dir(dst)]
  {
    var p := Before(src, dst, q);
    AfterRename(st, src, dst, q);
    MovedPlace(st, src, dst, q);
    BeforeWithin(src, dst, q);
    assert p != src;
    PlacedComps(st, p);
    ShiftWithin(src, dst, q);
    BeforeWithin(src, dst, Dir(q));
    assert Within(Dir(p), src);
  }

  lemma RelinkOnto<N, H>(st: State<N, H>, src: string, dst: string, q: string)
    requires Movable(st, src, dst) && Dir(src) in st.names
    requires q in Renamed(st.names, src, dst) && q != "." && Dir(q) in Renamed(st.names, src, dst)
    ensures DirentOf(Renamed(st.names, src, dst), q) in
            Relink(Dirents(st.names), DirentOf(st.names, src), Dirent(st.names[Dir(dst)], Base(dst), st.names[src]))
  {
    hide Renamed, Dirents, Movable, Dir, Base, Valid;
    MovableFacts(st, src, dst);
    AfterRename(st, src, dst, q);
    if q == dst {
      BeforeWithin(src, dst, dst);
      StaysPut(st, src, dst, Dir(dst));
    } else if Within(q, dst) {
      MovedDirent(st, src, dst, q);
      DirentIn(st.names, Before(src, dst, q));
    } else {
      UnmovedDirent(st, src, dst, q);
      DirentIn(st.names, q);
    }
  }

  lemma MovableFacts<N, H>(st: State<N, H>, src: string, dst: string)
    requires Movable(st, src, dst)
    ensures src in st.names && Dir(dst) in st.names && WellFormed(st)
    ensures !Within(Dir(dst), src) && Dir(dst) != dst && src != "." && dst != "."
  {}

  lemma RelinkInto<N, H>(st: State<N, H>, src: string, dst: string, e: Dirent<N>)
    requires Movable(st, src, dst) && Dir(src) in st.names
    requires e in Relink(Dirents(st.names), DirentOf(st.names, src), Dirent(st.names[Dir(dst)], Base(dst),
        st.names[src]))
    ensures e in Dirents(Renamed(st.names, src, dst))
  {
    var names' := Renamed(st.names, src, dst);
    if e == Dirent(st.names[Dir(dst)], Base(dst), st.names[src]) {
      BeforeWithin(src, dst, dst);
      RenamedAt(st.names, src, dst, dst);
      StaysPut(st, src, dst, Dir(dst));
    } else {
      var p := DirentName(st.names, e);
      if Within(p, src) {
        AfterWithin(src, dst, p);
        var q := dst + p[|src|..];
        RenamedAt(st.names, src, dst, q);
        BeforeWithin(src, dst, q);
        MovedDirent(st, src, dst, q);
      } else {
        assert p != dst;
        UnmovedDirent(st, src, dst, p);
      }
    }
  }

  /** A successful rename takes one entry out of the tree and puts one in; the
      entries inside the moved directory, and all others, are untouched. */
  lemma RenameIsRelink<N, H>(st: State<N, H>, src: string, dst: string)
    requires WellFormed(st) && IsTree(st) && Moves(st, src, dst)
    ensures Dir(src) in st.names && Dir(dst) in st.names
    ensures Dirents(Rename(st, src, dst).0.names)
         == Relink(Dirents(st.names), DirentOf(st.names, src), Dirent(st.names[Dir(dst)], Base(dst), st.names[src]))
  {
    MovesMovable(st, src, dst);
    MovableFacts(st, src, dst);
    PlacedComps(st, src);
    MovesResult(st, src, dst);
    hide Renamed, Relink, Dirents, Movable, Moves, Rename, IsTree, Valid, Comps, Dir, Base, DirentOf, WellFormed;
    hide Within;
    var target := Dirent(st.names[Dir(dst)], Base(dst), st.names[src]);
    var left, right := Dirents(Renamed(st.names, src, dst)), Relink(Dirents(st.names), DirentOf(st.names, src), target);
    forall e | e in left ensures e in right {
      var q := DirentName(Renamed(st.names, src, dst), e);
      RelinkOnto(st, src, dst, q);
    }
    forall e | e in right ensures e in left { RelinkInto(st, src, dst, e); }
  }

  /** Every name at or below src reappears below dst with the same inode, every
      other name except dst is untouched, and there are no further names. */
  lemma RenameMovesSubtree<N, H>(st: State<N, H>, src: string, dst: string)
    requires WellFormed(st) && IsTree(st) && Moves(st, src, dst)
    ensures var names' := Rename(st, src, dst).0.names;
      && (forall p :: p in st.names && Within(p, src) ==>
            dst + p[|src|..] in names' && names'[dst + p[|src|..]] == st.names[p])
      && (forall p :: p in st.names && !Within(p, src) && p != dst ==>
            p in names' && names'[p] == st.names[p])
      && (forall q :: q in names' ==>
            if Within(q, dst) then src + q[|dst|..] in st.names else q in st.names && !Within(q, src))
  {
    MovesMovable(st, src, dst);
    MovesResult(st, src, dst);
    forall p | p in st.names && Within(p, src)
      ensures dst + p[|src|..] in Renamed(st.names, src, dst)
      ensures Renamed(st.names, src, dst)[dst + p[|src|..]] == st.names[p]
    {
      AfterWithin(src, dst, p);
      RenamedAt(st.names, src, dst, dst + p[|src|..]);
    }
    forall p | p in st.names && !Within(p, src) && p != dst
      ensures p in Renamed(st.names, src, dst) && Renamed(st.names, src, dst)[p] == st.names[p]
    {
      StaysPut(st, src, dst, p);
    }
    forall q | q in Renamed(st.names, src, dst)
      ensures if Within(q, dst) then src + q[|dst|..] in st.names else q in st.names && !Within(q, src)
    {
      AfterRename(st, src, dst, q);
    }
  }

  lemma MoveBackNames<N, H>(st: State<N, H>, src: string, dst: string)
    requires Movable(st, src, dst) && dst !in st.names
    ensures Renamed(Renamed(st.names, src, dst), dst, src) == st.names
  {
    var names' := Renamed(st.names, src, dst);
    var names'' := Renamed(names', dst, src);
    forall p | p in st.names ensures p in names'' && names''[p] == st.names[p] {
      RenamedAt(names', dst, src, p);
      if Within(p, src) {
        AfterWithin(src, dst, p);
        RenamedAt(st.names, src, dst, dst + p[|src|..]);
      } else {
        StaysPut(st, src, dst, p);
        assert !Within(p, dst);
      }
    }
    forall p | p in names'' ensures p in st.names {
      RenamedAt(names', dst, src, p);
      if Within(p, src) && Before(dst, src, p) in names' {
        BeforeWithin(dst, src, p);
        AfterRename(st, src, dst, Before(dst, src, p));
      } else {
        AfterRename(st, src, dst, p);
      }
    }
  }

  lemma MoveBackAllowed<N, H>(st: State<N, H>, src: string, dst: string)
    requires Movable(st, src, dst) && dst !in st.names
    ensures var st' := st.(names := Renamed(st.names, src, dst)); WellFormed(st') && Moves(st', dst, src)
  {
    var st' := st.(names := Renamed(st.names, src, dst));
    forall q | q in st'.names ensures st'.names[q] in st'.inodes { AfterRename(st, src, dst, q); }
    hide Renamed, Dir, Valid;
    BeforeWithin(src, dst, dst);
    RenamedAt(st.names, src, dst, dst);
    assert !Within(src, dst);
    PlacedComps(st, src);
    DirOutside(src);
    assert !Within(Dir(src), dst);
    StaysPut(st, src, dst, Dir(src));
    SrcGone(st, src, dst);
    assert ParentError(st', src).None?;
  }

  lemma DirOutside(p: string)
    requires Valid(p) && p != "."
    ensures !Within(Dir(p), p)
  {
    DirBase(p);
    WithinComps(Dir(p), p);
  }

  /** Moving to a free name and back restores the filesystem. */
  lemma RenameBack<N, H>(st: State<N, H>, src: string, dst: string)
    requires WellFormed(st) && IsTree(st) && Moves(st, src, dst) && dst !in st.names
    ensures var st' := Rename(st, src, dst).0; WellFormed(st') && Rename(st', dst, src) == (st, None)
  {
    MovesMovable(st, src, dst);
    MovesResult(st, src, dst);
    MoveBackAllowed(st, src, dst);
    MoveBackNames(st, src, dst);
    var st' := st.(names := Renamed(st.names, src, dst));
    PlacedComps(st, src);
    RenamedAt(st.names, src, dst, src);
    MovesResult(st', dst, src);
    SrcGone(st, src, dst);
  }

  lemma SrcGone<N, H>(st: State<N, H>, src: string, dst: string)
    requires Movable(st, src, dst)
    ensures src !in Renamed(st.names, src, dst)
  {
    assert !Within(src, dst);
    if src in Renamed(st.names, src, dst) { AfterRename(st, src, dst, src); }
  }
}
