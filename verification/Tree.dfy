/** The flat map of names as a tree of directory entries, and what renaming does
    to both. */
module Tree {
  import opened Paths
  import opened Listing
  import opened Store

  // ---------------------------------------------------------------------
  // Ancestors
  // ---------------------------------------------------------------------

  lemma PlacedComps<N, H>(st: State<N, H>, p: string)
    requires WellFormed(st) && IsTree(st) && p in st.names
    ensures Valid(p)
    ensures p != "." ==> Dir(p) in st.names && st.inodes[st.names[Dir(p)]].isDir
    ensures p != "." ==> Valid(Dir(p)) && Comps(p) == Comps(Dir(p)) + [Base(p)]
  {
    assert Placed(st, p);
    if p != "." {
      DirBase(p);
      LastAppend(Comps(p));
    }
  }

  /** Every proper ancestor of a name in the map is a directory in the map. */
  lemma {:induction false} AncestorIsDirectory<N, H>(st: State<N, H>, p: string, q: string)
    requires WellFormed(st) && IsTree(st) && p in st.names
    requires Valid(q) && Comps(q) < Comps(p)
    ensures q in st.names && st.inodes[st.names[q]].isDir
    decreases |Comps(p)|
  {
    PlacedComps(st, p);
    var d := Dir(p);
    if Comps(q) == Comps(d) {
      CompsInjective(q, d);
    } else {
      AncestorIsDirectory(st, d, q);
    }
  }

  /** A directory with anything below it has a child. */
  lemma {:induction false} DescendantGivesChild<N, H>(st: State<N, H>, p: string, q: string)
    requires WellFormed(st) && IsTree(st) && p in st.names
    requires Valid(q) && Comps(q) < Comps(p)
    ensures HasChild(st.names, q)
    decreases |Comps(p)|
  {
    PlacedComps(st, p);
    var d := Dir(p);
    if Comps(q) == Comps(d) {
      CompsInjective(q, d);
    } else {
      DescendantGivesChild(st, d, q);
    }
  }

  // ---------------------------------------------------------------------
  // Directory entries: the tree of inodes behind the flat map
  // ---------------------------------------------------------------------

  /** In directory inode `dir`, `name` denotes inode `node`. */
  datatype Dirent<N> = Dirent(dir: N, name: string, node: N)

  ghost function Dirents<N>(names: map<string, N>): set<Dirent<N>> {
    set p | p in names && p != "." && Dir(p) in names :: Dirent(names[Dir(p)], Base(p), names[p])
  }

  ghost function DirentOf<N>(names: map<string, N>, p: string): Dirent<N>
    requires p in names && Dir(p) in names
  {
    Dirent(names[Dir(p)], Base(p), names[p])
  }

  lemma DirentName<N>(names: map<string, N>, e: Dirent<N>) returns (p: string)
    requires e in Dirents(names)
    ensures p in names && p != "." && Dir(p) in names && e == DirentOf(names, p)
  {
    p :| p in names && p != "." && Dir(p) in names && e == Dirent(names[Dir(p)], Base(p), names[p]);
  }

  lemma DirentIn<N>(names: map<string, N>, p: string)
    requires p in names && p != "." && Dir(p) in names
    ensures DirentOf(names, p) in Dirents(names)
  {}

  lemma NotOwnDir(p: string)
    requires Valid(p) && p != "."
    ensures p != Dir(p)
  {
    DirBase(p);
  }

  /** Name resolution in a tree of inodes: one directory entry per component. */
  ghost function Lookup<N>(es: set<Dirent<N>>, dir: N, cs: seq<string>): Option<N> {
    if cs == [] then Some(dir)
    else if exists e :: e in es && e.dir == dir && e.name == cs[0] then
      var e :| e in es && e.dir == dir && e.name == cs[0];
      Lookup(es, e.node, cs[1..])
    else None
  }

  /** What the flat map holds at a list of components. */
  ghost function At<N>(names: map<string, N>, cs: seq<string>): Option<N> {
    if PathOf(cs) in names then Some(names[PathOf(cs)]) else None
  }

  /** A directory entry of directory q comes from the name of that child of q. */
  lemma DirentIsChild<N, H>(st: State<N, H>, q: seq<string>, e: Dirent<N>)
    requires WellFormed(st) && IsTree(st) && At(st.names, q).Some? && ValidElements(q)
    requires e in Dirents(st.names) && e.dir == At(st.names, q).value
    ensures ValidElement(e.name) && At(st.names, q + [e.name]) == Some(e.node)
  {
    var p :| p in st.names && p != "." && Dir(p) in st.names && e == Dirent(st.names[Dir(p)], Base(p), st.names[p]);
    PlacedComps(st, p);
    PathOfComps(p);
    CompsPathOf(q);
    assert Dir(p) == PathOf(q);
    assert ValidElement(Base(p)) by { assert Base(p) in Comps(p); }
  }

  lemma ChildIsDirent<N, H>(st: State<N, H>, q: seq<string>, c: string)
    requires WellFormed(st) && IsTree(st) && ValidElements(q) && ValidElement(c)
    requires At(st.names, q).Some? && At(st.names, q + [c]).Some?
    ensures Dirent(At(st.names, q).value, c, At(st.names, q + [c]).value) in Dirents(st.names)
  {
    var p := PathOf(q + [c]);
    CompsPathOf(q + [c]);
    CompsPathOf(q);
    DirBase(p);
    CompsInjective(Dir(p), PathOf(q));
  }

  /** Looking a name up in the flat map is resolving its components one
      directory entry at a time from the root. */
  lemma LookupIsMap<N, H>(st: State<N, H>, p: string)
    requires WellFormed(st) && IsTree(st) && Valid(p)
    ensures Lookup(Dirents(st.names), st.names["."], Comps(p))
         == if p in st.names then Some(st.names[p]) else None
  {
    PathOfComps(p);
    assert [] + Comps(p) == Comps(p);
    LookupBelow(st, [], Comps(p));
  }

  lemma {:induction false} LookupBelow<N, H>(st: State<N, H>, q: seq<string>, cs: seq<string>)
    requires WellFormed(st) && IsTree(st) && ValidElements(q + cs) && At(st.names, q).Some?
    ensures Lookup(Dirents(st.names), At(st.names, q).value, cs) == At(st.names, q + cs)
    decreases |cs|
  {
    if cs == [] {
      assert q + cs == q;
    } else {
      var d := q + [cs[0]];
      assert d + cs[1..] == q + cs;
      LookupStep(st, q, cs);
      if At(st.names, d).Some? {
        LookupBelow(st, d, cs[1..]);
      } else {
        AbsentBelow(st, d, cs[1..]);
      }
    }
  }

  /** Nothing exists below a name that does not exist. */
  lemma AbsentBelow<N, H>(st: State<N, H>, d: seq<string>, cs: seq<string>)
    requires WellFormed(st) && IsTree(st) && ValidElements(d + cs) && At(st.names, d).None?
    ensures At(st.names, d + cs).None?
  {
    assert ValidElements(d) by { assert forall c :: c in d ==> c in d + cs; }
    CompsPathOf(d);
    CompsPathOf(d + cs);
    if cs == [] {
      assert d + cs == d;
    } else if PathOf(d + cs) in st.names {
      AncestorIsDirectory(st, PathOf(d + cs), PathOf(d));
    }
  }

  lemma LookupStep<N, H>(st: State<N, H>, q: seq<string>, cs: seq<string>)
    requires WellFormed(st) && IsTree(st) && ValidElements(q + cs) && At(st.names, q).Some? && cs != []
    ensures Lookup(Dirents(st.names), At(st.names, q).value, cs)
         == match At(st.names, q + [cs[0]])
            case Some(n) => Lookup(Dirents(st.names), n, cs[1..])
            case None => None
  {
    var es, c, n := Dirents(st.names), cs[0], At(st.names, q).value;
    assert ValidElements(q) by { assert forall d :: d in q ==> d in q + cs; }
    assert ValidElement(c) by { assert c in q + cs; }
    forall e | e in es && e.dir == n && e.name == c ensures At(st.names, q + [c]) == Some(e.node) {
      DirentIsChild(st, q, e);
    }
    if At(st.names, q + [c]).Some? {
      ChildIsDirent(st, q, c);
    }
  }

  // ---------------------------------------------------------------------
  // Creating and removing names as changes of one directory entry
  // ---------------------------------------------------------------------

  /** A new name adds one entry to the tree. */
  lemma CreateAddsEntry<N, H>(st: State<N, H>, name: string, isDir: bool, n: N)
    requires WellFormed(st) && IsTree(st) && Valid(name) && name !in st.names && ParentError(st, name).None?
    ensures Dir(name) in st.names
    ensures Dirents(Create(st, name, isDir, n).names)
         == Dirents(st.names) + {Dirent(st.names[Dir(name)], Base(name), n)}
  {
    hide Valid, Dir, Base;
    var names' := st.names[name := n];
    NotOwnDir(name);
    forall p | p in st.names && p != "."
      ensures Dir(p) in st.names && DirentOf(names', p) == DirentOf(st.names, p)
    {
      assert Placed(st, p);
    }
    forall e | e in Dirents(names') ensures e in Dirents(st.names) + {Dirent(st.names[Dir(name)], Base(name), n)} {
      var p := DirentName(names', e);
      if p != name { DirentIn(st.names, p); }
    }
    forall e | e in Dirents(st.names) ensures e in Dirents(names') {
      var p := DirentName(st.names, e);
      DirentIn(names', p);
    }
    DirentIn(names', name);
  }

  /** A successful removal takes exactly one entry out of the tree. */
  lemma RemoveDropsEntry<N, H>(st: State<N, H>, name: string)
    requires WellFormed(st) && IsTree(st) && Remove(st, name).1.None?
    ensures name in st.names && Dir(name) in st.names
    ensures Dirents(Remove(st, name).0.names) == Dirents(st.names) - {DirentOf(st.names, name)}
  {
    hide Valid, Dir, Base;
    assert Placed(st, name);
    var names' := st.names - {name};
    assert Remove(st, name).0.names == names';
    forall p | p in names' && p != "."
      ensures Dir(p) in names' && DirentOf(names', p) == DirentOf(st.names, p)
      ensures DirentOf(st.names, p) != DirentOf(st.names, name)
    {
      PlacedComps(st, p);
      assert Dir(p) == name ==> HasChild(st.names, name);
    }
    forall e | e in Dirents(names') ensures e in Dirents(st.names) - {DirentOf(st.names, name)} {
      var p := DirentName(names', e);
      DirentIn(st.names, p);
    }
    forall e | e in Dirents(st.names) - {DirentOf(st.names, name)} ensures e in Dirents(names') {
      var p := DirentName(st.names, e);
      DirentIn(names', p);
    }
  }
}
