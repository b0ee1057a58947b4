/** The in-memory filesystem as objects: a map from names to inodes, updated in
    place, and file handles that refer to inodes directly.  Each method is proved
    against the function of the same name in module Store. */
module Memory {
  import opened Paths
  import opened Listing
  import opened Store
  import opened Invariant
  import opened Renaming

  newtype int64 = x: int | -0x8000_0000_0000_0000 <= x < 0x8000_0000_0000_0000

  const MAX_INT64: int := 0x7fff_ffff_ffff_ffff
  const DEFAULT_LIMIT: int64 := 0x400_0000

  class Node {
    const isDir: bool
    var data: seq<byte>
    var refs: int
    var linked: bool

    constructor (isDir: bool)
      ensures this.isDir == isDir && data == [] && refs == 0 && linked
    {
      this.isDir, data, refs, linked := isDir, [], 0, true;
    }

    ghost function View(): Inode
      reads this
    {
      Inode(isDir, data, refs, linked)
    }
  }

  class MemoryFS {
    var nodes: map<string, Node>
    const limit: int64
    var used: int64
    ghost var inodes: set<Node>
    ghost var handles: set<MemoryFile>

    /** The objects a filesystem consists of. */
    ghost function Repr(): set<object>
      reads this
    {
      {this} + inodes + handles
    }

    ghost function Abs(): State<Node?, MemoryFile?>
      reads this, inodes, handles
    {
      State(limit as int, used as int, nodes,
            map n: Node? | n in inodes :: n.View(), map h: MemoryFile? | h in handles :: h.View())
    }

    ghost predicate Valid()
      reads this, inodes, handles
    {
      Wired() && Inv(Abs())
    }

    ghost predicate Wired()
      reads this, inodes, handles
    {
      forall h :: h in handles ==> h.m == this && h.n in inodes
    }

    /** An empty filesystem; a nonpositive limit means the default. */
    constructor (maxBytes: int64)
      ensures Valid() && fresh(inodes) && fresh(handles)
      ensures "." in nodes
      ensures var limit := if maxBytes <= 0 then DEFAULT_LIMIT else maxBytes;
              Abs() == Fresh<Node?, MemoryFile?>(limit as int, nodes["."])
    {
      var root := new Node(true);
      limit := if maxBytes <= 0 then DEFAULT_LIMIT else maxBytes;
      nodes := map["." := root];
      used := 0;
      inodes := {root};
      handles := {};
      new;
      FreshKeeps<Node?, MemoryFile?>(limit as int, root);
      assert Abs() == Fresh<Node?, MemoryFile?>(limit as int, root);
    }

    /** Whether the name denotes a directory, or why it denotes nothing. */
    function Stat(name: string): Result<bool>
      reads this
    {
      if !Paths.Valid(name) then Err(Invalid)
      else if name !in nodes then Err(NotExist)
      else Ok(nodes[name].isDir)
    }

    method Parent(name: string) returns (e: Option<Errno>)
      requires Valid()
      ensures e == ParentError(Abs(), name)
    {
      var d := Dir(name);
      if !Paths.Valid(d) { return Some(Invalid); }
      if d !in nodes { return Some(NotExist); }
      if !nodes[d].isDir { return Some(NotDirectory); }
      return None;
    }

    /** A new inode under a free name. */
    method AddNode(name: string, isDir: bool) returns (node: Node)
      requires Valid() && Paths.Valid(name) && name !in nodes
      requires ParentError(Abs(), name).None? && |nodes| < MAX_NODES
      modifies this`nodes, this`inodes
      ensures Valid() && fresh(node) && inodes == old(inodes) + {node} && handles == old(handles)
      ensures Abs() == Create(old(Abs()), name, isDir, node)
    {
      hide Store.Inv, MemoryFS.Abs, MemoryFS.Wired;
      ghost var before := Abs();
      Fields();
      node := new Node(isDir);
      nodes := nodes[name := node];
      inodes := inodes + {node};
      InodeAdded(node);
      CreateKeeps(before, name, isDir, node);
    }

    method OpenFile(name: string, flag: Flags)
        returns (r: Result<MemoryFile>, ghost n: Node?, ghost h: MemoryFile?)
      requires Valid()
      modifies this, inodes
      ensures Valid()
      ensures (Abs(), r) == Store.OpenFile(old(Abs()), name, flag, n, h)
      ensures n == null || fresh(n)
      ensures inodes == old(inodes) || (n != null && inodes == old(inodes) + {n})
      ensures h == null || fresh(h)
      ensures if r.Ok? then h == r.value && handles == old(handles) + {r.value} else handles == old(handles)
    {
      hide Store.Inv, MemoryFS.Abs, MemoryFS.Wired;
      n, h := null, null;
      Fields();
      if !Paths.Valid(name) { return Err(Invalid), n, h; }
      var node: Node;
      if name !in nodes {
        if !flag.create { return Err(NotExist), n, h; }
        var e := Parent(name);
        if e.Some? { return Err(e.value), n, h; }
        if |nodes| >= MAX_NODES { return Err(NoSpace), n, h; }
        node := AddNode(name, false);
        n := node;
        Fields();
      } else {
        if flag.create && flag.excl { return Err(Exists), n, h; }
        node := nodes[name];
        NameFits(Abs(), name);
      }
      r, h := OpenNode(node, flag);
    }

    /** The abstract state, component by component. */
    lemma Fields()
      ensures Abs().limit == limit as int && Abs().used == used as int && Abs().names == nodes
      ensures Abs().inodes.Keys == inodes && forall n :: n in inodes ==> Abs().inodes[n] == n.View()
      ensures Abs().handles.Keys == handles && forall h :: h in handles ==> Abs().handles[h] == h.View()
    {}

    lemma NodeKnown(name: string)
      requires Valid() && name in nodes
      ensures nodes[name] in inodes && Abs().inodes[nodes[name]].isDir == nodes[name].isDir
    {
      NameFits(Abs(), name);
    }

    /** The abstract state after the map of names changed. */
    twostate lemma NamesChanged()
      requires inodes == old(inodes) && handles == old(handles) && used == old(used)
      requires forall k :: k in inodes ==> k.View() == old(k.View())
      requires forall h :: h in handles ==> h.View() == old(h.View())
      ensures Abs() == old(Abs()).(names := nodes)
      ensures old(Wired()) ==> Wired()
    {}

    /** The abstract state after an inode was added. */
    twostate lemma InodeAdded(new node: Node)
      requires node !in old(inodes) && inodes == old(inodes) + {node} && handles == old(handles)
      requires forall k :: k in old(inodes) ==> k.View() == old(k.View())
      requires forall h :: h in handles ==> h.View() == old(h.View())
      ensures Abs() == old(Abs()).(used := used as int, names := nodes,
                                   inodes := old(Abs()).inodes[node := node.View()])
      ensures old(Wired()) ==> Wired()
    {}

    /** The abstract state after one inode changed. */
    twostate lemma InodeChanged(node: Node)
      requires node in old(inodes) && inodes == old(inodes) && handles == old(handles) && nodes == old(nodes)
      requires forall k :: k in inodes && k != node ==> k.View() == old(k.View())
      requires forall h :: h in handles ==> h.View() == old(h.View())
      ensures Abs() == old(Abs()).(used := used as int, inodes := old(Abs()).inodes[node := node.View()])
      ensures old(Wired()) ==> Wired()
    {}

    /** The abstract state after a handle was added or changed. */
    twostate lemma HandleChanged(new f: MemoryFile)
      requires f in handles && inodes == old(inodes) && handles == old(handles) + {f}
      requires forall k :: k in inodes ==> k.View() == old(k.View())
      requires forall h :: h in old(handles) && h != f ==> h.View() == old(h.View())
      ensures Abs() == old(Abs()).(used := used as int, names := nodes,
                                   handles := old(Abs()).handles[f := f.View()])
      ensures used == old(used) && nodes == old(nodes) ==> Abs() == SetHandle(old(Abs()), f, f.View())
      ensures old(Wired()) && f.m == this && f.n in inodes ==> Wired()
    {}

    /** A new handle on node. */
    method Attach(node: Node, flag: Flags) returns (f: MemoryFile)
      requires Valid() && node in inodes && Live(node.View())
      requires flag.Writable() ==> !node.isDir
      modifies this`handles, node
      ensures Valid() && inodes == old(inodes) && fresh(f) && handles == old(handles) + {f}
      ensures Abs() == AddHandle(old(Abs()), f, NewHandle(node, flag))
    {
      hide Store.Inv, MemoryFS.Abs, MemoryFS.Wired;
      ghost var before := Abs();
      Fields();
      node.refs := node.refs + 1;
      InodeChanged(node);
      label Counted:
      f := new MemoryFile(this, node, flag.Readable(), flag.Writable(), flag.append);
      handles := handles + {f};
      HandleChanged@Counted(f);
      AttachKeeps(before, node, flag, f, Abs());
    }

    method OpenNode(node: Node, flag: Flags) returns (r: Result<MemoryFile>, ghost h: MemoryFile?)
      requires Valid() && node in inodes && node.linked
      modifies this, node
      ensures Valid() && inodes == old(inodes)
      ensures (Abs(), r) == OpenInode(old(Abs()), node, flag, h)
      ensures h == null || fresh(h)
      ensures if r.Ok? then h == r.value && handles == old(handles) + {r.value} else handles == old(handles)
    {
      hide Store.Inv, MemoryFS.Abs, MemoryFS.Wired;
      h := null;
      Fields();
      var writable := flag.Writable();
      if node.isDir && (writable || flag.trunc) { return Err(IsDirectory), h; }
      if flag.trunc {
        if !writable { return Err(Permission), h; }
        InodeFits(Abs(), node);
        SetDataKeeps(Abs(), node, []);
        used := used - |node.data| as int64;
        node.data := [];
        InodeChanged(node);
      }
      var f := Attach(node, flag);
      r, h := Ok(f), f;
    }

    method Mkdir(name: string) returns (e: Option<Errno>, ghost n: Node?)
      requires Valid()
      modifies this`nodes, this`inodes
      ensures Valid()
      ensures (Abs(), e) == Store.Mkdir(old(Abs()), name, n)
      ensures handles == old(handles)
      ensures n == null || fresh(n)
      ensures if e.None? then n != null && inodes == old(inodes) + {n} else inodes == old(inodes)
    {
      hide Store.Inv, MemoryFS.Abs, MemoryFS.Wired;
      n := null;
      Fields();
      if !Paths.Valid(name) { return Some(Invalid), n; }
      if name in nodes { return Some(Exists), n; }
      var pe := Parent(name);
      if pe.Some? { return pe, n; }
      if |nodes| >= MAX_NODES { return Some(NoSpace), n; }
      n := AddNode(name, true);
      e := None;
    }

    /** Whether some name has `name` as its directory part. */
    method AnyChild(name: string) returns (b: bool)
      ensures b == HasChild<Node?>(nodes, name)
    {
      var todo := nodes.Keys;
      while todo != {}
        invariant todo <= nodes.Keys
        invariant forall p :: p in nodes && p !in todo ==> Dir(p) != name
        decreases todo
      {
        var p :| p in todo;
        if Dir(p) == name { return true; }
        todo := todo - {p};
      }
      return false;
    }

    /** The inode loses its name; without open handles it loses its bytes too. */
    method Unlink(node: Node)
      requires Wired() && node in inodes && |node.data| <= used as int
      modifies node, this`used
      ensures Wired() && Abs() == Store.Unlink(old(Abs()), node)
      ensures node.refs == old(node.refs)
    {
      hide MemoryFS.Abs, MemoryFS.Wired;
      ghost var before := Abs();
      Fields();
      node.linked := false;
      if node.refs == 0 {
        used := used - |node.data| as int64;
        node.data := [];
      }
      InodeChanged(node);
      UnlinkResult(before, node, node.View());
    }

    method Remove(name: string) returns (e: Option<Errno>)
      requires Valid()
      modifies this, inodes
      ensures Valid() && inodes == old(inodes) && handles == old(handles)
      ensures (Abs(), e) == Store.Remove(old(Abs()), name)
    {
      hide Store.Inv, MemoryFS.Abs, MemoryFS.Wired;
      ghost var before := Abs();
      Fields();
      if !Paths.Valid(name) { return Some(Invalid); }
      if name !in nodes { return Some(NotExist); }
      if name == "." { return Some(Permission); }
      var node := nodes[name];
      NameFits(before, name);
      if node.isDir {
        var busy := AnyChild(name);
        if busy { return Some(NotEmpty); }
      }
      RemoveKeeps(before, name);
      nodes := nodes - {name};
      NamesChanged();
      Unlink(node);
      e := None;
    }

    /** Every name at or below src moves to the corresponding name below dst. */
    method MoveSubtree(src: string, dst: string)
      modifies this`nodes
      ensures nodes == Renamed<Node?>(old(nodes), src, dst)
    {
      hide Store.Moved, Store.Renamed, Within;
      ghost var before := nodes;
      var moved: map<string, Node> := map[];
      var todo := nodes.Keys;
      MovedNothing<Node?>(src, dst);
      assert before - todo == map[];
      while todo != {}
        invariant todo <= before.Keys
        invariant moved == Moved<Node?>(before - todo, src, dst)
        invariant nodes == Kept(before, todo, src)
        decreases todo
      {
        var p :| p in todo;
        MovedExtend<Node?>(before - todo, before - (todo - {p}), src, dst, p);
        KeptLess(before, todo, src, p);
        todo := todo - {p};
        if p == src || src + "/" <= p {
          moved := moved[dst + p[|src|..] := nodes[p]];
          nodes := nodes - {p};
        }
      }
      assert before - todo == before;
      KeptRest(before, src, dst);
      Merge(moved);
    }

    /** What the map holds while the names outside `todo` have been dealt with. */
    static ghost function Kept(before: map<string, Node>, todo: set<string>, src: string): map<string, Node> {
      map p | p in before && (p in todo || !Within(p, src)) :: before[p]
    }

    static lemma KeptLess(before: map<string, Node>, todo: set<string>, src: string, p: string)
      requires p in todo && p in before
      ensures p in Kept(before, todo, src) && Kept(before, todo, src)[p] == before[p]
      ensures Kept(before, todo - {p}, src) == if Within(p, src) then Kept(before, todo, src) - {p}
                else Kept(before, todo, src)
      ensures Within(p, src) <==> p == src || src + "/" <= p
    {
    }

    static lemma KeptRest(before: map<string, Node>, src: string, dst: string)
      ensures Renamed<Node?>(before, src, dst) == Kept(before, {}, src) + Moved<Node?>(before, src, dst)
    {
      hide Store.Moved, Within;
    }

    /** The moved names enter the map. */
    method Merge(moved: map<string, Node>)
      modifies this`nodes
      ensures nodes == old(nodes) + moved
    {
      var keys := moved.Keys;
      while keys != {}
        invariant keys <= moved.Keys
        invariant nodes == old(nodes) + (moved - keys)
        decreases keys
      {
        var q :| q in keys;
        keys := keys - {q};
        nodes := nodes[q := moved[q]];
      }
      assert moved - keys == moved;
    }

    method Rename(src: string, dst: string) returns (e: Option<Errno>)
      requires Valid()
      modifies this, inodes
      ensures Valid() && inodes == old(inodes) && handles == old(handles)
      ensures (Abs(), e) == Store.Rename(old(Abs()), src, dst)
    {
      hide Store.Inv, MemoryFS.Abs, MemoryFS.Wired, Store.Renamed, Store.ParentError, Store.ReplaceError;
      ghost var before := Abs();
      Fields();
      RenameKeeps(before, src, dst);
      if !Paths.Valid(src) { return Some(Invalid); }
      if src !in nodes { return Some(NotExist); }
      if !Paths.Valid(dst) { return Some(Invalid); }
      if src == "." || dst == "." { return Some(Permission); }
      if src == dst { return None; }
      if src + "/" <= dst { return Some(Invalid); }
      var pe := Parent(dst);
      if pe.Some? { return pe; }
      NameFits(before, src);
      var re := Replaceable(nodes[src], dst);
      if re.Some? { return re; }
      if dst in nodes {
        NameFits(before, dst);
        Unlink(nodes[dst]);
      }
      label Unlinked:
      MoveSubtree(src, dst);
      NamesChanged@Unlinked();
      e := None;
    }

    /** Why an existing inode at dst cannot be replaced by n. */
    method Replaceable(n: Node, dst: string) returns (e: Option<Errno>)
      requires Valid() && n in inodes
      ensures e == ReplaceError(Abs(), n, dst)
    {
      if dst !in nodes { return None; }
      var there := nodes[dst];
      if n.isDir && !there.isDir { return Some(NotDirectory); }
      if !n.isDir && there.isDir { return Some(IsDirectory); }
      if there.isDir {
        var busy := AnyChild(dst);
        if busy { return Some(NotEmpty); }
      }
      return None;
    }

    lemma EntryHere(p: string)
      requires Valid() && p in nodes
      ensures p in Abs().names && Abs().names[p] in Abs().inodes
      ensures var n: Node? := nodes[p]; EntryOf(Abs(), p) == Entry(Base(p), n, nodes[p].isDir, |nodes[p].data|)
    {
      hide IsTree, GoodInode, GoodHandle, Bytes;
    }

    /** One more name looked at, in terms of the objects. */
    lemma CollectHere(name: string, todo: set<string>, es: seq<Entry<Node?>>, p: string)
      requires Valid() && p in nodes && p in todo && Collected(Abs(), name, nodes.Keys - todo, es)
      ensures var n: Node? := nodes[p];
              Collected(Abs(), name, nodes.Keys - (todo - {p}),
                        if p != name && Dir(p) == name
                        then es + [Entry(Base(p), n, nodes[p].isDir, |nodes[p].data|)] else es)
    {
      hide Store.Inv, IsTree, MemoryFS.Abs, MemoryFS.Wired, Collected, EntryOf, Dir, Base;
      InvTree(Abs());
      Fields();
      CollectOne(Abs(), name, nodes.Keys - todo, es, p);
      assert nodes.Keys - (todo - {p}) == nodes.Keys - todo + {p};
      EntryHere(p);
    }

    /** A sorted listing of the directory called name. */
    method ReadDir(name: string) returns (r: Result<seq<Entry<Node?>>>)
      requires Valid()
      ensures r == ListDir(Abs(), name)
    {
      hide Store.Inv, Store.IsTree, MemoryFS.Abs, MemoryFS.Wired, Invariant.Collected;
      hide Listing.Sort, Listing.Ascending, Store.Children, Paths.Valid, Paths.Dir, Paths.Base;
      InvTree(Abs());
      Fields();
      ghost var st := Abs();
      if !Paths.Valid(name) { return Err(Invalid); }
      if name !in nodes { return Err(NotExist); }
      if !nodes[name].isDir { return Err(NotDirectory); }
      var entries: seq<Entry<Node?>> := [];
      var todo := nodes.Keys;
      CollectedNone(st, name);
      assert nodes.Keys - todo == {};
      while todo != {}
        invariant todo <= nodes.Keys
        invariant Collected(st, name, nodes.Keys - todo, entries)
        decreases todo
      {
        var p :| p in todo;
        CollectHere(name, todo, entries, p);
        todo := todo - {p};
        if p != name && Dir(p) == name {
          entries := entries + [Entry(Base(p), nodes[p], nodes[p].isDir, |nodes[p].data|)];
        }
      }
      assert nodes.Keys - todo == st.names.Keys;
      CollectedAll(st, name, entries);
      r := Ok(Sort(entries));
    }
  }

  class MemoryFile {
    const m: MemoryFS
    const n: Node
    const readable: bool
    const writable: bool
    const append: bool
    var pos: int64
    var closed: bool
    var entries: Option<seq<Entry<Node?>>>
    var dirPos: int

    constructor (m: MemoryFS, n: Node, readable: bool, writable: bool, append: bool)
      ensures this.m == m && this.n == n
      ensures View() == Handle<Node?>.Handle(n, readable, writable, append, false, 0, None, 0)
    {
      this.m, this.n, this.readable, this.writable, this.append := m, n, readable, writable, append;
      pos, closed, entries, dirPos := 0, false, None, 0;
    }

    ghost function View(): Handle<Node?>
      reads this
    {
      Handle(n, readable, writable, append, closed, pos as int, entries, dirPos)
    }

    /** The handle and its filesystem are in a good state. */
    ghost predicate Valid()
      reads this, m, m.inodes, m.handles
    {
      m.Valid() && this in m.handles
    }

    lemma Facts()
      requires Valid()
      ensures m.Abs().handles[this] == View() && m.Abs().inodes[n] == n.View()
      ensures n in m.inodes && WellFormed(m.Abs()) && this in m.Abs().handles
      ensures 0 <= pos as int <= m.limit as int && |n.data| <= m.used as int <= m.limit as int
      ensures writable ==> !n.isDir
      ensures entries.None? ==> dirPos == 0
      ensures entries.Some? ==> 0 <= dirPos <= |entries.value|
    {
      m.Fields();
      InodeFits(m.Abs(), n);
      assert GoodHandle(m.Abs(), this);
    }

    /** The abstract state after the inode's bytes changed. */
    twostate lemma BytesChanged()
      requires n in m.inodes && m.inodes == old(m.inodes) && m.handles == old(m.handles) && m.nodes == old(m.nodes)
      requires forall k :: k in m.inodes && k != n ==> k.View() == old(k.View())
      requires forall h :: h in m.handles ==> h.View() == old(h.View())
      requires n.refs == old(n.refs) && n.linked == old(n.linked)
      requires m.used as int == old(m.used) as int - |old(n.data)| + |n.data|
      ensures m.Abs() == SetData(old(m.Abs()), n, n.data)
      ensures old(m.Wired()) ==> m.Wired()
    {
      m.InodeChanged(n);
    }

    /** The abstract state after the handle's own fields changed. */
    twostate lemma CursorChanged()
      requires this in m.handles && m.inodes == old(m.inodes) && m.handles == old(m.handles)
      requires m.nodes == old(m.nodes) && m.used == old(m.used) && n in m.inodes
      requires forall k :: k in m.inodes ==> k.View() == old(k.View())
      requires forall h :: h in m.handles && h != this ==> h.View() == old(h.View())
      ensures m.Abs() == SetHandle(old(m.Abs()), this, View())
      ensures old(m.Wired()) ==> m.Wired()
    {
      m.HandleChanged(this);
    }

    /** The handle stops counting for its inode, whose bytes may go with it. */
    method Release()
      requires m.Wired() && n in m.inodes && |n.data| <= m.used as int
      modifies n, m`used
      ensures m.Wired() && m.inodes == old(m.inodes) && m.handles == old(m.handles)
      ensures m.Abs() == old(m.Abs()).(used := m.used as int, inodes := old(m.Abs()).inodes[n := n.View()])
      ensures n.View() == Released(old(n.View()))
      ensures m.used as int == old(m.used) as int - |old(n.data)| + |n.data|
    {
      hide MemoryFS.Abs, MemoryFS.Wired;
      m.Fields();
      n.refs := n.refs - 1;
      if !n.linked && n.refs == 0 {
        m.used := m.used - |n.data| as int64;
        n.data := [];
      }
      m.InodeChanged(n);
    }

    method Close() returns (e: Option<Errno>)
      requires Valid()
      modifies this`closed, n, m`used
      ensures Valid() && (m.Abs(), e) == Store.Close(old(m.Abs()), this)
      ensures m.inodes == old(m.inodes) && m.handles == old(m.handles)
    {
      hide Store.Inv, MemoryFS.Abs, MemoryFS.Wired, Store.WellFormed, Store.Close, Store.Released;
      ghost var before := m.Abs();
      Facts();
      m.Fields();
      CloseKeeps(before, this);
      if closed {
        CloseTwice(before, this);
        return Some(Closed);
      }
      closed := true;
      m.HandleChanged(this);
      Release();
      CloseResult(before, this);
      e := None;
    }

    /** The bytes at off, at most len of them, and how the read ended. */
    method ReadBytes(len: int64, off: int64) returns (bs: seq<byte>, e: Option<Errno>)
      requires Valid() && 0 <= len
      ensures (bs, e) == Store.ReadAt(m.Abs(), this, len as int, off as int)
      ensures 0 < |bs| ==> off as int + |bs| <= |n.data|
    {
      hide Store.Inv, MemoryFS.Abs, MemoryFS.Wired, Store.WellFormed;
      Facts();
      if closed { return [], Some(Closed); }
      if !readable { return [], Some(Permission); }
      if n.isDir { return [], Some(IsDirectory); }
      if off < 0 { return [], Some(Invalid); }
      if len == 0 { return [], None; }
      if off >= |n.data| as int64 { return [], Some(EndOfFile); }
      if len > |n.data| as int64 - off { return n.data[off..], Some(EndOfFile); }
      return n.data[off..off + len], None;
    }

    method Read(len: int64) returns (bs: seq<byte>, e: Option<Errno>)
      requires Valid() && 0 <= len
      modifies this`pos
      ensures Valid() && (m.Abs(), bs, e) == Store.Read(old(m.Abs()), this, len as int)
      ensures m.inodes == old(m.inodes) && m.handles == old(m.handles)
    {
      hide Store.Inv, MemoryFS.Abs, MemoryFS.Wired, Store.WellFormed, Store.ReadAt, Store.SetHandle;
      Facts();
      m.Fields();
      ReadKeeps(m.Abs(), this, len as int);
      bs, e := ReadBytes(len, pos);
      if bs != [] { pos := pos + |bs| as int64; }
      CursorChanged();
    }

    method ReadAt(len: int64, off: int64) returns (bs: seq<byte>, e: Option<Errno>)
      requires Valid() && 0 <= len
      ensures (bs, e) == Store.ReadAt(m.Abs(), this, len as int, off as int)
    {
      bs, e := ReadBytes(len, off);
    }

    method Resize(size: int64) returns (e: Option<Errno>)
      requires Valid() && !closed && writable
      modifies n`data, m`used
      ensures Valid() && (m.Abs(), e) == Store.Resize(old(m.Abs()), n, size as int)
      ensures m.inodes == old(m.inodes) && m.handles == old(m.handles)
      ensures e.None? ==> n.data == Resized(old(n.data), size as int)
    {
      hide Store.Inv, MemoryFS.Abs, MemoryFS.Wired, Store.WellFormed, Store.Truncate, Store.SetData;
      ghost var before := m.Abs();
      Facts();
      m.Fields();
      if size < 0 { return Some(Invalid); }
      if size > m.limit { return Some(NoSpace); }
      var delta := size - |n.data| as int64;
      if delta > m.limit - m.used { return Some(NoSpace); }
      ResizeKeeps(before, this, size as int);
      if delta > 0 {
        n.data := n.data + Zeros(delta as int);
      } else if delta < 0 {
        n.data := n.data[..size];
      }
      m.used := m.used + delta;
      assert n.data == Resized(old(n.data), size as int);
      BytesChanged();
      e := None;
    }

    /** All of p at off, or nothing. */
    method WriteBytes(p: seq<byte>, off: int64) returns (written: int64, e: Option<Errno>)
      requires Valid() && |p| <= MAX_INT64
      modifies n`data, m`used
      ensures Valid() && (m.Abs(), e) == WriteAtOffset(old(m.Abs()), this, p, off as int)
      ensures m.inodes == old(m.inodes) && m.handles == old(m.handles)
      ensures written as int == if e.None? then |p| else 0
      ensures e.None? ==> off as int + |p| <= m.limit as int
    {
      hide Store.Inv, MemoryFS.Abs, MemoryFS.Wired, Store.WellFormed, Store.Overlay, Store.WriteAtOffset, Store.SetData;
      ghost var before := m.Abs();
      Facts();
      m.Fields();
      WriteAtOffsetKeeps(before, this, p, off as int);
      WriteAtOffsetIs(before, this, p, off as int);
      if closed { return 0, Some(Closed); }
      if !writable { return 0, Some(Permission); }
      if off < 0 { return 0, Some(Invalid); }
      if off > m.limit - |p| as int64 { return 0, Some(NoSpace); }
      if p == [] { return 0, None; }
      var end := off + |p| as int64;
      SetDataSame(before, n);
      if end > |n.data| as int64 {
        e := Resize(end);
        if e.Some? { return 0, e; }
      }
      CopyInto(p, off, before);
      written, e := |p| as int64, None;
    }

    /** Copying p over the bytes at off. */
    method CopyInto(p: seq<byte>, off: int64, ghost before: State<Node?, MemoryFile?>)
      requires m.Wired() && n in m.inodes && 0 <= off && off as int + |p| <= |n.data|
      requires n in before.inodes && m.Abs() == SetData(before, n, n.data)
      modifies n`data
      ensures m.Wired() && n.data == old(n.data)[..off] + p + old(n.data)[off as int + |p|..]
      ensures m.Abs() == SetData(before, n, n.data)
    {
      hide MemoryFS.Abs, MemoryFS.Wired, Store.SetData;
      n.data := n.data[..off] + p + n.data[off as int + |p|..];
      BytesChanged();
      SetDataTwice(before, n, old(n.data), n.data);
    }

    method Write(p: seq<byte>) returns (written: int64, e: Option<Errno>)
      requires Valid() && |p| <= MAX_INT64
      modifies this`pos, n`data, m`used
      ensures Valid() && (m.Abs(), e) == Store.Write(old(m.Abs()), this, p)
      ensures m.inodes == old(m.inodes) && m.handles == old(m.handles)
      ensures written as int == if e.None? then |p| else 0
    {
      hide Store.Inv, MemoryFS.Abs, MemoryFS.Wired, Store.WellFormed, Store.WriteAtOffset, Store.Write, Store.SetHandle;
      ghost var before := m.Abs();
      Facts();
      if append {
        pos := |n.data| as int64;
      }
      CursorChanged();
      PlaceKeeps(before, this);
      assert View() == Placing(before, this);
      written, e := WriteBytes(p, pos);
      WriteIs(before, this, p, m.Abs(), e);
      label Written:
      pos := pos + written;
      CursorChanged@Written();
    }

    method WriteAt(p: seq<byte>, off: int64) returns (written: int64, e: Option<Errno>)
      requires Valid() && |p| <= MAX_INT64
      modifies n`data, m`used
      ensures Valid() && (m.Abs(), e) == Store.WriteAt(old(m.Abs()), this, p, off as int)
      ensures m.inodes == old(m.inodes) && m.handles == old(m.handles)
      ensures written as int == if e.None? then |p| else 0
    {
      hide Store.Inv, MemoryFS.Abs, MemoryFS.Wired, Store.WellFormed, Store.WriteAtOffset;
      Facts();
      if closed { return 0, Some(Closed); }
      if append { return 0, Some(Invalid); }
      written, e := WriteBytes(p, off);
    }

    method Seek(off: int64, whence: Whence) returns (r: Result<int64>)
      requires Valid()
      modifies this`pos, this`dirPos, this`entries
      ensures Valid() && m.Abs() == Store.Seek(old(m.Abs()), this, off as int, whence).0
      ensures m.inodes == old(m.inodes) && m.handles == old(m.handles)
      ensures match Store.Seek(old(m.Abs()), this, off as int, whence).1
              case Ok(p) => r == Ok(pos) && p == pos as int
              case Err(e) => r == Err(e)
    {
      hide Store.Inv, MemoryFS.Abs, MemoryFS.Wired, Store.WellFormed, Store.SetHandle;
      Facts();
      m.Fields();
      SeekKeeps(m.Abs(), this, off as int, whence);
      if closed { return Err(Closed); }
      var base: int64;
      match whence {
        case Start => base := 0;
        case Current => base := pos;
        case End => base := |n.data| as int64;
        case OtherWhence => return Err(Invalid);
      }
      if off < -base || off > m.limit - base { return Err(Invalid); }
      pos := base + off;
      if pos == 0 {
        dirPos := 0;
        entries := None;
      }
      CursorChanged();
      r := Ok(pos);
    }

    method Truncate(size: int64) returns (e: Option<Errno>)
      requires Valid()
      modifies n`data, m`used
      ensures Valid() && (m.Abs(), e) == Store.Truncate(old(m.Abs()), this, size as int)
      ensures m.inodes == old(m.inodes) && m.handles == old(m.handles)
    {
      hide Store.Inv, MemoryFS.Abs, MemoryFS.Wired, Store.WellFormed, Store.Resize;
      Facts();
      if closed { return Some(Closed); }
      if !writable { return Some(Permission); }
      e := Resize(size);
    }

    /** The name the inode has now, if any. */
    method CurrentName() returns (name: string)
      requires Valid()
      ensures name == "" <==> !Reached<Node?>(m.nodes, n)
      ensures name != "" ==> forall p :: p in m.nodes && m.nodes[p] == n <==> p == name
    {
      ghost var st := m.Abs();
      var todo := m.nodes.Keys;
      while todo != {}
        invariant todo <= m.nodes.Keys
        invariant forall p :: p in m.nodes && p !in todo ==> m.nodes[p] != n
        decreases todo
      {
        var p :| p in todo;
        if m.nodes[p] == n {
          OneName(st, p);
          return p;
        }
        todo := todo - {p};
      }
      return "";
    }

    /** The listing the handle holds, or else a fresh one of its inode. */
    method Snapshot() returns (r: Result<seq<Entry<Node?>>>)
      requires Valid()
      ensures r == Store.Snapshot(m.Abs(), this)
    {
      hide Store.Inv, MemoryFS.Abs, MemoryFS.Wired, Store.WellFormed, Store.IsTree, Store.ListDir;
      Facts();
      m.Fields();
      if entries.Some? { return Ok(entries.value); }
      var name := CurrentName();
      if name == "" { return Err(NotExist); }
      r := m.ReadDir(name);
    }

    method ReadDir(count: int) returns (r: Result<seq<Entry<Node?>>>)
      requires Valid()
      modifies this`dirPos, this`entries
      ensures Valid() && (m.Abs(), r) == Store.ReadDir(old(m.Abs()), this, count)
      ensures m.inodes == old(m.inodes) && m.handles == old(m.handles)
    {
      hide Store.Inv, MemoryFS.Abs, MemoryFS.Wired, Store.WellFormed, Store.IsTree, Store.ListDir, Store.Snapshot;
      hide Store.SetHandle;
      ghost var before := m.Abs();
      Facts();
      m.Fields();
      ReadDirKeeps(before, this, count);
      if closed { return Err(Closed); }
      var taken := Snapshot();
      if taken.Err? { return Err(taken.error); }
      entries := Some(taken.value);
      var all := entries.value;
      SnapshotLong(before, this);
      if dirPos == |all| && count > 0 {
        CursorChanged();
        return Err(EndOfFile);
      }
      var end := |all|;
      if count > 0 && count < end - dirPos { end := dirPos + count; }
      r := Ok(all[dirPos..end]);
      dirPos := end;
      CursorChanged();
    }
  }
}
