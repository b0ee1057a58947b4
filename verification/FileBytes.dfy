/** Files as growable byte arrays: what writes, truncation and sequences of
    writes mean for the bytes of an inode. */
module FileBytes {
  import opened Store
  import opened Invariant

  /** Every byte after a write: the written bytes, the old ones around them, and
      zeros in a gap. */
  lemma OverlayAt(d: seq<byte>, off: nat, p: seq<byte>)
    ensures |Overlay(d, off, p)| == if off + |p| > |d| then off + |p| else |d|
    ensures forall i :: 0 <= i < |Overlay(d, off, p)| ==>
              Overlay(d, off, p)[i] ==
                if off <= i < off + |p| then p[i - off] else if i < |d| then d[i] else 0
  {}

  /** Every byte after a change of size: the old ones that fit, and zeros. */
  lemma ResizedAt(d: seq<byte>, size: nat)
    ensures |Resized(d, size)| == size
    ensures forall i :: 0 <= i < size ==> Resized(d, size)[i] == if i < |d| then d[i] else 0
  {}

  lemma OverlayTwice(d: seq<byte>, off: nat, p: seq<byte>, q: seq<byte>)
    ensures Overlay(Overlay(d, off, p), off + |p|, q) == Overlay(d, off, p + q)
  {
    hide Overlay;
    var e, f, g := Overlay(d, off, p), Overlay(Overlay(d, off, p), off + |p|, q), Overlay(d, off, p + q);
    OverlayAt(d, off, p);
    OverlayAt(e, off + |p|, q);
    OverlayAt(d, off, p + q);
    assert |f| == |g|;
    forall i | 0 <= i < |f| ensures f[i] == g[i] {
      if i < |e| { assert e[i] == if off <= i < off + |p| then p[i - off] else if i < |d| then d[i] else 0; }
    }
  }

  /** A successful write, spelled out. */
  lemma WriteResult<N, H>(st: State<N, H>, h: H, p: seq<byte>)
    requires Inv(st) && WellFormed(st) && h in st.handles && Write(st, h, p).1.None?
    ensures var x := Placing(st, h);
            var d := st.inodes[x.inode].data;
            && 0 <= x.pos && x.pos + |p| <= st.limit
            && (p == [] ==> Write(st, h, p).0 == SetHandle(st, h, x))
            && var s := SetData(st, x.inode, Overlay(d, x.pos, p));
            (p != [] ==> Write(st, h, p).0 == SetHandle(s, h, x.(pos := x.pos + |p|)))
  {
    hide SetData, Overlay;
    assert GoodHandle(st, h);
    OpenIsLive(st, h);
  }

  /** When a write succeeds. */
  lemma WriteSucceeds<N, H>(st: State<N, H>, h: H, p: seq<byte>)
    requires Inv(st) && WellFormed(st) && h in st.handles
    ensures var x := Placing(st, h);
            Write(st, h, p).1.None? <==>
              && !x.closed && x.writable && x.pos + |p| <= st.limit
              && (p == [] || x.pos + |p| - |st.inodes[x.inode].data| <= st.limit - st.used)
  {
    assert GoodHandle(st, h);
    OpenIsLive(st, h);
  }

  /** A failed write changes no bytes and no budget, and the cursor of its handle
      exactly when the handle appends and its cursor is not at the end. */
  lemma FailedWrite<N, H>(st: State<N, H>, h: H, p: seq<byte>)
    requires WellFormed(st) && h in st.handles && Write(st, h, p).1.Some?
    ensures Write(st, h, p).0 == SetHandle(st, h, Placing(st, h))
    ensures var x := st.handles[h];
            Write(st, h, p).0 == st <==> !(x.append && x.pos != |st.inodes[x.inode].data|)
  {
    var x := st.handles[h];
    assert Write(st, h, p).0.handles[h] == Placing(st, h);
    if Placing(st, h) == x { assert st.handles[h := x] == st.handles; }
  }

  /** Writing p and then q is writing p + q: the one succeeds exactly when the
      other does, and then they end in the same state. */
  lemma WriteInParts<N, H>(st: State<N, H>, h: H, p: seq<byte>, q: seq<byte>)
    requires Inv(st) && h in st.handles
    ensures WellFormed(st) && Inv(Write(st, h, p).0) && h in Write(st, h, p).0.handles
    ensures WellFormed(Write(st, h, p).0)
    ensures Write(st, h, p + q).1.None? <==> Write(st, h, p).1.None? && Write(Write(st, h, p).0, h, q).1.None?
    ensures Write(st, h, p + q).1.None? ==> Write(st, h, p + q).0 == Write(Write(st, h, p).0, h, q).0
  {
    WriteKeeps(st, h, p);
    WriteSucceeds(st, h, p);
    WriteSucceeds(st, h, p + q);
    if Write(st, h, p).1.None? {
      WriteResult(st, h, p);
      WriteSucceeds(Write(st, h, p).0, h, q);
      if Write(st, h, p + q).1.None? { PartsAgree(st, h, p, q); }
    }
  }

  /** Changing bytes and handle twice is changing them once. */
  lemma ChangeTwice<N, H>(st: State<N, H>, n: N, h: H, a: seq<byte>, b: seq<byte>, x: Handle<N>, y: Handle<N>)
    requires n in st.inodes
    ensures SetHandle(SetData(SetHandle(SetData(st, n, a), h, x), n, b), h, y) == SetHandle(SetData(st, n, b), h, y)
  {
    SetDataTwice(st, n, a, b);
    SetHandleTwice(SetData(st, n, b), h, x, y);
  }

  lemma PartsAgree<N, H>(st: State<N, H>, h: H, p: seq<byte>, q: seq<byte>)
    requires Inv(st) && WellFormed(st) && h in st.handles
    requires Write(st, h, p + q).1.None? && Write(st, h, p).1.None?
    requires Inv(Write(st, h, p).0) && WellFormed(Write(st, h, p).0) && h in Write(st, h, p).0.handles
    requires Write(Write(st, h, p).0, h, q).1.None?
    ensures Write(st, h, p + q).0 == Write(Write(st, h, p).0, h, q).0
  {
    hide Write, Overlay, Inv, SetData, SetHandle;
    var s, x := Write(st, h, p).0, Placing(st, h);
    WriteResult(st, h, p);
    WriteResult(s, h, q);
    WriteResult(st, h, p + q);
    if p == [] {
      assert p + q == q;
      SetHandleTwice(st, h, x, x);
      EmptyPart(st, h, x, q);
    } else {
      OverlayAt(st.inodes[x.inode].data, x.pos, p);
      SecondPart(st, h, p, q);
    }
  }

  /** The second of two writes, after a first one that wrote something. */
  lemma SecondPart<N, H>(st: State<N, H>, h: H, p: seq<byte>, q: seq<byte>)
    requires WellFormed(st) && h in st.handles && Placing(st, h).pos >= 0
    ensures var x := Placing(st, h);
            var d := st.inodes[x.inode].data;
            var s := SetHandle(SetData(st, x.inode, Overlay(d, x.pos, p)), h, x.(pos := x.pos + |p|));
      && WellFormed(s) && h in s.handles && Placing(s, h) == x.(pos := x.pos + |p|)
      && var whole := SetHandle(SetData(st, x.inode, Overlay(d, x.pos, p + q)), h, x.(pos := x.pos + |p + q|));
      && var s' := SetData(s, x.inode, Overlay(s.inodes[x.inode].data, x.pos + |p|, q));
      && (q == [] ==> SetHandle(s, h, Placing(s, h)) == whole)
      && SetHandle(s', h, x.(pos := x.pos + |p| + |q|)) == whole
  {
    hide Overlay;
    var x := Placing(st, h);
    var d := st.inodes[x.inode].data;
    OverlayAt(d, x.pos, p);
    OverlayTwice(d, x.pos, p, q);
    ChangeTwice(st, x.inode, h, Overlay(d, x.pos, p), Overlay(d, x.pos, p + q),
                x.(pos := x.pos + |p|), x.(pos := x.pos + |p + q|));
    if q == [] {
      assert p + q == p;
      SetHandleTwice(SetData(st, x.inode, Overlay(d, x.pos, p)), h, x.(pos := x.pos + |p|), x.(pos := x.pos + |p|));
    }
  }

  lemma EmptyPart<N, H>(st: State<N, H>, h: H, x: Handle<N>, q: seq<byte>)
    requires WellFormed(st) && h in st.handles && x == Placing(st, h) && x.inode in st.inodes
    ensures var s := SetHandle(st, h, x);
            WellFormed(s) && Placing(s, h) == x && s.inodes == st.inodes
            && forall d, y :: SetHandle(SetData(s, x.inode, d), h, y) == SetHandle(SetData(st, x.inode, d), h, y)
  {
    forall d, y
      ensures SetHandle(SetData(SetHandle(st, h, x), x.inode, d), h, y) == SetHandle(SetData(st, x.inode, d), h, y)
    {
      SetHandleTwice(SetData(st, x.inode, d), h, x, y);
    }
  }
}
