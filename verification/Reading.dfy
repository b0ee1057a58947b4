/** Reading at the cursor over whole runs: successive reads through one handle
    deliver the file piece by piece, each byte once, and its end. */
module Reading {
  import opened Store
  import opened Invariant
  import opened FileBytes
  import opened Runs
  import opened Handles

  /** What the operation delivers if it is a read through h at its cursor. */
  ghost function Piece<N, H>(st: State<N, H>, op: Op<N, H>, h: H): seq<byte>
    requires Inv(st) && Enabled(st, op)
  {
    if op.OpRead? && op.h == h then Read(st, h, op.len).1 else []
  }

  /** All that the reads through h deliver in the course of a run. */
  ghost function Delivered<N, H>(st: State<N, H>, ops: seq<Op<N, H>>, h: H): seq<byte>
    requires Inv(st) && Possible(st, ops)
    decreases |ops|
  {
    if ops == [] then []
    else
      StepKeeps(st, ops[0]);
      Piece(st, ops[0], h) + Delivered(Step(st, ops[0]), ops[1..], h)
  }

  /** All that they ask for. */
  ghost function Wanted<N, H>(ops: seq<Op<N, H>>, h: H): nat
    decreases |ops|
  {
    if ops == [] then 0 else (if ops[0].OpRead? && ops[0].h == h then ops[0].len else 0) + Wanted(ops[1..], h)
  }

  /** No operation of the run seeks through h. */
  ghost predicate NoSeek<N, H>(ops: seq<Op<N, H>>, h: H) { forall op :: op in ops ==> !(op.OpSeek? && op.h == h) }

  /** The file that h reads. */
  ghost function FileOf<N, H>(st: State<N, H>, h: H): seq<byte>
    requires WellFormed(st) && h in st.handles
  {
    st.inodes[st.handles[h].inode].data
  }

  /** What is still to be read through h. */
  ghost function Ahead<N, H>(st: State<N, H>, h: H): seq<byte>
    requires WellFormed(st) && h in st.handles
  {
    var d, pos := FileOf(st, h), st.handles[h].pos;
    if 0 <= pos <= |d| then d[pos..] else []
  }

  /** h can be read from. */
  ghost predicate CanRead<N, H>(st: State<N, H>, h: H)
    requires WellFormed(st)
  {
    && h in st.handles && !st.handles[h].closed && st.handles[h].readable
    && !st.inodes[st.handles[h].inode].isDir && 0 <= st.handles[h].pos
  }

  function Least(a: nat, b: nat): nat { if a <= b then a else b }

  /** One read: as many of the bytes ahead as are asked for; they are behind then. */
  lemma OneRead<N, H>(st: State<N, H>, h: H, len: nat)
    requires WellFormed(st) && CanRead(st, h)
    ensures var (t, bs, e) := Read(st, h, len);
            && WellFormed(t) && CanRead(t, h) && FileOf(t, h) == FileOf(st, h)
            && bs == Ahead(st, h)[..Least(len, |Ahead(st, h)|)] && Ahead(t, h) == Ahead(st, h)[|bs|..]
            && (e == Some(EndOfFile) <==> |Ahead(st, h)| < len)
            && (e.None? || e == Some(EndOfFile))
  {
  }

  /** What else there is leaves the cursor and the file of h alone. */
  lemma OthersLeave<N, H>(st: State<N, H>, op: Op<N, H>, h: H)
    requires Inv(st) && WellFormed(st) && Enabled(st, op) && h in st.handles && !st.handles[h].closed
    requires op != OpClose(h) && !Touches(st, op, st.handles[h].inode) && !(op.OpSeek? && op.h == h)
    requires !(op.OpRead? && op.h == h)
    ensures SameView(st, Step(st, op), h) && Step(st, op).handles[h].pos == st.handles[h].pos
  {
    StepFollows(st, op, h);
    hide Inv, OpenFile, Mkdir, Remove, Rename, Overlay, Resized, Snapshot, ReadAt, WellFormed, SameView;
    match op
    case OpOpen(name, f, n, k) => OpenKeepsOthers(st, name, f, n, k, h);
    case OpMkdir(name, n) => NameOpsKeepHandles(st, name, name, n);
    case OpRemove(name) => NameOpsKeepHandles(st, name, name, st.handles[h].inode);
    case OpRename(src, dst) => NameOpsKeepHandles(st, src, dst, st.handles[h].inode);
    case _ =>
  }

  lemma StepReads<N, H>(st: State<N, H>, op: Op<N, H>, h: H)
    requires Inv(st) && WellFormed(st) && Enabled(st, op) && CanRead(st, h)
    requires op != OpClose(h) && !Touches(st, op, st.handles[h].inode) && !(op.OpSeek? && op.h == h)
    ensures var t, k := Step(st, op), if op.OpRead? && op.h == h then op.len else 0;
            && WellFormed(t) && CanRead(t, h) && FileOf(t, h) == FileOf(st, h)
            && Piece(st, op, h) == Ahead(st, h)[..Least(k, |Ahead(st, h)|)]
            && Ahead(t, h) == Ahead(st, h)[|Piece(st, op, h)|..]
  {
    if op.OpRead? && op.h == h {
      OneRead(st, h, op.len);
    } else {
      OthersLeave(st, op, h);
      hide Inv, Step, Touches, WellFormed;
    }
  }

  /** Over any run in which h is neither closed nor moved by a seek and its file is
      not written to, whatever else happens to names and to other handles: the
      reads through h deliver consecutive pieces of what lies ahead, each byte
      once, and as much of it as they ask for together. */
  lemma {:induction false} ReadsDeliverTheFile<N, H>(st: State<N, H>, ops: seq<Op<N, H>>, h: H)
    requires Inv(st) && WellFormed(st) && Possible(st, ops) && CanRead(st, h)
    requires Untouched(st, ops, h) && NoSeek(ops, h)
    ensures var t := After(st, ops);
            && WellFormed(t) && CanRead(t, h) && FileOf(t, h) == FileOf(st, h)
            && Delivered(st, ops, h) == Ahead(st, h)[..Least(Wanted(ops, h), |Ahead(st, h)|)]
            && Delivered(st, ops, h) + Ahead(t, h) == Ahead(st, h)
    decreases |ops|
  {
    CanReadOpen(st, h);
    if ops == [] {
      assert [] + Ahead(st, h) == Ahead(st, h);
    } else {
      var op, rest := ops[0], ops[1..];
      FirstRead(st, ops, h);
      var s := Step(st, op);
      StepReads(st, op, h);
      hide Inv, Step, Enabled, CanRead, Ahead, FileOf, Piece, WellFormed, Touches, Delivered, Wanted, Untouched, NoSeek;
      hide Possible, After;
      ReadsDeliverTheFile(s, rest, h);
      Consecutive(Ahead(st, h), if op.OpRead? && op.h == h then op.len else 0, Wanted(rest, h), Piece(st, op, h),
                  Ahead(s, h), Delivered(s, rest, h), Ahead(After(s, rest), h));
    }
  }

  lemma FirstRead<N, H>(st: State<N, H>, ops: seq<Op<N, H>>, h: H)
    requires Inv(st) && WellFormed(st) && Possible(st, ops) && ops != [] && h in st.handles && !st.handles[h].closed
    requires Untouched(st, ops, h) && NoSeek(ops, h)
    ensures var op, rest := ops[0], ops[1..];
            && Enabled(st, op) && op != OpClose(h) && !Touches(st, op, st.handles[h].inode)
            && !(op.OpSeek? && op.h == h)
            && var s := Step(st, op);
               && Inv(s) && Possible(s, rest) && h in s.handles && Untouched(s, rest, h) && NoSeek(rest, h)
               && After(st, ops) == After(s, rest)
               && Delivered(st, ops, h) == Piece(st, op, h) + Delivered(s, rest, h)
               && Wanted(ops, h) == (if op.OpRead? && op.h == h then op.len else 0) + Wanted(rest, h)
  {
    hide Inv, Step, Enabled, Piece, WellFormed, Touches;
    StepKeeps(st, ops[0]);
    assert ops[0] in ops && forall x :: x in ops[1..] ==> x in ops;
  }

  lemma CanReadOpen<N, H>(st: State<N, H>, h: H)
    requires WellFormed(st) && CanRead(st, h)
    ensures h in st.handles && !st.handles[h].closed
  {
  }

  /** A first piece x of a, k bytes at most, and what further requests for w bytes
      deliver of the rest. */
  lemma Consecutive(a: seq<byte>, k: nat, w: nat, x: seq<byte>, b: seq<byte>, y: seq<byte>, left: seq<byte>)
    requires x == a[..Least(k, |a|)] && b == a[Least(k, |a|)..]
    requires y == b[..Least(w, |b|)] && y + left == b
    ensures x + y == a[..Least(k + w, |a|)]
    ensures (x + y) + left == a
  {
    assert (x + y) + left == x + b;
  }

  /** So a reader comes to the end of the file, and is told of it exactly when the
      reads have delivered all that lay ahead. */
  lemma EndAfterAll<N, H>(st: State<N, H>, ops: seq<Op<N, H>>, h: H, len: nat)
    requires Inv(st) && WellFormed(st) && Possible(st, ops) && CanRead(st, h) && len > 0
    requires Untouched(st, ops, h) && NoSeek(ops, h)
    ensures var t := After(st, ops);
            && WellFormed(t) && h in t.handles
            && (Read(t, h, len).1 == [] <==> Delivered(st, ops, h) == Ahead(st, h))
            && (Read(t, h, len).1 == [] <==> Wanted(ops, h) >= |Ahead(st, h)|)
            && (Read(t, h, len).1 == [] ==> Read(t, h, len).2 == Some(EndOfFile))
  {
    ReadsDeliverTheFile(st, ops, h);
    var t := After(st, ops);
    OneRead(t, h, len);
    hide Inv, WellFormed, Read, Ahead, FileOf, Delivered, Untouched, After, Possible;
    assert |Delivered(st, ops, h)| + |Ahead(t, h)| == |Ahead(st, h)| by {
      assert |Delivered(st, ops, h) + Ahead(t, h)| == |Ahead(st, h)|;
    }
    if Ahead(t, h) == [] { assert Delivered(st, ops, h) + [] == Delivered(st, ops, h); }
  }

  /** A write through g, and then a seek through h to where it was made. */
  ghost function Rewound<N, H>(st: State<N, H>, g: H, h: H, p: seq<byte>): (r: State<N, H>)
    requires Inv(st) && WellFormed(st) && g in st.handles && h in st.handles
    ensures Inv(r) && WellFormed(r) && h in r.handles
  {
    WriteKeeps(st, g, p);
    var s := Write(st, g, p).0;
    InvTree(s);
    SeekKeeps(s, h, Placing(st, g).pos, Start);
    var r := Seek(s, h, Placing(st, g).pos, Start).0;
    InvTree(r);
    r
  }

  /** Reads that follow, through any handle on the file: what they deliver begins with
      what was written, or is the beginning of it. */
  lemma WrittenIsRead<N, H>(st: State<N, H>, g: H, h: H, p: seq<byte>, ops: seq<Op<N, H>>)
    requires Inv(st) && WellFormed(st) && g in st.handles && h in st.handles
    requires st.handles[g].inode == st.handles[h].inode && CanRead(st, h)
    requires p != [] && Write(st, g, p).1.None?
    requires var r := Rewound(st, g, h, p); Possible(r, ops) && Untouched(r, ops, h) && NoSeek(ops, h)
    ensures var r := Rewound(st, g, h, p);
            if Wanted(ops, h) <= |p| then Delivered(r, ops, h) == p[..Wanted(ops, h)]
            else p <= Delivered(r, ops, h)
  {
    hide Inv, Delivered, Possible, Untouched, After, Wanted, NoSeek, CanRead, FileOf, WellFormed, Ahead, Rewound;
    var r := Rewound(st, g, h, p);
    AfterWriteAndSeek(st, g, h, p);
    ReadsDeliverTheFile(r, ops, h);
    var a, w := Ahead(r, h), Wanted(ops, h);
    if w <= |p| { assert a[..w] == a[..|p|][..w]; } else { assert a[..Least(w, |a|)][..|p|] == a[..|p|]; }
  }

  lemma AfterWriteAndSeek<N, H>(st: State<N, H>, g: H, h: H, p: seq<byte>)
    requires Inv(st) && WellFormed(st) && g in st.handles && h in st.handles
    requires st.handles[g].inode == st.handles[h].inode && CanRead(st, h)
    requires p != [] && Write(st, g, p).1.None?
    ensures var r := Rewound(st, g, h, p); CanRead(r, h) && |p| <= |Ahead(r, h)| && Ahead(r, h)[..|p|] == p
  {
    WriteResult(st, g, p);
    var r, x := Rewound(st, g, h, p), Placing(st, g);
    hide Inv, Write;
    var d := st.inodes[st.handles[g].inode].data;
    OverlayAt(d, x.pos, p);
    hide Overlay;
    assert FileOf(r, h) == Overlay(d, x.pos, p) && r.handles[h].pos == x.pos;
    assert Overlay(d, x.pos, p)[x.pos..][..|p|] == p;
  }

  // ---------------------------------------------------------------------
  // Seeking
  // ---------------------------------------------------------------------

  /** The three origins: from the start the cursor goes to the place asked for, if
      that is within the limit; from the cursor and from the end of the file, to
      where the same distance from the start would lead. */
  lemma SeekOrigins<N, H>(st: State<N, H>, h: H, off: int)
    requires WellFormed(st) && h in st.handles && !st.handles[h].closed
    ensures Seek(st, h, off, Start).1 == if 0 <= off <= st.limit then Ok(off) else Err(Invalid)
    ensures 0 <= off <= st.limit ==> Seek(st, h, off, Start).0.handles[h].pos == off
    ensures Seek(st, h, off, Current) == Seek(st, h, st.handles[h].pos + off, Start)
    ensures Seek(st, h, off, End) == Seek(st, h, |FileOf(st, h)| + off, Start)
  {
  }

  /** Where a successful seek has gone is where the cursor is found to be. */
  lemma SeekTells<N, H>(st: State<N, H>, h: H, off: int, whence: Whence)
    requires Inv(st) && WellFormed(st) && h in st.handles && Seek(st, h, off, whence).1.Ok?
    ensures var s := Seek(st, h, off, whence).0;
            && WellFormed(s) && h in s.handles && s.handles[h].pos == Seek(st, h, off, whence).1.value
            && Seek(s, h, 0, Current).1 == Seek(st, h, off, whence).1
            && FileOf(s, h) == FileOf(st, h)
  {
    hide Inv;
  }
}
