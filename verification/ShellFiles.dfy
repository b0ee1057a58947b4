/** The files a script opens, in the filesystem: a history of the interpreter
    replayed on a namespace leaves no handle of a redirection open. */
module ShellFiles {
  import opened Store
  import opened Invariant
  import opened Routing
  import opened NamespaceSpec
  import Syntax = ShellSyntax
  import S = ShellState
  import E = ShellEval
  import Sound = ShellSound
  import Runs
  import Handles
  import R = NamespaceRuns
  import Projection

  /** What an opening was given: nothing to close (the null device), or a handle
      of the filesystem at a place. */
  datatype Given<H> = Null | Real(at: Place, h: H)

  /** The flags a redirection opens its file with. */
  function FlagsOf(op: Syntax.RedirOp): Flags {
    match op
    case WriteTo => Flags(true, false, true, false, true, false)
    case WriteAll => Flags(true, false, true, false, true, false)
    case AppendTo => Flags(true, false, true, false, false, true)
    case AppendAll => Flags(true, false, true, false, false, true)
    case _ => READ
  }

  // ---------------------------------------------------------------------
  // Replaying a history
  // ---------------------------------------------------------------------

  /** The operation closes that handle. */
  ghost predicate Closes<N, H>(shows: seq<nat>, op: R.SpaceOp<N, H>, g: Given<H>) {
    g.Real? && op.SpaceFile? && op.op == Runs.OpClose(g.h) && SamePart(shows, op.at, g.at)
  }

  /** The operations are the one successful opening, which gave g. */
  ghost predicate Opens<N, H>(mounts: seq<MountPoint>, sp: Space<N, H>, ops: seq<R.SpaceOp<N, H>>,
                              path: string, op: Syntax.RedirOp, g: Given<H>)
    requires GoodSpace(mounts, sp)
  {
    GoodIsWellFormed(mounts, sp);
    && |ops| == 1 && ops[0].SpaceOpen? && ops[0].name == path && ops[0].flags == FlagsOf(op)
    && match Open(mounts, sp, path, FlagsOf(op), ops[0].n, ops[0].h).1
       case Ok(NullFile) => g == Null
       case Ok(File(h)) => Route(mounts, path).Ok? && g == Real(Route(mounts, path).value, h) && h == ops[0].h
       case Err(_) => false
  }

  /** What the redirections do to the file they name: < finds it as it was and may
      read it, > leaves it empty and may write it, >> finds it as it was, or new and
      empty, and writes at its end. */
  lemma RedirectionOpens<N, H>(mounts: seq<MountPoint>, sp: Space<N, H>, ops: seq<R.SpaceOp<N, H>>, path: string,
                               op: Syntax.RedirOp, g: Given<H>)
    requires GoodSpace(mounts, sp) && R.Possible(mounts, sp, ops) && Opens(mounts, sp, ops, path, op, g) && g.Real?
    ensures Route(mounts, path) == Ok(g.at)
    ensures var sp' := R.After(mounts, sp, ops);
            && Has(sp, g.at) && Has(sp', g.at)
            && var (st, t, p) := (Part(sp, g.at), Part(sp', g.at), g.at.rel);
            && p in t.names && t.names[p] in t.inodes && g.h !in st.handles && g.h in t.handles
            && (p in st.names ==> t.names == st.names && st.names[p] in st.inodes)
            && var (x, bytes) := (t.handles[g.h], t.inodes[t.names[p]].data);
            && x.inode == t.names[p] && !x.closed && x.pos == 0
            && (op == Syntax.ReadFrom ==>
                  p in st.names && bytes == st.inodes[st.names[p]].data && x.readable && !x.writable)
            && (op == Syntax.WriteTo || op == Syntax.WriteAll ==> bytes == [] && !x.readable && x.writable && !x.append)
            && (op == Syntax.AppendTo || op == Syntax.AppendAll ==>
                  && bytes == (if p in st.names then st.inodes[st.names[p]].data else [])
                  && !x.readable && x.writable && x.append)
  {
    GoodIsWellFormed(mounts, sp);
    var n, h := ops[0].n, ops[0].h;
    assert ops == [R.SpaceOpen(path, FlagsOf(op), n, h)];
    AfterOne(mounts, sp, ops[0]);
    Projection.OpenMeans(mounts, sp, path, FlagsOf(op), n, h);
    Projection.FreshIn(sp, n, h, g.at);
    hide GoodSpace, Open, Route, R.After;
  }

  lemma AfterOne<N, H>(mounts: seq<MountPoint>, sp: Space<N, H>, op: R.SpaceOp<N, H>)
    requires GoodSpace(mounts, sp) && R.Possible(mounts, sp, [op])
    ensures R.Enabled(sp, op) && R.After(mounts, sp, [op]) == R.Step(mounts, sp, op)
  {
    hide GoodSpace, R.Enabled, R.Step;
    R.StepKeepsSpace(mounts, sp, op);
    assert [op][1..] == [];
  }

  /** The i-th event of the history takes the namespace from sp to sp': a successful
      opening opens, a closing closes what its opening was given, and whatever
      else happens closes no handle of a redirection. */
  ghost predicate Happens<N, H>(mounts: seq<MountPoint>, sp: Space<N, H>, t: S.Trace, i: nat,
                                ops: seq<R.SpaceOp<N, H>>, gave: seq<Given<H>>, sp': Space<N, H>)
    requires GoodSpace(mounts, sp) && i < |t| == |gave|
  {
    && R.Possible(mounts, sp, ops) && sp' == R.After(mounts, sp, ops)
    && (Sound.IsOpening(t, i) ==> Opens(mounts, sp, ops, t[i].path, t[i].op, gave[i]))
    && (t[i].Closed? ==>
          && t[i].h < i
          && match gave[t[i].h]
             case Null => ops == []
             case Real(at, h) => |ops| == 1 && Closes(sp.shows, ops[0], gave[t[i].h]))
    && (!Sound.IsOpening(t, i) && !t[i].Closed? ==>
          forall k :: 0 <= k < i && Sound.IsOpening(t, k) ==> NoneCloses(sp.shows, ops, gave[k]))
  }

  ghost predicate NoneCloses<N, H>(shows: seq<nat>, ops: seq<R.SpaceOp<N, H>>, g: Given<H>) {
    forall op :: op in ops ==> !Closes(shows, op, g)
  }

  /** A replay of a history: states[i] is the namespace before the i-th event. */
  ghost predicate Replays<N, H>(mounts: seq<MountPoint>, states: seq<Space<N, H>>, t: S.Trace,
                                chunks: seq<seq<R.SpaceOp<N, H>>>, gave: seq<Given<H>>)
  {
    && |states| == |t| + 1 && |chunks| == |gave| == |t|
    && (forall i :: 0 <= i <= |t| ==> GoodSpace(mounts, states[i]))
    && (forall i :: 0 <= i < |t| ==> Happens(mounts, states[i], t, i, chunks[i], gave, states[i + 1]))
  }

  // ---------------------------------------------------------------------
  // Handles in a namespace
  // ---------------------------------------------------------------------

  ghost predicate Known<N, H>(sp: Space<N, H>, g: Given<H>) {
    g.Real? && Has(sp, g.at) && g.h in Part(sp, g.at).handles
  }

  ghost predicate IsClosed<N, H>(sp: Space<N, H>, g: Given<H>)
    requires Known(sp, g)
  {
    Part(sp, g.at).handles[g.h].closed
  }

  /** The handles in one filesystem are there after an operation of the namespace,
      and only those closed by it have been closed. */
  ghost predicate HandlesStay<N, H>(st: State<N, H>, st': State<N, H>) {
    forall h :: h in st.handles ==> h in st'.handles && st'.handles[h].closed == st.handles[h].closed
  }

  lemma OpenStays<N, H>(st: State<N, H>, name: string, f: Flags, n: N, k: H)
    requires WellFormed(st) && k !in st.handles
    ensures HandlesStay(st, OpenFile(st, name, f, n, k).0)
  {
    hide WellFormed;
    forall h | h in st.handles
      ensures h in OpenFile(st, name, f, n, k).0.handles
      ensures OpenFile(st, name, f, n, k).0.handles[h].closed == st.handles[h].closed
    {
      Handles.OpenKeepsOthers(st, name, f, n, k, h);
    }
  }

  lemma PartIsGood<N, H>(mounts: seq<MountPoint>, sp: Space<N, H>, at: Place)
    requires GoodSpace(mounts, sp) && Has(sp, at)
    ensures Inv(Part(sp, at)) && WellFormed(Part(sp, at)) && WellFormedSpace(mounts, sp)
  {
    GoodIsWellFormed(mounts, sp);
  }

  lemma PartStays<N, H>(sp: Space<N, H>, to: Place, st: State<N, H>, at: Place)
    requires Has(sp, to) && Has(sp, at) && HandlesStay(Part(sp, to), st)
    ensures Has(WithPart(sp, to, st), at) && HandlesStay(Part(sp, at), Part(WithPart(sp, to, st), at))
    ensures HandlesStay(Part(sp, at), Part(sp, at))
  {
  }

  lemma FreshInPart<N, H>(sp: Space<N, H>, h: H, at: Place)
    requires R.FreshHandle(sp, h) && Has(sp, at)
    ensures h !in Part(sp, at).handles
  {
  }

  /** Places in one filesystem. */
  lemma OnePart<N, H>(sp: Space<N, H>, a: Place, b: Place)
    requires SamePart(sp.shows, a, b) && Has(sp, a)
    ensures Has(sp, b) && Part(sp, a) == Part(sp, b)
  {
  }

  lemma OpenSpaceStays<N, H>(mounts: seq<MountPoint>, sp: Space<N, H>, name: string, f: Flags, n: N, h: H, at: Place)
    requires GoodSpace(mounts, sp) && R.FreshHandle(sp, h) && Has(sp, at)
    ensures WellFormedSpace(mounts, sp)
    ensures var sp' := Open(mounts, sp, name, f, n, h).0; Has(sp', at) && HandlesStay(Part(sp, at), Part(sp', at))
  {
    hide GoodSpace, Stat, Route, Sealed, WellFormed, Inv, OpenFile, HandlesStay, WithPart, Part;
    PartIsGood(mounts, sp, at);
    PartStays(sp, at, Part(sp, at), at);
    if Route(mounts, name).Ok? {
      var to := Route(mounts, name).value;
      PartIsGood(mounts, sp, to);
      var g := if Wants(f) then f else READ;
      FreshInPart(sp, h, to);
      OpenStays(Part(sp, to), to.rel, g, n, h);
      PartStays(sp, to, OpenFile(Part(sp, to), to.rel, g, n, h).0, at);
    }
  }

  lemma MkdirSpaceStays<N, H>(mounts: seq<MountPoint>, sp: Space<N, H>, name: string, n: N, at: Place)
    requires GoodSpace(mounts, sp) && Has(sp, at)
    ensures WellFormedSpace(mounts, sp)
    ensures var sp' := NamespaceSpec.Mkdir(mounts, sp, name, n).0;
            Has(sp', at) &&
            HandlesStay(Part(sp, at), Part(sp', at))
  {
    hide GoodSpace, Writable, WellFormed, Inv, Store.Mkdir, HandlesStay, WithPart, Part;
    PartIsGood(mounts, sp, at);
    PartStays(sp, at, Part(sp, at), at);
    if Writable(mounts, name).Ok? {
      var to := Writable(mounts, name).value;
      PartIsGood(mounts, sp, to);
      MkdirStays(mounts, sp, to, n);
      PartStays(sp, to, Store.Mkdir(Part(sp, to), to.rel, n).0, at);
    }
  }

  lemma RemoveSpaceStays<N, H>(mounts: seq<MountPoint>, sp: Space<N, H>, name: string, dir: bool, at: Place)
    requires GoodSpace(mounts, sp) && Has(sp, at)
    ensures WellFormedSpace(mounts, sp)
    ensures var sp' := NamespaceSpec.Remove(mounts, sp, name, dir).0;
            Has(sp', at) &&
            HandlesStay(Part(sp, at), Part(sp', at))
  {
    hide GoodSpace, Writable, Stat, WellFormed, Inv, Store.Remove, HandlesStay, WithPart, Part;
    PartIsGood(mounts, sp, at);
    PartStays(sp, at, Part(sp, at), at);
    if Writable(mounts, name).Ok? {
      var to := Writable(mounts, name).value;
      RemoveStays(mounts, sp, to);
      PartStays(sp, to, Store.Remove(Part(sp, to), to.rel).0, at);
    }
  }

  lemma RenameSpaceStays<N, H>(mounts: seq<MountPoint>, sp: Space<N, H>, src: string, dst: string, at: Place)
    requires GoodSpace(mounts, sp) && Has(sp, at)
    ensures WellFormedSpace(mounts, sp)
    ensures var sp' := NamespaceSpec.Rename(mounts, sp, src, dst).0;
            Has(sp', at) &&
            HandlesStay(Part(sp, at), Part(sp', at))
  {
    hide GoodSpace, Writable, Stat, Owner, WellFormed, Inv, Store.Rename, HandlesStay, WithPart, Part;
    PartIsGood(mounts, sp, at);
    PartStays(sp, at, Part(sp, at), at);
    if Writable(mounts, src).Ok? && Writable(mounts, dst).Ok? {
      var to, rel := Writable(mounts, src).value, Writable(mounts, dst).value.rel;
      RenameStays(mounts, sp, to, rel);
      PartStays(sp, to, Store.Rename(Part(sp, to), to.rel, rel).0, at);
    }
  }

  /** The namespace operations that name paths touch no handle that exists. */
  lemma NameOpsStay<N, H>(mounts: seq<MountPoint>, sp: Space<N, H>, op: R.SpaceOp<N, H>, at: Place)
    requires GoodSpace(mounts, sp) && R.Enabled(sp, op) && Has(sp, at) && !op.SpaceFile?
    ensures Has(R.Step(mounts, sp, op), at) && HandlesStay(Part(sp, at), Part(R.Step(mounts, sp, op), at))
  {
    hide GoodSpace, Open, NamespaceSpec.Mkdir, NamespaceSpec.Remove, NamespaceSpec.Rename, HandlesStay, Part;
    match op
    case SpaceOpen(name, f, n, h) => OpenSpaceStays(mounts, sp, name, f, n, h, at);
    case SpaceMkdir(name, n) => MkdirSpaceStays(mounts, sp, name, n, at);
    case SpaceRemove(name, dir) => RemoveSpaceStays(mounts, sp, name, dir, at);
    case SpaceRename(src, dst) => RenameSpaceStays(mounts, sp, src, dst, at);
  }

  lemma MkdirStays<N, H>(mounts: seq<MountPoint>, sp: Space<N, H>, to: Place, n: N)
    requires GoodSpace(mounts, sp) && Has(sp, to)
    ensures WellFormed(Part(sp, to)) && HandlesStay(Part(sp, to), Store.Mkdir(Part(sp, to), to.rel, n).0)
  {
    PartIsGood(mounts, sp, to);
    Handles.NameOpsKeepHandles(Part(sp, to), to.rel, to.rel, n);
    hide Inv, GoodSpace, Store.Mkdir, WellFormed;
  }

  lemma RemoveStays<N, H>(mounts: seq<MountPoint>, sp: Space<N, H>, to: Place)
    requires GoodSpace(mounts, sp) && Has(sp, to)
    ensures WellFormed(Part(sp, to)) && HandlesStay(Part(sp, to), Store.Remove(Part(sp, to), to.rel).0)
  {
    PartIsGood(mounts, sp, to);
    Handles.NameOpsKeepHandles(Part(sp, to), to.rel, to.rel, Part(sp, to).names["."]);
    hide Inv, GoodSpace, Store.Remove, WellFormed;
  }

  lemma RenameStays<N, H>(mounts: seq<MountPoint>, sp: Space<N, H>, to: Place, dst: string)
    requires GoodSpace(mounts, sp) && Has(sp, to)
    ensures WellFormed(Part(sp, to)) && HandlesStay(Part(sp, to), Store.Rename(Part(sp, to), to.rel, dst).0)
  {
    PartIsGood(mounts, sp, to);
    Handles.NameOpsKeepHandles(Part(sp, to), to.rel, dst, Part(sp, to).names["."]);
    hide Inv, GoodSpace, Store.Rename, WellFormed;
  }

  /** What the mounts show does not change. */
  lemma StepShows<N, H>(mounts: seq<MountPoint>, sp: Space<N, H>, op: R.SpaceOp<N, H>)
    requires GoodSpace(mounts, sp) && R.Enabled(sp, op)
    ensures R.Step(mounts, sp, op).shows == sp.shows
  {
    hide GoodSpace, R.Step, R.Enabled;
    R.OnlyOwnerChanges(mounts, sp, op);
  }

  lemma {:induction false} RunShows<N, H>(mounts: seq<MountPoint>, sp: Space<N, H>, ops: seq<R.SpaceOp<N, H>>)
    requires GoodSpace(mounts, sp) && R.Possible(mounts, sp, ops)
    ensures R.After(mounts, sp, ops).shows == sp.shows
    decreases |ops|
  {
    hide GoodSpace, R.Step, R.Enabled;
    if ops != [] {
      R.StepKeepsSpace(mounts, sp, ops[0]);
      StepShows(mounts, sp, ops[0]);
      RunShows(mounts, R.Step(mounts, sp, ops[0]), ops[1..]);
    }
  }

  lemma {:induction false} ReplayShows<N, H>(mounts: seq<MountPoint>, states: seq<Space<N, H>>, t: S.Trace,
                                              chunks: seq<seq<R.SpaceOp<N, H>>>, gave: seq<Given<H>>, j: nat)
    requires Replays(mounts, states, t, chunks, gave) && j <= |t|
    ensures states[j].shows == states[0].shows
    decreases j
  {
    hide GoodSpace, R.After, R.Possible;
    if j > 0 {
      assert Happens(mounts, states[j - 1], t, j - 1, chunks[j - 1], gave, states[j]);
      RunShows(mounts, states[j - 1], chunks[j - 1]);
      ReplayShows(mounts, states, t, chunks, gave, j - 1);
    }
  }

  /** Only its own closing closes a handle. */
  lemma StepStays<N, H>(mounts: seq<MountPoint>, sp: Space<N, H>, op: R.SpaceOp<N, H>, g: Given<H>)
    requires GoodSpace(mounts, sp) && R.Enabled(sp, op) && Known(sp, g)
    ensures var sp' := R.Step(mounts, sp, op);
            sp'.shows == sp.shows && Known(sp', g) &&
            (IsClosed(sp', g) <==> IsClosed(sp, g) || Closes(sp.shows, op, g))
  {
    PartIsGood(mounts, sp, g.at);
    StepShows(mounts, sp, op);
    if op.SpaceFile? {
      hide GoodSpace, Inv, WellFormed, Runs.Step;
      if SamePart(sp.shows, op.at, g.at) { Handles.HandleStays(Part(sp, g.at), op.op, g.h); }
    } else {
      NameOpsStay(mounts, sp, op, g.at);
      hide GoodSpace, Inv, WellFormed, R.Step;
    }
  }

  lemma {:induction false} RunStays<N, H>(mounts: seq<MountPoint>, sp: Space<N, H>, ops: seq<R.SpaceOp<N, H>>,
                                          g: Given<H>)
    requires GoodSpace(mounts, sp) && R.Possible(mounts, sp, ops) && Known(sp, g)
    ensures var sp' := R.After(mounts, sp, ops);
            Known(sp', g) && (IsClosed(sp', g) <==> IsClosed(sp, g) || !NoneCloses(sp.shows, ops, g))
    decreases |ops|
  {
    hide GoodSpace, R.Step, R.Enabled, Known, IsClosed, Closes;
    if ops != [] {
      R.StepKeepsSpace(mounts, sp, ops[0]);
      StepStays(mounts, sp, ops[0], g);
      RunStays(mounts, R.Step(mounts, sp, ops[0]), ops[1..], g);
      assert forall op :: op in ops <==> op == ops[0] || op in ops[1..];
    }
  }

  /** An opening gives a handle that is new, and open. */
  lemma OpeningGives<N, H>(mounts: seq<MountPoint>, sp: Space<N, H>, ops: seq<R.SpaceOp<N, H>>,
                           path: string, op: Syntax.RedirOp, g: Given<H>)
    requires GoodSpace(mounts, sp) && R.Possible(mounts, sp, ops) && Opens(mounts, sp, ops, path, op, g) && g.Real?
    ensures !Known(sp, g) && Known(R.After(mounts, sp, ops), g) && !IsClosed(R.After(mounts, sp, ops), g)
  {
    hide GoodSpace, Inv, Stat, Route, Sealed, WellFormed, OpenFile;
    GoodIsWellFormed(mounts, sp);
    OneStep(mounts, sp, ops);
    var at := Route(mounts, path).value;
    PartIsGood(mounts, sp, at);
    FreshInPart(sp, ops[0].h, at);
    OpenedIsOpen(Part(sp, at), at.rel, if Wants(FlagsOf(op)) then FlagsOf(op) else READ, ops[0].n, ops[0].h);
  }

  lemma OneStep<N, H>(mounts: seq<MountPoint>, sp: Space<N, H>, ops: seq<R.SpaceOp<N, H>>)
    requires GoodSpace(mounts, sp) && R.Possible(mounts, sp, ops) && |ops| == 1
    ensures R.Enabled(sp, ops[0]) && R.After(mounts, sp, ops) == R.Step(mounts, sp, ops[0])
  {
    hide GoodSpace, R.Step, R.Enabled;
    R.StepKeepsSpace(mounts, sp, ops[0]);
    assert ops[1..] == [];
  }

  lemma OpenedIsOpen<N, H>(st: State<N, H>, name: string, f: Flags, n: N, h: H)
    requires WellFormed(st) && OpenFile(st, name, f, n, h).1.Ok? && n !in st.inodes
    ensures h in OpenFile(st, name, f, n, h).0.handles && !OpenFile(st, name, f, n, h).0.handles[h].closed
    ensures OpenFile(st, name, f, n, h).1 == Ok(h)
  {
    hide WellFormed, Paths.Valid, ParentError;
  }

  // ---------------------------------------------------------------------
  // The history and the handles agree
  // ---------------------------------------------------------------------

  /** At j events, for the opening k: its handle is there, and closed exactly when
      the history no longer counts the file as open. */
  ghost predicate Accounted<N, H>(sp: Space<N, H>, t: S.Trace, gave: seq<Given<H>>, j: nat, k: nat)
    requires j <= |t| && k < |gave|
  {
    gave[k].Real? ==>
      && Known(sp, gave[k]) && Sound.OpenFiles(t[..j]).Some?
      && (IsClosed(sp, gave[k]) <==> k !in Sound.OpenFiles(t[..j]).value)
  }

  predicate SameHandle<H(==)>(shows: seq<nat>, a: Given<H>, b: Given<H>) {
    a.Real? && b.Real? && SamePart(shows, a.at, b.at) && a.h == b.h
  }

  /** Everything about the openings before event j. */
  ghost predicate AllAccounted<N, H>(sp: Space<N, H>, t: S.Trace, gave: seq<Given<H>>, j: nat)
    requires j <= |t| == |gave|
  {
    && (forall k :: 0 <= k < j && Sound.IsOpening(t, k) ==> Accounted(sp, t, gave, j, k))
    && (forall k, l :: 0 <= k < l < j && Sound.IsOpening(t, k) && Sound.IsOpening(t, l) ==>
        !SameHandle(sp.shows, gave[k], gave[l]))
  }

  lemma OpenFilesOf(t: S.Trace, j: nat)
    requires j < |t| && Sound.OpenFiles(t[..j + 1]).Some?
    ensures var before, e := Sound.OpenFiles(t[..j]), t[j];
            && before.Some?
            && (e.Closed? ==> before.value != [] && before.value[|before.value| - 1] == e.h)
            && Sound.OpenFiles(t[..j + 1]).value ==
                 (if e.Opened? && e.ok then before.value + [j]
                  else if e.Closed? then before.value[..|before.value| - 1] else before.value)
  {
    assert t[..j + 1][..j] == t[..j];
  }

  lemma SomeBefore(t: S.Trace, j: nat)
    requires j <= |t| && Sound.OpenFiles(t).Some?
    ensures Sound.OpenFiles(t[..j]).Some?
    decreases |t| - j
  {
    if j == |t| {
      assert t[..j] == t;
    } else {
      SomeBefore(t, j + 1);
      OpenFilesOf(t, j);
    }
  }

  /** One event, for an opening before it. */
  lemma EventAccounts<N, H>(mounts: seq<MountPoint>, sp: Space<N, H>, t: S.Trace, j: nat, ops: seq<R.SpaceOp<N, H>>,
                            gave: seq<Given<H>>, sp': Space<N, H>, k: nat)
    requires GoodSpace(mounts, sp) && j < |t| == |gave| && Happens(mounts, sp, t, j, ops, gave, sp')
    requires Sound.OpenFiles(t[..j + 1]).Some? && AllAccounted(sp, t, gave, j)
    requires k < j && Sound.IsOpening(t, k)
    ensures Accounted(sp', t, gave, j + 1, k)
  {
    hide GoodSpace, Sound.OpenFiles, R.Possible, R.After, Opens, Known, IsClosed, NoneCloses, Closes, SameHandle;
    OpenFilesOf(t, j);
    assert Accounted(sp, t, gave, j, k);
    if gave[k].Real? {
      RunStays(mounts, sp, ops, gave[k]);
      OpeningsBefore(t, j);
      hide AllAccounted;
      if Sound.IsOpening(t, j) {
        OpeningCloses(mounts, sp, ops, t[j].path, t[j].op, gave[j], gave[k]);
      } else if t[j].Closed? {
        var before, h := Sound.OpenFiles(t[..j]).value, t[j].h;
        assert before == before[..|before| - 1] + [h];
        assert h in before;
        if h != k { TwoOpenings(sp, t, gave, j, h, k); }
        ClosingCloses(sp.shows, ops, gave[h], gave[k]);
      }
    }
  }

  lemma TwoOpenings<N, H>(sp: Space<N, H>, t: S.Trace, gave: seq<Given<H>>, j: nat, h: nat, k: nat)
    requires j <= |t| == |gave| && AllAccounted(sp, t, gave, j)
    requires h < j && k < j && h != k && Sound.IsOpening(t, h) && Sound.IsOpening(t, k)
    ensures !SameHandle(sp.shows, gave[h], gave[k])
  {
    hide Accounted;
    if h < k {
      assert !SameHandle(sp.shows, gave[h], gave[k]);
    } else {
      assert !SameHandle(sp.shows, gave[k], gave[h]);
    }
  }

  /** A closing closes the handle that its opening was given, and no other. */
  lemma ClosingCloses<N, H>(shows: seq<nat>, ops: seq<R.SpaceOp<N, H>>, g: Given<H>, other: Given<H>)
    requires match g case Null => ops == [] case Real(_, _) => |ops| == 1 && Closes(shows, ops[0], g)
    requires other.Real?
    ensures g == other ==> !NoneCloses(shows, ops, other)
    ensures !SameHandle(shows, g, other) ==> NoneCloses(shows, ops, other)
  {
    if g.Real? { assert ops[0] in ops && forall op :: op in ops ==> op == ops[0]; }
  }

  lemma OpeningCloses<N, H>(mounts: seq<MountPoint>, sp: Space<N, H>, ops: seq<R.SpaceOp<N, H>>,
                            path: string, op: Syntax.RedirOp, g: Given<H>, other: Given<H>)
    requires GoodSpace(mounts, sp) && Opens(mounts, sp, ops, path, op, g)
    ensures NoneCloses(sp.shows, ops, other)
  {
    hide GoodSpace, WellFormedSpace, NamespaceSpec.Open, Route, FlagsOf, SamePart;
    GoodIsWellFormed(mounts, sp);
    assert forall o :: o in ops ==> o == ops[0];
  }

  /** The files counted as open before event j are openings before it, in order. */
  lemma OpeningsBefore(t: S.Trace, j: nat)
    requires j <= |t| && Sound.OpenFiles(t[..j]).Some?
    ensures var open := Sound.OpenFiles(t[..j]).value;
      && (forall h :: h in open ==> h < j && Sound.IsOpening(t, h))
      && (forall a, b :: 0 <= a < b < |open| ==> open[a] < open[b])
      && (open != [] ==> open[|open| - 1] !in open[..|open| - 1])
  {
    Sound.OpenAreOpenings(t[..j]);
    var open := Sound.OpenFiles(t[..j]).value;
    forall h | h in open ensures h < j && Sound.IsOpening(t, h) { assert Sound.IsOpening(t[..j], h); }
  }

  /** In every state of a replay the handles are as the history says. */
  lemma {:induction false} Accounts<N, H>(mounts: seq<MountPoint>, states: seq<Space<N, H>>, t: S.Trace,
                                           chunks: seq<seq<R.SpaceOp<N, H>>>, gave: seq<Given<H>>, j: nat)
    requires Replays(mounts, states, t, chunks, gave) && j <= |t| && Sound.OpenFiles(t).Some?
    ensures AllAccounted(states[j], t, gave, j)
    decreases j
  {
    hide GoodSpace, Sound.OpenFiles, Happens, Accounted, SameHandle;
    if j > 0 {
      var i := j - 1;
      Accounts(mounts, states, t, chunks, gave, i);
      SomeBefore(t, j);
      assert Happens(mounts, states[i], t, i, chunks[i], gave, states[i + 1]);
      ReplayShows(mounts, states, t, chunks, gave, i);
      ReplayShows(mounts, states, t, chunks, gave, j);
      forall k | 0 <= k < j && Sound.IsOpening(t, k) ensures Accounted(states[j], t, gave, j, k) {
        if k < i {
          EventAccounts(mounts, states[i], t, i, chunks[i], gave, states[j], k);
        } else {
          NewAccounts(mounts, states[i], t, i, chunks[i], gave, states[j]);
        }
      }
      forall k, l | 0 <= k < l < j && Sound.IsOpening(t, k) && Sound.IsOpening(t, l)
        ensures !SameHandle(states[j].shows, gave[k], gave[l])
      {
        if l == i { NewIsOther(mounts, states[i], t, i, chunks[i], gave, states[j], k); }
      }
    }
  }

  lemma NewAccounts<N, H>(mounts: seq<MountPoint>, sp: Space<N, H>, t: S.Trace, j: nat, ops: seq<R.SpaceOp<N, H>>,
                          gave: seq<Given<H>>, sp': Space<N, H>)
    requires GoodSpace(mounts, sp) && j < |t| == |gave| && Happens(mounts, sp, t, j, ops, gave, sp')
    requires Sound.OpenFiles(t[..j + 1]).Some? && Sound.IsOpening(t, j)
    ensures Accounted(sp', t, gave, j + 1, j)
  {
    hide GoodSpace, Sound.OpenFiles, R.Possible, R.After, Opens, Known, IsClosed;
    OpenFilesOf(t, j);
    if gave[j].Real? { OpeningGives(mounts, sp, ops, t[j].path, t[j].op, gave[j]); }
  }

  lemma NewIsOther<N, H>(mounts: seq<MountPoint>, sp: Space<N, H>, t: S.Trace, j: nat, ops: seq<R.SpaceOp<N, H>>,
                         gave: seq<Given<H>>, sp': Space<N, H>, k: nat)
    requires GoodSpace(mounts, sp) && j < |t| == |gave| && Happens(mounts, sp, t, j, ops, gave, sp')
    requires AllAccounted(sp, t, gave, j) && Sound.IsOpening(t, j) && k < j && Sound.IsOpening(t, k)
    ensures !SameHandle(sp.shows, gave[k], gave[j])
  {
    hide GoodSpace, Sound.OpenFiles, R.Possible, R.After, Opens, IsClosed;
    assert Accounted(sp, t, gave, j, k);
    if gave[j].Real? { OpeningGives(mounts, sp, ops, t[j].path, t[j].op, gave[j]); }
  }

  // ---------------------------------------------------------------------
  // What is left
  // ---------------------------------------------------------------------

  /** The handles that the redirections of a history were given at a place. */
  ghost function Redirects<H>(shows: seq<nat>, t: S.Trace, gave: seq<Given<H>>, at: Place): set<H>
    requires |gave| == |t|
  {
    set k | 0 <= k < |t| && Sound.IsOpening(t, k) && gave[k].Real? && SamePart(shows, gave[k].at, at) :: gave[k].h
  }

  /** The open handles of redirections on an inode. */
  ghost function OpenRedirects<N, H>(sp: Space<N, H>, t: S.Trace, gave: seq<Given<H>>, at: Place, n: N): set<H>
    requires |gave| == |t| && Has(sp, at)
  {
    OpenOn(Part(sp, at).handles, n) * Redirects(sp.shows, t, gave, at)
  }

  /** Handles are never forgotten. */
  lemma {:induction false} NotYetKnown<N, H>(mounts: seq<MountPoint>, states: seq<Space<N, H>>, t: S.Trace,
                                              chunks: seq<seq<R.SpaceOp<N, H>>>, gave: seq<Given<H>>,
                                              j: nat, g: Given<H>)
    requires Replays(mounts, states, t, chunks, gave) && j <= |t| && !Known(states[j], g)
    ensures !Known(states[0], g)
    decreases j
  {
    hide GoodSpace, Known, Sound.IsOpening;
    if j > 0 {
      var i := j - 1;
      assert Happens(mounts, states[i], t, i, chunks[i], gave, states[i + 1]);
      if Known(states[i], g) { RunStays(mounts, states[i], chunks[i], g); }
      NotYetKnown(mounts, states, t, chunks, gave, i, g);
    }
  }

  /** When the history counts no file as open at its end, the open handles of
      redirections on every inode of every filesystem are those from before the
      history: none. */
  lemma HandlesReturn<N, H>(mounts: seq<MountPoint>, states: seq<Space<N, H>>, t: S.Trace,
                            chunks: seq<seq<R.SpaceOp<N, H>>>, gave: seq<Given<H>>, at: Place, n: N)
    requires Replays(mounts, states, t, chunks, gave) && Sound.OpenFiles(t) == Some([])
    requires Has(states[0], at) && Has(states[|t|], at)
    ensures OpenRedirects(states[|t|], t, gave, at, n) == OpenRedirects(states[0], t, gave, at, n) == {}
  {
    hide Replays, GoodSpace, Happens, Sound.OpenFiles, Part, SamePart, OpenOn, Sound.IsOpening, Has;
    ReplayLengths(mounts, states, t, chunks, gave);
    ReplayShows(mounts, states, t, chunks, gave, |t|);
    forall k | 0 <= k < |t| && Sound.IsOpening(t, k) && gave[k].Real? && SamePart(states[0].shows, gave[k].at, at)
      ensures gave[k].h !in OpenOn(Part(states[|t|], at).handles, n)
      ensures gave[k].h !in OpenOn(Part(states[0], at).handles, n)
    {
      OneReturns(mounts, states, t, chunks, gave, at, n, k);
    }
  }

  lemma OneReturns<N, H>(mounts: seq<MountPoint>, states: seq<Space<N, H>>, t: S.Trace,
                         chunks: seq<seq<R.SpaceOp<N, H>>>, gave: seq<Given<H>>, at: Place, n: N, k: nat)
    requires Replays(mounts, states, t, chunks, gave) && Sound.OpenFiles(t) == Some([])
    requires Has(states[0], at) && Has(states[|t|], at)
    requires k < |t| && Sound.IsOpening(t, k) && gave[k].Real? && SamePart(states[0].shows, gave[k].at, at)
    ensures gave[k].h !in OpenOn(Part(states[|t|], at).handles, n)
    ensures gave[k].h !in OpenOn(Part(states[0], at).handles, n)
  {
    hide GoodSpace, Sound.OpenFiles, Happens, AllAccounted, Part;
    Accounts(mounts, states, t, chunks, gave, |t|);
    ReplayShows(mounts, states, t, chunks, gave, |t|);
    assert t[..|t|] == t;
    OneAccounted(states[|t|], t, gave, k);
    assert Accounted(states[|t|], t, gave, |t|, k);
    assert Happens(mounts, states[k], t, k, chunks[k], gave, states[k + 1]);
    GivenIsNew(mounts, states[k], t, k, chunks[k], gave, states[k + 1]);
    NotYetKnown(mounts, states, t, chunks, gave, k, gave[k]);
    OnePart(states[|t|], at, gave[k].at);
    OnePart(states[0], at, gave[k].at);
  }

  lemma OneAccounted<N, H>(sp: Space<N, H>, t: S.Trace, gave: seq<Given<H>>, k: nat)
    requires |gave| == |t| && AllAccounted(sp, t, gave, |t|) && k < |t| && Sound.IsOpening(t, k)
    ensures Accounted(sp, t, gave, |t|, k)
  {
    hide Accounted;
  }

  lemma GivenIsNew<N, H>(mounts: seq<MountPoint>, sp: Space<N, H>, t: S.Trace, k: nat, ops: seq<R.SpaceOp<N, H>>,
                         gave: seq<Given<H>>, sp': Space<N, H>)
    requires GoodSpace(mounts, sp) && k < |t| == |gave| && Happens(mounts, sp, t, k, ops, gave, sp')
    requires Sound.IsOpening(t, k) && gave[k].Real?
    ensures !Known(sp, gave[k])
  {
    OpeningGives(mounts, sp, ops, t[k].path, t[k].op, gave[k]);
  }

  /** Every run of every program, replayed on any namespace: afterwards no handle
      that a redirection was given is open, on any inode of any filesystem. */
  lemma RunReturnsHandles<N, H>(o: S.Oracle, sh: S.Sh, src: string, io: S.IO, maxSteps: nat,
                                mounts: seq<MountPoint>, states: seq<Space<N, H>>,
                                chunks: seq<seq<R.SpaceOp<N, H>>>, gave: seq<Given<H>>, at: Place, n: N)
    requires sh.depth <= S.MAX_DEPTH
    requires Replays(mounts, states, E.Run(o, sh, src, io, maxSteps).w.trace, chunks, gave)
    requires Has(states[0], at) && Has(states[|states| - 1], at)
    ensures var t := E.Run(o, sh, src, io, maxSteps).w.trace;
            OpenRedirects(states[|states| - 1], t, gave, at, n) == OpenRedirects(states[0], t, gave, at, n) == {}
  {
    hide Replays, E.Run;
    Sound.RunIsSound(o, sh, src, io, maxSteps);
    ReplayLengths(mounts, states, E.Run(o, sh, src, io, maxSteps).w.trace, chunks, gave);
    HandlesReturn(mounts, states, E.Run(o, sh, src, io, maxSteps).w.trace, chunks, gave, at, n);
  }

  lemma ReplayLengths<N, H>(mounts: seq<MountPoint>, states: seq<Space<N, H>>, t: S.Trace,
                            chunks: seq<seq<R.SpaceOp<N, H>>>, gave: seq<Given<H>>)
    requires Replays(mounts, states, t, chunks, gave)
    ensures |states| == |t| + 1 && |gave| == |t|
  {
  }
}
