/** Two stages over a synchronous pipe, step by step: the left stage writes, the
    right one reads, either may leave first, and the run may be cancelled at any
    moment. */
module Pipes {
  import opened Store
  import opened ShellState
  import opened ShellEval

  /** What a read or a write is told when the pipe is closed. */
  datatype Ending = Eof | Because(error: Error) | ClosedEnd | ContextDone

  /** The left stage: at work, inside a write of which `rest` is not taken yet,
      finished but not yet out of the pipe, or gone. */
  datatype Writer = Working | Writing(rest: seq<byte>) | Leaving(result: Option<Error>) | Gone(result: Option<Error>)

  /** The right stage: at work, inside a read with that much room, finished, or gone. */
  datatype Reader = Thinking | Reading(room: nat) | Departing(result: Option<Error>) | Away(result: Option<Error>)

  datatype Pipe = Pipe(
    left: Writer, right: Reader,
    sent: seq<byte>,             // all that was passed to writes
    got: seq<byte>,              // all that reads returned
    werr: Option<Ending>,        // set by closing the write end
    rerr: Option<Ending>,        // set by closing the read end
    lost: bool,                  // some write was told that the pipe is closed
    told: Option<Ending>,        // what the last read that brought no bytes was told
    leftWork: nat, rightWork: nat)   // operations the stages have still to do

  datatype Act =
    | Write(p: seq<byte>) | Transfer | WriteFails | LeftDone(result: Option<Error>) | LeftCloses
    | Read(room: nat) | ReadFails | RightDone(result: Option<Error>) | RightCloses
    | Cancel

  predicate IsClosed(s: Pipe) { s.werr.Some? || s.rerr.Some? }

  function OrElse(e: Option<Ending>, d: Ending): Option<Ending> { if e.Some? then e else Some(d) }

  predicate Enabled(s: Pipe, a: Act) {
    match a
    case Write(_) => s.left.Working? && s.leftWork > 0
    case Transfer => s.left.Writing? && s.right.Reading?
    case WriteFails => s.left.Writing? && IsClosed(s)
    case LeftDone(_) => s.left.Working?
    case LeftCloses => s.left.Leaving?
    case Read(_) => s.right.Thinking? && s.rightWork > 0
    case ReadFails => s.right.Reading? && IsClosed(s)
    case RightDone(_) => s.right.Thinking?
    case RightCloses => s.right.Departing?
    case Cancel => s.werr != Some(ContextDone) && s.rerr != Some(ContextDone) && !(s.werr.Some? && s.rerr.Some?)
  }

  /** What a read at the closed pipe returns. */
  function ReadEnding(s: Pipe): Ending
    requires IsClosed(s)
  {
    if s.rerr.None? then s.werr.value else ClosedEnd
  }

  /** A write to a pipe that is closed already fails at once; a write under way
      can still be taken by a read under way. */
  function Apply(s: Pipe, a: Act): Pipe
    requires Enabled(s, a)
  {
    match a
    case Write(p) =>
      if IsClosed(s) then s.(sent := s.sent + p, lost := true, leftWork := s.leftWork - 1)
      else s.(left := Writing(p), sent := s.sent + p, leftWork := s.leftWork - 1)
    case Transfer =>
      var rest := s.left.rest;
      var n := if s.right.room <= |rest| then s.right.room else |rest|;
      s.(left := if n == |rest| then Working else Writing(rest[n..]), right := Thinking, got := s.got + rest[..n])
    case WriteFails => s.(left := Working, lost := true)
    case LeftDone(e) => s.(left := Leaving(e))
    case LeftCloses =>
      var e := Absorb(s.left.result, Exit);
      s.(left := Gone(s.left.result), werr := OrElse(s.werr, if e.None? then Eof else Because(e.value)))
    case Read(room) => s.(right := Reading(room), rightWork := s.rightWork - 1)
    case ReadFails => s.(right := Thinking, told := Some(ReadEnding(s)))
    case RightDone(e) => s.(right := Departing(e))
    case RightCloses => s.(right := Away(s.right.result), rerr := OrElse(s.rerr, ClosedEnd))
    case Cancel => s.(werr := OrElse(s.werr, ContextDone), rerr := OrElse(s.rerr, ContextDone))
  }

  function Initial(leftWork: nat, rightWork: nat): Pipe {
    Pipe(Working, Thinking, [], [], None, None, false, None, leftWork, rightWork)
  }

  predicate Finished(s: Pipe) { s.left.Gone? && s.right.Away? }

  // ---------------------------------------------------------------------
  // The invariant
  // ---------------------------------------------------------------------

  predicate Inv(s: Pipe) {
    && s.got <= s.sent
    && (!s.lost ==> s.sent == s.got + if s.left.Writing? then s.left.rest else [])
    && (s.left.Writing? ==> !s.lost)
    && (s.lost ==> s.rerr.Some?)
    && (s.left.Gone? ==> s.werr.Some?)
    && (s.right.Away? ==> s.rerr.Some?)
    && (s.told == Some(Eof) ==> s.left.Gone? && Absorb(s.left.result, Exit).None? && s.got == s.sent)
    && (s.werr == Some(Eof) ==> s.left.Gone? && Absorb(s.left.result, Exit).None?)
    && (s.rerr.Some? ==> s.rerr == Some(ClosedEnd) || s.rerr == Some(ContextDone))
    && (s.werr.Some? && !s.left.Gone? ==> s.werr == Some(ContextDone) && s.rerr.Some?)
  }

  lemma StepKeeps(s: Pipe, a: Act)
    requires Inv(s) && Enabled(s, a)
    ensures Inv(Apply(s, a))
  {
    match a
    case Transfer =>
      var rest := s.left.rest;
      var n := if s.right.room <= |rest| then s.right.room else |rest|;
      assert rest == rest[..n] + rest[n..];
      assert s.got + rest == s.got + rest[..n] + rest[n..];
    case Write(p) => assert s.got + [] == s.got;
    case _ =>
  }

  predicate Possible(s: Pipe, acts: seq<Act>)
    decreases |acts|
  {
    acts == [] || (Enabled(s, acts[0]) && Possible(Apply(s, acts[0]), acts[1..]))
  }

  function After(s: Pipe, acts: seq<Act>): Pipe
    requires Possible(s, acts)
    decreases |acts|
  {
    if acts == [] then s else After(Apply(s, acts[0]), acts[1..])
  }

  lemma {:induction false} RunKeeps(s: Pipe, acts: seq<Act>)
    requires Inv(s) && Possible(s, acts)
    ensures Inv(After(s, acts))
    decreases |acts|
  {
    if acts != [] {
      StepKeeps(s, acts[0]);
      RunKeeps(Apply(s, acts[0]), acts[1..]);
    }
  }

  // ---------------------------------------------------------------------
  // Progress
  // ---------------------------------------------------------------------

  /** Something other than cancelling that can happen next. */
  function Next(s: Pipe): Act {
    match (s.left, s.right)
    case (Working, _) => LeftDone(None)
    case (Leaving(_), _) => LeftCloses
    case (_, Thinking) => RightDone(None)
    case (_, Departing(_)) => RightCloses
    case (Writing(_), Reading(_)) => Transfer
    case (Writing(_), Away(_)) => WriteFails
    case (Gone(_), _) => ReadFails
  }

  /** How much can still happen. */
  function Remaining(s: Pipe): nat {
    (match s.left
     case Working => 2 * s.leftWork + 2
     case Writing(_) => 2 * s.leftWork + 3
     case Leaving(_) => 1
     case Gone(_) => 0) +
    (match s.right
     case Thinking => 2 * s.rightWork + 2
     case Reading(_) => 2 * s.rightWork + 3
     case Departing(_) => 1
     case Away(_) => 0) +
    (if s.werr.None? then 1 else 0) + (if s.rerr.None? then 1 else 0)
  }

  lemma StepShrinks(s: Pipe, a: Act)
    requires Enabled(s, a)
    ensures Remaining(Apply(s, a)) < Remaining(s)
  {
  }

  /** No deadlock: as long as a stage is not gone, something other than
      cancelling can happen. */
  lemma NoDeadlock(leftWork: nat, rightWork: nat, acts: seq<Act>)
    requires Possible(Initial(leftWork, rightWork), acts)
    ensures var s := After(Initial(leftWork, rightWork), acts);
            Finished(s) || (Enabled(s, Next(s)) && Next(s) != Cancel)
  {
    RunKeeps(Initial(leftWork, rightWork), acts);
  }

  /** Every run is finite: its length is bounded by the work of the stages. */
  lemma {:induction false} RunsEnd(s: Pipe, acts: seq<Act>)
    requires Possible(s, acts)
    ensures |acts| + Remaining(After(s, acts)) <= Remaining(s)
    decreases |acts|
  {
    if acts != [] {
      StepShrinks(s, acts[0]);
      RunsEnd(Apply(s, acts[0]), acts[1..]);
    }
  }

  /** From every reachable state the pipeline can be brought to its end. */
  lemma {:induction false} Completes(s: Pipe) returns (acts: seq<Act>)
    requires Inv(s)
    ensures Possible(s, acts) && Finished(After(s, acts))
    decreases Remaining(s)
  {
    if Finished(s) {
      acts := [];
    } else {
      var a := Next(s);
      StepKeeps(s, a);
      StepShrinks(s, a);
      var more := Completes(Apply(s, a));
      acts := [a] + more;
      assert acts[1..] == more;
    }
  }

  // ---------------------------------------------------------------------
  // What arrives
  // ---------------------------------------------------------------------

  /** At every moment of every run: what was read is a prefix of what was
      written; a reader told of a clean end has read all of it, from a stage
      that is gone without an error; a write is refused only when the reader is
      gone or the run was cancelled; and when both stages are gone and none was
      refused, all that was written was read. */
  lemma BytesArriveInOrder(leftWork: nat, rightWork: nat, acts: seq<Act>)
    requires Possible(Initial(leftWork, rightWork), acts)
    ensures var s := After(Initial(leftWork, rightWork), acts);
            && s.got <= s.sent
            && (s.told == Some(Eof) ==> s.got == s.sent && s.left.Gone? && Absorb(s.left.result, Exit).None?)
            && (s.lost ==> s.rerr == Some(ClosedEnd) || s.rerr == Some(ContextDone))
            && (Finished(s) && !s.lost ==> s.got == s.sent)
  {
    RunKeeps(Initial(leftWork, rightWork), acts);
  }

  /** A left stage that ended with an error never looks complete to the reader. */
  lemma FailureIsNotEof(leftWork: nat, rightWork: nat, acts: seq<Act>, a: Act)
    requires Possible(Initial(leftWork, rightWork), acts)
    requires a.ReadFails? && Enabled(After(Initial(leftWork, rightWork), acts), a)
    ensures var s := After(Initial(leftWork, rightWork), acts);
            s.left.Gone? && Absorb(s.left.result, Exit).Some? ==> Apply(s, a).told != Some(Eof)
  {
    RunKeeps(Initial(leftWork, rightWork), acts);
  }

  /** What the pipeline reports of a run that is over, from what its stages ended
      with and their statuses. */
  function Outcome(o: Oracle, c: Conf, s: Pipe, lcode: int, rcode: int): Out<int>
    requires Finished(s)
  {
    PipelineEnd(o, c, Out(c, s.left.result, lcode), Out(c, s.right.result, rcode))
  }

  /** Once the reader is gone nothing more is read, and a write under way ends only
      by being refused. */
  lemma {:induction false} AfterTheReader(s: Pipe, acts: seq<Act>)
    requires Inv(s) && s.right.Away? && Possible(s, acts)
    ensures var t := After(s, acts);
            && t.right == s.right && t.got == s.got && (s.lost ==> t.lost)
            && (s.left.Writing? ==> t.left == s.left || t.lost)
    decreases |acts|
  {
    if acts != [] {
      StepKeeps(s, acts[0]);
      AfterTheReader(Apply(s, acts[0]), acts[1..]);
    }
  }

  /** A writer left behind by a reader that finished early is released.  Its write
      fails next, whatever else happens; it can then end with the closed-pipe error
      and leave.  However the run goes on, once it is over the writer was told, the
      reader's result is what it was, and if the writer has ended with the
      closed-pipe error, that result is what the pipeline reports. */
  lemma AbandonedWriterIsReleased(o: Oracle, c: Conf, leftWork: nat, rightWork: nat, acts: seq<Act>, more: seq<Act>,
                                  lcode: int, rcode: int)
    requires Possible(Initial(leftWork, rightWork), acts)
    requires After(Initial(leftWork, rightWork), acts).left.Writing? &&
        After(Initial(leftWork, rightWork), acts).right.Away?
    requires Possible(After(Initial(leftWork, rightWork), acts), more)
    ensures var s := After(Initial(leftWork, rightWork), acts);
            && Enabled(s, WriteFails) && Apply(s, WriteFails).left.Working?
            && (forall a :: Enabled(s, a) && a != Cancel ==> a == WriteFails)
            && var out := [WriteFails, LeftDone(Some(Fail(ClosedPipe))), LeftCloses];
               Possible(s, out) && Finished(After(s, out))
               && After(s, out).left.result == Some(Fail(ClosedPipe))
    ensures var s := After(Initial(leftWork, rightWork), acts);
            var t := After(s, more);
            Finished(t) ==>
              && t.lost && t.got == s.got && t.right.result == s.right.result
              && (!o.cancelled(c.w.trace) && t.left.result == Some(Fail(ClosedPipe)) ==>
                    Outcome(o, c, t, lcode, rcode).value == rcode &&
                    Outcome(o, c, t, lcode, rcode).err == Absorb(s.right.result, Exit))
  {
    RunKeeps(Initial(leftWork, rightWork), acts);
    var s := After(Initial(leftWork, rightWork), acts);
    AfterTheReader(s, more);
    LeavesAfterRefusal(s);
  }

  lemma LeavesAfterRefusal(s: Pipe)
    requires Inv(s) && s.left.Writing? && s.right.Away?
    ensures var out := [WriteFails, LeftDone(Some(Fail(ClosedPipe))), LeftCloses];
            Possible(s, out) && Finished(After(s, out)) && After(s, out).left.result == Some(Fail(ClosedPipe))
  {
    var a, b := LeftDone(Some(Fail(ClosedPipe))), LeftCloses;
    var s1 := Apply(s, WriteFails);
    var s2 := Apply(s1, a);
    var s3 := Apply(s2, b);
    assert [WriteFails, a, b][1..] == [a, b] && [a, b][1..] == [b] && [b][1..] == [];
    assert Possible(s3, []) && After(s3, []) == s3;
    assert Possible(s2, [b]) && After(s2, [b]) == s3;
    assert Possible(s1, [a, b]) && After(s1, [a, b]) == s3;
  }
}
