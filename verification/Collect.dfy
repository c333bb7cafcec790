/**
 `spawn_and_collect`: two reader threads fill bounded buffers while a poll loop waits for the child,
 kills it when a reader tripped the cap, or gives up on a timeout. Steps of the child, the readers
 and the poll loop interleave freely.
 */
module Collect {
  import opened Wrappers
  import opened Seqs

  const READ_SIZE: nat := 8192

  /** `(cap / 2).max(1)` */
  function CapEach(cap: nat): nat {
    if cap / 2 > 1 then cap / 2 else 1
  }

  /**
   One stream: what the child wrote into it, whether it is closed, how far the reader has read, the
   chunk read but not yet stored, the shared buffer, and whether the reader stopped, and on an error.
   */
  datatype Pipe = Pipe(written: Bytes, closed: bool, pos: nat, chunk: Bytes, buf: Bytes, stopped: bool, failed: bool)

  datatype PipeStep = Write(bytes: Bytes) | Close | Read(n: nat) | ReadEof | ReadError | Store

  predicate PipeEnabled(p: Pipe, step: PipeStep) {
    match step
    case Write(bytes) => !p.closed
    case Close => !p.closed
    case Read(n) => !p.stopped && p.chunk == [] && 1 <= n <= READ_SIZE && p.pos + n <= |p.written|
    case ReadEof => !p.stopped && p.chunk == [] && p.closed && p.pos == |p.written|
    case ReadError => !p.stopped && p.chunk == []
    case Store => !p.stopped && p.chunk != []
  }

  /** The bytes of a chunk that still fit. */
  function Taken(p: Pipe, capEach: nat): Bytes {
    var room := if capEach > |p.buf| then capEach - |p.buf| else 0;
    if |p.chunk| <= room then p.chunk else p.chunk[..room]
  }

  /** One step of a stream, and whether it trips the cap. Storing and tripping share one critical section. */
  function PipeNext(p: Pipe, capEach: nat, step: PipeStep): (Pipe, bool) {
    match step
    case Write(bytes) => (p.(written := p.written + bytes), false)
    case Close => (p.(closed := true), false)
    case Read(n) =>
      if p.pos + n <= |p.written| then (p.(chunk := p.written[p.pos..p.pos + n], pos := p.pos + n), false) else (p, false)
    case ReadEof => (p.(stopped := true), false)
    case ReadError => (p.(stopped := true, failed := true), false)
    case Store =>
      var taken := Taken(p, capEach);
      var trips := |taken| < |p.chunk|;
      (p.(buf := p.buf + taken, chunk := [], stopped := trips), trips)
  }

  datatype CollectError = OutputCapExceeded(cap: nat) | Timeout | Backend

  datatype Output = Output(stdout: Bytes, stderr: Bytes, exit: int)

  datatype Poll = Polling | Joining(exit: int) | TimedOut | Answered(r: Result<Output, CollectError>)

  datatype State = State(out: Pipe, err: Pipe, truncated: bool, poll: Poll)

  datatype Step =
    | OutStep(step: PipeStep)
    | ErrStep(step: PipeStep)
    | ChildExited(exit: int)
    | KillTripped(exit: int)
    | TimeoutExpired
    | PollFailed
    | Finish

  predicate Enabled(s: State, step: Step) {
    match step
    case OutStep(p) => PipeEnabled(s.out, p)
    case ErrStep(p) => PipeEnabled(s.err, p)
    case ChildExited(_) => s.poll.Polling?
    case KillTripped(_) => s.poll.Polling? && s.truncated
    case TimeoutExpired => s.poll.Polling? && !s.truncated
    case PollFailed => s.poll.Polling?
    case Finish => (s.poll.Joining? || s.poll.TimedOut?) && s.out.stopped && s.err.stopped
  }

  function Next(cap: nat, s: State, step: Step): State {
    match step
    case OutStep(p) =>
      var (out, trips) := PipeNext(s.out, CapEach(cap), p);
      s.(out := out, truncated := s.truncated || trips)
    case ErrStep(p) =>
      var (err, trips) := PipeNext(s.err, CapEach(cap), p);
      s.(err := err, truncated := s.truncated || trips)
    case ChildExited(exit) => s.(poll := Joining(exit))
    case KillTripped(exit) => s.(poll := Joining(exit))
    case TimeoutExpired => s.(poll := TimedOut)
    case PollFailed => s.(poll := Answered(Err(Backend)))
    case Finish =>
      match s.poll
      case Joining(exit) =>
        s.(poll := Answered(if s.truncated then Err(OutputCapExceeded(cap)) else Ok(Output(s.out.buf, s.err.buf, exit))))
      case TimedOut => s.(poll := Answered(Err(Timeout)))
      case _ => s
  }

  const NewPipe: Pipe := Pipe([], false, 0, [], [], false, false)

  const Start: State := State(NewPipe, NewPipe, false, Polling)

  function After(cap: nat, steps: seq<Step>): State {
    if steps == [] then Start else Next(cap, After(cap, steps[..|steps| - 1]), steps[|steps| - 1])
  }

  /** Every interleaving of the child, the two readers and the poll loop. */
  ghost predicate IsRun(cap: nat, steps: seq<Step>) {
    steps == [] ||
    (IsRun(cap, steps[..|steps| - 1]) && Enabled(After(cap, steps[..|steps| - 1]), steps[|steps| - 1]))
  }

  // ---------- one stream ----------

  /** The reader has read a prefix, holds the end of it in its chunk, and stored the rest; it stops for a reason. */
  ghost predicate PipeHolds(p: Pipe, capEach: nat, tripped: bool) {
    && p.pos <= |p.written| && |p.chunk| <= p.pos
    && p.chunk == p.written[p.pos - |p.chunk|..p.pos]
    && |p.buf| <= capEach
    && p.buf <= p.written
    && (!p.stopped ==> |p.buf| == p.pos - |p.chunk|)
    && (p.failed ==> p.stopped && |p.buf| == p.pos)
    && (p.stopped ==> p.failed || (p.closed && p.buf == p.written) || (tripped && |p.written| > capEach))
  }

  /** More was written than the buffer may hold, and the reader ran into no error. */
  ghost predicate OverHalf(p: Pipe, capEach: nat) {
    |p.written| > capEach && !p.failed
  }

  ghost predicate Tripped(p: Pipe, capEach: nat) {
    OverHalf(p, capEach) && p.stopped
  }

  lemma {:induction false} StoreHolds(p: Pipe, capEach: nat, tripped: bool)
    requires PipeHolds(p, capEach, tripped) && PipeEnabled(p, Store)
    ensures var (q, trips) := PipeNext(p, capEach, Store); PipeHolds(q, capEach, tripped || trips)
    ensures PipeNext(p, capEach, Store).1 ==> Tripped(PipeNext(p, capEach, Store).0, capEach)
  {
    var taken := Taken(p, capEach);
    var at := |p.buf|;
    assert p.buf == p.written[..at];
    assert taken == p.written[at..at + |taken|] by {
      assert forall i :: 0 <= i < |taken| ==> taken[i] == p.chunk[i] == p.written[at + i];
    }
    assert p.buf + taken == p.written[..at + |taken|];
  }

  lemma {:induction false} PipeKept(p: Pipe, capEach: nat, tripped: bool, step: PipeStep)
    requires PipeHolds(p, capEach, tripped) && PipeEnabled(p, step)
    ensures var (q, trips) := PipeNext(p, capEach, step); PipeHolds(q, capEach, tripped || trips)
    ensures PipeNext(p, capEach, step).1 || Tripped(p, capEach) ==> Tripped(PipeNext(p, capEach, step).0, capEach)
  {
    match step {
      case Write(bytes) =>
        var all := p.written + bytes;
        assert all[p.pos - |p.chunk|..p.pos] == p.written[p.pos - |p.chunk|..p.pos];
      case Store => StoreHolds(p, capEach, tripped);
      case _ =>
    }
  }

  lemma {:induction false} PipeOutlives(p: Pipe, capEach: nat, tripped: bool, later: bool)
    requires PipeHolds(p, capEach, tripped) && (tripped ==> later)
    ensures PipeHolds(p, capEach, later)
  {
  }

  // ---------- the whole ----------

  ghost predicate Holds(cap: nat, s: State) {
    && PipeHolds(s.out, CapEach(cap), s.truncated)
    && PipeHolds(s.err, CapEach(cap), s.truncated)
    && (s.truncated ==> Tripped(s.out, CapEach(cap)) || Tripped(s.err, CapEach(cap)))
    && (s.poll.Answered? && (s.poll.r.Ok? || s.poll.r.error.OutputCapExceeded?) ==> s.out.stopped && s.err.stopped)
    && (s.poll.Answered? && s.poll.r.Ok? ==>
          !s.truncated && s.poll.r.value.stdout == s.out.buf && s.poll.r.value.stderr == s.err.buf)
    && (s.poll.Answered? && s.poll.r.Err? && s.poll.r.error.OutputCapExceeded? ==> s.truncated)
  }

  lemma {:induction false} StepKept(cap: nat, s: State, step: Step)
    requires Holds(cap, s) && Enabled(s, step)
    ensures Holds(cap, Next(cap, s, step))
  {
    var t := Next(cap, s, step);
    match step {
      case OutStep(p) =>
        PipeKept(s.out, CapEach(cap), s.truncated, p);
        PipeOutlives(s.err, CapEach(cap), s.truncated, t.truncated);
      case ErrStep(p) =>
        PipeKept(s.err, CapEach(cap), s.truncated, p);
        PipeOutlives(s.out, CapEach(cap), s.truncated, t.truncated);
      case _ =>
    }
  }

  lemma {:induction false} RunsHold(cap: nat, steps: seq<Step>)
    requires IsRun(cap, steps)
    ensures Holds(cap, After(cap, steps))
  {
    if steps != [] {
      RunsHold(cap, steps[..|steps| - 1]);
      StepKept(cap, After(cap, steps[..|steps| - 1]), steps[|steps| - 1]);
    }
  }

  /** At most half the cap, or a single byte. */
  predicate WithinHalf(cap: nat, bytes: Bytes) {
    2 * |bytes| <= cap || |bytes| <= 1
  }

  /** At every moment of every run, each buffer is a prefix of what was written and within half the cap. */
  lemma {:induction false} BuffersAreBoundedPrefixes(cap: nat, steps: seq<Step>)
    requires IsRun(cap, steps)
    ensures var s := After(cap, steps);
            && s.out.buf <= s.out.written && WithinHalf(cap, s.out.buf)
            && s.err.buf <= s.err.written && WithinHalf(cap, s.err.buf)
  {
    RunsHold(cap, steps);
  }

  /** The reader saw no error, or saw it behind the last byte that was written. */
  ghost predicate ReadToTheEnd(p: Pipe) {
    !p.failed || p.pos == |p.written|
  }

  /**
   A stream in an `Ok` answer is whole iff its reader did not fail, or failed behind the last byte. In
   particular, without read errors `Ok` carries both streams whole, and neither went over its half.
   */
  lemma {:induction false} OkMeansWhole(cap: nat, steps: seq<Step>)
    requires IsRun(cap, steps)
    requires var s := After(cap, steps); s.poll.Answered? && s.poll.r.Ok?
    ensures var s := After(cap, steps);
            && (s.poll.r.value.stdout == s.out.written <==> ReadToTheEnd(s.out))
            && (s.poll.r.value.stderr == s.err.written <==> ReadToTheEnd(s.err))
            && (!s.out.failed ==> s.out.closed && |s.out.written| <= CapEach(cap))
            && (!s.err.failed ==> s.err.closed && |s.err.written| <= CapEach(cap))
  {
    RunsHold(cap, steps);
  }

  /**
   Once an answer other than a timeout or a failed wait is in, it is the cap error exactly when some
   stream went over its half and its reader did not fail.
   */
  lemma {:induction false} CapErrorIffOverHalf(cap: nat, steps: seq<Step>)
    requires IsRun(cap, steps)
    requires var s := After(cap, steps); s.poll.Answered? && (s.poll.r.Ok? || s.poll.r.error.OutputCapExceeded?)
    ensures var s := After(cap, steps);
            s.poll.r.Err? <==> OverHalf(s.out, CapEach(cap)) || OverHalf(s.err, CapEach(cap))
  {
    RunsHold(cap, steps);
  }

  // ---------- what ends the wait ----------

  /** The steps by which the poll loop stops waiting. */
  predicate Decides(step: Step) {
    step.ChildExited? || step.KillTripped? || step.TimeoutExpired? || step.PollFailed?
  }

  function Decisions(steps: seq<Step>): seq<Step> {
    Filter(steps, Decides)
  }

  /** The one step that ended the wait, if any has, is the one the poll loop answers for. */
  ghost predicate DecidedOnce(s: State, decisions: seq<Step>) {
    match s.poll
    case Polling => decisions == []
    case Joining(exit) => decisions == [ChildExited(exit)] || (decisions == [KillTripped(exit)] && s.truncated)
    case TimedOut => decisions == [TimeoutExpired]
    case Answered(Ok(output)) => decisions == [ChildExited(output.exit)]
    case Answered(Err(error)) =>
      match error
      case OutputCapExceeded(_) => |decisions| == 1 && (decisions[0].ChildExited? || decisions[0].KillTripped?)
      case Timeout => decisions == [TimeoutExpired]
      case Backend => decisions == [PollFailed]
  }

  lemma {:induction false} DecisionKept(cap: nat, s: State, step: Step, decisions: seq<Step>)
    requires DecidedOnce(s, decisions) && Enabled(s, step)
    ensures DecidedOnce(Next(cap, s, step), if Decides(step) then decisions + [step] else decisions)
  {
  }

  /**
   Over every run exactly one step ends the wait, and the answer follows it: `Ok` with the status of a
   child that ended by itself, the cap error behind an end or a kill, a timeout or a failed wait.
   */
  lemma {:induction false} AnswerFollowsDecision(cap: nat, steps: seq<Step>)
    requires IsRun(cap, steps)
    ensures DecidedOnce(After(cap, steps), Decisions(steps))
  {
    if steps != [] {
      var init, last := steps[..|steps| - 1], steps[|steps| - 1];
      AnswerFollowsDecision(cap, init);
      assert steps == init + [last];
      FilterAppend(init, last, Decides);
      DecisionKept(cap, After(cap, init), last, Decisions(init));
    }
  }

  /** A read error is taken for end of file: `Ok` can then carry a stream cut short. */
  lemma {:induction false} ReadErrorCanCutShort(cap: nat, b: bv8)
    requires cap >= 2
    ensures exists steps ::
              && IsRun(cap, steps)
              && After(cap, steps).poll == Answered(Ok(Output([], [], 0)))
              && After(cap, steps).out.written == [b]
  {
    var r0: seq<Step> := [];
    var r1 := Extend(cap, r0, OutStep(Write([b])));
    var r2 := Extend(cap, r1, OutStep(ReadError));
    var r3 := Extend(cap, r2, ErrStep(Close));
    var r4 := Extend(cap, r3, ErrStep(ReadEof));
    var r5 := Extend(cap, r4, ChildExited(0));
    var r6 := Extend(cap, r5, Finish);
  }

  lemma {:induction false} Extend(cap: nat, steps: seq<Step>, step: Step) returns (more: seq<Step>)
    requires IsRun(cap, steps) && Enabled(After(cap, steps), step)
    ensures more == steps + [step] && IsRun(cap, more) && After(cap, more) == Next(cap, After(cap, steps), step)
  {
    more := steps + [step];
    assert more[..|steps|] == steps;
  }

  // ---------- what can be answered ----------

  /** A stream that holds `bytes` and is closed, read and stored up to `pos`. */
  function ReadUpTo(bytes: Bytes, pos: nat, stopped: bool): Pipe
    requires pos <= |bytes|
  {
    Pipe(bytes, true, pos, [], bytes[..pos], stopped, false)
  }

  /** The state with one of its streams replaced, and a step of that stream. */
  function With(s: State, out: bool, p: Pipe): State {
    if out then s.(out := p) else s.(err := p)
  }

  function StepOf(out: bool, step: PipeStep): Step {
    if out then OutStep(step) else ErrStep(step)
  }

  lemma {:induction false} ReadAndStore(bytes: Bytes, pos: nat, n: nat, capEach: nat)
    requires 1 <= n <= READ_SIZE && pos + n <= |bytes| <= capEach
    ensures var p := ReadUpTo(bytes, pos, false);
            var (read, trips) := PipeNext(p, capEach, Read(n));
            && PipeEnabled(p, Read(n)) && !trips && PipeEnabled(read, Store)
            && PipeNext(read, capEach, Store) == (ReadUpTo(bytes, pos + n, false), false)
  {
    assert bytes[..pos] + bytes[pos..pos + n] == bytes[..pos + n];
  }

  /** One stream within its half is read to its end, whatever the other does. */
  lemma {:induction false} ReadOn(cap: nat, steps: seq<Step>, out: bool, bytes: Bytes, pos: nat, s: State) returns (more: seq<Step>)
    requires pos <= |bytes| <= CapEach(cap) && IsRun(cap, steps) && After(cap, steps) == With(s, out, ReadUpTo(bytes, pos, false))
    ensures IsRun(cap, more) && After(cap, more) == With(s, out, ReadUpTo(bytes, |bytes|, true))
    decreases |bytes| - pos
  {
    if pos == |bytes| {
      more := Extend(cap, steps, StepOf(out, ReadEof));
    } else {
      var n := if |bytes| - pos > READ_SIZE then READ_SIZE else |bytes| - pos;
      ReadAndStore(bytes, pos, n, CapEach(cap));
      var read := Extend(cap, steps, StepOf(out, Read(n)));
      var stored := Extend(cap, read, StepOf(out, Store));
      more := ReadOn(cap, stored, out, bytes, pos + n, s);
    }
  }

  /** The child writes a stream and closes it, and its reader reads it whole. */
  lemma {:induction false} WriteAndRead(cap: nat, steps: seq<Step>, out: bool, bytes: Bytes, s: State) returns (more: seq<Step>)
    requires |bytes| <= CapEach(cap) && IsRun(cap, steps) && After(cap, steps) == With(s, out, NewPipe)
    ensures IsRun(cap, more) && After(cap, more) == With(s, out, ReadUpTo(bytes, |bytes|, true))
  {
    var written := Extend(cap, steps, StepOf(out, Write(bytes)));
    assert [] + bytes == bytes;
    var closed := Extend(cap, written, StepOf(out, Close));
    more := ReadOn(cap, closed, out, bytes, 0, s);
  }

  /** Any two streams within their halves, and any exit status, can be answered whole. */
  lemma {:induction false} WithinHalvesCanBeOk(cap: nat, out: Bytes, err: Bytes, exit: int) returns (steps: seq<Step>)
    requires WithinHalf(cap, out) && WithinHalf(cap, err)
    ensures IsRun(cap, steps)
    ensures After(cap, steps).poll == Answered(Ok(Output(out, err, exit)))
    ensures After(cap, steps).out.written == out && After(cap, steps).err.written == err
  {
    var none: seq<Step> := [];
    var outRead := WriteAndRead(cap, none, true, out, Start);
    var errRead := WriteAndRead(cap, outRead, false, err, After(cap, outRead));
    var exited := Extend(cap, errRead, ChildExited(exit));
    steps := Extend(cap, exited, Finish);
    assert out[..|out|] == out && err[..|err|] == err;
  }

  lemma {:induction false} ReadAndTrip(bytes: Bytes, pos: nat, n: nat, capEach: nat)
    requires 1 <= n <= READ_SIZE && pos <= capEach < pos + n <= |bytes|
    ensures var p := ReadUpTo(bytes, pos, false);
            var (read, trips) := PipeNext(p, capEach, Read(n));
            && PipeEnabled(p, Read(n)) && !trips && PipeEnabled(read, Store)
            && PipeNext(read, capEach, Store) == (Pipe(bytes, true, pos + n, [], bytes[..capEach], true, false), true)
  {
    assert bytes[pos..pos + n][..capEach - pos] == bytes[pos..capEach];
    assert bytes[..pos] + bytes[pos..capEach] == bytes[..capEach];
  }

  /** A stream over its half is read until it trips the cap. */
  lemma {:induction false} ReadUntilTrip(cap: nat, steps: seq<Step>, out: bool, bytes: Bytes, pos: nat, s: State) returns (more: seq<Step>)
    requires pos <= CapEach(cap) < |bytes| && IsRun(cap, steps) && After(cap, steps) == With(s, out, ReadUpTo(bytes, pos, false))
    ensures IsRun(cap, more) && After(cap, more).truncated && After(cap, more).poll == s.poll
    ensures exists pos: nat :: After(cap, more) == With(s, out, Pipe(bytes, true, pos, [], bytes[..CapEach(cap)], true, false)).(truncated := true)
    decreases |bytes| - pos
  {
    var n := if |bytes| - pos > READ_SIZE then READ_SIZE else |bytes| - pos;
    var read := Extend(cap, steps, StepOf(out, Read(n)));
    if pos + n > CapEach(cap) {
      ReadAndTrip(bytes, pos, n, CapEach(cap));
      more := Extend(cap, read, StepOf(out, Store));
    } else {
      assert bytes[..pos] + bytes[pos..pos + n] == bytes[..pos + n];
      var stored := Extend(cap, read, StepOf(out, Store));
      more := ReadUntilTrip(cap, stored, out, bytes, pos + n, s);
    }
  }

  /** If a stream goes over its half, the child can be killed for it and the answer be the cap error. */
  lemma {:induction false} OverHalfCanBeKilled(cap: nat, bytes: Bytes, out: bool, exit: int) returns (steps: seq<Step>)
    requires !WithinHalf(cap, bytes)
    ensures IsRun(cap, steps) && After(cap, steps).poll == Answered(Err(OutputCapExceeded(cap))) && KillTripped(exit) in steps
    ensures (if out then After(cap, steps).out.written else After(cap, steps).err.written) == bytes
  {
    var none: seq<Step> := [];
    var other := WriteAndRead(cap, none, !out, [], Start);
    var s := After(cap, other);
    var written := Extend(cap, other, StepOf(out, Write(bytes)));
    assert [] + bytes == bytes;
    var closed := Extend(cap, written, StepOf(out, Close));
    var tripped := ReadUntilTrip(cap, closed, out, bytes, 0, s);
    var killed := Extend(cap, tripped, KillTripped(exit));
    steps := Extend(cap, killed, Finish);
  }

  /** Time can be up as long as nothing tripped the cap. */
  lemma {:induction false} TimeCanBeUp(cap: nat) returns (steps: seq<Step>)
    ensures IsRun(cap, steps) && After(cap, steps).poll == Answered(Err(Timeout))
  {
    var none: seq<Step> := [];
    var expired := Extend(cap, none, TimeoutExpired);
    var outRead := WriteAndRead(cap, expired, true, [], After(cap, expired));
    var errRead := WriteAndRead(cap, outRead, false, [], After(cap, outRead));
    steps := Extend(cap, errRead, Finish);
  }
}
