// The two-way byte pipe of a browser session: two copy loops, a main goroutine that waits for
// them, and an idle watchdog.
module Pipe {
  import opened Wrappers

  const BUFFER_SIZE: nat := 32768

  // ---- One copy loop ----

  // What one Read of the source delivers: some bytes, and whether it also reports an error.
  datatype ReadResult = ReadResult(data: seq<byte>, failed: bool)

  function Concat(input: seq<ReadResult>): seq<byte> {
    if input == [] then [] else Concat(input[..|input| - 1]) + input[|input| - 1].data
  }

  predicate AnyData(input: seq<ReadResult>) {
    exists i :: 0 <= i < |input| && input[i].data != []
  }

  lemma OneMore(input: seq<ReadResult>, n: nat)
    requires n < |input|
    ensures Concat(input[..n + 1]) == Concat(input[..n]) + input[n].data
    ensures AnyData(input[..n + 1]) <==> AnyData(input[..n]) || input[n].data != []
  {
    var more := input[..n + 1];
    assert more[..n] == input[..n] && more[n] == input[n];
    forall i | 0 <= i < n ensures more[i] == input[..n][i] {}
  }

  // The receiving connection. A write that fails may still have accepted some bytes, or all.
  class Sink {
    var got: seq<byte>
    var broken: bool

    constructor ()
      ensures got == [] && !broken
    {
      got, broken := [], false;
    }

    method Write(p: seq<byte>) returns (ok: bool)
      modifies this
      ensures old(got) <= got <= old(got) + p
      ensures ok ==> got == old(got) + p
      ensures broken == (old(broken) || !ok)
    {
      var n: nat :| n <= |p|;
      got := got + p[..n];
      ok := *;
      ok := ok && n == |p|;
      broken := broken || !ok;
    }
  }

  datatype Ending = SourceFailed | SinkFailed | StillOpen

  // Read puts what it delivers at the front of the caller's buffer.
  method Fill(buf: array<byte>, data: seq<byte>) returns (n: nat)
    requires |data| <= buf.Length
    modifies buf
    ensures n == |data| && buf[..n] == data && buf[n..] == old(buf[n..])
  {
    n := |data|;
    forall i | 0 <= i < n {
      buf[i] := data[i];
    }
  }

  // What a write of one more chunk leaves: all of it, or a prefix at most one chunk short.
  lemma ChunkWritten(start: seq<byte>, before: seq<byte>, chunk: seq<byte>, got: seq<byte>)
    requires start + before <= got <= (start + before) + chunk
    ensures start <= got <= start + (before + chunk)
    ensures |start + (before + chunk)| - |got| <= |chunk|
    ensures got == (start + before) + chunk ==> got == start + (before + chunk)
  {
    assert (start + before) + chunk == start + (before + chunk);
  }

  // Copies until either side fails. input is what the source delivers, read by read; if it runs
  // out with neither side failing, the loop is still waiting for more.
  method CopyOne(dst: Sink, input: seq<ReadResult>) returns (taken: nat, active: bool, end: Ending)
    requires forall i :: 0 <= i < |input| ==> |input[i].data| <= 32768
    modifies dst
    ensures taken <= |input|
    ensures old(dst.got) <= dst.got <= old(dst.got) + Concat(input[..taken])
    ensures |old(dst.got) + Concat(input[..taken])| - |dst.got| <= 32768
    ensures end != SinkFailed ==> dst.got == old(dst.got) + Concat(input[..taken])
    ensures dst.broken == (old(dst.broken) || end == SinkFailed)
    ensures end == SourceFailed ==> taken > 0 && input[taken - 1].failed
    ensures end == StillOpen ==> taken == |input| && forall i :: 0 <= i < taken ==> !input[i].failed
    ensures active <==> AnyData(input[..taken])
    ensures forall i :: 0 <= i < taken - 1 ==> !input[i].failed
  {
    var buf := new byte[BUFFER_SIZE];
    taken, active := 0, false;
    while taken < |input|
      invariant taken <= |input| && dst.broken == old(dst.broken)
      invariant dst.got == old(dst.got) + Concat(input[..taken])
      invariant active <==> AnyData(input[..taken])
      invariant forall i :: 0 <= i < taken ==> !input[i].failed
    {
      var data, failed := input[taken].data, input[taken].failed;
      OneMore(input, taken);
      ghost var before := Concat(input[..taken]);
      var n := Fill(buf, data);
      taken := taken + 1;
      if n > 0 {
        active := true;
        var ok := dst.Write(buf[..n]);
        ChunkWritten(old(dst.got), before, data, dst.got);
        if !ok {
          return taken, active, SinkFailed;
        }
      }
      if failed {
        return taken, active, SourceFailed;
      }
    }
    end := StillOpen;
  }

  // ---- The whole pipe, in time ----

  // Reading: in Read. Noting: Read has delivered a chunk (last: together with an error) that is
  // not yet recorded as activity. Writing: recorded, in Write. Stopping: out of the loop.
  // Cancelled: its deferred cancel has run. Exited: its deferred Done has run too.
  datatype Copier =
    | Reading
    | Noting(chunk: seq<byte>, last: bool)
    | Writing(chunk: seq<byte>, last: bool)
    | Stopping
    | Cancelled
    | Exited

  // got: all bytes read from the source. put: all bytes accepted by the destination.
  datatype Direction = Direction(pc: Copier, got: seq<byte>, put: seq<byte>)

  // Fired: the flag was down at a tick; it goes on to cancel, close a, close b and return.
  datatype Watchdog = Armed | Fired | ClosingA | ClosingB | Retired

  datatype Waiter = AwaitDone | CloseA | CloseB | AwaitCopiers | Returned

  // What the watchdog sees. Times are in nanoseconds. lastNote and idleAtFire are history
  // variables: when a copier last recorded activity (or the start), and how long ago that was
  // when the watchdog fired.
  datatype Clock = Clock(
    watchdog: Watchdog, active: bool, now: nat, nextTick: nat, lastNote: nat, idleAtFire: Option<int>) {
    function Idle(): int { now - lastNote }
  }

  datatype State = State(
    toA: Direction, toB: Direction,
    cancelled: bool, aClosed: bool, bClosed: bool,
    main: Waiter, clock: Clock)

  const IDLE_TIMEOUT: nat := 1_800_000_000_000

  datatype Side = A | B

  datatype Action =
    | Read(d: Side, data: seq<byte>, failed: bool)
    | Note(d: Side)
    | Write(d: Side, accepted: nat, failed: bool)
    | CancelCopier(d: Side)
    | ExitCopier(d: Side)
    | Cancel
    | Tick
    | WatchdogStep
    | WatchdogRetires
    | MainStep
    | Pass(time: nat)

  function Init(): State {
    State(Direction(Reading, [], []), Direction(Reading, [], []),
          false, false, false, AwaitDone, Clock(Armed, false, 0, IDLE_TIMEOUT, 0, None))
  }

  // The copy loop that writes to side d.
  function Copying(s: State, d: Side): Direction {
    if d.A? then s.toA else s.toB
  }

  function With(s: State, d: Side, x: Direction): State {
    if d.A? then s.(toA := x) else s.(toB := x)
  }

  // The ticker fires on time: while the watchdog is armed, time does not pass its next tick.
  predicate Enabled(s: State, a: Action) {
    match a
    case Read(d, data, _) => Copying(s, d).pc.Reading? && |data| <= BUFFER_SIZE
    case Write(d, accepted, failed) =>
      && Copying(s, d).pc.Writing?
      && accepted <= |Copying(s, d).pc.chunk|
      && (!failed ==> accepted == |Copying(s, d).pc.chunk|)
    case Note(d) => Copying(s, d).pc.Noting?
    case CancelCopier(d) => Copying(s, d).pc.Stopping?
    case ExitCopier(d) => Copying(s, d).pc.Cancelled?
    case Cancel => true
    case Tick => s.clock.watchdog.Armed? && s.clock.now == s.clock.nextTick
    case WatchdogStep => s.clock.watchdog.Fired? || s.clock.watchdog.ClosingA? || s.clock.watchdog.ClosingB?
    case WatchdogRetires => s.clock.watchdog.Armed? && s.cancelled
    case MainStep =>
      (match s.main
       case AwaitDone => s.cancelled
       case AwaitCopiers => s.toA.pc.Exited? && s.toB.pc.Exited?
       case Returned => false
       case _ => true)
    case Pass(time) => s.clock.watchdog.Armed? ==> s.clock.now + time <= s.clock.nextTick
  }

  function Apply(s: State, a: Action): State
    requires Enabled(s, a)
  {
    match a
    case Read(d, data, failed) =>
      var x := Copying(s, d);
      var pc := if data != [] then Noting(data, failed) else if failed then Stopping else Reading;
      With(s, d, Direction(pc, x.got + data, x.put))
    case Note(d) =>
      var x := Copying(s, d);
      With(s, d, x.(pc := Writing(x.pc.chunk, x.pc.last))).(
        clock := s.clock.(active := true, lastNote := s.clock.now))
    case Write(d, accepted, failed) =>
      var x := Copying(s, d);
      var pc := if failed || x.pc.last then Stopping else Reading;
      With(s, d, Direction(pc, x.got, x.put + x.pc.chunk[..accepted]))
    case CancelCopier(d) => With(s, d, Copying(s, d).(pc := Cancelled)).(cancelled := true)
    case ExitCopier(d) => With(s, d, Copying(s, d).(pc := Exited))
    case Cancel => s.(cancelled := true)
    case Tick =>
      if s.clock.active
      then s.(clock := s.clock.(active := false, nextTick := s.clock.nextTick + IDLE_TIMEOUT))
      else s.(clock := s.clock.(watchdog := Fired, idleAtFire := Some(s.clock.Idle())))
    case WatchdogStep =>
      (match s.clock.watchdog
       case Fired => s.(cancelled := true, clock := s.clock.(watchdog := ClosingA))
       case ClosingA => s.(aClosed := true, clock := s.clock.(watchdog := ClosingB))
       case ClosingB => s.(bClosed := true, clock := s.clock.(watchdog := Retired)))
    case WatchdogRetires => s.(clock := s.clock.(watchdog := Retired))
    case MainStep =>
      (match s.main
       case AwaitDone => s.(main := CloseA)
       case CloseA => s.(aClosed := true, main := CloseB)
       case CloseB => s.(bClosed := true, main := AwaitCopiers)
       case AwaitCopiers => s.(main := Returned))
    case Pass(time) => s.(clock := s.clock.(now := s.clock.now + time))
  }

  predicate IsRun(tr: seq<State>, acts: seq<Action>) {
    && |tr| == |acts| + 1 && tr[0] == Init()
    && forall i :: 0 <= i < |acts| ==>
         Enabled(tr[i], acts[i]) && tr[i + 1] == Apply(tr[i], acts[i])
  }

  // ---- Invariant ----

  predicate DirectionOk(x: Direction) {
    match x.pc
    case Reading => x.put == x.got
    case Noting(chunk, _) => x.put + chunk == x.got && |chunk| <= BUFFER_SIZE
    case Writing(chunk, _) => x.put + chunk == x.got && |chunk| <= BUFFER_SIZE
    case _ => x.put <= x.got && |x.got| - |x.put| <= BUFFER_SIZE
  }

  // The copier's deferred cancel has run.
  predicate Unwound(x: Direction) {
    x.pc.Cancelled? || x.pc.Exited?
  }

  predicate TeardownOk(s: State) {
    && (Unwound(s.toA) || Unwound(s.toB) || !s.main.AwaitDone? ==> s.cancelled)
    && (s.clock.watchdog.ClosingA? || s.clock.watchdog.ClosingB? ==> s.cancelled)
    && (s.main.CloseB? || s.main.AwaitCopiers? || s.main.Returned? ==> s.aClosed)
    && (s.main.AwaitCopiers? || s.main.Returned? ==> s.bClosed)
    && (s.main.Returned? ==> s.toA.pc.Exited? && s.toB.pc.Exited?)
  }

  // Between two ticks, active says whether activity was recorded since the earlier one; if not,
  // some was recorded in the period before it.
  predicate ClockOk(c: Clock) {
    && c.lastNote <= c.now
    && (c.watchdog.Armed? ==>
          var lastTick := c.nextTick - IDLE_TIMEOUT;
          && c.idleAtFire.None?
          && 0 <= lastTick <= c.now <= c.nextTick
          && (if c.active then lastTick <= c.lastNote else lastTick - IDLE_TIMEOUT <= c.lastNote <= lastTick))
    && (c.watchdog.Fired? || c.watchdog.ClosingA? || c.watchdog.ClosingB? ==> c.idleAtFire.Some?)
    && (c.idleAtFire.Some? ==> IDLE_TIMEOUT <= c.idleAtFire.value <= 2 * IDLE_TIMEOUT)
  }

  predicate Inv(s: State) {
    DirectionOk(s.toA) && DirectionOk(s.toB) && TeardownOk(s) && ClockOk(s.clock)
  }

  predicate OfCopier(a: Action) {
    a.Read? || a.Note? || a.Write? || a.CancelCopier? || a.ExitCopier?
  }

  lemma StepDirection(s: State, a: Action, d: Side)
    requires DirectionOk(Copying(s, d)) && Enabled(s, a)
    ensures DirectionOk(Copying(Apply(s, a), d))
  {
    if !OfCopier(a) || a.d != d {
      assert Copying(Apply(s, a), d) == Copying(s, d);
    }
  }

  lemma StepTeardown(s: State, a: Action)
    requires TeardownOk(s) && Enabled(s, a)
    ensures TeardownOk(Apply(s, a))
  {
  }

  lemma StepClock(s: State, a: Action)
    requires ClockOk(s.clock) && Enabled(s, a)
    ensures ClockOk(Apply(s, a).clock)
  {
  }

  lemma {:induction false} InvAlong(tr: seq<State>, acts: seq<Action>, k: nat)
    requires IsRun(tr, acts) && k < |tr|
    ensures Inv(tr[k])
  {
    if k > 0 {
      InvAlong(tr, acts, k - 1);
      StepDirection(tr[k - 1], acts[k - 1], A);
      StepDirection(tr[k - 1], acts[k - 1], B);
      StepTeardown(tr[k - 1], acts[k - 1]);
      StepClock(tr[k - 1], acts[k - 1]);
    }
  }

  // ---- Over whole runs ----

  // Each way, what was written is a prefix of what was read, at most one buffer short of it, and
  // nothing is missing whenever the copier is waiting for more.
  lemma WrittenIsPrefixOfRead(tr: seq<State>, acts: seq<Action>, k: nat, d: Side)
    requires IsRun(tr, acts) && k < |tr|
    ensures Copying(tr[k], d).put <= Copying(tr[k], d).got
    ensures |Copying(tr[k], d).got| - |Copying(tr[k], d).put| <= 32768
    ensures Copying(tr[k], d).pc.Reading? ==> Copying(tr[k], d).put == Copying(tr[k], d).got
  {
    InvAlong(tr, acts, k);
  }

  lemma ReturnsAfterTeardown(tr: seq<State>, acts: seq<Action>, k: nat)
    requires IsRun(tr, acts) && k < |tr| && tr[k].main.Returned?
    ensures tr[k].toA.pc.Exited? && tr[k].toB.pc.Exited?
    ensures tr[k].aClosed && tr[k].bClosed && tr[k].cancelled
  {
    InvAlong(tr, acts, k);
  }

  // What a watchdog that has fired has done by each of its program points: in the end, cancelled
  // the context and closed both connections.
  predicate FiringOk(s: State) {
    && (s.clock.watchdog.Armed? ==> s.clock.idleAtFire.None?)
    && (s.clock.watchdog.ClosingA? ==> s.cancelled)
    && (s.clock.watchdog.ClosingB? ==> s.cancelled && s.aClosed)
    && (s.clock.watchdog.Retired? && s.clock.idleAtFire.Some? ==> s.cancelled && s.aClosed && s.bClosed)
    && (s.clock.watchdog.Retired? ==> s.cancelled)
  }

  lemma FiringStep(s: State, a: Action)
    requires FiringOk(s) && Enabled(s, a)
    ensures FiringOk(Apply(s, a))
  {
  }

  lemma {:induction false} FiringAlong(tr: seq<State>, acts: seq<Action>, k: nat)
    requires IsRun(tr, acts) && k < |tr|
    ensures FiringOk(tr[k])
  {
    if k > 0 {
      FiringAlong(tr, acts, k - 1);
      FiringStep(tr[k - 1], acts[k - 1]);
    }
  }

  // A watchdog that has fired and returned has ended the session: the context is cancelled and
  // both connections are closed. It never returns otherwise unless the context is cancelled.
  lemma FiringEndsTheSession(tr: seq<State>, acts: seq<Action>, k: nat)
    requires IsRun(tr, acts) && k < |tr| && tr[k].clock.watchdog.Retired?
    ensures tr[k].cancelled
    ensures tr[k].clock.idleAtFire.Some? ==> tr[k].aClosed && tr[k].bClosed
  {
    FiringAlong(tr, acts, k);
  }

  // Why the session ends, by one step: somebody outside cancels, a copier unwinds, or the
  // watchdog, having fired, cancels.
  predicate CancelsNow(s: State, a: Action) {
    a.Cancel? || a.CancelCopier? || (a.WatchdogStep? && s.clock.watchdog.Fired?)
  }

  lemma CancelStep(s: State, a: Action)
    requires Enabled(s, a)
    ensures Apply(s, a).cancelled <==> s.cancelled || CancelsNow(s, a)
  {
  }

  // The context is cancelled for one of these reasons and no other.
  lemma {:induction false} CancelledExactly(tr: seq<State>, acts: seq<Action>, k: nat)
    requires IsRun(tr, acts) && k < |tr|
    ensures tr[k].cancelled <==> exists i :: 0 <= i < k && CancelsNow(tr[i], acts[i])
  {
    if k > 0 {
      CancelledExactly(tr, acts, k - 1);
      CancelStep(tr[k - 1], acts[k - 1]);
    }
  }

  lemma ClosedStep(s: State, a: Action)
    requires FiringOk(s) && TeardownOk(s) && Enabled(s, a)
    requires s.aClosed || s.bClosed ==> s.cancelled
    ensures Apply(s, a).aClosed || Apply(s, a).bClosed ==> Apply(s, a).cancelled
  {
  }

  // No connection is closed before the context is cancelled.
  lemma {:induction false} ClosedOnlyWhenCancelled(tr: seq<State>, acts: seq<Action>, k: nat)
    requires IsRun(tr, acts) && k < |tr| && (tr[k].aClosed || tr[k].bClosed)
    ensures tr[k].cancelled
  {
    if tr[k - 1].aClosed || tr[k - 1].bClosed {
      ClosedOnlyWhenCancelled(tr, acts, k - 1);
    }
    InvAlong(tr, acts, k - 1);
    FiringAlong(tr, acts, k - 1);
    ClosedStep(tr[k - 1], acts[k - 1]);
  }

  // ---- What flows, and when a copier stops ----

  // All bytes that copier d's first reads among k actions delivered.
  function ReadBytes(acts: seq<Action>, k: nat, d: Side): seq<byte>
    requires k <= |acts|
  {
    if k == 0 then []
    else ReadBytes(acts, k - 1, d) + if acts[k - 1].Read? && acts[k - 1].d == d then acts[k - 1].data else []
  }

  // How many bytes its destination accepted in them.
  function AcceptedBytes(acts: seq<Action>, k: nat, d: Side): nat
    requires k <= |acts|
  {
    if k == 0 then 0
    else AcceptedBytes(acts, k - 1, d) + if acts[k - 1].Write? && acts[k - 1].d == d then acts[k - 1].accepted else 0
  }

  predicate Flows(x: Direction, a: Action, x': Direction, d: Side) {
    && x'.got == x.got + (if a.Read? && a.d == d then a.data else [])
    && |x'.put| == |x.put| + if a.Write? && a.d == d then a.accepted else 0
  }

  lemma FlowStep(s: State, a: Action, d: Side)
    requires Enabled(s, a)
    ensures Flows(Copying(s, d), a, Copying(Apply(s, a), d), d)
  {
    if !OfCopier(a) || a.d != d {
      assert Copying(Apply(s, a), d) == Copying(s, d);
    }
  }

  lemma {:induction false} FlowAlong(tr: seq<State>, acts: seq<Action>, k: nat, d: Side)
    requires IsRun(tr, acts) && k < |tr|
    ensures Copying(tr[k], d).got == ReadBytes(acts, k, d)
    ensures |Copying(tr[k], d).put| == AcceptedBytes(acts, k, d)
  {
    if k > 0 {
      FlowAlong(tr, acts, k - 1, d);
      FlowStep(tr[k - 1], acts[k - 1], d);
    }
  }

  // Each way, what has been written is exactly the first bytes of what was read, as many as the
  // destination accepted.
  lemma WrittenIsWhatWasRead(tr: seq<State>, acts: seq<Action>, k: nat, d: Side)
    requires IsRun(tr, acts) && k < |tr|
    ensures AcceptedBytes(acts, k, d) <= |ReadBytes(acts, k, d)|
    ensures Copying(tr[k], d).put == ReadBytes(acts, k, d)[..AcceptedBytes(acts, k, d)]
  {
    WrittenIsPrefixOfRead(tr, acts, k, d);
    FlowAlong(tr, acts, k, d);
  }

  // Copier d's read i delivered data together with an error, and the data is not written yet.
  predicate LastChunk(acts: seq<Action>, i: nat, k: nat, d: Side)
    requires k <= |acts|
  {
    && i < k && acts[i].Read? && acts[i].d == d && acts[i].failed && acts[i].data != []
    && forall j :: i < j < k ==> !(acts[j].Write? && acts[j].d == d)
  }

  // Action i stops copier d: an error that came with no data, a failed write, or the write of the
  // data that came with an error.
  ghost predicate Stops(acts: seq<Action>, i: nat, d: Side)
    requires i < |acts|
  {
    || (acts[i].Read? && acts[i].d == d && acts[i].failed && acts[i].data == [])
    || (acts[i].Write? && acts[i].d == d && (acts[i].failed || exists j :: LastChunk(acts, j, i, d)))
  }

  predicate HoldsLast(pc: Copier) {
    (pc.Noting? || pc.Writing?) && pc.last
  }

  predicate Stopped(pc: Copier) {
    pc.Stopping? || pc.Cancelled? || pc.Exited?
  }

  predicate PcMoves(pc: Copier, a: Action, pc': Copier, d: Side) {
    && (HoldsLast(pc') <==>
          || (a.Read? && a.d == d && a.failed && a.data != [])
          || (HoldsLast(pc) && !(a.Write? && a.d == d)))
    && (Stopped(pc') <==>
          || Stopped(pc)
          || (a.Read? && a.d == d && a.failed && a.data == [])
          || (a.Write? && a.d == d && (a.failed || HoldsLast(pc))))
  }

  lemma PcStep(s: State, a: Action, d: Side)
    requires Enabled(s, a)
    ensures PcMoves(Copying(s, d).pc, a, Copying(Apply(s, a), d).pc, d)
  {
    if !OfCopier(a) || a.d != d {
      assert Copying(Apply(s, a), d) == Copying(s, d);
    }
  }

  lemma {:induction false} StopsAlong(tr: seq<State>, acts: seq<Action>, k: nat, d: Side)
    requires |tr| == |acts| + 1 && k < |tr| && Copying(tr[0], d).pc.Reading?
    requires forall i :: 0 <= i < k ==> PcMoves(Copying(tr[i], d).pc, acts[i], Copying(tr[i + 1], d).pc, d)
    ensures HoldsLast(Copying(tr[k], d).pc) <==> exists i :: LastChunk(acts, i, k, d)
    ensures Stopped(Copying(tr[k], d).pc) <==> exists i :: 0 <= i < k && Stops(acts, i, d)
  {
    if k > 0 {
      var a := acts[k - 1];
      StopsAlong(tr, acts, k - 1, d);
      assert PcMoves(Copying(tr[k - 1], d).pc, a, Copying(tr[k - 1 + 1], d).pc, d);
      assert Stopped(Copying(tr[k], d).pc) <==> Stopped(Copying(tr[k - 1], d).pc) || Stops(acts, k - 1, d);
      if a.Read? && a.d == d && a.failed && a.data != [] {
        assert LastChunk(acts, k - 1, k, d);
      } else if HoldsLast(Copying(tr[k], d).pc) {
        var i: nat :| LastChunk(acts, i, k - 1, d);
        assert LastChunk(acts, i, k, d);
      }
      if i: nat :| LastChunk(acts, i, k, d) {
        assert i < k - 1 ==> LastChunk(acts, i, k - 1, d);
      }
    }
  }

  // A copier leaves its loop exactly when a read fails, after writing what came with the failure,
  // or a write fails; nothing else stops it, and not even the close of a connection by itself.
  lemma StopsExactlyOnError(tr: seq<State>, acts: seq<Action>, k: nat, d: Side)
    requires IsRun(tr, acts) && k < |tr|
    ensures Stopped(Copying(tr[k], d).pc) <==> exists i :: 0 <= i < k && Stops(acts, i, d)
  {
    forall i | 0 <= i < k ensures PcMoves(Copying(tr[i], d).pc, acts[i], Copying(tr[i + 1], d).pc, d) {
      PcStep(tr[i], acts[i], d);
    }
    StopsAlong(tr, acts, k, d);
  }

  // ---- Nothing is ever stuck ----

  lemma Extend(tr: seq<State>, acts: seq<Action>, a: Action) returns (tr': seq<State>, acts': seq<Action>)
    requires IsRun(tr, acts) && Enabled(tr[|acts|], a)
    ensures IsRun(tr', acts') && tr <= tr' && |acts'| == |acts| + 1
    ensures tr'[|acts'|] == Apply(tr[|acts|], a)
  {
    tr', acts' := tr + [Apply(tr[|acts|], a)], acts + [a];
    forall i | 0 <= i < |acts'| ensures Enabled(tr'[i], acts'[i]) && tr'[i + 1] == Apply(tr'[i], acts'[i]) {
      if i < |acts| {
        assert tr'[i] == tr[i] && tr'[i + 1] == tr[i + 1] && acts'[i] == acts[i];
      }
    }
  }

  function Other(d: Side): Side {
    if d.A? then B else A
  }

  // Whatever may arrive, a copier that waits for data passes it on whole and waits for more.
  lemma DataCanFlow(tr: seq<State>, acts: seq<Action>, d: Side, data: seq<byte>)
    returns (tr': seq<State>, acts': seq<Action>)
    requires IsRun(tr, acts) && Copying(tr[|acts|], d).pc.Reading? && 0 < |data| <= 32768
    ensures IsRun(tr', acts') && tr <= tr'
    ensures var x, x' := Copying(tr[|acts|], d), Copying(tr'[|acts'|], d);
            x'.pc.Reading? && x'.got == x.got + data && x'.put == x.put + data
    ensures Copying(tr'[|acts'|], Other(d)) == Copying(tr[|acts|], Other(d))
  {
    tr', acts' := Extend(tr, acts, Read(d, data, false));
    tr', acts' := Extend(tr', acts', Note(d));
    tr', acts' := Extend(tr', acts', Write(d, |data|, false));
  }

  // A copier whose source and destination fail gets out of its loop.
  lemma CopierCanStop(tr: seq<State>, acts: seq<Action>, d: Side) returns (tr': seq<State>, acts': seq<Action>)
    requires IsRun(tr, acts) && !Stopped(Copying(tr[|acts|], d).pc)
    ensures IsRun(tr', acts') && tr <= tr' && Copying(tr'[|acts'|], d).pc.Stopping?
    ensures Copying(tr'[|acts'|], Other(d)) == Copying(tr[|acts|], Other(d))
    ensures tr'[|acts'|].main == tr[|acts|].main
  {
    tr', acts' := tr, acts;
    if Copying(tr'[|acts'|], d).pc.Reading? {
      tr', acts' := Extend(tr', acts', Read(d, [], true));
    } else {
      if Copying(tr'[|acts'|], d).pc.Noting? {
        tr', acts' := Extend(tr', acts', Note(d));
      }
      tr', acts' := Extend(tr', acts', Write(d, 0, true));
    }
  }

  lemma CopierCanExit(tr: seq<State>, acts: seq<Action>, d: Side) returns (tr': seq<State>, acts': seq<Action>)
    requires IsRun(tr, acts)
    ensures IsRun(tr', acts') && tr <= tr' && Copying(tr'[|acts'|], d).pc.Exited?
    ensures Copying(tr'[|acts'|], Other(d)) == Copying(tr[|acts|], Other(d))
    ensures tr'[|acts'|].main == tr[|acts|].main
  {
    tr', acts' := tr, acts;
    if !Stopped(Copying(tr'[|acts'|], d).pc) {
      tr', acts' := CopierCanStop(tr, acts, d);
    }
    if Copying(tr'[|acts'|], d).pc.Stopping? {
      tr', acts' := Extend(tr', acts', CancelCopier(d));
    }
    if Copying(tr'[|acts'|], d).pc.Cancelled? {
      tr', acts' := Extend(tr', acts', ExitCopier(d));
    }
  }

  // Once both copiers have exited, the main goroutine gets to its end by itself.
  lemma {:induction false} MainCanReturn(tr: seq<State>, acts: seq<Action>)
    returns (tr': seq<State>, acts': seq<Action>)
    requires IsRun(tr, acts) && tr[|acts|].toA.pc.Exited? && tr[|acts|].toB.pc.Exited?
    ensures IsRun(tr', acts') && tr <= tr' && tr'[|acts'|].main.Returned?
    decreases match tr[|acts|].main
              case AwaitDone => 4 case CloseA => 3 case CloseB => 2 case AwaitCopiers => 1 case Returned => 0
  {
    tr', acts' := tr, acts;
    InvAlong(tr, acts, |acts|);
    if !tr[|acts|].main.Returned? {
      tr', acts' := Extend(tr, acts, MainStep);
      tr', acts' := MainCanReturn(tr', acts');
    }
  }

  // The session can be cancelled from outside at any time, and then, or when it has fired, the
  // watchdog can come to its end; having fired, it has cancelled and closed both connections then.
  lemma WatchdogCanReturn(tr: seq<State>, acts: seq<Action>) returns (tr': seq<State>, acts': seq<Action>)
    requires IsRun(tr, acts)
    ensures IsRun(tr', acts') && tr <= tr'
    ensures tr'[|acts'|].clock.watchdog.Retired? && tr'[|acts'|].cancelled
    ensures tr[|acts|].clock.watchdog.Fired? ==> tr'[|acts'|].aClosed && tr'[|acts'|].bClosed
  {
    tr', acts' := tr, acts;
    if tr[|acts|].clock.watchdog.Armed? {
      tr', acts' := Extend(tr', acts', Cancel);
      tr', acts' := Extend(tr', acts', WatchdogRetires);
    }
    if tr'[|acts'|].clock.watchdog.Fired? {
      tr', acts' := Extend(tr', acts', WatchdogStep);
    }
    if tr'[|acts'|].clock.watchdog.ClosingA? {
      tr', acts' := Extend(tr', acts', WatchdogStep);
    }
    if tr'[|acts'|].clock.watchdog.ClosingB? {
      tr', acts' := Extend(tr', acts', WatchdogStep);
    }
    FiringAlong(tr', acts', |acts'|);
  }

  // From wherever the pipe is, it can come to its end, with everything torn down.
  lemma PipeCanReturn(tr: seq<State>, acts: seq<Action>) returns (tr': seq<State>, acts': seq<Action>)
    requires IsRun(tr, acts)
    ensures IsRun(tr', acts') && tr <= tr' && tr'[|acts'|].main.Returned?
    ensures tr'[|acts'|].aClosed && tr'[|acts'|].bClosed && tr'[|acts'|].cancelled
  {
    tr', acts' := CopierCanExit(tr, acts, A);
    tr', acts' := CopierCanExit(tr', acts', B);
    tr', acts' := MainCanReturn(tr', acts');
    ReturnsAfterTeardown(tr', acts', |acts'|);
  }

  // ---- The watchdog ----

  // Idle time counts from the last time a copier recorded what it had read. The watchdog ends a
  // session only when that was at least the timeout ago, and never later than twice the timeout.
  lemma FiresBetweenOneAndTwoTimeouts(tr: seq<State>, acts: seq<Action>, k: nat)
    requires IsRun(tr, acts) && k < |tr| && tr[k].clock.idleAtFire.Some?
    ensures 1_800_000_000_000 <= tr[k].clock.idleAtFire.value <= 3_600_000_000_000
  {
    InvAlong(tr, acts, k);
  }

  // While the watchdog is armed, idleness is bounded too.
  lemma NeverIdleBeyondTwoTimeouts(tr: seq<State>, acts: seq<Action>, k: nat)
    requires IsRun(tr, acts) && k < |tr| && tr[k].clock.watchdog.Armed?
    ensures tr[k].clock.Idle() <= 2 * IDLE_TIMEOUT
  {
    InvAlong(tr, acts, k);
  }

  // No tick has come between action i and k.
  predicate SinceTick(acts: seq<Action>, i: nat, k: nat)
    requires k <= |acts|
  {
    i < k && forall j :: i < j < k ==> !acts[j].Tick?
  }

  // A copier has recorded a read, and no tick has come since.
  predicate NotedSinceTick(acts: seq<Action>, k: nat)
    requires k <= |acts|
  {
    exists i :: 0 <= i < k && acts[i].Note? && SinceTick(acts, i, k)
  }

  lemma NotedSinceTickStep(acts: seq<Action>, k: nat)
    requires k < |acts|
    ensures NotedSinceTick(acts, k + 1) <==> acts[k].Note? || (NotedSinceTick(acts, k) && !acts[k].Tick?)
  {
    if acts[k].Note? {
      assert SinceTick(acts, k, k + 1);
    }
    forall i: nat | i < k ensures SinceTick(acts, i, k + 1) <==> SinceTick(acts, i, k) && !acts[k].Tick? {}
  }

  // What one step does to the watchdog's flag, and when it makes the watchdog fire.
  predicate Watched(c: Clock, a: Action, c': Clock) {
    && (c'.active <==> a.Note? || (c.active && !a.Tick?))
    && (c'.idleAtFire.Some? <==> c.idleAtFire.Some? || (a.Tick? && !c.active))
  }

  lemma WatchedStep(s: State, a: Action)
    requires Enabled(s, a)
    ensures Watched(s.clock, a, Apply(s, a).clock)
  {
  }

  lemma {:induction false} ActiveMeansNoted(tr: seq<State>, acts: seq<Action>, k: nat)
    requires IsRun(tr, acts) && k < |tr|
    ensures tr[k].clock.active <==> NotedSinceTick(acts, k)
  {
    if k > 0 {
      ActiveMeansNoted(tr, acts, k - 1);
      NotedSinceTickStep(acts, k - 1);
      WatchedStep(tr[k - 1], acts[k - 1]);
    }
  }

  // A tick closes the session if and only if no read was recorded since the previous tick, or
  // since the start. How long ago the last one was does not decide it.
  lemma TickClosesExactlyTheSilent(tr: seq<State>, acts: seq<Action>, k: nat)
    requires IsRun(tr, acts) && k < |acts| && acts[k].Tick?
    ensures tr[k + 1].clock.watchdog.Fired? <==> !NotedSinceTick(acts, k)
    ensures tr[k + 1].clock.watchdog.Armed? <==> NotedSinceTick(acts, k)
  {
    ActiveMeansNoted(tr, acts, k);
  }

  // Over a whole run: the watchdog has fired if and only if a tick found nothing recorded.
  lemma {:induction false} ClosedExactlyWhenSilent(tr: seq<State>, acts: seq<Action>, k: nat)
    requires IsRun(tr, acts) && k < |tr|
    ensures tr[k].clock.idleAtFire.Some? <==> exists i :: 0 <= i < k && acts[i].Tick? && !NotedSinceTick(acts, i)
  {
    if k > 0 {
      ClosedExactlyWhenSilent(tr, acts, k - 1);
      ActiveMeansNoted(tr, acts, k - 1);
      WatchedStep(tr[k - 1], acts[k - 1]);
    }
  }

  // Copier d has read data since the last tick.
  predicate ReadSinceTick(acts: seq<Action>, k: nat, d: Side)
    requires k <= |acts|
  {
    exists i :: 0 <= i < k && acts[i].Read? && acts[i].d == d && acts[i].data != [] && SinceTick(acts, i, k)
  }

  // A copier leaves Noting only by recording.
  predicate NotesFirst(s: State, a: Action, s': State, d: Side) {
    Copying(s, d).pc.Noting? && a != Note(d) ==> Copying(s', d).pc.Noting?
  }

  lemma NotesFirstStep(s: State, a: Action, d: Side)
    requires Enabled(s, a)
    ensures NotesFirst(s, a, Apply(s, a), d)
    ensures a.Read? && a.d == d && a.data != [] ==> Copying(Apply(s, a), d).pc.Noting?
  {
  }

  lemma {:induction false} NotingUntilNoted(tr: seq<State>, acts: seq<Action>, i: nat, k: nat, d: Side)
    requires |tr| == |acts| + 1 && i <= k < |tr| && Copying(tr[i], d).pc.Noting?
    requires forall j :: i <= j < k ==> NotesFirst(tr[j], acts[j], tr[j + 1], d)
    ensures Copying(tr[k], d).pc.Noting? || exists j :: i <= j < k && acts[j] == Note(d)
    decreases k
  {
    if i < k {
      NotingUntilNoted(tr, acts, i, k - 1, d);
      assert NotesFirst(tr[k - 1], acts[k - 1], tr[k - 1 + 1], d);
    }
  }

  // So a tick that closes a session although a copier has read data since the previous tick has
  // caught that copier between its read and the recording of it: no other read is missed.
  lemma OnlyUnrecordedReadsAreMissed(tr: seq<State>, acts: seq<Action>, k: nat, d: Side)
    requires IsRun(tr, acts) && k < |acts| && acts[k].Tick? && ReadSinceTick(acts, k, d)
    ensures tr[k + 1].clock.watchdog.Fired? ==> Copying(tr[k], d).pc.Noting?
  {
    var i: nat :| i < k && acts[i].Read? && acts[i].d == d && acts[i].data != [] && SinceTick(acts, i, k);
    NotesFirstStep(tr[i], acts[i], d);
    forall j | i + 1 <= j < k ensures NotesFirst(tr[j], acts[j], tr[j + 1], d) {
      NotesFirstStep(tr[j], acts[j], d);
    }
    NotingUntilNoted(tr, acts, i + 1, k, d);
    TickClosesExactlyTheSilent(tr, acts, k);
    if j: nat :| i + 1 <= j < k && acts[j] == Note(d) {
      assert SinceTick(acts, j, k);
    }
  }

  // In terms of the time since the last recorded read, a tick closes what is idle for longer than the
  // timeout and spares what is idle for less. At exactly the timeout it can go either way, as the
  // last record may have come just before the previous tick or just after it.
  lemma TickDecides(tr: seq<State>, acts: seq<Action>, k: nat)
    requires IsRun(tr, acts) && k < |acts| && acts[k].Tick?
    ensures tr[k].clock.Idle() > IDLE_TIMEOUT ==> tr[k + 1].clock.watchdog.Fired?
    ensures tr[k].clock.Idle() < IDLE_TIMEOUT ==> tr[k + 1].clock.watchdog.Armed?
  {
    InvAlong(tr, acts, k);
  }

  lemma BusyStep(s: State, a: Action)
    requires ClockOk(s.clock) && Enabled(s, a)
    requires s.clock.Idle() < IDLE_TIMEOUT && s.clock.idleAtFire.None?
    ensures Apply(s, a).clock.idleAtFire.None?
  {
  }

  // A session in which the next read is always recorded within the timeout is left alone.
  lemma {:induction false} BusySessionNeverIdled(tr: seq<State>, acts: seq<Action>, k: nat)
    requires IsRun(tr, acts) && k < |tr|
    requires forall i :: 0 <= i < k ==> tr[i].clock.Idle() < IDLE_TIMEOUT
    ensures tr[k].clock.idleAtFire.None?
  {
    if k > 0 {
      InvAlong(tr, acts, k - 1);
      BusySessionNeverIdled(tr, acts, k - 1);
      BusyStep(tr[k - 1], acts[k - 1]);
    }
  }

  // Within is strict: a session that has been idle for exactly the timeout can be ended.
  lemma ExactTimeoutCanFire() returns (tr: seq<State>, acts: seq<Action>)
    ensures IsRun(tr, acts) && |tr| == 3
    ensures forall i :: 0 <= i < |tr| ==> tr[i].clock.Idle() <= IDLE_TIMEOUT
    ensures tr[2].clock.watchdog.Fired?
  {
    acts := [Pass(IDLE_TIMEOUT), Tick];
    var s1 := Apply(Init(), acts[0]);
    tr := [Init(), s1, Apply(s1, acts[1])];
  }

  // The session reads at the very start and records it.
  lemma ReadAndNote(data: seq<byte>) returns (s1: State, s2: State)
    requires 0 < |data| <= BUFFER_SIZE
    ensures Enabled(Init(), Read(A, data, false)) && s1 == Apply(Init(), Read(A, data, false))
    ensures Enabled(s1, Note(A)) && s2 == Apply(s1, Note(A))
    ensures s2 == Init().(
              toA := Direction(Writing(data, false), data, []),
              clock := Clock(Armed, true, 0, IDLE_TIMEOUT, 0, None))
  {
    s1 := Init().(toA := Direction(Noting(data, false), data, []));
    s2 := Apply(s1, Note(A));
  }

  // And one that has been idle for exactly the timeout can be spared.
  lemma ExactTimeoutCanSpare() returns (tr: seq<State>, acts: seq<Action>)
    ensures IsRun(tr, acts) && |tr| == 5 && acts[3].Tick?
    ensures tr[3].clock.Idle() == IDLE_TIMEOUT && tr[4].clock.watchdog.Armed?
  {
    acts := [Read(A, [0], false), Note(A), Pass(IDLE_TIMEOUT), Tick];
    var s1, s2 := ReadAndNote([0]);
    var s3 := s2.(clock := s2.clock.(now := IDLE_TIMEOUT));
    tr := [Init(), s1, s2, s3, Apply(s3, acts[3])];
  }

  // That case is real: a tick between a read and its record closes a session that has just
  // received data, with the data still to be written.
  lemma UnrecordedReadCanBeMissed() returns (tr: seq<State>, acts: seq<Action>)
    ensures acts == [Pass(IDLE_TIMEOUT), Read(A, [0], false), Tick] && IsRun(tr, acts)
    ensures tr[3].clock.watchdog.Fired? && tr[3].toA.got == [0] && tr[3].toA.put == []
  {
    acts := [Pass(IDLE_TIMEOUT), Read(A, [0], false), Tick];
    var s1 := Apply(Init(), acts[0]);
    var s2 := Apply(s1, acts[1]);
    tr := [Init(), s1, s2, Apply(s2, acts[2])];
  }

  // The upper bound is attained, by a read at the very start and silence after it.
  lemma TwoTimeoutsAttained() returns (tr: seq<State>, acts: seq<Action>)
    ensures IsRun(tr, acts) && |tr| == 7
    ensures tr[6].clock.idleAtFire == Some(2 * IDLE_TIMEOUT)
  {
    acts := [Read(A, [0], false), Note(A), Pass(IDLE_TIMEOUT), Tick, Pass(IDLE_TIMEOUT), Tick];
    var s1, s2 := ReadAndNote([0]);
    var s3 := s2.(clock := s2.clock.(now := IDLE_TIMEOUT));
    var s4 := s3.(clock := s3.clock.(active := false, nextTick := 2 * IDLE_TIMEOUT));
    var s5 := s4.(clock := s4.clock.(now := 2 * IDLE_TIMEOUT));
    tr := [Init(), s1, s2, s3, s4, s5, Apply(s5, acts[5])];
  }
}
