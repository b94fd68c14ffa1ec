// A browser WebSocket as a byte stream: messages pushed by callbacks, drained by reads.
module WsConn {
  import opened Wrappers

  datatype Error = Eof | SocketError | ClosedPipe

  // The JavaScript callbacks: a binary or text message, the close event, the error event.
  datatype Event = Binary(data: seq<byte>) | Text | SocketClosed | SocketErrored

  // released: Close has released the callbacks, so later events reach nobody.
  // closeCalls: how often the socket itself was told to close.
  datatype Wire = Wire(buf: seq<byte>, closed: bool, err: Option<Error>, released: bool, closeCalls: nat)

  const FRESH := Wire([], false, None, false, 0)

  function Fail(w: Wire, e: Error): Wire {
    w.(err := if w.err.None? then Some(e) else w.err, closed := true)
  }

  function Deliver(w: Wire, e: Event): Wire {
    if w.released then w
    else
      match e
      case Binary(data) => w.(buf := w.buf + data)
      case Text => w
      case SocketClosed => Fail(w, Eof)
      case SocketErrored => Fail(w, SocketError)
  }

  function DeliverAll(w: Wire, events: seq<Event>): Wire {
    if events == [] then w else Deliver(DeliverAll(w, events[..|events| - 1]), events[|events| - 1])
  }

  // A read returns as soon as there are bytes or the connection is closed.
  predicate Ready(w: Wire) {
    w.buf != [] || w.closed
  }

  function Taken(w: Wire, capacity: nat): nat {
    if capacity < |w.buf| then capacity else |w.buf|
  }

  function Shut(w: Wire): Wire {
    if w.released then w else w.(closed := true, released := true, closeCalls := w.closeCalls + 1)
  }

  class Conn {
    var buf: seq<byte>
    var closed: bool
    var err: Option<Error>
    var released: bool
    var closeCalls: nat
    var sent: seq<seq<byte>>

    function Value(): Wire
      reads this
    {
      Wire(buf, closed, err, released, closeCalls)
    }

    constructor ()
      ensures Value() == FRESH && sent == []
    {
      buf, closed, err, released, closeCalls, sent := [], false, None, false, 0, [];
    }

    method OnEvent(e: Event)
      modifies this
      ensures Value() == Deliver(old(Value()), e) && sent == old(sent)
    {
      if released {
        return;
      }
      match e
      case Binary(data) => buf := buf + data;
      case Text =>
      case SocketClosed => FailWith(Eof);
      case SocketErrored => FailWith(SocketError);
    }

    method FailWith(e: Error)
      modifies this
      ensures Value() == Fail(old(Value()), e) && sent == old(sent)
    {
      if err.None? {
        err := Some(e);
      }
      closed := true;
    }

    // events are the callbacks that run while the call waits, in order; used says how many it
    // took. waiting: they ran out before there was anything to return.
    method Read(p: array<byte>, events: seq<Event>)
      returns (n: nat, e: Option<Error>, used: nat, waiting: bool)
      modifies this, p
      ensures used <= |events| && sent == old(sent)
      ensures forall k :: 0 <= k < used ==> !Ready(DeliverAll(old(Value()), events[..k]))
      ensures var w := DeliverAll(old(Value()), events[..used]);
              && (waiting <==> !Ready(w)) && (waiting ==> used == |events|)
              && n == (if waiting then 0 else Taken(w, p.Length))
              && p[..n] == w.buf[..n] && p[n..] == old(p[n..])
              && Value() == w.(buf := w.buf[n..])
              && e == if waiting || w.buf != [] then None else if w.err.Some? then w.err else Some(Eof)
    {
      used := 0;
      while |buf| == 0 && !closed && used < |events|
        invariant used <= |events|
        invariant Value() == DeliverAll(old(Value()), events[..used]) && sent == old(sent)
        invariant forall k :: 0 <= k < used ==> !Ready(DeliverAll(old(Value()), events[..k]))
        invariant p[..] == old(p[..])
      {
        OnEvent(events[used]);
        assert events[..used + 1][..used] == events[..used];
        used := used + 1;
      }
      n, e, waiting := 0, None, false;
      if |buf| > 0 {
        n := if p.Length < |buf| then p.Length else |buf|;
        forall i | 0 <= i < n {
          p[i] := buf[i];
        }
        buf := buf[n..];
      } else if !closed {
        waiting := true;
      } else if err.Some? {
        e := err;
      } else {
        e := Some(Eof);
      }
    }

    method Write(p: seq<byte>) returns (r: Result<nat, Error>)
      modifies this
      ensures Value() == old(Value())
      ensures old(closed) ==> r == Err(ClosedPipe) && sent == old(sent)
      ensures !old(closed) ==> r == Ok(|p|) && sent == old(sent) + [p]
    {
      if closed {
        return Err(ClosedPipe);
      }
      sent := sent + [p];
      r := Ok(|p|);
    }

    method Close()
      modifies this
      ensures Value() == Shut(old(Value())) && sent == old(sent)
    {
      if !released {
        closed, released := true, true;
        closeCalls := closeCalls + 1;
      }
    }
  }

  // ---- Histories of one connection ----

  datatype Op = Push(e: Event) | Read(capacity: nat) | Write(p: seq<byte>) | Close

  datatype Answer = Bytes(data: seq<byte>) | Failed(e: Error) | Waiting | Written(n: nat) | Nothing

  function After(w: Wire, op: Op): Wire {
    match op
    case Push(e) => Deliver(w, e)
    case Read(capacity) => w.(buf := w.buf[Taken(w, capacity)..])
    case Write(_) => w
    case Close => Shut(w)
  }

  // What a call returns; Waiting for a read that has nothing to return yet.
  function Reply(w: Wire, op: Op): Answer {
    match op
    case Read(capacity) =>
      if w.buf != [] then Bytes(w.buf[..Taken(w, capacity)])
      else if !w.closed then Waiting
      else if w.err.Some? then Failed(w.err.value)
      else Failed(Eof)
    case Write(p) => if w.closed then Failed(ClosedPipe) else Written(|p|)
    case _ => Nothing
  }

  function WireAt(ops: seq<Op>, n: nat): Wire
    requires n <= |ops|
  {
    if n == 0 then FRESH else After(WireAt(ops, n - 1), ops[n - 1])
  }

  function ReplyAt(ops: seq<Op>, n: nat): Answer
    requires n < |ops|
  {
    Reply(WireAt(ops, n), ops[n])
  }

  // The bytes one operation adds at the back and takes from the front.
  function Arriving(w: Wire, op: Op): seq<byte> {
    if op.Push? && op.e.Binary? && !w.released then op.e.data else []
  }

  function Leaving(w: Wire, op: Op): seq<byte> {
    match Reply(w, op) case Bytes(data) => data case _ => []
  }

  // All bytes of the binary messages that reached the connection in the first n operations.
  function Pushed(ops: seq<Op>, n: nat): seq<byte>
    requires n <= |ops|
  {
    if n == 0 then []
    else Pushed(ops, n - 1) + Arriving(WireAt(ops, n - 1), ops[n - 1])
  }

  // All bytes that the reads among the first n operations returned.
  function Delivered(ops: seq<Op>, n: nat): seq<byte>
    requires n <= |ops|
  {
    if n == 0 then []
    else Delivered(ops, n - 1) + Leaving(WireAt(ops, n - 1), ops[n - 1])
  }

  lemma StepConserves(w: Wire, op: Op)
    ensures Leaving(w, op) + After(w, op).buf == w.buf + Arriving(w, op)
  {
  }

  lemma Regroup(before: seq<byte>, out: seq<byte>, rest: seq<byte>, buf: seq<byte>, more: seq<byte>)
    requires out + rest == buf + more
    ensures (before + out) + rest == (before + buf) + more
  {
    assert (before + out) + rest == before + (out + rest);
    assert (before + buf) + more == before + (buf + more);
  }

  // Nothing is lost, duplicated or reordered, however reads split the stream.
  lemma {:induction false} BytesConserved(ops: seq<Op>, n: nat)
    requires n <= |ops|
    ensures Delivered(ops, n) + WireAt(ops, n).buf == Pushed(ops, n)
  {
    if n > 0 {
      BytesConserved(ops, n - 1);
      var w, op := WireAt(ops, n - 1), ops[n - 1];
      StepConserves(w, op);
      Regroup(Delivered(ops, n - 1), Leaving(w, op), After(w, op).buf, w.buf, Arriving(w, op));
    }
  }

  // A read reports the end or an error only once everything that arrived has been read.
  lemma ErrorOnlyWhenDrained(ops: seq<Op>, n: nat)
    requires n < |ops| && ops[n].Read? && ReplyAt(ops, n).Failed?
    ensures Delivered(ops, n) == Pushed(ops, n)
  {
    BytesConserved(ops, n);
  }

  // Closing is final, the first error is final, and a close without an error silences callbacks.
  lemma {:induction false} ClosedStays(ops: seq<Op>, i: nat, j: nat)
    requires i <= j <= |ops|
    ensures WireAt(ops, i).closed ==> WireAt(ops, j).closed
    ensures WireAt(ops, i).err.Some? ==> WireAt(ops, j).err == WireAt(ops, i).err
    ensures WireAt(ops, i).released ==> WireAt(ops, j).released && WireAt(ops, j).err == WireAt(ops, i).err
    ensures WireAt(ops, j).closed && WireAt(ops, j).err.None? ==> WireAt(ops, j).released
    decreases j
  {
    if i < j {
      ClosedStays(ops, i, j - 1);
    } else if j > 0 {
      ClosedStays(ops, j - 1, j - 1);
    }
  }

  // All reads of a connection that fail, fail with the same error.
  lemma SameErrorForEver(ops: seq<Op>, i: nat, j: nat)
    requires i <= j < |ops| && ops[i].Read? && ops[j].Read?
    requires ReplyAt(ops, i).Failed? && ReplyAt(ops, j).Failed?
    ensures ReplyAt(ops, i) == ReplyAt(ops, j)
  {
    ClosedStays(ops, i, i);
    ClosedStays(ops, i, j);
  }

  lemma {:induction false} ReleasedIsClosed(ops: seq<Op>, n: nat)
    requires n <= |ops|
    ensures WireAt(ops, n).released ==> WireAt(ops, n).closed
    ensures WireAt(ops, n).closeCalls == if WireAt(ops, n).released then 1 else 0
  {
    if n > 0 {
      ReleasedIsClosed(ops, n - 1);
    }
  }

  // Once the connection is closed, by either side or by an error, no write succeeds.
  lemma NoWriteAfterClose(ops: seq<Op>, i: nat, j: nat)
    requires i < j < |ops| && ops[j].Write?
    requires ops[i] in {Close, Push(SocketClosed), Push(SocketErrored)}
    ensures ReplyAt(ops, j) == Failed(ClosedPipe)
  {
    ClosedStays(ops, i, i);
    ClosedStays(ops, i + 1, j);
    ReleasedIsClosed(ops, i);
  }

  // However often Close is called, the socket is closed once, and the later calls do nothing.
  lemma CloseIsIdempotent(ops: seq<Op>, i: nat, j: nat)
    requires i < j < |ops| && ops[i] == Close && ops[j] == Close
    ensures WireAt(ops, j + 1) == WireAt(ops, j)
    ensures WireAt(ops, j + 1).closeCalls == 1
  {
    ClosedStays(ops, i + 1, j);
    ReleasedIsClosed(ops, j);
  }

  // ---- What every call answers, by the history ----

  predicate ClosedBefore(ops: seq<Op>, n: nat)
    requires n <= |ops|
  {
    exists i :: 0 <= i < n && ops[i] == Close
  }

  predicate Ends(op: Op) {
    op == Close || op == Push(SocketClosed) || op == Push(SocketErrored)
  }

  predicate EndedBefore(ops: seq<Op>, n: nat)
    requires n <= |ops|
  {
    exists i :: 0 <= i < n && Ends(ops[i])
  }

  // The binary messages that came before the connection was closed from this side.
  function Messages(ops: seq<Op>, n: nat): seq<byte>
    requires n <= |ops|
  {
    if n == 0 then []
    else
      Messages(ops, n - 1)
      + if ops[n - 1].Push? && ops[n - 1].e.Binary? && !ClosedBefore(ops, n - 1) then ops[n - 1].e.data else []
  }

  // How the connection ended: by the first close or error event, unless this side closed before.
  function EndError(ops: seq<Op>, n: nat): Option<Error>
    requires n <= |ops|
  {
    if n == 0 then None
    else if EndError(ops, n - 1).Some? || ClosedBefore(ops, n - 1) then EndError(ops, n - 1)
    else if ops[n - 1] == Push(SocketClosed) then Some(Eof)
    else if ops[n - 1] == Push(SocketErrored) then Some(SocketError)
    else None
  }

  lemma BeforeStep(ops: seq<Op>, n: nat)
    requires n < |ops|
    ensures ClosedBefore(ops, n + 1) <==> ClosedBefore(ops, n) || ops[n] == Close
    ensures EndedBefore(ops, n + 1) <==> EndedBefore(ops, n) || Ends(ops[n])
  {
  }

  lemma {:induction false} WireIsHistory(ops: seq<Op>, n: nat)
    requires n <= |ops|
    ensures WireAt(ops, n).released <==> ClosedBefore(ops, n)
    ensures WireAt(ops, n).closed <==> EndedBefore(ops, n)
    ensures WireAt(ops, n).err == EndError(ops, n)
    ensures Pushed(ops, n) == Messages(ops, n)
    ensures ClosedBefore(ops, n) ==> EndedBefore(ops, n)
  {
    if n > 0 {
      WireIsHistory(ops, n - 1);
      BeforeStep(ops, n - 1);
    }
  }

  // What a read returns: the next bytes not yet returned, as many as there are or fit; when there
  // are none, the way the connection ended, or nothing yet while it has not.
  lemma ReadAnswersExactly(ops: seq<Op>, n: nat)
    requires n < |ops| && ops[n].Read?
    ensures |Delivered(ops, n)| <= |Messages(ops, n)|
    ensures var rest := Messages(ops, n)[|Delivered(ops, n)|..];
            ReplyAt(ops, n)
            == if rest != [] then Bytes(if ops[n].capacity < |rest| then rest[..ops[n].capacity] else rest)
               else if !EndedBefore(ops, n) then Waiting
               else Failed(match EndError(ops, n) case Some(e) => e case None => Eof)
  {
    WireIsHistory(ops, n);
    BytesConserved(ops, n);
    assert Messages(ops, n)[|Delivered(ops, n)|..] == WireAt(ops, n).buf;
  }

  // A write is sent whole if nothing has ended the connection, and fails otherwise.
  lemma WriteAnswersExactly(ops: seq<Op>, n: nat)
    requires n < |ops| && ops[n].Write?
    ensures ReplyAt(ops, n) == if EndedBefore(ops, n) then Failed(ClosedPipe) else Written(|ops[n].p|)
  {
    WireIsHistory(ops, n);
  }
}
