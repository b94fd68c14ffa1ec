// Liveness of a tunnel: the CLI's keepalive loop against the gateway's read deadline, in time.
// Times are in nanoseconds from the moment the CLI's ticker starts.
module Keepalive {
  import opened Wrappers

  const SECOND: nat := 1_000_000_000
  const KEEPALIVE_INTERVAL: nat := 30 * SECOND
  const KEEPALIVE_TIMEOUT: nat := 15 * SECOND
  const GATEWAY_IDLE_TIMEOUT: nat := 90 * SECOND

  // The gateway's side of the connection: every read or write that moves bytes puts the read
  // deadline a full timeout ahead.
  class IdleConn {
    var deadline: nat

    constructor (now: nat)
      ensures deadline == now + 90_000_000_000
    {
      deadline := now + GATEWAY_IDLE_TIMEOUT;
    }

    method Touch(now: nat)
      modifies this
      ensures deadline == now + 90_000_000_000
    {
      deadline := now + GATEWAY_IDLE_TIMEOUT;
    }

    // Read and Write alike: n bytes were moved.
    method Transferred(n: nat, now: nat)
      modifies this
      ensures deadline == if n > 0 then now + 90_000_000_000 else old(deadline)
    {
      if n > 0 {
        Touch(now);
      }
    }
  }

  // A keepalive request the CLI is waiting on.
  datatype Probe = Probe(sentAt: nat, arrived: bool)

  // lastArrival and lastReply are history variables: when a keepalive last reached the gateway,
  // and when the CLI last heard back (0: when the forward was granted).
  datatype State = State(
    now: nat,
    clientOpen: bool, nextTick: nat, waiting: Option<Probe>,
    gatewayOpen: bool, deadline: nat,
    lastArrival: Option<nat>, lastReply: nat)

  datatype Action =
    | Tick
    | Arrive
    | Answer
    | GiveUpProbe
    | CloseClient
    | OtherTraffic
    | DeadlineFires
    | Pass(time: nat)

  // The deadline in force when the ticker starts may be anything: it is a full timeout after the
  // gateway's last transfer, and its answer to the forward request may have travelled for long.
  function Init(deadline: nat): State {
    State(0, true, KEEPALIVE_INTERVAL, None, true, deadline, None, 0)
  }

  // An open client acts on time: the clock does not pass its next tick, nor the reply limit of
  // the probe it waits on. Nothing forces the network or the gateway to act.
  predicate Enabled(s: State, a: Action) {
    match a
    case Tick => s.clientOpen && s.waiting.None? && s.now == s.nextTick
    case Arrive => s.clientOpen && s.gatewayOpen && s.waiting.Some? && !s.waiting.value.arrived
    case Answer => s.clientOpen && s.waiting.Some? && s.waiting.value.arrived
    case GiveUpProbe => s.clientOpen && s.waiting.Some? && s.now == s.waiting.value.sentAt + KEEPALIVE_TIMEOUT
    case CloseClient => true
    case OtherTraffic => s.gatewayOpen
    case DeadlineFires => s.gatewayOpen && s.now >= s.deadline
    case Pass(time) =>
      s.clientOpen ==>
        match s.waiting
        case None => s.now + time <= s.nextTick
        case Some(probe) => s.now + time <= probe.sentAt + KEEPALIVE_TIMEOUT
  }

  function Apply(s: State, a: Action): State
    requires Enabled(s, a)
  {
    match a
    case Tick => s.(waiting := Some(Probe(s.now, false)), nextTick := s.nextTick + KEEPALIVE_INTERVAL)
    case Arrive =>
      s.(waiting := Some(s.waiting.value.(arrived := true)),
         lastArrival := Some(s.now),
         deadline := s.now + GATEWAY_IDLE_TIMEOUT)
    case Answer => s.(waiting := None, lastReply := s.now)
    case GiveUpProbe => s.(clientOpen := false, waiting := None)
    case CloseClient => s.(clientOpen := false, waiting := None)
    case OtherTraffic => s.(deadline := s.now + GATEWAY_IDLE_TIMEOUT)
    case DeadlineFires => s.(gatewayOpen := false)
    case Pass(time) => s.(now := s.now + time)
  }

  predicate IsRun(deadline: nat, tr: seq<State>, acts: seq<Action>) {
    && |tr| == |acts| + 1 && tr[0] == Init(deadline)
    && forall i :: 0 <= i < |acts| ==> Enabled(tr[i], acts[i]) && tr[i + 1] == Apply(tr[i], acts[i])
  }

  // Where an open client stands in its tick period, and how old the last arrival and the last
  // reply can be there.
  predicate Inv(s: State) {
    && (s.lastArrival.Some? ==>
          s.lastArrival.value <= s.now && s.lastArrival.value + GATEWAY_IDLE_TIMEOUT <= s.deadline)
    && s.lastReply <= s.now
    && (s.clientOpen ==>
          var tick := s.nextTick - KEEPALIVE_INTERVAL;
          match s.waiting
          case None =>
            && 0 <= tick <= s.now <= s.nextTick && tick <= s.lastReply
            && (s.lastArrival.Some? ==> tick <= s.lastArrival.value)
            && (tick > 0 ==> s.lastArrival.Some?)
          case Some(probe) =>
            && probe.sentAt == tick && tick <= s.now <= tick + KEEPALIVE_TIMEOUT
            && tick - KEEPALIVE_INTERVAL <= s.lastReply
            && (probe.arrived || tick > KEEPALIVE_INTERVAL ==> s.lastArrival.Some?)
            && (s.lastArrival.Some? ==>
                  (if probe.arrived then tick else tick - KEEPALIVE_INTERVAL) <= s.lastArrival.value))
    && (s.lastArrival.Some? && s.clientOpen ==> s.gatewayOpen)
  }

  lemma StepInv(s: State, a: Action)
    requires Inv(s) && Enabled(s, a)
    ensures Inv(Apply(s, a))
  {
  }

  lemma {:induction false} InvAlong(deadline: nat, tr: seq<State>, acts: seq<Action>, k: nat)
    requires IsRun(deadline, tr, acts) && k < |tr|
    ensures Inv(tr[k])
  {
    if k > 0 {
      InvAlong(deadline, tr, acts, k - 1);
      StepInv(tr[k - 1], acts[k - 1]);
    }
  }

  // Once a keepalive has arrived, the gateway's deadline cannot fire on a tunnel that the client
  // still considers alive.
  lemma DeadlineSparesLiveTunnel(deadline: nat, tr: seq<State>, acts: seq<Action>, k: nat)
    requires IsRun(deadline, tr, acts) && k < |tr|
    requires tr[k].clientOpen && tr[k].lastArrival.Some?
    ensures tr[k].gatewayOpen && tr[k].now < tr[k].deadline && !Enabled(tr[k], DeadlineFires)
  {
    InvAlong(deadline, tr, acts, k);
  }

  // Keepalives reach the gateway at most interval + timeout apart.
  lemma ArrivalsWithin45(deadline: nat, tr: seq<State>, acts: seq<Action>, k: nat)
    requires IsRun(deadline, tr, acts) && k < |acts| && acts[k].Arrive? && tr[k].lastArrival.Some?
    ensures tr[k + 1].lastArrival.value - tr[k].lastArrival.value <= 45 * SECOND
  {
    InvAlong(deadline, tr, acts, k);
  }

  // A gateway that stops answering is abandoned: the client never stays open for more than
  // interval + timeout after the last reply.
  lemma SilentGatewayAbandoned(deadline: nat, tr: seq<State>, acts: seq<Action>, k: nat)
    requires IsRun(deadline, tr, acts) && k < |tr| && tr[k].clientOpen
    ensures tr[k].now - tr[k].lastReply <= 45 * SECOND
  {
    InvAlong(deadline, tr, acts, k);
  }

  // The first arrival matters: with a deadline of at most interval + timeout the gateway can hang
  // up before it, while the client still waits for its first reply.
  lemma EarlyDeadlineCanFire(deadline: nat) returns (tr: seq<State>, acts: seq<Action>)
    requires deadline <= 45 * SECOND
    ensures IsRun(deadline, tr, acts) && tr[|acts|].clientOpen && !tr[|acts|].gatewayOpen
  {
    acts := [Pass(KEEPALIVE_INTERVAL), Tick, Pass(KEEPALIVE_TIMEOUT), DeadlineFires];
    var s1 := Apply(Init(deadline), acts[0]);
    var s2 := Apply(s1, acts[1]);
    var s3 := Apply(s2, acts[2]);
    tr := [Init(deadline), s1, s2, s3, Apply(s3, acts[3])];
  }

  // The deadline has not been reached while the client is open.
  predicate Spared(s: State) {
    && s.deadline > 45 * SECOND
    && (s.clientOpen ==> s.gatewayOpen && s.now < s.deadline)
  }

  lemma SparedStep(s: State, a: Action)
    requires Inv(s) && Spared(s) && Enabled(s, a)
    ensures Spared(Apply(s, a))
  {
    StepInv(s, a);
  }

  // With any later one it cannot, from the start and for ever.
  lemma {:induction false} LaterDeadlineSpares(deadline: nat, tr: seq<State>, acts: seq<Action>, k: nat)
    requires deadline > 45 * SECOND && IsRun(deadline, tr, acts) && k < |tr|
    ensures Spared(tr[k])
  {
    if k > 0 {
      InvAlong(deadline, tr, acts, k - 1);
      LaterDeadlineSpares(deadline, tr, acts, k - 1);
      SparedStep(tr[k - 1], acts[k - 1]);
    }
  }

  // In some run the gateway has hung up on a client that considers the tunnel alive.
  ghost predicate CanTrip(deadline: nat) {
    exists tr: seq<State>, acts: seq<Action>, k: nat ::
      k < |tr| && IsRun(deadline, tr, acts) && tr[k].clientOpen && !tr[k].gatewayOpen
  }

  // So a live tunnel can trip the deadline if and only if the deadline in force when the ticker
  // starts is within interval + timeout.
  lemma TripsExactlyWhenEarly(deadline: nat)
    ensures CanTrip(deadline) <==> deadline <= 45 * SECOND
  {
    if deadline <= 45 * SECOND {
      var tr, acts := EarlyDeadlineCanFire(deadline);
      assert tr[|acts|].clientOpen && !tr[|acts|].gatewayOpen;
    } else {
      forall tr: seq<State>, acts: seq<Action>, k: nat | k < |tr| && IsRun(deadline, tr, acts)
        ensures tr[k].clientOpen ==> tr[k].gatewayOpen
      {
        LaterDeadlineSpares(deadline, tr, acts, k);
      }
    }
  }

  // ---- Who hangs up, and when ----

  // The client is open until it gives a probe up or closes for another reason, the gateway until
  // its deadline fires, and neither ever opens again.
  lemma {:induction false} OpenExactlyUntil(deadline: nat, tr: seq<State>, acts: seq<Action>, k: nat)
    requires IsRun(deadline, tr, acts) && k < |tr|
    ensures tr[k].clientOpen <==> forall i :: 0 <= i < k ==> !acts[i].GiveUpProbe? && !acts[i].CloseClient?
    ensures tr[k].gatewayOpen <==> forall i :: 0 <= i < k ==> !acts[i].DeadlineFires?
  {
    if k > 0 {
      OpenExactlyUntil(deadline, tr, acts, k - 1);
    }
  }

  // When bytes last reached or left the gateway, if they did.
  function LastTransfer(tr: seq<State>, acts: seq<Action>, k: nat): Option<nat>
    requires |tr| == |acts| + 1 && k < |tr|
  {
    if k == 0 then None
    else if acts[k - 1].Arrive? || acts[k - 1].OtherTraffic? then Some(tr[k - 1].now)
    else LastTransfer(tr, acts, k - 1)
  }

  // The deadline is always 90 s after the last transfer.
  lemma {:induction false} DeadlineFollowsTransfers(deadline: nat, tr: seq<State>, acts: seq<Action>, k: nat)
    requires IsRun(deadline, tr, acts) && k < |tr|
    ensures tr[k].deadline == match LastTransfer(tr, acts, k) case Some(t) => t + 90_000_000_000 case None => deadline
  {
    if k > 0 {
      DeadlineFollowsTransfers(deadline, tr, acts, k - 1);
    }
  }

  lemma Extend(deadline: nat, tr: seq<State>, acts: seq<Action>, a: Action)
    returns (tr': seq<State>, acts': seq<Action>)
    requires IsRun(deadline, tr, acts) && Enabled(tr[|acts|], a)
    ensures IsRun(deadline, tr', acts') && tr <= tr' && acts' == acts + [a]
    ensures tr'[|acts'|] == Apply(tr[|acts|], a)
  {
    tr', acts' := tr + [Apply(tr[|acts|], a)], acts + [a];
    forall i | 0 <= i < |acts'| ensures Enabled(tr'[i], acts'[i]) && tr'[i + 1] == Apply(tr'[i], acts'[i]) {
      if i < |acts| {
        assert tr'[i] == tr[i] && tr'[i + 1] == tr[i + 1] && acts'[i] == acts[i];
      }
    }
  }

  // The gateway never hangs up earlier than 90 s after the last transfer.
  lemma NeverHangsUpEarly(deadline: nat, tr: seq<State>, acts: seq<Action>, k: nat)
    requires IsRun(deadline, tr, acts) && k < |acts| && acts[k].DeadlineFires?
    ensures tr[k].now >= match LastTransfer(tr, acts, k) case Some(t) => t + 90_000_000_000 case None => deadline
  {
    DeadlineFollowsTransfers(deadline, tr, acts, k);
  }

  // And once the client is gone it can hang up then, if nothing else arrives.
  lemma DeadTunnelIsDropped(deadline: nat, tr: seq<State>, acts: seq<Action>)
    returns (tr': seq<State>, acts': seq<Action>)
    requires IsRun(deadline, tr, acts) && !tr[|acts|].clientOpen && tr[|acts|].gatewayOpen
    ensures IsRun(deadline, tr', acts') && tr <= tr' && !tr'[|acts'|].gatewayOpen
    ensures var due := match LastTransfer(tr, acts, |acts|) case Some(t) => t + 90_000_000_000 case None => deadline;
            tr'[|acts'|].now == if due <= tr[|acts|].now then tr[|acts|].now else due
  {
    DeadlineFollowsTransfers(deadline, tr, acts, |acts|);
    tr', acts' := tr, acts;
    if tr[|acts|].now < tr[|acts|].deadline {
      tr', acts' := Extend(deadline, tr, acts, Pass(tr[|acts|].deadline - tr[|acts|].now));
    }
    tr', acts' := Extend(deadline, tr', acts', DeadlineFires);
  }

  // ---- When the client probes ----

  function Ticks(acts: seq<Action>, k: nat): nat
    requires k <= |acts|
  {
    if k == 0 then 0 else Ticks(acts, k - 1) + if acts[k - 1].Tick? then 1 else 0
  }

  lemma {:induction false} NextTickCounts(deadline: nat, tr: seq<State>, acts: seq<Action>, k: nat)
    requires IsRun(deadline, tr, acts) && k < |tr|
    ensures tr[k].nextTick == 30_000_000_000 * (Ticks(acts, k) + 1)
  {
    if k > 0 {
      NextTickCounts(deadline, tr, acts, k - 1);
    }
  }

  predicate Arrives(acts: seq<Action>, j: nat, k: nat)
    requires k <= |acts|
  {
    exists i :: j < i < k && acts[i].Arrive?
  }

  // Action j sent the probe that the client still waits on at k.
  predicate ProbeSince(acts: seq<Action>, j: nat, k: nat)
    requires k <= |acts|
  {
    && j < k && acts[j].Tick?
    && forall i :: j < i < k ==> !acts[i].Tick? && !acts[i].Answer? && !acts[i].GiveUpProbe? && !acts[i].CloseClient?
  }

  // What one step does to the probe the client waits on.
  predicate ProbeMoves(s: State, a: Action, s': State) {
    if a.Tick? then s'.waiting == Some(Probe(s.now, false))
    else if a.Answer? || a.GiveUpProbe? || a.CloseClient? then s'.waiting == None
    else if a.Arrive? then s.waiting.Some? && s'.waiting == Some(Probe(s.waiting.value.sentAt, true))
    else s'.waiting == s.waiting
  }

  lemma ProbeStep(s: State, a: Action)
    requires Enabled(s, a)
    ensures ProbeMoves(s, a, Apply(s, a))
  {
  }

  lemma ArrivesStep(acts: seq<Action>, j: nat, k: nat)
    requires j < k < |acts|
    ensures Arrives(acts, j, k + 1) <==> Arrives(acts, j, k) || acts[k].Arrive?
  {
  }

  lemma {:induction false} WaitingSinceTick(tr: seq<State>, acts: seq<Action>, k: nat)
    requires |tr| == |acts| + 1 && k < |tr| && tr[0].waiting.None?
    requires forall i :: 0 <= i < k ==> ProbeMoves(tr[i], acts[i], tr[i + 1])
    ensures tr[k].waiting.Some? <==> exists j :: ProbeSince(acts, j, k)
    ensures forall j: nat :: ProbeSince(acts, j, k) ==>
              tr[k].waiting == Some(Probe(tr[j].now, Arrives(acts, j, k)))
  {
    if k > 0 {
      var a := acts[k - 1];
      WaitingSinceTick(tr, acts, k - 1);
      assert ProbeMoves(tr[k - 1], a, tr[k - 1 + 1]);
      if a.Tick? {
        assert ProbeSince(acts, k - 1, k);
      } else if tr[k].waiting.Some? {
        var j: nat :| ProbeSince(acts, j, k - 1);
        assert ProbeSince(acts, j, k);
      }
      forall j: nat | ProbeSince(acts, j, k)
        ensures tr[k].waiting == Some(Probe(tr[j].now, Arrives(acts, j, k)))
      {
        if j < k - 1 {
          assert ProbeSince(acts, j, k - 1);
          ArrivesStep(acts, j, k - 1);
        }
      }
    }
  }

  // The client probes every 30 s, on the second, and gives a probe up exactly 15 s after sending
  // it, when neither an answer nor anything else has ended the wait.
  lemma ProbesOnTime(deadline: nat, tr: seq<State>, acts: seq<Action>, k: nat)
    requires IsRun(deadline, tr, acts) && k < |acts|
    ensures acts[k].Tick? ==> tr[k].now == 30_000_000_000 * (Ticks(acts, k) + 1)
    ensures acts[k].GiveUpProbe? ==> exists j: nat :: ProbeSince(acts, j, k) && tr[k].now == tr[j].now + 15_000_000_000
    ensures acts[k].Answer? ==> exists j: nat :: ProbeSince(acts, j, k) && Arrives(acts, j, k)
    ensures acts[k].Arrive? ==> exists j: nat :: ProbeSince(acts, j, k) && !Arrives(acts, j, k)
  {
    NextTickCounts(deadline, tr, acts, k);
    forall i | 0 <= i < k ensures ProbeMoves(tr[i], acts[i], tr[i + 1]) {
      ProbeStep(tr[i], acts[i]);
    }
    WaitingSinceTick(tr, acts, k);
  }

  // An end that has closed takes no part any more: a closed client sends nothing and hears nothing,
  // and at a closed gateway nothing arrives and nothing fires.
  lemma ClosedEndsAreSilent(deadline: nat, tr: seq<State>, acts: seq<Action>, i: nat, k: nat)
    requires IsRun(deadline, tr, acts) && i < k < |acts|
    ensures acts[i].GiveUpProbe? || acts[i].CloseClient? ==>
              !acts[k].Tick? && !acts[k].Arrive? && !acts[k].Answer? && !acts[k].GiveUpProbe?
    ensures acts[i].DeadlineFires? ==> !acts[k].Arrive? && !acts[k].OtherTraffic? && !acts[k].DeadlineFires?
  {
    OpenExactlyUntil(deadline, tr, acts, k);
    InvAlong(deadline, tr, acts, k);
  }

  // A client that gets no answers any more can give up, within interval + timeout from now.
  lemma SilenceCanBeNoticed(deadline: nat, tr: seq<State>, acts: seq<Action>)
    returns (tr': seq<State>, acts': seq<Action>)
    requires IsRun(deadline, tr, acts) && tr[|acts|].clientOpen
    ensures IsRun(deadline, tr', acts') && tr <= tr' && !tr'[|acts'|].clientOpen
    ensures acts'[|acts'| - 1].GiveUpProbe? && tr'[|acts'|].now <= tr[|acts|].now + 45 * SECOND
  {
    InvAlong(deadline, tr, acts, |acts|);
    tr', acts' := tr, acts;
    if tr[|acts|].waiting.None? {
      tr', acts' := Extend(deadline, tr, acts, Pass(tr[|acts|].nextTick - tr[|acts|].now));
      tr', acts' := Extend(deadline, tr', acts', Tick);
    }
    var limit := tr'[|acts'|].waiting.value.sentAt + KEEPALIVE_TIMEOUT;
    tr', acts' := Extend(deadline, tr', acts', Pass(limit - tr'[|acts'|].now));
    tr', acts' := Extend(deadline, tr', acts', GiveUpProbe);
  }

  // The client can close at any time, and as long as the gateway is open other traffic can come,
  // which moves the deadline to 90 s from then.
  lemma OutsideCanAct(deadline: nat, tr: seq<State>, acts: seq<Action>)
    returns (closed: seq<State>, closing: seq<Action>, moved: seq<State>, moving: seq<Action>)
    requires IsRun(deadline, tr, acts)
    ensures IsRun(deadline, closed, closing) && tr <= closed && !closed[|closing|].clientOpen
    ensures closed[|closing|].now == tr[|acts|].now
    ensures IsRun(deadline, moved, moving) && tr <= moved && moved[|moving|].now == tr[|acts|].now
    ensures tr[|acts|].gatewayOpen ==> moved[|moving|].deadline == tr[|acts|].now + 90 * SECOND
    ensures moved[|moving|].clientOpen == tr[|acts|].clientOpen
  {
    closed, closing := Extend(deadline, tr, acts, CloseClient);
    moved, moving := tr, acts;
    if tr[|acts|].gatewayOpen {
      moved, moving := Extend(deadline, tr, acts, OtherTraffic);
    }
  }

  lemma ProbeIsAnswered(deadline: nat, tr: seq<State>, acts: seq<Action>)
    returns (tr': seq<State>, acts': seq<Action>)
    requires IsRun(deadline, tr, acts) && tr[|acts|].clientOpen && tr[|acts|].gatewayOpen
    ensures IsRun(deadline, tr', acts') && tr <= tr'
    ensures tr'[|acts'|].clientOpen && tr'[|acts'|].gatewayOpen && tr'[|acts'|].waiting.None?
  {
    tr', acts' := tr, acts;
    if tr'[|acts'|].waiting.Some? && !tr'[|acts'|].waiting.value.arrived {
      tr', acts' := Extend(deadline, tr', acts', Arrive);
    }
    if tr'[|acts'|].waiting.Some? {
      tr', acts' := Extend(deadline, tr', acts', Answer);
    }
  }

  // A tunnel that is open at both ends can always go on: the client's next probe is sent, arrives
  // and is answered, and both ends are still open.
  lemma TunnelCanGoOn(deadline: nat, tr: seq<State>, acts: seq<Action>)
    returns (tr': seq<State>, acts': seq<Action>)
    requires IsRun(deadline, tr, acts) && tr[|acts|].clientOpen && tr[|acts|].gatewayOpen
    ensures IsRun(deadline, tr', acts') && tr <= tr'
    ensures tr'[|acts'|].clientOpen && tr'[|acts'|].gatewayOpen && tr'[|acts'|].waiting.None?
    ensures Ticks(acts', |acts'|) > 0 && tr'[|acts'|].lastArrival == Some(tr'[|acts'|].now)
    ensures tr'[|acts'|].lastReply == tr'[|acts'|].now
  {
    tr', acts' := ProbeIsAnswered(deadline, tr, acts);
    InvAlong(deadline, tr', acts', |acts'|);
    tr', acts' := Extend(deadline, tr', acts', Pass(tr'[|acts'|].nextTick - tr'[|acts'|].now));
    tr', acts' := Extend(deadline, tr', acts', Tick);
    tr', acts' := Extend(deadline, tr', acts', Arrive);
    tr', acts' := Extend(deadline, tr', acts', Answer);
    NextTickCounts(deadline, tr', acts', |acts'|);
    InvAlong(deadline, tr', acts', |acts'|);
  }
}
