// The life of tunnels at the gateway, as a step machine over any number of connections.
//
// Each accepted connection has one goroutine that takes its global requests in order and, when
// the transport dies, runs its deferred cleanup. Registering and Close change the table under
// the lock but close the losing connection only after unlocking, so each is two steps here and
// anything may happen in between. The log is a history variable: one event per table operation.
module Gateway {
  import opened Wrappers
  import opened Registry

  type ConnId = nat
  type Link = Tunnel<ConnId>

  // Where a connection's request goroutine is.
  datatype Loop = Serving | Evicting(victim: ConnId) | Finished

  // machine and tenant are what the handshake established. shut: the gateway called Close on
  // the connection. lost: its transport ended for any other reason (peer, network, read deadline).
  datatype Peer = Peer(machine: string, tenant: nat, loop: Loop, shut: bool, lost: bool) {
    predicate Dead() { shut || lost }
  }

  datatype Event =
    | Registered(link: Link)
    | Unregistered(machine: string, conn: ConnId)
    | Closed(machine: string)

  // closers: the threads inside Registry.Close that have unlocked but not yet closed.
  datatype State = State(
    peers: map<ConnId, Peer>,
    tunnels: Table<ConnId>,
    closers: map<nat, ConnId>,
    log: seq<Event>)

  datatype Action =
    | Accept(c: ConnId, machine: string, tenant: nat)
    | Forward(c: ConnId, addr: string, port: nat)
    | FinishEviction(c: ConnId)
    | Cancel(c: ConnId)
    | OtherRequest(c: ConnId)
    | LoseTransport(c: ConnId)
    | Cleanup(c: ConnId)
    | CloseRemove(thread: nat, machine: string)
    | CloseFinish(thread: nat)

  function Init(): State {
    State(map[], map[], map[], [])
  }

  predicate IsServing(s: State, c: ConnId) {
    c in s.peers && s.peers[c].loop == Serving
  }

  predicate IsLive(s: State, c: ConnId) {
    c in s.peers && !s.peers[c].Dead()
  }

  predicate Enabled(s: State, a: Action) {
    match a
    case Accept(c, _, _) => c !in s.peers
    case Forward(c, _, _) => IsServing(s, c)
    case FinishEviction(c) => c in s.peers && s.peers[c].loop.Evicting?
    case Cancel(c) => IsServing(s, c)
    case OtherRequest(c) => IsServing(s, c)
    case LoseTransport(c) => c in s.peers
    case Cleanup(c) => IsServing(s, c) && !IsLive(s, c)
    case CloseRemove(thread, _) => thread !in s.closers
    case CloseFinish(thread) => thread in s.closers
  }

  function LinkOf(s: State, c: ConnId, addr: string, port: nat): Link
    requires c in s.peers
  {
    Tunnel(s.peers[c].machine, s.peers[c].tenant, c, addr, port)
  }

  function Shut(peers: map<ConnId, Peer>, c: ConnId): map<ConnId, Peer> {
    if c in peers then peers[c := peers[c].(shut := true)] else peers
  }

  function SetLoop(peers: map<ConnId, Peer>, c: ConnId, loop: Loop): map<ConnId, Peer>
    requires c in peers
  {
    peers[c := peers[c].(loop := loop)]
  }

  function Apply(s: State, a: Action): State
    requires Enabled(s, a)
  {
    match a
    case Accept(c, machine, tenant) =>
      s.(peers := s.peers[c := Peer(machine, tenant, Serving, false, false)])
    case Forward(c, addr, port) =>
      var t := LinkOf(s, c, addr, port);
      var loop := match Displaced(s.tunnels, t) case Some(v) => Evicting(v) case None => Serving;
      s.(peers := SetLoop(s.peers, c, loop),
         tunnels := Put(s.tunnels, t),
         log := s.log + [Registered(t)])
    case FinishEviction(c) =>
      s.(peers := SetLoop(Shut(s.peers, s.peers[c].loop.victim), c, Serving))
    case Cancel(c) =>
      s.(tunnels := Drop(s.tunnels, s.peers[c].machine, c),
         log := s.log + [Unregistered(s.peers[c].machine, c)])
    case OtherRequest(c) => s
    case LoseTransport(c) =>
      s.(peers := s.peers[c := s.peers[c].(lost := true)])
    case Cleanup(c) =>
      s.(peers := SetLoop(s.peers, c, Finished),
         tunnels := Drop(s.tunnels, s.peers[c].machine, c),
         log := s.log + [Unregistered(s.peers[c].machine, c)])
    case CloseRemove(thread, machine) =>
      s.(tunnels := s.tunnels - {machine},
         closers := if machine in s.tunnels
                    then s.closers[thread := s.tunnels[machine].conn]
                    else s.closers,
         log := s.log + [Closed(machine)])
    case CloseFinish(thread) =>
      s.(peers := Shut(s.peers, s.closers[thread]), closers := s.closers - {thread})
  }

  // tr is the list of states passed through by taking the actions in order.
  predicate Steps(tr: seq<State>, acts: seq<Action>) {
    && |tr| == |acts| + 1
    && forall i :: 0 <= i < |acts| ==> Enabled(tr[i], acts[i]) && tr[i + 1] == Apply(tr[i], acts[i])
  }

  predicate IsRun(tr: seq<State>, acts: seq<Action>) {
    Steps(tr, acts) && tr[0] == Init()
  }

  // ---- What the history says ----

  function Target(e: Event): string {
    match e
    case Registered(t) => t.machine
    case Unregistered(machine, _) => machine
    case Closed(machine) => machine
  }

  function After(e: Event, before: Option<Link>): Option<Link> {
    match e
    case Registered(t) => Some(t)
    case Unregistered(_, c) => if before.Some? && before.value.conn == c then None else before
    case Closed(_) => None
  }

  // The tunnel a machine should have once the logged operations have been carried out.
  function Holder(log: seq<Event>, machine: string): Option<Link> {
    if log == [] then None
    else
      var last, before := log[|log| - 1], Holder(log[..|log| - 1], machine);
      if Target(last) == machine then After(last, before) else before
  }

  // e takes the machine's entry away from connection c.
  predicate Ends(e: Event, machine: string, c: ConnId) {
    && Target(e) == machine
    && (e.Unregistered? ==> e.conn == c)
  }

  // Event i registered t and no later event took the entry away again.
  predicate StillStands(log: seq<Event>, i: nat, t: Link) {
    && i < |log|
    && log[i] == Registered(t)
    && forall j :: i < j < |log| ==> !Ends(log[j], t.machine, t.conn)
  }

  // Event i pushed connection v out of the table by registering another or by Close.
  predicate Evicts(log: seq<Event>, i: nat, v: ConnId) {
    && i < |log|
    && var before := Holder(log[..i], Target(log[i]));
    && before.Some? && before.value.conn == v
    && match log[i]
       case Registered(t) => t.conn != v
       case Unregistered(_, _) => false
       case Closed(_) => true
  }

  // The fold and the declarative reading of the history agree.
  lemma {:induction false} HolderIsLastStanding(log: seq<Event>, t: Link)
    ensures Holder(log, t.machine) == Some(t) <==> exists i :: StillStands(log, i, t)
  {
    if log != [] {
      var n := |log| - 1;
      var init, last := log[..n], log[n];
      HolderIsLastStanding(init, t);
      if Holder(log, t.machine) == Some(t) {
        if last == Registered(t) {
          assert StillStands(log, n, t);
        } else {
          var i :| StillStands(init, i, t);
          assert StillStands(log, i, t);
        }
      }
      if i: nat :| StillStands(log, i, t) {
        if i < n {
          assert StillStands(init, i, t);
        }
      }
    }
  }

  lemma {:induction false} HolderWasRegistered(log: seq<Event>, machine: string)
    requires Holder(log, machine).Some?
    ensures Registered(Holder(log, machine).value) in log
    ensures Holder(log, machine).value.machine == machine
  {
    var last := log[|log| - 1];
    if !(last.Registered? && last.link.machine == machine) {
      HolderWasRegistered(log[..|log| - 1], machine);
    }
  }

  // ---- The invariant ----

  function Entry(tunnels: Table<ConnId>, machine: string): Option<Link> {
    if machine in tunnels then Some(tunnels[machine]) else None
  }

  ghost predicate TableMatchesLog(s: State) {
    forall machine: string :: Entry(s.tunnels, machine) == Holder(s.log, machine)
  }

  // Every entry sits under the machine its connection authenticated as, with that
  // connection's tenant, and its request loop has not finished.
  predicate EntriesAuthentic(s: State) {
    forall machine <- s.tunnels ::
      var t := s.tunnels[machine];
      && t.machine == machine
      && t.conn in s.peers
      && s.peers[t.conn].machine == machine
      && s.peers[t.conn].tenant == t.tenant
      && s.peers[t.conn].loop != Finished
  }

  predicate PendingKnown(s: State) {
    && (forall c <- s.peers :: s.peers[c].loop.Evicting? ==>
          s.peers[c].loop.victim in s.peers && s.peers[c].loop.victim != c)
    && (forall thread <- s.closers :: s.closers[thread] in s.peers)
  }

  predicate FinishedAreDead(s: State) {
    forall c <- s.peers :: s.peers[c].loop == Finished ==> s.peers[c].Dead()
  }

  predicate IsShut(s: State, v: ConnId) {
    v in s.peers && s.peers[v].shut
  }

  predicate OwedByPeer(peers: map<ConnId, Peer>, v: ConnId) {
    exists c :: c in peers && peers[c].loop == Evicting(v)
  }

  predicate OwedByCloser(closers: map<nat, ConnId>, v: ConnId) {
    exists thread :: thread in closers && closers[thread] == v
  }

  // Some thread has taken v out of the table and still has to close it.
  predicate CloseOwed(s: State, v: ConnId) {
    OwedByPeer(s.peers, v) || OwedByCloser(s.closers, v)
  }

  ghost predicate ShutMatchesLog(s: State) {
    forall v: ConnId :: (IsShut(s, v) || CloseOwed(s, v)) <==> exists i :: Evicts(s.log, i, v)
  }

  ghost predicate Inv(s: State) {
    && TableMatchesLog(s) && EntriesAuthentic(s) && PendingKnown(s) && FinishedAreDead(s)
    && ShutMatchesLog(s)
  }

  lemma StepTableMatchesLog(s: State, a: Action)
    requires Inv(s) && Enabled(s, a)
    ensures TableMatchesLog(Apply(s, a))
  {
  }

  lemma EvictsSnoc(log: seq<Event>, e: Event, v: ConnId)
    ensures (exists i :: Evicts(log + [e], i, v))
       <==> (exists i :: Evicts(log, i, v)) || Evicts(log + [e], |log|, v)
  {
    var longer := log + [e];
    forall i | 0 <= i < |log| ensures Evicts(longer, i, v) <==> Evicts(log, i, v) {
      assert longer[..i] == log[..i];
    }
  }

  // The connection, if any, that action a pushes out of the table.
  function Ousted(s: State, a: Action): Option<ConnId>
    requires Enabled(s, a)
  {
    match a
    case Forward(c, addr, port) => Displaced(s.tunnels, LinkOf(s, c, addr, port))
    case CloseRemove(_, machine) => if machine in s.tunnels then Some(s.tunnels[machine].conn) else None
    case _ => None
  }

  lemma OustedIsLogged(s: State, a: Action, v: ConnId)
    requires Inv(s) && Enabled(s, a)
    ensures (exists i :: Evicts(Apply(s, a).log, i, v))
       <==> (exists i :: Evicts(s.log, i, v)) || Ousted(s, a) == Some(v)
  {
    var log := Apply(s, a).log;
    if log != s.log {
      var e := log[|s.log|];
      assert log == s.log + [e] && log[..|s.log|] == s.log;
      EvictsSnoc(s.log, e, v);
      assert Entry(s.tunnels, Target(e)) == Holder(s.log, Target(e));
    }
  }

  // Moving c's loop to a new place removes what c owed before and adds what it owes now.
  lemma SetLoopOwes(peers: map<ConnId, Peer>, c: ConnId, loop: Loop, v: ConnId)
    requires c in peers && !peers[c].loop.Evicting?
    ensures OwedByPeer(SetLoop(peers, c, loop), v) <==> OwedByPeer(peers, v) || loop == Evicting(v)
  {
    var after := SetLoop(peers, c, loop);
    assert after[c].loop == loop;
    forall d | d in peers && d != c ensures after[d] == peers[d] {}
  }

  lemma FinishEvictionOwes(peers: map<ConnId, Peer>, c: ConnId, v: ConnId)
    requires c in peers && peers[c].loop.Evicting?
    requires peers[c].loop.victim in peers
    ensures var victim := peers[c].loop.victim;
            var after := SetLoop(Shut(peers, victim), c, Serving);
            && (OwedByPeer(after, v) ==> OwedByPeer(peers, v))
            && (OwedByPeer(peers, v) ==> OwedByPeer(after, v) || v == victim)
            && (v in after && after[v].shut <==> (v in peers && peers[v].shut) || v == victim)
  {
    var victim := peers[c].loop.victim;
    var after := SetLoop(Shut(peers, victim), c, Serving);
    forall d | d in peers && d != c ensures after[d].loop == peers[d].loop {}
    assert after[c].loop == Serving;
  }

  lemma SamePeersOwe(before: map<ConnId, Peer>, after: map<ConnId, Peer>, c: ConnId, v: ConnId)
    requires after.Keys == before.Keys + {c}
    requires forall d <- before :: after[d].loop == before[d].loop
    requires c in before || !after[c].loop.Evicting?
    ensures OwedByPeer(after, v) <==> OwedByPeer(before, v)
  {
  }

  lemma ClosersOwe(closers: map<nat, ConnId>, thread: nat, c: ConnId, v: ConnId)
    ensures thread !in closers ==>
              (OwedByCloser(closers[thread := c], v) <==> OwedByCloser(closers, v) || v == c)
    ensures thread in closers ==>
              && (OwedByCloser(closers - {thread}, v) ==> OwedByCloser(closers, v))
              && (OwedByCloser(closers, v) ==> OwedByCloser(closers - {thread}, v) || v == closers[thread])
  {
    var more, fewer := closers[thread := c], closers - {thread};
    assert more[thread] == c;
    forall th | th in closers && th != thread
      ensures th in more && more[th] == closers[th] && th in fewer && fewer[th] == closers[th]
    {}
  }

  // Closing obligations appear exactly for the ousted connection and are discharged by closing it.
  lemma OustedIsOwed(s: State, a: Action, v: ConnId)
    requires Inv(s) && Enabled(s, a)
    ensures IsShut(Apply(s, a), v) || CloseOwed(Apply(s, a), v)
       <==> IsShut(s, v) || CloseOwed(s, v) || Ousted(s, a) == Some(v)
  {
    match a
    case Accept(c, _, _) => SamePeersOwe(s.peers, Apply(s, a).peers, c, v);
    case Forward(c, _, _) => SetLoopOwes(s.peers, c, Apply(s, a).peers[c].loop, v);
    case FinishEviction(c) => FinishEvictionOwes(s.peers, c, v);
    case LoseTransport(c) => SamePeersOwe(s.peers, Apply(s, a).peers, c, v);
    case Cleanup(c) => SetLoopOwes(s.peers, c, Finished, v);
    case CloseRemove(thread, machine) =>
      if machine in s.tunnels {
        ClosersOwe(s.closers, thread, s.tunnels[machine].conn, v);
      }
    case CloseFinish(thread) =>
      SamePeersOwe(s.peers, Apply(s, a).peers, s.closers[thread], v);
      ClosersOwe(s.closers, thread, 0, v);
    case Cancel(c) =>
    case OtherRequest(c) =>
  }

  lemma StepEntriesAuthentic(s: State, a: Action)
    requires EntriesAuthentic(s) && Enabled(s, a)
    ensures EntriesAuthentic(Apply(s, a))
  {
  }

  lemma StepPendingKnown(s: State, a: Action)
    requires EntriesAuthentic(s) && PendingKnown(s) && FinishedAreDead(s) && Enabled(s, a)
    ensures PendingKnown(Apply(s, a)) && FinishedAreDead(Apply(s, a))
  {
  }

  lemma StepInv(s: State, a: Action)
    requires Inv(s) && Enabled(s, a)
    ensures Inv(Apply(s, a))
  {
    StepTableMatchesLog(s, a);
    StepEntriesAuthentic(s, a);
    StepPendingKnown(s, a);
    forall v: ConnId
      ensures (IsShut(Apply(s, a), v) || CloseOwed(Apply(s, a), v))
         <==> exists i :: Evicts(Apply(s, a).log, i, v)
    {
      OustedIsOwed(s, a, v);
      OustedIsLogged(s, a, v);
    }
  }

  lemma {:induction false} InvAlong(tr: seq<State>, acts: seq<Action>, k: nat)
    requires Steps(tr, acts) && k < |tr| && Inv(tr[0])
    ensures Inv(tr[k])
  {
    if k > 0 {
      InvAlong(tr, acts, k - 1);
      StepInv(tr[k - 1], acts[k - 1]);
    }
  }

  lemma InitInv()
    ensures Inv(Init())
  {
  }

  // ---- Over whole runs ----

  // Property of every reachable state: a machine has exactly the tunnel whose registration has
  // not been superseded, under the identity its connection authenticated with.
  lemma RegistryIsHistory(tr: seq<State>, acts: seq<Action>, k: nat, t: Link)
    requires IsRun(tr, acts) && k < |tr|
    ensures Entry(tr[k].tunnels, t.machine) == Some(t) <==> exists i :: StillStands(tr[k].log, i, t)
    ensures EntriesAuthentic(tr[k])
  {
    InitInv();
    InvAlong(tr, acts, k);
    HolderIsLastStanding(tr[k].log, t);
  }

  // A machine is online exactly while a registration for it still stands.
  lemma OnlineExactlyWhileRegistered(tr: seq<State>, acts: seq<Action>, k: nat, machine: string)
    requires IsRun(tr, acts) && k < |tr|
    ensures machine in tr[k].tunnels <==> exists i, t: Link :: t.machine == machine && StillStands(tr[k].log, i, t)
  {
    if machine in tr[k].tunnels {
      var t := tr[k].tunnels[machine];
      RegistryIsHistory(tr, acts, k, t);
      assert t.machine == machine;
    }
    if i: nat, t: Link :| t.machine == machine && StillStands(tr[k].log, i, t) {
      RegistryIsHistory(tr, acts, k, t);
    }
  }

  // The gateway closes, or has a thread about to close, exactly the connections that another
  // registration or a Close pushed out: no leak, and never a connection that was not pushed out.
  lemma ClosedExactlyWhenEvicted(tr: seq<State>, acts: seq<Action>, k: nat, v: ConnId)
    requires IsRun(tr, acts) && k < |tr|
    ensures IsShut(tr[k], v) || CloseOwed(tr[k], v) <==> exists i :: Evicts(tr[k].log, i, v)
  {
    InitInv();
    InvAlong(tr, acts, k);
  }

  predicate Holds(s: State, c: ConnId) {
    exists machine :: machine in s.tunnels && s.tunnels[machine].conn == c
  }

  lemma {:induction false} FinishedStays(tr: seq<State>, acts: seq<Action>, i: nat, k: nat, c: ConnId)
    requires Steps(tr, acts) && i <= k < |tr|
    requires c in tr[i].peers && tr[i].peers[c].loop == Finished
    ensures c in tr[k].peers && tr[k].peers[c].loop == Finished
    decreases k - i
  {
    if i < k {
      FinishedStays(tr, acts, i, k - 1, c);
    }
  }

  // No zombies: once a connection's goroutine has run its cleanup, no entry ever refers to it.
  lemma NoZombies(tr: seq<State>, acts: seq<Action>, i: nat, k: nat, c: ConnId)
    requires IsRun(tr, acts) && i <= k < |tr|
    requires c in tr[i].peers && tr[i].peers[c].loop == Finished
    ensures !Holds(tr[k], c) && tr[k].peers.Keys >= {c} && tr[k].peers[c].Dead()
  {
    InitInv();
    InvAlong(tr, acts, k);
    FinishedStays(tr, acts, i, k, c);
  }

  // The actions that may take the entry of machine away from connection c.
  predicate Threatens(s: State, a: Action, machine: string, c: ConnId)
    requires Enabled(s, a)
  {
    match a
    case Forward(d, _, _) => d != c && s.peers[d].machine == machine
    case Cancel(d) => d == c
    case Cleanup(d) => d == c
    case CloseRemove(_, m) => m == machine
    case _ => false
  }

  predicate Owns(s: State, machine: string, c: ConnId) {
    machine in s.tunnels && s.tunnels[machine].conn == c
  }

  lemma SurvivesStep(s: State, a: Action, machine: string, c: ConnId)
    requires EntriesAuthentic(s) && Enabled(s, a)
    requires Owns(s, machine, c) && !Threatens(s, a, machine, c)
    ensures Owns(Apply(s, a), machine, c)
  {
  }

  // A tunnel outlives everything except a newer registration for its machine, a Close of its
  // machine, and its own connection's cancel or cleanup. In particular it outlives the late
  // cleanup of the tunnel it replaced.
  lemma {:induction false} TunnelSurvives(
    tr: seq<State>, acts: seq<Action>, i: nat, k: nat, machine: string, c: ConnId)
    requires IsRun(tr, acts) && i <= k < |tr|
    requires Owns(tr[i], machine, c)
    requires forall j :: i <= j < k ==> !Threatens(tr[j], acts[j], machine, c)
    ensures Owns(tr[k], machine, c)
    decreases k
  {
    if i < k {
      TunnelSurvives(tr, acts, i, k - 1, machine, c);
      InitInv();
      InvAlong(tr, acts, k - 1);
      SurvivesStep(tr[k - 1], acts[k - 1], machine, c);
    }
  }

  // Every entry answers to one request of its connection, whose address and port it echoes.
  lemma {:induction false} EntryFromForward(tr: seq<State>, acts: seq<Action>, k: nat, machine: string)
    requires IsRun(tr, acts) && k < |tr| && machine in tr[k].tunnels
    ensures exists j ::
              && 0 <= j < k
              && acts[j] == Forward(tr[k].tunnels[machine].conn, tr[k].tunnels[machine].bindAddr,
                                    tr[k].tunnels[machine].bindPort)
  {
    var s, t := tr[k - 1], tr[k].tunnels[machine];
    if machine in s.tunnels && s.tunnels[machine] == t {
      EntryFromForward(tr, acts, k - 1, machine);
    } else {
      assert acts[k - 1] == Forward(t.conn, t.bindAddr, t.bindPort);
    }
  }

  // What the three removing operations remove: a cancel or cleanup everything its connection
  // has, Close the machine's entry, and nothing else.
  lemma RemovalIsExact(tr: seq<State>, acts: seq<Action>, k: nat, machine: string)
    requires IsRun(tr, acts) && k < |acts|
    requires acts[k].Cancel? || acts[k].Cleanup? || acts[k].CloseRemove?
    ensures Entry(tr[k + 1].tunnels, machine)
         == if machine in tr[k].tunnels
               && !(if acts[k].CloseRemove? then machine == acts[k].machine
                    else tr[k].tunnels[machine].conn == acts[k].c)
            then Some(tr[k].tunnels[machine]) else None
  {
    InitInv();
    InvAlong(tr, acts, k);
  }

  // ---- One forward per connection ----

  // Connection c registers at most once in the whole history.
  predicate RegistersOnce(log: seq<Event>, c: ConnId) {
    forall i, j :: 0 <= i < j < |log| && log[i].Registered? && log[j].Registered?
                   ==> !(log[i].link.conn == c && log[j].link.conn == c)
  }

  lemma {:induction false} LogGrows(tr: seq<State>, acts: seq<Action>, i: nat, k: nat)
    requires Steps(tr, acts) && i <= k < |tr|
    ensures tr[i].log <= tr[k].log
    decreases k - i
  {
    if i < k {
      LogGrows(tr, acts, i, k - 1);
    }
  }

  predicate ForwardsOf(a: Action, c: ConnId) {
    a.Forward? && a.c == c
  }

  // A connection that is outside the table and later in it has forwarded in between.
  lemma {:induction false} EntersOnlyByForward(tr: seq<State>, acts: seq<Action>, j: nat, k: nat, c: ConnId)
    requires Steps(tr, acts) && j <= k < |tr|
    requires !Holds(tr[j], c) && Holds(tr[k], c)
    ensures exists n :: j <= n < k && ForwardsOf(acts[n], c)
    decreases k
  {
    if !Holds(tr[k - 1], c) {
      assert ForwardsOf(acts[k - 1], c);
    } else {
      EntersOnlyByForward(tr, acts, j, k - 1, c);
    }
  }

  // A connection that is outside the table, displaced or never in it, gets in if and only if it
  // forwards: so the newer connection keeps winning exactly as long as the displaced one does not
  // forward again.
  lemma EntersExactlyByForwarding(tr: seq<State>, acts: seq<Action>, j: nat, k: nat, c: ConnId)
    requires Steps(tr, acts) && j <= k < |tr| && !Holds(tr[j], c)
    ensures (exists m :: j <= m <= k && Holds(tr[m], c)) <==> exists n :: j <= n < k && ForwardsOf(acts[n], c)
  {
    if m: nat :| j <= m <= k && Holds(tr[m], c) {
      EntersOnlyByForward(tr, acts, j, m, c);
    }
    if n: nat :| j <= n < k && ForwardsOf(acts[n], c) {
      assert Owns(tr[n + 1], tr[n].peers[c].machine, c);
      assert Holds(tr[n + 1], c);
    }
  }

  // A connection with an entry has registered in the past.
  lemma HolderHasRegistered(s: State, c: ConnId) returns (i: nat)
    requires Inv(s) && Holds(s, c)
    ensures i < |s.log| && s.log[i].Registered? && s.log[i].link.conn == c
  {
    var machine :| machine in s.tunnels && s.tunnels[machine].conn == c;
    assert Entry(s.tunnels, machine) == Holder(s.log, machine);
    HolderWasRegistered(s.log, machine);
    i :| 0 <= i < |s.log| && s.log[i] == Registered(s.tunnels[machine]);
  }

  // In particular a connection that registers once and has lost its entry never gets one again.
  lemma DisplacedStaysOut(tr: seq<State>, acts: seq<Action>, i: nat, j: nat, k: nat, c: ConnId)
    requires IsRun(tr, acts) && i <= j <= k < |tr|
    requires Holds(tr[i], c) && !Holds(tr[j], c)
    ensures RegistersOnce(tr[k].log, c) ==> !Holds(tr[k], c)
  {
    if Holds(tr[k], c) {
      InitInv();
      InvAlong(tr, acts, i);
      var first := HolderHasRegistered(tr[i], c);
      EntersOnlyByForward(tr, acts, j, k, c);
      var n :| j <= n < k && ForwardsOf(acts[n], c);
      LogGrows(tr, acts, i, n);
      LogGrows(tr, acts, n + 1, k);
      var second := |tr[n].log|;
      assert tr[n + 1].log[second].Registered?;
      assert tr[k].log[second] == tr[n + 1].log[second] && tr[k].log[first] == tr[i].log[first];
    }
  }

  // Without that discipline the newest connection can lose: connection 0 forwards, is displaced
  // by connection 1, and takes the entry back with a second forward.
  lemma SecondForwardReturns() returns (tr: seq<State>, acts: seq<Action>)
    ensures IsRun(tr, acts) && |tr| == 6
    ensures Holds(tr[3], 0) && !Holds(tr[4], 0) && Holds(tr[5], 0)
    ensures !RegistersOnce(tr[5].log, 0)
  {
    acts := [Accept(0, "m", 7), Accept(1, "m", 7), Forward(0, "", 22), Forward(1, "", 22), Forward(0, "", 22)];
    var s1 := Apply(Init(), acts[0]);
    var s2 := Apply(s1, acts[1]);
    var s3 := Apply(s2, acts[2]);
    var s4 := Apply(s3, acts[3]);
    var s5 := Apply(s4, acts[4]);
    tr := [Init(), s1, s2, s3, s4, s5];
    assert s3.tunnels["m"].conn == 0 && s4.tunnels["m"].conn == 1 && s5.tunnels["m"].conn == 0;
    assert s5.log[0].link.conn == 0 && s5.log[2].link.conn == 0;
  }

  // ---- What becomes of a connection ----

  predicate Accepts(a: Action, c: ConnId) {
    a.Accept? && a.c == c
  }

  lemma KnownStep(s: State, a: Action, c: ConnId)
    requires Enabled(s, a)
    ensures c in Apply(s, a).peers <==> c in s.peers || Accepts(a, c)
    ensures Accepts(a, c) ==> c !in s.peers
    ensures c in Apply(s, a).peers ==>
              var p := Apply(s, a).peers[c];
              if Accepts(a, c) then p.machine == a.machine && p.tenant == a.tenant
              else p.machine == s.peers[c].machine && p.tenant == s.peers[c].tenant
  {
  }

  // A connection is known from its handshake on, under the identity established then.
  lemma {:induction false} KnownSinceAccept(tr: seq<State>, acts: seq<Action>, k: nat, c: ConnId)
    requires IsRun(tr, acts) && k < |tr|
    ensures c in tr[k].peers <==> exists i :: 0 <= i < k && Accepts(acts[i], c)
    ensures forall i :: 0 <= i < k && Accepts(acts[i], c) ==>
              c in tr[k].peers && tr[k].peers[c].machine == acts[i].machine && tr[k].peers[c].tenant == acts[i].tenant
  {
    if k > 0 {
      KnownSinceAccept(tr, acts, k - 1, c);
      KnownStep(tr[k - 1], acts[k - 1], c);
    }
  }

  // Action a closes connection v: the second half of a registration or of a Close that pushed v
  // out of the table.
  predicate ClosesNow(s: State, a: Action, v: ConnId) {
    || (a.FinishEviction? && a.c in s.peers && s.peers[a.c].loop == Evicting(v))
    || (a.CloseFinish? && a.thread in s.closers && s.closers[a.thread] == v)
  }

  lemma ShutStep(s: State, a: Action, v: ConnId)
    requires PendingKnown(s) && Enabled(s, a)
    ensures IsShut(Apply(s, a), v) <==> IsShut(s, v) || ClosesNow(s, a, v)
  {
  }

  // The gateway has closed a connection exactly when a thread that pushed it out has finished.
  lemma {:induction false} ShutExactlyWhenClosed(tr: seq<State>, acts: seq<Action>, k: nat, v: ConnId)
    requires IsRun(tr, acts) && k < |tr|
    ensures IsShut(tr[k], v) <==> exists i :: 0 <= i < k && ClosesNow(tr[i], acts[i], v)
  {
    if k > 0 {
      ShutExactlyWhenClosed(tr, acts, k - 1, v);
      InitInv();
      InvAlong(tr, acts, k - 1);
      ShutStep(tr[k - 1], acts[k - 1], v);
    }
  }

  predicate IsLost(s: State, c: ConnId) {
    c in s.peers && s.peers[c].lost
  }

  lemma {:induction false} LostExactlyWhenCut(tr: seq<State>, acts: seq<Action>, k: nat, c: ConnId)
    requires IsRun(tr, acts) && k < |tr|
    ensures IsLost(tr[k], c) <==> exists i :: 0 <= i < k && acts[i] == LoseTransport(c)
  {
    if k > 0 {
      LostExactlyWhenCut(tr, acts, k - 1, c);
    }
  }

  // A connection is live, so that channels can be opened on it, from its handshake until it is
  // closed as displaced or its transport is lost, and never again.
  lemma LiveExactlyUntilCut(tr: seq<State>, acts: seq<Action>, k: nat, c: ConnId)
    requires IsRun(tr, acts) && k < |tr|
    ensures IsLive(tr[k], c)
       <==> && (exists i :: 0 <= i < k && Accepts(acts[i], c))
            && forall i :: 0 <= i < k ==> !ClosesNow(tr[i], acts[i], c) && acts[i] != LoseTransport(c)
  {
    KnownSinceAccept(tr, acts, k, c);
    ShutExactlyWhenClosed(tr, acts, k, c);
    LostExactlyWhenCut(tr, acts, k, c);
  }

  // The finishing step pays the debt: the connection is shut from then on, and the thread that
  // owed the close is free again.
  lemma FinishingCloses(tr: seq<State>, acts: seq<Action>, j: nat, k: nat)
    requires IsRun(tr, acts) && j < k < |tr|
    ensures acts[j].CloseFinish? ==>
              IsShut(tr[k], tr[j].closers[acts[j].thread]) && acts[j].thread !in tr[j + 1].closers
    ensures acts[j].FinishEviction? ==>
              IsShut(tr[k], tr[j].peers[acts[j].c].loop.victim) && IsServing(tr[j + 1], acts[j].c)
  {
    if acts[j].CloseFinish? {
      assert ClosesNow(tr[j], acts[j], tr[j].closers[acts[j].thread]);
      ShutExactlyWhenClosed(tr, acts, k, tr[j].closers[acts[j].thread]);
    } else if acts[j].FinishEviction? {
      assert ClosesNow(tr[j], acts[j], tr[j].peers[acts[j].c].loop.victim);
      ShutExactlyWhenClosed(tr, acts, k, tr[j].peers[acts[j].c].loop.victim);
    }
  }

  // Whether a connection's goroutine owes the close of v, and whether a Close thread does.
  predicate PeerOwes(s: State, c: ConnId, v: ConnId) {
    c in s.peers && s.peers[c].loop == Evicting(v)
  }

  predicate ThreadOwes(s: State, thread: nat, v: ConnId) {
    thread in s.closers && s.closers[thread] == v
  }

  // Action a, by connection c or by a thread in Close, pushes v out of the table.
  predicate OustsBy(s: State, a: Action, c: ConnId, v: ConnId) {
    Enabled(s, a) && a.Forward? && a.c == c && Ousted(s, a) == Some(v)
  }

  predicate OustsIn(s: State, a: Action, thread: nat, v: ConnId) {
    Enabled(s, a) && a.CloseRemove? && a.thread == thread && Ousted(s, a) == Some(v)
  }

  // What one step does to what c, or a thread, owes.
  predicate PeerOwesMoves(s: State, a: Action, s': State, c: ConnId, v: ConnId) {
    PeerOwes(s', c, v) <==> OustsBy(s, a, c, v) || (PeerOwes(s, c, v) && a != FinishEviction(c))
  }

  predicate ThreadOwesMoves(s: State, a: Action, s': State, thread: nat, v: ConnId) {
    ThreadOwes(s', thread, v) <==> OustsIn(s, a, thread, v) || (ThreadOwes(s, thread, v) && a != CloseFinish(thread))
  }

  lemma OwesStep(s: State, a: Action, c: ConnId, thread: nat, v: ConnId)
    requires Enabled(s, a)
    ensures PeerOwesMoves(s, a, Apply(s, a), c, v) && ThreadOwesMoves(s, a, Apply(s, a), thread, v)
  {
  }

  // Connection c pushed v out by its registration i and has not closed it before k.
  predicate OwesSince(tr: seq<State>, acts: seq<Action>, i: nat, k: nat, c: ConnId, v: ConnId)
    requires |tr| == |acts| + 1 && k < |tr|
  {
    i < k && OustsBy(tr[i], acts[i], c, v) && forall j :: i < j < k ==> acts[j] != FinishEviction(c)
  }

  lemma {:induction false} OwesSinceAlong(tr: seq<State>, acts: seq<Action>, k: nat, c: ConnId, v: ConnId)
    requires |tr| == |acts| + 1 && k < |tr| && !PeerOwes(tr[0], c, v)
    requires forall j :: 0 <= j < k ==> PeerOwesMoves(tr[j], acts[j], tr[j + 1], c, v)
    ensures PeerOwes(tr[k], c, v) <==> exists i :: OwesSince(tr, acts, i, k, c, v)
  {
    if k > 0 {
      OwesSinceAlong(tr, acts, k - 1, c, v);
      assert PeerOwesMoves(tr[k - 1], acts[k - 1], tr[k - 1 + 1], c, v);
      if OustsBy(tr[k - 1], acts[k - 1], c, v) {
        assert OwesSince(tr, acts, k - 1, k, c, v);
      } else if PeerOwes(tr[k], c, v) {
        var i: nat :| OwesSince(tr, acts, i, k - 1, c, v);
        assert OwesSince(tr, acts, i, k, c, v);
      }
      if i: nat :| OwesSince(tr, acts, i, k, c, v) {
        assert i < k - 1 ==> OwesSince(tr, acts, i, k - 1, c, v);
      }
    }
  }

  // A goroutine waits in a close exactly between pushing the victim out and closing it, and for
  // that victim.
  lemma EvictingExactly(tr: seq<State>, acts: seq<Action>, k: nat, c: ConnId, v: ConnId)
    requires IsRun(tr, acts) && k < |tr|
    ensures PeerOwes(tr[k], c, v) <==> exists i :: OwesSince(tr, acts, i, k, c, v)
  {
    forall j | 0 <= j < k ensures PeerOwesMoves(tr[j], acts[j], tr[j + 1], c, v) {
      OwesStep(tr[j], acts[j], c, 0, v);
    }
    OwesSinceAlong(tr, acts, k, c, v);
  }

  // The same of a thread in Close.
  predicate ThreadOwesSince(tr: seq<State>, acts: seq<Action>, i: nat, k: nat, thread: nat, v: ConnId)
    requires |tr| == |acts| + 1 && k < |tr|
  {
    i < k && OustsIn(tr[i], acts[i], thread, v) && forall j :: i < j < k ==> acts[j] != CloseFinish(thread)
  }

  lemma {:induction false} ThreadOwesAlong(tr: seq<State>, acts: seq<Action>, k: nat, thread: nat, v: ConnId)
    requires |tr| == |acts| + 1 && k < |tr| && !ThreadOwes(tr[0], thread, v)
    requires forall j :: 0 <= j < k ==> ThreadOwesMoves(tr[j], acts[j], tr[j + 1], thread, v)
    ensures ThreadOwes(tr[k], thread, v) <==> exists i :: ThreadOwesSince(tr, acts, i, k, thread, v)
  {
    if k > 0 {
      ThreadOwesAlong(tr, acts, k - 1, thread, v);
      assert ThreadOwesMoves(tr[k - 1], acts[k - 1], tr[k - 1 + 1], thread, v);
      if OustsIn(tr[k - 1], acts[k - 1], thread, v) {
        assert ThreadOwesSince(tr, acts, k - 1, k, thread, v);
      } else if ThreadOwes(tr[k], thread, v) {
        var i: nat :| ThreadOwesSince(tr, acts, i, k - 1, thread, v);
        assert ThreadOwesSince(tr, acts, i, k, thread, v);
      }
      if i: nat :| ThreadOwesSince(tr, acts, i, k, thread, v) {
        assert i < k - 1 ==> ThreadOwesSince(tr, acts, i, k - 1, thread, v);
      }
    }
  }

  lemma ClosingExactly(tr: seq<State>, acts: seq<Action>, k: nat, thread: nat, v: ConnId)
    requires IsRun(tr, acts) && k < |tr|
    ensures ThreadOwes(tr[k], thread, v) <==> exists i :: ThreadOwesSince(tr, acts, i, k, thread, v)
  {
    forall j | 0 <= j < k ensures ThreadOwesMoves(tr[j], acts[j], tr[j + 1], thread, v) {
      OwesStep(tr[j], acts[j], 0, thread, v);
    }
    ThreadOwesAlong(tr, acts, k, thread, v);
  }

  // A goroutine has finished exactly when it has run its cleanup.
  lemma {:induction false} FinishedExactly(tr: seq<State>, acts: seq<Action>, k: nat, c: ConnId)
    requires IsRun(tr, acts) && k < |tr|
    ensures c in tr[k].peers && tr[k].peers[c].loop == Finished <==> exists i :: 0 <= i < k && acts[i] == Cleanup(c)
  {
    if k > 0 {
      FinishedExactly(tr, acts, k - 1, c);
    }
  }

  // ---- Nothing is ever stuck ----

  lemma Extend(tr: seq<State>, acts: seq<Action>, a: Action) returns (tr': seq<State>, acts': seq<Action>)
    requires IsRun(tr, acts) && Enabled(tr[|acts|], a)
    ensures IsRun(tr', acts') && tr <= tr' && |acts'| == |acts| + 1
    ensures tr'[|acts'|] == Apply(tr[|acts|], a)
  {
    tr', acts' := tr + [Apply(tr[|acts|], a)], acts + [a];
    forall i | 0 <= i < |acts'| ensures Enabled(tr'[i], acts'[i]) && tr'[i + 1] == Apply(tr'[i], acts'[i]) {
      if i < |acts| {
        assert tr'[i] == tr[i] && tr'[i + 1] == tr[i + 1] && acts'[i] == acts[i];
      }
    }
  }

  // Whatever is going on, a goroutine can get back to its requests at once.
  lemma GetsBackToWork(tr: seq<State>, acts: seq<Action>, c: ConnId)
    returns (tr': seq<State>, acts': seq<Action>)
    requires IsRun(tr, acts) && c in tr[|acts|].peers && tr[|acts|].peers[c].loop != Finished
    ensures IsRun(tr', acts') && tr <= tr' && IsServing(tr'[|acts'|], c)
    ensures tr'[|acts'|].tunnels == tr[|acts|].tunnels
    ensures var p, p' := tr[|acts|].peers[c], tr'[|acts'|].peers[c];
            p'.machine == p.machine && p'.tenant == p.tenant && (p.Dead() ==> p'.Dead())
  {
    tr', acts' := tr, acts;
    if tr[|acts|].peers[c].loop.Evicting? {
      tr', acts' := Extend(tr, acts, FinishEviction(c));
    }
  }

  // A dead connection can always be cleaned up, and is out of the table then.
  lemma DeadCanBeCleaned(tr: seq<State>, acts: seq<Action>, c: ConnId)
    returns (tr': seq<State>, acts': seq<Action>)
    requires IsRun(tr, acts) && c in tr[|acts|].peers && !IsLive(tr[|acts|], c)
    ensures IsRun(tr', acts') && tr <= tr' && !Holds(tr'[|acts'|], c)
    ensures c in tr'[|acts'|].peers && tr'[|acts'|].peers[c].loop == Finished
  {
    tr', acts' := tr, acts;
    if tr[|acts|].peers[c].loop != Finished {
      tr', acts' := GetsBackToWork(tr, acts, c);
      tr', acts' := Extend(tr', acts', Cleanup(c));
    }
    NoZombies(tr', acts', |acts'|, |acts'|, c);
  }

  // A close that is owed can always be performed at once.
  lemma OwedCanBeClosed(tr: seq<State>, acts: seq<Action>, v: ConnId)
    returns (tr': seq<State>, acts': seq<Action>)
    requires IsRun(tr, acts) && CloseOwed(tr[|acts|], v)
    ensures IsRun(tr', acts') && tr <= tr' && IsShut(tr'[|acts'|], v)
  {
    InitInv();
    InvAlong(tr, acts, |acts|);
    var s := tr[|acts|];
    if c :| c in s.peers && s.peers[c].loop == Evicting(v) {
      tr', acts' := Extend(tr, acts, FinishEviction(c));
    } else {
      var thread :| thread in s.closers && s.closers[thread] == v;
      tr', acts' := Extend(tr, acts, CloseFinish(thread));
    }
  }

  // A goroutine that has not finished can always register its machine, and then has the entry.
  lemma CanAlwaysRegister(tr: seq<State>, acts: seq<Action>, c: ConnId, addr: string, port: nat)
    returns (tr': seq<State>, acts': seq<Action>)
    requires IsRun(tr, acts) && c in tr[|acts|].peers && tr[|acts|].peers[c].loop != Finished
    ensures IsRun(tr', acts') && tr <= tr'
    ensures Entry(tr'[|acts'|].tunnels, tr[|acts|].peers[c].machine)
         == Some(Tunnel(tr[|acts|].peers[c].machine, tr[|acts|].peers[c].tenant, c, addr, port))
  {
    tr', acts' := GetsBackToWork(tr, acts, c);
    tr', acts' := Extend(tr', acts', Forward(c, addr, port));
  }

  // It can as well always cancel, and then has no entry.
  lemma CanAlwaysCancel(tr: seq<State>, acts: seq<Action>, c: ConnId)
    returns (tr': seq<State>, acts': seq<Action>)
    requires IsRun(tr, acts) && c in tr[|acts|].peers && tr[|acts|].peers[c].loop != Finished
    ensures IsRun(tr', acts') && tr <= tr' && !Holds(tr'[|acts'|], c)
  {
    tr', acts' := GetsBackToWork(tr, acts, c);
    InitInv();
    InvAlong(tr', acts', |acts'|);
    tr', acts' := Extend(tr', acts', Cancel(c));
  }

  // A connection can lose its transport at any time, and is dead then; and any other request it
  // makes, such as a keepalive, leaves the gateway as it is.
  lemma OutsideCanAct(tr: seq<State>, acts: seq<Action>, c: ConnId)
    returns (lost: seq<State>, losing: seq<Action>, same: seq<State>, asking: seq<Action>)
    requires IsRun(tr, acts) && c in tr[|acts|].peers
    ensures IsRun(lost, losing) && tr <= lost && c in lost[|losing|].peers && !IsLive(lost[|losing|], c)
    ensures lost[|losing|].tunnels == tr[|acts|].tunnels
    ensures IsRun(same, asking) && tr <= same && same[|asking|] == tr[|acts|]
    ensures IsServing(tr[|acts|], c) ==> |asking| == |acts| + 1
  {
    lost, losing := Extend(tr, acts, LoseTransport(c));
    same, asking := tr, acts;
    if IsServing(tr[|acts|], c) {
      same, asking := Extend(tr, acts, OtherRequest(c));
    }
  }
}
