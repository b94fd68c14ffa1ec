// How bridges and management requests move through the relay, and that none of them, nor the
// gateway under them, is ever stuck.
module RelayProgress {
  import opened Wrappers
  import Gateway
  import Machines
  import Registry
  import opened Relay

  // ---- The gateway inside the relay ----

  // What the gateway does in a step of the relay.
  predicate GateMoves(names: Naming, s: State, a: Action, s': State) {
    if OnGate(a) && Enabled(names, s, a) then
      && Gateway.Enabled(s.gate, GateAction(names, s, a))
      && s'.gate == Gateway.Apply(s.gate, GateAction(names, s, a))
    else s'.gate == s.gate
  }

  lemma GateMovesStep(names: Naming, s: State, a: Action)
    requires Enabled(names, s, a)
    ensures GateMoves(names, s, a, Apply(names, s, a))
  {
  }

  // Every run of the relay contains a run of the gateway, so that whatever holds of the gateway's
  // states in all its runs holds of them here.
  lemma {:induction false} GateRuns(names: Naming, tr: seq<State>, acts: seq<Action>, k: nat)
    returns (gtr: seq<Gateway.State>, gacts: seq<Gateway.Action>)
    requires |tr| == |acts| + 1 && k < |tr| && tr[0].gate == Gateway.Init()
    requires forall j :: 0 <= j < k ==> GateMoves(names, tr[j], acts[j], tr[j + 1])
    ensures Gateway.IsRun(gtr, gacts) && gtr[|gacts|] == tr[k].gate
  {
    if k == 0 {
      gtr, gacts := [Gateway.Init()], [];
    } else {
      gtr, gacts := GateRuns(names, tr, acts, k - 1);
      assert GateMoves(names, tr[k - 1], acts[k - 1], tr[k - 1 + 1]);
      if OnGate(acts[k - 1]) && Enabled(names, tr[k - 1], acts[k - 1]) {
        gtr, gacts := Gateway.Extend(gtr, gacts, GateAction(names, tr[k - 1], acts[k - 1]));
      }
    }
  }

  lemma GatewayRunsInside(names: Naming, tr: seq<State>, acts: seq<Action>, k: nat)
    returns (gtr: seq<Gateway.State>, gacts: seq<Gateway.Action>)
    requires IsRun(names, tr, acts) && k < |tr|
    ensures Gateway.IsRun(gtr, gacts) && gtr[|gacts|] == tr[k].gate
  {
    forall j | 0 <= j < k ensures GateMoves(names, tr[j], acts[j], tr[j + 1]) {
      GateMovesStep(names, tr[j], acts[j]);
    }
    gtr, gacts := GateRuns(names, tr, acts, k);
  }

  // A bridge dials exactly the tunnel whose registration under its path still stands, and none
  // if there is none.
  lemma DialsStandingTunnel(names: Naming, tr: seq<State>, acts: seq<Action>, k: nat, h: nat, link: Gateway.Link)
    requires IsRun(names, tr, acts) && k < |acts| && acts[k] == DialRead(h)
    ensures var b, stage := tr[k].bridges[h], tr[k + 1].bridges[h].stage;
            && (stage == Dialing(b.stage.id, link)
                <==> link.machine == b.path && exists i :: Gateway.StillStands(tr[k].gate.log, i, link))
            && (stage.Dialing? || stage.Leaving?)
  {
    var gtr, gacts := GatewayRunsInside(names, tr, acts, k);
    Gateway.RegistryIsHistory(gtr, gacts, |gacts|, link);
    var path := tr[k].bridges[h].path;
    if path in tr[k].gate.tunnels {
      assert Gateway.Entry(tr[k].gate.tunnels, path) == Some(tr[k].gate.tunnels[path]);
    }
  }

  predicate IsDead(s: State, c: Gateway.ConnId) {
    c in s.gate.peers && s.gate.peers[c].Dead()
  }

  predicate DeadKept(s: State, s': State, c: Gateway.ConnId) {
    IsDead(s, c) ==> IsDead(s', c)
  }

  lemma DeadStep(names: Naming, s: State, a: Action, c: Gateway.ConnId)
    requires Enabled(names, s, a)
    ensures DeadKept(s, Apply(names, s, a), c)
    ensures a == Gate(Gateway.LoseTransport(c)) ==> IsDead(Apply(names, s, a), c)
  {
    GateMovesStep(names, s, a);
  }

  lemma {:induction false} DeadAlong(tr: seq<State>, i: nat, k: nat, c: Gateway.ConnId)
    requires i <= k < |tr| && IsDead(tr[i], c)
    requires forall j :: i <= j < k ==> DeadKept(tr[j], tr[j + 1], c)
    ensures IsDead(tr[k], c)
    decreases k
  {
    if i < k {
      DeadAlong(tr, i, k - 1, c);
      assert DeadKept(tr[k - 1], tr[k - 1 + 1], c);
    }
  }

  // A channel opens only on a connection that has never been closed and never lost its transport.
  lemma ChannelsOnLiveOnly(names: Naming, tr: seq<State>, acts: seq<Action>, k: nat, h: nat)
    requires IsRun(names, tr, acts) && k < |acts| && acts[k] == DialOpen(h, true)
    ensures var c := tr[k].bridges[h].stage.link.conn;
            && (forall i :: 0 <= i <= k ==> !IsDead(tr[i], c))
            && (forall i :: 0 <= i < k ==> acts[i] != Gate(Gateway.LoseTransport(c)))
  {
    var c := tr[k].bridges[h].stage.link.conn;
    forall j | 0 <= j < k
      ensures DeadKept(tr[j], tr[j + 1], c)
      ensures acts[j] == Gate(Gateway.LoseTransport(c)) ==> IsDead(tr[j + 1], c)
    {
      DeadStep(names, tr[j], acts[j], c);
    }
    forall i | 0 <= i <= k ensures !IsDead(tr[i], c) {
      if IsDead(tr[i], c) {
        DeadAlong(tr, i, k, c);
      }
    }
    forall i | 0 <= i < k ensures acts[i] != Gate(Gateway.LoseTransport(c)) {
      assert !IsDead(tr[i + 1], c);
    }
  }

  // ---- Bridges ----

  function StageRank(stage: Stage): nat {
    match stage
    case Opened => 0
    case Found(_) => 1
    case Counted(_) => 2
    case Dialing(_, _) => 3
    case Connected(_, _) => 4
    case Piping(_, _) => 5
    case Leaving => 6
    case Ended => 7
  }

  predicate OnBridge(a: Action, h: nat) {
    !OnTable(a) && !OnGate(a) && !a.Open? && a.h == h
  }

  // A bridge keeps its path and its user, and goes on with every step of its own and no other.
  predicate BridgeKept(s: State, a: Action, s': State, h: nat) {
    h in s.bridges ==>
      && h in s'.bridges && s'.bridges[h].path == s.bridges[h].path && s'.bridges[h].tenant == s.bridges[h].tenant
      && (if OnBridge(a, h) then StageRank(s'.bridges[h].stage) > StageRank(s.bridges[h].stage)
          else s'.bridges[h] == s.bridges[h])
  }

  lemma BridgeKeptStep(names: Naming, s: State, a: Action, h: nat)
    requires Enabled(names, s, a)
    ensures BridgeKept(s, a, Apply(names, s, a), h)
  {
    if OnTable(a) || OnGate(a) {
      assert Apply(names, s, a).bridges == s.bridges;
    }
  }

  // How many steps of its own bridge h takes between i and k.
  function OwnSteps(acts: seq<Action>, i: nat, k: nat, h: nat): nat
    requires i <= k <= |acts|
    decreases k
  {
    if i == k then 0 else OwnSteps(acts, i, k - 1, h) + if OnBridge(acts[k - 1], h) then 1 else 0
  }

  lemma {:induction false} BridgeKeptAlong(tr: seq<State>, acts: seq<Action>, i: nat, k: nat, h: nat)
    requires |tr| == |acts| + 1 && i <= k < |tr| && h in tr[i].bridges
    requires forall j :: i <= j < k ==> BridgeKept(tr[j], acts[j], tr[j + 1], h)
    ensures h in tr[k].bridges
    ensures tr[k].bridges[h].path == tr[i].bridges[h].path && tr[k].bridges[h].tenant == tr[i].bridges[h].tenant
    ensures OwnSteps(acts, i, k, h) + StageRank(tr[i].bridges[h].stage) <= StageRank(tr[k].bridges[h].stage) <= 7
    ensures OwnSteps(acts, i, k, h) == 0 ==> tr[k].bridges[h] == tr[i].bridges[h]
    decreases k
  {
    if i < k {
      BridgeKeptAlong(tr, acts, i, k - 1, h);
      assert BridgeKept(tr[k - 1], acts[k - 1], tr[k - 1 + 1], h);
    }
  }

  // A bridge moves by its own steps only, forward with each, and so takes at most seven; once it
  // has ended it takes none.
  lemma BridgesGoForward(names: Naming, tr: seq<State>, acts: seq<Action>, i: nat, k: nat, h: nat)
    requires IsRun(names, tr, acts) && i <= k < |tr| && h in tr[i].bridges
    ensures h in tr[k].bridges
    ensures OwnSteps(acts, i, k, h) + StageRank(tr[i].bridges[h].stage) <= StageRank(tr[k].bridges[h].stage) <= 7
    ensures OwnSteps(acts, i, k, h) == 0 ==> tr[k].bridges[h] == tr[i].bridges[h]
  {
    forall j | i <= j < k ensures BridgeKept(tr[j], acts[j], tr[j + 1], h) {
      BridgeKeptStep(names, tr[j], acts[j], h);
    }
    BridgeKeptAlong(tr, acts, i, k, h);
  }

  // It keeps the path and the user it was opened with.
  lemma BridgeAsOpened(names: Naming, tr: seq<State>, acts: seq<Action>, i: nat, k: nat, h: nat)
    requires IsRun(names, tr, acts) && i < k < |tr| && acts[i].Open? && acts[i].h == h
    ensures h in tr[k].bridges
    ensures tr[k].bridges[h].path == acts[i].path && tr[k].bridges[h].tenant == acts[i].tenant
  {
    assert tr[i + 1].bridges[h] == Bridge(acts[i].path, acts[i].tenant, Opened);
    forall j | i < j < k ensures BridgeKept(tr[j], acts[j], tr[j + 1], h) {
      BridgeKeptStep(names, tr[j], acts[j], h);
    }
    BridgeKeptAlong(tr, acts, i + 1, k, h);
  }

  lemma BridgeCanLeave(names: Naming, tr: seq<State>, acts: seq<Action>, h: nat)
    returns (tr': seq<State>, acts': seq<Action>)
    requires IsRun(names, tr, acts) && h in tr[|acts|].bridges && Holding(tr[|acts|].bridges[h].stage)
    ensures IsRun(names, tr', acts') && tr <= tr'
    ensures h in tr'[|acts'|].bridges && tr'[|acts'|].bridges[h].stage.Leaving?
  {
    tr', acts' := tr, acts;
    if tr'[|acts'|].bridges[h].stage.Counted? {
      tr', acts' := Extend(names, tr', acts', DialRead(h));
    }
    match tr'[|acts'|].bridges[h].stage
    case Dialing(_, _) => tr', acts' := Extend(names, tr', acts', DialOpen(h, false));
    case Connected(_, _) => tr', acts' := Extend(names, tr', acts', Ready(h, false));
    case Piping(_, _) => tr', acts' := Extend(names, tr', acts', EndPipe(h));
    case _ =>
  }

  // Wherever a bridge is, its handler can come to its end by itself, and has no slot then.
  lemma BridgeCanEnd(names: Naming, tr: seq<State>, acts: seq<Action>, h: nat)
    returns (tr': seq<State>, acts': seq<Action>)
    requires IsRun(names, tr, acts) && h in tr[|acts|].bridges
    ensures IsRun(names, tr', acts') && tr <= tr'
    ensures h in tr'[|acts'|].bridges && tr'[|acts'|].bridges[h].stage.Ended?
    ensures forall path :: h !in Holders(tr'[|acts'|].bridges, path)
  {
    tr', acts' := tr, acts;
    if tr[|acts|].bridges[h].stage.Opened? || tr[|acts|].bridges[h].stage.Found? {
      tr', acts' := Extend(names, tr, acts, GiveUp(h));
    } else if !tr[|acts|].bridges[h].stage.Ended? {
      tr', acts' := BridgeCanLeave(names, tr, acts, h);
      tr', acts' := Extend(names, tr', acts', Release(h));
    }
  }

  // And while the tunnel it dials is live, it can go on to pipe down that very tunnel.
  lemma LiveDialCanPipe(names: Naming, tr: seq<State>, acts: seq<Action>, h: nat)
    returns (tr': seq<State>, acts': seq<Action>)
    requires IsRun(names, tr, acts) && h in tr[|acts|].bridges && tr[|acts|].bridges[h].stage.Dialing?
    requires Gateway.IsLive(tr[|acts|].gate, tr[|acts|].bridges[h].stage.link.conn)
    ensures IsRun(names, tr', acts') && tr <= tr'
    ensures h in tr'[|acts'|].bridges
    ensures tr'[|acts'|].bridges[h].stage
         == Piping(tr[|acts|].bridges[h].stage.id, tr[|acts|].bridges[h].stage.link)
  {
    tr', acts' := Extend(names, tr, acts, DialOpen(h, true));
    tr', acts' := Extend(names, tr', acts', Ready(h, true));
  }

  // ---- Management requests ----

  function ProgressRank(p: Progress): nat {
    match p case Asked => 0 case Checked(_) => 1 case RowDeleted(_) => 2 case Answered => 3
  }

  predicate OnRequest(a: Action, q: nat) {
    (a.CheckTenant? || a.RenameRow? || a.DeleteRow? || a.CloseTunnel?) && a.q == q
  }

  predicate RequestKept(s: State, a: Action, s': State, q: nat) {
    q in s.requests ==>
      && q in s'.requests
      && s'.requests[q].path == s.requests[q].path && s'.requests[q].tenant == s.requests[q].tenant
      && (if OnRequest(a, q) then ProgressRank(s'.requests[q].progress) > ProgressRank(s.requests[q].progress)
          else s'.requests[q] == s.requests[q])
  }

  lemma RequestKeptStep(names: Naming, s: State, a: Action, q: nat)
    requires Enabled(names, s, a)
    ensures RequestKept(s, a, Apply(names, s, a), q)
    ensures a.Ask? && a.q == q ==>
              q in Apply(names, s, a).requests && Apply(names, s, a).requests[q] == Request(a.path, a.tenant, Asked)
  {
  }

  lemma {:induction false} RequestKeptAlong(tr: seq<State>, acts: seq<Action>, i: nat, k: nat, q: nat)
    requires |tr| == |acts| + 1 && i <= k < |tr| && q in tr[i].requests
    requires forall j :: i <= j < k ==> RequestKept(tr[j], acts[j], tr[j + 1], q)
    ensures q in tr[k].requests
    ensures tr[k].requests[q].path == tr[i].requests[q].path && tr[k].requests[q].tenant == tr[i].requests[q].tenant
    ensures ProgressRank(tr[i].requests[q].progress) <= ProgressRank(tr[k].requests[q].progress)
    ensures ProgressRank(tr[i].requests[q].progress) == ProgressRank(tr[k].requests[q].progress) ==>
              tr[i].requests[q] == tr[k].requests[q] && forall j :: i <= j < k ==> !OnRequest(acts[j], q)
    decreases k
  {
    if i < k {
      RequestKeptAlong(tr, acts, i, k - 1, q);
      assert RequestKept(tr[k - 1], acts[k - 1], tr[k - 1 + 1], q);
    }
  }

  // A request keeps the path and the tenant it was made with, moves only by its own steps and
  // only forward, and takes none once it is answered.
  lemma RequestsGoForward(names: Naming, tr: seq<State>, acts: seq<Action>, i: nat, k: nat, q: nat)
    requires IsRun(names, tr, acts) && i < k < |tr| && acts[i].Ask? && acts[i].q == q
    ensures q in tr[k].requests
    ensures tr[k].requests[q].path == acts[i].path && tr[k].requests[q].tenant == acts[i].tenant
    ensures tr[k].requests[q].progress.Asked? ==> forall j :: i < j < k ==> !OnRequest(acts[j], q)
    ensures forall j :: i < j < k && q in tr[j].requests && tr[j].requests[q].progress.Answered? ==>
              tr[k].requests[q].progress.Answered? && !OnRequest(acts[j], q)
  {
    forall j | 0 <= j < k ensures RequestKept(tr[j], acts[j], tr[j + 1], q) {
      RequestKeptStep(names, tr[j], acts[j], q);
    }
    RequestKeptStep(names, tr[i], acts[i], q);
    RequestKeptAlong(tr, acts, i + 1, k, q);
    forall j | i < j < k && q in tr[j].requests && tr[j].requests[q].progress.Answered?
      ensures tr[k].requests[q].progress.Answered? && !OnRequest(acts[j], q)
    {
      RequestKeptAlong(tr, acts, j, k, q);
    }
  }

  // The threads in Registry.Close belong to requests that have been answered.
  predicate ClosersAnswered(s: State) {
    forall thread <- s.gate.closers :: thread in s.requests && s.requests[thread].progress.Answered?
  }

  lemma ClosersStep(names: Naming, s: State, a: Action)
    requires ClosersAnswered(s) && Enabled(names, s, a)
    ensures ClosersAnswered(Apply(names, s, a))
  {
    GateMovesStep(names, s, a);
    var s' := Apply(names, s, a);
    forall thread | thread in s'.gate.closers ensures thread in s'.requests && s'.requests[thread].progress.Answered? {
      RequestKeptStep(names, s, a, thread);
    }
  }

  lemma {:induction false} ClosersAlong(names: Naming, tr: seq<State>, acts: seq<Action>, k: nat)
    requires IsRun(names, tr, acts) && k < |tr|
    ensures ClosersAnswered(tr[k])
  {
    if k > 0 {
      ClosersAlong(names, tr, acts, k - 1);
      ClosersStep(names, tr[k - 1], acts[k - 1]);
    }
  }

  // A delete whose row is gone can always go on to take the tunnel down.
  lemma DeleteCanFinish(names: Naming, tr: seq<State>, acts: seq<Action>, q: nat)
    returns (tr': seq<State>, acts': seq<Action>)
    requires IsRun(names, tr, acts) && q in tr[|acts|].requests && tr[|acts|].requests[q].progress.RowDeleted?
    ensures IsRun(names, tr', acts') && tr <= tr'
    ensures names.format(tr[|acts|].requests[q].progress.id) !in tr'[|acts'|].gate.tunnels
    ensures q in tr'[|acts'|].requests && tr'[|acts'|].requests[q].progress.Answered?
  {
    ClosersAlong(names, tr, acts, |acts|);
    tr', acts' := Extend(names, tr, acts, CloseTunnel(q));
  }

  // A delete that has passed its check can always be carried through: no row, and no tunnel.
  lemma OwnerCanDelete(names: Naming, tr: seq<State>, acts: seq<Action>, q: nat)
    returns (tr': seq<State>, acts': seq<Action>)
    requires IsRun(names, tr, acts) && q in tr[|acts|].requests && tr[|acts|].requests[q].progress.Checked?
    ensures IsRun(names, tr', acts') && tr <= tr'
    ensures var id := tr[|acts|].requests[q].progress.id;
            id !in tr'[|acts'|].rows && names.format(id) !in tr'[|acts'|].gate.tunnels
  {
    tr', acts' := Extend(names, tr, acts, DeleteRow(q));
    var rows := tr'[|acts'|].rows;
    ClosersAlong(names, tr', acts', |acts'|);
    tr', acts' := Extend(names, tr', acts', CloseTunnel(q));
    assert tr'[|acts'|].rows == rows;
  }

  // So can a rename, which gives the machine its new name if the renamed table meets the
  // constraints.
  lemma OwnerCanRename(names: Naming, tr: seq<State>, acts: seq<Action>, q: nat, name: string)
    returns (tr': seq<State>, acts': seq<Action>)
    requires RoundTrips(names) && IsRun(names, tr, acts)
    requires q in tr[|acts|].requests && tr[|acts|].requests[q].progress.Checked?
    requires tr[|acts|].requests[q].progress.id in tr[|acts|].rows
    ensures IsRun(names, tr', acts') && tr <= tr'
    ensures var rows, id := tr[|acts|].rows, tr[|acts|].requests[q].progress.id;
            var renamed := rows[id := rows[id].(name := name)];
            tr'[|acts'|].rows == if Machines.Unique(renamed) then renamed else rows
  {
    IdentityAlong(names, tr, acts, |acts|);
    Machines.RenameKeepsUnique(tr[|acts|].rows, tr[|acts|].requests[q].progress.id, name);
    tr', acts' := Extend(names, tr, acts, RenameRow(q, name));
  }

  // A machine can always be looked up, renamed or deleted by its own tenant: its request passes.
  lemma OwnerCanAsk(names: Naming, tr: seq<State>, acts: seq<Action>, q: nat, id: nat)
    returns (tr': seq<State>, acts': seq<Action>)
    requires RoundTrips(names) && IsRun(names, tr, acts) && id in tr[|acts|].rows && q !in tr[|acts|].requests
    ensures IsRun(names, tr', acts') && tr <= tr'
    ensures tr'[|acts'|].rows == tr[|acts|].rows
    ensures q in tr'[|acts'|].requests
    ensures tr'[|acts'|].requests[q] == Request(names.format(id), tr[|acts|].rows[id].tenant, Checked(id))
  {
    assert names.parse(names.format(id)) == Some(id);
    tr', acts' := Extend(names, tr, acts, Ask(q, names.format(id), tr[|acts|].rows[id].tenant));
    tr', acts' := Extend(names, tr', acts', CheckTenant(q));
  }

  // A machine can be enrolled whenever its key is new and its name is new in its tenant.
  lemma AnyoneCanEnrol(names: Naming, tr: seq<State>, acts: seq<Action>, id: nat, m: Machines.Machine)
    returns (tr': seq<State>, acts': seq<Action>)
    requires IsRun(names, tr, acts) && id !in tr[|acts|].owners
    requires forall i <- tr[|acts|].rows ::
               && tr[|acts|].rows[i].fingerprint != m.fingerprint
               && !(tr[|acts|].rows[i].tenant == m.tenant && tr[|acts|].rows[i].name == m.name)
    ensures IsRun(names, tr', acts') && tr <= tr' && tr'[|acts'|].rows == tr[|acts|].rows[id := m]
  {
    tr', acts' := Extend(names, tr, acts, Enrol(id, m));
  }

  // An enrolled machine can always connect with its key, under its canonical name, is noted as
  // seen, and can register its tunnel.
  lemma OwnerCanConnect(names: Naming, tr: seq<State>, acts: seq<Action>, id: nat, c: Gateway.ConnId, now: nat)
    returns (tr': seq<State>, acts': seq<Action>)
    requires IsRun(names, tr, acts) && id in tr[|acts|].rows && c !in tr[|acts|].gate.peers
    ensures IsRun(names, tr', acts') && tr <= tr'
    ensures Gateway.Entry(tr'[|acts'|].gate.tunnels, names.format(id))
         == Some(Registry.Tunnel(names.format(id), tr[|acts|].rows[id].tenant, c, "0.0.0.0", 22))
    ensures Gateway.IsLive(tr'[|acts'|].gate, c)
    ensures id in tr'[|acts'|].rows && tr'[|acts'|].rows[id].lastSeen == Some(now)
  {
    var fingerprint := tr[|acts|].rows[id].fingerprint;
    tr', acts' := Extend(names, tr, acts, Handshake(c, id, names.format(id), fingerprint));
    tr', acts' := Extend(names, tr', acts', TouchMachine(id, now));
    tr', acts' := Extend(names, tr', acts', Gate(Gateway.Forward(c, "0.0.0.0", 22)));
  }
}
