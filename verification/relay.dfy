// The relay as a whole: the machines table, the gateway, and the browser bridges, one step
// machine. It is where the authorisation of a bridge can be stated: the chain runs from the
// enrolled row through the SSH handshake and the tunnel table to the browser's user.
module Relay {
  import opened Wrappers
  import Machines
  import Gateway
  import opened BridgeCounts

  // Machine ids as text. parse accepts any spelling of an id, format gives the canonical one.
  datatype Naming = Naming(parse: string -> Option<nat>, format: nat -> string)

  ghost predicate RoundTrips(names: Naming) {
    forall id: nat :: names.parse(names.format(id)) == Some(id)
  }

  // Where a bridge handler is. id is the machine its lookup found, link the tunnel it dials.
  datatype Stage =
    | Opened
    | Found(id: nat)
    | Counted(id: nat)
    | Dialing(id: nat, link: Gateway.Link)
    | Connected(id: nat, link: Gateway.Link)
    | Piping(id: nat, link: Gateway.Link)
    | Leaving
    | Ended

  // path is the machine id as the browser spelled it; tenant is the authenticated user's.
  datatype Bridge = Bridge(path: string, tenant: nat, stage: Stage)

  // A PATCH or DELETE request for one machine: waiting for the tenant check, past it, or with the
  // row deleted and the tunnel still to be closed.
  datatype Progress = Asked | Checked(id: nat) | RowDeleted(id: nat) | Answered

  datatype Request = Request(path: string, tenant: nat, progress: Progress)

  // owners is a history variable: the tenant of every machine ever enrolled.
  datatype State = State(
    rows: Machines.Rows,
    owners: map<nat, nat>,
    gate: Gateway.State,
    bridges: map<nat, Bridge>,
    counts: Counts,
    requests: map<nat, Request>)

  datatype Action =
    | Enrol(id: nat, m: Machines.Machine)
    | TouchMachine(id: nat, now: nat)
    | Ask(q: nat, path: string, tenant: nat)
    | CheckTenant(q: nat)
    | RenameRow(q: nat, name: string)
    | DeleteRow(q: nat)
    | CloseTunnel(q: nat)
    | Handshake(c: Gateway.ConnId, id: nat, user: string, fingerprint: string)
    | Gate(step: Gateway.Action)
    | Open(h: nat, path: string, tenant: nat)
    | Lookup(h: nat)
    | GiveUp(h: nat)
    | Acquire(h: nat)
    | DialRead(h: nat)
    | DialOpen(h: nat, ok: bool)
    | Ready(h: nat, ok: bool)
    | EndPipe(h: nat)
    | Release(h: nat)

  function Init(): State {
    State(map[], map[], Gateway.Init(), map[], map[], map[])
  }

  // Ids are fresh. The handshake looks the key's fingerprint up and demands that the user name
  // is the canonical id of the machine found. A channel opens only on a live connection.
  predicate Enabled(names: Naming, s: State, a: Action) {
    match a
    case Enrol(id, m) =>
      && id !in s.owners
      && !Machines.FingerprintTaken(s.rows, m.fingerprint)
      && !Machines.NameTaken(s.rows, id, m.tenant, m.name)
    case TouchMachine(_, _) => true
    case Ask(q, _, _) => q !in s.requests
    case CheckTenant(q) => q in s.requests && s.requests[q].progress.Asked?
    case RenameRow(q, _) => q in s.requests && s.requests[q].progress.Checked?
    case DeleteRow(q) => q in s.requests && s.requests[q].progress.Checked?
    case CloseTunnel(q) =>
      && q in s.requests && s.requests[q].progress.RowDeleted?
      && Gateway.Enabled(s.gate, Gateway.CloseRemove(q, names.format(s.requests[q].progress.id)))
    case Handshake(c, id, user, fingerprint) =>
      && id in s.rows && s.rows[id].fingerprint == fingerprint && user == names.format(id)
      && c !in s.gate.peers
    case Gate(step) => !step.Accept? && !step.CloseRemove? && Gateway.Enabled(s.gate, step)
    case Open(h, _, _) => h !in s.bridges
    case Lookup(h) => h in s.bridges && s.bridges[h].stage.Opened?
    case GiveUp(h) => h in s.bridges && (s.bridges[h].stage.Opened? || s.bridges[h].stage.Found?)
    case Acquire(h) => h in s.bridges && s.bridges[h].stage.Found?
    case DialRead(h) => h in s.bridges && s.bridges[h].stage.Counted?
    case DialOpen(h, ok) =>
      && h in s.bridges && s.bridges[h].stage.Dialing?
      && (ok ==> Gateway.IsLive(s.gate, s.bridges[h].stage.link.conn))
    case Ready(h, _) => h in s.bridges && s.bridges[h].stage.Connected?
    case EndPipe(h) => h in s.bridges && s.bridges[h].stage.Piping?
    case Release(h) => h in s.bridges && s.bridges[h].stage.Leaving?
  }

  function Go(s: State, h: nat, stage: Stage): State
    requires h in s.bridges
  {
    s.(bridges := s.bridges[h := s.bridges[h].(stage := stage)])
  }

  function Answer(s: State, q: nat, progress: Progress): State
    requires q in s.requests
  {
    s.(requests := s.requests[q := s.requests[q].(progress := progress)])
  }

  // path names an enrolled machine of this tenant.
  predicate Visible(names: Naming, s: State, path: string, tenant: nat) {
    var id := names.parse(path);
    id.Some? && id.value in s.rows && s.rows[id.value].tenant == tenant
  }

  function Apply(names: Naming, s: State, a: Action): State
    requires Enabled(names, s, a)
  {
    match a
    case Enrol(id, m) => s.(rows := s.rows[id := m], owners := s.owners[id := m.tenant])
    case TouchMachine(id, now) => s.(rows := Machines.Touch(s.rows, id, now))
    case Ask(q, path, tenant) => s.(requests := s.requests[q := Request(path, tenant, Asked)])
    case CheckTenant(q) =>
      var r := s.requests[q];
      Answer(s, q, if Visible(names, s, r.path, r.tenant) then Checked(names.parse(r.path).value) else Answered)
    case RenameRow(q, name) =>
      Answer(s, q, Answered).(rows := Machines.Rename(s.rows, s.requests[q].progress.id, name).0)
    case DeleteRow(q) =>
      Answer(s, q, RowDeleted(s.requests[q].progress.id)).(
        rows := Machines.Delete(s.rows, s.requests[q].progress.id).0)
    case CloseTunnel(q) =>
      Answer(s, q, Answered).(
        gate := Gateway.Apply(s.gate, Gateway.CloseRemove(q, names.format(s.requests[q].progress.id))))
    case Handshake(c, id, _, _) =>
      s.(gate := Gateway.Apply(s.gate, Gateway.Accept(c, names.format(id), s.rows[id].tenant)))
    case Gate(step) => s.(gate := Gateway.Apply(s.gate, step))
    case Open(h, path, tenant) => s.(bridges := s.bridges[h := Bridge(path, tenant, Opened)])
    case Lookup(h) =>
      var b := s.bridges[h];
      Go(s, h, if Visible(names, s, b.path, b.tenant) then Found(names.parse(b.path).value) else Ended)
    case GiveUp(h) => Go(s, h, Ended)
    case Acquire(h) =>
      var b := s.bridges[h];
      if CountOf(s.counts, b.path) >= MAX_BRIDGES_PER_MACHINE then Go(s, h, Ended)
      else Go(s, h, Counted(b.stage.id)).(counts := Up(s.counts, b.path))
    case DialRead(h) =>
      var b := s.bridges[h];
      Go(s, h, if b.path in s.gate.tunnels then Dialing(b.stage.id, s.gate.tunnels[b.path]) else Leaving)
    case DialOpen(h, ok) =>
      Go(s, h, if ok then Connected(s.bridges[h].stage.id, s.bridges[h].stage.link) else Leaving)
    case Ready(h, ok) =>
      Go(s, h, if ok then Piping(s.bridges[h].stage.id, s.bridges[h].stage.link) else Leaving)
    case EndPipe(h) => Go(s, h, Leaving)
    case Release(h) => Go(s, h, Ended).(counts := Down(s.counts, s.bridges[h].path))
  }

  predicate Steps(names: Naming, tr: seq<State>, acts: seq<Action>) {
    && |tr| == |acts| + 1
    && forall i :: 0 <= i < |acts| ==>
         Enabled(names, tr[i], acts[i]) && tr[i + 1] == Apply(names, tr[i], acts[i])
  }

  predicate IsRun(names: Naming, tr: seq<State>, acts: seq<Action>) {
    Steps(names, tr, acts) && tr[0] == Init()
  }

  // ---- Identity ----

  predicate RowsOwned(s: State) {
    && Machines.Unique(s.rows)
    && forall id <- s.rows :: id in s.owners && s.owners[id] == s.rows[id].tenant
  }

  // p authenticated as an enrolled machine, under its canonical name and its tenant.
  predicate PeerAuthentic(names: Naming, owners: map<nat, nat>, p: Gateway.Peer) {
    var id := names.parse(p.machine);
    id.Some? && id.value in owners && names.format(id.value) == p.machine && p.tenant == owners[id.value]
  }

  predicate HasLink(stage: Stage) {
    stage.Dialing? || stage.Connected? || stage.Piping?
  }

  predicate HasTarget(stage: Stage) {
    stage.Found? || stage.Counted? || HasLink(stage)
  }

  // A bridge past its lookup is the machine owner's; one that dials does so by the canonical
  // name, down a tunnel whose connection authenticated as that machine.
  predicate BridgeAuthorised(names: Naming, s: State, b: Bridge) {
    && (HasTarget(b.stage) ==>
          var id := b.stage.id;
          names.parse(b.path) == Some(id) && id in s.owners && s.owners[id] == b.tenant)
    && (HasLink(b.stage) ==>
          var id, link := b.stage.id, b.stage.link;
          && b.path == names.format(id) == link.machine
          && link.tenant == b.tenant
          && link.conn in s.gate.peers
          && s.gate.peers[link.conn].machine == b.path
          && s.gate.peers[link.conn].tenant == b.tenant)
  }

  // A request past its check is the machine owner's, and past its delete the row is gone.
  predicate RequestAuthorised(s: State, r: Request) {
    && (r.progress.Checked? || r.progress.RowDeleted? ==>
          r.progress.id in s.owners && s.owners[r.progress.id] == r.tenant)
    && (r.progress.RowDeleted? ==> r.progress.id !in s.rows)
  }

  ghost predicate IdentityInv(names: Naming, s: State) {
    && Gateway.Inv(s.gate)
    && RowsOwned(s)
    && (forall q <- s.requests :: RequestAuthorised(s, s.requests[q]))
    && (forall c <- s.gate.peers :: PeerAuthentic(names, s.owners, s.gate.peers[c]))
    && (forall h <- s.bridges :: BridgeAuthorised(names, s, s.bridges[h]))
  }

  // Connections keep the identity they authenticated with.
  lemma PeersKeepIdentity(s: Gateway.State, a: Gateway.Action)
    requires Gateway.Enabled(s, a)
    ensures forall c <- s.peers ::
              && c in Gateway.Apply(s, a).peers
              && Gateway.Apply(s, a).peers[c].machine == s.peers[c].machine
              && Gateway.Apply(s, a).peers[c].tenant == s.peers[c].tenant
    ensures !a.Accept? ==> Gateway.Apply(s, a).peers.Keys == s.peers.Keys
  {
  }

  // Steps on the machines table and of the requests for it.
  predicate OnTable(a: Action) {
    a.Enrol? || a.TouchMachine? || a.Ask? || a.CheckTenant? || a.RenameRow? || a.DeleteRow?
  }

  // Steps of the gateway.
  predicate OnGate(a: Action) {
    a.Handshake? || a.Gate? || a.CloseTunnel?
  }

  lemma RowsStep(names: Naming, s: State, a: Action)
    requires RowsOwned(s) && Enabled(names, s, a) && OnTable(a)
    ensures RowsOwned(Apply(names, s, a))
  {
    var s' := Apply(names, s, a);
    match a
    case Enrol(id, m) => Machines.InsertKeepsUnique(s.rows, id, m, s'.rows, Machines.Done);
    case RenameRow(q, name) =>
      var id := s.requests[q].progress.id;
      if id in s.rows {
        Machines.RenameKeepsUnique(s.rows, id, name);
      }
    case TouchMachine(id, now) =>
      assert forall i <- s.rows :: i in s'.rows && s'.rows[i] == s.rows[i].(lastSeen := s'.rows[i].lastSeen);
    case DeleteRow(q) => Machines.DeleteKeepsUnique(s.rows, s.requests[q].progress.id);
    case _ =>
  }

  lemma TableFrame(names: Naming, s: State, a: Action)
    requires Enabled(names, s, a) && OnTable(a)
    ensures var s' := Apply(names, s, a);
            && s'.gate == s.gate && s'.bridges == s.bridges && s'.counts == s.counts
            && s.owners.Keys <= s'.owners.Keys && (forall id <- s.owners :: s'.owners[id] == s.owners[id])
  {
  }

  // A request that moves is checked against the row's tenant, which is the owner's.
  lemma RequestMove(names: Naming, s: State, a: Action, q: nat)
    requires RowsOwned(s) && Enabled(names, s, a) && OnTable(a)
    requires q in s.requests ==> RequestAuthorised(s, s.requests[q])
    requires q in Apply(names, s, a).requests
    ensures RequestAuthorised(Apply(names, s, a), Apply(names, s, a).requests[q])
  {
    TableFrame(names, s, a);
  }

  lemma TableStep(names: Naming, s: State, a: Action)
    requires RoundTrips(names) && IdentityInv(names, s) && Enabled(names, s, a) && OnTable(a)
    ensures IdentityInv(names, Apply(names, s, a))
  {
    var s' := Apply(names, s, a);
    RowsStep(names, s, a);
    TableFrame(names, s, a);
    forall h | h in s'.bridges ensures BridgeAuthorised(names, s', s'.bridges[h]) {
      assert BridgeAuthorised(names, s, s.bridges[h]);
    }
    forall q | q in s'.requests ensures RequestAuthorised(s', s'.requests[q]) {
      RequestMove(names, s, a, q);
    }
  }

  function GateAction(names: Naming, s: State, a: Action): Gateway.Action
    requires OnGate(a) && Enabled(names, s, a)
  {
    match a
    case Handshake(c, id, _, _) => Gateway.Accept(c, names.format(id), s.rows[id].tenant)
    case CloseTunnel(q) => Gateway.CloseRemove(q, names.format(s.requests[q].progress.id))
    case Gate(step) => step
  }

  lemma GateStep(names: Naming, s: State, a: Action)
    requires RoundTrips(names) && IdentityInv(names, s) && Enabled(names, s, a) && OnGate(a)
    ensures IdentityInv(names, Apply(names, s, a))
  {
    var s' := Apply(names, s, a);
    var step := GateAction(names, s, a);
    Gateway.StepInv(s.gate, step);
    PeersKeepIdentity(s.gate, step);
    forall c | c in s'.gate.peers ensures PeerAuthentic(names, s'.owners, s'.gate.peers[c]) {
      if c in s.gate.peers {
        assert PeerAuthentic(names, s.owners, s.gate.peers[c]);
      }
    }
    forall h | h in s'.bridges ensures BridgeAuthorised(names, s', s'.bridges[h]) {
      assert BridgeAuthorised(names, s, s.bridges[h]);
    }
    forall q | q in s'.requests ensures RequestAuthorised(s', s'.requests[q]) {
      assert RequestAuthorised(s, s.requests[q]);
    }
  }

  // The bridge that moves stays authorised: this is where the chain is put together.
  lemma BridgeMove(names: Naming, s: State, a: Action)
    requires Enabled(names, s, a) && !OnTable(a) && !OnGate(a)
    requires a.h in s.bridges ==> BridgeAuthorised(names, s, s.bridges[a.h])
    requires RowsOwned(s) && Gateway.EntriesAuthentic(s.gate)
    requires forall c <- s.gate.peers :: PeerAuthentic(names, s.owners, s.gate.peers[c])
    ensures BridgeAuthorised(names, Apply(names, s, a), Apply(names, s, a).bridges[a.h])
  {
    if a.DialRead? && s.bridges[a.h].path in s.gate.tunnels {
      var link := s.gate.tunnels[s.bridges[a.h].path];
      assert PeerAuthentic(names, s.owners, s.gate.peers[link.conn]);
    }
  }

  // Bridge steps move one bridge and touch nothing that authorisation depends on.
  lemma BridgeFrame(names: Naming, s: State, a: Action)
    requires Enabled(names, s, a) && !OnTable(a) && !OnGate(a)
    ensures var s' := Apply(names, s, a);
            && s'.rows == s.rows && s'.owners == s.owners && s'.gate == s.gate && s'.requests == s.requests
            && a.h in s'.bridges && s'.bridges == s.bridges[a.h := s'.bridges[a.h]]
  {
  }

  lemma MovedInv(names: Naming, s: State, s': State, h: nat)
    requires IdentityInv(names, s)
    requires s'.rows == s.rows && s'.owners == s.owners && s'.gate == s.gate && s'.requests == s.requests
    requires h in s'.bridges && s'.bridges == s.bridges[h := s'.bridges[h]]
    requires BridgeAuthorised(names, s', s'.bridges[h])
    ensures IdentityInv(names, s')
  {
    forall other | other in s'.bridges ensures BridgeAuthorised(names, s', s'.bridges[other]) {
      if other != h {
        assert BridgeAuthorised(names, s, s.bridges[other]);
      }
    }
    forall q | q in s'.requests ensures RequestAuthorised(s', s'.requests[q]) {
      assert RequestAuthorised(s, s.requests[q]);
    }
  }

  lemma BridgeStep(names: Naming, s: State, a: Action)
    requires IdentityInv(names, s) && Enabled(names, s, a) && !OnTable(a) && !OnGate(a)
    ensures IdentityInv(names, Apply(names, s, a))
  {
    BridgeMove(names, s, a);
    BridgeFrame(names, s, a);
    MovedInv(names, s, Apply(names, s, a), a.h);
  }

  lemma {:induction false} IdentityAlong(names: Naming, tr: seq<State>, acts: seq<Action>, k: nat)
    requires RoundTrips(names) && IsRun(names, tr, acts) && k < |tr|
    ensures IdentityInv(names, tr[k])
  {
    if k == 0 {
      Gateway.InitInv();
    } else {
      var s, a := tr[k - 1], acts[k - 1];
      IdentityAlong(names, tr, acts, k - 1);
      if OnTable(a) {
        TableStep(names, s, a);
      } else if OnGate(a) {
        GateStep(names, s, a);
      } else {
        BridgeStep(names, s, a);
      }
    }
  }

  // The handshake that made c, at a time when the machine was enrolled with the key presented and
  // with no other machine under that key.
  ghost predicate ProvedBy(names: Naming, s: State, a: Action, c: Gateway.ConnId, p: Gateway.Peer) {
    && a.Handshake? && a.c == c && a.user == p.machine == names.format(a.id)
    && a.id in s.rows && s.rows[a.id].fingerprint == a.fingerprint && s.rows[a.id].tenant == p.tenant
    && forall other <- s.rows :: s.rows[other].fingerprint == a.fingerprint ==> other == a.id
  }

  // Connection c is taken for machine and tenant of p.
  predicate IsPeer(s: State, c: Gateway.ConnId, p: Gateway.Peer) {
    c in s.gate.peers && s.gate.peers[c].machine == p.machine && s.gate.peers[c].tenant == p.tenant
  }

  // Nothing but its handshake makes c taken for p.
  ghost predicate PeerKept(names: Naming, s: State, a: Action, s': State, c: Gateway.ConnId, p: Gateway.Peer) {
    IsPeer(s', c, p) ==> ProvedBy(names, s, a, c, p) || IsPeer(s, c, p)
  }

  lemma PeerStep(names: Naming, s: State, a: Action, c: Gateway.ConnId, p: Gateway.Peer)
    requires RowsOwned(s) && Enabled(names, s, a)
    ensures PeerKept(names, s, a, Apply(names, s, a), c, p)
  {
    if OnGate(a) {
      PeersKeepIdentity(s.gate, GateAction(names, s, a));
    }
    if a.Handshake? {
      forall other | other in s.rows && other != a.id ensures s.rows[other].fingerprint != a.fingerprint {
        assert !Machines.Clash(s.rows[other], s.rows[a.id]);
      }
    }
  }

  lemma {:induction false} PeerProvedAlong(
    names: Naming, tr: seq<State>, acts: seq<Action>, k: nat, c: Gateway.ConnId, p: Gateway.Peer)
    requires |tr| == |acts| + 1 && k < |tr| && !IsPeer(tr[0], c, p) && IsPeer(tr[k], c, p)
    requires forall j :: 0 <= j < k ==> PeerKept(names, tr[j], acts[j], tr[j + 1], c, p)
    ensures exists j :: 0 <= j < k && ProvedBy(names, tr[j], acts[j], c, p)
  {
    assert PeerKept(names, tr[k - 1], acts[k - 1], tr[k - 1 + 1], c, p);
    if !ProvedBy(names, tr[k - 1], acts[k - 1], c, p) {
      PeerProvedAlong(names, tr, acts, k - 1, c, p);
    }
  }

  // Every connection got in by presenting the key of the one machine it is taken for, under that
  // machine's canonical name.
  lemma PeersProvedThemselves(
    names: Naming, tr: seq<State>, acts: seq<Action>, k: nat, c: Gateway.ConnId, p: Gateway.Peer)
    requires RoundTrips(names) && IsRun(names, tr, acts) && k < |tr| && IsPeer(tr[k], c, p)
    ensures exists j :: 0 <= j < k && ProvedBy(names, tr[j], acts[j], c, p)
  {
    forall j | 0 <= j < k ensures PeerKept(names, tr[j], acts[j], tr[j + 1], c, p) {
      IdentityAlong(names, tr, acts, j);
      PeerStep(names, tr[j], acts[j], c, p);
    }
    PeerProvedAlong(names, tr, acts, k, c, p);
  }

  // When a bridge pipes, the user, the enrolled machine and the tunnel are one tenant's, and the
  // tunnel's connection authenticated as exactly the machine that was looked up.
  lemma PipedBridgeAuthorised(names: Naming, tr: seq<State>, acts: seq<Action>, k: nat, h: nat)
    requires RoundTrips(names) && IsRun(names, tr, acts) && k < |tr|
    requires h in tr[k].bridges && tr[k].bridges[h].stage.Piping?
    ensures var s, b := tr[k], tr[k].bridges[h];
            var id, link := b.stage.id, b.stage.link;
            && id in s.owners && s.owners[id] == b.tenant == link.tenant
            && (id in s.rows ==> s.rows[id].tenant == b.tenant)
            && b.path == names.format(id) == link.machine
            && link.conn in s.gate.peers
            && s.gate.peers[link.conn].machine == names.format(id)
            && s.gate.peers[link.conn].tenant == b.tenant
  {
    IdentityAlong(names, tr, acts, k);
    assert BridgeAuthorised(names, tr[k], tr[k].bridges[h]);
  }

  predicate Gone(s: State, id: nat) {
    id in s.owners && id !in s.rows
  }

  // One machine, up to its name and when it was last seen.
  predicate SameMachine(m: Machines.Machine, m': Machines.Machine) {
    m.tenant == m'.tenant && m.fingerprint == m'.fingerprint && m.hostname == m'.hostname
  }

  // An enrolled id stays known, its row stays the same machine's, and once gone it stays gone.
  predicate TableKept(s: State, s': State, id: nat) {
    id in s.owners ==>
      && id in s'.owners
      && (id !in s.rows ==> id !in s'.rows)
      && (id in s.rows && id in s'.rows ==> SameMachine(s.rows[id], s'.rows[id]))
  }

  // What one step can do to the table, seen from one id.
  lemma RowStep(names: Naming, s: State, a: Action, id: nat)
    requires Enabled(names, s, a)
    ensures TableKept(s, Apply(names, s, a), id)
    ensures var s' := Apply(names, s, a);
            RowsOwned(s) && id in s.rows && (id !in s'.rows || s'.rows[id].name != s.rows[id].name) ==>
              (a.RenameRow? || a.DeleteRow?) && s.requests[a.q].progress == Checked(id)
  {
    if !OnTable(a) {
      assert Apply(names, s, a).rows == s.rows && Apply(names, s, a).owners == s.owners;
    }
  }

  lemma {:induction false} TableKeptAlong(tr: seq<State>, i: nat, k: nat, id: nat)
    requires i <= k < |tr|
    requires forall j :: i <= j < k ==> TableKept(tr[j], tr[j + 1], id)
    ensures TableKept(tr[i], tr[k], id)
    decreases k
  {
    if i < k {
      TableKeptAlong(tr, i, k - 1, id);
      assert TableKept(tr[k - 1], tr[k - 1 + 1], id);
    }
  }

  // However requests interleave, whenever a machine is in the table it has the same tenant, key
  // and host name as ever, and once its row is gone it never comes back.
  lemma OwnersAreForever(names: Naming, tr: seq<State>, acts: seq<Action>, i: nat, k: nat, id: nat)
    requires RoundTrips(names) && IsRun(names, tr, acts) && i <= k < |tr| && id in tr[i].rows
    ensures id in tr[k].rows ==> SameMachine(tr[i].rows[id], tr[k].rows[id])
    ensures forall j :: i <= j <= k && id !in tr[j].rows ==> id !in tr[k].rows
  {
    IdentityAlong(names, tr, acts, i);
    forall j | 0 <= j < |acts| ensures TableKept(tr[j], tr[j + 1], id) {
      RowStep(names, tr[j], acts[j], id);
    }
    TableKeptAlong(tr, i, k, id);
    forall j | i <= j <= k && id !in tr[j].rows ensures id !in tr[k].rows {
      TableKeptAlong(tr, i, j, id);
      TableKeptAlong(tr, j, k, id);
    }
  }

  // Action a deletes the row of machine id.
  predicate Deletes(s: State, a: Action, id: nat) {
    a.DeleteRow? && a.q in s.requests && s.requests[a.q].progress == Checked(id)
  }

  // Machine id was enrolled as m by action j, and nothing has deleted it before k.
  predicate EnrolStands(tr: seq<State>, acts: seq<Action>, j: nat, k: nat, id: nat, m: Machines.Machine)
    requires |tr| == |acts| + 1 && k < |tr|
  {
    j < k && acts[j] == Enrol(id, m) && forall n :: j < n < k ==> !Deletes(tr[n], acts[n], id)
  }

  // An enrolment puts the row in, a delete takes it out, and nothing else does either.
  predicate PresenceKept(s: State, a: Action, s': State, id: nat) {
    id in s'.rows <==> (a.Enrol? && a.id == id) || (id in s.rows && !Deletes(s, a, id))
  }

  lemma PresenceStep(names: Naming, s: State, a: Action, id: nat)
    requires Enabled(names, s, a)
    ensures PresenceKept(s, a, Apply(names, s, a), id)
  {
    if !OnTable(a) {
      assert Apply(names, s, a).rows == s.rows;
    }
  }

  lemma {:induction false} PresentSinceEnrol(tr: seq<State>, acts: seq<Action>, k: nat, id: nat)
    requires |tr| == |acts| + 1 && k < |tr| && id !in tr[0].rows
    requires forall j :: 0 <= j < k ==> PresenceKept(tr[j], acts[j], tr[j + 1], id)
    ensures id in tr[k].rows <==> exists j, m :: EnrolStands(tr, acts, j, k, id, m)
  {
    if k > 0 {
      var a := acts[k - 1];
      PresentSinceEnrol(tr, acts, k - 1, id);
      assert PresenceKept(tr[k - 1], a, tr[k - 1 + 1], id);
      if a.Enrol? && a.id == id {
        assert EnrolStands(tr, acts, k - 1, k, id, a.m);
      } else if id in tr[k].rows {
        var j: nat, m :| EnrolStands(tr, acts, j, k - 1, id, m);
        assert EnrolStands(tr, acts, j, k, id, m);
      }
      if j: nat, m :| EnrolStands(tr, acts, j, k, id, m) {
        if j < k - 1 {
          assert EnrolStands(tr, acts, j, k - 1, id, m);
        }
      }
    }
  }

  // The machines table is what the history says: a machine has a row if and only if it was
  // enrolled and nothing has deleted it since, and the row is of the machine that was enrolled.
  lemma TableIsHistory(names: Naming, tr: seq<State>, acts: seq<Action>, k: nat, id: nat)
    requires RoundTrips(names) && IsRun(names, tr, acts) && k < |tr|
    ensures id in tr[k].rows <==> exists j, m :: EnrolStands(tr, acts, j, k, id, m)
    ensures forall j, m :: EnrolStands(tr, acts, j, k, id, m) ==> SameMachine(tr[k].rows[id], m)
  {
    forall j | 0 <= j < k ensures PresenceKept(tr[j], acts[j], tr[j + 1], id) {
      PresenceStep(names, tr[j], acts[j], id);
    }
    PresentSinceEnrol(tr, acts, k, id);
    forall j: nat, m | EnrolStands(tr, acts, j, k, id, m) ensures SameMachine(tr[k].rows[id], m) {
      assert tr[j + 1].rows[id] == m;
      OwnersAreForever(names, tr, acts, j + 1, k, id);
    }
  }

  // When the owner's rename comes to the table, the machine takes the new name exactly when the
  // renamed table meets the constraints, and nothing else changes.
  lemma RenameTakesEffect(names: Naming, tr: seq<State>, acts: seq<Action>, k: nat)
    requires RoundTrips(names) && IsRun(names, tr, acts) && k < |acts| && acts[k].RenameRow?
    ensures var rows, id := tr[k].rows, tr[k].requests[acts[k].q].progress.id;
            if id !in rows then tr[k + 1].rows == rows
            else
              var renamed := rows[id := rows[id].(name := acts[k].name)];
              tr[k + 1].rows == if Machines.Unique(renamed) then renamed else rows
  {
    IdentityAlong(names, tr, acts, k);
    var id := tr[k].requests[acts[k].q].progress.id;
    if id in tr[k].rows {
      Machines.RenameKeepsUnique(tr[k].rows, id, acts[k].name);
    }
  }

  // The last touch of machine id among the actions from j up to k, or else what it was before.
  function LastTouch(acts: seq<Action>, j: nat, k: nat, id: nat, before: Option<nat>): Option<nat>
    requires j <= k <= |acts|
    decreases k
  {
    if j == k then before
    else if acts[k - 1].TouchMachine? && acts[k - 1].id == id then Some(acts[k - 1].now)
    else LastTouch(acts, j, k - 1, id, before)
  }

  // What one step does to when machine id was last seen.
  predicate SeenKept(s: State, a: Action, s': State, id: nat) {
    id in s.rows && id in s'.rows ==>
      s'.rows[id].lastSeen == if a.TouchMachine? && a.id == id then Some(a.now) else s.rows[id].lastSeen
  }

  lemma SeenStep(names: Naming, s: State, a: Action, id: nat)
    requires RowsOwned(s) && Enabled(names, s, a)
    ensures SeenKept(s, a, Apply(names, s, a), id)
  {
    if !OnTable(a) {
      assert Apply(names, s, a).rows == s.rows;
    }
  }

  lemma {:induction false} SeenAlong(tr: seq<State>, acts: seq<Action>, j: nat, k: nat, id: nat)
    requires |tr| == |acts| + 1 && j <= k < |tr|
    requires forall i :: j <= i <= k ==> id in tr[i].rows
    requires forall i :: j <= i < k ==> SeenKept(tr[i], acts[i], tr[i + 1], id)
    ensures tr[k].rows[id].lastSeen == LastTouch(acts, j, k, id, tr[j].rows[id].lastSeen)
    decreases k
  {
    if j < k {
      SeenAlong(tr, acts, j, k - 1, id);
      assert SeenKept(tr[k - 1], acts[k - 1], tr[k - 1 + 1], id);
    }
  }

  // A machine was last seen when it was last touched since its enrolment.
  lemma LastSeenIsLastTouch(
    names: Naming, tr: seq<State>, acts: seq<Action>, j: nat, k: nat, id: nat, m: Machines.Machine)
    requires RoundTrips(names) && IsRun(names, tr, acts) && k < |tr| && EnrolStands(tr, acts, j, k, id, m)
    ensures id in tr[k].rows && tr[k].rows[id].lastSeen == LastTouch(acts, j + 1, k, id, m.lastSeen)
  {
    TableIsHistory(names, tr, acts, k, id);
    forall i | j + 1 <= i <= k ensures id in tr[i].rows {
      OwnersAreForever(names, tr, acts, j + 1, k, id);
    }
    forall i | j + 1 <= i < k ensures SeenKept(tr[i], acts[i], tr[i + 1], id) {
      IdentityAlong(names, tr, acts, i);
      SeenStep(names, tr[i], acts[i], id);
    }
    SeenAlong(tr, acts, j + 1, k, id);
  }

  // path spells the id of a machine that tenant has enrolled and nothing has deleted before k.
  ghost predicate OwnMachine(
    names: Naming, tr: seq<State>, acts: seq<Action>, k: nat, path: string, tenant: nat, id: nat)
    requires |tr| == |acts| + 1 && k < |tr|
  {
    names.parse(path) == Some(id) && exists j, m :: EnrolStands(tr, acts, j, k, id, m) && m.tenant == tenant
  }

  lemma VisibleIsOwn(names: Naming, tr: seq<State>, acts: seq<Action>, k: nat, path: string, tenant: nat)
    requires RoundTrips(names) && IsRun(names, tr, acts) && k < |tr|
    ensures Visible(names, tr[k], path, tenant)
       <==> names.parse(path).Some? && OwnMachine(names, tr, acts, k, path, tenant, names.parse(path).value)
  {
    if names.parse(path).Some? {
      TableIsHistory(names, tr, acts, k, names.parse(path).value);
    }
  }

  // A management request passes its check, and a bridge its lookup, exactly for a machine that
  // the caller's own tenant has enrolled and nothing has deleted, however its id is spelled.
  lemma CheckPassesExactlyForOwn(names: Naming, tr: seq<State>, acts: seq<Action>, k: nat, q: nat, id: nat)
    requires RoundTrips(names) && IsRun(names, tr, acts) && k < |acts| && acts[k] == CheckTenant(q)
    ensures var r, p := tr[k].requests[q], tr[k + 1].requests[q].progress;
            && (p == Checked(id) <==> OwnMachine(names, tr, acts, k, r.path, r.tenant, id))
            && (p.Checked? || p.Answered?)
  {
    VisibleIsOwn(names, tr, acts, k, tr[k].requests[q].path, tr[k].requests[q].tenant);
  }

  lemma LookupFindsExactlyOwn(names: Naming, tr: seq<State>, acts: seq<Action>, k: nat, h: nat, id: nat)
    requires RoundTrips(names) && IsRun(names, tr, acts) && k < |acts| && acts[k] == Lookup(h)
    ensures var b, stage := tr[k].bridges[h], tr[k + 1].bridges[h].stage;
            && (stage == Found(id) <==> OwnMachine(names, tr, acts, k, b.path, b.tenant, id))
            && (stage.Found? || stage.Ended?)
  {
    VisibleIsOwn(names, tr, acts, k, tr[k].bridges[h].path, tr[k].bridges[h].tenant);
  }

  // Enrolled machines are renamed and deleted only by requests of the tenant that owns them,
  // although the check and the change are separate steps.
  lemma OnlyOwnerManages(names: Naming, tr: seq<State>, acts: seq<Action>, k: nat, id: nat)
    requires RoundTrips(names) && IsRun(names, tr, acts) && k < |acts| && id in tr[k].rows
    requires id !in tr[k + 1].rows || tr[k + 1].rows[id].name != tr[k].rows[id].name
    ensures acts[k].RenameRow? || acts[k].DeleteRow?
    ensures var r := tr[k].requests[acts[k].q];
            r.progress == Checked(id) && r.tenant == tr[k].rows[id].tenant
  {
    IdentityAlong(names, tr, acts, k);
    RowStep(names, tr[k], acts[k], id);
    assert RequestAuthorised(tr[k], tr[k].requests[acts[k].q]);
  }

  // ---- After a machine is deleted ----

  predicate Targets(s: State, h: nat, id: nat) {
    h in s.bridges && HasTarget(s.bridges[h].stage) && s.bridges[h].stage.id == id
  }

  lemma NoNewPeer(names: Naming, s: State, a: Action, id: nat, c: Gateway.ConnId)
    requires RoundTrips(names) && Enabled(names, s, a) && id !in s.rows
    requires c in Apply(names, s, a).gate.peers
    requires Apply(names, s, a).gate.peers[c].machine == names.format(id)
    ensures c in s.gate.peers && s.gate.peers[c].machine == names.format(id)
  {
    if OnGate(a) {
      PeersKeepIdentity(s.gate, GateAction(names, s, a));
    }
    if a.Handshake? {
      assert names.parse(names.format(a.id)) == Some(a.id) && names.parse(names.format(id)) == Some(id);
    }
  }

  lemma NoNewTarget(names: Naming, s: State, a: Action, id: nat, h: nat)
    requires Enabled(names, s, a) && id !in s.rows && Targets(Apply(names, s, a), h, id)
    ensures Targets(s, h, id)
  {
    if OnTable(a) || OnGate(a) {
      assert Apply(names, s, a).bridges == s.bridges;
    }
  }

  predicate GoesBy(names: Naming, s: State, c: Gateway.ConnId, id: nat) {
    c in s.gate.peers && s.gate.peers[c].machine == names.format(id)
  }

  // Once the machine is gone it stays gone, and nothing new goes by its name or targets it.
  ghost predicate Sealed(names: Naming, s: State, s': State, id: nat) {
    Gone(s, id) ==>
      && Gone(s', id)
      && (forall c :: GoesBy(names, s', c, id) ==> GoesBy(names, s, c, id))
      && (forall h :: Targets(s', h, id) ==> Targets(s, h, id))
  }

  lemma StepSealed(names: Naming, s: State, a: Action, id: nat)
    requires RoundTrips(names) && Enabled(names, s, a)
    ensures Sealed(names, s, Apply(names, s, a), id)
  {
    if Gone(s, id) {
      var s' := Apply(names, s, a);
      RowStep(names, s, a, id);
      forall c | GoesBy(names, s', c, id) ensures GoesBy(names, s, c, id) {
        NoNewPeer(names, s, a, id, c);
      }
      forall h | Targets(s', h, id) ensures Targets(s, h, id) {
        NoNewTarget(names, s, a, id, h);
      }
    }
  }

  lemma {:induction false} SealedAlong(names: Naming, tr: seq<State>, i: nat, k: nat, id: nat)
    requires i <= k < |tr| && Gone(tr[i], id)
    requires forall j :: i <= j < k ==> Sealed(names, tr[j], tr[j + 1], id)
    ensures Sealed(names, tr[i], tr[k], id)
    decreases k
  {
    if i < k {
      SealedAlong(names, tr, i, k - 1, id);
      assert Sealed(names, tr[k - 1], tr[k - 1 + 1], id);
    }
  }

  // From the moment a machine's row is gone, no handshake authenticates as it any more, and no
  // bridge that has not done its lookup yet ever gets to it: every connection that goes by its
  // name was there before, whenever it registers, and every bridge aimed at it already was.
  lemma DeletedIsUnreachable(names: Naming, tr: seq<State>, acts: seq<Action>, i: nat, k: nat, id: nat)
    requires RoundTrips(names) && Steps(names, tr, acts) && i <= k < |tr| && Gone(tr[i], id)
    ensures Gone(tr[k], id)
    ensures forall c :: GoesBy(names, tr[k], c, id) ==> GoesBy(names, tr[i], c, id)
    ensures forall h :: Targets(tr[k], h, id) ==> Targets(tr[i], h, id)
  {
    forall j | i <= j < k ensures Sealed(names, tr[j], tr[j + 1], id) {
      StepSealed(names, tr[j], acts[j], id);
    }
    SealedAlong(names, tr, i, k, id);
  }

  // Nor is any tunnel registered under its name dialled by a bridge that was not already aimed at
  // the machine.
  lemma DeletedIsNotDialled(names: Naming, tr: seq<State>, acts: seq<Action>, i: nat, k: nat, id: nat, h: nat)
    requires RoundTrips(names) && IsRun(names, tr, acts) && i <= k < |tr| && Gone(tr[i], id)
    requires h in tr[k].bridges && HasLink(tr[k].bridges[h].stage)
    requires tr[k].bridges[h].stage.link.machine == names.format(id)
    ensures Targets(tr[i], h, id)
  {
    IdentityAlong(names, tr, acts, k);
    assert BridgeAuthorised(names, tr[k], tr[k].bridges[h]);
    assert names.parse(names.format(id)) == Some(id);
    DeletedIsUnreachable(names, tr, acts, i, k, id);
  }

  // The gateway has closed connection c, or a thread is about to.
  predicate Doomed(s: State, c: Gateway.ConnId) {
    Gateway.IsShut(s.gate, c) || Gateway.CloseOwed(s.gate, c)
  }

  predicate DoomKept(s: State, s': State, c: Gateway.ConnId) {
    Doomed(s, c) ==> Doomed(s', c)
  }

  lemma DoomedStep(names: Naming, s: State, a: Action, c: Gateway.ConnId)
    requires Gateway.Inv(s.gate) && Enabled(names, s, a)
    ensures DoomKept(s, Apply(names, s, a), c)
    ensures a.CloseTunnel? ==>
              var path := names.format(s.requests[a.q].progress.id);
              Gateway.Owns(s.gate, path, c) ==> Doomed(Apply(names, s, a), c)
  {
    if OnGate(a) {
      Gateway.OustedIsOwed(s.gate, GateAction(names, s, a), c);
    } else {
      assert Apply(names, s, a).gate == s.gate;
    }
  }

  lemma {:induction false} DoomedAlong(tr: seq<State>, i: nat, k: nat, c: Gateway.ConnId)
    requires i <= k < |tr| && Doomed(tr[i], c)
    requires forall j :: i <= j < k ==> DoomKept(tr[j], tr[j + 1], c)
    ensures Doomed(tr[k], c)
    decreases k
  {
    if i < k {
      DoomedAlong(tr, i, k - 1, c);
      assert DoomKept(tr[k - 1], tr[k - 1 + 1], c);
    }
  }

  // The connection whose entry a close takes away is doomed from then on.
  lemma ClosedIsDoomed(names: Naming, tr: seq<State>, acts: seq<Action>, j: nat, k: nat, c: Gateway.ConnId)
    requires RoundTrips(names) && IsRun(names, tr, acts) && j < k < |tr| && acts[j].CloseTunnel?
    requires Gateway.Owns(tr[j].gate, names.format(tr[j].requests[acts[j].q].progress.id), c)
    ensures Doomed(tr[k], c)
  {
    forall n | j <= n < k ensures DoomKept(tr[n], tr[n + 1], c) {
      IdentityAlong(names, tr, acts, n);
      DoomedStep(names, tr[n], acts[n], c);
    }
    IdentityAlong(names, tr, acts, j);
    DoomedStep(names, tr[j], acts[j], c);
    DoomedAlong(tr, j + 1, k, c);
  }

  predicate ForwardsOf(a: Action, c: Gateway.ConnId) {
    a.Gate? && Gateway.ForwardsOf(a.step, c)
  }

  lemma EntryStep(names: Naming, s: State, a: Action, path: string, c: Gateway.ConnId)
    requires Enabled(names, s, a) && Gateway.Owns(Apply(names, s, a).gate, path, c)
    ensures Gateway.Owns(s.gate, path, c) || ForwardsOf(a, c)
  {
  }

  lemma {:induction false} EntryNeedsForward(
    names: Naming, tr: seq<State>, acts: seq<Action>, i: nat, k: nat, path: string, c: Gateway.ConnId)
    requires Steps(names, tr, acts) && i <= k < |tr|
    requires !Gateway.Owns(tr[i].gate, path, c) && Gateway.Owns(tr[k].gate, path, c)
    ensures exists n :: i <= n < k && ForwardsOf(acts[n], c)
    decreases k
  {
    EntryStep(names, tr[k - 1], acts[k - 1], path, c);
    if !ForwardsOf(acts[k - 1], c) {
      EntryNeedsForward(names, tr, acts, i, k - 1, path, c);
    }
  }

  // What deleting a machine does to its tunnel, for good: the connection that had the entry when
  // the handler closed it is shut or about to be, and any later entry belongs to a connection
  // that authenticated before the close and has forwarded after it.
  lemma DeleteTakesTunnelDown(names: Naming, tr: seq<State>, acts: seq<Action>, j: nat, k: nat, id: nat)
    requires RoundTrips(names) && IsRun(names, tr, acts) && j < k < |tr|
    requires acts[j].CloseTunnel? && tr[j].requests[acts[j].q].progress.id == id
    ensures Gone(tr[k], id)
    ensures forall c :: Gateway.Owns(tr[j].gate, names.format(id), c) ==> Doomed(tr[k], c)
    ensures forall c :: Gateway.Owns(tr[k].gate, names.format(id), c) ==>
              GoesBy(names, tr[j], c, id) && exists n :: j < n < k && ForwardsOf(acts[n], c)
  {
    var path := names.format(id);
    IdentityAlong(names, tr, acts, j);
    IdentityAlong(names, tr, acts, k);
    assert RequestAuthorised(tr[j], tr[j].requests[acts[j].q]);
    DeletedIsUnreachable(names, tr, acts, j, k, id);
    forall c | Gateway.Owns(tr[j].gate, path, c) ensures Doomed(tr[k], c) {
      ClosedIsDoomed(names, tr, acts, j, k, c);
    }
    forall c | Gateway.Owns(tr[k].gate, path, c)
      ensures GoesBy(names, tr[j], c, id) && exists n :: j < n < k && ForwardsOf(acts[n], c)
    {
      EntryNeedsForward(names, tr, acts, j + 1, k, path, c);
    }
  }

  lemma Extend(names: Naming, tr: seq<State>, acts: seq<Action>, a: Action)
    returns (tr': seq<State>, acts': seq<Action>)
    requires IsRun(names, tr, acts) && Enabled(names, tr[|acts|], a)
    ensures IsRun(names, tr', acts') && |acts'| == |acts| + 1
    ensures tr'[|acts'|] == Apply(names, tr[|acts|], a)
    ensures tr <= tr'
  {
    tr', acts' := tr + [Apply(names, tr[|acts|], a)], acts + [a];
    forall i | 0 <= i < |acts'|
      ensures Enabled(names, tr'[i], acts'[i]) && tr'[i + 1] == Apply(names, tr'[i], acts'[i])
    {
      if i < |acts| {
        assert tr'[i] == tr[i] && tr'[i + 1] == tr[i + 1] && acts'[i] == acts[i];
      }
    }
  }

  // A machine is enrolled and connects.
  lemma Connects(names: Naming, m: Machines.Machine) returns (tr: seq<State>, acts: seq<Action>)
    ensures IsRun(names, tr, acts)
    ensures tr[|acts|] == State(
              map[0 := m], map[0 := m.tenant],
              Gateway.Init().(
                peers := map[0 := Gateway.Peer(names.format(0), m.tenant, Gateway.Serving, false, false)]),
              map[], map[], map[])
  {
    tr, acts := [Init()], [];
    tr, acts := Extend(names, tr, acts, Enrol(0, m));
    tr, acts := Extend(names, tr, acts, Handshake(0, 0, names.format(0), m.fingerprint));
  }

  // A bridge of its tenant looks it up.
  lemma LookedUp(names: Naming, m: Machines.Machine) returns (tr: seq<State>, acts: seq<Action>)
    requires RoundTrips(names)
    ensures IsRun(names, tr, acts)
    ensures tr[|acts|] == State(
              map[0 := m], map[0 := m.tenant],
              Gateway.Init().(
                peers := map[0 := Gateway.Peer(names.format(0), m.tenant, Gateway.Serving, false, false)]),
              map[0 := Bridge(names.format(0), m.tenant, Found(0))], map[], map[])
  {
    assert names.parse(names.format(0)) == Some(0);
    tr, acts := Connects(names, m);
    tr, acts := Extend(names, tr, acts, Open(0, names.format(0), m.tenant));
    tr, acts := Extend(names, tr, acts, Lookup(0));
  }

  // Then its owner deletes it.
  lemma DeletedAfterLookup(names: Naming, m: Machines.Machine) returns (tr: seq<State>, acts: seq<Action>)
    requires RoundTrips(names)
    ensures IsRun(names, tr, acts)
    ensures var s, path := tr[|acts|], names.format(0);
            && s.rows == map[] && s.owners == map[0 := m.tenant] && s.counts == map[]
            && s.gate.peers == map[0 := Gateway.Peer(path, m.tenant, Gateway.Serving, false, false)]
            && s.gate.tunnels == map[]
            && s.bridges == map[0 := Bridge(path, m.tenant, Found(0))]
  {
    tr, acts := LookedUp(names, m);
    assert names.parse(names.format(0)) == Some(0);
    tr, acts := Extend(names, tr, acts, Ask(0, names.format(0), m.tenant));
    tr, acts := Extend(names, tr, acts, CheckTenant(0));
    tr, acts := Extend(names, tr, acts, DeleteRow(0));
  }

  // Only now does its connection register a tunnel, and the bridge takes its slot.
  lemma RegisteredAfterDelete(names: Naming, m: Machines.Machine)
    returns (tr: seq<State>, acts: seq<Action>, deleted: nat, link: Gateway.Link)
    requires RoundTrips(names)
    ensures IsRun(names, tr, acts) && deleted < |acts|
    ensures Gone(tr[deleted], 0) && tr[deleted].gate.tunnels == map[]
    ensures var s, path := tr[|acts|], names.format(0);
            && s.gate.tunnels == map[path := link] && Gateway.IsLive(s.gate, link.conn)
            && s.bridges == map[0 := Bridge(path, m.tenant, Counted(0))]
  {
    tr, acts := DeletedAfterLookup(names, m);
    deleted := |acts|;
    tr, acts := Extend(names, tr, acts, Gate(Gateway.Forward(0, "", 22)));
    link := tr[|acts|].gate.tunnels[names.format(0)];
    tr, acts := Extend(names, tr, acts, Acquire(0));
  }

  // Both limits are needed: a bridge that did its lookup before the delete can still be piping
  // to the machine afterwards, over a connection that authenticated before and registers after.
  lemma EarlierLookupStillReaches(names: Naming, m: Machines.Machine)
    returns (tr: seq<State>, acts: seq<Action>, deleted: nat)
    requires RoundTrips(names)
    ensures IsRun(names, tr, acts) && deleted < |acts|
    ensures Gone(tr[deleted], 0) && tr[deleted].gate.tunnels == map[]
    ensures Targets(tr[|acts|], 0, 0) && tr[|acts|].bridges[0].stage.Piping?
  {
    var link;
    tr, acts, deleted, link := RegisteredAfterDelete(names, m);
    tr, acts := Extend(names, tr, acts, DialRead(0));
    assert tr[|acts|].bridges[0].stage == Dialing(0, link);
    tr, acts := Extend(names, tr, acts, DialOpen(0, true));
    assert tr[|acts|].bridges[0].stage == Connected(0, link);
    tr, acts := Extend(names, tr, acts, Ready(0, true));
  }

  // ---- Session counting ----

  // Between a successful acquire and the release.
  predicate Holding(stage: Stage) {
    stage.Counted? || HasLink(stage) || stage.Leaving?
  }

  function Holders(bridges: map<nat, Bridge>, path: string): set<nat> {
    set h | h in bridges && bridges[h].path == path && Holding(bridges[h].stage)
  }

  ghost predicate CountsExact(s: State) {
    forall path: string ::
      CountOf(s.counts, path) == |Holders(s.bridges, path)| <= MAX_BRIDGES_PER_MACHINE
  }

  // Moving one bridge changes the holders of one path by at most that bridge.
  lemma HoldersAfter(bridges: map<nat, Bridge>, h: nat, b: Bridge, path: string)
    requires h in bridges ==> bridges[h].path == b.path
    ensures var was := h in bridges && Holding(bridges[h].stage);
            var before, after := Holders(bridges, path), Holders(bridges[h := b], path);
            && (b.path != path || was == Holding(b.stage) ==> after == before)
            && (b.path == path && was && !Holding(b.stage) ==> h in before && after == before - {h})
            && (b.path == path && !was && Holding(b.stage) ==> h !in before && after == before + {h})
  {
  }

  lemma AcquireCounts(s: State, h: nat, stage: Stage)
    requires CountsExact(s) && h in s.bridges && !Holding(s.bridges[h].stage) && Holding(stage)
    requires CountOf(s.counts, s.bridges[h].path) < MAX_BRIDGES_PER_MACHINE
    ensures CountsExact(Go(s, h, stage).(counts := Up(s.counts, s.bridges[h].path)))
  {
    var s' := Go(s, h, stage).(counts := Up(s.counts, s.bridges[h].path));
    forall path: string
      ensures CountOf(s'.counts, path) == |Holders(s'.bridges, path)| <= MAX_BRIDGES_PER_MACHINE
    {
      HoldersAfter(s.bridges, h, s'.bridges[h], path);
      assert CountOf(s.counts, path) == |Holders(s.bridges, path)|;
    }
  }

  lemma ReleaseCounts(s: State, h: nat)
    requires CountsExact(s) && h in s.bridges && s.bridges[h].stage.Leaving?
    ensures CountsExact(Go(s, h, Ended).(counts := Down(s.counts, s.bridges[h].path)))
  {
    var s' := Go(s, h, Ended).(counts := Down(s.counts, s.bridges[h].path));
    forall path: string
      ensures CountOf(s'.counts, path) == |Holders(s'.bridges, path)| <= MAX_BRIDGES_PER_MACHINE
    {
      HoldersAfter(s.bridges, h, s'.bridges[h], path);
      assert CountOf(s.counts, path) == |Holders(s.bridges, path)|;
    }
  }

  // Steps that neither acquire nor release.
  lemma OtherCounts(s: State, s': State, h: nat)
    requires CountsExact(s) && s'.counts == s.counts
    requires h in s'.bridges && s'.bridges == s.bridges[h := s'.bridges[h]]
    requires h in s.bridges ==> s.bridges[h].path == s'.bridges[h].path
    requires (h in s.bridges && Holding(s.bridges[h].stage)) == Holding(s'.bridges[h].stage)
    ensures CountsExact(s')
  {
    forall path: string ensures Holders(s'.bridges, path) == Holders(s.bridges, path) {
      HoldersAfter(s.bridges, h, s'.bridges[h], path);
    }
  }

  lemma StepCounts(names: Naming, s: State, a: Action)
    requires CountsExact(s) && Enabled(names, s, a)
    ensures CountsExact(Apply(names, s, a))
  {
    var s' := Apply(names, s, a);
    if a.Acquire? && CountOf(s.counts, s.bridges[a.h].path) < MAX_BRIDGES_PER_MACHINE {
      AcquireCounts(s, a.h, Counted(s.bridges[a.h].stage.id));
    } else if a.Release? {
      ReleaseCounts(s, a.h);
    } else if OnTable(a) || OnGate(a) {
      assert s'.bridges == s.bridges && s'.counts == s.counts;
    } else {
      OtherCounts(s, s', a.h);
    }
  }

  lemma {:induction false} CountsAlong(names: Naming, tr: seq<State>, acts: seq<Action>, k: nat)
    requires IsRun(names, tr, acts) && k < |tr|
    ensures CountsExact(tr[k])
  {
    if k == 0 {
      forall path: string ensures Holders(tr[0].bridges, path) == {} {}
    } else {
      CountsAlong(names, tr, acts, k - 1);
      StepCounts(names, tr[k - 1], acts[k - 1]);
    }
  }

  // A counter is the number of handlers between their acquire and their release, at most 16,
  // and never zero when a release comes: its guard does nothing.
  lemma CounterCountsHolders(names: Naming, tr: seq<State>, acts: seq<Action>, k: nat, path: string)
    requires IsRun(names, tr, acts) && k < |tr|
    ensures CountOf(tr[k].counts, path) == |Holders(tr[k].bridges, path)| <= 16
    ensures k < |acts| && acts[k].Release? ==> CountOf(tr[k].counts, tr[k].bridges[acts[k].h].path) > 0
  {
    CountsAlong(names, tr, acts, k);
    if k < |acts| && acts[k].Release? {
      var h := acts[k].h;
      assert h in Holders(tr[k].bridges, tr[k].bridges[h].path);
    }
  }

  // A session is admitted exactly while fewer than 16 others hold a slot under the same path.
  lemma AdmittedExactlyBelowSixteen(names: Naming, tr: seq<State>, acts: seq<Action>, k: nat, h: nat)
    requires IsRun(names, tr, acts) && k < |acts| && acts[k] == Acquire(h)
    ensures tr[k + 1].bridges[h].stage == Counted(tr[k].bridges[h].stage.id)
       <==> |Holders(tr[k].bridges, tr[k].bridges[h].path)| < 16
    ensures tr[k + 1].bridges[h].stage.Counted? || tr[k + 1].bridges[h].stage.Ended?
  {
    CountsAlong(names, tr, acts, k);
    assert CountOf(tr[k].counts, tr[k].bridges[h].path) == |Holders(tr[k].bridges, tr[k].bridges[h].path)|;
  }

  lemma {:induction false} SubsetSize<T>(a: set<T>, b: set<T>)
    requires a <= b
    ensures |a| <= |b|
  {
    if x :| x in a {
      SubsetSize(a - {x}, b - {x});
    }
  }

  function PipedTo(s: State, id: nat): set<nat> {
    set h | h in s.bridges && s.bridges[h].stage.Piping? && s.bridges[h].stage.id == id
  }

  // Counters are kept per spelling, yet no machine ever has more than 16 piped sessions: only
  // the canonical spelling can be dialled.
  lemma SixteenPipesPerMachine(names: Naming, tr: seq<State>, acts: seq<Action>, k: nat, id: nat)
    requires RoundTrips(names) && IsRun(names, tr, acts) && k < |tr|
    ensures |PipedTo(tr[k], id)| <= 16
  {
    IdentityAlong(names, tr, acts, k);
    CountsAlong(names, tr, acts, k);
    forall h | h in PipedTo(tr[k], id) ensures h in Holders(tr[k].bridges, names.format(id)) {
      assert BridgeAuthorised(names, tr[k], tr[k].bridges[h]);
    }
    SubsetSize(PipedTo(tr[k], id), Holders(tr[k].bridges, names.format(id)));
    assert CountOf(tr[k].counts, names.format(id)) == |Holders(tr[k].bridges, names.format(id))|;
  }
}
