// First-login bootstrap of users in Postgres, as a step machine over any number of callers.
//
// Each SQL statement is one step. Statements see committed rows only (READ COMMITTED). An insert
// that conflicts with another transaction's uncommitted row waits for it, so it is not enabled
// until that transaction ends. Any caller may fail before any step, and a commit or an update of
// the email may take effect although the caller sees an error. Ids come from gen_random_uuid and
// are never issued twice.
module Bootstrap {
  import opened Wrappers
  import opened Users

  datatype Pc =
    | Start
    | Stale(uid: nat, row: User)
    | Missed
    | Begun
    | HasTenant(tid: nat)
    | Inserted(tid: nat, uid: nat)
    | Lost(tid: nat)
    | RolledBack
    | Returned(uid: nat, user: User)
    | Failed

  datatype Caller = Caller(key: Key, email: string, pc: Pc)

  // One call of the atomic get-or-create that a step stands for.
  datatype Call = Call(caller: nat, key: Key, uid: nat, tid: nat, result: (nat, nat))

  // issued holds every id handed out so far; log is a history variable.
  datatype State = State(
    tenants: map<nat, string>,
    users: Rows,
    callers: map<nat, Caller>,
    issued: set<nat>,
    log: seq<Call>)

  datatype Action =
    | Enter(c: nat, key: Key, email: string)
    | Read(c: nat)
    | UpdateEmail(c: nat)
    | UpdateUnseen(c: nat)
    | Begin(c: nat)
    | InsertTenant(c: nat, tid: nat)
    | InsertUser(c: nat, uid: nat)
    | Rollback(c: nat)
    | Reread(c: nat)
    | Commit(c: nat)
    | CommitUnseen(c: nat)
    | Abort(c: nat)

  ghost function Init(): State {
    State(map[], map[], map[], {}, [])
  }

  // Another transaction holds an uncommitted row for this identity.
  predicate Blocked(s: State, c: nat)
    requires c in s.callers
  {
    exists d :: d in s.callers && d != c && s.callers[d].pc.Inserted? && s.callers[d].key == s.callers[c].key
  }

  ghost predicate Enabled(s: State, a: Action) {
    match a
    case Enter(c, _, _) => c !in s.callers
    case Read(c) => c in s.callers && s.callers[c].pc.Start?
    case UpdateEmail(c) => c in s.callers && s.callers[c].pc.Stale? && s.callers[c].pc.uid in s.users
    case UpdateUnseen(c) => c in s.callers && s.callers[c].pc.Stale? && s.callers[c].pc.uid in s.users
    case Begin(c) => c in s.callers && s.callers[c].pc.Missed?
    case InsertTenant(c, tid) => c in s.callers && s.callers[c].pc.Begun? && tid !in s.issued
    case InsertUser(c, uid) =>
      c in s.callers && s.callers[c].pc.HasTenant? && uid !in s.issued && !Blocked(s, c)
    case Rollback(c) => c in s.callers && s.callers[c].pc.Lost?
    case Reread(c) => c in s.callers && s.callers[c].pc.RolledBack?
    case Commit(c) => c in s.callers && s.callers[c].pc.Inserted?
    case CommitUnseen(c) => c in s.callers && s.callers[c].pc.Inserted?
    case Abort(c) => c in s.callers && !s.callers[c].pc.Returned?
  }

  function Go(s: State, c: nat, pc: Pc): map<nat, Caller>
    requires c in s.callers
  {
    s.callers[c := s.callers[c].(pc := pc)]
  }

  function Row(s: State, c: nat): User
    requires c in s.callers && s.callers[c].pc.Inserted?
  {
    User(s.callers[c].key, s.callers[c].pc.tid, s.callers[c].email)
  }

  // The tables and the log once caller c's transaction has committed.
  function Committed(s: State, c: nat): State
    requires c in s.callers && s.callers[c].pc.Inserted?
  {
    var me := s.callers[c];
    s.(tenants := s.tenants[me.pc.tid := TenantName(me.key, me.email)],
       users := s.users[me.pc.uid := Row(s, c)],
       log := s.log + [Call(c, me.key, me.pc.uid, me.pc.tid, (me.pc.uid, me.pc.tid))])
  }

  function Found(c: nat, key: Key, uid: nat, row: User): Call {
    Call(c, key, 0, 0, (uid, row.tenant))
  }

  ghost function Apply(s: State, a: Action): State
    requires Enabled(s, a)
  {
    match a
    case Enter(c, key, email) => s.(callers := s.callers[c := Caller(key, email, Start)])
    case Read(c) =>
      var me := s.callers[c];
      (match Select(s.users, me.key)
       case None => s.(callers := Go(s, c, Missed))
       case Some(uid) =>
         var row := s.users[uid];
         s.(callers := Go(s, c, if me.email != "" && row.email != me.email
                                then Stale(uid, row) else Returned(uid, row)),
            log := s.log + [Found(c, me.key, uid, row)]))
    case UpdateEmail(c) =>
      var me := s.callers[c];
      s.(users := WithEmail(s.users, me.pc.uid, me.email),
         callers := Go(s, c, Returned(me.pc.uid, me.pc.row.(email := me.email))))
    case UpdateUnseen(c) =>
      s.(users := WithEmail(s.users, s.callers[c].pc.uid, s.callers[c].email), callers := Go(s, c, Failed))
    case Begin(c) => s.(callers := Go(s, c, Begun))
    case InsertTenant(c, tid) =>
      s.(callers := Go(s, c, HasTenant(tid)), issued := s.issued + {tid})
    case InsertUser(c, uid) =>
      var me := s.callers[c];
      if Present(s.users, me.key) then s.(callers := Go(s, c, Lost(me.pc.tid)))
      else s.(callers := Go(s, c, Inserted(me.pc.tid, uid)), issued := s.issued + {uid})
    case Rollback(c) => s.(callers := Go(s, c, RolledBack))
    case Reread(c) =>
      var me := s.callers[c];
      (match Select(s.users, me.key)
       case None => s.(callers := Go(s, c, Failed))
       case Some(uid) =>
         s.(callers := Go(s, c, Returned(uid, s.users[uid])),
            log := s.log + [Found(c, me.key, uid, s.users[uid])]))
    case Commit(c) =>
      Committed(s, c).(callers := Go(s, c, Returned(s.callers[c].pc.uid, Row(s, c))))
    case CommitUnseen(c) => Committed(s, c).(callers := Go(s, c, Failed))
    case Abort(c) => s.(callers := Go(s, c, Failed))
  }

  ghost predicate IsRun(tr: seq<State>, acts: seq<Action>) {
    && |tr| == |acts| + 1 && tr[0] == Init()
    && forall i :: 0 <= i < |acts| ==> Enabled(tr[i], acts[i]) && tr[i + 1] == Apply(tr[i], acts[i])
  }

  // ---- Invariant ----

  ghost predicate TablesOk(s: State) {
    && Unique(s.users) && OnePerTenant(s.tenants, s.users)
    && s.tenants.Keys <= s.issued && s.users.Keys <= s.issued
  }

  predicate Names(users: Rows, uid: nat, u: User) {
    uid in users && users[uid].key == u.key && users[uid].tenant == u.tenant
  }

  // What a caller may rely on at its program point.
  predicate CallerOk(s: State, me: Caller) {
    match me.pc
    case HasTenant(tid) => tid in s.issued && tid !in s.tenants
    case Inserted(tid, uid) =>
      tid in s.issued && uid in s.issued && tid !in s.tenants && uid !in s.users && !Present(s.users, me.key)
    case Lost(_) => Present(s.users, me.key)
    case RolledBack => Present(s.users, me.key)
    case Stale(uid, row) => Names(s.users, uid, row) && row.key == me.key
    case Returned(uid, u) => Names(s.users, uid, u) && u.key == me.key
    case _ => true
  }

  // Two transactions in flight hold different ids, and never the same identity.
  predicate Apart(p: Caller, q: Caller) {
    && ((p.pc.HasTenant? || p.pc.Inserted?) && (q.pc.HasTenant? || q.pc.Inserted?) ==> p.pc.tid != q.pc.tid)
    && (p.pc.Inserted? && q.pc.Inserted? ==> p.pc.uid != q.pc.uid && p.key != q.key)
  }

  ghost predicate Inv(s: State) {
    && TablesOk(s)
    && (forall c <- s.callers :: CallerOk(s, s.callers[c]))
    && (forall c, d :: c in s.callers && d in s.callers && c != d ==> Apart(s.callers[c], s.callers[d]))
  }

  // A step that leaves the tables alone and moves one caller.
  lemma MoveInv(s: State, s': State, c: nat)
    requires Inv(s)
    requires s'.tenants == s.tenants && s'.users == s.users && s.issued <= s'.issued
    requires c in s'.callers && s'.callers == s.callers[c := s'.callers[c]]
    requires CallerOk(s', s'.callers[c])
    requires forall d <- s.callers :: d != c ==>
               Apart(s'.callers[c], s.callers[d]) && Apart(s.callers[d], s'.callers[c])
    ensures Inv(s')
  {
  }

  lemma CommitInv(s: State, c: nat, pc: Pc)
    requires Inv(s) && c in s.callers && s.callers[c].pc.Inserted?
    requires pc == Failed || pc == Returned(s.callers[c].pc.uid, Row(s, c))
    ensures Inv(Committed(s, c).(callers := Go(s, c, pc)))
  {
    var me := s.callers[c];
    var s' := Committed(s, c).(callers := Go(s, c, pc));
    assert CallerOk(s, me);
    InsertKeeps(s.tenants, s.users, me.pc.uid, Row(s, c), TenantName(me.key, me.email));
    forall d | d in s'.callers ensures CallerOk(s', s'.callers[d]) {
      if d != c {
        assert CallerOk(s, s.callers[d]) && Apart(me, s.callers[d]);
      }
    }
  }

  lemma EmailCallerOk(s: State, s': State, me: Caller, uid: nat, email: string)
    requires CallerOk(s, me) && uid in s.users
    requires s'.users == WithEmail(s.users, uid, email) && s'.tenants == s.tenants && s'.issued == s.issued
    ensures CallerOk(s', me)
  {
    EmailKeeps(s.tenants, s.users, uid, email);
  }

  // A step that changes one stored email and lets one caller return or fail.
  lemma MoveEmailInv(s: State, s': State, c: nat, uid: nat, email: string)
    requires Inv(s) && uid in s.users
    requires s'.users == WithEmail(s.users, uid, email) && s'.tenants == s.tenants && s'.issued == s.issued
    requires c in s'.callers && s'.callers == s.callers[c := s'.callers[c]]
    requires (s'.callers[c].pc.Returned? || s'.callers[c].pc.Failed?) && CallerOk(s', s'.callers[c])
    ensures Inv(s')
  {
    EmailKeeps(s.tenants, s.users, uid, email);
    forall d | d in s'.callers ensures CallerOk(s', s'.callers[d]) {
      if d != c {
        EmailCallerOk(s, s', s.callers[d], uid, email);
      }
    }
  }

  predicate SetsEmail(a: Action) {
    a.UpdateEmail? || a.UpdateUnseen?
  }

  lemma EmailInv(s: State, a: Action)
    requires Inv(s) && Enabled(s, a) && SetsEmail(a)
    ensures Inv(Apply(s, a))
  {
    assert CallerOk(s, s.callers[a.c]);
    MoveEmailInv(s, Apply(s, a), a.c, s.callers[a.c].pc.uid, s.callers[a.c].email);
  }

  lemma InsertTenantInv(s: State, c: nat, tid: nat)
    requires Inv(s) && Enabled(s, InsertTenant(c, tid))
    ensures Inv(Apply(s, InsertTenant(c, tid)))
  {
    forall d | d in s.callers && d != c
      ensures Apart(s.callers[c].(pc := HasTenant(tid)), s.callers[d])
      ensures Apart(s.callers[d], s.callers[c].(pc := HasTenant(tid)))
    {
      assert CallerOk(s, s.callers[d]);
    }
    MoveInv(s, Apply(s, InsertTenant(c, tid)), c);
  }

  lemma InsertUserInv(s: State, c: nat, uid: nat)
    requires Inv(s) && Enabled(s, InsertUser(c, uid))
    ensures Inv(Apply(s, InsertUser(c, uid)))
  {
    var s' := Apply(s, InsertUser(c, uid));
    assert CallerOk(s, s.callers[c]);
    forall d | d in s.callers && d != c
      ensures Apart(s'.callers[c], s.callers[d]) && Apart(s.callers[d], s'.callers[c])
    {
      assert CallerOk(s, s.callers[d]) && Apart(s.callers[c], s.callers[d]) && Apart(s.callers[d], s.callers[c]);
    }
    MoveInv(s, s', c);
  }

  predicate Quiet(a: Action) {
    a.Enter? || a.Read? || a.Begin? || a.Rollback? || a.Reread? || a.Abort?
  }

  // Steps that neither touch the tables nor issue ids.
  lemma QuietInv(s: State, a: Action)
    requires Inv(s) && Enabled(s, a) && Quiet(a)
    ensures Inv(Apply(s, a))
  {
    var s' := Apply(s, a);
    if !a.Enter? {
      assert CallerOk(s, s.callers[a.c]);
    }
    var me := s'.callers[a.c];
    assert !me.pc.HasTenant? && !me.pc.Inserted?;
    assert CallerOk(s', me);
    assert s'.callers == s.callers[a.c := me];
    MoveInv(s, s', a.c);
  }

  lemma StepInv(s: State, a: Action)
    requires Inv(s) && Enabled(s, a)
    ensures Inv(Apply(s, a))
  {
    if Quiet(a) {
      QuietInv(s, a);
    } else if SetsEmail(a) {
      EmailInv(s, a);
    } else {
      match a
      case Commit(c) => CommitInv(s, c, Returned(s.callers[c].pc.uid, Row(s, c)));
      case CommitUnseen(c) => CommitInv(s, c, Failed);
      case InsertTenant(c, tid) => InsertTenantInv(s, c, tid);
      case InsertUser(c, uid) => InsertUserInv(s, c, uid);
    }
  }

  lemma {:induction false} InvAlong(tr: seq<State>, acts: seq<Action>, k: nat)
    requires IsRun(tr, acts) && k < |tr|
    ensures Inv(tr[k])
  {
    if k > 0 {
      InvAlong(tr, acts, k - 1);
      StepInv(tr[k - 1], acts[k - 1]);
    }
  }

  // ---- Over whole runs ----

  // One user per identity, and committed tenants and users match one to one: no orphan tenant.
  lemma NoOrphans(tr: seq<State>, acts: seq<Action>, k: nat)
    requires IsRun(tr, acts) && k < |tr|
    ensures Unique(tr[k].users) && OnePerTenant(tr[k].tenants, tr[k].users)
    ensures forall t <- tr[k].tenants :: exists i :: i in tr[k].users && tr[k].users[i].tenant == t
    ensures forall i, j :: i in tr[k].users && j in tr[k].users && i != j ==>
              tr[k].users[i].key != tr[k].users[j].key && tr[k].users[i].tenant != tr[k].users[j].tenant
  {
    InvAlong(tr, acts, k);
  }

  lemma SameIdentitySameUser(tr: seq<State>, acts: seq<Action>, k: nat, c: nat, d: nat)
    requires IsRun(tr, acts) && k < |tr|
    requires c in tr[k].callers && tr[k].callers[c].pc.Returned?
    requires d in tr[k].callers && tr[k].callers[d].pc.Returned?
    ensures tr[k].callers[c].key == tr[k].callers[d].key
       <==> tr[k].callers[c].pc.uid == tr[k].callers[d].pc.uid
    ensures tr[k].callers[c].key == tr[k].callers[d].key
       <==> tr[k].callers[c].pc.user.tenant == tr[k].callers[d].pc.user.tenant
  {
    InvAlong(tr, acts, k);
    assert CallerOk(tr[k], tr[k].callers[c]) && CallerOk(tr[k], tr[k].callers[d]);
  }

  // A caller that lost the race always finds the winner's row.
  lemma LoserFindsWinner(tr: seq<State>, acts: seq<Action>, k: nat, c: nat)
    requires IsRun(tr, acts) && k < |tr| && Enabled(tr[k], Reread(c))
    ensures Apply(tr[k], Reread(c)).callers[c].pc.Returned?
  {
    InvAlong(tr, acts, k);
    assert CallerOk(tr[k], tr[k].callers[c]);
  }

  lemma Extend(tr: seq<State>, acts: seq<Action>, a: Action) returns (tr': seq<State>, acts': seq<Action>)
    requires IsRun(tr, acts) && Enabled(tr[|acts|], a)
    ensures IsRun(tr', acts') && tr <= tr' && |acts'| == |acts| + 1
    ensures tr'[|acts'|] == Apply(tr[|acts|], a)
  {
    tr', acts' := tr + [Apply(tr[|acts|], a)], acts + [a];
    forall i | 0 <= i < |acts'| ensures Enabled(tr'[i], acts'[i]) && tr'[i + 1] == Apply(tr'[i], acts'[i]) {
      if i < |acts| {
        assert tr'[i] == tr[i] && tr'[i + 1] == tr[i + 1] && acts'[i] == acts[i];
      }
    }
  }

  // ---- Email ----

  predicate HasReturned(s: State, c: nat) {
    c in s.callers && s.callers[c].pc.Returned?
  }

  // The identity has a row with another email.
  predicate StoresOther(users: Rows, key: Key, email: string) {
    exists i :: i in users && users[i].key == key && users[i].email != email
  }

  // Action a is caller c's re-read after a lost race, at a time when its identity has another
  // email stored than its own.
  predicate MeetsOtherEmail(s: State, a: Action, c: nat) {
    a == Reread(c) && c in s.callers && StoresOther(s.users, s.callers[c].key, s.callers[c].email)
  }

  lemma ReturningStep(s: State, a: Action, c: nat)
    requires Inv(s) && Enabled(s, a) && c in s.callers && s.callers[c].email != ""
    requires !HasReturned(s, c) && HasReturned(Apply(s, a), c)
    ensures var s', me := Apply(s, a), Apply(s, a).callers[c];
            && a.c == c && me.key == s.callers[c].key && me.email == s.callers[c].email
            && me.pc.uid in s'.users && s'.users[me.pc.uid] == me.pc.user && me.pc.user.key == me.key
            && (me.pc.user.email == me.email <==> !MeetsOtherEmail(s, a, c))
  {
    assert CallerOk(s, s.callers[c]);
  }

  // When a call with a non-empty email returns, it returns the row stored for its identity, and
  // that row has the call's email unless the caller lost the race and met another one: whether a
  // stale stored email is updated is decided by nothing else.
  lemma EmailStored(tr: seq<State>, acts: seq<Action>, k: nat, c: nat)
    requires IsRun(tr, acts) && k < |acts|
    requires c in tr[k].callers && tr[k].callers[c].email != ""
    requires !HasReturned(tr[k], c) && HasReturned(tr[k + 1], c)
    ensures var users, me := tr[k + 1].users, tr[k + 1].callers[c];
            && me.pc.uid in users && users[me.pc.uid] == me.pc.user && me.pc.user.key == me.key
            && (StoresOther(users, me.key, me.email) <==> MeetsOtherEmail(tr[k], acts[k], c))
  {
    InvAlong(tr, acts, k);
    InvAlong(tr, acts, k + 1);
    ReturningStep(tr[k], acts[k], c);
  }

  // What one step can do to what a caller has been told about its email.
  predicate EmailSettled(s: State, a: Action, s': State, c: nat) {
    && (HasReturned(s, c) ==> HasReturned(s', c) && s'.callers[c] == s.callers[c] && !MeetsOtherEmail(s, a, c))
    && (MeetsOtherEmail(s, a, c) ==> HasReturned(s', c))
    && (!HasReturned(s, c) && HasReturned(s', c) && s'.callers[c].email != "" ==>
          (s'.callers[c].pc.user.email == s'.callers[c].email <==> !MeetsOtherEmail(s, a, c)))
  }

  lemma EmailStep(s: State, a: Action, c: nat)
    requires Inv(s) && Enabled(s, a)
    ensures EmailSettled(s, a, Apply(s, a), c)
  {
    if c in s.callers {
      assert CallerOk(s, s.callers[c]);
    }
    if !HasReturned(s, c) && HasReturned(Apply(s, a), c) && Apply(s, a).callers[c].email != "" {
      ReturningStep(s, a, c);
    }
  }

  lemma {:induction false} EmailSettledAlong(tr: seq<State>, acts: seq<Action>, k: nat, c: nat)
    requires |tr| == |acts| + 1 && k < |tr| && !HasReturned(tr[0], c)
    requires forall i :: 0 <= i < k ==> EmailSettled(tr[i], acts[i], tr[i + 1], c)
    ensures (exists i :: 0 <= i < k && MeetsOtherEmail(tr[i], acts[i], c)) ==> HasReturned(tr[k], c)
    ensures HasReturned(tr[k], c) && tr[k].callers[c].email != "" ==>
              (tr[k].callers[c].pc.user.email == tr[k].callers[c].email
               <==> !exists i :: 0 <= i < k && MeetsOtherEmail(tr[i], acts[i], c))
  {
    if k > 0 {
      EmailSettledAlong(tr, acts, k - 1, c);
      assert EmailSettled(tr[k - 1], acts[k - 1], tr[k - 1 + 1], c);
    }
  }

  // The same of every state after the return: the returned user carries the call's email, except
  // exactly when the caller lost the race and met another one.
  lemma EmailReturned(tr: seq<State>, acts: seq<Action>, k: nat, c: nat)
    requires IsRun(tr, acts) && k < |tr|
    requires HasReturned(tr[k], c) && tr[k].callers[c].email != ""
    ensures tr[k].callers[c].pc.user.email == tr[k].callers[c].email
       <==> !exists i :: 0 <= i < k && MeetsOtherEmail(tr[i], acts[i], c)
  {
    forall i | 0 <= i < k ensures EmailSettled(tr[i], acts[i], tr[i + 1], c) {
      InvAlong(tr, acts, i);
      EmailStep(tr[i], acts[i], c);
    }
    EmailSettledAlong(tr, acts, k, c);
  }

  // Caller 1 has looked the identity up in vain; caller 0 has not started.
  lemma EarlyMiss(key: Key, other: string) returns (tr: seq<State>, acts: seq<Action>)
    ensures IsRun(tr, acts)
    ensures tr[|acts|] == State(map[], map[], map[1 := Caller(key, other, Missed)], {}, [])
  {
    tr, acts := [Init()], [];
    tr, acts := Extend(tr, acts, Enter(1, key, other));
    tr, acts := Extend(tr, acts, Read(1));
  }

  // Caller 0 then opens its transaction.
  lemma WinnerBegins(key: Key, email: string, other: string) returns (tr: seq<State>, acts: seq<Action>)
    ensures IsRun(tr, acts)
    ensures tr[|acts|].users == map[] && tr[|acts|].issued == {0}
    ensures tr[|acts|].callers == map[1 := Caller(key, other, Missed), 0 := Caller(key, email, HasTenant(0))]
  {
    tr, acts := EarlyMiss(key, other);
    tr, acts := Extend(tr, acts, Enter(0, key, email));
    tr, acts := Extend(tr, acts, Read(0));
    tr, acts := Extend(tr, acts, Begin(0));
    tr, acts := Extend(tr, acts, InsertTenant(0, 0));
  }

  // And creates and commits the user.
  lemma WinnerCommits(key: Key, email: string, other: string) returns (tr: seq<State>, acts: seq<Action>)
    ensures IsRun(tr, acts)
    ensures tr[|acts|].users == map[2 := User(key, 0, email)] && tr[|acts|].issued == {0, 2}
    ensures tr[|acts|].callers
         == map[1 := Caller(key, other, Missed), 0 := Caller(key, email, Returned(2, User(key, 0, email)))]
  {
    tr, acts := WinnerBegins(key, email, other);
    tr, acts := Extend(tr, acts, InsertUser(0, 2));
    tr, acts := Extend(tr, acts, Commit(0));
  }

  // That case is real: for any two emails there is a run in which the loser gets the winner's
  // email back, where an atomic get-or-create made after the winner's would have stored its own.
  lemma LoserKeepsWinnersEmail(key: Key, email: string, other: string)
    returns (tr: seq<State>, acts: seq<Action>)
    ensures IsRun(tr, acts)
    ensures var last := tr[|acts|];
            && last.users == map[2 := User(key, 0, email)]
            && 1 in last.callers && last.callers[1] == Caller(key, other, Returned(2, User(key, 0, email)))
  {
    tr, acts := WinnerCommits(key, email, other);
    tr, acts := Extend(tr, acts, Begin(1));
    tr, acts := Extend(tr, acts, InsertTenant(1, 1));
    assert tr[|acts|].users[2].key == key;
    tr, acts := Extend(tr, acts, InsertUser(1, 3));
    tr, acts := Extend(tr, acts, Rollback(1));
    tr, acts := Extend(tr, acts, Reread(1));
  }
}
