// How bootstrap calls move and where rows, tenants and emails come from; and that no call is ever
// stuck: from every state it can come back with a user, and it can fail.
module BootstrapProgress {
  import opened Wrappers
  import opened Users
  import opened Bootstrap

  // ---- Where rows and tenants come from ----

  // A caller keeps the identity and email it entered with, and goes on with every step of its own.
  function PcRank(pc: Pc): nat {
    match pc
    case Start => 0
    case Stale(_, _) => 1
    case Missed => 1
    case Begun => 2
    case HasTenant(_) => 3
    case Inserted(_, _) => 4
    case Lost(_) => 4
    case RolledBack => 5
    case Returned(_, _) => 6
    case Failed => 7
  }

  predicate CallerKept(s: State, a: Action, s': State, c: nat) {
    c in s.callers ==>
      && c in s'.callers && s'.callers[c].key == s.callers[c].key && s'.callers[c].email == s.callers[c].email
      && (if a.c == c && !(s.callers[c].pc.Failed?) then PcRank(s'.callers[c].pc) > PcRank(s.callers[c].pc)
          else s'.callers[c].pc == s.callers[c].pc)
  }

  lemma CallerStep(s: State, a: Action, c: nat)
    requires Enabled(s, a)
    ensures CallerKept(s, a, Apply(s, a), c)
    ensures a.Enter? && a.c == c ==>
              c in Apply(s, a).callers && Apply(s, a).callers[c] == Caller(a.key, a.email, Start)
  {
  }

  lemma {:induction false} CallerAlong(tr: seq<State>, acts: seq<Action>, i: nat, k: nat, c: nat)
    requires |tr| == |acts| + 1 && i <= k < |tr| && c in tr[i].callers
    requires forall j :: i <= j < k ==> CallerKept(tr[j], acts[j], tr[j + 1], c)
    ensures c in tr[k].callers
    ensures tr[k].callers[c].key == tr[i].callers[c].key && tr[k].callers[c].email == tr[i].callers[c].email
    ensures PcRank(tr[i].callers[c].pc) <= PcRank(tr[k].callers[c].pc)
    ensures (forall j :: i <= j < k ==> acts[j].c != c) ==> tr[k].callers[c] == tr[i].callers[c]
    ensures PcRank(tr[i].callers[c].pc) == PcRank(tr[k].callers[c].pc) ==> tr[k].callers[c] == tr[i].callers[c]
    decreases k
  {
    if i < k {
      CallerAlong(tr, acts, i, k - 1, c);
      assert CallerKept(tr[k - 1], acts[k - 1], tr[k - 1 + 1], c);
    }
  }

  // A call has the identity and email it was made with throughout. It moves by its own steps only
  // and forward with each, so it answers once: an answer never changes.
  lemma CallsGoForward(tr: seq<State>, acts: seq<Action>, i: nat, k: nat, c: nat)
    requires IsRun(tr, acts) && i < k < |tr| && acts[i].Enter? && acts[i].c == c
    ensures c in tr[k].callers && tr[k].callers[c].key == acts[i].key && tr[k].callers[c].email == acts[i].email
    ensures (forall j :: i < j < k ==> acts[j].c != c) ==> tr[k].callers[c].pc.Start?
  {
    CallerStep(tr[i], acts[i], c);
    forall j | i < j < k ensures CallerKept(tr[j], acts[j], tr[j + 1], c) {
      CallerStep(tr[j], acts[j], c);
    }
    CallerAlong(tr, acts, i + 1, k, c);
  }

  lemma {:induction false} NeverFails(tr: seq<State>, acts: seq<Action>, i: nat, k: nat, c: nat)
    requires IsRun(tr, acts) && i <= k < |tr| && c in tr[i].callers && tr[i].callers[c].pc.Returned?
    ensures c in tr[k].callers && tr[k].callers[c].pc.Returned?
    decreases k
  {
    if i < k {
      NeverFails(tr, acts, i, k - 1, c);
    }
  }

  lemma AnswersAreFinal(tr: seq<State>, acts: seq<Action>, i: nat, k: nat, c: nat)
    requires IsRun(tr, acts) && i <= k < |tr| && c in tr[i].callers && tr[i].callers[c].pc.Returned?
    ensures c in tr[k].callers && tr[k].callers[c] == tr[i].callers[c]
  {
    forall j | i <= j < k ensures CallerKept(tr[j], acts[j], tr[j + 1], c) {
      CallerStep(tr[j], acts[j], c);
    }
    NeverFails(tr, acts, i, k, c);
    CallerAlong(tr, acts, i, k, c);
  }

  // A caller that is about to update has a non-empty email, and read another one.
  predicate UpdatesForReason(s: State) {
    forall c <- s.callers :: s.callers[c].pc.Stale? ==>
      s.callers[c].email != "" && s.callers[c].pc.row.email != s.callers[c].email
  }

  lemma ReasonStep(s: State, a: Action)
    requires UpdatesForReason(s) && Enabled(s, a)
    ensures UpdatesForReason(Apply(s, a))
  {
  }

  lemma {:induction false} ReasonAlong(tr: seq<State>, acts: seq<Action>, k: nat)
    requires IsRun(tr, acts) && k < |tr|
    ensures UpdatesForReason(tr[k])
  {
    if k > 0 {
      ReasonAlong(tr, acts, k - 1);
      ReasonStep(tr[k - 1], acts[k - 1]);
    }
  }

  // A stored row never goes away and never changes identity or tenant. Its email changes only by
  // an update of a call for that very identity with a non-empty email, which had read another one,
  // and then it is that call's; and such an update does store it.
  lemma EmailChangesOnlyAsAsked(tr: seq<State>, acts: seq<Action>, k: nat, uid: nat)
    requires IsRun(tr, acts) && k < |acts| && uid in tr[k].users
    ensures Names(tr[k + 1].users, uid, tr[k].users[uid])
    ensures tr[k + 1].users[uid].email != tr[k].users[uid].email ==> SetsEmail(acts[k])
    ensures SetsEmail(acts[k]) ==>
              var me := tr[k].callers[acts[k].c];
              && me.email != "" && me.pc.row.email != me.email
              && tr[k + 1].users[uid].email
                 == if tr[k].users[uid].key == me.key then me.email else tr[k].users[uid].email
  {
    InvAlong(tr, acts, k);
    ReasonAlong(tr, acts, k);
    if acts[k].c in tr[k].callers {
      assert CallerOk(tr[k], tr[k].callers[acts[k].c]);
    }
  }

  // What tells whether action a makes caller c's rows visible.
  predicate Commits(a: Action) {
    a.Commit? || a.CommitUnseen?
  }

  // A user row appears only together with its tenant, by the commit of a call for its identity,
  // seen or unseen, with that call's email; the tenant is called by the email, or by provider and
  // subject if there is none. And such a commit does make both appear.
  lemma RowsOnlyByCommit(tr: seq<State>, acts: seq<Action>, k: nat)
    requires IsRun(tr, acts) && k < |acts|
    ensures !Commits(acts[k]) ==> tr[k + 1].users.Keys == tr[k].users.Keys && tr[k + 1].tenants == tr[k].tenants
    ensures Commits(acts[k]) ==>
              var me := tr[k].callers[acts[k].c];
              var name := if me.email != "" then me.email else me.key.provider + ":" + me.key.subject;
              exists uid: nat, tid: nat ::
                && uid !in tr[k].users && tid !in tr[k].tenants
                && tr[k + 1].users == tr[k].users[uid := User(me.key, tid, me.email)]
                && tr[k + 1].tenants == tr[k].tenants[tid := name]
  {
    InvAlong(tr, acts, k);
    if Commits(acts[k]) {
      var me := tr[k].callers[acts[k].c];
      assert CallerOk(tr[k], me);
      assert me.pc.uid !in tr[k].users && me.pc.tid !in tr[k].tenants;
    }
  }

  predicate Creating(s: State, c: nat) {
    c in s.callers
    && (s.callers[c].pc.Missed? || s.callers[c].pc.Begun? || s.callers[c].pc.HasTenant? || s.callers[c].pc.Inserted?)
  }

  lemma CreatingStep(s: State, a: Action, c: nat)
    requires Enabled(s, a) && Creating(Apply(s, a), c)
    ensures Creating(s, c) || (a == Read(c) && c in s.callers && !Present(s.users, s.callers[c].key))
  {
  }

  // Only a call that looked its identity up in vain goes on to create it.
  lemma {:induction false} OnlyMissedCallsCreate(tr: seq<State>, acts: seq<Action>, k: nat, c: nat)
    requires IsRun(tr, acts) && k < |tr| && Creating(tr[k], c)
    ensures exists j :: 0 <= j < k && acts[j] == Read(c) && !Present(tr[j].users, tr[k].callers[c].key)
  {
    CreatingStep(tr[k - 1], acts[k - 1], c);
    CallerStep(tr[k - 1], acts[k - 1], c);
    if Creating(tr[k - 1], c) {
      OnlyMissedCallsCreate(tr, acts, k - 1, c);
    }
  }

  // ---- Nothing is ever stuck ----

  // There is always an id that has not been issued.
  lemma {:induction false} FreshId(issued: set<nat>) returns (id: nat)
    ensures id !in issued && forall i <- issued :: i < id
    decreases |issued|
  {
    if issued == {} {
      id := 0;
    } else {
      var some :| some in issued;
      var above := FreshId(issued - {some});
      id := if some < above then above else some + 1;
      assert forall i <- issued :: i in issued - {some} || i == some;
    }
  }

  // A call that has opened its transaction ends by creating its user or by finding the winner's.
  lemma TransactionCanReturn(tr: seq<State>, acts: seq<Action>, c: nat)
    returns (tr': seq<State>, acts': seq<Action>)
    requires IsRun(tr, acts) && c in tr[|acts|].callers && tr[|acts|].callers[c].pc.HasTenant?
    requires !Blocked(tr[|acts|], c)
    ensures IsRun(tr', acts') && tr <= tr'
    ensures c in tr'[|acts'|].callers && tr'[|acts'|].callers[c].pc.Returned?
  {
    var uid := FreshId(tr[|acts|].issued);
    tr', acts' := Extend(tr, acts, InsertUser(c, uid));
    if tr'[|acts'|].callers[c].pc.Inserted? {
      tr', acts' := Extend(tr', acts', Commit(c));
    } else {
      tr', acts' := Extend(tr', acts', Rollback(c));
      LoserFindsWinner(tr', acts', |acts'|, c);
      tr', acts' := Extend(tr', acts', Reread(c));
    }
  }

  // A call can fail at any time before it returns, with the tables as they were; and it can fail
  // although its commit, or its update of the email, has taken effect.
  lemma CallCanFail(tr: seq<State>, acts: seq<Action>, c: nat, tookEffect: bool)
    returns (tr': seq<State>, acts': seq<Action>)
    requires IsRun(tr, acts) && c in tr[|acts|].callers && !tr[|acts|].callers[c].pc.Returned?
    requires tookEffect ==> tr[|acts|].callers[c].pc.Inserted? || tr[|acts|].callers[c].pc.Stale?
    ensures IsRun(tr', acts') && tr <= tr'
    ensures c in tr'[|acts'|].callers && tr'[|acts'|].callers[c].pc.Failed?
    ensures !tookEffect ==> tr'[|acts'|].users == tr[|acts|].users && tr'[|acts'|].tenants == tr[|acts|].tenants
    ensures tookEffect ==>
              exists i :: i in tr'[|acts'|].users
                          && tr'[|acts'|].users[i].key == tr[|acts|].callers[c].key
                          && tr'[|acts'|].users[i].email == tr[|acts|].callers[c].email
  {
    InvAlong(tr, acts, |acts|);
    var me := tr[|acts|].callers[c];
    assert CallerOk(tr[|acts|], me);
    if !tookEffect {
      tr', acts' := Extend(tr, acts, Abort(c));
    } else if me.pc.Inserted? {
      tr', acts' := Extend(tr, acts, CommitUnseen(c));
      assert tr'[|acts'|].users[me.pc.uid].key == me.key;
    } else {
      tr', acts' := Extend(tr, acts, UpdateUnseen(c));
      assert tr'[|acts'|].users[me.pc.uid].key == me.key;
    }
  }

  // At most one transaction holds an uncommitted row for an identity; it can commit, and then
  // nobody waits for the identity any more.
  lemma BlockerCanCommit(tr: seq<State>, acts: seq<Action>, c: nat)
    returns (tr': seq<State>, acts': seq<Action>)
    requires IsRun(tr, acts) && c in tr[|acts|].callers && tr[|acts|].callers[c].pc.HasTenant?
    ensures IsRun(tr', acts') && tr <= tr' && c in tr'[|acts'|].callers
    ensures tr'[|acts'|].callers[c] == tr[|acts|].callers[c] && !Blocked(tr'[|acts'|], c)
  {
    tr', acts' := tr, acts;
    var s := tr[|acts|];
    if Blocked(s, c) {
      InvAlong(tr, acts, |acts|);
      var d :| d in s.callers && d != c && s.callers[d].pc.Inserted? && s.callers[d].key == s.callers[c].key;
      tr', acts' := Extend(tr, acts, Commit(d));
      forall e | e in s.callers && e != c && e != d && s.callers[e].pc.Inserted?
        ensures s.callers[e].key != s.callers[c].key
      {
        assert Apart(s.callers[d], s.callers[e]);
      }
    }
  }

  lemma RereadReturns(tr: seq<State>, acts: seq<Action>, c: nat)
    returns (tr': seq<State>, acts': seq<Action>)
    requires IsRun(tr, acts) && c in tr[|acts|].callers && tr[|acts|].callers[c].pc.RolledBack?
    ensures IsRun(tr', acts') && tr <= tr'
    ensures c in tr'[|acts'|].callers && tr'[|acts'|].callers[c].pc.Returned?
  {
    LoserFindsWinner(tr, acts, |acts|, c);
    tr', acts' := Extend(tr, acts, Reread(c));
  }

  lemma CallCanGoOn(tr: seq<State>, acts: seq<Action>, c: nat)
    returns (tr': seq<State>, acts': seq<Action>)
    requires IsRun(tr, acts) && c in tr[|acts|].callers
    requires PcRank(tr[|acts|].callers[c].pc) <= 3
    ensures IsRun(tr', acts') && tr <= tr'
    ensures c in tr'[|acts'|].callers && tr'[|acts'|].callers[c].pc.Returned?
  {
    tr', acts' := tr, acts;
    if tr'[|acts'|].callers[c].pc.Start? {
      tr', acts' := Extend(tr', acts', Read(c));
    }
    if tr'[|acts'|].callers[c].pc.Stale? {
      InvAlong(tr', acts', |acts'|);
      assert CallerOk(tr'[|acts'|], tr'[|acts'|].callers[c]);
      tr', acts' := Extend(tr', acts', UpdateEmail(c));
    } else if !tr'[|acts'|].callers[c].pc.Returned? {
      if tr'[|acts'|].callers[c].pc.Missed? {
        tr', acts' := Extend(tr', acts', Begin(c));
      }
      if tr'[|acts'|].callers[c].pc.Begun? {
        var tid := FreshId(tr'[|acts'|].issued);
        tr', acts' := Extend(tr', acts', InsertTenant(c, tid));
      }
      tr', acts' := BlockerCanCommit(tr', acts', c);
      tr', acts' := TransactionCanReturn(tr', acts', c);
    }
  }

  // However the others have been left, a call that is under way can always come back with a user.
  lemma CallCanReturn(tr: seq<State>, acts: seq<Action>, c: nat)
    returns (tr': seq<State>, acts': seq<Action>)
    requires IsRun(tr, acts) && c in tr[|acts|].callers && !tr[|acts|].callers[c].pc.Failed?
    ensures IsRun(tr', acts') && tr <= tr'
    ensures c in tr'[|acts'|].callers && tr'[|acts'|].callers[c].pc.Returned?
  {
    tr', acts' := tr, acts;
    InvAlong(tr, acts, |acts|);
    assert CallerOk(tr[|acts|], tr[|acts|].callers[c]);
    match tr[|acts|].callers[c].pc
    case Returned(_, _) =>
    case Inserted(_, _) => tr', acts' := Extend(tr, acts, Commit(c));
    case Lost(_) =>
      tr', acts' := Extend(tr, acts, Rollback(c));
      tr', acts' := RereadReturns(tr', acts', c);
    case RolledBack => tr', acts' := RereadReturns(tr, acts, c);
    case _ => tr', acts' := CallCanGoOn(tr, acts, c);
  }
}
