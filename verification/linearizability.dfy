// Linearizability of the first-login bootstrap: whatever the interleaving, the calls take effect
// one at a time, in an order that respects real time.
module Linearizability {
  import opened Wrappers
  import opened Users
  import opened Bootstrap

  // The index after making the logged calls one after the other, starting from no users.
  function Replay(log: seq<Call>): Index {
    if log == [] then map[]
    else
      var last := log[|log| - 1];
      GetOrCreate(Replay(log[..|log| - 1]), last.key, last.uid, last.tid).0
  }

  // Every logged call returns what the atomic get-or-create returns at its place in the order.
  predicate Sequential(log: seq<Call>) {
    forall i :: 0 <= i < |log| ==>
      log[i].result == GetOrCreate(Replay(log[..i]), log[i].key, log[i].uid, log[i].tid).1
  }

  lemma {:induction false} ReplaySnoc(log: seq<Call>, call: Call)
    ensures Replay(log + [call]) == GetOrCreate(Replay(log), call.key, call.uid, call.tid).0
  {
    assert (log + [call])[..|log|] == log;
  }

  lemma {:induction false} SequentialSnoc(log: seq<Call>, call: Call)
    requires Sequential(log)
    requires call.result == GetOrCreate(Replay(log), call.key, call.uid, call.tid).1
    ensures Sequential(log + [call])
  {
    var longer := log + [call];
    forall i | 0 <= i <= |log| ensures longer[..i] == log[..i] {}
  }

  predicate Logged(log: seq<Call>, c: nat, key: Key, result: (nat, nat)) {
    exists i :: 0 <= i < |log| && log[i].caller == c && log[i].key == key && log[i].result == result
  }

  predicate MayBeLogged(pc: Pc) {
    pc.Stale? || pc.Returned? || pc.Failed?
  }

  // Each caller is logged at most once, and only when its outcome is settled.
  predicate LoggedOnce(callers: map<nat, Caller>, log: seq<Call>) {
    && (forall i :: 0 <= i < |log| ==> log[i].caller in callers && MayBeLogged(callers[log[i].caller].pc))
    && (forall i, j :: 0 <= i < j < |log| ==> log[i].caller != log[j].caller)
  }

  predicate AnswerLogged(log: seq<Call>, c: nat, me: Caller) {
    && (me.pc.Stale? ==> Logged(log, c, me.key, (me.pc.uid, me.pc.row.tenant)))
    && (me.pc.Returned? ==> Logged(log, c, me.key, (me.pc.uid, me.pc.user.tenant)))
  }

  predicate LogInv(s: State) {
    && Indexes(Replay(s.log), s.users)
    && Sequential(s.log)
    && LoggedOnce(s.callers, s.log)
    && (forall c <- s.callers :: AnswerLogged(s.log, c, s.callers[c]))
  }

  lemma {:induction false} LoggedSnoc(log: seq<Call>, call: Call, c: nat, me: Caller)
    requires AnswerLogged(log, c, me)
    ensures AnswerLogged(log + [call], c, me)
  {
    forall i | 0 <= i < |log| ensures (log + [call])[i] == log[i] {}
  }

  lemma {:induction false} LoggedLast(log: seq<Call>, call: Call, c: nat, me: Caller)
    requires AnswerLogged([call], c, me)
    ensures AnswerLogged(log + [call], c, me)
  {
    assert (log + [call])[|log|] == [call][0];
  }

  lemma {:induction false} LoggedOnceSnoc(s: State, callers: map<nat, Caller>, c: nat, call: Call)
    requires LoggedOnce(s.callers, s.log) && c in s.callers && !MayBeLogged(s.callers[c].pc)
    requires c in callers && callers == s.callers[c := callers[c]] && MayBeLogged(callers[c].pc)
    requires call.caller == c
    ensures LoggedOnce(callers, s.log + [call])
  {
  }

  // A step that appends one call by caller c, which finds or creates the row.
  lemma LoggedInv(s: State, s': State, c: nat, call: Call)
    requires LogInv(s) && c in s.callers && !MayBeLogged(s.callers[c].pc)
    requires call.caller == c && s'.log == s.log + [call]
    requires call.result == GetOrCreate(Replay(s.log), call.key, call.uid, call.tid).1
    requires Indexes(GetOrCreate(Replay(s.log), call.key, call.uid, call.tid).0, s'.users)
    requires c in s'.callers && s'.callers == s.callers[c := s'.callers[c]]
    requires MayBeLogged(s'.callers[c].pc) && AnswerLogged([call], c, s'.callers[c])
    ensures LogInv(s')
  {
    ReplaySnoc(s.log, call);
    SequentialSnoc(s.log, call);
    LoggedOnceSnoc(s, s'.callers, c, call);
    forall d | d in s'.callers ensures AnswerLogged(s'.log, d, s'.callers[d]) {
      if d == c {
        LoggedLast(s.log, call, c, s'.callers[c]);
      } else {
        LoggedSnoc(s.log, call, d, s.callers[d]);
      }
    }
  }

  lemma ReadLogInv(s: State, a: Action)
    requires Inv(s) && LogInv(s) && Enabled(s, a) && (a.Read? || a.Reread?)
    requires Present(s.users, s.callers[a.c].key)
    ensures LogInv(Apply(s, a))
  {
    var s', c, me := Apply(s, a), a.c, s.callers[a.c];
    var uid := Select(s.users, me.key).value;
    FoundIndexes(Replay(s.log), s.users, uid, 0, 0);
    var call := Found(c, me.key, uid, s.users[uid]);
    assert [call][0] == call;
    LoggedInv(s, s', c, call);
  }

  lemma CommitLogInv(s: State, a: Action)
    requires Inv(s) && LogInv(s) && Enabled(s, a) && (a.Commit? || a.CommitUnseen?)
    ensures LogInv(Apply(s, a))
  {
    var s', c, me := Apply(s, a), a.c, s.callers[a.c];
    assert CallerOk(s, me);
    InsertIndexes(Replay(s.log), s.users, me.pc.uid, Row(s, c));
    var call := Call(c, me.key, me.pc.uid, me.pc.tid, (me.pc.uid, me.pc.tid));
    assert [call][0] == call;
    LoggedInv(s, s', c, call);
  }

  // A step that logs nothing, moves one caller, and leaves the identities as they are.
  lemma UnloggedMove(s: State, s': State, c: nat)
    requires LogInv(s) && s'.log == s.log && Indexes(Replay(s.log), s'.users)
    requires c in s'.callers && s'.callers == s.callers[c := s'.callers[c]]
    requires c in s.callers && MayBeLogged(s.callers[c].pc) ==> MayBeLogged(s'.callers[c].pc)
    requires AnswerLogged(s.log, c, s'.callers[c])
    ensures LogInv(s')
  {
  }

  ghost predicate Logs(s: State, a: Action)
    requires Enabled(s, a)
  {
    || a.Commit? || a.CommitUnseen?
    || ((a.Read? || a.Reread?) && Present(s.users, s.callers[a.c].key))
  }

  lemma EmailLogInv(s: State, a: Action)
    requires Inv(s) && LogInv(s) && Enabled(s, a) && SetsEmail(a)
    ensures LogInv(Apply(s, a))
  {
    var s', me := Apply(s, a), s.callers[a.c];
    assert AnswerLogged(s.log, a.c, me);
    EmailIndexes(Replay(s.log), s.users, me.pc.uid, me.email);
    assert s'.users == WithEmail(s.users, me.pc.uid, me.email);
    UnloggedMove(s, s', a.c);
  }

  lemma UnloggedFrame(s: State, a: Action)
    requires Enabled(s, a) && !Logs(s, a) && !SetsEmail(a)
    ensures var s' := Apply(s, a);
            && s'.log == s.log && s'.users == s.users
            && a.c in s'.callers && s'.callers == s.callers[a.c := s'.callers[a.c]]
            && !s'.callers[a.c].pc.Stale? && !s'.callers[a.c].pc.Returned?
            && (a.c in s.callers && MayBeLogged(s.callers[a.c].pc) ==> MayBeLogged(s'.callers[a.c].pc))
  {
  }

  lemma UnloggedInv(s: State, a: Action)
    requires LogInv(s) && Enabled(s, a) && !Logs(s, a) && !SetsEmail(a)
    ensures LogInv(Apply(s, a))
  {
    UnloggedFrame(s, a);
    UnloggedMove(s, Apply(s, a), a.c);
  }

  lemma StepLogInv(s: State, a: Action)
    requires Inv(s) && LogInv(s) && Enabled(s, a)
    ensures LogInv(Apply(s, a))
  {
    if a.Commit? || a.CommitUnseen? {
      CommitLogInv(s, a);
    } else if SetsEmail(a) {
      EmailLogInv(s, a);
    } else if Logs(s, a) {
      ReadLogInv(s, a);
    } else {
      UnloggedInv(s, a);
    }
  }

  lemma {:induction false} LogInvAlong(tr: seq<State>, acts: seq<Action>, k: nat)
    requires IsRun(tr, acts) && k < |tr|
    ensures LogInv(tr[k])
  {
    if k > 0 {
      InvAlong(tr, acts, k - 1);
      LogInvAlong(tr, acts, k - 1);
      StepLogInv(tr[k - 1], acts[k - 1]);
    }
  }

  // ---- Over whole runs ----

  // However callers interleave and fail, the table and every answer are those of the atomic
  // get-or-create run on the calls one at a time.
  lemma Linearizable(tr: seq<State>, acts: seq<Action>, k: nat)
    requires IsRun(tr, acts) && k < |tr|
    ensures Sequential(tr[k].log) && Indexes(Replay(tr[k].log), tr[k].users)
    ensures forall c <- tr[k].callers :: tr[k].callers[c].pc.Returned? ==>
              var me := tr[k].callers[c];
              Logged(tr[k].log, c, me.key, (me.pc.uid, me.pc.user.tenant))
    ensures forall i, j :: 0 <= i < j < |tr[k].log| ==> tr[k].log[i].caller != tr[k].log[j].caller
  {
    LogInvAlong(tr, acts, k);
  }

  lemma {:induction false} LogGrows(tr: seq<State>, acts: seq<Action>, i: nat, k: nat)
    requires IsRun(tr, acts) && i <= k < |tr|
    ensures tr[i].log <= tr[k].log
    decreases k - i
  {
    if i < k {
      LogGrows(tr, acts, i, k - 1);
    }
  }

  // The order respects real time: a call already logged precedes every call that enters later.
  lemma RealTimeOrder(tr: seq<State>, acts: seq<Action>, i: nat, k: nat, x: nat, y: nat)
    requires IsRun(tr, acts) && i <= k < |tr|
    requires x < |tr[k].log| && y < |tr[k].log|
    requires tr[k].log[x].caller in tr[i].callers && tr[i].callers[tr[k].log[x].caller].pc.Returned?
    requires tr[k].log[y].caller !in tr[i].callers
    ensures x < y
  {
    LogInvAlong(tr, acts, i);
    LogInvAlong(tr, acts, k);
    LogGrows(tr, acts, i, k);
    var c := tr[k].log[x].caller;
    var me := tr[i].callers[c];
    assert Logged(tr[i].log, c, me.key, (me.pc.uid, me.pc.user.tenant));
    var x' :| 0 <= x' < |tr[i].log| && tr[i].log[x'].caller == c;
    assert tr[k].log[x'] == tr[i].log[x'];
    assert x' == x;
    forall z | 0 <= z < |tr[i].log| ensures tr[k].log[z].caller in tr[i].callers {
      assert tr[k].log[z] == tr[i].log[z];
    }
  }
}
