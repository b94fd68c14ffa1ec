// Pending browser logins: an in-memory table with a time to live, lazily enforced by Get and in
// bulk by a background sweep, and single-use tokens. Times are instants of one monotone clock.
module Sessions {
  import opened Wrappers

  datatype Session = Session(provider: string, verifier: string, source: string, token: string, createdAt: int)

  type Table = map<string, Session>

  predicate Expired(s: Session, now: int, ttl: int) {
    now - s.createdAt > ttl
  }

  // The sessions that have not expired.
  function Live(t: Table, now: int, ttl: int): Table {
    map id | id in t && !Expired(t[id], now, ttl) :: t[id]
  }

  datatype Op =
    | Create(id: string, provider: string, verifier: string, source: string)
    | Get(id: string)
    | SetProvider(id: string, provider: string, verifier: string)
    | Complete(id: string, token: string)
    | Consume(id: string)
    | Sweep

  datatype Answer = Nothing | Found(session: Session) | Token(token: string)

  function After(t: Table, op: Op, now: int, ttl: int): Table {
    match op
    case Create(id, provider, verifier, source) => t[id := Session(provider, verifier, source, "", now)]
    case Get(id) => if id in t && Expired(t[id], now, ttl) then t - {id} else t
    case SetProvider(id, provider, verifier) =>
      if id in t then t[id := t[id].(provider := provider, verifier := verifier)] else t
    case Complete(id, token) => if id in t then t[id := t[id].(token := token)] else t
    case Consume(id) => if id in t && t[id].token != "" then t - {id} else t
    case Sweep => Live(t, now, ttl)
  }

  function Reply(t: Table, op: Op, now: int, ttl: int): Answer {
    match op
    case Get(id) => if id in t && !Expired(t[id], now, ttl) then Found(t[id]) else Nothing
    case Consume(id) => if id in t && t[id].token != "" then Token(t[id].token) else Nothing
    case _ => Nothing
  }

  class MemoryStore {
    var sessions: Table
    const ttl: int

    constructor (ttl: int)
      ensures this.ttl == ttl && sessions == map[]
    {
      this.ttl := ttl;
      sessions := map[];
    }

    method Create(id: string, provider: string, verifier: string, source: string, now: int)
      returns (s: Session)
      modifies this
      ensures sessions == After(old(sessions), Op.Create(id, provider, verifier, source), now, ttl)
      ensures sessions[id] == s
    {
      s := Session(provider, verifier, source, "", now);
      sessions := sessions[id := s];
    }

    method Get(id: string, now: int) returns (s: Option<Session>)
      modifies this
      ensures sessions == After(old(sessions), Op.Get(id), now, ttl)
      ensures Reply(old(sessions), Op.Get(id), now, ttl) == if s.Some? then Found(s.value) else Nothing
    {
      if id !in sessions {
        return None;
      }
      var found := sessions[id];
      if now - found.createdAt > ttl {
        sessions := sessions - {id};
        return None;
      }
      s := Some(found);
    }

    method SetProvider(id: string, provider: string, verifier: string, now: int)
      modifies this
      ensures sessions == After(old(sessions), Op.SetProvider(id, provider, verifier), now, ttl)
    {
      if id in sessions {
        sessions := sessions[id := sessions[id].(provider := provider, verifier := verifier)];
      }
    }

    method Complete(id: string, token: string, now: int)
      modifies this
      ensures sessions == After(old(sessions), Op.Complete(id, token), now, ttl)
    {
      if id in sessions {
        sessions := sessions[id := sessions[id].(token := token)];
      }
    }

    method Consume(id: string, now: int) returns (token: Option<string>)
      modifies this
      ensures sessions == After(old(sessions), Op.Consume(id), now, ttl)
      ensures Reply(old(sessions), Op.Consume(id), now, ttl) == if token.Some? then Token(token.value) else Nothing
    {
      if id !in sessions || sessions[id].token == "" {
        return None;
      }
      token := Some(sessions[id].token);
      sessions := sessions - {id};
    }

    // One tick of the background sweep. The map may be walked in any order.
    method Cleanup(now: int)
      modifies this
      ensures sessions == After(old(sessions), Sweep, now, ttl)
    {
      ghost var before := sessions;
      var rest := sessions.Keys;
      while rest != {}
        invariant rest <= sessions.Keys <= before.Keys
        invariant forall id <- sessions :: sessions[id] == before[id]
        invariant forall id <- before :: id in sessions <==> id in rest || !Expired(before[id], now, ttl)
      {
        var id :| id in rest;
        if now - sessions[id].createdAt > ttl {
          sessions := sessions - {id};
        }
        rest := rest - {id};
      }
    }
  }

  // ---- Histories ----

  // One operation and when it took effect.
  datatype Timed = Timed(op: Op, at: int)

  predicate Ordered(ops: seq<Timed>) {
    forall i, j :: 0 <= i < j < |ops| ==> ops[i].at <= ops[j].at
  }

  // The table after the first n operations.
  function TableAt(start: Table, ops: seq<Timed>, n: nat, ttl: int): Table
    requires n <= |ops|
  {
    if n == 0 then start else After(TableAt(start, ops, n - 1, ttl), ops[n - 1].op, ops[n - 1].at, ttl)
  }

  function ReplyAt(start: Table, ops: seq<Timed>, n: nat, ttl: int): Answer
    requires n < |ops|
  {
    Reply(TableAt(start, ops, n, ttl), ops[n].op, ops[n].at, ttl)
  }

  // ---- The sweep is invisible ----

  // What a client may rely on: the answer, except for Consume on an id that is not live, whose
  // answer depends on whether a sweep has come by.
  datatype Observation = Seen(answer: Answer) | Unspecified

  function Observe(t: Table, op: Op, now: int, ttl: int): Observation {
    if op.Consume? && op.id !in Live(t, now, ttl) then Unspecified else Seen(Reply(t, op, now, ttl))
  }

  // Everything clients observe, in order. Sweeps are not client operations.
  function Observations(start: Table, ops: seq<Timed>, ttl: int): seq<Observation>
    decreases |ops|
  {
    if ops == [] then []
    else
      var rest := Observations(After(start, ops[0].op, ops[0].at, ttl), ops[1..], ttl);
      if ops[0].op.Sweep? then rest else [Observe(start, ops[0].op, ops[0].at, ttl)] + rest
  }

  function WithoutSweeps(ops: seq<Timed>): seq<Timed> {
    if ops == [] then []
    else if ops[0].op.Sweep? then WithoutSweeps(ops[1..])
    else [ops[0]] + WithoutSweeps(ops[1..])
  }

  // Agreement on live sessions is never lost as time passes.
  lemma LiveLater(t1: Table, t2: Table, earlier: int, now: int, ttl: int)
    requires Live(t1, earlier, ttl) == Live(t2, earlier, ttl) && earlier <= now
    ensures Live(t1, now, ttl) == Live(t2, now, ttl)
  {
    forall id ensures id in Live(t1, now, ttl) <==> id in Live(t2, now, ttl) {
      assert id in Live(t1, now, ttl) ==> id in Live(t1, earlier, ttl);
      assert id in Live(t2, now, ttl) ==> id in Live(t2, earlier, ttl);
    }
    forall id | id in Live(t1, now, ttl) ensures Live(t1, now, ttl)[id] == Live(t2, now, ttl)[id] {
      assert Live(t1, earlier, ttl)[id] == Live(t2, earlier, ttl)[id];
    }
  }

  // The live part of the outcome depends on the live part of the table only.
  lemma LiveAfter(t: Table, op: Op, now: int, ttl: int)
    ensures Live(After(t, op, now, ttl), now, ttl) == Live(After(Live(t, now, ttl), op, now, ttl), now, ttl)
  {
  }

  // Tables that agree on live sessions are observed alike and still agree after any operation.
  lemma LiveBisimulation(t1: Table, t2: Table, op: Op, now: int, ttl: int)
    requires Live(t1, now, ttl) == Live(t2, now, ttl)
    ensures Observe(t1, op, now, ttl) == Observe(t2, op, now, ttl)
    ensures Live(After(t1, op, now, ttl), now, ttl) == Live(After(t2, op, now, ttl), now, ttl)
  {
    LiveAfter(t1, op, now, ttl);
    LiveAfter(t2, op, now, ttl);
    if !op.Sweep? && op.id in Live(t1, now, ttl) {
      assert t1[op.id] == Live(t1, now, ttl)[op.id] == Live(t2, now, ttl)[op.id] == t2[op.id];
    }
  }

  // Removing every sweep from any history changes nothing that clients observe, whatever table
  // it starts from and whatever expired entries that table carries.
  lemma {:induction false} SweepsInvisible(t1: Table, t2: Table, ops: seq<Timed>, now: int, ttl: int)
    requires Ordered(ops) && (ops != [] ==> now <= ops[0].at)
    requires Live(t1, now, ttl) == Live(t2, now, ttl)
    ensures Observations(t1, ops, ttl) == Observations(t2, WithoutSweeps(ops), ttl)
    decreases |ops|
  {
    if ops != [] {
      var op, at, rest := ops[0].op, ops[0].at, ops[1..];
      LiveLater(t1, t2, now, at, ttl);
      assert Ordered(rest);
      if op.Sweep? {
        assert Live(Live(t1, at, ttl), at, ttl) == Live(t1, at, ttl);
        SweepsInvisible(After(t1, op, at, ttl), t2, rest, at, ttl);
      } else {
        LiveBisimulation(t1, t2, op, at, ttl);
        SweepsInvisible(After(t1, op, at, ttl), After(t2, op, at, ttl), rest, at, ttl);
        var kept := WithoutSweeps(ops);
        assert kept[0] == ops[0] && kept[1..] == WithoutSweeps(rest);
      }
    }
  }

  // ---- Where sessions and tokens come from ----

  predicate IsCreate(ops: seq<Timed>, c: nat, id: string) {
    c < |ops| && ops[c].op.Create? && ops[c].op.id == id
  }

  predicate CreatedBefore(ops: seq<Timed>, n: nat, id: string)
    requires n <= |ops|
  {
    exists k :: 0 <= k < n && IsCreate(ops, k, id)
  }

  // Session ids are freshly generated: no two creates get the same one.
  predicate FreshIds(ops: seq<Timed>) {
    forall i, j :: 0 <= i < j < |ops| && ops[i].op.Create? && ops[j].op.Create? ==>
      ops[i].op.id != ops[j].op.id
  }

  // Only Create makes the table larger.
  lemma OnlyCreateEnlarges(t: Table, op: Op, now: int, ttl: int)
    ensures After(t, op, now, ttl).Keys <= t.Keys + (if op.Create? then {op.id} else {})
    ensures !op.Create? ==> forall id <- After(t, op, now, ttl) ::
              After(t, op, now, ttl)[id].createdAt == t[id].createdAt
  {
  }

  lemma {:induction false} PresentWasCreated(ops: seq<Timed>, n: nat, ttl: int, id: string)
    requires n <= |ops| && id in TableAt(map[], ops, n, ttl)
    ensures CreatedBefore(ops, n, id)
  {
    OnlyCreateEnlarges(TableAt(map[], ops, n - 1, ttl), ops[n - 1].op, ops[n - 1].at, ttl);
    if id in TableAt(map[], ops, n - 1, ttl) {
      PresentWasCreated(ops, n - 1, ttl, id);
    } else {
      assert IsCreate(ops, n - 1, id);
    }
  }

  // Operation n hands out a token for id.
  predicate HandsOut(ops: seq<Timed>, n: nat, ttl: int, id: string)
    requires n < |ops|
  {
    ops[n].op == Consume(id) && ReplyAt(map[], ops, n, ttl).Token?
  }

  // Operation k completes id with token, and no later one before n completes it again.
  predicate LastComplete(ops: seq<Timed>, k: nat, n: nat, id: string, token: string)
    requires n <= |ops|
  {
    && k < n && ops[k].op == Complete(id, token)
    && forall m :: k < m < n ==> !(ops[m].op.Complete? && ops[m].op.id == id)
  }

  lemma {:induction false} TokenIsLatest(ops: seq<Timed>, n: nat, ttl: int, id: string)
    requires n <= |ops| && id in TableAt(map[], ops, n, ttl) && TableAt(map[], ops, n, ttl)[id].token != ""
    ensures exists k :: LastComplete(ops, k, n, id, TableAt(map[], ops, n, ttl)[id].token)
  {
    var token := TableAt(map[], ops, n, ttl)[id].token;
    var op, before := ops[n - 1].op, TableAt(map[], ops, n - 1, ttl);
    if op == Complete(id, token) {
      assert LastComplete(ops, n - 1, n, id, token);
    } else {
      assert id in before && before[id].token == token;
      TokenIsLatest(ops, n - 1, ttl, id);
      var k :| LastComplete(ops, k, n - 1, id, token);
      assert LastComplete(ops, k, n, id, token);
    }
  }

  // What a poll hands out is the token of the latest completion of that session.
  lemma HandsOutLatestToken(ops: seq<Timed>, n: nat, ttl: int, id: string)
    requires n < |ops| && HandsOut(ops, n, ttl, id)
    ensures exists k :: LastComplete(ops, k, n, id, ReplyAt(map[], ops, n, ttl).token)
  {
    TokenIsLatest(ops, n, ttl, id);
  }

  // ---- How long a session is there ----

  // The last completion of id before operation n comes after its create at c, and has a token.
  predicate Completed(ops: seq<Timed>, c: nat, n: nat, id: string)
    requires n <= |ops|
  {
    exists k ::
      && c < k < n && ops[k].op.Complete? && ops[k].op.token != ""
      && LastComplete(ops, k, n, id, ops[k].op.token)
  }

  // Operation m ends the session created at c: a sweep, or a Get of it, after its time to live,
  // or the poll of a completed session. Completing it late does not, nor does polling it early.
  predicate Removes(ops: seq<Timed>, c: nat, m: nat, ttl: int, id: string)
    requires c < m < |ops|
  {
    || ((ops[m].op.Sweep? || ops[m].op == Get(id)) && ops[m].at - ops[c].at > ttl)
    || (ops[m].op == Consume(id) && Completed(ops, c, m, id))
  }

  lemma CompletedStep(ops: seq<Timed>, c: nat, n: nat, id: string)
    requires c < n < |ops|
    ensures Completed(ops, c, n + 1, id)
       <==> if ops[n].op.Complete? && ops[n].op.id == id then ops[n].op.token != "" else Completed(ops, c, n, id)
  {
    if ops[n].op.Complete? && ops[n].op.id == id {
      assert LastComplete(ops, n, n + 1, id, ops[n].op.token);
    } else {
      forall k: nat | c < k < n && ops[k].op.Complete?
        ensures LastComplete(ops, k, n + 1, id, ops[k].op.token) <==> LastComplete(ops, k, n, id, ops[k].op.token)
      {}
    }
  }

  // From its create on, a session is in the table if and only if nothing has removed it: its age
  // alone does not take it out.
  lemma {:induction false} PresentUntilRemoved(ops: seq<Timed>, c: nat, n: nat, ttl: int, id: string)
    requires FreshIds(ops) && IsCreate(ops, c, id) && c < n <= |ops|
    ensures id in TableAt(map[], ops, n, ttl) <==> forall m :: c < m < n ==> !Removes(ops, c, m, ttl, id)
    ensures id in TableAt(map[], ops, n, ttl) ==>
              && TableAt(map[], ops, n, ttl)[id].createdAt == ops[c].at
              && (TableAt(map[], ops, n, ttl)[id].token != "" <==> Completed(ops, c, n, id))
  {
    if c < n - 1 {
      PresentUntilRemoved(ops, c, n - 1, ttl, id);
      CompletedStep(ops, c, n - 1, id);
      assert !IsCreate(ops, n - 1, id);
      assert id in TableAt(map[], ops, n - 1, ttl) ==>
               (id in TableAt(map[], ops, n, ttl) <==> !Removes(ops, c, n - 1, ttl, id));
    }
  }

  // So a session that is out of the table, however it went, never comes back: no later completion
  // or choice of provider puts it there again.
  lemma {:induction false} NoResurrection(ops: seq<Timed>, i: nat, j: nat, ttl: int, id: string)
    requires FreshIds(ops) && i <= j <= |ops|
    requires CreatedBefore(ops, i, id) && id !in TableAt(map[], ops, i, ttl)
    ensures id !in TableAt(map[], ops, j, ttl)
  {
    var c: nat :| c < i && IsCreate(ops, c, id);
    PresentUntilRemoved(ops, c, i, ttl, id);
    PresentUntilRemoved(ops, c, j, ttl, id);
  }

  // A poll gets the token if and only if it comes after a create and a completion of its session,
  // and nothing in between has removed the session.
  lemma HandsOutExactlyWhen(ops: seq<Timed>, c: nat, n: nat, ttl: int, id: string)
    requires FreshIds(ops) && IsCreate(ops, c, id) && n < |ops|
    ensures HandsOut(ops, n, ttl, id)
       <==> && c < n && ops[n].op == Consume(id) && Completed(ops, c, n, id)
            && forall m :: c < m < n ==> !Removes(ops, c, m, ttl, id)
  {
    if c < n {
      PresentUntilRemoved(ops, c, n, ttl, id);
    } else if HandsOut(ops, n, ttl, id) {
      PresentWasCreated(ops, n, ttl, id);
    }
  }

  // Over a whole history, at most one poll of a session gets its token.
  lemma SingleUse(ops: seq<Timed>, i: nat, j: nat, ttl: int, id: string)
    requires FreshIds(ops) && i < |ops| && j < |ops|
    requires HandsOut(ops, i, ttl, id) && HandsOut(ops, j, ttl, id)
    ensures i == j
  {
    PresentWasCreated(ops, i, ttl, id);
    var c: nat :| c < i && IsCreate(ops, c, id);
    HandsOutExactlyWhen(ops, c, i, ttl, id);
    HandsOutExactlyWhen(ops, c, j, ttl, id);
    assert Removes(ops, c, i, ttl, id) && Removes(ops, c, j, ttl, id);
  }

  // So a poll right after a completion depends on the operations before the completion only, and
  // not on the time: a session that has expired is completed and handed out all the same, unless
  // a sweep or a Get has noticed.
  lemma CompletedThenPolled(ops: seq<Timed>, c: nat, n: nat, ttl: int, id: string, token: string)
    requires FreshIds(ops) && IsCreate(ops, c, id) && c < n < |ops| - 1
    requires ops[n].op == Complete(id, token) && token != "" && ops[n + 1].op == Consume(id)
    ensures HandsOut(ops, n + 1, ttl, id) <==> forall m :: c < m < n ==> !Removes(ops, c, m, ttl, id)
  {
    HandsOutExactlyWhen(ops, c, n + 1, ttl, id);
    CompletedStep(ops, c, n, id);
  }

  // The provider and verifier last put into the session created at c, before operation n.
  function LastChoice(ops: seq<Timed>, c: nat, n: nat, id: string): (string, string)
    requires IsCreate(ops, c, id) && c < n <= |ops|
  {
    if n == c + 1 then (ops[c].op.provider, ops[c].op.verifier)
    else if ops[n - 1].op.SetProvider? && ops[n - 1].op.id == id
    then (ops[n - 1].op.provider, ops[n - 1].op.verifier)
    else LastChoice(ops, c, n - 1, id)
  }

  // The token last stored in it, or none.
  function LastToken(ops: seq<Timed>, c: nat, n: nat, id: string): string
    requires IsCreate(ops, c, id) && c < n <= |ops|
  {
    if n == c + 1 then ""
    else if ops[n - 1].op.Complete? && ops[n - 1].op.id == id then ops[n - 1].op.token
    else LastToken(ops, c, n - 1, id)
  }

  // What the history says is in the session created at c.
  function SessionAt(ops: seq<Timed>, c: nat, n: nat, id: string): Session
    requires IsCreate(ops, c, id) && c < n <= |ops|
  {
    var (provider, verifier) := LastChoice(ops, c, n, id);
    Session(provider, verifier, ops[c].op.source, LastToken(ops, c, n, id), ops[c].at)
  }

  lemma {:induction false} ContentIsHistory(ops: seq<Timed>, c: nat, n: nat, ttl: int, id: string)
    requires FreshIds(ops) && IsCreate(ops, c, id) && c < n <= |ops|
    requires id in TableAt(map[], ops, n, ttl)
    ensures TableAt(map[], ops, n, ttl)[id] == SessionAt(ops, c, n, id)
    decreases n
  {
    if c < n - 1 {
      assert !IsCreate(ops, n - 1, id);
      OnlyCreateEnlarges(TableAt(map[], ops, n - 1, ttl), ops[n - 1].op, ops[n - 1].at, ttl);
      ContentIsHistory(ops, c, n - 1, ttl, id);
    }
  }

  // Get finds a session if and only if nothing has removed it and its time to live has not passed,
  // and finds what was last put into it.
  lemma GetFindsExactlyLive(ops: seq<Timed>, c: nat, n: nat, ttl: int, id: string)
    requires FreshIds(ops) && IsCreate(ops, c, id) && c < n < |ops| && ops[n].op == Get(id)
    ensures ReplyAt(map[], ops, n, ttl)
         == if (forall m :: c < m < n ==> !Removes(ops, c, m, ttl, id)) && ops[n].at - ops[c].at <= ttl
            then Found(SessionAt(ops, c, n, id)) else Nothing
  {
    PresentUntilRemoved(ops, c, n, ttl, id);
    if id in TableAt(map[], ops, n, ttl) {
      ContentIsHistory(ops, c, n, ttl, id);
    }
  }

  // And a poll that succeeds gets the token last stored.
  lemma PollGetsLastToken(ops: seq<Timed>, c: nat, n: nat, ttl: int, id: string)
    requires FreshIds(ops) && IsCreate(ops, c, id) && c < n < |ops| && HandsOut(ops, n, ttl, id)
    ensures ReplyAt(map[], ops, n, ttl) == Token(LastToken(ops, c, n, id)) && LastToken(ops, c, n, id) != ""
  {
    ContentIsHistory(ops, c, n, ttl, id);
  }

  // ---- Age of a token ----

  // In nanoseconds.
  const SWEEP_PERIOD: nat := 30_000_000_000

  // A sweep is never more than a period away from an operation, counting from the start at 0.
  predicate SweptRegularly(ops: seq<Timed>) {
    forall n :: 0 <= n < |ops| && ops[n].at > SWEEP_PERIOD ==>
      exists k :: 0 <= k < n && ops[k].op.Sweep? && ops[n].at - ops[k].at <= SWEEP_PERIOD
  }

  // What survives a sweep, or is created after it, was young enough when the sweep ran.
  lemma {:induction false} YoungAtSweep(ops: seq<Timed>, k: nat, n: nat, ttl: int, id: string)
    requires Ordered(ops) && k < n <= |ops| && ops[k].op.Sweep? && ttl >= 0
    requires id in TableAt(map[], ops, n, ttl)
    ensures ops[k].at - TableAt(map[], ops, n, ttl)[id].createdAt <= ttl
    decreases n
  {
    if k < n - 1 {
      OnlyCreateEnlarges(TableAt(map[], ops, n - 1, ttl), ops[n - 1].op, ops[n - 1].at, ttl);
      if !(ops[n - 1].op.Create? && ops[n - 1].op.id == id) {
        YoungAtSweep(ops, k, n - 1, ttl, id);
      }
    }
  }

  lemma {:induction false} CreatedAfterStart(ops: seq<Timed>, n: nat, ttl: int, id: string)
    requires n <= |ops| && (forall i :: 0 <= i < |ops| ==> ops[i].at >= 0)
    requires id in TableAt(map[], ops, n, ttl)
    ensures TableAt(map[], ops, n, ttl)[id].createdAt >= 0
  {
    OnlyCreateEnlarges(TableAt(map[], ops, n - 1, ttl), ops[n - 1].op, ops[n - 1].at, ttl);
    if !(ops[n - 1].op.Create? && ops[n - 1].op.id == id) {
      CreatedAfterStart(ops, n - 1, ttl, id);
    }
  }

  // Although Consume does not look at the age, the sweep bounds it.
  lemma TokenAgeBounded(ops: seq<Timed>, n: nat, ttl: int, id: string)
    requires Ordered(ops) && SweptRegularly(ops) && ttl >= 0
    requires forall i :: 0 <= i < |ops| ==> ops[i].at >= 0
    requires n < |ops| && HandsOut(ops, n, ttl, id)
    ensures ops[n].at - TableAt(map[], ops, n, ttl)[id].createdAt <= ttl + 30_000_000_000
  {
    if ops[n].at > SWEEP_PERIOD {
      var k :| 0 <= k < n && ops[k].op.Sweep? && ops[n].at - ops[k].at <= SWEEP_PERIOD;
      YoungAtSweep(ops, k, n, ttl, id);
    } else {
      CreatedAfterStart(ops, n, ttl, id);
    }
  }

  // A history that attains the bound: n sweeps, of which the last finds the session exactly ttl
  // old, then silence for a period, and at its end the completion and the poll.
  function LatePoll(ttl: nat, n: nat): (ops: seq<Timed>)
    ensures |ops| == n + 3
    ensures ops[0] == Timed(Create("s", "", "", "cli"), SWEEP_PERIOD * n - ttl)
    ensures forall k :: 1 <= k <= n ==> ops[k] == Timed(Sweep, SWEEP_PERIOD * k)
    ensures ops[n + 1] == Timed(Complete("s", "t"), SWEEP_PERIOD * n + SWEEP_PERIOD)
    ensures ops[n + 2] == Timed(Consume("s"), SWEEP_PERIOD * n + SWEEP_PERIOD)
  {
    [Timed(Create("s", "", "", "cli"), SWEEP_PERIOD * n - ttl)]
    + seq(n, i => Timed(Sweep, SWEEP_PERIOD * (i + 1)))
    + [Timed(Complete("s", "t"), SWEEP_PERIOD * n + SWEEP_PERIOD)]
    + [Timed(Consume("s"), SWEEP_PERIOD * n + SWEEP_PERIOD)]
  }

  // n sweeps are as many as fit: the session is created within a period of the start.
  predicate Fits(ttl: nat, n: nat) {
    0 <= SWEEP_PERIOD * n - ttl < SWEEP_PERIOD
  }

  // It is in time order, from the start on.
  lemma LatePollOrdered(ttl: nat, n: nat, ops: seq<Timed>)
    requires Fits(ttl, n) && ops == LatePoll(ttl, n)
    ensures Ordered(ops) && FreshIds(ops)
    ensures forall i :: 0 <= i < |ops| ==> ops[i].at >= 0
  {
  }

  // And it is regularly swept, as the bound supposes.
  lemma LatePollSwept(ttl: nat, n: nat, ops: seq<Timed>)
    requires Fits(ttl, n) && ops == LatePoll(ttl, n)
    ensures SweptRegularly(ops)
  {
    forall m | 0 <= m < |ops| && ops[m].at > SWEEP_PERIOD
      ensures exists k :: 0 <= k < m && ops[k].op.Sweep? && ops[m].at - ops[k].at <= SWEEP_PERIOD
    {
      var k := if m == n + 2 then n else m - 1;
      assert ops[k].op.Sweep? && ops[m].at - ops[k].at <= SWEEP_PERIOD;
    }
  }

  // No sweep finds the session expired.
  lemma LatePollKept(ttl: nat, n: nat, ops: seq<Timed>)
    requires Fits(ttl, n) && ops == LatePoll(ttl, n)
    ensures forall m :: 0 < m <= n ==> !Removes(ops, 0, m, ttl, "s")
    ensures IsCreate(ops, 0, "s") && ops[n + 1].at - ops[0].at == ops[n + 2].at - ops[0].at == ttl + SWEEP_PERIOD
  {
  }

  // A session completed late, which no sweep and no Get has noticed, is handed out at its age.
  lemma LateCompletion(ops: seq<Timed>, n: nat, ttl: int, id: string, token: string)
    requires FreshIds(ops) && IsCreate(ops, 0, id) && 0 < n < |ops| - 1
    requires ops[n].op == Complete(id, token) && token != "" && ops[n + 1].op == Consume(id)
    requires forall m :: 0 < m < n ==> !Removes(ops, 0, m, ttl, id)
    requires ops[n].at - ops[0].at > ttl && ops[n + 1].at - ops[0].at > ttl
    ensures id in TableAt(map[], ops, n, ttl) && Expired(TableAt(map[], ops, n, ttl)[id], ops[n].at, ttl)
    ensures HandsOut(ops, n + 1, ttl, id)
    ensures TableAt(map[], ops, n + 1, ttl)[id].createdAt == ops[0].at
    ensures Reply(TableAt(map[], ops, n + 1, ttl), Get(id), ops[n + 1].at, ttl) == Nothing
  {
    PresentUntilRemoved(ops, 0, n, ttl, id);
    CompletedThenPolled(ops, 0, n, ttl, id, token);
    PresentUntilRemoved(ops, 0, n + 1, ttl, id);
  }

  // The bound is attained for every time to live, by a session that is completed only after it
  // has expired and that Get would refuse.
  lemma BoundAttained(ttl: nat) returns (ops: seq<Timed>, n: nat)
    ensures Ordered(ops) && SweptRegularly(ops) && FreshIds(ops)
    ensures forall i :: 0 <= i < |ops| ==> ops[i].at >= 0
    ensures n + 1 < |ops| && ops[n].op == Complete("s", "t")
    ensures "s" in TableAt(map[], ops, n, ttl) && Expired(TableAt(map[], ops, n, ttl)["s"], ops[n].at, ttl)
    ensures HandsOut(ops, n + 1, ttl, "s")
    ensures ops[n + 1].at - TableAt(map[], ops, n + 1, ttl)["s"].createdAt == ttl + SWEEP_PERIOD
    ensures Reply(TableAt(map[], ops, n + 1, ttl), Get("s"), ops[n + 1].at, ttl) == Nothing
  {
    var sweeps := (ttl + SWEEP_PERIOD - 1) / SWEEP_PERIOD;
    assert Fits(ttl, sweeps);
    ops, n := LatePoll(ttl, sweeps), sweeps + 1;
    LatePollOrdered(ttl, sweeps, ops);
    LatePollSwept(ttl, sweeps, ops);
    LatePollKept(ttl, sweeps, ops);
    LateCompletion(ops, n, ttl, "s", "t");
  }
}
