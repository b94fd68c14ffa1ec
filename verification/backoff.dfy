// The CLI's reconnect loop: jittered exponential backoff until the context is cancelled.
// Durations are in nanoseconds.
module Backoff {
  const SECOND: nat := 1_000_000_000
  const MAX_BACKOFF: nat := 60 * SECOND

  // One turn of the loop, as the world decides it: whether the context is cancelled while the
  // tunnel is up or while the loop sleeps, and the random draw.
  datatype Turn = Turn(cancelledInTunnel: bool, cancelledInSleep: bool, draw: nat)

  function Pow2(k: nat): (p: nat)
    ensures p >= 1
  {
    if k == 0 then 1 else 2 * Pow2(k - 1)
  }

  function Min(a: nat, b: nat): nat {
    if a <= b then a else b
  }

  // The backoff after k reconnects, in closed form.
  function BackoffAfter(k: nat): (b: nat)
    ensures 1_000_000_000 <= b <= 60_000_000_000
  {
    Min(Pow2(k), 60) * SECOND
  }

  predicate Cancels(t: Turn) {
    t.cancelledInTunnel || t.cancelledInSleep
  }

  // Delay d is an admissible sleep for backoff b: half of it plus a draw below it.
  predicate Jittered(d: nat, b: nat) {
    b <= 2 * d && 2 * d < 3 * b
  }

  // The loop ends in turn t, the first that is cancelled: before its sleep or in it.
  predicate EndsAt(turns: seq<Turn>, t: nat, sleeps: nat) {
    && t < |turns| && Cancels(turns[t])
    && (forall k :: 0 <= k < t ==> !Cancels(turns[k]))
    && sleeps == if turns[t].cancelledInTunnel then t else t + 1
  }

  function Sum(delays: seq<nat>): nat {
    if delays == [] then 0 else Sum(delays[..|delays| - 1]) + delays[|delays| - 1]
  }

  lemma Doubling(k: nat)
    ensures BackoffAfter(k + 1) == Min(2 * BackoffAfter(k), MAX_BACKOFF)
  {
  }

  // Halving a backoff is exact.
  lemma EvenBackoff(k: nat)
    ensures 2 * (BackoffAfter(k) / 2) == BackoffAfter(k)
  {
  }

  // turns is what happens, turn by turn. delays are the completed or interrupted sleeps;
  // running: the turns ran out without a cancellation, so the loop would go on.
  method RunTunnel(turns: seq<Turn>) returns (delays: seq<nat>, running: bool, backoff: nat)
    requires forall k :: 0 <= k < |turns| ==> turns[k].draw < BackoffAfter(k)
    ensures running <==> forall k :: 0 <= k < |turns| ==> !Cancels(turns[k])
    ensures running ==> |delays| == |turns| && backoff == BackoffAfter(|turns|)
    ensures !running ==> exists t :: EndsAt(turns, t, |delays|) && backoff == BackoffAfter(t)
    ensures |delays| <= |turns|
    ensures forall k :: 0 <= k < |delays| ==> delays[k] == BackoffAfter(k) / 2 + turns[k].draw
    ensures forall k :: 0 <= k < |delays| ==> Jittered(delays[k], BackoffAfter(k)) && delays[k] < 90_000_000_000
  {
    backoff := SECOND;
    delays := [];
    for i := 0 to |turns|
      invariant |delays| == i
      invariant backoff == BackoffAfter(i)
      invariant forall k :: 0 <= k < i ==> !Cancels(turns[k])
      invariant forall k :: 0 <= k < i ==> delays[k] == BackoffAfter(k) / 2 + turns[k].draw
      invariant forall k :: 0 <= k < i ==> Jittered(delays[k], BackoffAfter(k)) && delays[k] < 90 * SECOND
    {
      Doubling(i);
      if turns[i].cancelledInTunnel {
        assert EndsAt(turns, i, |delays|);
        return delays, false, backoff;
      }
      EvenBackoff(i);
      var delay := backoff / 2 + turns[i].draw;
      delays := delays + [delay];
      if turns[i].cancelledInSleep {
        assert EndsAt(turns, i, |delays|);
        return delays, false, backoff;
      }
      backoff := backoff * 2;
      if backoff > MAX_BACKOFF {
        backoff := MAX_BACKOFF;
      }
    }
    running := true;
  }

  // The sum of the first n backoffs, in seconds.
  function TotalBackoff(n: nat): nat {
    if n <= 6 then Pow2(n) - 1 else 63 + 60 * (n - 6)
  }

  lemma {:induction false} PowMonotone(i: nat, j: nat)
    requires i <= j
    ensures Pow2(i) <= Pow2(j)
  {
    if i < j {
      PowMonotone(i, j - 1);
    }
  }

  lemma TotalStep(n: nat)
    ensures TotalBackoff(n + 1) * SECOND == TotalBackoff(n) * SECOND + BackoffAfter(n)
  {
    assert Pow2(5) == 32 && Pow2(6) == 64;
    if n >= 6 {
      PowMonotone(6, n);
    } else {
      PowMonotone(n, 5);
    }
  }

  // However the draws fall, n reconnects wait at least half and less than one and a half times
  // 2^n - 1 seconds while n is at most 6, and 63 + 60 (n - 6) seconds beyond.
  lemma {:induction false} TotalWait(delays: seq<nat>)
    requires forall k :: 0 <= k < |delays| ==> Jittered(delays[k], BackoffAfter(k))
    ensures TotalBackoff(|delays|) * SECOND <= 2 * Sum(delays)
    ensures delays != [] ==> 2 * Sum(delays) < 3 * (TotalBackoff(|delays|) * SECOND)
  {
    if delays != [] {
      var n := |delays| - 1;
      assert Jittered(delays[n], BackoffAfter(n));
      TotalWait(delays[..n]);
      TotalStep(n);
      if n == 0 {
        assert TotalBackoff(1) == Pow2(1) - 1;
      }
    }
  }
}
