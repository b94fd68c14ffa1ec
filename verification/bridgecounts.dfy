// The counting semaphore that caps concurrent browser sessions, one counter per path string.
module BridgeCounts {
  const MAX_BRIDGES_PER_MACHINE := 16

  type Counts = map<string, nat>

  function CountOf(n: Counts, key: string): nat {
    if key in n then n[key] else 0
  }

  // The counts after one more session on key, when there is room for it.
  function Up(n: Counts, key: string): Counts {
    n[key := CountOf(n, key) + 1]
  }

  function Down(n: Counts, key: string): Counts {
    if CountOf(n, key) > 0 then n[key := CountOf(n, key) - 1] else n
  }

  class BridgeCounts {
    var n: Counts

    constructor ()
      ensures n == map[]
    {
      n := map[];
    }

    method Acquire(key: string) returns (ok: bool)
      modifies this
      ensures ok <==> CountOf(old(n), key) < 16
      ensures n == if ok then Up(old(n), key) else old(n)
    {
      if key in n && n[key] >= MAX_BRIDGES_PER_MACHINE {
        return false;
      }
      n := n[key := (if key in n then n[key] else 0) + 1];
      ok := true;
    }

    method Release(key: string)
      modifies this
      ensures n == Down(old(n), key)
    {
      if key in n && n[key] > 0 {
        n := n[key := n[key] - 1];
      }
    }
  }
}
