/** Server selection: round robin over a shared cursor, random, and a least-connections stub. */
module LoadBalancing {

  const RoundRobin: string := "Round Robin"
  const LeastConnections: string := "Least Connections"
  const Random: string := "Random"

  /** The cursor after `n` round-robin selections starting from `cursor` over a fixed list. */
  function CursorAfter(active: seq<int>, cursor: nat, n: nat): (r: nat)
    requires cursor < |active|
    ensures r < |active|
  {
    if n == 0 then cursor else (CursorAfter(active, cursor, n - 1) + 1) % |active|
  }

  /** The servers returned by `n` round-robin selections starting from `cursor` over a fixed list. */
  function RoundRobinRun(active: seq<int>, cursor: nat, n: nat): (picks: seq<int>)
    requires cursor < |active|
    ensures |picks| == n
    ensures forall j :: 0 <= j < n ==> picks[j] in active
  {
    if n == 0 then [] else RoundRobinRun(active, cursor, n - 1) + [active[CursorAfter(active, cursor, n - 1)]]
  }

  /** One cursor step inside the list: up by one, or back to 0 from the last index. */
  lemma CursorStep(x: nat, m: nat)
    requires x < m
    ensures (x + 1) % m == if x + 1 == m then 0 else x + 1
  {
  }

  /** Before the cursor passes the end of the list it just counts up. */
  lemma {:induction false} CursorAfterBeforeWrap(active: seq<int>, cursor: nat, n: nat)
    requires cursor + n < |active|
    ensures CursorAfter(active, cursor, n) == cursor + n
  {
    if n > 0 {
      CursorAfterBeforeWrap(active, cursor, n - 1);
      CursorStep(cursor + n - 1, |active|);
    }
  }

  /** Within one lap after passing the end, the cursor counts up from 0. */
  lemma {:induction false} CursorAfterWrapped(active: seq<int>, cursor: nat, n: nat)
    requires cursor < |active| <= cursor + n <= cursor + |active|
    ensures CursorAfter(active, cursor, n) == cursor + n - |active|
  {
    if cursor + n == |active| {
      CursorAfterBeforeWrap(active, cursor, n - 1);
      CursorStep(cursor + n - 1, |active|);
    } else {
      CursorAfterWrapped(active, cursor, n - 1);
      CursorStep(cursor + n - 1 - |active|, |active|);
    }
  }

  /** A positive multiple of a positive number is at least that number. */
  lemma {:induction false} MultipleAtLeast(k: int, m: int)
    requires 0 < m && 0 < k
    ensures k * m >= m
  {
    if k > 1 {
      MultipleAtLeast(k - 1, m);
      assert k * m == (k - 1) * m + m;
    }
  }

  /** Euclidean division leaves remainder `r` when `a` is `q` multiples of `m` plus `r`. */
  lemma ModOfMultiplePlus(a: int, q: int, m: int, r: int)
    requires 0 < m && 0 <= r < m && a == q * m + r
    ensures a % m == r
  {
    var d := a / m;
    var e := a % m;
    assert a == d * m + e;
    assert (q - d) * m == e - r;
    if q - d > 0 {
      MultipleAtLeast(q - d, m);
    } else if q - d < 0 {
      assert (d - q) * m == r - e;
      MultipleAtLeast(d - q, m);
    }
  }

  /** Taking the remainder before or after a step of one gives the same cursor. */
  lemma ModStep(x: nat, m: nat)
    requires 0 < m
    ensures (x % m + 1) % m == (x + 1) % m
  {
    var q := x / m;
    var r := x % m;
    assert x == q * m + r;
    if r + 1 < m {
      ModOfMultiplePlus(x + 1, q, m, r + 1);
      ModOfMultiplePlus(r + 1, 0, m, r + 1);
    } else {
      ModOfMultiplePlus(x + 1, q + 1, m, 0);
      ModOfMultiplePlus(r + 1, 1, m, 0);
    }
  }

  /** After any number of selections the cursor is the start plus that number, modulo the list length. */
  lemma {:induction false} CursorAfterIsModulo(active: seq<int>, cursor: nat, n: nat)
    requires cursor < |active|
    ensures CursorAfter(active, cursor, n) == (cursor + n) % |active|
  {
    if n == 0 {
      ModOfMultiplePlus(cursor, 0, |active|, cursor);
    } else {
      CursorAfterIsModulo(active, cursor, n - 1);
      ModStep(cursor + n - 1, |active|);
    }
  }

  /** Selection `j` of a run is the server under the cursor after `j` selections: position (cursor + j) mod the length. */
  lemma {:induction false} RoundRobinRunAt(active: seq<int>, cursor: nat, n: nat, j: nat)
    requires cursor < |active| && j < n
    ensures RoundRobinRun(active, cursor, n)[j] == active[CursorAfter(active, cursor, j)]
    ensures RoundRobinRun(active, cursor, n)[j] == active[(cursor + j) % |active|]
  {
    if j < n - 1 {
      RoundRobinRunAt(active, cursor, n - 1, j);
    }
    CursorAfterIsModulo(active, cursor, j);
  }

  /** A run is a prefix of any longer run from the same cursor. */
  lemma {:induction false} RoundRobinRunPrefix(active: seq<int>, cursor: nat, n: nat, k: nat)
    requires cursor < |active| && k <= n
    ensures RoundRobinRun(active, cursor, n)[..k] == RoundRobinRun(active, cursor, k)
  {
    if k < n {
      RoundRobinRunPrefix(active, cursor, n - 1, k);
      assert RoundRobinRun(active, cursor, n)[..n - 1] == RoundRobinRun(active, cursor, n - 1);
    }
  }

  /**
   * Fairness: |active| consecutive selections visit the list once, as a rotation starting at
   * the cursor, so every id is returned as often as it occurs in the list (exactly once for
   * distinct ids), and the cursor is back where it started.
   */
  lemma RoundRobinVisitsEachOnce(active: seq<int>, cursor: nat)
    requires cursor < |active|
    ensures RoundRobinRun(active, cursor, |active|) == active[cursor..] + active[..cursor]
    ensures multiset(RoundRobinRun(active, cursor, |active|)) == multiset(active)
    ensures CursorAfter(active, cursor, |active|) == cursor
  {
    var m := |active|;
    var run := RoundRobinRun(active, cursor, m);
    var rotation := active[cursor..] + active[..cursor];
    forall j | 0 <= j < m
      ensures run[j] == rotation[j]
    {
      RoundRobinRunAt(active, cursor, m, j);
      if cursor + j < m {
        CursorAfterBeforeWrap(active, cursor, j);
      } else {
        CursorAfterWrapped(active, cursor, j);
      }
    }
    assert run == rotation;
    assert active == active[..cursor] + active[cursor..];
    assert multiset(run) == multiset(active[cursor..]) + multiset(active[..cursor]);
    CursorAfterWrapped(active, cursor, m);
  }

  /** One round-robin step as a value: the server picked and the next cursor. */
  function RoundRobinStep(active: seq<int>, cursor: nat): (r: (int, nat))
    requires cursor < |active|
    ensures r.0 in active && r.1 < |active|
    ensures r.0 == RoundRobinRun(active, cursor, 1)[0] && r.1 == CursorAfter(active, cursor, 1)
  {
    (active[cursor], (cursor + 1) % |active|)
  }

  /** `selectLeastConnectionsServer`: placeholder that answers the first active id, or -1. */
  function LeastConnectionsPick(active: seq<int>): (r: int)
    ensures |active| == 0 ==> r == -1
    ensures |active| > 0 ==> r in active && r == active[0]
  {
    if |active| > 0 then active[0] else -1
  }

  /** Which arm of `selectServer`'s switch runs: unknown names fall back to round robin. */
  function PolicyFor(algorithm: string): (p: string)
    ensures p == RoundRobin || p == LeastConnections || p == Random
    ensures algorithm == LeastConnections || algorithm == Random ==> p == algorithm
    ensures algorithm != LeastConnections && algorithm != Random ==> p == RoundRobin
  {
    if algorithm == LeastConnections then LeastConnections
    else if algorithm == Random then Random
    else RoundRobin
  }

  /**
   * `LoadBalancerService`. The Java cursor `lastUsedServerIndex` is static, so every service
   * instance shares it: the model has one object and every caller refers to it.
   */
  class LoadBalancerService {
    var lastUsedServerIndex: nat

    constructor ()
      ensures lastUsedServerIndex == 0
    {
      lastUsedServerIndex := 0;
    }

    /**
     * `selectRoundRobinServer`. The list is indexed at the cursor before it is
     * re-normalised, so the cursor must be inside the current list.
     */
    method SelectRoundRobinServer(active: seq<int>) returns (id: int)
      requires lastUsedServerIndex < |active|
      modifies this
      ensures (id, lastUsedServerIndex) == RoundRobinStep(active, old(lastUsedServerIndex))
    {
      id := active[lastUsedServerIndex];
      lastUsedServerIndex := (lastUsedServerIndex + 1) % |active|;
    }

    /** `selectRandomServer`: some element of the list (the random index is a free choice). */
    method SelectRandomServer(active: seq<int>) returns (id: int)
      requires |active| > 0
      ensures id in active
    {
      var randomIndex :| 0 <= randomIndex < |active|;
      id := active[randomIndex];
    }

    /**
     * `selectServer` with the algorithm name as a parameter. -1 when no server is active;
     * otherwise an active server chosen by the named policy.
     */
    method SelectServerUsing(algorithm: string, active: seq<int>) returns (id: int)
      requires |active| > 0 && PolicyFor(algorithm) == RoundRobin ==> lastUsedServerIndex < |active|
      modifies this
      ensures |active| == 0 ==> id == -1 && lastUsedServerIndex == old(lastUsedServerIndex)
      ensures |active| > 0 ==> id in active
      ensures -1 !in active ==> (id == -1 <==> |active| == 0)
      ensures |active| > 0 && PolicyFor(algorithm) == RoundRobin ==>
                (id, lastUsedServerIndex) == RoundRobinStep(active, old(lastUsedServerIndex))
      ensures PolicyFor(algorithm) == LeastConnections ==>
                id == LeastConnectionsPick(active) && lastUsedServerIndex == old(lastUsedServerIndex)
      ensures PolicyFor(algorithm) == Random ==> lastUsedServerIndex == old(lastUsedServerIndex)
    {
      if |active| == 0 {
        return -1;
      }
      if algorithm == RoundRobin {
        id := SelectRoundRobinServer(active);
      } else if algorithm == LeastConnections {
        id := LeastConnectionsPick(active);
      } else if algorithm == Random {
        id := SelectRandomServer(active);
      } else {
        id := SelectRoundRobinServer(active);
      }
    }

    /** `selectServer` as the source configures it: always round robin. */
    method SelectServer(active: seq<int>) returns (id: int)
      requires |active| > 0 ==> lastUsedServerIndex < |active|
      modifies this
      ensures |active| == 0 ==> id == -1 && lastUsedServerIndex == old(lastUsedServerIndex)
      ensures |active| > 0 ==> (id, lastUsedServerIndex) == RoundRobinStep(active, old(lastUsedServerIndex))
    {
      id := SelectServerUsing(RoundRobin, active);
    }
  }
}
