/**
 Placement of tablets on the ring of workers 1..n: which worker stores which tablet, whom a primary
 forwards to, whom the coordinator routes to, and whom a restarting worker copies from.
 */
module Ring {
  import opened Options

  const TABLET_NOT_FOUND := -1

  ghost predicate OnRing(n: nat, w: int) {
    n >= 3 && 1 <= w <= n
  }

  lemma ModStep(a: int, n: nat)
    requires n > 0 && 0 <= a < 2 * n
    ensures a % n == if a < n then a else a - n
  {
    if a >= n {
      assert a == n + (a - n);
      ModUnique(a, n, 1, a - n);
    } else {
      ModUnique(a, n, 0, a);
    }
  }

  lemma ModUnique(a: int, n: nat, q: int, r: int)
    requires n > 0 && 0 <= r < n && a == q * n + r
    ensures a % n == r
  {
    var d := a / n - q;
    assert a == n * (a / n) + a % n;
    assert d * n == r - a % n;
    var m: int := n;
    assert -m < d * m < m;
    assert d == 0;
  }

  /** `d` places further round the ring, as the source writes it for d = 1 and 2. */
  function Ahead(n: nat, w: int, d: nat): (r: int)
    requires OnRing(n, w) && 1 <= d <= 2
    ensures OnRing(n, r)
    ensures r == if w + d <= n then w + d else w + d - n
  {
    ModStep(w + d - 1, n);
    (w + d - 1) % n + 1
  }

  /** `d` places back round the ring, as the source writes it for d = 1 and 2. */
  function Behind(n: nat, w: int, d: nat): (r: int)
    requires OnRing(n, w) && 1 <= d <= 2
    ensures OnRing(n, r)
    ensures r == if w - d >= 1 then w - d else w - d + n
  {
    ModStep(w + n - d - 1, n);
    (w + n - d - 1) % n + 1
  }

  /** The place, 1 to 3, of tablet t on worker w. */
  function TabletNumber(n: nat, w: int, t: int): (k: int)
    requires OnRing(n, w)
    ensures k == TABLET_NOT_FOUND || 1 <= k <= 3
  {
    if t == w then 1
    else if t == Behind(n, w, 1) then 2
    else if t == Behind(n, w, 2) then 3
    else TABLET_NOT_FOUND
  }

  /** The workers that worker w forwards an accepted update of tablet t to, in order. */
  function Replicas(n: nat, w: int, t: int): seq<int>
    requires OnRing(n, w)
  {
    if t == w then [Ahead(n, w, 1), Ahead(n, w, 2)]
    else if t == Behind(n, w, 1) then [Ahead(n, w, 1)]
    else []
  }

  /** The workers the coordinator considers for tablet t, in order. */
  function Candidates(n: nat, t: int): (c: seq<int>)
    requires OnRing(n, t)
    ensures |c| == 3 && forall i :: 0 <= i < 3 ==> OnRing(n, c[i])
  {
    [t, Ahead(n, t, 1), Ahead(n, t, 2)]
  }

  /** The first live candidate of tablet t. */
  function Primary(n: nat, alive: set<int>, t: int): (p: Option<int>)
    requires OnRing(n, t)
  {
    var c := Candidates(n, t);
    if c[0] in alive then Some(c[0]) else if c[1] in alive then Some(c[1]) else if c[2] in alive then Some(c[2]) else None
  }

  /** The candidate loop of the coordinator. */
  method GetCurrentPrimary(n: nat, alive: set<int>, t: int) returns (p: Option<int>)
    requires OnRing(n, t)
    ensures p == Primary(n, alive, t)
    ensures p == None <==> forall i :: 0 <= i < 3 ==> Candidates(n, t)[i] !in alive
    ensures p.Some? ==> exists i :: 0 <= i < 3 && Candidates(n, t)[i] == p.value && p.value in alive
                                    && forall j :: 0 <= j < i ==> Candidates(n, t)[j] !in alive
  {
    p := None;
    var candidates := Candidates(n, t);
    for i := 0 to 3
      invariant p == None
      invariant forall j :: 0 <= j < i ==> candidates[j] !in alive
    {
      if candidates[i] in alive {
        return Some(candidates[i]);
      }
    }
  }

  /** The tablets the recovery loop of worker w visits: itself, then one place back at a time. */
  function RecoveryOrder(n: nat, w: int): (ts: seq<int>)
    requires OnRing(n, w)
    ensures |ts| == 3 && forall i :: 0 <= i < 3 ==> OnRing(n, ts[i])
  {
    [w, Behind(n, w, 1), Behind(n, Behind(n, w, 1), 1)]
  }

  /** The coordinator's three answers to a restarting worker. */
  function WorkerLookup(n: nat, alive: set<int>, w: int): (hosts: seq<Option<int>>)
    requires OnRing(n, w)
    ensures |hosts| == 3
  {
    [Primary(n, alive, w), Primary(n, alive, Behind(n, w, 1)), Primary(n, alive, Behind(n, w, 2))]
  }

  /** Worker w is candidate i of tablet t exactly when it keeps t in place i + 1: storage and routing agree. */
  lemma StoredWhereRouted(n: nat, w: int, t: int, i: nat)
    requires OnRing(n, w) && OnRing(n, t) && i < 3
    ensures Candidates(n, t)[i] == w <==> TabletNumber(n, w, t) == i + 1
  {
  }

  lemma CandidatesDistinct(n: nat, t: int)
    requires OnRing(n, t)
    ensures forall i, j :: 0 <= i < j < 3 ==> Candidates(n, t)[i] != Candidates(n, t)[j]
  {
  }

  /** The candidate at place i forwards to exactly the candidates after it. */
  lemma ForwardsToLaterCandidates(n: nat, w: int, t: int, i: nat)
    requires OnRing(n, w) && OnRing(n, t) && i < 3 && Candidates(n, t)[i] == w
    ensures Replicas(n, w, t) == Candidates(n, t)[i + 1..]
  {
    StoredWhereRouted(n, w, t, i);
  }

  /**
   The i-th answer of the coordinator is the primary of the i-th tablet that recovery visits, that
   tablet is the worker's i-th, and a worker that is not alive is never sent to itself.
   */
  lemma RecoveryPairsUp(n: nat, alive: set<int>, w: int, i: nat)
    requires OnRing(n, w) && i < 3
    ensures WorkerLookup(n, alive, w)[i] == Primary(n, alive, RecoveryOrder(n, w)[i])
    ensures TabletNumber(n, w, RecoveryOrder(n, w)[i]) == i + 1
    ensures w !in alive ==> WorkerLookup(n, alive, w)[i] != Some(w)
  {
  }
}
