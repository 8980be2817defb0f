/**
 The load balancer's round robin over the frontends that are alive.
 */
module LoadBalancer {
  import opened Options

  /** The place i steps after start, around the list. */
  function Around(n: nat, start: nat, i: nat): (x: nat)
    requires start < n && i <= n
    ensures x < n && x == if start + i < n then start + i else start + i - n
  {
    WrapOnce(n, start + i);
    (start + i) % n
  }

  lemma WrapOnce(n: nat, x: nat)
    requires 0 < n && x < 2 * n
    ensures x % n == if x < n then x else x - n
  {
    if x >= n {
      assert x == n * 1 + (x - n);
    }
  }

  /** The first frontend alive at or after i steps from start. */
  function FirstAlive(alive: seq<bool>, start: nat, i: nat): (r: Option<nat>)
    requires i <= |alive| && (start < |alive| || alive == [])
    ensures r.Some? ==> r.value < |alive| && alive[r.value]
    decreases |alive| - i
  {
    if i == |alive| then None
    else
      var x := Around(|alive|, start, i);
      if alive[x] then Some(x) else FirstAlive(alive, start, i + 1)
  }

  class Balancer {
    const frontends: seq<string>
    var next: nat

    ghost predicate Valid()
      reads this
    {
      next < |frontends| || (next == 0 && frontends == [])
    }

    constructor (frontends: seq<string>)
      ensures this.frontends == frontends && next == 0 && Valid()
    {
      this.frontends := frontends;
      next := 0;
    }

    /** One selection; alive is what the health checks answer while it runs. */
    method SelectFrontend(alive: seq<bool>) returns (frontend: string)
      requires Valid() && |alive| == |frontends|
      modifies this
      ensures Valid()
      ensures match FirstAlive(alive, old(next), 0)
              case None => frontend == "" && next == old(next)
              case Some(x) => frontend == frontends[x] && next == Around(|frontends|, x, 1)
    {
      var start, n := next, |frontends|;
      for i := 0 to n
        invariant next == start && FirstAlive(alive, start, i) == FirstAlive(alive, start, 0)
      {
        var idx := Around(n, start, i);
        if alive[idx] {
          next := Around(n, idx, 1);
          return frontends[idx];
        }
      }
      return "";
    }
  }

  // ----- Fairness -----

  ghost function Live(alive: seq<bool>): set<nat> {
    set x: nat | x < |alive| && alive[x]
  }

  /** The frontends picked by k selections in a row, while the same ones stay alive. */
  ghost function Picks(alive: seq<bool>, start: nat, k: nat): seq<nat>
    requires start < |alive| && Live(alive) != {}
    decreases k
  {
    if k == 0 then []
    else
      SomeoneIsPicked(alive, start);
      var x := FirstAlive(alive, start, 0).value;
      [x] + Picks(alive, Around(|alive|, x, 1), k - 1)
  }

  /** The frontends alive from i steps after start once around, in order. */
  ghost function Rest(alive: seq<bool>, start: nat, i: nat): seq<nat>
    requires start < |alive| && i <= |alive|
    decreases |alive| - i
  {
    if i == |alive| then []
    else
      var x := Around(|alive|, start, i);
      (if alive[x] then [x] else []) + Rest(alive, start, i + 1)
  }

  lemma {:induction false} NoneMeansDead(alive: seq<bool>, start: nat, i: nat, j: nat)
    requires start < |alive| && i <= j < |alive| && FirstAlive(alive, start, i) == None
    ensures !alive[Around(|alive|, start, j)]
    decreases j - i
  {
    if i < j {
      NoneMeansDead(alive, start, i + 1, j);
    }
  }

  /** Nothing is answered exactly when nobody is alive. */
  lemma SomeoneIsPicked(alive: seq<bool>, start: nat)
    requires start < |alive|
    ensures FirstAlive(alive, start, 0) == None <==> Live(alive) == {}
  {
    if FirstAlive(alive, start, 0) == None {
      forall x: nat | x < |alive| ensures !alive[x] {
        var j := if x >= start then x - start else x + |alive| - start;
        NoneMeansDead(alive, start, 0, j);
        assert Around(|alive|, start, j) == x;
      }
    } else {
      assert FirstAlive(alive, start, 0).value in Live(alive);
    }
  }

  /** A dead frontend is passed over: selection goes on as from the next place. */
  lemma {:induction false} PassedOver(alive: seq<bool>, start: nat, i: nat)
    requires start < |alive| && !alive[start] && i < |alive|
    ensures FirstAlive(alive, start, i + 1) == FirstAlive(alive, Around(|alive|, start, 1), i)
    decreases |alive| - i
  {
    var n := |alive|;
    var s := Around(n, start, 1);
    if i + 1 < n {
      assert Around(n, s, i) == Around(n, start, i + 1);
      PassedOver(alive, start, i + 1);
    } else {
      assert Around(n, s, i) == start;
      assert FirstAlive(alive, s, n) == None;
    }
  }

  /** Selections from i steps after start pick what is alive from there on, in order. */
  lemma {:induction false} PicksInOrder(alive: seq<bool>, start: nat, i: nat)
    requires start < |alive| && i < |alive| && Live(alive) != {}
    ensures Picks(alive, Around(|alive|, start, i), |Rest(alive, start, i)|) == Rest(alive, start, i)
    decreases |alive| - i
  {
    var n := |alive|;
    var x := Around(n, start, i);
    var rest := Rest(alive, start, i + 1);
    if i + 1 < n {
      PicksInOrder(alive, start, i + 1);
      assert Around(n, start, i + 1) == Around(n, x, 1);
    }
    if alive[x] {
      assert FirstAlive(alive, x, 0) == Some(x) by { assert Around(n, x, 0) == x; }
      assert i + 1 == n ==> rest == [];
      assert Picks(alive, x, |rest| + 1) == [x] + Picks(alive, Around(n, x, 1), |rest|);
    } else if rest != [] {
      assert Around(n, x, 0) == x;
      PassedOver(alive, x, 0);
      assert FirstAlive(alive, x, 0) == FirstAlive(alive, Around(n, x, 1), 0);
      SamePicks(alive, x, Around(n, x, 1), |rest|);
    }
  }

  lemma SamePicks(alive: seq<bool>, a: nat, b: nat, k: nat)
    requires a < |alive| && b < |alive| && Live(alive) != {} && FirstAlive(alive, a, 0) == FirstAlive(alive, b, 0)
    ensures Picks(alive, a, k) == Picks(alive, b, k)
  {
  }

  lemma {:induction false} RestMembers(alive: seq<bool>, start: nat, i: nat, x: nat)
    requires start < |alive| && i <= |alive|
    ensures x in Rest(alive, start, i) <==> x < |alive| && alive[x] && i <= (if x >= start then x - start else x + |alive| - start)
    decreases |alive| - i
  {
    if i < |alive| {
      RestMembers(alive, start, i + 1, x);
    }
  }

  lemma {:induction false} RestDistinct(alive: seq<bool>, start: nat, i: nat)
    requires start < |alive| && i <= |alive|
    ensures forall j, k :: 0 <= j < k < |Rest(alive, start, i)| ==> Rest(alive, start, i)[j] != Rest(alive, start, i)[k]
    decreases |alive| - i
  {
    if i < |alive| {
      RestDistinct(alive, start, i + 1);
      var x := Around(|alive|, start, i);
      RestMembers(alive, start, i + 1, x);
    }
  }

  lemma {:induction false} DistinctSize(xs: seq<nat>, s: set<nat>)
    requires forall j, k :: 0 <= j < k < |xs| ==> xs[j] != xs[k]
    requires forall x :: x in xs <==> x in s
    ensures |xs| == |s|
    decreases |xs|
  {
    if xs == [] {
      assert s == {};
    } else {
      assert xs[0] in s && xs[0] !in xs[1..];
      DistinctSize(xs[1..], s - {xs[0]});
    }
  }

  /**
   Fairness: wherever the cursor stands, as many selections in a row as there are live frontends pick
   every live frontend exactly once, and no dead one.
   */
  lemma EachLiveOneOnce(alive: seq<bool>, start: nat)
    requires start < |alive| && Live(alive) != {}
    ensures
      var picks := Picks(alive, start, |Live(alive)|);
      && |picks| == |Live(alive)|
      && (forall x :: x in picks <==> x in Live(alive))
      && (forall j, k :: 0 <= j < k < |picks| ==> picks[j] != picks[k])
  {
    var rest := Rest(alive, start, 0);
    forall x: nat ensures x in rest <==> x in Live(alive) { RestMembers(alive, start, 0, x); }
    RestDistinct(alive, start, 0);
    DistinctSize(rest, Live(alive));
    PicksInOrder(alive, start, 0);
    assert Around(|alive|, start, 0) == start;
  }
}
