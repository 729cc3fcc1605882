/** The round-robin scheduler: it filters the candidates and picks them in turn. */
module RoundRobins {
  import opened Options

  /** The index picked after `last`; -1 stands for no pick yet. */
  function Turn(last: int, n: int): int
    requires last >= -1 && n > 0
  {
    (last + 1) % n
  }

  /** How often candidate `c` is picked in `k` picks among `n` candidates. */
  function Picks(last: int, n: int, k: nat, c: int): nat
    requires last >= -1 && n > 0
    decreases k
  {
    if k == 0 then 0 else (if Turn(last, n) == c then 1 else 0) + Picks(Turn(last, n), n, k - 1, c)
  }

  /** How many picks come before the first pick of `c`. */
  function Ahead(last: int, n: int, c: int): int {
    if c > last then c - last - 1 else c - last - 1 + n
  }

  lemma TurnInRange(last: int, n: int)
    requires -1 <= last < n && n > 0
    ensures Turn(last, n) == if last + 1 == n then 0 else last + 1
  {
    if last + 1 < n {
      assert (last + 1) % n == last + 1;
    } else {
      assert n % n == 0;
    }
  }

  lemma MulAtLeast(a: int, n: int)
    requires a >= 1 && n > 0
    ensures a * n >= n
  {
  }

  /** Division with remainder orders and determines its quotients. */
  lemma QuotientsOrdered(n: int, q: int, r: int, q': int, r': int)
    requires 0 <= r < n && 0 <= r' < n && q * n + r <= q' * n + r'
    ensures q <= q'
  {
    assert (q - q') * n == q * n - q' * n;
    if q > q' {
      MulAtLeast(q - q', n);
    }
  }

  lemma DivMod(x: int, n: int)
    requires n > 0
    ensures x == (x / n) * n + x % n && 0 <= x % n < n
  {
  }

  lemma QuotientUnique(x: int, n: int, q: int, r: int)
    requires x == q * n + r && 0 <= r < n
    ensures x / n == q
  {
    DivMod(x, n);
    QuotientsOrdered(n, q, r, x / n, x % n);
    QuotientsOrdered(n, x / n, x % n, q, r);
  }

  lemma DivStep(x: int, n: int)
    requires n > 0
    ensures (x + n) / n == x / n + 1
  {
    DivMod(x, n);
    assert (x / n + 1) * n == (x / n) * n + n;
    QuotientUnique(x + n, n, x / n + 1, x % n);
  }

  lemma DivMonotone(x: int, y: int, n: int)
    requires n > 0 && x <= y
    ensures x / n <= y / n
  {
    DivMod(x, n);
    DivMod(y, n);
    QuotientsOrdered(n, x / n, x % n, y / n, y % n);
  }

  lemma {:induction false} PicksExactly(last: int, n: int, k: nat, c: int)
    requires -1 <= last < n && 0 <= c < n
    ensures Picks(last, n, k, c) == (k + n - 1 - Ahead(last, n, c)) / n
    decreases k
  {
    TurnInRange(last, n);
    var d := Ahead(last, n, c);
    if k == 0 {
      QuotientUnique(n - 1 - d, n, 0, n - 1 - d);
    } else {
      var next := Turn(last, n);
      PicksExactly(next, n, k - 1, c);
      if next == c {
        assert Ahead(next, n, c) == n - 1 && d == 0;
        DivStep(k - 1, n);
      } else {
        assert Ahead(next, n, c) == d - 1;
      }
    }
  }

  /** From any earlier pick, even among more candidates, each of `n` is picked k/n times, rounded down or up. */
  lemma PicksAreFair(last: int, n: int, k: nat, c: int)
    requires last >= -1 && 0 <= c < n
    ensures k / n <= Picks(last, n, k, c) <= (k + n - 1) / n
  {
    var l := Turn(last, n) - 1;
    TurnInRange(l, n);
    assert Picks(last, n, k, c) == Picks(l, n, k, c);
    PicksExactly(l, n, k, c);
    DivMonotone(k, k + n - 1 - Ahead(l, n, c), n);
    DivMonotone(k + n - 1 - Ahead(l, n, c), k + n - 1, n);
  }

  function Matching<P>(pools: seq<P>, matches: P -> bool): seq<P> {
    if pools == [] then []
    else Matching(pools[..|pools| - 1], matches) + (if matches(pools[|pools| - 1]) then [pools[|pools| - 1]] else [])
  }

  /** A pool is a candidate exactly when it is listed and matches. */
  lemma {:induction false} MatchingMembers<P>(pools: seq<P>, matches: P -> bool, p: P)
    ensures p in Matching(pools, matches) <==> p in pools && matches(p)
  {
    if pools != [] {
      var n := |pools| - 1;
      MatchingMembers(pools[..n], matches, p);
      assert pools == pools[..n] + [pools[n]];
    }
  }

  /** Where in the list the candidates stand. */
  function Places<P>(pools: seq<P>, matches: P -> bool): seq<nat> {
    if pools == [] then []
    else Places(pools[..|pools| - 1], matches) + (if matches(pools[|pools| - 1]) then [|pools| - 1] else [])
  }

  /** They are exactly the places of the pools that match. */
  lemma {:induction false} PlacesMeaning<P>(pools: seq<P>, matches: P -> bool, i: nat)
    ensures i in Places(pools, matches) <==> i < |pools| && matches(pools[i])
  {
    if pools != [] {
      PlacesMeaning(pools[..|pools| - 1], matches, i);
    }
  }

  lemma {:induction false} PlacesIncrease<P>(pools: seq<P>, matches: P -> bool)
    ensures var places := Places(pools, matches); forall j, k :: 0 <= j < k < |places| ==> places[j] < places[k]
  {
    if pools != [] {
      var before := pools[..|pools| - 1];
      var places := Places(before, matches);
      PlacesIncrease(before, matches);
      forall j, k | 0 <= j < k < |Places(pools, matches)|
        ensures Places(pools, matches)[j] < Places(pools, matches)[k]
      {
        assert Places(pools, matches)[j] == places[j];
        assert places[j] in places;
        PlacesMeaning(before, matches, places[j]);
      }
    }
  }

  /** The candidates stand at these places, in the order of the list. */
  lemma {:induction false} MatchingInOrder<P>(pools: seq<P>, matches: P -> bool)
    ensures var places, candidates := Places(pools, matches), Matching(pools, matches);
            && |places| == |candidates|
            && forall k :: 0 <= k < |places| ==> places[k] < |pools| && candidates[k] == pools[places[k]]
  {
    if pools != [] {
      MatchingInOrder(pools[..|pools| - 1], matches);
    }
  }

  class RoundRobin<P> {
    var lastWorker: int

    constructor ()
      ensures lastWorker == -1
    {
      lastWorker := -1;
    }

    /** The matching pools, in the given order. */
    method SelectCandidateNodes(pools: seq<P>, matches: P -> bool) returns (candidates: seq<P>)
      ensures candidates == Matching(pools, matches)
    {
      candidates := [];
      for i := 0 to |pools|
        invariant candidates == Matching(pools[..i], matches)
      {
        assert pools[..i + 1][..i] == pools[..i];
        if matches(pools[i]) {
          candidates := candidates + [pools[i]];
        }
      }
      assert pools[..|pools|] == pools;
    }

    /** Without candidates nothing is picked and the turn is kept. */
    method Pick(candidates: seq<P>) returns (picked: Option<P>)
      requires lastWorker >= -1
      modifies this
      ensures candidates == [] ==> picked == None && lastWorker == old(lastWorker)
      ensures candidates != [] ==>
                && lastWorker == Turn(old(lastWorker), |candidates|)
                && 0 <= lastWorker < |candidates| && picked == Some(candidates[lastWorker])
    {
      if |candidates| == 0 {
        return None;
      }
      lastWorker := (lastWorker + 1) % |candidates|;
      picked := Some(candidates[lastWorker]);
    }
  }
}
