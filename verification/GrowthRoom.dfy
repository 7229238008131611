/** How much room bad clusters can cost a growth layout. */
module GrowthRoom {
  import opened GrowthPlan

  /** The bad clusters of [lo, hi). */
  ghost function BadIn(bad: set<nat>, lo: nat, hi: nat): set<nat> {
    set c | c in bad && lo <= c < hi
  }

  /** Every bad cluster of [lo, hi) at a fixed price. */
  ghost function Cost(bad: set<nat>, lo: nat, hi: nat, price: nat): nat
    decreases if lo <= hi then hi - lo else 0
  {
    if hi <= lo then 0 else (if lo in bad then price else 0) + Cost(bad, lo + 1, hi, price)
  }

  lemma {:induction false} CostIsCount(bad: set<nat>, lo: nat, hi: nat, price: nat)
    ensures Cost(bad, lo, hi, price) == price * |BadIn(bad, lo, hi)|
    decreases if lo <= hi then hi - lo else 0
  {
    if hi <= lo {
      assert BadIn(bad, lo, hi) == {};
    } else {
      CostIsCount(bad, lo + 1, hi, price);
      var rest := BadIn(bad, lo + 1, hi);
      if lo in bad {
        assert BadIn(bad, lo, hi) == rest + {lo};
        assert price * (|rest| + 1) == price * |rest| + price;
      } else {
        assert BadIn(bad, lo, hi) == rest;
      }
    }
  }

  /** Passing a bad cluster pays its price. */
  lemma {:induction false} CostDrops(bad: set<nat>, lo: nat, x: nat, hi: nat, price: nat)
    requires lo <= x < hi
    ensures Cost(bad, x, hi, price) <= Cost(bad, lo, hi, price)
    ensures x in bad ==> Cost(bad, x + 1, hi, price) + price <= Cost(bad, lo, hi, price)
    decreases x - lo
  {
    if lo < x { CostDrops(bad, lo + 1, x, hi, price); }
  }

  /** The next run of `n` usable clusters: what it skips is paid for by the bad clusters it skips. */
  lemma {:induction false} SkipToRun(bad: set<nat>, c: nat, n: nat, limit: nat, price: nat) returns (s: nat)
    requires 1 <= n <= price && c + n + Cost(bad, c, limit, price) <= limit
    ensures c <= s && s + n <= limit && NoBad(bad, s, n)
    ensures s + Cost(bad, s, limit, price) <= c + Cost(bad, c, limit, price)
    decreases limit - c
  {
    s := c;
    if !NoBad(bad, c, n) {
      var x :| c <= x < c + n && x in bad;
      CostDrops(bad, c, x, limit, price);
      s := SkipToRun(bad, x + 1, n, limit, price);
    }
  }

  lemma {:induction false} NonBadFirst(bad: set<nat>, lo: nat, hi: nat)
    requires lo < hi
    ensures NonBad(bad, lo, hi) == (if lo in bad then 0 else 1) + NonBad(bad, lo + 1, hi)
    decreases hi
  {
    if lo + 1 < hi { NonBadFirst(bad, lo, hi - 1); }
  }

  /** Growth room of `n` usable clusters, at the same price. */
  lemma {:induction false} SkipReserve(bad: set<nat>, c: nat, n: nat, limit: nat, price: nat) returns (e: nat)
    requires 1 <= price && c + n + Cost(bad, c, limit, price) <= limit
    ensures c <= e <= limit && NonBad(bad, c, e) >= n
    ensures e + Cost(bad, e, limit, price) <= c + n + Cost(bad, c, limit, price)
    decreases limit - c
  {
    e := c;
    if n > 0 {
      if c in bad {
        e := SkipReserve(bad, c + 1, n, limit, price);
        NonBadFirst(bad, c, e);
      } else {
        e := SkipReserve(bad, c + 1, n - 1, limit, price);
        NonBadFirst(bad, c, e);
      }
    }
  }

  lemma PlaceOne(bad: set<nat>, g: GrowthObject, from: nat, percent: nat, limit: nat, price: nat)
    returns (target: nat, next: nat)
    requires 1 <= g.clusters <= price
    requires from + g.clusters + ReserveOf(g, percent) + Cost(bad, from, limit, price) <= limit
    ensures Fits(bad, g, target, from, next, percent) && next <= limit
    ensures next + Cost(bad, next, limit, price) <=
      from + g.clusters + ReserveOf(g, percent) + Cost(bad, from, limit, price)
  {
    hide Cost, NonBad, Reserve;
    target := SkipToRun(bad, from, g.clusters, limit, price);
    var after := target + g.clusters;
    if after < limit {
      CostDrops(bad, target, after, limit, price);
    } else {
      CostNothing(bad, after, limit, price);
    }
    next := SkipReserve(bad, after, ReserveOf(g, percent), limit, price);
  }

  lemma CostNothing(bad: set<nat>, lo: nat, hi: nat, price: nat)
    requires hi <= lo
    ensures Cost(bad, lo, hi, price) == 0
  {
  }

  /** If every bad cluster may cost as much as the largest object and all still fits, then a
      layout in the given order fits, whatever the order is. */
  lemma {:induction false} EnoughRoom(bad: set<nat>, objects: seq<GrowthObject>, percent: nat, limit: nat, price: nat)
    returns (targets: seq<nat>, ends: seq<nat>)
    requires forall j | 0 <= j < |objects| :: 1 <= objects[j].clusters <= price
    requires 2 + Need(objects, percent) + Cost(bad, 2, limit, price) <= limit
    ensures InOrder(bad, objects, targets, ends, percent, limit)
    ensures ends[|objects|] + Cost(bad, ends[|objects|], limit, price) <=
      2 + Need(objects, percent) + Cost(bad, 2, limit, price)
  {
    hide Cost, NonBad, Fits, ReserveOf;
    targets, ends := [], [2];
    if objects != [] {
      var n: nat := |objects| - 1;
      targets, ends := EnoughRoom(bad, objects[..n], percent, limit, price);
      var target, next := PlaceOne(bad, objects[n], ends[n], percent, limit, price);
      targets, ends := targets + [target], ends + [next];
    }
  }
}
