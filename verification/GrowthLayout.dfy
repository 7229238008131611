/** Growth Defrag, phase 2: place every object at its target, last object first. */
module GrowthLayout {
  import opened Basics
  import opened ClusterLayout
  import opened FatEngine
  import opened GrowthPrepare
  import opened GrowthPlan
  import opened GrowthPreflight

  // ---- What the plan guarantees -----------------------------------------------

  /** Targets lie in [2, workspace), avoid bad clusters and do not overlap; the
      workspace behind them holds any object and is free of bad clusters. */
  ghost predicate Targets(l: Layout, plan: seq<GrowthObject>, workspace: nat) {
    && 2 <= workspace <= l.max + 1
    && (forall c | workspace <= c <= l.max :: c !in l.bad)
    && (forall j | 0 <= j < |plan| ::
          && 2 <= plan[j].target && plan[j].target + plan[j].clusters <= workspace
          && NoBad(l.bad, plan[j].target, plan[j].clusters)
          && workspace + plan[j].clusters <= l.max + 1)
    && (forall j, k | 0 <= j < k < |plan| :: plan[j].target + plan[j].clusters <= plan[k].target)
  }

  ghost predicate AllBelow(l: Layout, workspace: nat) {
    forall c | c in Alloc(l) :: c < workspace
  }

  // ---- Finding objects again ------------------------------------------------------

  /** `found[j]` is the record a lookup by path and kind returns for plan entry `j`. */
  ghost predicate Found(l: Layout, plan: seq<GrowthObject>, found: seq<nat>) {
    && |found| == |plan|
    && forall j | 0 <= j < |plan| ::
         found[j] == FirstMatch(l, plan[j]) < |l.objs| && plan[j].clusters >= 1
  }

  ghost predicate Sized(l: Layout, g: GrowthObject, i: nat) {
    i < |l.objs| && |l.objs[i].chain| == g.clusters
  }

  /** Entries from `r` on find a record of the planned size. */
  ghost predicate SizedFrom(l: Layout, plan: seq<GrowthObject>, found: seq<nat>, r: nat) {
    |found| == |plan| && forall j | r <= j < |plan| :: Sized(l, plan[j], found[j])
  }

  /** The record found for entry `j` is at the target of some entry from `r` on that finds it. */
  ghost predicate Settled(l: Layout, plan: seq<GrowthObject>, found: seq<nat>, r: nat, j: nat) {
    |found| == |plan| && j < |plan| &&
    exists k :: r <= k < |plan| && found[k] == found[j] && InPlace(l, plan[k], found[k])
  }

  /** Loop invariant: records of entries from `r` on are settled and the workspace is empty. */
  ghost predicate Progress(l: Layout, plan: seq<GrowthObject>, found: seq<nat>, workspace: nat, r: nat) {
    && WellFormed(l) && Found(l, plan, found) && Targets(l, plan, workspace) && AllBelow(l, workspace)
    && |found| == |plan| && r <= |plan| && SizedFrom(l, plan, found, r)
    && (forall j | r <= j < |plan| :: Settled(l, plan, found, r, j))
  }

  lemma ShapeKeepsFound(l: Layout, l': Layout, plan: seq<GrowthObject>, found: seq<nat>, workspace: nat)
    requires SameShape(l, l') && Found(l, plan, found) && Targets(l, plan, workspace)
    ensures Found(l', plan, found) && Targets(l', plan, workspace)
    ensures forall r | SizedFrom(l, plan, found, r) :: SizedFrom(l', plan, found, r)
  {
    hide FirstMatch;
    forall j | 0 <= j < |plan| ensures FirstMatch(l', plan[j]) == FirstMatch(l, plan[j]) {
      FirstMatchShape(l, l', plan[j]);
    }
  }

  lemma FoundAt(l: Layout, plan: seq<GrowthObject>, found: seq<nat>, j: nat)
    requires Found(l, plan, found) && j < |plan|
    ensures |found| == |plan| && found[j] == FirstMatch(l, plan[j]) < |l.objs| && plan[j].clusters >= 1
  {
  }

  lemma SettledIntro(l: Layout, plan: seq<GrowthObject>, found: seq<nat>, r: nat, j: nat, k: nat)
    requires |found| == |plan| && j < |plan| && r <= k < |plan| && found[k] == found[j] && InPlace(l, plan[k], found[k])
    ensures Settled(l, plan, found, r, j)
  {
  }

  lemma SettledAt(l: Layout, plan: seq<GrowthObject>, found: seq<nat>, r: nat, j: nat) returns (k: nat)
    requires Settled(l, plan, found, r, j)
    ensures j < |plan| == |found| && r <= k < |plan| && found[k] == found[j] && InPlace(l, plan[k], found[k])
  {
    k :| r <= k < |plan| && found[k] == found[j] && InPlace(l, plan[k], found[k]);
  }

  lemma RelocateShape(l: Layout, moves: seq<Move>)
    ensures SameShape(l, Relocate(l, moves))
  {
    ShapeSteps(l, l, moves);
  }

  /** A chain none of whose clusters is a source is not renamed. */
  lemma Unmoved(l: Layout, moves: seq<Move>, i: nat)
    requires i < |l.objs| && forall k | 0 <= k < |l.objs[i].chain| :: l.objs[i].chain[k] !in Sources(moves)
    ensures |Relocate(l, moves).objs| == |l.objs| && Relocate(l, moves).objs[i].chain == l.objs[i].chain
  {
  }

  // ---- Batches -------------------------------------------------------------------

  ghost predicate MovesTo(l: Layout, g: GrowthObject, i: nat, k: int, m: Move) {
    i < |l.objs| && 0 <= k < |l.objs[i].chain| && m == Move(l.objs[i].chain[k], g.target + k)
  }

  /** The moves take all of record `i` to the target of `g`. */
  ghost predicate Whole(l: Layout, g: GrowthObject, i: nat, moves: seq<Move>) {
    Sized(l, g, i) && forall k | 0 <= k < |l.objs[i].chain| :: Move(l.objs[i].chain[k], g.target + k) in moves
  }

  /** The move belongs to an entry of [r, r0) whose record is moved as a whole. */
  ghost predicate FromEntry(l: Layout, plan: seq<GrowthObject>, found: seq<nat>, r: nat, r0: nat, moves: seq<Move>,
                            m: Move)
    requires |found| == |plan|
  {
    exists j, k ::
      r <= j < r0 && j < |plan| && Whole(l, plan[j], found[j], moves) && MovesTo(l, plan[j], found[j], k, m)
  }

  ghost predicate Covered(l: Layout, g: GrowthObject, i: nat, moves: seq<Move>) {
    InPlace(l, g, i) || Whole(l, g, i, moves)
  }

  ghost predicate BatchSoFar(l: Layout, plan: seq<GrowthObject>, found: seq<nat>, r: nat, r0: nat, moves: seq<Move>) {
    && |found| == |plan| && Found(l, plan, found) && r <= r0 <= |plan|
    && Legal(l, moves)
    && (forall n | 0 <= n < |moves| :: FromEntry(l, plan, found, r, r0, moves, moves[n]))
    && (forall j | r <= j < r0 :: Sized(l, plan[j], found[j]) && Covered(l, plan[j], found[j], moves))
  }

  /** growth_batch_can_add */
  predicate CanAdd(l: Layout, chain: seq<nat>, target: nat, moves: seq<Move>) {
    && (forall c | target <= c < target + |chain| :: c in Free(l) && c !in Sources(moves) && c !in Destinations(moves))
    && (forall k | 0 <= k < |chain| :: chain[k] !in Sources(moves) && chain[k] !in Destinations(moves))
  }

  lemma BatchLegal(l: Layout, i: nat, target: nat, moves: seq<Move>)
    requires WellFormed(l) && i < |l.objs| && Legal(l, moves) && CanAdd(l, l.objs[i].chain, target, moves)
    ensures Legal(l, moves + WholeMoves(l.objs[i].chain, target))
  {
    var chain := l.objs[i].chain;
    var all := moves + WholeMoves(chain, target);
    forall n | 0 <= n < |all| ensures all[n].source in Alloc(l) && all[n].destination in Free(l) {
      if n >= |moves| { AllocAt(l, i, n - |moves|); }
    }
    forall a, b | 0 <= a < b < |all| && b >= |moves|
      ensures all[a].source != all[b].source && all[a].destination != all[b].destination
    {
      assert all[b] == Move(chain[b - |moves|], target + (b - |moves|));
      assert Owns(l, i, b - |moves|);
      if a >= |moves| {
        assert Owns(l, i, a - |moves|);
      } else {
        assert all[a] == moves[a];
        assert moves[a].source in Sources(moves) && moves[a].destination in Destinations(moves);
      }
    }
  }

  lemma WholeWider(l: Layout, g: GrowthObject, i: nat, moves: seq<Move>, more: seq<Move>)
    requires Whole(l, g, i, moves)
    ensures Whole(l, g, i, moves + more)
  {
  }

  lemma FromWider(l: Layout, plan: seq<GrowthObject>, found: seq<nat>, r: nat, r0: nat, moves: seq<Move>,
                  more: seq<Move>, m: Move)
    requires |found| == |plan| && 1 <= r && FromEntry(l, plan, found, r, r0, moves, m)
    ensures FromEntry(l, plan, found, r - 1, r0, moves + more, m)
  {
    hide Whole;
    var j, k :| r <= j < r0 && j < |plan| && Whole(l, plan[j], found[j], moves) && MovesTo(l, plan[j], found[j], k, m);
    WholeWider(l, plan[j], found[j], moves, more);
    assert r - 1 <= j && MovesTo(l, plan[j], found[j], k, m);
  }

  lemma WholeNow(l: Layout, g: GrowthObject, i: nat, moves: seq<Move>)
    requires Sized(l, g, i)
    ensures Whole(l, g, i, moves + WholeMoves(l.objs[i].chain, g.target))
  {
    var chain := l.objs[i].chain;
    forall k | 0 <= k < |chain| ensures Move(chain[k], g.target + k) in moves + WholeMoves(chain, g.target) {
      assert (moves + WholeMoves(chain, g.target))[|moves| + k] == Move(chain[k], g.target + k);
    }
  }

  lemma BatchFrom(l: Layout, plan: seq<GrowthObject>, found: seq<nat>, r: nat, r0: nat, moves: seq<Move>, n: nat)
    requires BatchSoFar(l, plan, found, r, r0, moves) && 1 <= r && Sized(l, plan[r - 1], found[r - 1])
    requires n < |moves| + |l.objs[found[r - 1]].chain|
    ensures var all := moves + WholeMoves(l.objs[found[r - 1]].chain, plan[r - 1].target);
            FromEntry(l, plan, found, r - 1, r0, all, all[n])
  {
    hide Alloc, Free, Legal, Covered, Whole, Found;
    var more := WholeMoves(l.objs[found[r - 1]].chain, plan[r - 1].target);
    var all := moves + more;
    if n >= |moves| {
      WholeNow(l, plan[r - 1], found[r - 1], moves);
      assert MovesTo(l, plan[r - 1], found[r - 1], n - |moves|, all[n]);
    } else {
      FromWider(l, plan, found, r, r0, moves, more, moves[n]);
    }
  }

  lemma BatchGrows(l: Layout, plan: seq<GrowthObject>, found: seq<nat>, r: nat, r0: nat, moves: seq<Move>)
    requires WellFormed(l) && BatchSoFar(l, plan, found, r, r0, moves) && 1 <= r && Sized(l, plan[r - 1], found[r - 1])
    requires CanAdd(l, l.objs[found[r - 1]].chain, plan[r - 1].target, moves)
    ensures BatchSoFar(l, plan, found, r - 1, r0, moves + WholeMoves(l.objs[found[r - 1]].chain, plan[r - 1].target))
  {
    hide Alloc, Free, WellFormed, Legal, InPlace, Whole, FromEntry, CanAdd, Found;
    var i, g := found[r - 1], plan[r - 1];
    var more := WholeMoves(l.objs[i].chain, g.target);
    var all := moves + more;
    BatchLegal(l, i, g.target, moves);
    assert |more| == |l.objs[i].chain|;
    forall n | 0 <= n < |all| ensures FromEntry(l, plan, found, r - 1, r0, all, all[n]) {
      BatchFrom(l, plan, found, r, r0, moves, n);
    }
    WholeNow(l, g, i, moves);
    forall j | r - 1 <= j < r0 ensures Sized(l, plan[j], found[j]) && Covered(l, plan[j], found[j], all) {
      if j != r - 1 && !InPlace(l, plan[j], found[j]) { WholeWider(l, plan[j], found[j], moves, more); }
    }
  }

  lemma BatchSkips(l: Layout, plan: seq<GrowthObject>, found: seq<nat>, r: nat, r0: nat, moves: seq<Move>)
    requires BatchSoFar(l, plan, found, r, r0, moves) && 1 <= r
    requires Sized(l, plan[r - 1], found[r - 1]) && InPlace(l, plan[r - 1], found[r - 1])
    ensures BatchSoFar(l, plan, found, r - 1, r0, moves)
  {
    hide Found, Legal, Whole, InPlace, FromEntry;
    assert moves + [] == moves;
    forall n | 0 <= n < |moves| ensures FromEntry(l, plan, found, r - 1, r0, moves, moves[n]) {
      FromWider(l, plan, found, r, r0, moves, [], moves[n]);
    }
  }

  /** After the batch every record of an entry from `r` on is settled and the workspace still empty. */
  lemma BatchPlaces(l: Layout, plan: seq<GrowthObject>, found: seq<nat>, workspace: nat, r: nat, r0: nat,
                    moves: seq<Move>)
    requires Progress(l, plan, found, workspace, r0) && BatchSoFar(l, plan, found, r, r0, moves)
    ensures Progress(Relocate(l, moves), plan, found, workspace, r)
  {
    hide Alloc, Free, WellFormed, Legal, Relocate, InPlace, Targets, Found, SameShape, Settled, Covered, FromEntry;
    var l' := Relocate(l, moves);
    RelocateEffect(l, moves);
    RelocateShape(l, moves);
    assert SizedFrom(l, plan, found, r);
    ShapeKeepsFound(l, l', plan, found, workspace);
    BatchBelow(l, plan, found, workspace, r, r0, moves);
    forall j | r <= j < |plan| ensures Settled(l', plan, found, r, j) {
      BatchSettles(l, plan, found, r, r0, moves, j);
    }
  }

  lemma BatchBelow(l: Layout, plan: seq<GrowthObject>, found: seq<nat>, workspace: nat, r: nat, r0: nat,
                   moves: seq<Move>)
    requires Targets(l, plan, workspace) && AllBelow(l, workspace) && BatchSoFar(l, plan, found, r, r0, moves)
    requires WellFormed(l)
    ensures AllBelow(Relocate(l, moves), workspace)
  {
    hide Alloc, Free, WellFormed, Legal, Relocate, Found, Covered, FromEntry, Targets;
    RelocateEffect(l, moves);
    forall c | c in Destinations(moves) ensures c < workspace {
      var n :| 0 <= n < |moves| && moves[n].destination == c;
      EntryBelow(l, plan, found, workspace, r, r0, moves, moves[n]);
    }
  }

  lemma EntryBelow(l: Layout, plan: seq<GrowthObject>, found: seq<nat>, workspace: nat, r: nat, r0: nat,
                   moves: seq<Move>, m: Move)
    requires Targets(l, plan, workspace) && |found| == |plan| && FromEntry(l, plan, found, r, r0, moves, m)
    ensures m.destination < workspace
  {
    var j, k := EntryOf(l, plan, found, r, r0, moves, m);
  }

  lemma BatchSettles(l: Layout, plan: seq<GrowthObject>, found: seq<nat>, r: nat, r0: nat, moves: seq<Move>, j: nat)
    requires WellFormed(l) && BatchSoFar(l, plan, found, r, r0, moves) && r <= j < |plan|
    requires j >= r0 ==> Settled(l, plan, found, r0, j)
    ensures Settled(Relocate(l, moves), plan, found, r, j)
  {
    hide Alloc, Free, WellFormed, Relocate, Sources, Destinations, FromEntry, Legal, Settled, InPlace, Found;
    FoundAt(l, plan, found, j);
    var i := found[j];
    var chain := l.objs[i].chain;
    if n, q :| 0 <= n < |moves| && 0 <= q < |chain| && moves[n].source == chain[q] {
      var k := BatchMover(l, plan, found, r, r0, moves, n, i, q);
      SettledIntro(Relocate(l, moves), plan, found, r, j, k);
    } else {
      assert forall q | 0 <= q < |chain| :: chain[q] !in Sources(moves) by { NotSources(moves, chain); }
      Unmoved(l, moves, i);
      if j >= r0 {
        var k := SettledAt(l, plan, found, r0, j);
        StillInPlace(l, Relocate(l, moves), plan[k], i);
        SettledIntro(Relocate(l, moves), plan, found, r, j, k);
      } else {
        assert Covered(l, plan[j], i, moves);
        assert InPlace(l, plan[j], i) by { NotWhole(l, plan[j], i, moves); }
        StillInPlace(l, Relocate(l, moves), plan[j], i);
        SettledIntro(Relocate(l, moves), plan, found, r, j, j);
      }
    }
  }

  lemma NotWhole(l: Layout, g: GrowthObject, i: nat, moves: seq<Move>)
    requires i < |l.objs| && g.clusters >= 1
    requires forall q | 0 <= q < |l.objs[i].chain| :: l.objs[i].chain[q] !in Sources(moves)
    ensures !Whole(l, g, i, moves)
  {
    if Whole(l, g, i, moves) { WholeMovesFirst(l, g, i, moves); }
  }

  lemma WholeMovesFirst(l: Layout, g: GrowthObject, i: nat, moves: seq<Move>)
    requires Whole(l, g, i, moves) && g.clusters >= 1
    ensures |l.objs[i].chain| >= 1 && l.objs[i].chain[0] in Sources(moves)
  {
    assert Move(l.objs[i].chain[0], g.target + 0) in moves;
  }

  lemma NotSources(moves: seq<Move>, chain: seq<nat>)
    requires forall n, q | 0 <= n < |moves| && 0 <= q < |chain| :: moves[n].source != chain[q]
    ensures forall q | 0 <= q < |chain| :: chain[q] !in Sources(moves)
  {
  }

  lemma StillInPlace(l: Layout, l': Layout, g: GrowthObject, i: nat)
    requires InPlace(l, g, i) && |l'.objs| == |l.objs| && l'.objs[i].chain == l.objs[i].chain
    ensures InPlace(l', g, i)
  {
  }

  /** A record the batch touches is taken as a whole to the target of one of its entries. */
  lemma BatchMover(l: Layout, plan: seq<GrowthObject>, found: seq<nat>, r: nat, r0: nat, moves: seq<Move>, n: nat,
                   i: nat, q: nat)
    returns (k: nat)
    requires WellFormed(l) && BatchSoFar(l, plan, found, r, r0, moves) && n < |moves| && i < |l.objs|
    requires q < |l.objs[i].chain| && moves[n].source == l.objs[i].chain[q]
    ensures r <= k < |plan| && found[k] == i && InPlace(Relocate(l, moves), plan[k], i)
  {
    hide Alloc, Free, Relocate, Sources, Destinations, Found, WellFormed, InPlace, Covered, Whole, FromEntry;
    var p;
    k, p := EntryOf(l, plan, found, r, r0, moves, moves[n]);
    SameOwner(l, i, q, found[k], p);
    BatchMoved(l, plan[k], i, moves);
  }

  lemma EntryOf(l: Layout, plan: seq<GrowthObject>, found: seq<nat>, r: nat, r0: nat, moves: seq<Move>, m: Move)
    returns (j: nat, k: nat)
    requires |found| == |plan| && FromEntry(l, plan, found, r, r0, moves, m)
    ensures r <= j < r0 && j < |plan| && Whole(l, plan[j], found[j], moves) && MovesTo(l, plan[j], found[j], k, m)
  {
    j, k :| r <= j < r0 && j < |plan| && Whole(l, plan[j], found[j], moves) && MovesTo(l, plan[j], found[j], k, m);
  }

  lemma SameOwner(l: Layout, i: nat, q: nat, o: nat, p: nat)
    requires WellFormed(l) && i < |l.objs| && o < |l.objs| && q < |l.objs[i].chain| && p < |l.objs[o].chain|
    requires l.objs[i].chain[q] == l.objs[o].chain[p]
    ensures i == o
  {
    assert Owns(l, i, q) && Owns(l, o, p);
  }

  lemma BatchMoved(l: Layout, g: GrowthObject, i: nat, moves: seq<Move>)
    requires DistinctMoves(moves) && Whole(l, g, i, moves)
    ensures InPlace(Relocate(l, moves), g, i)
  {
    var chain := l.objs[i].chain;
    forall k | 0 <= k < |chain| ensures Image(RelocationMap(moves), chain[k]) == g.target + k {
      var n :| 0 <= n < |moves| && moves[n] == Move(chain[k], g.target + k);
      ImageAt(moves, n);
    }
  }

  /** find_growth_object_chain: the first record with that path and kind. */
  method FindObject(l: Layout, g: GrowthObject) returns (n: nat)
    ensures n == FirstMatch(l, g)
  {
    n := 0;
    while n < |l.objs| && !SameKey(l.objs[n], g)
      invariant n <= |l.objs| && FirstFrom(l, g, n) == FirstMatch(l, g)
    {
      n := n + 1;
    }
  }

  /** The batching loop: collect objects, last first, whose targets are free; give up on a
      record that does not have the planned size. */
  method PlanBatch(l: Layout, plan: seq<GrowthObject>, ghost found: seq<nat>, r0: nat, objectLimit: nat,
                   clusterLimit: nat)
    returns (r: nat, moves: seq<Move>, changed: bool)
    requires WellFormed(l) && Found(l, plan, found) && r0 <= |plan|
    ensures BatchSoFar(l, plan, found, r, r0, moves)
    ensures moves != [] ==> r < r0
    ensures changed ==> r >= 1 && !Sized(l, plan[r - 1], found[r - 1])
  {
    hide WellFormed, Legal, Whole, FromEntry, Alloc, Free, Found;
    r, moves, changed := r0, [], false;
    var batchObjects := 0;
    assert BatchSoFar(l, plan, found, r, r0, moves) by { BatchEmpty(l, plan, found, r0); }
    while r != 0 && batchObjects < objectLimit
      invariant BatchSoFar(l, plan, found, r, r0, moves)
      invariant moves != [] ==> r < r0
    {
      var g := plan[r - 1];
      FoundAt(l, plan, found, r - 1);
      var i := FindObject(l, g);
      var chain := l.objs[i].chain;
      if |chain| != g.clusters { return r, moves, true; }
      if chain == Run(g.target, |chain|) {
        BatchSkips(l, plan, found, r, r0, moves);
        r := r - 1;
        continue;
      }
      if moves != [] && |moves| + g.clusters > clusterLimit { break; }
      if !CanAdd(l, chain, g.target, moves) { break; }
      BatchGrows(l, plan, found, r, r0, moves);
      moves := moves + WholeMoves(chain, g.target);
      batchObjects := batchObjects + 1;
      r := r - 1;
      if |moves| >= clusterLimit { break; }
    }
  }

  lemma BatchEmpty(l: Layout, plan: seq<GrowthObject>, found: seq<nat>, r0: nat)
    requires Found(l, plan, found) && r0 <= |plan|
    ensures BatchSoFar(l, plan, found, r0, r0, [])
  {
  }

  // ---- Staging through the workspace ---------------------------------------------

  /** The record of entry r-1 is parked in the workspace; all others of later entries are settled. */
  ghost predicate Parked(l: Layout, plan: seq<GrowthObject>, found: seq<nat>, workspace: nat, r: nat) {
    && WellFormed(l) && Found(l, plan, found) && Targets(l, plan, workspace)
    && 1 <= r <= |plan| == |found| && SizedFrom(l, plan, found, r - 1)
    && (forall j | r <= j < |plan| && found[j] != found[r - 1] :: Settled(l, plan, found, r, j))
    && l.objs[found[r - 1]].chain == Run(workspace, plan[r - 1].clusters)
    && (forall c | c in Alloc(l) :: c < workspace + plan[r - 1].clusters)
  }

  /** Other objects do not share clusters with object i. */
  lemma OthersUnmoved(l: Layout, i: nat, destination: nat, o: nat)
    requires WellFormed(l) && i < |l.objs| && o < |l.objs| && o != i
    ensures |Relocate(l, WholeMoves(l.objs[i].chain, destination)).objs| == |l.objs|
    ensures Relocate(l, WholeMoves(l.objs[i].chain, destination)).objs[o].chain == l.objs[o].chain
  {
    var moves := WholeMoves(l.objs[i].chain, destination);
    forall k, n | 0 <= k < |l.objs[o].chain| && 0 <= n < |moves| ensures l.objs[o].chain[k] != moves[n].source {
      assert Owns(l, o, k) && Owns(l, i, n);
    }
    Unmoved(l, moves, o);
  }

  lemma ParkEffect(l: Layout, plan: seq<GrowthObject>, found: seq<nat>, workspace: nat, r: nat)
    requires Progress(l, plan, found, workspace, r) && 1 <= r && Sized(l, plan[r - 1], found[r - 1])
    ensures AllFree(l, workspace, |l.objs[found[r - 1]].chain|)
    ensures Parked(Relocate(l, WholeMoves(l.objs[found[r - 1]].chain, workspace)), plan, found, workspace, r)
  {
    hide WellFormed, Targets, Found, Relocate, RelocationMap, Legal, Alloc, Free, WholeMoves, AllFree, AllBelow,
         InPlace, Settled;
    FoundAt(l, plan, found, r - 1);
    var i, g := found[r - 1], plan[r - 1];
    var moves := WholeMoves(l.objs[i].chain, workspace);
    var l' := Relocate(l, moves);
    WorkspaceFree(l, plan, workspace, r - 1);
    WholeMovesLegal(l, i, workspace);
    WholeMovesEffect(l, i, workspace);
    RelocateEffect(l, moves);
    RelocateShape(l, moves);
    assert SizedFrom(l, plan, found, r - 1);
    ShapeKeepsFound(l, l', plan, found, workspace);
    FoundAt(l', plan, found, r - 1);
    assert forall c | c in Alloc(l) :: c < workspace by { BelowAt(l, workspace); }
    WholeMovesBelow(l, l', i, workspace, workspace + g.clusters);
    forall j | r <= j < |plan| && found[j] != i ensures Settled(l', plan, found, r, j) {
      OthersSettled(l, plan, found, r, i, workspace, j);
    }
  }

  lemma OthersSettled(l: Layout, plan: seq<GrowthObject>, found: seq<nat>, r: nat, i: nat, destination: nat, j: nat)
    requires WellFormed(l) && Found(l, plan, found) && i < |l.objs| && Settled(l, plan, found, r, j) && found[j] != i
    ensures Settled(Relocate(l, WholeMoves(l.objs[i].chain, destination)), plan, found, r, j)
  {
    hide WellFormed, Found, Relocate, WholeMoves, InPlace, Settled;
    var k := SettledAt(l, plan, found, r, j);
    FoundAt(l, plan, found, k);
    OthersUnmoved(l, i, destination, found[k]);
    StillInPlace(l, Relocate(l, WholeMoves(l.objs[i].chain, destination)), plan[k], found[k]);
    SettledIntro(Relocate(l, WholeMoves(l.objs[i].chain, destination)), plan, found, r, j, k);
  }

  lemma WholeMovesBelow(l: Layout, l': Layout, i: nat, destination: nat, bound: nat)
    requires i < |l.objs| && destination + |l.objs[i].chain| <= bound
    requires forall c | c in Alloc(l) :: c < bound
    requires var moves := WholeMoves(l.objs[i].chain, destination);
             Alloc(l') == Alloc(l) - Sources(moves) + Destinations(moves)
    ensures forall c | c in Alloc(l') :: c < bound
  {
    hide Alloc;
    WholeMovesRanges(l.objs[i].chain, destination);
  }

  lemma BelowAt(l: Layout, workspace: nat)
    requires AllBelow(l, workspace)
    ensures forall c | c in Alloc(l) :: c < workspace
  {
  }

  lemma WorkspaceFree(l: Layout, plan: seq<GrowthObject>, workspace: nat, j: nat)
    requires Targets(l, plan, workspace) && AllBelow(l, workspace) && j < |plan|
    ensures AllFree(l, workspace, plan[j].clusters)
  {
  }

  /** The occupied clusters of [lo, hi). */
  ghost function Blockers(l: Layout, lo: nat, hi: nat): set<nat> {
    Range(lo, hi) - Free(l)
  }

  /** The staged object's released source clusters outside the target are at
      least as many as the blockers inside it. */
  lemma EnoughSlots(l: Layout, released: seq<nat>, target: nat, slots: seq<nat>)
    requires Distinct(released) && Distinct(slots)
    requires forall k | 0 <= k < |released| :: released[k] in Free(l)
    requires Elements(slots) == Elements(released) - Range(target, target + |released|)
    ensures |Blockers(l, target, target + |released|)| <= |slots|
  {
    hide Free, Range;
    DistinctCount(released);
    DistinctCount(slots);
    RangeCount(target, |released|);
    var blockers := Blockers(l, target, target + |released|);
    assert blockers !! Elements(released) by {
      assert Elements(released) <= Free(l);
    }
    ExchangeCount(Elements(released), Range(target, target + |released|), blockers);
  }

  lemma ExchangeCount(released: set<nat>, target: set<nat>, blockers: set<nat>)
    requires |released| == |target| && blockers <= target && blockers !! released
    ensures |blockers| <= |released - target|
  {
    var inside := released * target;
    assert released == (released - target) + inside;
    assert |inside + blockers| == |inside| + |blockers|;
    SubsetCount(inside + blockers, target);
  }

  /** The released clusters that lie outside the target. */
  method SourceSlots(l: Layout, released: seq<nat>, target: nat) returns (slots: seq<nat>)
    requires Distinct(released)
    requires forall k | 0 <= k < |released| :: released[k] in Free(l)
    ensures Distinct(slots) && Elements(slots) == Elements(released) - Range(target, target + |released|)
    ensures forall k | 0 <= k < |slots| :: slots[k] in Free(l)
  {
    slots := [];
    for i := 0 to |released|
      invariant Distinct(slots) && Elements(slots) == Elements(released[..i]) - Range(target, target + |released|)
      invariant forall k | 0 <= k < |slots| :: slots[k] in Free(l)
    {
      ElementsAppend(released[..i], released[i]);
      assert released[..i + 1] == released[..i] + [released[i]];
      if released[i] < target || released[i] >= target + |released| {
        forall k | 0 <= k < |slots| ensures slots[k] != released[i] {
          assert slots[k] in Elements(slots);
        }
        ElementsAppend(slots, released[i]);
        slots := slots + [released[i]];
      }
    }
    assert released[..|released|] == released;
  }

  ghost predicate Unblocks(l: Layout, moves: seq<Move>, slots: seq<nat>, lo: nat, hi: nat) {
    && |moves| <= |slots| && |Blockers(l, lo, hi)| == |moves|
    && Sources(moves) == Blockers(l, lo, hi)
    && (forall n | 0 <= n < |moves| :: moves[n].destination == slots[n])
    && (forall n, k | 0 <= n < k < |moves| :: moves[n].source < moves[k].source)
  }

  /** Pair the blockers, ascending, with released source slots. */
  method PlanUnblock(l: Layout, slots: seq<nat>, target: nat, n: nat) returns (moves: seq<Move>)
    requires |Blockers(l, target, target + n)| <= |slots|
    ensures Unblocks(l, moves, slots, target, target + n)
  {
    hide Free, Unblocks, Blockers;
    moves := [];
    var c := target;
    UnblockNone(l, slots, target);
    while c < target + n
      invariant target <= c <= target + n
      invariant Unblocks(l, moves, slots, target, c)
    {
      if c !in Free(l) {
        BlockersGrow(l, target, c + 1, target + n);
        UnblockStep(l, moves, slots, target, c);
        moves := moves + [Move(c, slots[|moves|])];
      } else {
        UnblockSkip(l, moves, slots, target, c);
      }
      c := c + 1;
    }
  }

  lemma BlockerStep(l: Layout, lo: nat, c: nat)
    requires lo <= c
    ensures Blockers(l, lo, c + 1) == Blockers(l, lo, c) + (if c in Free(l) then {} else {c})
    ensures c !in Blockers(l, lo, c)
  {
  }

  lemma UnblockNone(l: Layout, slots: seq<nat>, lo: nat)
    ensures Unblocks(l, [], slots, lo, lo)
  {
    assert Blockers(l, lo, lo) == {};
  }

  lemma UnblockSkip(l: Layout, moves: seq<Move>, slots: seq<nat>, lo: nat, c: nat)
    requires Unblocks(l, moves, slots, lo, c) && lo <= c && c in Free(l)
    ensures Unblocks(l, moves, slots, lo, c + 1)
  {
    BlockerStep(l, lo, c);
  }

  lemma BlockersGrow(l: Layout, lo: nat, mid: nat, hi: nat)
    requires lo <= mid <= hi
    ensures |Blockers(l, lo, mid)| <= |Blockers(l, lo, hi)|
  {
    SubsetCount(Blockers(l, lo, mid), Blockers(l, lo, hi));
  }

  lemma UnblockStep(l: Layout, moves: seq<Move>, slots: seq<nat>, lo: nat, c: nat)
    requires Unblocks(l, moves, slots, lo, c) && lo <= c && c !in Free(l) && |Blockers(l, lo, c + 1)| <= |slots|
    ensures |moves| < |slots|
    ensures Unblocks(l, moves + [Move(c, slots[|moves|])], slots, lo, c + 1)
  {
    hide Free;
    BlockerStep(l, lo, c);
    var all := moves + [Move(c, slots[|moves|])];
    assert Sources(all) == Sources(moves) + {c} by {
      forall x | x in Sources(moves) + {c} ensures x in Sources(all) {
        if x == c { assert all[|moves|].source == c; } else { var n := MoveAt(moves, x); assert all[n] == moves[n]; }
      }
    }
    forall n | 0 <= n < |moves| ensures moves[n].source < c {
      assert moves[n].source in Sources(moves);
    }
  }

  lemma UnblockLegal(l: Layout, moves: seq<Move>, slots: seq<nat>, lo: nat, hi: nat)
    requires Unblocks(l, moves, slots, lo, hi) && Distinct(slots) && 2 <= lo && hi <= l.max + 1
    requires forall k | 0 <= k < |slots| :: slots[k] in Free(l)
    requires forall c | lo <= c < hi :: c !in l.bad
    ensures Legal(l, moves)
  {
    forall n | 0 <= n < |moves| ensures moves[n].source in Alloc(l) {
      assert moves[n].source in Sources(moves);
      assert moves[n].source in Blockers(l, lo, hi);
    }
  }

  /** What the released clusters of the staged object look like. */
  ghost predicate Released(l: Layout, released: seq<nat>, workspace: nat) {
    Distinct(released) && forall k | 0 <= k < |released| :: released[k] in Free(l) && released[k] < workspace
  }

  lemma UnblockClears(l: Layout, moves: seq<Move>, released: seq<nat>, slots: seq<nat>, target: nat)
    requires WellFormed(l) && Legal(l, moves)
    requires Unblocks(l, moves, slots, target, target + |released|)
    requires Elements(slots) == Elements(released) - Range(target, target + |released|)
    ensures AllFree(Relocate(l, moves), target, |released|)
    ensures Destinations(moves) <= Elements(released)
    ensures Sources(moves) <= Range(target, target + |released|)
  {
    hide Free, Alloc, Legal, WellFormed, Relocate;
    RelocateEffect(l, moves);
    forall c | c in Destinations(moves) ensures c in Elements(slots) {
      var n :| 0 <= n < |moves| && moves[n].destination == c;
      assert slots[n] == c;
    }
    forall c | target <= c < target + |released| ensures c in Free(Relocate(l, moves)) {
      assert c in Range(target, target + |released|);
      assert c in Free(l) || c in Blockers(l, target, target + |released|);
    }
  }

  lemma UnblockKeepsParked(l: Layout, plan: seq<GrowthObject>, found: seq<nat>, workspace: nat, r: nat,
                           moves: seq<Move>, released: seq<nat>)
    requires Parked(l, plan, found, workspace, r) && Legal(l, moves) && Released(l, released, workspace)
    requires Destinations(moves) <= Elements(released)
    requires Sources(moves) <= Range(plan[r - 1].target, plan[r - 1].target + plan[r - 1].clusters)
    ensures Parked(Relocate(l, moves), plan, found, workspace, r)
  {
    hide Free, Alloc, Legal, WellFormed, Relocate, Found, SameShape, RelocationMap, Sources, Destinations, Elements,
         Settled, InPlace;
    var l' := Relocate(l, moves);
    RelocateEffect(l, moves);
    RelocateShape(l, moves);
    ShapeKeepsFound(l, l', plan, found, workspace);
    FoundAt(l, plan, found, r - 1);
    var chain := l.objs[found[r - 1]].chain;
    assert forall k | 0 <= k < |chain| :: chain[k] !in Sources(moves);
    Unmoved(l, moves, found[r - 1]);
    UnblockBelow(l, moves, released, workspace, plan[r - 1].clusters);
    forall j | r <= j < |plan| && found[j] != found[r - 1] ensures Settled(l', plan, found, r, j) {
      UnblockSettled(l, plan, found, workspace, r, moves, j);
    }
  }

  lemma UnblockSettled(l: Layout, plan: seq<GrowthObject>, found: seq<nat>, workspace: nat, r: nat, moves: seq<Move>,
                       j: nat)
    requires Found(l, plan, found) && Targets(l, plan, workspace) && 1 <= r && Settled(l, plan, found, r, j)
    requires r <= |plan|
    requires Sources(moves) <= Range(plan[r - 1].target, plan[r - 1].target + plan[r - 1].clusters)
    ensures Settled(Relocate(l, moves), plan, found, r, j)
  {
    hide Found, Relocate, Sources, Settled;
    var k := SettledAt(l, plan, found, r, j);
    FoundAt(l, plan, found, k);
    var chain := l.objs[found[k]].chain;
    assert forall q | 0 <= q < |chain| :: chain[q] !in Sources(moves);
    Unmoved(l, moves, found[k]);
    SettledIntro(Relocate(l, moves), plan, found, r, j, k);
  }

  lemma UnblockBelow(l: Layout, moves: seq<Move>, released: seq<nat>, workspace: nat, n: nat)
    requires WellFormed(l) && Legal(l, moves) && Released(l, released, workspace)
    requires Destinations(moves) <= Elements(released)
    requires forall c | c in Alloc(l) :: c < workspace + n
    ensures forall c | c in Alloc(Relocate(l, moves)) :: c < workspace + n
  {
    hide Free, Alloc, Legal, WellFormed, Relocate, Sources;
    RelocateEffect(l, moves);
  }

  lemma PlaceBackEffect(l: Layout, plan: seq<GrowthObject>, found: seq<nat>, workspace: nat, r: nat)
    requires Parked(l, plan, found, workspace, r) && AllFree(l, plan[r - 1].target, plan[r - 1].clusters)
    ensures var i := found[r - 1];
            Progress(Relocate(l, WholeMoves(l.objs[i].chain, plan[r - 1].target)), plan, found, workspace, r - 1)
  {
    hide Free, Alloc, Legal, WellFormed, Relocate, Found, SameShape, RelocationMap, WholeMoves, InPlace, Targets,
         Sources, Destinations, Settled;
    FoundAt(l, plan, found, r - 1);
    var i, g := found[r - 1], plan[r - 1];
    var chain := l.objs[i].chain;
    var moves := WholeMoves(chain, g.target);
    var l' := Relocate(l, moves);
    WholeMovesLegal(l, i, g.target);
    WholeMovesEffect(l, i, g.target);
    RelocateEffect(l, moves);
    RelocateShape(l, moves);
    ShapeKeepsFound(l, l', plan, found, workspace);
    PlaceBackBelow(l, plan, workspace, r - 1, l', chain);
    InPlaceIntro(l', g, i);
    var last: nat := r - 1;
    forall j | last <= j < |plan| ensures Settled(l', plan, found, last, j) {
      if found[j] == i {
        SettledIntro(l', plan, found, last, j, last);
      } else {
        OthersSettled(l, plan, found, r, i, g.target, j);
        var k := SettledAt(l', plan, found, r, j);
        SettledIntro(l', plan, found, last, j, k);
      }
    }
  }

  lemma PlaceBackBelow(l: Layout, plan: seq<GrowthObject>, workspace: nat, j: nat, l': Layout, chain: seq<nat>)
    requires Targets(l, plan, workspace) && j < |plan|
    requires forall c | c in Alloc(l) :: c < workspace + plan[j].clusters
    requires chain == Run(workspace, plan[j].clusters)
    requires var moves := WholeMoves(chain, plan[j].target);
      Alloc(l') == Alloc(l) - Sources(moves) + Destinations(moves)
    ensures AllBelow(l', workspace)
  {
    hide Alloc, WholeMoves;
    WholeMovesRanges(chain, plan[j].target);
    if chain != [] {
      assert chain[0] == workspace && Contiguous(chain);
    }
  }

  lemma InPlaceIntro(l: Layout, g: GrowthObject, i: nat)
    requires i < |l.objs| && l.objs[i].chain == Run(g.target, g.clusters)
    ensures InPlace(l, g, i)
  {
  }

  lemma ParkReleases(l: Layout, plan: seq<GrowthObject>, found: seq<nat>, workspace: nat, r: nat, l': Layout)
    requires Progress(l, plan, found, workspace, r) && 1 <= r && found[r - 1] < |l.objs|
    requires var moves := WholeMoves(l.objs[found[r - 1]].chain, workspace);
             Free(l') == Free(l) - Destinations(moves) + Sources(moves)
    ensures Released(l', l.objs[found[r - 1]].chain, workspace)
  {
    hide Free, Targets, Found, Settled;
    var i := found[r - 1];
    var chain := l.objs[i].chain;
    var moves := WholeMoves(chain, workspace);
    forall k | 0 <= k < |chain| ensures chain[k] in Free(l') && chain[k] < workspace {
      AllocAt(l, i, k);
      assert moves[k].source in Sources(moves);
    }
    forall a, b | 0 <= a < b < |chain| ensures chain[a] != chain[b] {
      assert Owns(l, i, a) && Owns(l, i, b);
    }
  }

  /** cluster_range_is_free */
  method RangeIsFree(l: Layout, start: nat, length: nat) returns (r: bool)
    ensures r <==> AllFree(l, start, length)
  {
    for i := 0 to length
      invariant AllFree(l, start, i)
    {
      if start + i !in Free(l) { return false; }
    }
    r := true;
  }

  /** Clear the target of the parked record by evacuating blockers into the
      record's released clusters.  None of the engine's error exits can be taken. */
  method ClearTarget(e: Engine, plan: seq<GrowthObject>, ghost found: seq<nat>, workspace: nat, r: nat,
                     released: seq<nat>)
    requires e.Valid() && Parked(e.lay, plan, found, workspace, r)
    requires Released(e.lay, released, workspace) && |released| == plan[r - 1].clusters
    modifies e
    ensures e.Valid() && Parked(e.lay, plan, found, workspace, r)
    ensures AllFree(e.lay, plan[r - 1].target, plan[r - 1].clusters)
    ensures old(e.txs) <= e.txs && |Free(e.lay)| == |Free(old(e.lay))|
    ensures e.lay.bad == old(e.lay.bad) && e.lay.max == old(e.lay.max)
  {
    hide Free, Alloc, Legal, WellFormed, Found, Reached, Unblocks, Distinct, Elements, Settled, SizedFrom;
    var target := plan[r - 1].target;
    var slots := SourceSlots(e.lay, released, target);
    EnoughSlots(e.lay, released, target, slots);
    var moves := PlanUnblock(e.lay, slots, target, |released|);
    UnblockLegal(e.lay, moves, slots, target, target + |released|);
    UnblockClears(e.lay, moves, released, slots, target);
    UnblockKeepsParked(e.lay, plan, found, workspace, r, moves, released);
    e.ExecuteMoves(moves);
  }

  lemma ParkedAt(l: Layout, plan: seq<GrowthObject>, found: seq<nat>, workspace: nat, r: nat)
    requires Parked(l, plan, found, workspace, r)
    ensures 1 <= r <= |plan| == |found| && found[r - 1] == FirstMatch(l, plan[r - 1]) < |l.objs|
    ensures l.objs[found[r - 1]].chain == Run(workspace, plan[r - 1].clusters)
  {
  }

  /** Place the record of entry r-1 through the workspace: two or three transactions, unless
      it does not have the planned size. */
  method StageAndPlace(e: Engine, plan: seq<GrowthObject>, ghost found: seq<nat>, workspace: nat, r: nat)
    returns (changed: bool)
    requires e.Valid() && Progress(e.lay, plan, found, workspace, r) && 1 <= r
    modifies e
    ensures e.Valid() && old(e.txs) <= e.txs && |Free(e.lay)| == |Free(old(e.lay))|
    ensures e.lay.bad == old(e.lay.bad) && e.lay.max == old(e.lay.max)
    ensures changed <==> !Sized(old(e.lay), plan[r - 1], found[r - 1])
    ensures changed ==> e.lay == old(e.lay) && e.txs == old(e.txs)
    ensures !changed ==> Progress(e.lay, plan, found, workspace, r - 1)
  {
    hide Free, Alloc, Legal, WellFormed, Found, Reached, Distinct, Targets, InPlace, Relocate, WholeMoves, AllFree,
         AllBelow, Released, Parked, Settled, SizedFrom;
    var g := plan[r - 1];
    FoundAt(e.lay, plan, found, r - 1);
    var i := FindObject(e.lay, g);
    var released := e.lay.objs[i].chain;
    if |released| != g.clusters { return true; }
    changed := false;
    var before := e.lay;
    ParkEffect(e.lay, plan, found, workspace, r);
    WholeMovesLegal(e.lay, i, workspace);
    e.ExecuteMoves(WholeMoves(released, workspace));
    ParkReleases(before, plan, found, workspace, r, e.lay);
    var clear := RangeIsFree(e.lay, g.target, g.clusters);
    if !clear {
      ClearTarget(e, plan, found, workspace, r, released);
    }
    ParkedAt(e.lay, plan, found, workspace, r);
    i := FindObject(e.lay, g);
    var chain := e.lay.objs[i].chain;
    assert chain == Run(workspace, g.clusters);
    PlaceBackEffect(e.lay, plan, found, workspace, r);
    WholeMovesLegal(e.lay, i, g.target);
    e.ExecuteMoves(WholeMoves(chain, g.target));
  }

  datatype LayoutEnd = Finished | Stopped | SizeChanged

  /** The layout loop of growth_defrag_volume, for any scanned records.  Its only error exit is the
      size test of a record found again; otherwise every record found ends at a target planned for it. */
  method LayoutObjects(e: Engine, plan: seq<GrowthObject>, ghost found: seq<nat>, workspace: nat,
                       objectLimit: nat, clusterLimit: nat, stop: nat -> bool)
    returns (end: LayoutEnd)
    requires e.Valid() && Progress(e.lay, plan, found, workspace, |plan|)
    modifies e
    ensures e.Valid() && old(e.txs) <= e.txs && |Free(e.lay)| == |Free(old(e.lay))|
    ensures e.lay.bad == old(e.lay.bad) && e.lay.max == old(e.lay.max)
    ensures end.Stopped? ==> exists n :: stop(n)
    ensures end.SizeChanged? ==> !SizedFrom(old(e.lay), plan, found, 0)
    ensures end.Finished? ==> SizedFrom(old(e.lay), plan, found, 0) && Progress(e.lay, plan, found, workspace, 0)
  {
    hide Free, Alloc, Legal, WellFormed, Found, Reached, BatchSoFar, Targets, InPlace, Settled, SameShape, SizedFrom,
         Sized, AllBelow;
    var r: nat, polls: nat := |plan|, 0;
    ghost var start := e.lay;
    RunShape(e, start, e.txs);
    while r != 0
      invariant e.Valid() && Progress(e.lay, plan, found, workspace, r) && SameShape(start, e.lay)
      invariant old(e.txs) <= e.txs && |Free(e.lay)| == |Free(old(e.lay))|
      invariant e.lay.bad == old(e.lay.bad) && e.lay.max == old(e.lay.max)
    {
      if stop(polls) { return Stopped; }
      polls := polls + 1;
      var next, moves, changed := PlanBatch(e.lay, plan, found, r, objectLimit, clusterLimit);
      BatchLegalOf(e.lay, plan, found, next, r, moves);
      if changed {
        WrongSize(start, e.lay, plan, found, next - 1);
        return SizeChanged;
      }
      BatchPlaces(e.lay, plan, found, workspace, next, r, moves);
      if moves != [] {
        ShapeSteps(start, e.lay, moves);
        e.ExecuteMoves(moves);
        r := next;
      } else if next < r {
        RelocateNothing(e.lay);
        r := next;
      } else {
        ghost var before, txs := e.lay, e.txs;
        changed := StageAndPlace(e, plan, found, workspace, r);
        if changed {
          WrongSize(start, e.lay, plan, found, r - 1);
          return SizeChanged;
        }
        RunShape(e, before, txs);
        ShapeChain(start, before, e.lay);
        r := r - 1;
      }
    }
    AllSized(start, e.lay, plan, found);
    end := Finished;
  }

  lemma BatchLegalOf(l: Layout, plan: seq<GrowthObject>, found: seq<nat>, r: nat, r0: nat, moves: seq<Move>)
    requires BatchSoFar(l, plan, found, r, r0, moves)
    ensures Legal(l, moves) && r <= r0
  {
  }

  lemma WrongSize(l: Layout, l': Layout, plan: seq<GrowthObject>, found: seq<nat>, j: nat)
    requires SameShape(l, l') && j < |plan| == |found| && !Sized(l', plan[j], found[j])
    ensures !SizedFrom(l, plan, found, 0)
  {
  }

  lemma AllSized(l: Layout, l': Layout, plan: seq<GrowthObject>, found: seq<nat>)
    requires SameShape(l, l') && SizedFrom(l', plan, found, 0)
    ensures SizedFrom(l, plan, found, 0)
  {
    forall j | 0 <= j < |plan| ensures Sized(l, plan[j], found[j]) { assert Sized(l', plan[j], found[j]); }
  }

  lemma ShapeBetween(origin: Layout, l: Layout, l': Layout)
    requires SameShape(origin, l) && SameShape(origin, l')
    ensures SameShape(l, l')
  {
  }

  lemma ShapeChain(l: Layout, l': Layout, l'': Layout)
    requires SameShape(l, l') && SameShape(l', l'')
    ensures SameShape(l, l'')
  {
  }

  /** Layouts along one run have the same shape. */
  lemma RunShape(e: Engine, before: Layout, txs: seq<seq<Move>>)
    requires e.Valid() && Reached(e.origin, txs, before)
    ensures SameShape(before, e.lay)
  {
    hide Reached, WellFormed;
    RunKeeps(e.origin, txs, before);
    RunKeeps(e.origin, e.txs, e.lay);
    ShapeBetween(e.origin, before, e.lay);
  }

  lemma RelocateNothing(l: Layout)
    ensures Relocate(l, []) == l
  {
    var l' := Relocate(l, []);
    forall i | 0 <= i < |l.objs| ensures l'.objs[i] == l.objs[i] {
      assert l'.objs[i].chain == l.objs[i].chain;
    }
    assert l'.objs == l.objs;
  }

  // ---- What a finished layout means ------------------------------------------------

  ghost function FoundIn(l: Layout, plan: seq<GrowthObject>): (found: seq<nat>)
    ensures |found| == |plan| && forall j | 0 <= j < |plan| :: found[j] == FirstMatch(l, plan[j])
  {
    seq(|plan|, j requires 0 <= j < |plan| => FirstMatch(l, plan[j]))
  }

  lemma {:induction false} SameKeyFrom(l: Layout, g: GrowthObject, h: GrowthObject, n: nat)
    requires n <= |l.objs| && forall k | 0 <= k < |l.objs| :: SameKey(l.objs[k], g) <==> SameKey(l.objs[k], h)
    ensures FirstFrom(l, g, n) == FirstFrom(l, h, n)
    decreases |l.objs| - n
  {
    if n < |l.objs| && !SameKey(l.objs[n], g) { SameKeyFrom(l, g, h, n + 1); }
  }

  /** A planned object is looked up as the object it describes would be. */
  lemma LooksUp(l: Layout, g: GrowthObject, i: nat)
    requires Describes(l, g, i)
    ensures FirstMatch(l, g) == FirstMatch(l, KeyOf(l.objs[i])) <= i
  {
    SameKeyFrom(l, g, KeyOf(l.objs[i]), 0);
  }

  lemma FoundExists(l: Layout, plan: seq<GrowthObject>, idx: seq<nat>)
    requires Matches(l, plan, idx)
    ensures Found(l, plan, FoundIn(l, plan))
  {
    hide FirstMatch, FoundIn;
    forall j | 0 <= j < |plan| ensures FirstMatch(l, plan[j]) < |l.objs| && plan[j].clusters >= 1 {
      assert Describes(l, plan[j], idx[j]);
      LooksUp(l, plan[j], idx[j]);
    }
  }

  /** The size exit depends on the scanned records alone. */
  lemma SizedExact(l: Layout, plan: seq<GrowthObject>, idx: seq<nat>, found: seq<nat>)
    requires Matches(l, plan, idx) && Found(l, plan, found)
    ensures SizedFrom(l, plan, found, 0) <==> SizesAgree(l)
  {
    hide FirstMatch;
    forall j | 0 <= j < |plan|
      ensures Sized(l, plan[j], found[j]) <==> |l.objs[found[j]].chain| == |l.objs[idx[j]].chain|
    {
      assert Describes(l, plan[j], idx[j]);
    }
    forall j | 0 <= j < |plan| ensures found[j] == FirstMatch(l, KeyOf(l.objs[idx[j]])) {
      LooksUp(l, plan[j], idx[j]);
    }
    if SizedFrom(l, plan, found, 0) {
      forall i | 0 <= i < |l.objs| && l.objs[i].chain != []
        ensures var n := FirstMatch(l, KeyOf(l.objs[i])); n < |l.objs| && |l.objs[n].chain| == |l.objs[i].chain|
      {
        assert i in idx;
        var j :| 0 <= j < |idx| && idx[j] == i;
        assert Sized(l, plan[j], found[j]);
      }
    }
  }

  /** Every entry finds a record at its target exactly when no two entries find the same record. */
  lemma EachAtTarget(l: Layout, plan: seq<GrowthObject>, found: seq<nat>, workspace: nat)
    requires Progress(l, plan, found, workspace, 0)
    ensures (forall j | 0 <= j < |plan| :: InPlace(l, plan[j], found[j])) <==> Distinct(found)
  {
    hide WellFormed, FirstMatch, AllBelow;
    if Distinct(found) {
      forall j | 0 <= j < |plan| ensures InPlace(l, plan[j], found[j]) {
        var k := SettledAt(l, plan, found, 0, j);
      }
    }
    if forall j | 0 <= j < |plan| :: InPlace(l, plan[j], found[j]) {
      forall j, k | 0 <= j < k < |plan| ensures found[j] != found[k] {
        assert InPlace(l, plan[j], found[j]) && InPlace(l, plan[k], found[k]);
        OneStart(l, plan[j], plan[k], found[j], found[k]);
      }
    }
  }

  lemma OneStart(l: Layout, g: GrowthObject, h: GrowthObject, i: nat, n: nat)
    requires InPlace(l, g, i) && InPlace(l, h, n) && g.clusters >= 1 && h.clusters >= 1 && g.target != h.target
    ensures i != n
  {
    assert l.objs[i].chain[0] == g.target && l.objs[n].chain[0] == h.target;
  }

  /** With the planned sizes, no two entries find the same record exactly when each finds its own object. */
  lemma OwnRecords(l: Layout, plan: seq<GrowthObject>, idx: seq<nat>, found: seq<nat>)
    requires Matches(l, plan, idx) && Found(l, plan, found) && SizedFrom(l, plan, found, 0)
    ensures Distinct(found) <==> Findable(l)
    ensures Findable(l) ==> found == idx
  {
    hide FirstMatch;
    forall j | 0 <= j < |plan|
      ensures found[j] == FirstMatch(l, KeyOf(l.objs[idx[j]])) && l.objs[found[j]].chain != []
    {
      assert Describes(l, plan[j], idx[j]) && Sized(l, plan[j], found[j]);
      LooksUp(l, plan[j], idx[j]);
    }
    if Findable(l) {
      forall j | 0 <= j < |plan| ensures found[j] == idx[j] { assert Describes(l, plan[j], idx[j]); }
    }
    if Distinct(found) {
      forall i | 0 <= i < |l.objs| && l.objs[i].chain != [] ensures FirstMatch(l, KeyOf(l.objs[i])) == i {
        assert i in idx;
        var j :| 0 <= j < |idx| && idx[j] == i;
        assert found[j] in idx;
        var k :| 0 <= k < |idx| && idx[k] == found[j];
        assert Describes(l, plan[j], idx[j]) && Describes(l, plan[k], idx[k]);
        FirstOfFirst(l, plan[j], plan[k]);
        assert found[k] == found[j];
      }
    }
  }

  /** What a lookup returns is found again by its own path and kind. */
  lemma FirstOfFirst(l: Layout, g: GrowthObject, h: GrowthObject)
    requires FirstMatch(l, g) < |l.objs| && SameKey(l.objs[FirstMatch(l, g)], h)
    ensures FirstMatch(l, h) == FirstMatch(l, g)
  {
    SameKeyFrom(l, g, h, 0);
  }

  /** Where every object is found by its path and kind, a finished loop has laid all of them out. */
  lemma FinishedLayout(l: Layout, plan: seq<GrowthObject>, idx: seq<nat>, found: seq<nat>, workspace: nat)
    requires Progress(l, plan, found, workspace, 0) && Matches(l, plan, idx) && Findable(l)
    ensures LaidOut(l, plan, idx)
  {
    hide WellFormed, FirstMatch, AllBelow, Targets, Matches, InPlace, Findable, Found, Settled;
    OwnRecords(l, plan, idx, found);
    EachAtTarget(l, plan, found, workspace);
  }
}
