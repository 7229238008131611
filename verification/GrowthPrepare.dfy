/** Growth preparation: pack whole objects downward, staging or shifting when none fits. */
module GrowthPrepare {
  import opened ClusterLayout
  import opened FatEngine

  datatype PrepareStats = PrepareStats(clustersMoved: nat, transactions: nat)

  // ---- Chains ---------------------------------------------------------------

  function Run(start: nat, length: nat): (r: seq<nat>) {
    seq(length, k requires 0 <= k < length => start + k)
  }

  /** chain_fragments(chain) == 1 (for a non-empty chain). */
  predicate Contiguous(chain: seq<nat>) {
    chain == [] || chain == Run(chain[0], |chain|)
  }

  /** chain_lies_above_destination */
  predicate LiesAbove(chain: seq<nat>, destination: nat) {
    chain != [] && forall k | 0 <= k < |chain| :: chain[k] > destination + |chain| - 1
  }

  /** Moves that rebuild `chain` as one run starting at `destination`. */
  function WholeMoves(chain: seq<nat>, destination: nat): (r: seq<Move>)
    ensures |r| == |chain|
  {
    seq(|chain|, k requires 0 <= k < |chain| => Move(chain[k], destination + k))
  }

  function MinCluster(chain: seq<nat>): (m: nat)
    requires chain != []
    ensures m in chain && forall k | 0 <= k < |chain| :: m <= chain[k]
  {
    if |chain| == 1 then chain[0]
    else
      var m := MinCluster(chain[1..]);
      assert forall k | 1 <= k < |chain| :: chain[k] == chain[1..][k - 1];
      if chain[0] <= m then chain[0] else m
  }

  /** The clusters of the objects whose index is in `sel`. */
  ghost function OwnedBy(l: Layout, sel: set<nat>): set<nat> {
    set i, k | i in sel && 0 <= i < |l.objs| && 0 <= k < |l.objs[i].chain| :: l.objs[i].chain[k]
  }

  // ---- Whole-object packing --------------------------------------------------

  /** Candidate test of the whole-object search; `limit` is the space the search
      may still use in this hole, cluster budget and transaction. */
  predicate Eligible(l: Layout, i: nat, selected: set<nat>, destination: nat, limit: nat) {
    && i < |l.objs| && i !in selected
    && |l.objs[i].chain| <= limit && LiesAbove(l.objs[i].chain, destination)
  }

  datatype Choice = None | Some(index: nat)

  /** The first of the lowest candidates among the first `n` records. */
  function BestOf(l: Layout, selected: set<nat>, destination: nat, limit: nat, n: nat): (best: Choice)
    requires n <= |l.objs|
    ensures best.Some? ==> Eligible(l, best.index, selected, destination, limit)
  {
    if n == 0 then None
    else
      var best := BestOf(l, selected, destination, limit, n - 1);
      if Eligible(l, n - 1, selected, destination, limit)
         && (best.None? || MinCluster(l.objs[n - 1].chain) < MinCluster(l.objs[best.index].chain))
      then Some(n - 1) else best
  }

  /** The candidate with the lowest first cluster (minima of disjoint chains never tie). */
  method SelectWholeObject(l: Layout, selected: set<nat>, destination: nat, limit: nat) returns (best: Choice)
    ensures best.None? ==> forall i | 0 <= i < |l.objs| :: !Eligible(l, i, selected, destination, limit)
    ensures best.Some? ==> Eligible(l, best.index, selected, destination, limit)
    ensures best.Some? ==> forall i | 0 <= i < |l.objs| && Eligible(l, i, selected, destination, limit) ::
      MinCluster(l.objs[best.index].chain) <= MinCluster(l.objs[i].chain)
    ensures best == BestOf(l, selected, destination, limit, |l.objs|)
  {
    best := None;
    for i := 0 to |l.objs|
      invariant best.None? ==> forall j | 0 <= j < i :: !Eligible(l, j, selected, destination, limit)
      invariant best.Some? ==> Eligible(l, best.index, selected, destination, limit)
      invariant best.Some? ==> forall j | 0 <= j < i && Eligible(l, j, selected, destination, limit) ::
        MinCluster(l.objs[best.index].chain) <= MinCluster(l.objs[j].chain)
      invariant best == BestOf(l, selected, destination, limit, i)
    {
      if Eligible(l, i, selected, destination, limit) {
        if best.None? || MinCluster(l.objs[i].chain) < MinCluster(l.objs[best.index].chain) {
          best := Some(i);
        }
      }
    }
  }

  /** The moves fill the hole upward from its start, from clusters above it. */
  ghost predicate FillsHole(l: Layout, moves: seq<Move>, start: nat) {
    && Legal(l, moves)
    && forall n | 0 <= n < |moves| :: moves[n].destination == start + n && moves[n].source > start
  }

  ghost predicate PlanSoFar(l: Layout, moves: seq<Move>, start: nat, selected: set<nat>) {
    FillsHole(l, moves, start) && Sources(moves) <= OwnedBy(l, selected)
  }

  lemma PlanEmpty(l: Layout, start: nat)
    ensures PlanSoFar(l, [], start, {})
  {
  }

  lemma PlanGrowsDistinct(l: Layout, moves: seq<Move>, start: nat, selected: set<nat>, i: nat)
    requires WellFormed(l) && PlanSoFar(l, moves, start, selected)
    requires i < |l.objs| && i !in selected
    ensures DistinctMoves(moves + WholeMoves(l.objs[i].chain, start + |moves|))
  {
    var all := moves + WholeMoves(l.objs[i].chain, start + |moves|);
    forall a, b | 0 <= a < b < |all| && b >= |moves| ensures all[a].source != all[b].source {
      assert Owns(l, i, b - |moves|);
      if a >= |moves| {
        assert Owns(l, i, a - |moves|);
      } else {
        assert moves[a].source in Sources(moves);
        var j, n :| j in selected && Owns(l, j, n) && l.objs[j].chain[n] == moves[a].source;
      }
    }
  }

  lemma PlanGrowsAt(l: Layout, moves: seq<Move>, start: nat, selected: set<nat>, i: nat, n: nat)
    requires PlanSoFar(l, moves, start, selected)
    requires i < |l.objs| && LiesAbove(l.objs[i].chain, start + |moves|)
    requires AllFree(l, start, |moves| + |l.objs[i].chain|) && n < |moves| + |l.objs[i].chain|
    ensures var m := (moves + WholeMoves(l.objs[i].chain, start + |moves|))[n];
            && m.destination == start + n && m.source > start
            && m.source in Alloc(l) && m.destination in Free(l)
            && m.source in OwnedBy(l, selected + {i})
  {
    if n < |moves| {
      assert moves[n].source in Sources(moves);
    } else {
      assert Owns(l, i, n - |moves|);
    }
  }

  lemma PlanGrows(l: Layout, moves: seq<Move>, start: nat, selected: set<nat>, i: nat)
    requires WellFormed(l) && PlanSoFar(l, moves, start, selected)
    requires i < |l.objs| && i !in selected && LiesAbove(l.objs[i].chain, start + |moves|)
    requires AllFree(l, start, |moves| + |l.objs[i].chain|)
    ensures PlanSoFar(l, moves + WholeMoves(l.objs[i].chain, start + |moves|), start, selected + {i})
  {
    hide Alloc, Free, WellFormed, OwnedBy;
    PlanGrowsDistinct(l, moves, start, selected, i);
    var all := moves + WholeMoves(l.objs[i].chain, start + |moves|);
    forall n | 0 <= n < |all|
      ensures all[n].destination == start + n && all[n].source > start
      ensures all[n].source in Alloc(l) && all[n].destination in Free(l)
      ensures all[n].source in OwnedBy(l, selected + {i})
    {
      PlanGrowsAt(l, moves, start, selected, i, n);
    }
  }

  /** Space for the next object when `count` clusters of the hole are planned: the hole,
      the cluster budget and, after the first object, the transaction. */
  function SpaceLeft(length: nat, remaining: nat, batchClusters: nat, count: nat): nat {
    if count >= length || count >= remaining || (count > 0 && count >= batchClusters) then 0
    else
      var limit := Min(length - count, remaining - count);
      if count > 0 then Min(limit, batchClusters - count) else limit
  }

  /** Whole objects packed into the hole, lowest first, from cluster `start + count` on. */
  function Packing(l: Layout, start: nat, length: nat, remaining: nat, batchClusters: nat, count: nat,
                   selected: set<nat>): seq<Move>
    decreases if count <= length then length - count else 0
  {
    var limit := SpaceLeft(length, remaining, batchClusters, count);
    if limit == 0 then []
    else
      match BestOf(l, selected, start + count, limit, |l.objs|)
      case None => []
      case Some(i) =>
        var chain := l.objs[i].chain;
        WholeMoves(chain, start + count)
        + Packing(l, start, length, remaining, batchClusters, count + |chain|, selected + {i})
  }

  lemma PackOne(l: Layout, start: nat, length: nat, remaining: nat, batchClusters: nat, moves: seq<Move>,
                selected: set<nat>, i: nat)
    requires |moves| < length && SpaceLeft(length, remaining, batchClusters, |moves|) > 0
    requires BestOf(l, selected, start + |moves|, SpaceLeft(length, remaining, batchClusters, |moves|), |l.objs|) ==
      Some(i)
    ensures i < |l.objs|
    ensures var more := moves + WholeMoves(l.objs[i].chain, start + |moves|);
            moves + Packing(l, start, length, remaining, batchClusters, |moves|, selected) ==
            more + Packing(l, start, length, remaining, batchClusters, |more|, selected + {i})
  {
    hide BestOf, SpaceLeft;
  }

  /** The object-packing loop of one preparation pass. */
  method PlanWholeObjects(l: Layout, h: Hole, remaining: nat, batchClusters: nat) returns (moves: seq<Move>)
    requires WellFormed(l) && h.Hole? && IsFirstHole(l, h)
    ensures FillsHole(l, moves, h.start) && |moves| <= remaining
    ensures moves == [] ==> forall i | 0 <= i < |l.objs| ::
      !Eligible(l, i, {}, h.start, Min(h.length, remaining))
    ensures moves == Packing(l, h.start, h.length, remaining, batchClusters, 0, {})
  {
    hide WellFormed, Legal, Packing, BestOf;
    ghost var all := Packing(l, h.start, h.length, remaining, batchClusters, 0, {});
    moves := [];
    var selected: set<nat> := {};
    assert PlanSoFar(l, moves, h.start, selected) by { PlanEmpty(l, h.start); }
    while true
      invariant PlanSoFar(l, moves, h.start, selected)
      invariant |moves| <= h.length && |moves| <= remaining
      invariant moves == [] ==> selected == {}
      invariant all == moves + Packing(l, h.start, h.length, remaining, batchClusters, |moves|, selected)
      decreases h.length - |moves|
    {
      var available := remaining - |moves|;
      var limit := h.length - |moves|;
      if available == 0 || limit == 0 {
        PackNothing(l, h.start, h.length, remaining, batchClusters, |moves|, selected);
        break;
      }
      if limit > available { limit := available; }
      if moves != [] {
        if batchClusters <= |moves| {
          PackNothing(l, h.start, h.length, remaining, batchClusters, |moves|, selected);
          break;
        }
        if limit > batchClusters - |moves| { limit := batchClusters - |moves|; }
      }
      var best := SelectWholeObject(l, selected, h.start + |moves|, limit);
      if best.None? {
        PackNothing(l, h.start, h.length, remaining, batchClusters, |moves|, selected);
        break;
      }
      assert AllFree(l, h.start, |moves| + |l.objs[best.index].chain|);
      PlanGrows(l, moves, h.start, selected, best.index);
      PackOne(l, h.start, h.length, remaining, batchClusters, moves, selected, best.index);
      moves := moves + WholeMoves(l.objs[best.index].chain, h.start + |moves|);
      selected := selected + {best.index};
    }
  }

  lemma PackNothing(l: Layout, start: nat, length: nat, remaining: nat, batchClusters: nat, count: nat,
                    selected: set<nat>)
    requires var limit := SpaceLeft(length, remaining, batchClusters, count);
             limit == 0 || BestOf(l, selected, start + count, limit, |l.objs|).None?
    ensures Packing(l, start, length, remaining, batchClusters, count, selected) == []
  {
  }

  // ---- Staging and extent shifting -------------------------------------------

  /** The first contiguous record from `n` on that starts at `source`. */
  function FirstStage(l: Layout, source: nat, n: nat): (r: Choice)
    requires n <= |l.objs|
    ensures r.Some? ==> r.index < |l.objs|
    decreases |l.objs| - n
  {
    if n == |l.objs| then None
    else if l.objs[n].chain != [] && l.objs[n].chain[0] == source && Contiguous(l.objs[n].chain) then Some(n)
    else FirstStage(l, source, n + 1)
  }

  /** The contiguous object whose first cluster directly follows the hole. */
  method FindStageObject(l: Layout, source: nat) returns (r: Choice)
    ensures r == FirstStage(l, source, 0)
    ensures r.Some? ==>
      r.index < |l.objs| && l.objs[r.index].chain != [] && l.objs[r.index].chain == Run(source, |l.objs[r.index].chain|)
  {
    for i := 0 to |l.objs|
      invariant FirstStage(l, source, 0) == FirstStage(l, source, i)
    {
      var chain := l.objs[i].chain;
      if chain != [] && chain[0] == source && Contiguous(chain) { return Some(i); }
    }
    r := None;
  }

  lemma WholeMovesLegal(l: Layout, i: nat, destination: nat)
    requires WellFormed(l) && i < |l.objs| && AllFree(l, destination, |l.objs[i].chain|)
    ensures Legal(l, WholeMoves(l.objs[i].chain, destination))
  {
    var chain := l.objs[i].chain;
    var moves := WholeMoves(chain, destination);
    forall n | 0 <= n < |moves| ensures moves[n].source in Alloc(l) {
      AllocAt(l, i, n);
    }
    forall a, b | 0 <= a < b < |moves| ensures moves[a].source != moves[b].source {
      assert Owns(l, i, a) && Owns(l, i, b);
    }
  }

  lemma WholeMovesRename(chain: seq<nat>, destination: nat)
    requires DistinctMoves(WholeMoves(chain, destination))
    ensures RenameChain(RelocationMap(WholeMoves(chain, destination)), chain) == Run(destination, |chain|)
  {
    hide RelocationMap, DistinctMoves, Image;
    var moves := WholeMoves(chain, destination);
    forall k | 0 <= k < |chain| ensures Image(RelocationMap(moves), chain[k]) == destination + k {
      ImageAt(moves, k);
    }
  }

  /** Rebuilding one object as a run. */
  lemma WholeMovesEffect(l: Layout, i: nat, destination: nat)
    requires WellFormed(l) && i < |l.objs| && AllFree(l, destination, |l.objs[i].chain|)
    ensures var l' := Relocate(l, WholeMoves(l.objs[i].chain, destination));
            |l'.objs| == |l.objs| && l'.objs[i].chain == Run(destination, |l.objs[i].chain|)
  {
    WholeMovesLegal(l, i, destination);
    WholeMovesRename(l.objs[i].chain, destination);
  }

  /** Some whole object can be moved down onto the lowest free cluster. */
  ghost predicate WholeObjectFits(l: Layout) {
    exists i, s :: FitsAt(l, i, s)
  }

  ghost predicate FitsAt(l: Layout, i: nat, s: nat) {
    && i < |l.objs| && LiesAbove(l.objs[i].chain, s) && AllFree(l, s, |l.objs[i].chain|)
    && 2 <= s && forall c | 2 <= c < s :: c !in Free(l)
  }

  lemma FitIsEligible(l: Layout, h: Hole)
    requires h.Hole? && IsFirstHole(l, h) && WholeObjectFits(l)
    ensures exists i | 0 <= i < |l.objs| :: Eligible(l, i, {}, h.start, h.length)
  {
    var i: nat, s: nat :| FitsAt(l, i, s);
    assert FitsAt(l, i, s);
    var n := |l.objs[i].chain|;
    assert h.start in Free(l) && s in Free(l);
    assert s == h.start;
    assert Eligible(l, i, {}, h.start, h.length);
  }

  lemma StagingFrees(l: Layout, h: Hole, length: nat, terminalStart: nat, after: set<nat>)
    requires h.Hole? && IsFirstHole(l, h) && terminalStart > h.start + h.length
    requires after ==
      Free(l) - Range(terminalStart, terminalStart + length) + Range(h.start + h.length, h.start + h.length + length)
    requires terminalStart >= h.start + length
    ensures forall c | h.start <= c < h.start + length :: c in after
    ensures forall c | 2 <= c < h.start :: c !in after
  {
  }

  lemma WholeMovesRanges(chain: seq<nat>, destination: nat)
    ensures Destinations(WholeMoves(chain, destination)) == Range(destination, destination + |chain|)
    ensures chain != [] && Contiguous(chain) ==>
      Sources(WholeMoves(chain, destination)) == Range(chain[0], chain[0] + |chain|)
  {
    var moves := WholeMoves(chain, destination);
    forall c | c in Range(destination, destination + |chain|) ensures c in Destinations(moves) {
      assert moves[c - destination].destination == c;
    }
    if chain != [] && Contiguous(chain) {
      forall c | c in Range(chain[0], chain[0] + |chain|) ensures c in Sources(moves) {
        assert moves[c - chain[0]].source == c;
      }
    }
  }

  /** Staging an object in the terminal run opens the hole wide enough for it. */
  lemma StagingMakesItFit(l: Layout, h: Hole, i: nat, terminalStart: nat)
    requires WellFormed(l) && h.Hole? && IsFirstHole(l, h) && i < |l.objs|
    requires l.objs[i].chain != [] && l.objs[i].chain == Run(h.start + h.length, |l.objs[i].chain|)
    requires terminalStart > h.highest && AllFree(l, terminalStart, |l.objs[i].chain|)
    ensures FitsAt(Relocate(l, WholeMoves(l.objs[i].chain, terminalStart)), i, h.start)
  {
    hide WellFormed, Legal, Alloc, Free, Relocate, Range, Destinations, Sources, WholeMoves;
    var chain := l.objs[i].chain;
    var moves := WholeMoves(chain, terminalStart);
    var l' := Relocate(l, moves);
    assert Contiguous(chain) && chain[0] == h.start + h.length;
    assert h.start + h.length + |chain| - 1 <= h.highest by {
      AllocAt(l, i, |chain| - 1);
    }
    WholeMovesLegal(l, i, terminalStart);
    WholeMovesEffect(l, i, terminalStart);
    WholeMovesRanges(chain, terminalStart);
    RelocateEffect(l, moves);
    StagingFrees(l, h, |chain|, terminalStart, Free(l'));
  }

  /** The first owned cluster from `source` up to `highest`. */
  function NextOwned(l: Layout, source: nat, highest: nat): nat
    decreases if source <= highest then highest - source + 1 else 0
  {
    if source > highest || source in Alloc(l) then source else NextOwned(l, source + 1, highest)
  }

  /** How many owned clusters follow each other from `source` up to `highest`. */
  function OwnedRun(l: Layout, source: nat, highest: nat): nat
    decreases if source <= highest then highest - source + 1 else 0
  {
    if source <= highest && source in Alloc(l) then 1 + OwnedRun(l, source + 1, highest) else 0
  }

  function ExtentShift(l: Layout, start: nat, length: nat, highest: nat, batchClusters: nat,
                       remaining: nat): seq<Move> {
    var source := NextOwned(l, start + length, highest);
    var count := Min(Min(length, OwnedRun(l, source, highest)), Min(batchClusters, remaining));
    seq(count, i requires 0 <= i < count => Move(source + i, start + i))
  }

  /** The physical extent that follows the hole, shifted down without reordering. */
  method PlanExtentShift(l: Layout, h: Hole, batchClusters: nat, remaining: nat) returns (moves: seq<Move>)
    requires WellFormed(l) && h.Hole? && IsFirstHole(l, h) && batchClusters >= 1 && remaining >= 1
    ensures FillsHole(l, moves, h.start) && 1 <= |moves| <= remaining
    ensures moves == ExtentShift(l, h.start, h.length, h.highest, batchClusters, remaining)
  {
    hide WellFormed, Free, Legal;
    var source := h.start + h.length;
    while source !in Alloc(l)
      invariant h.start + h.length <= source <= h.highest
      invariant NextOwned(l, h.start + h.length, h.highest) == NextOwned(l, source, h.highest)
      decreases h.highest - source
    {
      source := source + 1;
    }
    hide Alloc;
    var sourceRun := 0;
    while source + sourceRun <= h.highest && source + sourceRun in Alloc(l)
      invariant sourceRun >= 0 && source + sourceRun <= h.highest + 1
      invariant forall c | source <= c < source + sourceRun :: c in Alloc(l)
      invariant sourceRun == 0 ==> source in Alloc(l)
      invariant OwnedRun(l, source, h.highest) == sourceRun + OwnedRun(l, source + sourceRun, h.highest)
      decreases h.highest + 1 - sourceRun
    {
      sourceRun := sourceRun + 1;
    }
    var count := h.length;
    if count > sourceRun { count := sourceRun; }
    if count > batchClusters { count := batchClusters; }
    if count > remaining { count := remaining; }
    moves := seq(count, i requires 0 <= i < count => Move(source + i, h.start + i));
    ShiftFills(l, h.start, source, count);
  }

  lemma ShiftFills(l: Layout, start: nat, source: nat, count: nat)
    requires source > start && AllFree(l, start, count) && forall c | source <= c < source + count :: c in Alloc(l)
    ensures FillsHole(l, seq(count, i requires 0 <= i < count => Move(source + i, start + i)), start)
  {
    hide Alloc, Free;
  }

  lemma FillingRaisesFloor(l: Layout, moves: seq<Move>, start: nat)
    requires FillsHole(l, moves, start) && moves != [] && forall c | 2 <= c < start :: c !in Free(l)
    ensures forall c | 2 <= c < start + 1 :: c !in Free(l) - Destinations(moves) + Sources(moves)
  {
    assert moves[0].destination in Destinations(moves);
    forall c | c in Sources(moves) ensures c > start {
      var i := MoveAt(moves, c);
    }
  }

  /** Execute a filling plan: the first free cluster moves up. */
  method Fill(e: Engine, moves: seq<Move>, start: nat)
    requires e.Valid() && FillsHole(e.lay, moves, start) && moves != []
    requires forall c | 2 <= c < start :: c !in Free(e.lay)
    modifies e
    ensures e.Valid() && |Free(e.lay)| == |Free(old(e.lay))|
    ensures e.lay == Relocate(old(e.lay), moves) && e.lay.max == old(e.lay.max) && e.txs == old(e.txs) + [moves]
    ensures forall c | 2 <= c < start + 1 :: c !in Free(e.lay)
  {
    hide WellFormed, Reached, Alloc, Free;
    FillingRaisesFloor(e.lay, moves, start);
    e.ExecuteMoves(moves);
  }

  lemma TerminalAbove(l: Layout, h: Hole, terminal: nat)
    requires h.Hole? && IsFirstHole(l, h) && terminal < l.max && AllFree(l, l.max + 1 - terminal, terminal)
    ensures l.max + 1 - terminal > h.highest
  {
    assert h.highest in Alloc(l);
  }

  /** Move the object that follows the hole into the terminal free run. */
  method Stage(e: Engine, h: Hole, i: nat, terminal: nat) returns (ghost moves: seq<Move>)
    requires e.Valid() && h.Hole? && IsFirstHole(e.lay, h) && i < |e.lay.objs|
    requires var chain := e.lay.objs[i].chain;
      chain != [] && chain == Run(h.start + h.length, |chain|) && |chain| <= terminal
    requires terminal <= e.lay.max - 1 && AllFree(e.lay, e.lay.max + 1 - terminal, terminal)
    modifies e
    ensures e.Valid() && |Free(e.lay)| == |Free(old(e.lay))|
    ensures moves == WholeMoves(old(e.lay).objs[i].chain, old(e.lay).max + 1 - terminal)
    ensures e.lay == Relocate(old(e.lay), moves) && e.lay.max == old(e.lay.max) && e.txs == old(e.txs) + [moves]
    ensures FitsAt(e.lay, i, h.start)
  {
    hide WellFormed, Reached, Legal, Alloc, Free, Relocate, WholeMoves, Run, FitsAt;
    var chain := e.lay.objs[i].chain;
    var terminalStart := e.lay.max + 1 - terminal;
    TerminalAbove(e.lay, h, terminal);
    WholeMovesLegal(e.lay, i, terminalStart);
    StagingMakesItFit(e.lay, h, i, terminalStart);
    moves := WholeMoves(chain, terminalStart);
    e.ExecuteMoves(WholeMoves(chain, terminalStart));
  }

  // ---- A whole preparation ------------------------------------------------------

  /** What one pass issues, given the first hole and the free run that ends the volume. */
  function StepMoves(l: Layout, h: Hole, terminal: nat, batchClusters: nat, remaining: nat): seq<Move>
    requires h.Hole? && terminal <= l.max
  {
    var packed := Packing(l, h.start, h.length, remaining, batchClusters, 0, {});
    var next := FirstStage(l, h.start + h.length, 0);
    if packed != [] then packed
    else if next.Some? && |l.objs[next.index].chain| <= terminal && |l.objs[next.index].chain| <= remaining
    then WholeMoves(l.objs[next.index].chain, l.max + 1 - terminal)
    else ExtentShift(l, h.start, h.length, h.highest, batchClusters, remaining)
  }

  ghost predicate IsTerminal(l: Layout, n: nat) {
    n < l.max && AllFree(l, l.max + 1 - n, n) && (n < l.max - 1 ==> l.max - n !in Free(l))
  }

  ghost predicate IsStep(l: Layout, h: Hole, terminal: nat, batchClusters: nat, remaining: nat, moves: seq<Move>) {
    && h.Hole? && IsFirstHole(l, h) && IsTerminal(l, terminal)
    && moves == StepMoves(l, h, terminal, batchClusters, remaining)
  }

  /** The transaction the preparation issues on this layout. */
  ghost predicate NextStep(l: Layout, batchClusters: nat, remaining: nat, moves: seq<Move>) {
    exists h, terminal :: IsStep(l, h, terminal, batchClusters, remaining, moves)
  }

  lemma TerminalUnique(l: Layout, n: nat, n': nat)
    requires IsTerminal(l, n) && IsTerminal(l, n')
    ensures n == n'
  {
    NotMore(l, n, n');
    NotMore(l, n', n);
  }

  lemma NotMore(l: Layout, n: nat, n': nat)
    requires IsTerminal(l, n) && IsTerminal(l, n')
    ensures n' <= n
  {
    hide Free;
    var c: nat := l.max - n;
    assert n < n' ==> c in Free(l);
  }

  /** A layout determines the transaction, and has one only if it has a hole. */
  lemma StepUnique(l: Layout, batchClusters: nat, remaining: nat, moves: seq<Move>, moves': seq<Move>)
    requires NextStep(l, batchClusters, remaining, moves)
    ensures NextStep(l, batchClusters, remaining, moves') ==> moves' == moves
    ensures !NoHoles(l)
  {
    hide StepMoves, IsTerminal;
    var h, terminal :| IsStep(l, h, terminal, batchClusters, remaining, moves);
    assert h.start in Free(l) && h.highest in Alloc(l);
    hide IsFirstHole, Free, Alloc, NoHoles;
    if NextStep(l, batchClusters, remaining, moves') {
      var h', terminal' :| IsStep(l, h', terminal', batchClusters, remaining, moves');
      HoleUnique(l, h, h');
      TerminalUnique(l, terminal, terminal');
    }
  }

  /** A preparation of `l`: every transaction is the one its layout determines. */
  ghost predicate PreparedBy(l: Layout, run: seq<seq<Move>>, maxClusters: nat, batchClusters: nat) {
    forall k | 0 <= k < |run| ::
      NextStep(AfterRun(l, run[..k]), batchClusters, Remaining(maxClusters, MoveCount(run[..k], 0)), run[k])
  }

  lemma NothingPrepared(l: Layout, maxClusters: nat, batchClusters: nat)
    ensures PreparedBy(l, [], maxClusters, batchClusters) && AfterRun(l, []) == l && MoveCount([], 0) == 0
  {
  }

  lemma {:induction false} PreparedStep(l: Layout, run: seq<seq<Move>>, maxClusters: nat, batchClusters: nat,
                                        moves: seq<Move>)
    requires PreparedBy(l, run, maxClusters, batchClusters)
    requires NextStep(AfterRun(l, run), batchClusters, Remaining(maxClusters, MoveCount(run, 0)), moves)
    ensures PreparedBy(l, run + [moves], maxClusters, batchClusters)
    ensures AfterRun(l, run + [moves]) == Relocate(AfterRun(l, run), moves)
    ensures MoveCount(run + [moves], 0) == MoveCount(run, 0) + |moves|
  {
    hide NextStep, Remaining, Relocate;
    var more := run + [moves];
    assert more[..|run|] == run;
    hide AfterRun, MoveCount;
    forall k | 0 <= k < |more|
      ensures NextStep(AfterRun(l, more[..k]), batchClusters, Remaining(maxClusters, MoveCount(more[..k], 0)), more[k])
    {
      if k < |run| { assert more[..k] == run[..k]; }
    }
  }

  lemma {:induction false} SamePreparation(l: Layout, run: seq<seq<Move>>, run': seq<seq<Move>>, maxClusters: nat,
                                           batchClusters: nat, n: nat)
    requires PreparedBy(l, run, maxClusters, batchClusters) && PreparedBy(l, run', maxClusters, batchClusters)
    requires n <= |run| && n <= |run'|
    ensures run[..n] == run'[..n]
  {
    hide NextStep, Remaining, AfterRun, MoveCount;
    if n > 0 {
      var last: nat := n - 1;
      SamePreparation(l, run, run', maxClusters, batchClusters, last);
      StepUnique(AfterRun(l, run[..last]), batchClusters, Remaining(maxClusters, MoveCount(run[..last], 0)), run[last],
                 run'[last]);
    }
  }

  lemma {:induction false} NotLonger(l: Layout, run: seq<seq<Move>>, run': seq<seq<Move>>, maxClusters: nat,
                                     batchClusters: nat)
    requires PreparedBy(l, run, maxClusters, batchClusters) && PreparedBy(l, run', maxClusters, batchClusters)
    requires NoHoles(AfterRun(l, run))
    ensures |run'| <= |run|
  {
    hide NextStep, Remaining, AfterRun, MoveCount, NoHoles;
    if |run'| > |run| {
      var n := |run|;
      SamePreparation(l, run, run', maxClusters, batchClusters, n);
      assert run[..n] == run;
      StepUnique(AfterRun(l, run'[..n]), batchClusters, Remaining(maxClusters, MoveCount(run'[..n], 0)), run'[n],
                 run'[n]);
    }
  }

  /** A preparation that ends without holes is determined by the layout it starts from:
      any two issue the same transactions. */
  lemma PreparationUnique(l: Layout, run: seq<seq<Move>>, run': seq<seq<Move>>, maxClusters: nat, batchClusters: nat)
    requires PreparedBy(l, run, maxClusters, batchClusters) && PreparedBy(l, run', maxClusters, batchClusters)
    requires NoHoles(AfterRun(l, run)) && NoHoles(AfterRun(l, run'))
    ensures run == run'
  {
    hide PreparedBy, AfterRun, NoHoles;
    NotLonger(l, run, run', maxClusters, batchClusters);
    NotLonger(l, run', run, maxClusters, batchClusters);
    SamePreparation(l, run, run', maxClusters, batchClusters, |run|);
    assert run[..|run|] == run && run'[..|run|] == run';
  }

  /** The layout an unlimited preparation of `l` ends in. */
  ghost predicate PreparesTo(l: Layout, batch: nat, p: Layout) {
    exists run: seq<seq<Move>> :: Prepares(l, batch, run, p)
  }

  ghost predicate Prepares(l: Layout, batch: nat, run: seq<seq<Move>>, p: Layout) {
    PreparedBy(l, run, 0, BatchOf(batch)) && p == AfterRun(l, run) && NoHoles(p)
  }

  /** There is only one, and a layout without holes is its own. */
  lemma PreparesToOne(l: Layout, batch: nat, p: Layout, p': Layout)
    requires PreparesTo(l, batch, p)
    ensures PreparesTo(l, batch, p') ==> p' == p
    ensures NoHoles(l) ==> p == l
  {
    hide PreparedBy, AfterRun, NoHoles;
    var run: seq<seq<Move>> :| Prepares(l, batch, run, p);
    if PreparesTo(l, batch, p') {
      var run': seq<seq<Move>> :| Prepares(l, batch, run', p');
      PreparationUnique(l, run, run', 0, BatchOf(batch));
    }
    if NoHoles(l) {
      NothingPrepared(l, 0, BatchOf(batch));
      PreparationUnique(l, run, [], 0, BatchOf(batch));
    }
  }

  lemma StepPacked(l: Layout, h: Hole, terminal: nat, batchClusters: nat, remaining: nat)
    requires h.Hole? && IsFirstHole(l, h) && IsTerminal(l, terminal)
    requires Packing(l, h.start, h.length, remaining, batchClusters, 0, {}) != []
    ensures NextStep(l, batchClusters, remaining, Packing(l, h.start, h.length, remaining, batchClusters, 0, {}))
  {
    hide Packing, ExtentShift, FirstStage, IsFirstHole, IsTerminal;
    assert IsStep(l, h, terminal, batchClusters, remaining,
                  Packing(l, h.start, h.length, remaining, batchClusters, 0, {}));
  }

  lemma StepOther(l: Layout, h: Hole, terminal: nat, batchClusters: nat, remaining: nat, moves: seq<Move>)
    requires h.Hole? && IsFirstHole(l, h) && IsTerminal(l, terminal)
    requires Packing(l, h.start, h.length, remaining, batchClusters, 0, {}) == []
    requires var next := FirstStage(l, h.start + h.length, 0);
             moves == if next.Some? && |l.objs[next.index].chain| <= terminal && |l.objs[next.index].chain| <= remaining
                      then WholeMoves(l.objs[next.index].chain, l.max + 1 - terminal)
                      else ExtentShift(l, h.start, h.length, h.highest, batchClusters, remaining)
    ensures NextStep(l, batchClusters, remaining, moves)
  {
    hide Packing, ExtentShift, FirstStage, IsFirstHole, IsTerminal, WholeMoves;
    assert IsStep(l, h, terminal, batchClusters, remaining, moves);
  }

  lemma FitsSomewhere(l: Layout, i: nat, s: nat)
    requires FitsAt(l, i, s)
    ensures WholeObjectFits(l) && forall c | 2 <= c < s :: c !in Free(l)
  {
  }

  /** One pass below the first hole.  It raises the lowest free cluster, or makes an object fit there. */
  method PrepareOnce(e: Engine, hole: Hole, batchClusters: nat, remaining: nat)
    returns (ghost moves: seq<Move>, count: nat)
    requires e.Valid() && hole.Hole? && IsFirstHole(e.lay, hole) && batchClusters >= 1 && remaining >= 1
    modifies e
    ensures e.Valid() && |Free(e.lay)| == |Free(old(e.lay))|
    ensures e.lay == Relocate(old(e.lay), moves) && e.lay.max == old(e.lay.max) && e.txs == old(e.txs) + [moves]
    ensures NextStep(old(e.lay), batchClusters, remaining, moves) && count == |moves| <= remaining && 1 <= count
    ensures forall c | 2 <= c < hole.start :: c !in Free(e.lay)
    ensures hole.start in Free(e.lay) ==> WholeObjectFits(e.lay)
    ensures remaining >= hole.length && WholeObjectFits(old(e.lay)) ==> hole.start !in Free(e.lay)
  {
    hide WellFormed, Reached, Alloc, Free, FillsHole, Eligible, Packing, ExtentShift, FirstStage, NextStep, Relocate,
         FitsAt, WholeObjectFits, WholeMoves, Run;
    assert hole.start in Free(e.lay);
    ghost var before := e.lay;
    var terminal := TerminalFreeClusters(e.lay);
    var planned := PlanWholeObjects(e.lay, hole, remaining, batchClusters);
    if planned != [] {
      StepPacked(before, hole, terminal, batchClusters, remaining);
      Fill(e, planned, hole.start);
      return planned, |planned|;
    }
    NoneFits(before, hole, remaining);
    var next := FindStageObject(e.lay, hole.start + hole.length);
    if next.Some? && |e.lay.objs[next.index].chain| <= terminal && |e.lay.objs[next.index].chain| <= remaining {
      count := |e.lay.objs[next.index].chain|;
      moves := Stage(e, hole, next.index, terminal);
      StepOther(before, hole, terminal, batchClusters, remaining, moves);
      FitsSomewhere(e.lay, next.index, hole.start);
    } else {
      planned := PlanExtentShift(e.lay, hole, batchClusters, remaining);
      StepOther(before, hole, terminal, batchClusters, remaining, planned);
      Fill(e, planned, hole.start);
      moves, count := planned, |planned|;
    }
  }

  lemma NoneFits(l: Layout, h: Hole, remaining: nat)
    requires h.Hole? && IsFirstHole(l, h)
    requires forall i | 0 <= i < |l.objs| :: !Eligible(l, i, {}, h.start, Min(h.length, remaining))
    ensures remaining >= h.length ==> !WholeObjectFits(l)
  {
    hide Eligible, WholeObjectFits, IsFirstHole;
    if remaining >= h.length {
      assert Min(h.length, remaining) == h.length;
      if WholeObjectFits(l) { FitIsEligible(l, h); }
    }
  }

  lemma HoleMeans(l: Layout, h: Hole)
    requires IsFirstHole(l, h)
    ensures h.NoHole? ==> NoHoles(l)
    ensures h.Hole? ==> 2 <= h.start && h.start + h.length <= l.max && h.start in Free(l)
  {
  }

  /** growth_prepare_volume.  The budget `maxClusters == 0` means unlimited. */
  method GrowthPrepareVolume(e: Engine, maxClusters: nat, batch: nat, maxTransactions: nat, stop: nat -> bool)
    returns (stats: PrepareStats, stopped: bool)
    requires e.Valid() && e.lay.max < SIZE_MAX
    modifies e
    ensures e.Valid() && |Free(e.lay)| == |Free(old(e.lay))| && old(e.txs) <= e.txs
    ensures stats.transactions == |e.txs| - |old(e.txs)| && stats.clustersMoved == MoveCount(e.txs, |old(e.txs)|)
    ensures maxClusters != 0 ==> stats.clustersMoved <= maxClusters
    ensures maxTransactions != 0 ==> stats.transactions <= maxTransactions
    ensures stopped ==> exists n :: stop(n)
    ensures !stopped ==> RunEnd(e.lay, stats.clustersMoved, maxClusters, stats.transactions, maxTransactions)
    ensures var run := e.txs[|old(e.txs)|..];
            PreparedBy(old(e.lay), run, maxClusters, BatchOf(batch)) && e.lay == AfterRun(old(e.lay), run)
  {
    hide WellFormed, Reached, Alloc, Free, NoHoles, MoveCount, PreparedBy, AfterRun, NextStep, Relocate, IsFirstHole,
         WholeObjectFits;
    var batchClusters := if batch == 0 then 4096 else batch;
    stats, stopped := PrepareStats(0, 0), false;
    var polls := 0;
    ghost var floor: nat := 2;
    ghost var run: seq<seq<Move>> := [];
    NothingPrepared(e.lay, maxClusters, batchClusters);
    while true
      invariant e.Valid() && |Free(e.lay)| == |Free(old(e.lay))| && e.txs == old(e.txs) + run
      invariant e.lay.max == old(e.lay.max)
      invariant PreparedBy(old(e.lay), run, maxClusters, batchClusters) && e.lay == AfterRun(old(e.lay), run)
      invariant stats.transactions == |run| && stats.clustersMoved == MoveCount(run, 0)
      invariant maxClusters != 0 ==> stats.clustersMoved <= maxClusters
      invariant maxTransactions != 0 ==> stats.transactions <= maxTransactions
      invariant 2 <= floor && forall c | 2 <= c < floor :: c !in Free(e.lay)
      decreases if maxClusters == 0 then 0 else maxClusters - stats.clustersMoved,
                e.lay.max + 1 - floor,
                if WholeObjectFits(e.lay) then 0 else 1
    {
      if stop(polls) { stopped := true; break; }
      polls := polls + 1;
      if maxTransactions != 0 && stats.transactions >= maxTransactions { break; }
      var remaining := if maxClusters == 0 then SIZE_MAX else maxClusters - stats.clustersMoved;
      if remaining == 0 { break; }
      var hole := FirstFreeRunBelowHighWater(e.lay);
      HoleMeans(e.lay, hole);
      if hole.NoHole? { break; }
      ghost var moves; var count;
      moves, count := PrepareOnce(e, hole, batchClusters, remaining);
      PreparedStep(old(e.lay), run, maxClusters, batchClusters, moves);
      run := run + [moves];
      floor := if hole.start in Free(e.lay) then hole.start else hole.start + 1;
      stats := PrepareStats(stats.clustersMoved + count, stats.transactions + 1);
    }
    MoveCountTail(old(e.txs), run);
    assert e.txs[|old(e.txs)|..] == run;
  }
}
