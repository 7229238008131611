/** What the planners' runs mean for the volumes they are planned for. */
module PlannerVolumes {
  import opened ClusterLayout
  import opened FatEngine
  import opened FatCompact
  import opened GrowthPrepare
  import opened FatVolume
  import opened FatScan
  import opened VolumeRuns

  /** A planner's run that stays readable, carried out on the volume it was planned for: the planned layout,
      the same files. */
  lemma PlansCarryOver(v: Vol, txs: seq<seq<Move>>, l: Layout)
    requires Ready(v) && Reached(LayoutOf(v), txs, l) && SafeRun(LayoutOf(v), txs, ReservedMin(v.kind))
    ensures LayoutOf(AfterTransactions(v, txs)) == l && SameFiles(v, AfterTransactions(v, txs))
  {
    hide ScanFiles, LayoutOf, WellFormed, Readable, SafeRun, SameFiles, AfterTransactions;
    RunKeepsFiles(v, txs);
  }

  /** Without reserved cluster numbers every planner's run is of this kind. */
  lemma EveryPlanCarriesOver(v: Vol, txs: seq<seq<Move>>, l: Layout)
    requires Ready(v) && Reached(LayoutOf(v), txs, l) && v.max < ReservedMin(v.kind)
    ensures SafeRun(LayoutOf(v), txs, ReservedMin(v.kind))
    ensures LayoutOf(AfterTransactions(v, txs)) == l && SameFiles(v, AfterTransactions(v, txs))
  {
    ScanIsGood(v);
    assert LayoutOf(v).max == v.max;
    hide ScanFiles, LayoutOf, WellFormed, Readable, SafeRun, SameFiles, AfterTransactions;
    SmallIsSafe(LayoutOf(v), txs, ReservedMin(v.kind));
    PlansCarryOver(v, txs, l);
  }

  // ---- Compact: reserved numbers do no harm ----------------------------------------------------

  lemma ScannedReadable(v: Vol)
    requires Ready(v)
    ensures WellFormed(LayoutOf(v)) && Readable(LayoutOf(v), ReservedMin(v.kind))
  {
    ScanIsGood(v);
    hide ScanFiles, LayoutOf, WellFormed;
    var l := LayoutOf(v);
    forall i: nat, k: nat | 1 <= k && Owns(l, i, k) ensures l.objs[i].chain[k] < ReservedMin(v.kind) {
      LinkBefore(v, i, k);
    }
  }

  lemma DownwardImage(moves: seq<Move>, c: nat)
    requires Downward(moves) && DistinctMoves(moves)
    ensures Image(RelocationMap(moves), c) <= c
  {
    hide RelocationMap;
    if c in RelocationMap(moves) {
      var i := MoveAt(moves, c);
      ImageAt(moves, i);
    }
  }

  lemma DownwardReadable(l: Layout, moves: seq<Move>, reserved: nat)
    requires Legal(l, moves) && Downward(moves) && Readable(l, reserved)
    ensures Readable(Relocate(l, moves), reserved)
  {
    hide RelocationMap, Alloc, Free;
    var l' := Relocate(l, moves);
    forall i, k | 1 <= k && Owns(l', i, k) ensures l'.objs[i].chain[k] < reserved {
      assert Owns(l, i, k);
      DownwardImage(moves, l.objs[i].chain[k]);
    }
  }

  /** Moving downward never makes a readable layout unreadable. */
  lemma {:induction false} DownwardIsSafe(l: Layout, txs: seq<seq<Move>>, reserved: nat)
    requires LegalRun(l, txs) && DownwardFrom(txs, 0) && Readable(l, reserved)
    ensures SafeRun(l, txs, reserved) && Readable(AfterRun(l, txs), reserved)
    decreases |txs|
  {
    hide Legal, Readable, Relocate, Downward;
    if txs != [] {
      var front := txs[..|txs| - 1];
      assert DownwardFrom(front, 0) && Downward(txs[|txs| - 1]);
      DownwardIsSafe(l, front, reserved);
      DownwardReadable(AfterRun(l, front), txs[|txs| - 1], reserved);
    }
  }

  /** compact_volume on any volume that scans: a rescan gives the planned layout and every file is as it was. */
  method CompactOnVolume(ghost v: Vol, e: Engine, maxClusters: nat, batch: nat, maxTransactions: nat, stop: nat -> bool)
    returns (stats: CompactStats, stopped: bool)
    requires Ready(v) && e.Valid() && e.lay == LayoutOf(v) && e.txs == [] && e.origin == e.lay
    modifies e
    ensures e.Valid() && SafeRun(LayoutOf(v), e.txs, ReservedMin(v.kind))
    ensures LayoutOf(AfterTransactions(v, e.txs)) == e.lay && SameFiles(v, AfterTransactions(v, e.txs))
    ensures !stopped ==> RunEnd(e.lay, stats.clustersMoved, maxClusters, stats.transactions, maxTransactions)
    ensures CompactedBy(LayoutOf(v), e.txs, maxClusters, BatchOf(batch))
  {
    hide ScanFiles, LayoutOf, WellFormed, Readable, SafeRun, SameFiles, AfterTransactions, DownwardFrom, RunEnd,
         LegalRun, AfterRun, CompactedBy;
    ScannedReadable(v);
    stats, stopped := CompactVolume(e, maxClusters, batch, maxTransactions, stop);
    assert e.txs[0..] == e.txs;
    DownwardIsSafe(LayoutOf(v), e.txs, ReservedMin(v.kind));
    PlansCarryOver(v, e.txs, e.lay);
  }

  // ---- Growth: staging is what can break ------------------------------------------------------

  lemma WholeMoveDistinct(l: Layout, i: nat, d: nat)
    requires WellFormed(l) && i < |l.objs|
    ensures DistinctMoves(WholeMoves(l.objs[i].chain, d))
  {
    var moves := WholeMoves(l.objs[i].chain, d);
    forall a, b | 0 <= a < b < |moves| ensures moves[a].source != moves[b].source {
      assert Owns(l, i, a) && Owns(l, i, b);
    }
  }

  lemma OtherChain(l: Layout, i: nat, d: nat, o: nat)
    requires WellFormed(l) && i < |l.objs| && o < |l.objs| && o != i
    ensures forall k | 0 <= k < |l.objs[o].chain| :: l.objs[o].chain[k] !in Sources(WholeMoves(l.objs[i].chain, d))
  {
    var moves := WholeMoves(l.objs[i].chain, d);
    forall k | 0 <= k < |l.objs[o].chain| ensures l.objs[o].chain[k] !in Sources(moves) {
      assert Owns(l, o, k);
      forall n | 0 <= n < |moves| ensures moves[n].source != l.objs[o].chain[k] { assert Owns(l, i, n); }
    }
  }

  lemma WholeMoveChains(l: Layout, i: nat, d: nat, o: nat)
    requires WellFormed(l) && i < |l.objs| && o < |l.objs|
    ensures var l' := Relocate(l, WholeMoves(l.objs[i].chain, d));
            && |l'.objs| == |l.objs|
            && l'.objs[o].chain == if o == i then Run(d, |l.objs[i].chain|) else l.objs[o].chain
  {
    hide WellFormed, DistinctMoves, RelocationMap, RenameChain, Run, Sources, WholeMoves;
    WholeMoveDistinct(l, i, d);
    if o == i { MovedChain(l.objs[i].chain, d); } else {
      OtherChain(l, i, d, o);
      KeptChain(WholeMoves(l.objs[i].chain, d), l.objs[o].chain);
    }
  }

  lemma MovedChain(chain: seq<nat>, d: nat)
    requires DistinctMoves(WholeMoves(chain, d))
    ensures RenameChain(RelocationMap(WholeMoves(chain, d)), chain) == Run(d, |chain|)
  {
    hide RelocationMap, DistinctMoves;
    var moves := WholeMoves(chain, d);
    forall k | 0 <= k < |chain| ensures Image(RelocationMap(moves), chain[k]) == d + k { ImageAt(moves, k); }
  }

  lemma KeptChain(moves: seq<Move>, chain: seq<nat>)
    requires forall k | 0 <= k < |chain| :: chain[k] !in Sources(moves)
    ensures RenameChain(RelocationMap(moves), chain) == chain
  {
  }

  /** Staging or placing a whole object as one run keeps the layout readable exactly when it has a single
      cluster or the run ends below the reserved numbers. */
  lemma WholeMoveReadable(l: Layout, i: nat, d: nat, reserved: nat)
    requires WellFormed(l) && i < |l.objs| && Readable(l, reserved)
    ensures var n := |l.objs[i].chain|;
            Readable(Relocate(l, WholeMoves(l.objs[i].chain, d)), reserved) <==> n <= 1 || d + n - 1 < reserved
  {
    hide Relocate, WholeMoves, WellFormed;
    var n := |l.objs[i].chain|;
    var l' := Relocate(l, WholeMoves(l.objs[i].chain, d));
    WholeMoveChains(l, i, d, i);
    if n >= 2 && d + n - 1 >= reserved {
      assert Owns(l', i, n - 1) && l'.objs[i].chain[n - 1] == d + (n - 1);
    } else {
      forall o: nat, k: nat | 1 <= k && Owns(l', o, k) ensures l'.objs[o].chain[k] < reserved {
        WholeMoveOwns(l, i, d, o, k);
      }
    }
  }

  lemma WholeMoveOwns(l: Layout, i: nat, d: nat, o: nat, k: nat)
    requires WellFormed(l) && i < |l.objs| && Owns(Relocate(l, WholeMoves(l.objs[i].chain, d)), o, k)
    ensures Owns(l, o, k)
    ensures Relocate(l, WholeMoves(l.objs[i].chain, d)).objs[o].chain[k] == if o == i then d + k else l.objs[o].chain[k]
  {
    hide WellFormed, WholeMoves;
    WholeMoveChains(l, i, d, o);
  }

  /** Parking an object of two or more clusters in a workspace that reaches the reserved numbers leaves a
      volume the engine can no longer scan; any other parking leaves one it can. */
  lemma StagingExact(v: Vol, i: nat, workspace: nat)
    requires Ready(v) && i < |LayoutOf(v).objs| && Legal(LayoutOf(v), WholeMoves(LayoutOf(v).objs[i].chain, workspace))
    ensures var chain := LayoutOf(v).objs[i].chain;
            Safe(v, WholeMoves(chain, workspace)) <==> |chain| <= 1 || workspace + |chain| - 1 < ReservedMin(v.kind)
  {
    hide ScanFiles, LayoutOf, WellFormed, Readable, Relocate, WholeMoves, Legal;
    ScannedReadable(v);
    WholeMoveReadable(LayoutOf(v), i, workspace, ReservedMin(v.kind));
  }
}
