/** Tail-fill Compact: fill the lowest free run from the physical tail. */
module FatCompact {
  import opened ClusterLayout
  import opened FatEngine

  datatype CompactStats = CompactStats(clustersMoved: nat, transactions: nat)

  ghost predicate Downward(moves: seq<Move>) {
    moves != [] && forall i | 0 <= i < |moves| :: moves[i].destination < moves[i].source
  }

  /** The inner loop of compact_volume: pair hole clusters, ascending, with
      movable clusters, descending from the high-water mark.  At least one move
      results, so the engine's "cannot be filled" exit is unreachable. */
  method PlanTailFill(l: Layout, h: Hole, limit: nat) returns (moves: seq<Move>)
    requires WellFormed(l) && h.Hole? && IsFirstHole(l, h) && 1 <= limit <= h.length
    ensures Legal(l, moves) && Downward(moves) && Fills(l, h, limit, moves)
  {
    hide Alloc, Free, Legal, Tail, Downward, WellFormed, Sources;
    moves := [];
    var source: nat := h.highest;
    TailStart(l, h);
    while |moves| < limit
      invariant |moves| <= limit && source <= h.highest && Tail(l, h, moves, source)
      invariant moves == [] ==> source == h.highest
    {
      var destination := h.start + |moves|;
      while source > destination && source !in Alloc(l)
        invariant source <= h.highest && Tail(l, h, moves, source) && (moves == [] ==> source == h.highest)
      {
        HighestOwned(l, h);
        TailSkips(l, h, moves, source);
        source := source - 1;
      }
      if source <= destination { break; }
      TailAdds(l, h, moves, source);
      moves := moves + [Move(source, destination)];
      source := source - 1;
    }
    HighestOwned(l, h);
    TailLegal(l, h, moves, source);
  }

  /** The highest clusters, in descending order, paired with the hole's clusters from its start: `limit` of them, or
      all that lie above their destinations. */
  ghost predicate Fills(l: Layout, h: Hole, limit: nat, moves: seq<Move>)
    requires h.Hole?
  {
    && 1 <= |moves| <= limit
    && (forall n | 0 <= n < |moves| ::
         moves[n].destination == h.start + n < moves[n].source && moves[n].source in Alloc(l))
    && (forall n, k | 0 <= n < k < |moves| :: moves[k].source < moves[n].source)
    && (forall c | c in Alloc(l) && moves[|moves| - 1].source < c :: c in Sources(moves))
    && (|moves| < limit ==> forall c | c in Alloc(l) && h.start + |moves| < c :: c in Sources(moves))
  }

  /** The transaction of a layout: its first hole, filled as far as hole, batch and budget reach. */
  ghost predicate TailStep(l: Layout, batchClusters: nat, remaining: nat, moves: seq<Move>) {
    exists h: Hole :: TailStepAt(l, h, batchClusters, remaining, moves)
  }

  ghost predicate TailStepAt(l: Layout, h: Hole, batchClusters: nat, remaining: nat, moves: seq<Move>) {
    h.Hole? && IsFirstHole(l, h) && Fills(l, h, Min(h.length, Min(batchClusters, remaining)), moves)
  }

  /** A compaction of `l`: every transaction is the one its layout determines. */
  ghost predicate CompactedBy(l: Layout, run: seq<seq<Move>>, maxClusters: nat, batchClusters: nat) {
    forall k | 0 <= k < |run| ::
      TailStep(AfterRun(l, run[..k]), batchClusters, Remaining(maxClusters, MoveCount(run[..k], 0)), run[k])
  }

  lemma NothingCompacted(l: Layout, maxClusters: nat, batchClusters: nat)
    ensures CompactedBy(l, [], maxClusters, batchClusters) && AfterRun(l, []) == l && MoveCount([], 0) == 0
  {
  }

  lemma {:induction false} CompactedStep(l: Layout, run: seq<seq<Move>>, maxClusters: nat, batchClusters: nat,
                                         moves: seq<Move>)
    requires CompactedBy(l, run, maxClusters, batchClusters)
    requires TailStep(AfterRun(l, run), batchClusters, Remaining(maxClusters, MoveCount(run, 0)), moves)
    ensures CompactedBy(l, run + [moves], maxClusters, batchClusters)
    ensures AfterRun(l, run + [moves]) == Relocate(AfterRun(l, run), moves)
    ensures MoveCount(run + [moves], 0) == MoveCount(run, 0) + |moves|
  {
    hide TailStep, Remaining, Relocate;
    var more := run + [moves];
    assert more[..|run|] == run;
    hide AfterRun, MoveCount;
    forall k | 0 <= k < |more|
      ensures TailStep(AfterRun(l, more[..k]), batchClusters, Remaining(maxClusters, MoveCount(more[..k], 0)), more[k])
    {
      if k < |run| { assert more[..k] == run[..k]; }
    }
  }

  /** The n-th highest cluster is one cluster. */
  lemma {:induction false} SameFill(l: Layout, h: Hole, limit: nat, a: seq<Move>, b: seq<Move>, n: nat)
    requires h.Hole? && Fills(l, h, limit, a) && Fills(l, h, limit, b) && n <= |a| && n <= |b|
    ensures a[..n] == b[..n]
  {
    hide Alloc, Sources;
    if n > 0 {
      var k: nat := n - 1;
      SameFill(l, h, limit, a, b, k);
      assert forall m | 0 <= m < k :: a[m] == a[..k][m] == b[..k][m] == b[m];
      NotHigher(l, h, limit, a, b, k);
      NotHigher(l, h, limit, b, a, k);
      assert a[k] == b[k];
      assert a[..n] == a[..k] + [a[k]] && b[..n] == b[..k] + [b[k]];
    }
  }

  lemma NotHigher(l: Layout, h: Hole, limit: nat, a: seq<Move>, b: seq<Move>, k: nat)
    requires h.Hole? && Fills(l, h, limit, a) && Fills(l, h, limit, b) && k < |a| && k < |b|
    requires forall m | 0 <= m < k :: a[m] == b[m]
    ensures b[k].source <= a[k].source
  {
    hide Alloc, Sources;
    var c := b[k].source;
    if c > a[k].source && c in Sources(a) {
      var m := MoveAt(a, c);
    }
  }

  lemma NotLongerFill(l: Layout, h: Hole, limit: nat, a: seq<Move>, b: seq<Move>)
    requires h.Hole? && Fills(l, h, limit, a) && Fills(l, h, limit, b)
    ensures |b| <= |a|
  {
    hide Alloc, Sources;
    if |a| < |b| {
      SameFill(l, h, limit, a, b, |a|);
      assert forall m | 0 <= m < |a| :: a[m] == a[..|a|][m] == b[..|a|][m] == b[m];
      var m := MoveAt(a, b[|a|].source);
    }
  }

  /** A layout determines the transaction, and has one only if it has a hole. */
  lemma TailStepUnique(l: Layout, batchClusters: nat, remaining: nat, a: seq<Move>, b: seq<Move>)
    requires TailStep(l, batchClusters, remaining, a)
    ensures TailStep(l, batchClusters, remaining, b) ==> a == b
    ensures !NoHoles(l)
  {
    hide Fills;
    var h: Hole :| TailStepAt(l, h, batchClusters, remaining, a);
    assert h.start in Free(l) && h.highest in Alloc(l);
    hide IsFirstHole, Free, Alloc, NoHoles;
    if TailStep(l, batchClusters, remaining, b) {
      var h': Hole :| TailStepAt(l, h', batchClusters, remaining, b);
      HoleUnique(l, h, h');
      var limit := Min(h.length, Min(batchClusters, remaining));
      NotLongerFill(l, h, limit, a, b);
      NotLongerFill(l, h, limit, b, a);
      SameFill(l, h, limit, a, b, |a|);
      assert a[..|a|] == a && b[..|a|] == b;
    }
  }

  lemma {:induction false} SameCompaction(l: Layout, run: seq<seq<Move>>, run': seq<seq<Move>>, maxClusters: nat,
                                          batchClusters: nat, n: nat)
    requires CompactedBy(l, run, maxClusters, batchClusters) && CompactedBy(l, run', maxClusters, batchClusters)
    requires n <= |run| && n <= |run'|
    ensures run[..n] == run'[..n]
  {
    hide TailStep, Remaining, AfterRun, MoveCount;
    if n > 0 {
      var last: nat := n - 1;
      SameCompaction(l, run, run', maxClusters, batchClusters, last);
      TailStepUnique(AfterRun(l, run[..last]), batchClusters, Remaining(maxClusters, MoveCount(run[..last], 0)),
                     run[last], run'[last]);
    }
  }

  lemma {:induction false} NotLongerRun(l: Layout, run: seq<seq<Move>>, run': seq<seq<Move>>, maxClusters: nat,
                                        batchClusters: nat)
    requires CompactedBy(l, run, maxClusters, batchClusters) && CompactedBy(l, run', maxClusters, batchClusters)
    requires NoHoles(AfterRun(l, run))
    ensures |run'| <= |run|
  {
    hide TailStep, Remaining, AfterRun, MoveCount, NoHoles;
    if |run'| > |run| {
      var n := |run|;
      SameCompaction(l, run, run', maxClusters, batchClusters, n);
      assert run[..n] == run;
      TailStepUnique(AfterRun(l, run'[..n]), batchClusters, Remaining(maxClusters, MoveCount(run'[..n], 0)), run'[n],
                     run'[n]);
    }
  }

  /** A compaction that ends without holes is determined by the layout it starts from: any two issue the same
      transactions. */
  lemma CompactionUnique(l: Layout, run: seq<seq<Move>>, run': seq<seq<Move>>, maxClusters: nat, batchClusters: nat)
    requires CompactedBy(l, run, maxClusters, batchClusters) && CompactedBy(l, run', maxClusters, batchClusters)
    requires NoHoles(AfterRun(l, run)) && NoHoles(AfterRun(l, run'))
    ensures run == run'
  {
    hide CompactedBy, AfterRun, NoHoles;
    NotLongerRun(l, run, run', maxClusters, batchClusters);
    NotLongerRun(l, run', run, maxClusters, batchClusters);
    SameCompaction(l, run, run', maxClusters, batchClusters, |run|);
    assert run[..|run|] == run && run'[..|run|] == run';
  }

  /** The clusters above `source`, highest first, paired with the hole's clusters from its start. */
  ghost predicate Tail(l: Layout, h: Hole, moves: seq<Move>, source: nat)
    requires h.Hole?
  {
    && (forall n | 0 <= n < |moves| ::
         moves[n].destination == h.start + n < moves[n].source && moves[n].source in Alloc(l) &&
         moves[n].source > source)
    && (forall n, k | 0 <= n < k < |moves| :: moves[k].source < moves[n].source)
    && (forall c | c in Alloc(l) && source < c :: c in Sources(moves))
  }

  lemma HighestOwned(l: Layout, h: Hole)
    requires h.Hole? && IsFirstHole(l, h)
    ensures h.highest in Alloc(l) && h.start < h.highest
  {
  }

  lemma TailStart(l: Layout, h: Hole)
    requires h.Hole? && IsFirstHole(l, h)
    ensures Tail(l, h, [], h.highest)
  {
  }

  lemma TailSkips(l: Layout, h: Hole, moves: seq<Move>, source: nat)
    requires h.Hole? && Tail(l, h, moves, source) && source !in Alloc(l) && source > 0
    ensures Tail(l, h, moves, source - 1)
  {
    hide Alloc, Sources;
  }

  lemma TailAdds(l: Layout, h: Hole, moves: seq<Move>, source: nat)
    requires h.Hole? && Tail(l, h, moves, source) && source in Alloc(l) && h.start + |moves| < source
    ensures Tail(l, h, moves + [Move(source, h.start + |moves|)], source - 1)
  {
    hide Alloc, Sources;
    SourcesAppend(moves, Move(source, h.start + |moves|));
  }

  lemma TailLegal(l: Layout, h: Hole, moves: seq<Move>, source: nat)
    requires h.Hole? && IsFirstHole(l, h) && Tail(l, h, moves, source) && 1 <= |moves| <= h.length
    ensures Legal(l, moves) && Downward(moves)
    ensures forall i | 0 <= i < |moves| ::
      moves[i].destination == h.start + i < moves[i].source && moves[i].source > source && moves[i].source in Alloc(l)
    ensures forall i, j | 0 <= i < j < |moves| :: moves[j].source < moves[i].source
    ensures forall c | c in Alloc(l) && source < c :: c in Sources(moves)
  {
    hide Alloc;
    forall i | 0 <= i < |moves| ensures moves[i].destination in Free(l) { assert h.start + i in Free(l); }
  }

  lemma SourcesAppend(moves: seq<Move>, m: Move)
    ensures Sources(moves + [m]) == Sources(moves) + {m.source}
  {
    var more := moves + [m];
    forall c | c in Sources(moves) + {m.source} ensures c in Sources(more) {
      if c in Sources(moves) {
        var i := MoveAt(moves, c);
        assert more[i].source == c;
      } else {
        assert more[|moves|].source == c;
      }
    }
  }

  /** Every transaction from the n-th on moves clusters strictly downward. */
  ghost predicate DownwardFrom(txs: seq<seq<Move>>, n: nat) {
    forall t | n <= t < |txs| :: Downward(txs[t])
  }

  lemma NothingDownward(txs: seq<seq<Move>>)
    ensures DownwardFrom(txs, |txs|)
  {
  }

  lemma DownwardExtends(txs: seq<seq<Move>>, txs': seq<seq<Move>>, n: nat)
    requires DownwardFrom(txs, n) && txs <= txs' && |txs'| == |txs| + 1 && Downward(txs'[|txs|])
    ensures DownwardFrom(txs', n)
  {
  }

  /** One pass of the compact_volume loop.  The first free cluster moves up. */
  method TailFill(e: Engine, h: Hole, limit: nat) returns (count: nat, ghost moves: seq<Move>)
    requires e.Valid() && h.Hole? && IsFirstHole(e.lay, h) && 1 <= limit <= h.length
    modifies e
    ensures e.Valid() && |Free(e.lay)| == |Free(old(e.lay))| && e.lay.max == old(e.lay.max)
    ensures 1 <= count <= limit
    ensures e.txs == old(e.txs) + [moves] && Downward(moves) && |moves| == count
    ensures Fills(old(e.lay), h, limit, moves) && e.lay == Relocate(old(e.lay), moves)
    ensures forall c | 2 <= c < h.start + 1 :: c !in Free(e.lay)
  {
    hide Reached;
    var plan := PlanTailFill(e.lay, h, limit);
    moves := plan;
    ghost var after := Free(e.lay) - Destinations(moves) + Sources(moves);
    forall c | 2 <= c < h.start + 1 ensures c !in after {
      assert moves[0].destination in Destinations(moves);
      if c in Sources(moves) {
        var i := MoveAt(moves, c);
      }
    }
    e.ExecuteMoves(plan);
    count := |plan|;
  }

  /** compact_volume.  `stop(n)` is the stop flag seen at the n-th loop head. */
  method CompactVolume(e: Engine, maxClusters: nat, batch: nat, maxTransactions: nat, stop: nat -> bool)
    returns (stats: CompactStats, stopped: bool)
    requires e.Valid()
    modifies e
    ensures e.Valid() && |Free(e.lay)| == |Free(old(e.lay))|
    ensures old(e.txs) <= e.txs
    ensures DownwardFrom(e.txs, |old(e.txs)|)
    ensures stats.transactions == |e.txs| - |old(e.txs)| && stats.clustersMoved == MoveCount(e.txs, |old(e.txs)|)
    ensures maxClusters != 0 ==> stats.clustersMoved <= maxClusters
    ensures maxTransactions != 0 ==> stats.transactions <= maxTransactions
    ensures stopped ==> exists n :: stop(n)
    ensures !stopped ==> RunEnd(e.lay, stats.clustersMoved, maxClusters, stats.transactions, maxTransactions)
    ensures var run := e.txs[|old(e.txs)|..];
            CompactedBy(old(e.lay), run, maxClusters, BatchOf(batch)) && e.lay == AfterRun(old(e.lay), run)
  {
    hide Reached, WellFormed, MoveCount, Alloc, Free, Downward, DownwardFrom, CompactedBy, AfterRun, Fills, TailStep,
         Relocate;
    assert DownwardFrom(e.txs, |e.txs|) by { NothingDownward(e.txs); }
    NothingCompacted(e.lay, maxClusters, BatchOf(batch));
    ghost var run: seq<seq<Move>> := [];
    var batchClusters := if batch == 0 then 4096 else batch;
    stats, stopped := CompactStats(0, 0), false;
    var polls := 0;
    ghost var floor: nat := 2;
    while true
      invariant e.Valid() && |Free(e.lay)| == |Free(old(e.lay))|
      invariant e.txs == old(e.txs) + run && DownwardFrom(e.txs, |old(e.txs)|)
      invariant CompactedBy(old(e.lay), run, maxClusters, BatchOf(batch)) && e.lay == AfterRun(old(e.lay), run)
      invariant stats.transactions == |run| && stats.clustersMoved == MoveCount(run, 0)
      invariant maxClusters != 0 ==> stats.clustersMoved <= maxClusters
      invariant maxTransactions != 0 ==> stats.transactions <= maxTransactions
      invariant 2 <= floor && forall c | 2 <= c < floor :: c !in Free(e.lay)
      decreases e.lay.max + 1 - floor
    {
      if stop(polls) { stopped := true; break; }
      polls := polls + 1;
      if maxTransactions != 0 && stats.transactions >= maxTransactions { break; }
      var remaining := if maxClusters == 0 then SIZE_MAX else maxClusters - stats.clustersMoved;
      if remaining == 0 { break; }
      var hole := FirstFreeRunBelowHighWater(e.lay);
      if hole.NoHole? { break; }
      assert hole.start in Free(e.lay);
      var limit := hole.length;
      if limit > batchClusters { limit := batchClusters; }
      if limit > remaining { limit := remaining; }
      ghost var before, l := e.txs, e.lay;
      var count; ghost var moves;
      count, moves := TailFill(e, hole, limit);
      DownwardExtends(before, e.txs, |old(e.txs)|);
      assert TailStepAt(l, hole, BatchOf(batch), Remaining(maxClusters, MoveCount(run, 0)), moves);
      StepHere(l, hole, BatchOf(batch), Remaining(maxClusters, MoveCount(run, 0)), moves);
      CompactedStep(old(e.lay), run, maxClusters, BatchOf(batch), moves);
      run := run + [moves];
      stats := CompactStats(stats.clustersMoved + count, stats.transactions + 1);
      floor := hole.start + 1;
    }
    MoveCountTail(old(e.txs), run);
    assert e.txs[|old(e.txs)|..] == run;
  }

  lemma StepHere(l: Layout, h: Hole, batchClusters: nat, remaining: nat, moves: seq<Move>)
    requires TailStepAt(l, h, batchClusters, remaining, moves)
    ensures TailStep(l, batchClusters, remaining, moves)
  {
  }
}
