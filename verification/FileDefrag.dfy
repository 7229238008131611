/** Defragmentation of regular files in multi-file transactions. */
module FileDefrag {
  import opened ClusterLayout
  import opened FatEngine
  import opened GrowthPrepare
  import opened GrowthPlan
  import opened GrowthLayout

  datatype FileStats = FileStats(filesMoved: nat, transactions: nat)

  /** The scanned records, in the order chosen by the caller's sort; those from
      `from` on still describe the current chains. */
  ghost predicate Snapshot(l: Layout, files: seq<Obj>, idx: seq<nat>, from: nat) {
    && |idx| == |files|
    && (forall j | from <= j < |idx| :: idx[j] < |l.objs| && files[j] == l.objs[idx[j]])
    && (forall j, k | 0 <= j < k < |idx| :: idx[j] != idx[k])
  }

  /** Worth moving: a regular file in more than one piece. */
  predicate Fragmented(o: Obj) {
    !o.isDir && |o.chain| >= 2 && !Contiguous(o.chain)
  }

  ghost predicate RunClear(l: Layout, reserved: set<nat>, start: nat, length: nat) {
    forall c | start <= c < start + length :: c in Free(l) && c !in reserved
  }

  ghost predicate NoRun(l: Layout, reserved: set<nat>, length: nat) {
    forall s: nat :: !RunClear(l, reserved, s, length)
  }

  lemma NoRunStays(l: Layout, reserved: set<nat>, more: set<nat>, length: nat)
    requires NoRun(l, reserved, length) && reserved <= more
    ensures NoRun(l, more, length)
  {
    forall s: nat ensures !RunClear(l, more, s, length) {
      assert !RunClear(l, reserved, s, length);
    }
  }

  /** find_free_run_reserved: the lowest run of free clusters not promised to another file. */
  method FindFreeRun(l: Layout, reserved: set<nat>, needed: nat) returns (r: Position)
    requires needed >= 1
    ensures r.At? ==> RunClear(l, reserved, r.cluster, needed)
    ensures forall s: nat | r.At? ==> s < r.cluster :: !RunClear(l, reserved, s, needed)
  {
    var run: nat, c: nat := 0, 2;
    forall s: nat | s < 2 ensures !RunClear(l, reserved, s, needed) {
      assert s !in Free(l) && s <= s < s + needed;
    }
    while c <= l.max
      invariant run < needed && run + 2 <= c
      invariant RunClear(l, reserved, c - run, run)
      invariant forall s: nat | s < c - run :: !RunClear(l, reserved, s, needed)
    {
      if c in Free(l) && c !in reserved {
        run := run + 1;
        c := c + 1;
        if run >= needed { return At(c - run); }
      } else {
        forall s: nat | s < c + 1 ensures !RunClear(l, reserved, s, needed) {
          if s >= c - run { assert s <= c < s + needed; }
        }
        run := 0;
        c := c + 1;
      }
    }
    forall s: nat ensures !RunClear(l, reserved, s, needed) {
      if s >= c - run { assert (if s < c then c else s) !in Free(l); }
    }
    r := Nowhere;
  }

  // ---- One batch -------------------------------------------------------------------

  /** The planned moves rebuild the objects in `chosen`, all listed before `cursor`. */
  ghost predicate Batch(l: Layout, files: seq<Obj>, idx: seq<nat>, from: nat, cursor: nat, chosen: set<nat>,
                        moves: seq<Move>)
    requires Snapshot(l, files, idx, from)
  {
    && Legal(l, moves) && Sources(moves) == OwnedBy(l, chosen)
    && (forall i | i in chosen :: i < |l.objs| && Fragmented(l.objs[i]) && Listed(idx, from, cursor, i))
    && (forall i | i in chosen :: Rebuilt(l, i, moves))
  }

  ghost predicate Listed(idx: seq<nat>, from: nat, cursor: nat, i: nat) {
    exists j :: from <= j < cursor && j < |idx| && idx[j] == i
  }

  ghost predicate Rebuilt(l: Layout, i: nat, moves: seq<Move>) {
    exists d: nat :: RebuiltAt(l, i, moves, d)
  }

  ghost predicate RebuiltAt(l: Layout, i: nat, moves: seq<Move>, d: nat) {
    i < |l.objs| && forall k | 0 <= k < |l.objs[i].chain| :: Move(l.objs[i].chain[k], d + k) in moves
  }

  lemma RebuiltGrows(l: Layout, i: nat, moves: seq<Move>, more: seq<Move>)
    requires Rebuilt(l, i, moves)
    ensures Rebuilt(l, i, moves + more)
  {
    var d: nat :| RebuiltAt(l, i, moves, d);
    assert RebuiltAt(l, i, moves + more, d);
  }

  lemma RebuiltWhole(l: Layout, i: nat, moves: seq<Move>, d: nat)
    requires i < |l.objs|
    ensures Rebuilt(l, i, moves + WholeMoves(l.objs[i].chain, d))
  {
    var chain := l.objs[i].chain;
    var all := moves + WholeMoves(chain, d);
    forall k | 0 <= k < |chain| ensures Move(chain[k], d + k) in all {
      assert all[|moves| + k] == Move(chain[k], d + k);
    }
    assert RebuiltAt(l, i, all, d);
  }

  lemma SourcesGrow(l: Layout, moves: seq<Move>, chosen: set<nat>, i: nat, d: nat)
    requires i < |l.objs| && Sources(moves) == OwnedBy(l, chosen)
    ensures Sources(moves + WholeMoves(l.objs[i].chain, d)) == OwnedBy(l, chosen + {i})
  {
    var chain := l.objs[i].chain;
    var all := moves + WholeMoves(chain, d);
    forall c | c in Sources(all) ensures c in OwnedBy(l, chosen + {i}) {
      var n := MoveAt(all, c);
      if n < |moves| {
        assert moves[n].source in Sources(moves);
      } else {
        assert Owns(l, i, n - |moves|);
      }
    }
    forall c | c in OwnedBy(l, chosen + {i}) ensures c in Sources(all) {
      var j, k :| j in chosen + {i} && Owns(l, j, k) && l.objs[j].chain[k] == c;
      assert Owns(l, j, k);
      if j in chosen {
        assert c in OwnedBy(l, chosen);
        var n := MoveAt(moves, c);
        assert all[n] == moves[n];
      } else {
        assert all[|moves| + k].source == c;
      }
    }
  }

  lemma ChosenAway(l: Layout, chosen: set<nat>, i: nat, k: nat)
    requires WellFormed(l) && i !in chosen && Owns(l, i, k)
    ensures l.objs[i].chain[k] !in OwnedBy(l, chosen)
  {
    forall j, n | j in chosen && Owns(l, j, n) ensures l.objs[j].chain[n] != l.objs[i].chain[k] {
    }
  }

  lemma BatchAdds(l: Layout, files: seq<Obj>, idx: seq<nat>, from: nat, cursor: nat, chosen: set<nat>, moves: seq<Move>,
                  d: nat)
    requires WellFormed(l) && Snapshot(l, files, idx, from) && Batch(l, files, idx, from, cursor, chosen, moves)
    requires from <= cursor < |files| && Fragmented(files[cursor])
    requires RunClear(l, Destinations(moves), d, |files[cursor].chain|)
    ensures Batch(l, files, idx, from, cursor + 1, chosen + {idx[cursor]}, moves + WholeMoves(files[cursor].chain, d))
  {
    hide Free, Alloc, WellFormed, Legal, OwnedBy, Rebuilt;
    var i := idx[cursor];
    var chain := l.objs[i].chain;
    forall j | from <= j < cursor ensures idx[j] != i {}
    assert i !in chosen;
    assert CanAdd(l, chain, d, moves) by {
      forall k | 0 <= k < |chain| ensures chain[k] !in Sources(moves) && chain[k] !in Destinations(moves) {
        assert Owns(l, i, k);
        ChosenAway(l, chosen, i, k);
        NotDestination(l, i, k, moves);
      }
      forall c | d <= c < d + |chain| ensures c in Free(l) && c !in Sources(moves) && c !in Destinations(moves) {
        FreeNotSource(l, moves, c);
      }
    }
    BatchLegal(l, i, d, moves);
    SourcesGrow(l, moves, chosen, i, d);
    forall o | o in chosen + {i}
      ensures o < |l.objs| && Fragmented(l.objs[o]) && Listed(idx, from, cursor + 1, o)
      ensures Rebuilt(l, o, moves + WholeMoves(chain, d))
    {
      if o in chosen {
        var j :| from <= j < cursor && j < |idx| && idx[j] == o;
        assert from <= j < cursor + 1;
        RebuiltGrows(l, o, moves, WholeMoves(chain, d));
      } else {
        assert idx[cursor] == o;
        RebuiltWhole(l, i, moves, d);
      }
    }
  }

  lemma NotDestination(l: Layout, i: nat, k: nat, moves: seq<Move>)
    requires Owns(l, i, k) && Legal(l, moves)
    ensures l.objs[i].chain[k] !in Destinations(moves)
  {
    AllocAt(l, i, k);
  }

  lemma FreeNotSource(l: Layout, moves: seq<Move>, c: nat)
    requires Legal(l, moves) && c in Free(l)
    ensures c !in Sources(moves)
  {
  }

  /** `d` is the lowest start of a clear run. */
  ghost predicate Lowest(l: Layout, reserved: set<nat>, length: nat, d: nat) {
    RunClear(l, reserved, d, length) && forall s: nat | s < d :: !RunClear(l, reserved, s, length)
  }

  /** First fit, in list order: of files[from..cursor] each fragmented file goes whole to the lowest run that is free
      beside those taken before it, and is left out only if there is none. */
  ghost predicate FirstFit(l: Layout, files: seq<Obj>, from: nat, cursor: nat, count: nat, moves: seq<Move>)
    requires cursor <= |files|
    decreases cursor, 0
  {
    if cursor <= from then count == 0 && moves == []
    else
      || Skips(l, files, from, cursor - 1, count, moves)
      || (count > 0 && Takes(l, files, from, cursor - 1, count - 1, moves))
  }

  ghost predicate Skips(l: Layout, files: seq<Obj>, from: nat, j: nat, count: nat, moves: seq<Move>)
    requires j < |files|
    decreases j, 1
  {
    FirstFit(l, files, from, j, count, moves) &&
    (Fragmented(files[j]) ==> NoRun(l, Destinations(moves), |files[j].chain|))
  }

  /** The last part of `moves` takes files[j] to the lowest run beside the first part. */
  ghost predicate Takes(l: Layout, files: seq<Obj>, from: nat, j: nat, count: nat, moves: seq<Move>)
    requires j < |files|
    decreases j, 1
  {
    var chain := files[j].chain;
    && Fragmented(files[j]) && |chain| <= |moves|
    && var n := |moves| - |chain|;
       && FirstFit(l, files, from, j, count, moves[..n])
       && Lowest(l, Destinations(moves[..n]), |chain|, moves[n].destination)
       && moves[n..] == WholeMoves(chain, moves[n].destination)
  }

  lemma FirstFitSkips(l: Layout, files: seq<Obj>, from: nat, cursor: nat, count: nat, moves: seq<Move>)
    requires from <= cursor < |files| && FirstFit(l, files, from, cursor, count, moves)
    requires Fragmented(files[cursor]) ==> NoRun(l, Destinations(moves), |files[cursor].chain|)
    ensures FirstFit(l, files, from, cursor + 1, count, moves)
  {
    hide Takes, NoRun, Destinations;
    assert Skips(l, files, from, cursor, count, moves);
  }

  lemma FirstFitTakes(l: Layout, files: seq<Obj>, from: nat, cursor: nat, count: nat, moves: seq<Move>, d: nat)
    requires from <= cursor < |files| && FirstFit(l, files, from, cursor, count, moves) && Fragmented(files[cursor])
    requires Lowest(l, Destinations(moves), |files[cursor].chain|, d)
    ensures FirstFit(l, files, from, cursor + 1, count + 1, moves + WholeMoves(files[cursor].chain, d))
  {
    hide NoRun, Destinations, Lowest;
    var whole := WholeMoves(files[cursor].chain, d);
    var more := moves + whole;
    assert more[..|moves|] == moves && more[|moves|..] == whole && more[|moves|].destination == d;
    assert Takes(l, files, from, cursor, count, more);
  }

  /** List and layout determine the plan. */
  lemma {:induction false} FirstFitUnique(l: Layout, files: seq<Obj>, from: nat, cursor: nat, count: nat,
                                          moves: seq<Move>, count': nat, moves': seq<Move>)
    requires cursor <= |files|
    requires FirstFit(l, files, from, cursor, count, moves) && FirstFit(l, files, from, cursor, count', moves')
    ensures count == count' && moves == moves'
    decreases cursor
  {
    if cursor > from {
      var j: nat := cursor - 1;
      assert Skips(l, files, from, j, count, moves) || (count > 0 && Takes(l, files, from, j, count - 1, moves));
      assert Skips(l, files, from, j, count', moves') || (count' > 0 && Takes(l, files, from, j, count' - 1, moves'));
      hide Lowest, NoRun, WholeMoves, Destinations, Fragmented, FirstFit;
      var n, n' := |moves| - |files[j].chain|, |moves'| - |files[j].chain|;
      if Skips(l, files, from, j, count, moves) {
        if Skips(l, files, from, j, count', moves') {
          FirstFitUnique(l, files, from, j, count, moves, count', moves');
        } else {
          FirstFitUnique(l, files, from, j, count, moves, count' - 1, moves'[..n']);
          LowestIsRun(l, Destinations(moves), |files[j].chain|, moves'[n'].destination);
        }
      } else if Skips(l, files, from, j, count', moves') {
        FirstFitUnique(l, files, from, j, count - 1, moves[..n], count', moves');
        LowestIsRun(l, Destinations(moves'), |files[j].chain|, moves[n].destination);
      } else {
        FirstFitUnique(l, files, from, j, count - 1, moves[..n], count' - 1, moves'[..n']);
        OneLowest(l, Destinations(moves[..n]), |files[j].chain|, moves[n].destination, moves'[n'].destination);
        assert moves == moves[..n] + moves[n..] && moves' == moves'[..n'] + moves'[n'..];
      }
    }
  }

  lemma LowestIsRun(l: Layout, reserved: set<nat>, length: nat, d: nat)
    requires Lowest(l, reserved, length, d)
    ensures !NoRun(l, reserved, length)
  {
  }

  lemma OneLowest(l: Layout, reserved: set<nat>, length: nat, d: nat, d': nat)
    requires Lowest(l, reserved, length, d) && Lowest(l, reserved, length, d')
    ensures d == d'
  {
    hide RunClear;
  }

  /** The planning loop of one transaction. */
  method PlanFileBatch(l: Layout, files: seq<Obj>, ghost idx: seq<nat>, from: nat, limit: nat)
    returns (cursor: nat, moves: seq<Move>, count: nat, ghost chosen: set<nat>)
    requires WellFormed(l) && Snapshot(l, files, idx, from) && from <= |files|
    ensures from <= cursor <= |files| && (limit > 0 && from < |files| ==> from < cursor)
    ensures Batch(l, files, idx, from, cursor, chosen, moves) && count <= limit
    ensures count == |chosen| && (cursor < |files| ==> count == limit) && (count == 0 ==> moves == [])
    ensures count <= cursor - from
    ensures PassedOver(l, files, idx, from, cursor, chosen, moves)
    ensures FirstFit(l, files, from, cursor, count, moves)
    ensures limit > 0 && count == limit ==> cursor > 0 && idx[cursor - 1] in chosen
  {
    hide Free, Alloc, WellFormed, Legal, OwnedBy, Rebuilt, Listed, RunClear, NoRun, PassedOver, Batch, FirstFit, Lowest;
    cursor, moves, count, chosen := from, [], 0, {};
    assert Batch(l, files, idx, from, cursor, chosen, moves) by { BatchNone(l, files, idx, from); }
    NothingPassed(l, files, idx, from);
    NothingTaken(l, files, from);
    while cursor < |files| && count < limit
      invariant from <= cursor <= |files| && count <= limit
      invariant Batch(l, files, idx, from, cursor, chosen, moves)
      invariant PassedOver(l, files, idx, from, cursor, chosen, moves)
      invariant count == |chosen| && (count == 0 ==> moves == [])
      invariant count <= cursor - from
      invariant FirstFit(l, files, from, cursor, count, moves)
      invariant limit > 0 && count == limit ==> cursor > 0 && idx[cursor - 1] in chosen
    {
      var f := files[cursor];
      if Fragmented(f) {
        var run := FindFreeRun(l, Destinations(moves), |f.chain|);
        if run.At? {
          LowestIntro(l, Destinations(moves), |f.chain|, run.cluster);
          FirstFitTakes(l, files, from, cursor, count, moves, run.cluster);
          BatchAdds(l, files, idx, from, cursor, chosen, moves, run.cluster);
          NotChosenYet(l, files, idx, from, cursor, chosen, moves);
          PassedOverAdds(l, files, idx, from, cursor, chosen, moves, run.cluster);
          moves, count, chosen := moves + WholeMoves(f.chain, run.cluster), count + 1, chosen + {idx[cursor]};
          cursor := cursor + 1;
          continue;
        }
        assert NoRun(l, Destinations(moves), |f.chain|) by { NoRunIntro(l, Destinations(moves), |f.chain|); }
      }
      FirstFitSkips(l, files, from, cursor, count, moves);
      PassedOverSkips(l, files, idx, from, cursor, chosen, moves);
      BatchPasses(l, files, idx, from, cursor, chosen, moves);
      cursor := cursor + 1;
    }
  }

  lemma NothingTaken(l: Layout, files: seq<Obj>, from: nat)
    requires from <= |files|
    ensures FirstFit(l, files, from, from, 0, [])
  {
  }

  lemma LowestIntro(l: Layout, reserved: set<nat>, length: nat, d: nat)
    requires RunClear(l, reserved, d, length) && forall s: nat | s < d :: !RunClear(l, reserved, s, length)
    ensures Lowest(l, reserved, length, d)
  {
  }

  /** A fragmented file of the batch's records that was not chosen had no run to go to. */
  ghost predicate PassedOver(l: Layout, files: seq<Obj>, idx: seq<nat>, from: nat, cursor: nat, chosen: set<nat>,
                             moves: seq<Move>) {
    && cursor <= |files| == |idx|
    && forall j | from <= j < cursor && Fragmented(files[j]) && idx[j] !in chosen ::
         NoRun(l, Destinations(moves), |files[j].chain|)
  }

  lemma NoRunIntro(l: Layout, reserved: set<nat>, length: nat)
    requires forall s: nat :: !RunClear(l, reserved, s, length)
    ensures NoRun(l, reserved, length)
  {
  }

  lemma NothingPassed(l: Layout, files: seq<Obj>, idx: seq<nat>, from: nat)
    requires from <= |files| == |idx|
    ensures PassedOver(l, files, idx, from, from, {}, [])
  {
  }

  lemma PassedOverSkips(l: Layout, files: seq<Obj>, idx: seq<nat>, from: nat, cursor: nat, chosen: set<nat>,
                        moves: seq<Move>)
    requires PassedOver(l, files, idx, from, cursor, chosen, moves) && cursor < |files|
    requires Fragmented(files[cursor]) ==> NoRun(l, Destinations(moves), |files[cursor].chain|)
    ensures PassedOver(l, files, idx, from, cursor + 1, chosen, moves)
  {
    hide NoRun, Destinations;
  }

  lemma PassedOverAdds(l: Layout, files: seq<Obj>, idx: seq<nat>, from: nat, cursor: nat, chosen: set<nat>,
                       moves: seq<Move>, d: nat)
    requires PassedOver(l, files, idx, from, cursor, chosen, moves) && cursor < |files|
    ensures PassedOver(l, files, idx, from, cursor + 1, chosen + {idx[cursor]},
                       moves + WholeMoves(files[cursor].chain, d))
  {
    hide NoRun;
    var more := moves + WholeMoves(files[cursor].chain, d);
    DestinationsGrow(moves, WholeMoves(files[cursor].chain, d));
    forall j | from <= j < cursor + 1 && Fragmented(files[j]) && idx[j] !in chosen + {idx[cursor]}
      ensures NoRun(l, Destinations(more), |files[j].chain|)
    {
      NoRunStays(l, Destinations(moves), Destinations(more), |files[j].chain|);
    }
  }

  lemma DestinationsGrow(moves: seq<Move>, more: seq<Move>)
    ensures Destinations(moves) <= Destinations(moves + more)
  {
    forall c | c in Destinations(moves) ensures c in Destinations(moves + more) {
      var i :| 0 <= i < |moves| && moves[i].destination == c;
      assert (moves + more)[i].destination == c;
    }
  }

  lemma NotChosenYet(l: Layout, files: seq<Obj>, idx: seq<nat>, from: nat, cursor: nat, chosen: set<nat>,
                     moves: seq<Move>)
    requires Snapshot(l, files, idx, from) && Batch(l, files, idx, from, cursor, chosen, moves)
    requires from <= cursor < |files|
    ensures idx[cursor] !in chosen
  {
    hide Legal, OwnedBy, Rebuilt;
    forall i | i in chosen ensures i != idx[cursor] {
      assert Listed(idx, from, cursor, i);
      var j :| from <= j < cursor && j < |idx| && idx[j] == i;
    }
  }

  lemma BatchNone(l: Layout, files: seq<Obj>, idx: seq<nat>, from: nat)
    requires Snapshot(l, files, idx, from)
    ensures Batch(l, files, idx, from, from, {}, [])
  {
    assert OwnedBy(l, {}) == {} && Sources([]) == {};
  }

  lemma BatchPasses(l: Layout, files: seq<Obj>, idx: seq<nat>, from: nat, cursor: nat, chosen: set<nat>,
                    moves: seq<Move>)
    requires Snapshot(l, files, idx, from) && Batch(l, files, idx, from, cursor, chosen, moves)
    ensures Batch(l, files, idx, from, cursor + 1, chosen, moves)
  {
    hide Free, Alloc, Legal, OwnedBy, Rebuilt;
    forall i | i in chosen ensures Listed(idx, from, cursor + 1, i) {
      var j :| from <= j < cursor && j < |idx| && idx[j] == i;
      assert from <= j < cursor + 1;
    }
  }

  // ---- The whole pass --------------------------------------------------------------------

  /** A transaction never moves what an earlier one moved or filled, so directory
      references recorded before the first transaction stay usable (see module StaleReferences). */
  ghost predicate StaleSafe(txs: seq<seq<Move>>) {
    forall a, b | 0 <= a < b < |txs| :: Sources(txs[b]) !! Sources(txs[a]) + Destinations(txs[a])
  }

  /** Chains outside `moved` are as scanned; chains in `moved` were fragmented files, now one run. */
  ghost predicate Progressed(l0: Layout, l: Layout, moved: set<nat>) {
    && SameShape(l0, l)
    && (forall i | 0 <= i < |l0.objs| && i !in moved :: l.objs[i].chain == l0.objs[i].chain)
    && (forall i | i in moved :: i < |l0.objs| && Fragmented(l0.objs[i]) && Contiguous(l.objs[i].chain))
  }

  /** Clusters named by earlier transactions do not belong to chains still as scanned. */
  ghost predicate Unrelated(l0: Layout, moved: set<nat>, touched: set<nat>) {
    forall i, k | i !in moved && Owns(l0, i, k) :: l0.objs[i].chain[k] !in touched
  }

  ghost function Touched(txs: seq<seq<Move>>): set<nat> {
    if txs == [] then {} else Touched(txs[..|txs| - 1]) + Sources(txs[|txs| - 1]) + Destinations(txs[|txs| - 1])
  }

  /** Nothing the transactions name belongs to a directory of `l`. */
  ghost predicate DirectoriesStay(l: Layout, txs: seq<seq<Move>>) {
    forall i, k | Owns(l, i, k) && l.objs[i].isDir :: l.objs[i].chain[k] !in Touched(txs)
  }

  lemma {:induction false} TouchedAt(txs: seq<seq<Move>>, t: nat)
    requires t < |txs|
    ensures Sources(txs[t]) + Destinations(txs[t]) <= Touched(txs)
  {
    if t < |txs| - 1 { TouchedAt(txs[..|txs| - 1], t); }
  }

  lemma StaleSafeStep(txs: seq<seq<Move>>, moves: seq<Move>)
    requires StaleSafe(txs) && Sources(moves) !! Touched(txs)
    ensures StaleSafe(txs + [moves]) && Touched(txs + [moves]) == Touched(txs) + Sources(moves) + Destinations(moves)
  {
    var all := txs + [moves];
    assert all[..|all| - 1] == txs;
    forall a, b | 0 <= a < b < |all| ensures Sources(all[b]) !! Sources(all[a]) + Destinations(all[a]) {
      if b == |txs| { TouchedAt(txs, a); } else { assert all[a] == txs[a] && all[b] == txs[b]; }
    }
  }

  lemma BatchMovesChain(l: Layout, moves: seq<Move>, i: nat)
    requires DistinctMoves(moves) && i < |l.objs| && Rebuilt(l, i, moves)
    ensures |Relocate(l, moves).objs| == |l.objs| && Contiguous(Relocate(l, moves).objs[i].chain)
  {
    var d: nat :| RebuiltAt(l, i, moves, d);
    assert RebuiltAt(l, i, moves, d);
    var g := GrowthObject(false, false, "", |l.objs[i].chain|, 0, d, 0);
    BatchMoved(l, g, i, moves);
  }

  lemma BatchProgress(l0: Layout, l: Layout, files: seq<Obj>, idx: seq<nat>, from: nat, cursor: nat, moved: set<nat>,
                      chosen: set<nat>, moves: seq<Move>)
    requires WellFormed(l) && Snapshot(l, files, idx, from) && Batch(l, files, idx, from, cursor, chosen, moves)
    requires Progressed(l0, l, moved) && moved !! chosen
    ensures Progressed(l0, Relocate(l, moves), moved + chosen)
  {
    hide Free, Alloc, WellFormed, OwnedBy, Rebuilt, Relocate, Sources, Destinations, Listed;
    ShapeSteps(l0, l, moves);
    var l' := Relocate(l, moves);
    forall i | 0 <= i < |l0.objs| && i !in chosen ensures l'.objs[i].chain == l.objs[i].chain {
      forall k | 0 <= k < |l.objs[i].chain| ensures l.objs[i].chain[k] !in Sources(moves) {
        assert Owns(l, i, k);
        ChosenAway(l, chosen, i, k);
      }
      Unmoved(l, moves, i);
    }
    forall i | i in moved + chosen ensures i < |l0.objs| && Fragmented(l0.objs[i]) && Contiguous(l'.objs[i].chain) {
      if i in chosen {
        assert Rebuilt(l, i, moves);
        BatchMovesChain(l, moves, i);
        assert l.objs[i] == l0.objs[i];
      }
    }
  }

  lemma BatchUnrelated(l0: Layout, l: Layout, files: seq<Obj>, idx: seq<nat>, from: nat, cursor: nat, moved: set<nat>,
                       chosen: set<nat>, moves: seq<Move>, touched: set<nat>)
    requires WellFormed(l) && Snapshot(l, files, idx, from) && Batch(l, files, idx, from, cursor, chosen, moves)
    requires Progressed(l0, l, moved) && moved !! chosen && Unrelated(l0, moved, touched)
    ensures Sources(moves) !! touched
    ensures Unrelated(l0, moved + chosen, touched + Sources(moves) + Destinations(moves))
  {
    hide Free, Alloc, Legal;
    forall c | c in Sources(moves) ensures c !in touched {
      var i, k :| i in chosen && Owns(l, i, k) && l.objs[i].chain[k] == c;
      assert Owns(l, i, k) && i !in moved;
      assert Owns(l0, i, k) && l0.objs[i].chain[k] == c;
    }
    forall i, k | i !in moved + chosen && Owns(l0, i, k)
      ensures l0.objs[i].chain[k] !in touched + Sources(moves) + Destinations(moves)
    {
      assert Owns(l, i, k) && l.objs[i].chain[k] == l0.objs[i].chain[k];
      ChosenAway(l, chosen, i, k);
      NotDestination(l, i, k, moves);
    }
  }

  lemma LaterStillListed(l0: Layout, l: Layout, files: seq<Obj>, idx: seq<nat>, cursor: nat, moved: set<nat>)
    requires Snapshot(l0, files, idx, 0) && Progressed(l0, l, moved) && cursor <= |files|
    requires forall i | i in moved :: Listed(idx, 0, cursor, i)
    ensures Snapshot(l, files, idx, cursor)
  {
    forall j | cursor <= j < |idx| ensures idx[j] < |l.objs| && files[j] == l.objs[idx[j]] {
      forall a | 0 <= a < cursor ensures idx[a] != idx[j] {}
      assert idx[j] !in moved;
    }
  }

  lemma ListedWider(idx: seq<nat>, from: nat, cursor: nat, moved: set<nat>, chosen: set<nat>)
    requires from <= cursor
    requires forall i | i in moved :: Listed(idx, 0, from, i)
    requires forall i | i in chosen :: Listed(idx, from, cursor, i)
    ensures forall i | i in moved + chosen :: Listed(idx, 0, cursor, i)
  {
    forall i | i in moved + chosen ensures Listed(idx, 0, cursor, i) {
      if i in moved {
        var j :| 0 <= j < from && j < |idx| && idx[j] == i;
        assert 0 <= j < cursor;
      } else {
        var j :| from <= j < cursor && j < |idx| && idx[j] == i;
        assert 0 <= j < cursor;
      }
    }
  }

  lemma ChosenAreNew(idx: seq<nat>, from: nat, cursor: nat, moved: set<nat>, chosen: set<nat>)
    requires forall j, k | 0 <= j < k < |idx| :: idx[j] != idx[k]
    requires forall i | i in moved :: Listed(idx, 0, from, i)
    requires forall i | i in chosen :: Listed(idx, from, cursor, i)
    ensures moved !! chosen
  {
    forall i, o | i in moved && o in chosen ensures i != o {
      var a :| 0 <= a < from && a < |idx| && idx[a] == i;
      var b :| from <= b < cursor && b < |idx| && idx[b] == o;
    }
  }

  /** State between transactions: `moved` holds the objects rebuilt so far. */
  ghost predicate Between(l0: Layout, l: Layout, done: seq<seq<Move>>, files: seq<Obj>, idx: seq<nat>, cursor: nat,
                          moved: set<nat>) {
    && Snapshot(l0, files, idx, 0) && cursor <= |files| && Progressed(l0, l, moved)
    && (forall i | i in moved :: Listed(idx, 0, cursor, i))
    && StaleSafe(done) && Unrelated(l0, moved, Touched(done))
  }

  lemma BetweenSteps(l0: Layout, l: Layout, done: seq<seq<Move>>, files: seq<Obj>, idx: seq<nat>, from: nat,
                     cursor: nat, moved: set<nat>, chosen: set<nat>, moves: seq<Move>)
    requires WellFormed(l) && Between(l0, l, done, files, idx, from, moved) && from <= cursor <= |files|
    requires Snapshot(l, files, idx, from) && Batch(l, files, idx, from, cursor, chosen, moves)
    ensures Between(l0, Relocate(l, moves), done + [moves], files, idx, cursor, moved + chosen)
    ensures chosen == {} ==> Between(l0, l, done, files, idx, cursor, moved)
  {
    hide WellFormed, StaleSafe, Touched, Listed, Progressed, Unrelated, Relocate, Legal, OwnedBy, Fragmented, Rebuilt;
    ChosenAreNew(idx, from, cursor, moved, chosen);
    ListedWider(idx, from, cursor, moved, chosen);
    BatchProgress(l0, l, files, idx, from, cursor, moved, chosen, moves);
    BatchUnrelated(l0, l, files, idx, from, cursor, moved, chosen, moves, Touched(done));
    StaleSafeStep(done, moves);
    assert chosen == {} ==> moved + chosen == moved;
  }

  lemma BetweenSnapshot(l0: Layout, l: Layout, done: seq<seq<Move>>, files: seq<Obj>, idx: seq<nat>, cursor: nat,
                        moved: set<nat>)
    requires Between(l0, l, done, files, idx, cursor, moved)
    ensures Snapshot(l, files, idx, cursor)
  {
    LaterStillListed(l0, l, files, idx, cursor, moved);
  }

  /** Records from `cursor` on have not been moved. */
  ghost predicate NotReached(idx: seq<nat>, cursor: nat, moved: set<nat>) {
    forall j | cursor <= j < |idx| :: idx[j] !in moved
  }

  lemma ListedBefore(idx: seq<nat>, cursor: nat, i: nat)
    requires (forall a, b | 0 <= a < b < |idx| :: idx[a] != idx[b]) && Listed(idx, 0, cursor, i)
    ensures forall j | cursor <= j < |idx| :: idx[j] != i
  {
  }

  lemma BetweenGives(l0: Layout, l: Layout, done: seq<seq<Move>>, files: seq<Obj>, idx: seq<nat>, cursor: nat,
                     moved: set<nat>)
    requires Between(l0, l, done, files, idx, cursor, moved)
    ensures Progressed(l0, l, moved) && StaleSafe(done) && DirectoriesStay(l0, done) && NotReached(idx, cursor, moved)
  {
    forall i | i in moved ensures forall j | cursor <= j < |idx| :: idx[j] != i {
      ListedBefore(idx, cursor, i);
    }
    forall i, k | Owns(l0, i, k) && l0.objs[i].isDir ensures l0.objs[i].chain[k] !in Touched(done) {
      assert i !in moved;
    }
  }

  lemma BatchIsLegal(l: Layout, files: seq<Obj>, idx: seq<nat>, from: nat, cursor: nat, chosen: set<nat>,
                     moves: seq<Move>)
    requires Snapshot(l, files, idx, from) && Batch(l, files, idx, from, cursor, chosen, moves)
    ensures Legal(l, moves)
  {
  }

  lemma BetweenStart(l0: Layout, files: seq<Obj>, idx: seq<nat>)
    requires Snapshot(l0, files, idx, 0)
    ensures Between(l0, l0, [], files, idx, 0, {})
  {
  }

  /** The layouts between the transactions. */
  ghost predicate Trace(l0: Layout, lays: seq<Layout>, done: seq<seq<Move>>) {
    |lays| == |done| + 1 && lays[0] == l0 && forall t | 0 <= t < |done| :: lays[t + 1] == Relocate(lays[t], done[t])
  }

  /** At some point of the run no free run of that length was left beside those of the transaction being planned. */
  ghost predicate NeverFitted(lays: seq<Layout>, done: seq<seq<Move>>, length: nat) {
    && |lays| == |done| + 1
    && exists t :: 0 <= t < |lays| && NoRun(lays[t], if t < |done| then Destinations(done[t]) else {}, length)
  }

  /** Fragmented files before `cursor` were moved, or had nowhere to go. */
  ghost predicate Served(lays: seq<Layout>, done: seq<seq<Move>>, files: seq<Obj>, idx: seq<nat>, cursor: nat,
                         moved: set<nat>) {
    && cursor <= |files| == |idx|
    && forall j | 0 <= j < cursor && Fragmented(files[j]) && idx[j] !in moved ::
         NeverFitted(lays, done, |files[j].chain|)
  }

  lemma NeverFittedStays(lays: seq<Layout>, done: seq<seq<Move>>, l: Layout, moves: seq<Move>, length: nat)
    requires NeverFitted(lays, done, length)
    ensures NeverFitted(lays + [l], done + [moves], length)
  {
    hide NoRun;
    var t :| 0 <= t < |lays| && NoRun(lays[t], if t < |done| then Destinations(done[t]) else {}, length);
    if t == |done| { NoRunStays(lays[t], {}, Destinations(moves), length); }
    assert (lays + [l])[t] == lays[t] && t < |done + [moves]|;
    assert (done + [moves])[t] == if t < |done| then done[t] else moves;
  }

  lemma NeverFittedNow(lays: seq<Layout>, done: seq<seq<Move>>, l: Layout, moves: seq<Move>, length: nat)
    requires |lays| == |done| + 1 && NoRun(lays[|done|], Destinations(moves), length)
    ensures NeverFitted(lays + [l], done + [moves], length)
    ensures moves == [] ==> NeverFitted(lays, done, length)
  {
    hide NoRun;
    assert (lays + [l])[|done|] == lays[|done|] && (done + [moves])[|done|] == moves;
    assert moves == [] ==> Destinations(moves) == {};
  }

  lemma ServedSteps(l0: Layout, lays: seq<Layout>, done: seq<seq<Move>>, files: seq<Obj>, idx: seq<nat>, from: nat,
                    cursor: nat, moved: set<nat>, chosen: set<nat>, moves: seq<Move>)
    requires Trace(l0, lays, done) && Served(lays, done, files, idx, from, moved)
    requires PassedOver(lays[|done|], files, idx, from, cursor, chosen, moves)
    ensures Trace(l0, lays + [Relocate(lays[|done|], moves)], done + [moves])
    ensures Served(lays + [Relocate(lays[|done|], moves)], done + [moves], files, idx, cursor, moved + chosen)
    ensures chosen == {} && moves == [] ==> Served(lays, done, files, idx, cursor, moved)
  {
    hide NoRun, Relocate, Destinations, NeverFitted, Fragmented;
    var l := Relocate(lays[|done|], moves);
    forall j | 0 <= j < cursor && Fragmented(files[j]) && idx[j] !in moved + chosen
      ensures NeverFitted(lays + [l], done + [moves], |files[j].chain|)
    {
      if j < from { NeverFittedStays(lays, done, l, moves, |files[j].chain|); } else {
        NeverFittedNow(lays, done, l, moves, |files[j].chain|);
      }
    }
    if chosen == {} && moves == [] {
      forall j | from <= j < cursor && Fragmented(files[j]) && idx[j] !in moved
        ensures NeverFitted(lays, done, |files[j].chain|)
      {
        NeverFittedNow(lays, done, l, moves, |files[j].chain|);
      }
    }
  }

  lemma NothingServed(l0: Layout, files: seq<Obj>, idx: seq<nat>)
    requires |idx| == |files|
    ensures Trace(l0, [l0], []) && Served([l0], [], files, idx, 0, {})
  {
  }

  lemma CountTogether(moved: set<nat>, chosen: set<nat>)
    requires moved !! chosen
    ensures |moved + chosen| == |moved| + |chosen|
  {
  }

  lemma BetweenDisjoint(l0: Layout, l: Layout, done: seq<seq<Move>>, files: seq<Obj>, idx: seq<nat>, from: nat,
                        cursor: nat, moved: set<nat>, chosen: set<nat>, moves: seq<Move>)
    requires Between(l0, l, done, files, idx, from, moved) && Batch(l, files, idx, from, cursor, chosen, moves)
    requires Snapshot(l, files, idx, from)
    ensures moved !! chosen
  {
    hide StaleSafe, Touched, Progressed, Unrelated, Legal, OwnedBy, Fragmented, Rebuilt;
    ChosenAreNew(idx, from, cursor, moved, chosen);
  }

  /** Everything the loop keeps between transactions. */
  ghost predicate Running(l0: Layout, l: Layout, done: seq<seq<Move>>, lays: seq<Layout>, files: seq<Obj>,
                          idx: seq<nat>, cursor: nat, moved: set<nat>) {
    && Between(l0, l, done, files, idx, cursor, moved)
    && Trace(l0, lays, done) && lays[|done|] == l && Served(lays, done, files, idx, cursor, moved)
  }

  lemma RunningStart(l0: Layout, files: seq<Obj>, idx: seq<nat>)
    requires Snapshot(l0, files, idx, 0)
    ensures Running(l0, l0, [], [l0], files, idx, 0, {})
  {
    BetweenStart(l0, files, idx);
    NothingServed(l0, files, idx);
  }

  lemma RunningSnapshot(l0: Layout, l: Layout, done: seq<seq<Move>>, lays: seq<Layout>, files: seq<Obj>, idx: seq<nat>,
                        cursor: nat, moved: set<nat>)
    requires Running(l0, l, done, lays, files, idx, cursor, moved)
    ensures Snapshot(l, files, idx, cursor)
  {
    hide Between, Trace, Served;
    BetweenSnapshot(l0, l, done, files, idx, cursor, moved);
  }

  lemma RunningSteps(l0: Layout, l: Layout, done: seq<seq<Move>>, lays: seq<Layout>, files: seq<Obj>, idx: seq<nat>,
                     from: nat, cursor: nat, moved: set<nat>, chosen: set<nat>, moves: seq<Move>)
    requires WellFormed(l) && Running(l0, l, done, lays, files, idx, from, moved) && from <= cursor <= |files|
    requires Snapshot(l, files, idx, from) && Batch(l, files, idx, from, cursor, chosen, moves)
    requires PassedOver(l, files, idx, from, cursor, chosen, moves)
    ensures Running(l0, Relocate(l, moves), done + [moves], lays + [Relocate(l, moves)], files, idx, cursor,
                    moved + chosen)
    ensures Legal(l, moves) && |moved + chosen| == |moved| + |chosen|
    ensures chosen == {} && moves == [] ==> Running(l0, l, done, lays, files, idx, cursor, moved)
  {
    hide WellFormed, Legal, Snapshot, Between, Batch, Served, PassedOver, Relocate;
    BetweenSteps(l0, l, done, files, idx, from, cursor, moved, chosen, moves);
    BetweenDisjoint(l0, l, done, files, idx, from, cursor, moved, chosen, moves);
    ServedSteps(l0, lays, done, files, idx, from, cursor, moved, chosen, moves);
    BatchIsLegal(l, files, idx, from, cursor, chosen, moves);
    CountTogether(moved, chosen);
  }

  lemma RunningGives(l0: Layout, l: Layout, done: seq<seq<Move>>, lays: seq<Layout>, files: seq<Obj>, idx: seq<nat>,
                     cursor: nat, moved: set<nat>)
    requires Running(l0, l, done, lays, files, idx, cursor, moved)
    ensures Trace(l0, lays, done) && |lays| == |done| + 1 && lays[|done|] == l
    ensures Served(lays, done, files, idx, cursor, moved)
    ensures Progressed(l0, l, moved) && StaleSafe(done) && DirectoriesStay(l0, done) && NotReached(idx, cursor, moved)
  {
    hide Between, Served, Progressed, StaleSafe, DirectoriesStay;
    BetweenGives(l0, l, done, files, idx, cursor, moved);
  }

  function BatchLimit(transactionFiles: nat, left: nat, maxFiles: nat, filesMoved: nat): (n: nat)
    requires maxFiles != 0 ==> filesMoved < maxFiles
    ensures n <= left && (maxFiles != 0 ==> filesMoved + n <= maxFiles)
    ensures transactionFiles >= 1 && left >= 1 ==> n >= 1
    ensures n <= transactionFiles
    ensures n == transactionFiles || n == left || (maxFiles != 0 && filesMoved + n == maxFiles)
  {
    var n := Min(transactionFiles, left);
    if maxFiles != 0 then Min(n, maxFiles - filesMoved) else n
  }

  ghost function Sum(counts: seq<nat>): nat {
    if counts == [] then 0 else Sum(counts[..|counts| - 1]) + counts[|counts| - 1]
  }

  /** The files each transaction took and where it started in the list: each is a first fit, takes at most
      `transactionFiles` files, and fewer only at the end of the list or of the budget. */
  ghost predicate Batches(lays: seq<Layout>, done: seq<seq<Move>>, files: seq<Obj>, starts: seq<nat>, counts: seq<nat>,
                          maxFiles: nat, transactionFiles: nat)
  {
    && |lays| == |starts| == |done| + 1 == |counts| + 1 && starts[0] == 0
    && forall t | 0 <= t < |done| ::
         && Taken(lays[t], done[t], files, starts[t], starts[t + 1], counts[t])
         && Filled(files, starts[t + 1], counts[t], Sum(counts[..t]), maxFiles, transactionFiles)
  }

  ghost predicate Taken(l: Layout, moves: seq<Move>, files: seq<Obj>, from: nat, next: nat, count: nat) {
    from < next <= |files| && 1 <= count && FirstFit(l, files, from, next, count, moves)
  }

  ghost predicate Filled(files: seq<Obj>, next: nat, count: nat, before: nat, maxFiles: nat, transactionFiles: nat) {
    && count <= transactionFiles
    && (next == |files| || count == transactionFiles || (maxFiles != 0 && before + count == maxFiles))
  }

  lemma {:induction false} BatchesStep(lays: seq<Layout>, done: seq<seq<Move>>, files: seq<Obj>, starts: seq<nat>,
                                       counts: seq<nat>, maxFiles: nat, transactionFiles: nat, l: Layout,
                                       moves: seq<Move>, next: nat, count: nat)
    requires Batches(lays, done, files, starts, counts, maxFiles, transactionFiles)
    requires Taken(lays[|done|], moves, files, starts[|done|], next, count)
    requires Filled(files, next, count, Sum(counts), maxFiles, transactionFiles)
    ensures Batches(lays + [l], done + [moves], files, starts + [next], counts + [count], maxFiles, transactionFiles)
    ensures Sum(counts + [count]) == Sum(counts) + count
  {
    hide Taken, Filled;
    var more := counts + [count];
    assert more[..|counts|] == counts;
    hide Sum;
    forall t | 0 <= t < |done| + 1
      ensures Filled(files, (starts + [next])[t + 1], more[t], Sum(more[..t]), maxFiles, transactionFiles)
    {
      if t < |done| { assert more[..t] == counts[..t]; }
    }
  }

  /** defrag_files_batched with the records and references of one initial scan. */
  method DefragFilesBatched(e: Engine, files: seq<Obj>, ghost idx: seq<nat>, maxFiles: nat, transactionFiles: nat,
                            stop: nat -> bool)
    returns (stats: FileStats, cursor: nat, ghost done: seq<seq<Move>>, ghost lays: seq<Layout>, ghost moved: set<nat>,
             ghost starts: seq<nat>, ghost counts: seq<nat>)
    requires e.Valid() && Snapshot(e.lay, files, idx, 0)
    modifies e
    ensures e.Valid() && e.txs == old(e.txs) + done && |Free(e.lay)| == |Free(old(e.lay))|
    ensures Trace(old(e.lay), lays, done) && lays[|done|] == e.lay
    ensures Progressed(old(e.lay), e.lay, moved) && stats == FileStats(|moved|, |done|)
    ensures StaleSafe(done) && DirectoriesStay(old(e.lay), done)
    ensures maxFiles != 0 ==> stats.filesMoved <= maxFiles
    ensures cursor <= |files| && Served(lays, done, files, idx, cursor, moved) && NotReached(idx, cursor, moved)
    ensures cursor < |files| ==>
      transactionFiles == 0 || (maxFiles != 0 && stats.filesMoved == maxFiles) || exists n :: stop(n)
    ensures Batches(lays, done, files, starts, counts, maxFiles, transactionFiles) && Sum(counts) == stats.filesMoved
    ensures cursor == starts[|done|] ||
            (cursor == |files| && FirstFit(lays[|done|], files, starts[|done|], cursor, 0, []))
  {
    hide Batches, FirstFit, Sum, BatchLimit, Free, Alloc, Sources, Destinations, WellFormed, Reached, Legal, Snapshot,
         Running, Batch, PassedOver, Relocate, Trace, Progressed, StaleSafe, DirectoriesStay, Served, NotReached;
    ghost var start := e.lay;
    stats, cursor, done, lays, moved := FileStats(0, 0), 0, [], [e.lay], {};
    var polls: nat := 0;
    RunningStart(start, files, idx);
    starts, counts := [0], [];
    assert Batches(lays, done, files, starts, counts, maxFiles, transactionFiles) && Sum(counts) == 0 by {
      NoBatches(start, files, maxFiles, transactionFiles);
    }
    while cursor < |files|
      invariant e.Valid() && e.txs == old(e.txs) + done && |Free(e.lay)| == |Free(old(e.lay))|
      invariant cursor <= |files| && Running(start, e.lay, done, lays, files, idx, cursor, moved)
      invariant stats == FileStats(|moved|, |done|) && (maxFiles != 0 ==> stats.filesMoved <= maxFiles)
      invariant Batches(lays, done, files, starts, counts, maxFiles, transactionFiles)
      invariant Sum(counts) == stats.filesMoved
      invariant |starts| == |done| + 1 == |lays| && lays[|done|] == e.lay
      invariant cursor == starts[|done|] ||
                (cursor == |files| && FirstFit(lays[|done|], files, starts[|done|], cursor, 0, []))
    {
      if stop(polls) { break; }
      polls := polls + 1;
      if maxFiles != 0 && stats.filesMoved >= maxFiles { break; }
      var limit := BatchLimit(transactionFiles, |files| - cursor, maxFiles, stats.filesMoved);
      if limit == 0 { break; }
      RunningSnapshot(start, e.lay, done, lays, files, idx, cursor, moved);
      var next, moves, count; ghost var chosen;
      next, moves, count, chosen := PlanFileBatch(e.lay, files, idx, cursor, limit);
      RunningSteps(start, e.lay, done, lays, files, idx, cursor, next, moved, chosen, moves);
      if count == 0 { cursor := next; continue; }
      if stop(polls) { break; }
      polls := polls + 1;
      cursor := next;
      e.ExecuteMoves(moves);
      BatchesStep(lays, done, files, starts, counts, maxFiles, transactionFiles, e.lay, moves, next, count);
      done, lays, moved := done + [moves], lays + [e.lay], moved + chosen;
      starts, counts := starts + [next], counts + [count];
      stats := FileStats(stats.filesMoved + count, stats.transactions + 1);
    }
    RunningGives(start, e.lay, done, lays, files, idx, cursor, moved);
  }

  lemma NoBatches(l: Layout, files: seq<Obj>, maxFiles: nat, transactionFiles: nat)
    ensures Batches([l], [], files, [0], [], maxFiles, transactionFiles) && Sum([]) == 0
  {
  }
}
