/**
 The engine object shared by the FAT planners.  `lay` is the layout a rescan of
 the volume returns; every change to it goes through one journalled transaction.
 Module VolumeRuns shows that a volume really follows `lay` transaction by transaction.
 */
module FatEngine {
  import opened ClusterLayout

  const SIZE_MAX: nat := 0xFFFF_FFFF_FFFF_FFFF

  class Engine {
    var lay: Layout
    /** All committed transactions, oldest first. */
    ghost var txs: seq<seq<Move>>
    ghost const origin: Layout

    ghost predicate Valid()
      reads this
    {
      Reached(origin, txs, lay) && WellFormed(lay)
    }

    constructor (l: Layout)
      requires WellFormed(l)
      ensures Valid() && lay == l && txs == [] && origin == l
    {
      lay := l;
      txs := [];
      origin := l;
    }

    /** compact_execute_moves: one journalled transaction.  Legal moves go from owned to free clusters,
        which is more than compact_build_map tests: it accepts any one-to-one list within range. */
    method ExecuteMoves(moves: seq<Move>)
      requires Valid() && Legal(lay, moves)
      modifies this
      ensures Valid()
      ensures lay == Relocate(old(lay), moves) && txs == old(txs) + [moves]
      ensures lay.max == old(lay.max) && lay.bad == old(lay.bad)
      ensures Free(lay) == Free(old(lay)) - Destinations(moves) + Sources(moves)
      ensures Alloc(lay) == Alloc(old(lay)) - Sources(moves) + Destinations(moves)
      ensures |Free(lay)| == |Free(old(lay))|
    {
      RelocateEffect(lay, moves);
      ReachedStep(origin, txs, lay, moves);
      lay := Relocate(lay, moves);
      txs := txs + [moves];
    }
  }

  // ---- Questions the planners ask about the FAT --------------------------

  /** `h` is the highest movable allocation, or 1 when there is none. */
  ghost predicate IsHighWater(l: Layout, h: nat) {
    && (h == 1 || h in Alloc(l))
    && (h == 1 ==> Alloc(l) == {})
    && forall a | a in Alloc(l) :: a <= h
  }

  /** holes_below_high_water == 0: free space lies above every movable allocation. */
  ghost predicate NoHoles(l: Layout) {
    forall c, a | c in Free(l) && a in Alloc(l) :: a < c
  }

  ghost predicate AllFree(l: Layout, start: nat, length: nat) {
    forall c | start <= c < start + length :: c in Free(l)
  }

  method HighWater(l: Layout) returns (h: nat)
    requires WellFormed(l)
    ensures IsHighWater(l, h) && h <= l.max + 1
  {
    AllocInRange(l);
    h := l.max;
    while h >= 2
      invariant 0 <= h <= l.max
      invariant forall a | a in Alloc(l) :: a <= h
    {
      if h in Alloc(l) { return; }
      h := h - 1;
    }
    assert Alloc(l) == {};
    h := 1;
  }

  datatype Hole = Hole(start: nat, length: nat, highest: nat) | NoHole

  /** Where an unstopped planner ends: no hole is left, or a budget is used up exactly. */
  ghost predicate RunEnd(l: Layout, moved: nat, maxClusters: nat, transactions: nat, maxTransactions: nat) {
    NoHoles(l) || (maxClusters != 0 && moved == maxClusters) ||
      (maxTransactions != 0 && transactions == maxTransactions)
  }

  /** What first_free_run_below_high_water reports. */
  ghost predicate IsFirstHole(l: Layout, h: Hole) {
    match h
    case NoHole => NoHoles(l)
    case Hole(start, length, highest) =>
      && IsHighWater(l, highest) && highest in Alloc(l) && highest <= l.max
      && 2 <= start && 1 <= length && start + length <= highest
      && AllFree(l, start, length) && start + length !in Free(l)
      && forall c | 2 <= c < start :: c !in Free(l)
  }

  lemma HoleUnique(l: Layout, h: Hole, h': Hole)
    requires h.Hole? && h'.Hole? && IsFirstHole(l, h) && IsFirstHole(l, h')
    ensures h == h'
  {
    hide Alloc, Free;
    assert h.start in Free(l) && h'.start in Free(l);
    assert h.start == h'.start && h.highest == h'.highest;
  }

  /** The cluster budget left; 0 means unlimited. */
  function Remaining(maxClusters: nat, moved: nat): nat {
    if maxClusters == 0 then SIZE_MAX else if moved <= maxClusters then maxClusters - moved else 0
  }

  function BatchOf(batch: nat): nat { if batch == 0 then 4096 else batch }

  method FirstFreeRunBelowHighWater(l: Layout) returns (h: Hole)
    requires WellFormed(l)
    ensures IsFirstHole(l, h)
  {
    AllocInRange(l);
    var highest := HighWater(l);
    if highest < 2 { return NoHole; }
    var c := 2;
    while c <= highest
      invariant 2 <= c <= highest + 1
      invariant forall d | 2 <= d < c :: d !in Free(l)
    {
      if c in Free(l) {
        var start, length := c, 0;
        while c <= highest && c in Free(l)
          invariant start <= c <= highest + 1 && length == c - start
          invariant AllFree(l, start, length)
        {
          length := length + 1;
          c := c + 1;
        }
        return Hole(start, length, highest);
      }
      c := c + 1;
    }
    h := NoHole;
  }

  /** terminal_free_clusters: length of the free run that ends the volume. */
  method TerminalFreeClusters(l: Layout) returns (n: nat)
    requires l.max >= 1
    ensures n <= l.max - 1
    ensures AllFree(l, l.max + 1 - n, n)
    ensures n < l.max - 1 ==> l.max - n !in Free(l)
  {
    n := 0;
    while n < l.max - 1 && l.max - n in Free(l)
      invariant n <= l.max - 1
      invariant AllFree(l, l.max + 1 - n, n)
    {
      n := n + 1;
    }
  }
}
