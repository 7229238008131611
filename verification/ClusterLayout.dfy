/**
 The planners of the FAT engine see a scanned volume as a layout: the objects
 (root directory, directories, files), the clusters each object's chain occupies
 in order, and the clusters marked bad.  A relocation transaction is a list of
 cluster moves; its effect on a layout is to rename chain clusters.
 */
module ClusterLayout {
  import opened Basics

  /** One scanned object.  `path` and `isDir` identify it across rescans. */
  datatype Obj = Obj(isRoot: bool, isDir: bool, path: string, chain: seq<nat>)

  /** Clusters are numbered 2..max. */
  datatype Layout = Layout(max: nat, bad: set<nat>, objs: seq<Obj>)

  datatype Move = Move(source: nat, destination: nat)

  function Min(a: nat, b: nat): nat {
    if a <= b then a else b
  }

  predicate Between(lo: nat, c: nat, hi: nat) {
    lo <= c < hi
  }

  function Range(lo: nat, hi: nat): set<nat> {
    set c: nat | lo <= c < hi && Between(lo, c, hi)
  }

  // ---- Counting ---------------------------------------------------------------

  function Elements(s: seq<nat>): set<nat> {
    set k | 0 <= k < |s| :: s[k]
  }

  lemma ElementsAppend(s: seq<nat>, x: nat)
    ensures Elements(s + [x]) == Elements(s) + {x}
  {
    var t := s + [x];
    assert t[|s|] == x;
    forall y | y in Elements(s) ensures y in Elements(t) {
      var k :| 0 <= k < |s| && s[k] == y;
      assert t[k] == y;
    }
  }

  lemma {:induction false} DistinctCount(s: seq<nat>)
    requires Distinct(s)
    ensures |Elements(s)| == |s|
  {
    if s != [] {
      var rest := s[..|s| - 1];
      DistinctCount(rest);
      ElementsAppend(rest, s[|s| - 1]);
      assert s == rest + [s[|s| - 1]];
    }
  }

  lemma RangeStep(lo: nat, hi: nat)
    requires lo <= hi
    ensures Range(lo, lo) == {} && Range(lo, hi + 1) == Range(lo, hi) + {hi} && hi !in Range(lo, hi)
  {
    forall c: nat ensures (c in Range(lo, hi + 1) <==> c in Range(lo, hi) || c == hi) && c !in Range(lo, lo) {
      assert Between(lo, c, hi) <==> lo <= c < hi;
      assert Between(lo, c, hi + 1) <==> lo <= c < hi + 1;
    }
  }

  lemma {:induction false} RangeCount(lo: nat, n: nat)
    ensures |Range(lo, lo + n)| == n
  {
    hide Range;
    RangeStep(lo, lo);
    if n > 0 {
      RangeCount(lo, n - 1);
      RangeStep(lo, lo + n - 1);
    }
  }

  lemma {:induction false} SubsetCount(a: set<nat>, b: set<nat>)
    requires a <= b
    ensures |a| <= |b|
  {
    if a != {} {
      var x :| x in a;
      SubsetCount(a - {x}, b - {x});
    }
  }

  // ---- Allocation --------------------------------------------------------------

  /** The clusters owned by some chain: the movable allocations of the engine. */
  function Alloc(l: Layout): set<nat> {
    set i, k | 0 <= i < |l.objs| && 0 <= k < |l.objs[i].chain| :: l.objs[i].chain[k]
  }

  function Free(l: Layout): set<nat> {
    Range(2, l.max + 1) - l.bad - Alloc(l)
  }

  ghost predicate Owns(l: Layout, i: int, k: int) {
    0 <= i < |l.objs| && 0 <= k < |l.objs[i].chain|
  }

  /** What a successful scan guarantees: chains stay inside the data region,
      avoid bad clusters, do not loop and are not cross-linked. */
  ghost predicate WellFormed(l: Layout) {
    && (forall i, k | Owns(l, i, k) :: 2 <= l.objs[i].chain[k] <= l.max && l.objs[i].chain[k] !in l.bad)
    && (forall i, k, j, n | Owns(l, i, k) && Owns(l, j, n) && l.objs[i].chain[k] == l.objs[j].chain[n] ::
         i == j && k == n)
  }

  // ---- Relocation maps --------------------------------------------------

  predicate DistinctMoves(moves: seq<Move>) {
    forall i, j | 0 <= i < j < |moves| ::
      moves[i].source != moves[j].source && moves[i].destination != moves[j].destination
  }

  function Sources(moves: seq<Move>): set<nat> {
    set i | 0 <= i < |moves| :: moves[i].source
  }

  function Destinations(moves: seq<Move>): set<nat> {
    set i | 0 <= i < |moves| :: moves[i].destination
  }

  /** The partial map from old to new cluster numbers that the move list denotes. */
  function RelocationMap(moves: seq<Move>): (m: map<nat, nat>)
    ensures m.Keys == Sources(moves)
    ensures DistinctMoves(moves) ==> forall i | 0 <= i < |moves| :: m[moves[i].source] == moves[i].destination
  {
    if moves == [] then map[]
    else
      var last := moves[|moves| - 1];
      var rest := moves[..|moves| - 1];
      assert Sources(moves) == Sources(rest) + {last.source};
      RelocationMap(rest)[last.source := last.destination]
  }

  function Image(m: map<nat, nat>, c: nat): nat {
    if c in m then m[c] else c
  }

  function RenameChain(m: map<nat, nat>, chain: seq<nat>): (r: seq<nat>) {
    seq(|chain|, k requires 0 <= k < |chain| => Image(m, chain[k]))
  }

  function RenameObj(m: map<nat, nat>, o: Obj): Obj {
    o.(chain := RenameChain(m, o.chain))
  }

  function Rename(l: Layout, m: map<nat, nat>): Layout {
    l.(objs := seq(|l.objs|, i requires 0 <= i < |l.objs| => RenameObj(m, l.objs[i])))
  }

  /** Effect of one committed transaction on the layout. */
  function Relocate(l: Layout, moves: seq<Move>): Layout {
    Rename(l, RelocationMap(moves))
  }

  /** Precondition of a transaction: move allocated clusters onto free ones, one to one. */
  ghost predicate Legal(l: Layout, moves: seq<Move>) {
    && DistinctMoves(moves)
    && (forall i | 0 <= i < |moves| :: moves[i].source in Alloc(l) && moves[i].destination in Free(l))
  }

  lemma AllocAt(l: Layout, i: int, k: int)
    requires Owns(l, i, k)
    ensures l.objs[i].chain[k] in Alloc(l)
  {
  }

  lemma MoveAt(moves: seq<Move>, s: nat) returns (i: nat)
    requires s in Sources(moves)
    ensures i < |moves| && moves[i].source == s
  {
    i :| 0 <= i < |moves| && moves[i].source == s;
  }

  lemma ImageAt(moves: seq<Move>, i: nat)
    requires DistinctMoves(moves) && i < |moves|
    ensures Image(RelocationMap(moves), moves[i].source) == moves[i].destination
  {
    assert moves[i].source in Sources(moves);
  }

  lemma RelocateAlloc(l: Layout, moves: seq<Move>)
    requires WellFormed(l) && Legal(l, moves)
    ensures Alloc(Relocate(l, moves)) == Alloc(l) - Sources(moves) + Destinations(moves)
  {
    var m := RelocationMap(moves);
    var l' := Relocate(l, moves);
    forall c | c in Alloc(l') ensures c in Alloc(l) - Sources(moves) + Destinations(moves) {
      var i, k :| Owns(l', i, k) && l'.objs[i].chain[k] == c;
      assert Owns(l', i, k);
      assert 0 <= i < |l'.objs|;
      assert l'.objs[i] == RenameObj(m, l.objs[i]);
      AllocAt(l, i, k);
      var d := l.objs[i].chain[k];
      if d in m {
        var n := MoveAt(moves, d);
      }
    }
    forall c | c in Alloc(l) - Sources(moves) + Destinations(moves) ensures c in Alloc(l') {
      var d := c;
      if c in Destinations(moves) {
        var n :| 0 <= n < |moves| && moves[n].destination == c;
        d := moves[n].source;
      }
      assert d in Alloc(l) && Image(m, d) == c;
      var i, k :| Owns(l, i, k) && l.objs[i].chain[k] == d;
      AllocAt(l', i, k);
    }
  }

  /** A legal transaction keeps the layout well formed and exchanges sources for destinations. */
  lemma RelocateEffect(l: Layout, moves: seq<Move>)
    requires WellFormed(l) && Legal(l, moves)
    ensures WellFormed(Relocate(l, moves))
    ensures Alloc(Relocate(l, moves)) == Alloc(l) - Sources(moves) + Destinations(moves)
    ensures Free(Relocate(l, moves)) == Free(l) - Destinations(moves) + Sources(moves)
    ensures |Free(Relocate(l, moves))| == |Free(l)|
  {
    RelocateInjective(l, moves);
    RelocateAlloc(l, moves);
    AllocInRange(l);
    SameCount(moves);
    FreeExchange(l, Relocate(l, moves), Sources(moves), Destinations(moves));
  }

  lemma FreeExchange(l: Layout, l': Layout, src: set<nat>, dst: set<nat>)
    requires l'.max == l.max && l'.bad == l.bad && Alloc(l) <= Range(2, l.max + 1) - l.bad
    requires src <= Alloc(l) && dst <= Free(l) && |src| == |dst|
    requires Alloc(l') == Alloc(l) - src + dst
    ensures Free(l') == Free(l) - dst + src
    ensures |Free(l')| == |Free(l)|
  {
    hide Alloc, Range;
    assert Free(l') == Free(l) - dst + src;
    assert |Free(l) - dst| == |Free(l)| - |dst|;
  }

  lemma AllocInRange(l: Layout)
    requires WellFormed(l)
    ensures Alloc(l) <= Range(2, l.max + 1) - l.bad
  {
    forall c | c in Alloc(l) ensures c in Range(2, l.max + 1) - l.bad {
      var i, k :| Owns(l, i, k) && l.objs[i].chain[k] == c;
    }
  }

  /** Renaming is injective on owned clusters because destinations were free. */
  lemma RelocateInjective(l: Layout, moves: seq<Move>)
    requires WellFormed(l) && Legal(l, moves)
    ensures WellFormed(Relocate(l, moves))
  {
    var m := RelocationMap(moves);
    var l' := Relocate(l, moves);
    forall i, k | Owns(l', i, k)
      ensures 2 <= l'.objs[i].chain[k] <= l.max && l'.objs[i].chain[k] !in l.bad
    {
      assert Owns(l, i, k);
      ImageIsFree(l, moves, l.objs[i].chain[k]);
    }
    forall i, k, j, n | Owns(l', i, k) && Owns(l', j, n) && l'.objs[i].chain[k] == l'.objs[j].chain[n]
      ensures i == j && k == n
    {
      assert Owns(l, i, k) && Owns(l, j, n);
      AllocAt(l, i, k);
      AllocAt(l, j, n);
      ImageInjective(l, moves, l.objs[i].chain[k], l.objs[j].chain[n]);
    }
  }

  lemma ImageIsFree(l: Layout, moves: seq<Move>, c: nat)
    requires Legal(l, moves)
    ensures c in RelocationMap(moves) ==> Image(RelocationMap(moves), c) in Free(l)
  {
  }

  lemma ImageInjective(l: Layout, moves: seq<Move>, a: nat, b: nat)
    requires Legal(l, moves) && a in Alloc(l) && b in Alloc(l)
    requires Image(RelocationMap(moves), a) == Image(RelocationMap(moves), b)
    ensures a == b
  {
    var m := RelocationMap(moves);
    ImageIsFree(l, moves, a);
    ImageIsFree(l, moves, b);
    if a in m && b in m {
      var i :| 0 <= i < |moves| && moves[i].source == a;
      var j :| 0 <= j < |moves| && moves[j].source == b;
    }
  }

  lemma {:induction false} SameCount(moves: seq<Move>)
    requires DistinctMoves(moves)
    ensures |Sources(moves)| == |moves| && |Destinations(moves)| == |moves|
  {
    if moves != [] {
      var last := moves[|moves| - 1];
      var rest := moves[..|moves| - 1];
      SameCount(rest);
      assert Sources(moves) == Sources(rest) + {last.source};
      assert Destinations(moves) == Destinations(rest) + {last.destination};
    }
  }

  // ---- Runs ----------------------------------------------------------------

  ghost predicate LegalRun(l: Layout, txs: seq<seq<Move>>)
    decreases |txs|
  {
    txs == [] || (LegalRun(l, txs[..|txs| - 1]) && Legal(AfterRun(l, txs[..|txs| - 1]), txs[|txs| - 1]))
  }

  /** The layout after a list of committed transactions. */
  function AfterRun(l: Layout, txs: seq<seq<Move>>): Layout
    decreases |txs|
  {
    if txs == [] then l else Relocate(AfterRun(l, txs[..|txs| - 1]), txs[|txs| - 1])
  }

  /** Clusters moved by the transactions from the n-th on. */
  ghost function MoveCount(txs: seq<seq<Move>>, n: nat): nat
    decreases |txs|
  {
    if |txs| <= n then 0 else MoveCount(txs[..|txs| - 1], n) + |txs[|txs| - 1]|
  }

  lemma {:induction false} MoveCountTail(txs: seq<seq<Move>>, run: seq<seq<Move>>)
    ensures MoveCount(txs + run, |txs|) == MoveCount(run, 0)
  {
    if run == [] {
      assert txs + run == txs;
    } else {
      MoveCountTail(txs, run[..|run| - 1]);
      assert (txs + run)[..|txs + run| - 1] == txs + run[..|run| - 1];
    }
  }

  /** `l` is what a lawful run of transactions makes of `origin`. */
  ghost predicate Reached(origin: Layout, txs: seq<seq<Move>>, l: Layout) {
    WellFormed(origin) && LegalRun(origin, txs) && l == AfterRun(origin, txs)
  }

  lemma ReachedStep(origin: Layout, txs: seq<seq<Move>>, l: Layout, moves: seq<Move>)
    requires Reached(origin, txs, l) && Legal(l, moves)
    ensures Reached(origin, txs + [moves], Relocate(l, moves))
  {
    var t := txs + [moves];
    assert t[..|t| - 1] == txs;
  }

  lemma ShapeSteps(origin: Layout, l: Layout, moves: seq<Move>)
    requires SameShape(origin, l)
    ensures SameShape(origin, Relocate(l, moves))
  {
  }

  lemma {:induction false} RunKeeps(origin: Layout, txs: seq<seq<Move>>, l: Layout)
    requires Reached(origin, txs, l)
    ensures WellFormed(l) && SameShape(origin, l)
    ensures |Free(l)| == |Free(origin)|
    decreases |txs|
  {
    if txs != [] {
      var before := AfterRun(origin, txs[..|txs| - 1]);
      RunKeeps(origin, txs[..|txs| - 1], before);
      ShapeSteps(origin, before, txs[|txs| - 1]);
      RelocateEffect(before, txs[|txs| - 1]);
    }
  }

  /** Objects keep their identity and size; only chain clusters change. */
  ghost predicate SameShape(l: Layout, l': Layout) {
    && l'.max == l.max && l'.bad == l.bad && |l'.objs| == |l.objs|
    && forall i | 0 <= i < |l.objs| ::
         && |l'.objs[i].chain| == |l.objs[i].chain|
         && l'.objs[i].(chain := l.objs[i].chain) == l.objs[i]
  }
}
