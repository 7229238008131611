/** Map cells: linear sweeps over states, ranges and bitmaps. */
module MapCells {

  // ---- Counting states ----------------------------------------------------------------------

  datatype Counts = Counts(free: nat, used: nat, unknown: nat, bad: nat)

  const NONE: Counts := Counts(0, 0, 0, 0)

  predicate IsState(s: int) { 0 <= s <= 3 }

  function Add(c: Counts, state: int, n: nat): Counts
    requires IsState(state)
  {
    if state == 0 then c.(free := c.free + n) else if state == 1 then c.(used := c.used + n)
    else if state == 2 then c.(unknown := c.unknown + n) else c.(bad := c.bad + n)
  }

  function Plus(a: Counts, b: Counts): Counts {
    Counts(a.free + b.free, a.used + b.used, a.unknown + b.unknown, a.bad + b.bad)
  }

  function Size(c: Counts): nat { c.free + c.used + c.unknown + c.bad }

  predicate States(s: seq<int>) { forall u | 0 <= u < |s| :: IsState(s[u]) }

  /** The per-unit count of [lo, hi). */
  function Tally(s: seq<int>, lo: nat, hi: nat): (c: Counts)
    requires States(s) && lo <= hi <= |s|
    ensures Size(c) == hi - lo
    decreases hi - lo
  {
    if lo == hi then NONE else Add(Tally(s, lo, hi - 1), s[hi - 1], 1)
  }

  lemma AddLaws(a: Counts, b: Counts, state: int, n: nat)
    requires IsState(state)
    ensures Plus(a, Add(b, state, n)) == Add(Plus(a, b), state, n)
    ensures Add(Add(a, state, n), state, 1) == Add(a, state, n + 1) && Add(a, state, 0) == a && Plus(a, NONE) == a
  {
  }

  lemma {:induction false} TallySplit(s: seq<int>, lo: nat, mid: nat, hi: nat)
    requires States(s) && lo <= mid <= hi <= |s|
    ensures Tally(s, lo, hi) == Plus(Tally(s, lo, mid), Tally(s, mid, hi))
    decreases hi - mid
  {
    hide Add, Plus, Size;
    if mid < hi {
      TallySplit(s, lo, mid, hi - 1);
      AddLaws(Tally(s, lo, mid), Tally(s, mid, hi - 1), s[hi - 1], 1);
    } else {
      AddLaws(Tally(s, lo, mid), NONE, 0, 0);
    }
  }

  /** A stretch in one state adds its length to that state. */
  lemma {:induction false} TallyStretch(s: seq<int>, lo: nat, mid: nat, hi: nat, state: int)
    requires States(s) && IsState(state) && lo <= mid <= hi <= |s| && forall u | mid <= u < hi :: s[u] == state
    ensures Tally(s, lo, hi) == Add(Tally(s, lo, mid), state, hi - mid)
    decreases hi - mid
  {
    hide Add, Plus, Size;
    if mid < hi {
      TallyStretch(s, lo, mid, hi - 1, state);
      AddLaws(Tally(s, lo, mid), NONE, state, hi - 1 - mid);
    } else {
      AddLaws(Tally(s, lo, mid), NONE, state, 0);
    }
  }

  // ---- Cell boundaries ------------------------------------------------------------------------

  function CellCount(total: nat, wanted: int): (n: nat)
    ensures 1 <= n && (total >= 1 ==> n <= total)
    ensures 1 <= wanted <= total ==> n == wanted
    ensures wanted < 1 || total == 0 ==> n == 1
    ensures wanted > total >= 1 ==> n == total
  {
    var most := if total > 1 then total else 1;
    if wanted < 1 then 1 else if wanted > most then most else wanted
  }

  function Boundary(total: nat, n: nat, i: nat): nat
    requires n >= 1
  {
    i * total / n
  }

  /** One past a cell's last unit; never an empty cell. */
  function CellEnd(total: nat, n: nat, i: nat): nat
    requires n >= 1
  {
    var start, end := Boundary(total, n, i), Boundary(total, n, i + 1);
    if end < start + 1 then start + 1 else end
  }

  lemma Scale(a: nat, b: nat, n: nat)
    requires a <= b
    ensures a * n <= b * n
  {
  }

  lemma Unscale(a: nat, b: nat, n: nat)
    requires a * n < b * n + n
    ensures a <= b
  {
    assert (b + 1) * n == b * n + n;
    if a > b { Scale(b + 1, a, n); }
  }

  lemma Divides(a: nat, n: nat, q: nat)
    requires n >= 1 && q * n <= a < q * n + n
    ensures a / n == q
  {
    var p := a / n;
    assert a == p * n + a % n;
    Unscale(p, q, n);
    Unscale(q, p, n);
  }

  lemma Monotone(a: nat, b: nat, n: nat)
    requires a <= b && n >= 1
    ensures a / n <= b / n
  {
    assert a == (a / n) * n + a % n && b == (b / n) * n + b % n;
    Unscale(a / n, b / n, n);
  }

  lemma Exact(total: nat, n: nat)
    requires n >= 1
    ensures n * total / n == total
  {
    assert n * total == total * n;
    Divides(n * total, n, total);
  }

  /** _cell_bounds: the cells partition the volume and none is empty. */
  lemma CellsPartition(total: nat, n: nat, i: nat)
    requires 1 <= n <= total && i < n
    ensures Boundary(total, n, 0) == 0 && Boundary(total, n, n) == total
    ensures Boundary(total, n, i) < Boundary(total, n, i + 1) <= total
  {
    Exact(total, n);
    assert 0 * total == 0 && 0 / n == 0;
    NextCell(i * total, total, n);
    assert (i + 1) * total == i * total + total;
    Scale(i + 1, n, total);
    Monotone((i + 1) * total, n * total, n);
  }

  lemma NextCell(a: nat, total: nat, n: nat)
    requires 1 <= n <= total
    ensures a / n < (a + total) / n
  {
    var q := a / n;
    assert a == q * n + a % n && (q + 1) * n == q * n + n;
    Divides(a + n, n, q + 1);
    Monotone(a + n, a + total, n);
  }

  // ---- Maps --------------------------------------------------------------------------------------

  datatype Cell = Cell(start: nat, last: nat, counts: Counts)

  /** Cell `i` of the map of `s` into `n` cells. */
  ghost predicate IsCell(s: seq<int>, n: nat, i: nat, cell: Cell)
    requires States(s) && 1 <= n <= |s| && i < n
  {
    var lo, hi := Boundary(|s|, n, i), Boundary(|s|, n, i + 1);
    lo < hi <= |s| && cell == Cell(lo, hi - 1, Tally(s, lo, hi))
  }

  ghost predicate CellsUpTo(s: seq<int>, n: nat, cells: seq<Cell>, totals: Counts)
    requires States(s) && 1 <= n <= |s|
  {
    && |cells| <= n && (forall i: nat | i < |cells| :: IsCell(s, n, i, cells[i]))
    && Boundary(|s|, n, |cells|) <= |s| && totals == Tally(s, 0, Boundary(|s|, n, |cells|))
  }

  /** A complete map: the cells partition the volume, each holds the per-unit counts of
      its units, and the totals are those of the whole volume. */
  ghost predicate IsMap(s: seq<int>, n: nat, cells: seq<Cell>, totals: Counts)
    requires States(s) && 1 <= n <= |s|
  {
    |cells| == n && (forall i: nat | i < n :: IsCell(s, n, i, cells[i])) && totals == Tally(s, 0, |s|)
  }

  /** The map is determined by the states, however it was computed. */
  lemma MapIsUnique(s: seq<int>, n: nat, a: seq<Cell>, at: Counts, b: seq<Cell>, bt: Counts)
    requires States(s) && 1 <= n <= |s| && IsMap(s, n, a, at) && IsMap(s, n, b, bt)
    ensures a == b && at == bt
  {
    forall i: nat | i < n ensures a[i] == b[i] { assert IsCell(s, n, i, a[i]) && IsCell(s, n, i, b[i]); }
  }

  /** Neighbouring cells meet, and per-cell counts add up to the cell's size. */
  lemma MapPartitions(s: seq<int>, n: nat, cells: seq<Cell>, totals: Counts, i: nat)
    requires States(s) && 1 <= n <= |s| && IsMap(s, n, cells, totals) && i < n
    ensures cells[0].start == 0 && cells[n - 1].last == |s| - 1
    ensures i + 1 < n ==> cells[i + 1].start == cells[i].last + 1
    ensures Size(cells[i].counts) == cells[i].last - cells[i].start + 1 && Size(totals) == |s|
  {
    assert IsCell(s, n, 0, cells[0]) && IsCell(s, n, n - 1, cells[n - 1]) && IsCell(s, n, i, cells[i]);
    CellsPartition(|s|, n, 0);
    if i + 1 < n { assert IsCell(s, n, i + 1, cells[i + 1]); }
  }

  lemma CellsStart(s: seq<int>, n: nat)
    requires States(s) && 1 <= n <= |s|
    ensures CellsUpTo(s, n, [], NONE)
  {
    CellsPartition(|s|, n, 0);
  }

  lemma CellsStep(s: seq<int>, n: nat, cells: seq<Cell>, totals: Counts, counts: Counts)
    requires States(s) && 1 <= n <= |s| && CellsUpTo(s, n, cells, totals) && |cells| < n
    requires var lo, hi := Boundary(|s|, n, |cells|), Boundary(|s|, n, |cells| + 1);
      lo <= hi <= |s| && counts == Tally(s, lo, hi)
    ensures var lo, hi := Boundary(|s|, n, |cells|), Boundary(|s|, n, |cells| + 1);
            lo < hi && CellsUpTo(s, n, cells + [Cell(lo, hi - 1, counts)], Plus(totals, counts))
  {
    hide Boundary, Tally, Plus;
    var i := |cells|;
    CellsPartition(|s|, n, i);
    var lo, hi := Boundary(|s|, n, i), Boundary(|s|, n, i + 1);
    TallySplit(s, 0, lo, hi);
    var more := cells + [Cell(lo, hi - 1, counts)];
    forall k: nat | k < |more| ensures IsCell(s, n, k, more[k]) {
      if k < i { assert IsCell(s, n, k, cells[k]); }
    }
  }

  lemma CellsDone(s: seq<int>, n: nat, cells: seq<Cell>, totals: Counts)
    requires States(s) && 1 <= n <= |s| && CellsUpTo(s, n, cells, totals) && |cells| == n
    ensures IsMap(s, n, cells, totals)
  {
    CellsPartition(|s|, n, 0);
  }

  // ---- Per-unit states ---------------------------------------------------------------------------

  /** Missing and foreign states read as unknown. */
  function Known(values: seq<int>, total: nat): (s: seq<int>)
    ensures |s| == total && States(s)
  {
    seq(total, u requires 0 <= u < total => if u < |values| && IsState(values[u]) then values[u] else 2)
  }

  /** aggregate_states: the reference count, one unit at a time. */
  method AggregateStates(values: seq<int>, total: nat, wanted: int) returns (cells: seq<Cell>, totals: Counts)
    requires total >= 1
    ensures IsMap(Known(values, total), CellCount(total, wanted), cells, totals)
  {
    hide Boundary, Tally, CellsUpTo, Plus, IsMap, Known, Add;
    var n := CellCount(total, wanted);
    ghost var s := Known(values, total);
    cells, totals := [], NONE;
    CellsStart(s, n);
    for i := 0 to n
      invariant |cells| == i && CellsUpTo(s, n, cells, totals)
    {
      CellsPartition(total, n, i);
      var start, end := Boundary(total, n, i), CellEnd(total, n, i);
      var counts := CountUnits(values, total, start, end);
      CellsStep(s, n, cells, totals, counts);
      cells, totals := cells + [Cell(start, end - 1, counts)], Plus(totals, counts);
    }
    CellsDone(s, n, cells, totals);
  }

  /** The units of one cell; the stream stands at its first unit. */
  method CountUnits(values: seq<int>, total: nat, start: nat, end: nat) returns (counts: Counts)
    requires start <= end <= total
    ensures counts == Tally(Known(values, total), start, end)
  {
    hide Tally, Add, Known, Size;
    ghost var s := Known(values, total);
    counts := NONE;
    var consumed := start;
    CountNone(s, start);
    while consumed < end
      invariant start <= consumed <= end && counts == Tally(s, start, consumed)
    {
      var state := if consumed < |values| then values[consumed] else 2;
      counts := Add(counts, if IsState(state) then state else 2, 1);
      KnownAt(values, total, consumed);
      CountOne(s, start, consumed);
      consumed := consumed + 1;
    }
  }

  lemma KnownAt(values: seq<int>, total: nat, u: nat)
    requires u < total
    ensures Known(values, total)[u] == if u < |values| && IsState(values[u]) then values[u] else 2
  {
  }

  lemma CountNone(s: seq<int>, lo: nat)
    requires States(s) && lo <= |s|
    ensures Tally(s, lo, lo) == NONE
  {
  }

  lemma CountOne(s: seq<int>, lo: nat, hi: nat)
    requires States(s) && lo <= hi < |s|
    ensures Tally(s, lo, hi + 1) == Add(Tally(s, lo, hi), s[hi], 1)
  {
  }

  // ---- What a map says --------------------------------------------------------------------------

  /** The units of [lo, hi) in state `x`. */
  function Units(s: seq<int>, lo: nat, hi: nat, x: int): set<nat> {
    set u: nat | lo <= u < hi && u < |s| && s[u] == x
  }

  lemma OneUnit(s: seq<int>, lo: nat, hi: nat, x: int)
    requires lo <= hi
    ensures |Units(s, lo, hi + 1, x)| == |Units(s, lo, hi, x)| + if hi < |s| && s[hi] == x then 1 else 0
  {
    var a, b := Units(s, lo, hi, x), Units(s, lo, hi + 1, x);
    assert hi !in a;
    assert b == if hi < |s| && s[hi] == x then a + {hi} else a;
  }

  /** State 0 is free, 1 used, 2 unknown and 3 bad. */
  function Of(c: Counts, x: nat): nat {
    match x
    case 0 => c.free
    case 1 => c.used
    case 2 => c.unknown
    case _ => c.bad
  }

  lemma {:induction false} TallyCounts(s: seq<int>, lo: nat, hi: nat, x: nat)
    requires States(s) && lo <= hi <= |s| && x <= 3
    ensures Of(Tally(s, lo, hi), x) == |Units(s, lo, hi, x)|
    decreases hi - lo
  {
    hide Units, Tally, Size, Of, Add;
    if lo < hi {
      var u: nat := hi - 1;
      TallyCounts(s, lo, u, x);
      CountOne(s, lo, u);
      OneUnit(s, lo, u, x);
      AddOf(Tally(s, lo, u), s[u], x);
    } else {
      NoUnits(s, lo, x);
    }
  }

  lemma AddOf(c: Counts, state: int, x: nat)
    requires IsState(state) && x <= 3
    ensures Of(Add(c, state, 1), x) == Of(c, x) + if state == x then 1 else 0
  {
  }

  lemma NoUnits(s: seq<int>, lo: nat, x: nat)
    requires States(s) && lo <= |s|
    ensures Of(Tally(s, lo, lo), x) == 0 == |Units(s, lo, lo, x)|
  {
    hide Tally, Size, States;
    CountNone(s, lo);
    forall u: nat ensures u !in Units(s, lo, lo, x) {}
    assert Units(s, lo, lo, x) == {};
  }

  /** Each cell of a map, and its totals, unit by unit. */
  lemma MapCounts(s: seq<int>, n: nat, cells: seq<Cell>, totals: Counts, i: nat, x: nat)
    requires States(s) && 1 <= n <= |s| && IsMap(s, n, cells, totals) && i < n && x <= 3
    ensures var start, end := i * |s| / n, (i + 1) * |s| / n;
            && start < end <= |s| && cells[i].start == start && cells[i].last == end - 1
            && Of(cells[i].counts, x) == |Units(s, start, end, x)|
    ensures Of(totals, x) == |Units(s, 0, |s|, x)|
  {
    assert IsCell(s, n, i, cells[i]);
    hide Tally, Units, Of;
    TallyCounts(s, Boundary(|s|, n, i), Boundary(|s|, n, i + 1), x);
    TallyCounts(s, 0, |s|, x);
  }

  /** Of the values handed over, those that name a state are that state and all others are unknown. */
  lemma KnownUnits(values: seq<int>, total: nat, x: nat)
    requires x <= 3
    ensures x != 2 ==> Units(Known(values, total), 0, total, x) == Units(values, 0, total, x)
    ensures Units(Known(values, total), 0, total, 2) ==
            set u: nat | u < total && (u >= |values| || (values[u] != 0 && values[u] != 1 && values[u] != 3)) :: u
  {
  }
}
