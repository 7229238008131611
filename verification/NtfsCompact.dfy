/** Whole-stream compaction of an NTFS volume in one left-to-right pass. */
module NtfsCompact {
  import opened NtfsRunlist
  import opened NtfsBitmap
  import opened ClusterLayout

  /** A non-resident stream: its runs, whether its record can be rewritten, and the
      bytes the record offers for mapping pairs. */
  datatype Stream = Stream(runs: seq<Run>, movable: bool, capacity: nat)

  // ---- Extents ----------------------------------------------------------------------------

  predicate Covers(run: Run, c: nat) {
    run.Run? && run.lcn <= c < run.lcn + run.length
  }

  ghost predicate Holds(s: Stream, r: nat, c: nat) {
    r < |s.runs| && Covers(s.runs[r], c)
  }

  function Clusters(runs: seq<Run>): nat {
    if runs == [] then 0
    else Clusters(runs[..|runs| - 1]) + if runs[|runs| - 1].Run? then runs[|runs| - 1].length else 0
  }

  function Owned(runs: seq<Run>): set<nat> {
    if runs == [] then {}
    else
      var last := runs[|runs| - 1];
      Owned(runs[..|runs| - 1]) + if last.Run? then Range(last.lcn, last.lcn + last.length) else {}
  }

  lemma {:induction false} OwnedAt(runs: seq<Run>, c: nat)
    ensures c in Owned(runs) <==> exists r :: 0 <= r < |runs| && Covers(runs[r], c)
  {
    if runs != [] {
      var rest, last := runs[..|runs| - 1], runs[|runs| - 1];
      OwnedAt(rest, c);
      assert Covers(last, c) <==> last.Run? && Between(last.lcn, c, last.lcn + last.length);
      if r :| 0 <= r < |rest| && Covers(rest[r], c) { assert Covers(runs[r], c); }
      if r :| 0 <= r < |runs| && Covers(runs[r], c) { assert r < |rest| ==> rest[r] == runs[r]; }
    }
  }

  /** One past the last cluster of any run. */
  function HighestLcn(runs: seq<Run>): nat {
    if runs == [] then 0
    else
      var rest, last := HighestLcn(runs[..|runs| - 1]), runs[|runs| - 1];
      if last.Run? && last.lcn + last.length > rest then last.lcn + last.length else rest
  }

  /** Movable streams are plain extents. */
  ghost predicate Plain(s: Stream) {
    s.runs != [] && forall r | 0 <= r < |s.runs| :: s.runs[r].Run? && s.runs[r].length >= 1
  }

  ghost predicate Disjoint(s: Stream, t: Stream, r: nat, q: nat) {
    forall c: nat :: !(Holds(s, r, c) && Holds(t, q, c))
  }

  /** What a clean volume guarantees: streams lie in allocated space, and movable
      streams share no cluster with anything. */
  ghost predicate Consistent(bitmap: seq<bv8>, total: nat, streams: seq<Stream>) {
    && total <= 8 * |bitmap| && total < MAX_LENGTH
    && (forall i, r: nat, c: nat | 0 <= i < |streams| && Holds(streams[i], r, c) :: c < total && Used(bitmap, c))
    && (forall i | 0 <= i < |streams| && streams[i].movable :: Plain(streams[i]))
    && (forall i, j, r: nat, q: nat | 0 <= i < |streams| && 0 <= j < |streams| && streams[i].movable &&
        (i != j || r != q) ::
          Disjoint(streams[i], streams[j], r, q))
  }

  // ---- Planning ----------------------------------------------------------------------------

  predicate LiesAbove(runs: seq<Run>, e: nat) {
    forall r | 0 <= r < |runs| && runs[r].Run? && runs[r].length > 0 :: e <= runs[r].lcn
  }

  /** _plan_compact_extent_info: the whole stream fits the gap and lies above it. */
  predicate Fits(s: Stream, g: nat, e: nat) {
    && s.movable && 0 < Clusters(s.runs) && g + Clusters(s.runs) <= e && LiesAbove(s.runs, e)
    && var mapping := Encode([Run(g, Clusters(s.runs))]);
       mapping.Ok? && |mapping.value| <= s.capacity
  }

  /** Some run of `s` ends above every run of `t`. */
  ghost predicate EndsAbove(s: seq<Run>, t: seq<Run>) {
    exists r | 0 <= r < |s| :: s[r].Run? && forall q | 0 <= q < |t| && t[q].Run? ::
      s[r].lcn + s[r].length > t[q].lcn + t[q].length
  }

  /** Of all streams that fit the gap none has more clusters, and none with as many ends higher. */
  ghost predicate Chosen(streams: seq<Stream>, i: nat, g: nat, e: nat) {
    && i < |streams| && Fits(streams[i], g, e)
    && forall j | 0 <= j < |streams| && Fits(streams[j], g, e) ::
         && Clusters(streams[j].runs) <= Clusters(streams[i].runs)
         && (Clusters(streams[j].runs) == Clusters(streams[i].runs) ==> !EndsAbove(streams[j].runs, streams[i].runs))
  }

  lemma {:induction false} HighestReached(runs: seq<Run>)
    ensures forall r | 0 <= r < |runs| && runs[r].Run? :: runs[r].lcn + runs[r].length <= HighestLcn(runs)
    ensures HighestLcn(runs) == 0 ||
            exists r | 0 <= r < |runs| :: runs[r].Run? && runs[r].lcn + runs[r].length == HighestLcn(runs)
  {
    if runs != [] {
      var n: nat := |runs| - 1;
      HighestReached(runs[..n]);
      if HighestLcn(runs) == HighestLcn(runs[..n]) && HighestLcn(runs) != 0 {
        var r :| 0 <= r < n && runs[..n][r].Run? && runs[..n][r].lcn + runs[..n][r].length == HighestLcn(runs);
        assert runs[r].Run?;
      } else if HighestLcn(runs) != 0 {
        assert runs[n].Run?;
      }
    }
  }

  lemma HigherEndsAbove(s: seq<Run>, t: seq<Run>)
    ensures HighestLcn(s) > HighestLcn(t) ==> EndsAbove(s, t)
    ensures EndsAbove(s, t) && (exists q | 0 <= q < |t| :: t[q].Run?) ==> HighestLcn(s) > HighestLcn(t)
  {
    hide HighestLcn;
    HighestReached(s);
    HighestReached(t);
  }

  datatype Choice = Nothing | Index(index: nat)

  /** A stream to be moved as one run to the start of a gap. */
  datatype Planned = Planned(index: nat, start: nat, end: nat)

  /** Largest stream first, then the highest. */
  predicate Better(s: Stream, t: Stream) {
    Clusters(s.runs) > Clusters(t.runs) ||
    (Clusters(s.runs) == Clusters(t.runs) && HighestLcn(s.runs) > HighestLcn(t.runs))
  }

  /** _select_compact_source. */
  method SelectSource(streams: seq<Stream>, g: nat, e: nat) returns (choice: Choice)
    ensures choice.Nothing? ==> forall i | 0 <= i < |streams| :: !Fits(streams[i], g, e)
    ensures choice.Index? ==> choice.index < |streams| && Fits(streams[choice.index], g, e)
    ensures choice.Index? ==>
      forall i | 0 <= i < |streams| && Fits(streams[i], g, e) :: !Better(streams[i], streams[choice.index])
    ensures choice.Index? ==> Chosen(streams, choice.index, g, e)
  {
    hide Fits, Clusters, HighestLcn, Chosen;
    choice := Nothing;
    for n := 0 to |streams|
      invariant choice.Nothing? ==> forall i | 0 <= i < n :: !Fits(streams[i], g, e)
      invariant choice.Index? ==> choice.index < n && Fits(streams[choice.index], g, e)
      invariant choice.Index? ==>
        forall i | 0 <= i < n && Fits(streams[i], g, e) :: !Better(streams[i], streams[choice.index])
    {
      if Fits(streams[n], g, e) && (choice.Nothing? || Better(streams[n], streams[choice.index])) {
        choice := Index(n);
      }
    }
    if choice.Index? { BestIsChosen(streams, choice.index, g, e); }
  }

  lemma BestIsChosen(streams: seq<Stream>, i: nat, g: nat, e: nat)
    requires i < |streams| && Fits(streams[i], g, e)
    requires forall j | 0 <= j < |streams| && Fits(streams[j], g, e) :: !Better(streams[j], streams[i])
    ensures Chosen(streams, i, g, e)
  {
    assert exists q | 0 <= q < |streams[i].runs| :: streams[i].runs[q].Run? by { HasRun(streams[i].runs); }
    hide Fits, Clusters, HighestLcn, EndsAbove;
    forall j | 0 <= j < |streams| && Fits(streams[j], g, e)
      ensures Clusters(streams[j].runs) <= Clusters(streams[i].runs)
      ensures Clusters(streams[j].runs) == Clusters(streams[i].runs) ==> !EndsAbove(streams[j].runs, streams[i].runs)
    {
      HigherEndsAbove(streams[j].runs, streams[i].runs);
    }
  }

  lemma {:induction false} HasRun(runs: seq<Run>)
    requires Clusters(runs) > 0
    ensures exists q | 0 <= q < |runs| :: runs[q].Run?
  {
    var n: nat := |runs| - 1;
    if !runs[n].Run? {
      HasRun(runs[..n]);
      var q :| 0 <= q < n && runs[..n][q].Run?;
      assert runs[q].Run?;
    }
  }

  // ---- Blocked gaps ----------------------------------------------------------------------------

  ghost predicate FreeRun(bitmap: seq<bv8>, a: nat, b: nat, limit: nat) {
    1 <= a < b <= limit && b <= 8 * |bitmap| && All(bitmap, a, b, false)
  }

  /** No free extent below `limit`, from cluster 1 on, can take a whole higher stream. */
  ghost predicate Blocked(bitmap: seq<bv8>, streams: seq<Stream>, limit: nat) {
    forall a: nat, b: nat, i: nat | FreeRun(bitmap, a, b, limit) && i < |streams| :: !Fits(streams[i], a, b)
  }

  /** A part of a gap can take no more than the gap. */
  lemma PartFits(bitmap: seq<bv8>, total: nat, streams: seq<Stream>, i: nat, g: nat, e: nat, a: nat, b: nat)
    requires Consistent(bitmap, total, streams) && i < |streams| && g <= a < b <= e <= 8 * |bitmap|
    requires All(bitmap, g, e, false)
    requires Fits(streams[i], a, b)
    ensures Fits(streams[i], g, e)
  {
    hide Used, Disjoint, Encode, Clusters;
    var s := streams[i];
    LowerIsShorter(g, a, Clusters(s.runs));
    forall r | 0 <= r < |s.runs| ensures e <= s.runs[r].lcn {
      assert Plain(s) && b <= s.runs[r].lcn;
      assert Holds(s, r, s.runs[r].lcn);
    }
  }

  // ---- One move ---------------------------------------------------------------------------------

  /** The destination is marked used, then the old extents are released. */
  ghost predicate Exchanged(before: seq<bv8>, after: seq<bv8>, runs: seq<Run>, g: nat, n: nat) {
    && |after| == |before|
    && forall c: nat | c < 8 * |before| ::
         Used(after, c) == (g <= c < g + n || (c !in Owned(runs) && Used(before, c)))
  }

  function Settle(s: Stream, g: nat): Stream {
    s.(runs := [Run(g, Clusters(s.runs))])
  }

  /** The streams after a list of planned moves. */
  ghost function AfterMoves(streams: seq<Stream>, log: seq<Planned>): (r: seq<Stream>)
    ensures |r| == |streams|
  {
    if log == [] then streams
    else
      var before, m := AfterMoves(streams, log[..|log| - 1]), log[|log| - 1];
      if m.index < |streams| then before[m.index := Settle(before[m.index], m.start)] else before
  }

  /** A list of moves the planner may issue one after the other. */
  ghost predicate PassMoves(streams: seq<Stream>, log: seq<Planned>, total: nat) {
    forall k | 0 <= k < |log| ::
      && log[k].index < |streams| && 1 <= log[k].start && log[k].end <= total
      && Fits(AfterMoves(streams, log[..k])[log[k].index], log[k].start, log[k].end)
  }

  /** One step of a pass, told from the map alone: the lowest complete gap, from cluster 1 on, that takes any whole
      stream above it; the largest such stream, the highest of equals; and nothing but its clusters exchanged. */
  ghost predicate Step(before: seq<bv8>, after: seq<bv8>, total: nat, streams: seq<Stream>, m: Planned) {
    && 1 <= m.start < m.end < total <= 8 * |before|
    && All(before, m.start, m.end, false) && Used(before, m.end) && (m.start > 1 ==> Used(before, m.start - 1))
    && Blocked(before, streams, m.start) && Chosen(streams, m.index, m.start, m.end)
    && Exchanged(before, after, streams[m.index].runs, m.start, Clusters(streams[m.index].runs))
  }

  /** The maps a pass goes through, one step after the other. */
  ghost predicate Pass(maps: seq<seq<bv8>>, total: nat, streams: seq<Stream>, log: seq<Planned>) {
    && |maps| == |log| + 1
    && forall k | 0 <= k < |log| :: Step(maps[k], maps[k + 1], total, AfterMoves(streams, log[..k]), log[k])
  }

  lemma NoMoves(bitmap: seq<bv8>, streams: seq<Stream>, total: nat)
    ensures AfterMoves(streams, []) == streams && Pass([bitmap], total, streams, [])
  {
  }

  lemma {:induction false} PassIsMoves(maps: seq<seq<bv8>>, total: nat, streams: seq<Stream>, log: seq<Planned>)
    requires Pass(maps, total, streams, log)
    ensures PassMoves(streams, log, total)
  {
    hide Fits, AfterMoves, Blocked, All, Exchanged;
    forall k | 0 <= k < |log|
      ensures log[k].index < |streams| && 1 <= log[k].start && log[k].end <= total
      ensures Fits(AfterMoves(streams, log[..k])[log[k].index], log[k].start, log[k].end)
    {
      assert Step(maps[k], maps[k + 1], total, AfterMoves(streams, log[..k]), log[k]);
    }
  }

  lemma {:induction false} PassStep(maps: seq<seq<bv8>>, total: nat, streams: seq<Stream>, log: seq<Planned>,
                                    after: seq<bv8>, m: Planned)
    requires Pass(maps, total, streams, log) && Step(maps[|log|], after, total, AfterMoves(streams, log), m)
    ensures Pass(maps + [after], total, streams, log + [m]) && m.index < |streams|
    ensures var before := AfterMoves(streams, log);
            AfterMoves(streams, log + [m]) == before[m.index := Settle(before[m.index], m.start)]
  {
    hide Fits, Settle, Blocked, Exchanged, All;
    var more, maps' := log + [m], maps + [after];
    assert more[..|log|] == log;
    assert m.index < |streams|;
    hide AfterMoves, Step;
    forall k | 0 <= k < |more|
      ensures Step(maps'[k], maps'[k + 1], total, AfterMoves(streams, more[..k]), more[k])
    {
      if k < |log| {
        assert more[..k] == log[..k];
        assert Step(maps[k], maps[k + 1], total, AfterMoves(streams, log[..k]), log[k]);
      }
    }
  }

  lemma SettledRuns(g: nat, n: nat)
    ensures Clusters([Run(g, n)]) == n && HighestLcn([Run(g, n)]) == g + n
    ensures forall c: nat :: c in Owned([Run(g, n)]) <==> g <= c < g + n
  {
    var runs := [Run(g, n)];
    assert runs[..|runs| - 1] == [];
    assert Clusters([]) == 0;
    forall c: nat ensures c in Owned(runs) <==> g <= c < g + n {
      assert Between(g, c, g + n) <==> g <= c < g + n;
      assert Owned([]) == {};
    }
  }

  lemma SettledHolds(s: Stream, g: nat, r: nat, c: nat)
    ensures Holds(Settle(s, g), r, c) <==> r == 0 && g <= c < g + Clusters(s.runs)
  {
  }

  /** Streams stay inside allocated space and apart from each other. */
  lemma MoveConsistent(before: seq<bv8>, after: seq<bv8>, total: nat, streams: seq<Stream>, i: nat, g: nat, e: nat)
    requires Consistent(before, total, streams) && i < |streams| && Fits(streams[i], g, e)
    requires e <= total && All(before, g, e, false)
    requires Exchanged(before, after, streams[i].runs, g, Clusters(streams[i].runs))
    ensures Consistent(after, total, streams[i := Settle(streams[i], g)])
  {
    hide Used, Encode, Clusters, Disjoint, MAX_LENGTH;
    var s, streams' := streams[i], streams[i := Settle(streams[i], g)];
    forall k, r: nat, c: nat | 0 <= k < |streams'| && Holds(streams'[k], r, c) ensures c < total && Used(after, c) {
      if k == i {
        SettledHolds(s, g, r, c);
      } else {
        OtherKeeps(before, total, streams, i, k, r, c);
      }
    }
    MoveDisjoint(before, total, streams, i, g, e);
  }

  lemma OtherKeeps(bitmap: seq<bv8>, total: nat, streams: seq<Stream>, i: nat, k: nat, r: nat, c: nat)
    requires Consistent(bitmap, total, streams) && i < |streams| && streams[i].movable && k < |streams| && k != i
    requires Holds(streams[k], r, c)
    ensures c !in Owned(streams[i].runs) && c < total && Used(bitmap, c)
  {
    hide Used;
    OwnedAt(streams[i].runs, c);
    forall q: nat | q < |streams[i].runs| ensures !Covers(streams[i].runs[q], c) {
      assert Disjoint(streams[i], streams[k], q, r);
      assert Holds(streams[i], q, c) <==> Covers(streams[i].runs[q], c);
    }
  }

  lemma MoveDisjoint(bitmap: seq<bv8>, total: nat, streams: seq<Stream>, i: nat, g: nat, e: nat)
    requires Consistent(bitmap, total, streams) && i < |streams| && g + Clusters(streams[i].runs) <= e <= total
    requires All(bitmap, g, e, false)
    ensures var streams' := streams[i := Settle(streams[i], g)];
            forall j, k, r: nat, q: nat | 0 <= j < |streams'| && 0 <= k < |streams'| && streams'[j].movable &&
              (j != k || r != q) ::
              Disjoint(streams'[j], streams'[k], r, q)
  {
    hide Used, Clusters;
    var s, streams' := streams[i], streams[i := Settle(streams[i], g)];
    forall j, k, r: nat, q: nat | 0 <= j < |streams'| && 0 <= k < |streams'| && streams'[j].movable &&
      (j != k || r != q)
      ensures Disjoint(streams'[j], streams'[k], r, q)
    {
      if j != i && k != i { assert Disjoint(streams[j], streams[k], r, q); }
      forall c: nat ensures !(Holds(streams'[j], r, c) && Holds(streams'[k], q, c)) {
        if j == i { SettledHolds(s, g, r, c); }
        if k == i { SettledHolds(s, g, q, c); }
        assert g <= c < g + Clusters(s.runs) ==> !Used(bitmap, c);
      }
    }
  }

  // ---- Allocated space ------------------------------------------------------------------------

  function UsedSet(bitmap: seq<bv8>, total: nat): set<nat>
    requires total <= 8 * |bitmap|
  {
    set c: nat | c < total && Used(bitmap, c)
  }

  lemma {:induction false} OwnedCount(runs: seq<Run>)
    requires forall r, q, c: nat | 0 <= r < q < |runs| :: !(Covers(runs[r], c) && Covers(runs[q], c))
    ensures |Owned(runs)| == Clusters(runs)
  {
    if runs != [] {
      var rest, last := runs[..|runs| - 1], runs[|runs| - 1];
      assert forall r | 0 <= r < |rest| :: rest[r] == runs[r];
      OwnedCount(rest);
      if last.Run? {
        RangeCount(last.lcn, last.length);
        forall c | c in Range(last.lcn, last.lcn + last.length) ensures c !in Owned(rest) {
          OwnedAt(rest, c);
          assert Covers(last, c);
        }
        assert Owned(rest) !! Range(last.lcn, last.lcn + last.length);
      }
    }
  }

  lemma OwnedIsUsed(bitmap: seq<bv8>, total: nat, streams: seq<Stream>, i: nat)
    requires Consistent(bitmap, total, streams) && i < |streams| && streams[i].movable
    ensures Owned(streams[i].runs) <= UsedSet(bitmap, total) && |Owned(streams[i].runs)| == Clusters(streams[i].runs)
  {
    hide Used, Clusters, MAX_LENGTH;
    var s := streams[i];
    forall r, q, c: nat | 0 <= r < q < |s.runs| ensures !(Covers(s.runs[r], c) && Covers(s.runs[q], c)) {
      assert Disjoint(s, s, r, q);
      assert Holds(s, r, c) == Covers(s.runs[r], c) && Holds(s, q, c) == Covers(s.runs[q], c);
    }
    OwnedCount(s.runs);
    forall c: nat | c in Owned(s.runs) ensures c in UsedSet(bitmap, total) {
      OwnedAt(s.runs, c);
      var r: nat :| 0 <= r < |s.runs| && Covers(s.runs[r], c);
      assert Holds(s, r, c);
    }
  }

  lemma RangeAt(lo: nat, hi: nat, c: nat)
    ensures c in Range(lo, hi) <==> lo <= c < hi
  {
    assert Between(lo, c, hi) <==> lo <= c < hi;
  }

  lemma MoveKeepsCount(before: seq<bv8>, after: seq<bv8>, total: nat, streams: seq<Stream>, i: nat, g: nat, e: nat)
    requires Consistent(before, total, streams) && i < |streams| && Fits(streams[i], g, e)
    requires e <= total && All(before, g, e, false)
    requires Exchanged(before, after, streams[i].runs, g, Clusters(streams[i].runs))
    ensures |UsedSet(after, total)| == |UsedSet(before, total)|
  {
    OwnedIsUsed(before, total, streams, i);
    assert total <= 8 * |before|;
    hide Used, Encode, Clusters, Consistent, Owned, Range;
    var n, runs := Clusters(streams[i].runs), streams[i].runs;
    var span := Range(g, g + n);
    RangeCount(g, n);
    forall c: nat ensures c in span <==> g <= c < g + n { RangeAt(g, g + n, c); }
    var a, b := UsedSet(before, total), UsedSet(after, total);
    forall c: nat ensures c in b <==> c in (a - Owned(runs)) + span {
      if c < total { assert Used(after, c) == (g <= c < g + n || (c !in Owned(runs) && Used(before, c))); }
    }
    assert b == (a - Owned(runs)) + span;
    assert a !! span;
  }

  // ---- Blocked gaps stay blocked ----------------------------------------------------------------

  /** Nothing free straddles the cursor. */
  ghost predicate Edge(bitmap: seq<bv8>, cursor: nat, high: nat)
    requires high <= 8 * |bitmap|
  {
    1 <= cursor && (cursor >= high || cursor == 1 || Used(bitmap, cursor - 1) || Used(bitmap, cursor))
  }

  lemma SkipBlocks(bitmap: seq<bv8>, total: nat, streams: seq<Stream>, cursor: nat, high: nat, g: nat, e: nat)
    requires Consistent(bitmap, total, streams) && high <= total && Edge(bitmap, cursor, high)
    requires Blocked(bitmap, streams, cursor)
    requires IsNextGap(bitmap, cursor, high, Gap(g, e)) && forall i | 0 <= i < |streams| :: !Fits(streams[i], g, e)
    ensures Blocked(bitmap, streams, e) && Edge(bitmap, e, high)
  {
    assert total <= 8 * |bitmap|;
    hide Used, Fits, Consistent;
    forall a: nat, b: nat, i: nat | FreeRun(bitmap, a, b, e) && i < |streams| ensures !Fits(streams[i], a, b) {
      assert forall c: nat | a <= c < b :: !Used(bitmap, c);
      if b <= cursor {
        assert FreeRun(bitmap, a, b, cursor);
      } else {
        var here, left, first := Used(bitmap, cursor), Used(bitmap, cursor - 1), Used(bitmap, a);
        assert a >= g;
        if Fits(streams[i], a, b) { PartFits(bitmap, total, streams, i, g, e, a, b); }
      }
    }
  }

  lemma MoveKeepsBlocked(before: seq<bv8>, after: seq<bv8>, total: nat, streams: seq<Stream>, i: nat, cursor: nat,
                         high: nat, g: nat, e: nat)
    requires Consistent(before, total, streams) && high <= total && Edge(before, cursor, high)
    requires Blocked(before, streams, cursor)
    requires IsNextGap(before, cursor, high, Gap(g, e)) && i < |streams| && Fits(streams[i], g, e)
    requires Exchanged(before, after, streams[i].runs, g, Clusters(streams[i].runs))
    ensures Blocked(after, streams[i := Settle(streams[i], g)], g) && Used(after, g)
  {
    assert total <= 8 * |before|;
    hide Used, Consistent, Encode, Clusters;
    var s, streams' := streams[i], streams[i := Settle(streams[i], g)];
    assert Used(after, g) by { assert g <= g < g + Clusters(s.runs); }
    forall a: nat, b: nat, k: nat | FreeRun(after, a, b, g) && k < |streams'| ensures !Fits(streams'[k], a, b) {
      forall c: nat | a <= c < b ensures !Used(before, c) {
        BelowUnmoved(s.runs, e, c);
      }
      assert !Used(before, b - 1);
      assert b <= cursor;
      assert FreeRun(before, a, b, cursor);
      assert !Fits(streams[k], a, b);
      if k == i {
        SettledRuns(g, Clusters(s.runs));
        assert LiesAbove(s.runs, b);
      }
    }
  }

  lemma BelowUnmoved(runs: seq<Run>, e: nat, c: nat)
    requires LiesAbove(runs, e) && c < e
    ensures c !in Owned(runs)
  {
    OwnedAt(runs, c);
  }

  // ---- The pass -----------------------------------------------------------------------------------

  lemma ReleaseOne(before: seq<bv8>, now: seq<bv8>, after: seq<bv8>, runs: seq<Run>, r: nat, g: nat, n: nat)
    requires r < |runs| && runs[r].Run? && g + n <= runs[r].lcn && runs[r].lcn + runs[r].length <= 8 * |before|
    requires Exchanged(before, now, runs[..r], g, n)
    requires SetTo(now, after, runs[r].lcn, runs[r].lcn + runs[r].length, false)
    ensures Exchanged(before, after, runs[..r + 1], g, n)
  {
    hide Used;
    assert runs[..r + 1][..r] == runs[..r];
    forall c: nat | c < 8 * |before|
      ensures Used(after, c) == (g <= c < g + n || (c !in Owned(runs[..r + 1]) && Used(before, c)))
    {
      RangeAt(runs[r].lcn, runs[r].lcn + runs[r].length, c);
      assert Used(now, c) == (g <= c < g + n || (c !in Owned(runs[..r]) && Used(before, c)));
    }
  }

  lemma ReserveFirst(before: seq<bv8>, after: seq<bv8>, g: nat, n: nat)
    requires SetTo(before, after, g, g + n, true)
    ensures Exchanged(before, after, [], g, n)
  {
    hide Used;
  }

  class NtfsLayout {
    const total: nat
    const bitmap: array<bv8>
    var streams: seq<Stream>
    /** The moves carried out, oldest first. */
    ghost var log: seq<Planned>

    ghost predicate Valid()
      reads this, bitmap
    {
      Consistent(bitmap[..], total, streams)
    }

    constructor (total: nat, bitmap: array<bv8>, streams: seq<Stream>)
      requires Consistent(bitmap[..], total, streams)
      ensures Valid() && this.total == total && this.bitmap == bitmap && this.streams == streams && log == []
    {
      this.total, this.bitmap, this.streams, this.log := total, bitmap, streams, [];
    }

    /** _move_extent and _update_moved_stream, as the planner sees them. */
    method MoveExtent(i: nat, g: nat, ghost e: nat)
      requires Valid() && i < |streams| && Fits(streams[i], g, e) && e <= total && All(bitmap[..], g, e, false)
      modifies this, bitmap
      ensures Valid() && streams == old(streams)[i := Settle(old(streams[i]), g)]
      ensures log == old(log) + [Planned(i, g, e)]
      ensures Exchanged(old(bitmap[..]), bitmap[..], old(streams[i]).runs, g, Clusters(old(streams[i]).runs))
      ensures |UsedSet(bitmap[..], total)| == |UsedSet(old(bitmap[..]), total)|
    {
      var s := streams[i];
      var n := Clusters(s.runs);
      ghost var before, was := bitmap[..], streams;
      StreamInside(before, total, was, i, e);
      assert n > 0 && g + n <= e;
      hide Used, Encode, Clusters, Consistent, Exchanged, SetTo, Fits, Plain, LiesAbove;
      SetRange(bitmap, g, n, true);
      ReserveFirst(before, bitmap[..], g, n);
      assert s.runs[..0] == [];
      for r := 0 to |s.runs|
        invariant streams == was && log == old(log) && Exchanged(before, bitmap[..], s.runs[..r], g, n)
      {
        assert s.runs[r].Run? && e <= s.runs[r].lcn && s.runs[r].lcn + s.runs[r].length <= 8 * |before|;
        ghost var now := bitmap[..];
        SetRange(bitmap, s.runs[r].lcn, s.runs[r].length, false);
        ReleaseOne(before, now, bitmap[..], s.runs, r, g, n);
      }
      assert s.runs[..|s.runs|] == s.runs;
      MoveConsistent(before, bitmap[..], total, was, i, g, e);
      MoveKeepsCount(before, bitmap[..], total, was, i, g, e);
      streams := streams[i := Settle(s, g)];
      log := log + [Planned(i, g, e)];
    }
  }

  lemma StreamInside(bitmap: seq<bv8>, total: nat, streams: seq<Stream>, i: nat, e: nat)
    requires Consistent(bitmap, total, streams) && i < |streams| && streams[i].movable && LiesAbove(streams[i].runs, e)
    ensures total <= 8 * |bitmap|
    ensures forall r | 0 <= r < |streams[i].runs| ::
      var run := streams[i].runs[r]; run.Run? && run.length >= 1 && e <= run.lcn && run.lcn + run.length <= total
  {
    var s := streams[i];
    forall r | 0 <= r < |s.runs|
      ensures var run := s.runs[r]; run.Run? && run.length >= 1 && e <= run.lcn && run.lcn + run.length <= total
    {
      assert Plain(s);
      assert Holds(s, r, s.runs[r].lcn + s.runs[r].length - 1);
    }
  }

  /** What the pass may do to one stream: nothing, or one extent further down. */
  ghost predicate Follows(was: Stream, now: Stream) {
    now == was ||
    (was.movable && |now.runs| == 1 && now.runs[0].Run? && now.runs[0].lcn >= 1 &&
     now.runs[0].length == Clusters(was.runs)
     && now == was.(runs := now.runs) && LiesAbove(was.runs, now.runs[0].lcn + now.runs[0].length))
  }

  ghost predicate AllFollow(was: seq<Stream>, now: seq<Stream>) {
    |now| == |was| && forall i | 0 <= i < |was| :: Follows(was[i], now[i])
  }

  lemma FollowStep(was: seq<Stream>, now: seq<Stream>, i: nat, g: nat, e: nat)
    requires AllFollow(was, now) && i < |now| && Fits(now[i], g, e) && g >= 1
    ensures AllFollow(was, now[i := Settle(now[i], g)])
  {
    hide Encode, Clusters;
    if now[i] != was[i] {
      assert now[i].runs == [Run(now[i].runs[0].lcn, now[i].runs[0].length)];
      SettledRuns(now[i].runs[0].lcn, now[i].runs[0].length);
    }
  }

  /** Releasing extents below the top leaves the top where it was. */
  lemma HighKept(before: seq<bv8>, after: seq<bv8>, total: nat, runs: seq<Run>, g: nat, n: nat, high: nat)
    requires total <= 8 * |before| && IsHighest(before, total, high) && Exchanged(before, after, runs, g, n)
    requires g + n <= high
    requires forall r | 0 <= r < |runs| :: runs[r].Run? && runs[r].lcn + runs[r].length < high
    ensures IsHighest(after, total, high)
  {
    hide Used;
    forall c: nat | high <= c < total ensures !Used(after, c) { assert !Used(before, c); }
    if high > 0 {
      OwnedAt(runs, high - 1);
      assert Used(before, high - 1);
    }
  }

  lemma HighLowered(before: seq<bv8>, after: seq<bv8>, total: nat, runs: seq<Run>, g: nat, n: nat, high: nat,
                    high': nat)
    requires total <= 8 * |before| && IsHighest(before, total, high) && Exchanged(before, after, runs, g, n)
    requires g + n <= high
    requires IsHighest(after, high, high')
    ensures IsHighest(after, total, high')
  {
    hide Used;
    forall c: nat | high' <= c < total ensures !Used(after, c) {
      if c >= high { assert !Used(before, c); }
    }
  }

  lemma HighestUnique(bitmap: seq<bv8>, total: nat, high: nat)
    requires total <= 8 * |bitmap| && IsHighest(bitmap, total, high)
    ensures high <= total && forall h: nat | IsHighest(bitmap, total, h) :: h == high
  {
    hide Used;
    assert forall h: nat | IsHighest(bitmap, total, h) :: h == high;
  }

  lemma BlockedStart(bitmap: seq<bv8>, streams: seq<Stream>, cursor: nat, high: nat, first: Gap)
    requires high <= 8 * |bitmap| && IsNextGap(bitmap, 1, high, first)
    requires cursor == if first.Gap? then first.start else if high >= 1 then high else 1
    ensures Blocked(bitmap, streams, cursor) && Edge(bitmap, cursor, high)
  {
    hide Used, Fits;
    forall a: nat, b: nat ensures !FreeRun(bitmap, a, b, cursor) {
      if a < 8 * |bitmap| { var state := Used(bitmap, a); }
    }
  }

  lemma BlockedBelow(bitmap: seq<bv8>, streams: seq<Stream>, cursor: nat, high: nat)
    requires high <= 8 * |bitmap| && Blocked(bitmap, streams, cursor) && Edge(bitmap, cursor, high)
    requires IsNextGap(bitmap, cursor, high, NoGap)
    ensures Blocked(bitmap, streams, high)
  {
    hide Used, Fits;
    forall a: nat, b: nat, i: nat | FreeRun(bitmap, a, b, high) && i < |streams| ensures !Fits(streams[i], a, b) {
      assert !Used(bitmap, b - 1);
      assert FreeRun(bitmap, a, b, cursor);
    }
  }

  /** One iteration that moves a stream: the new high-water mark is rescanned only
      when a released extent touched the old one. */
  method MoveAndTrim(l: NtfsLayout, i: nat, ghost cursor: nat, g: nat, ghost e: nat, high: nat) returns (high': nat)
    requires l.Valid() && l.total <= 8 * l.bitmap.Length && IsHighest(l.bitmap[..], l.total, high) && high <= l.total
    requires Edge(l.bitmap[..], cursor, high) && Blocked(l.bitmap[..], l.streams, cursor)
    requires IsNextGap(l.bitmap[..], cursor, high, Gap(g, e)) && i < |l.streams| && Fits(l.streams[i], g, e)
    modifies l, l.bitmap
    ensures l.Valid() && l.streams == old(l.streams)[i := Settle(old(l.streams[i]), g)]
    ensures l.log == old(l.log) + [Planned(i, g, e)] && e <= l.total
    ensures Exchanged(old(l.bitmap[..]), l.bitmap[..], old(l.streams[i]).runs, g, Clusters(old(l.streams[i]).runs))
    ensures |UsedSet(l.bitmap[..], l.total)| == |UsedSet(old(l.bitmap[..]), l.total)|
    ensures high' <= high && IsHighest(l.bitmap[..], l.total, high')
    ensures Blocked(l.bitmap[..], l.streams, g) && g < l.total && Used(l.bitmap[..], g)
  {
    ghost var before, was := l.bitmap[..], l.streams;
    var runs, n := l.streams[i].runs, Clusters(l.streams[i].runs);
    StreamInside(before, l.total, was, i, e);
    assert g + n <= e <= high;
    hide Used, Encode, Clusters, Consistent, Exchanged, Fits, Blocked, IsHighest, Settle, All, Edge, UsedSet;
    l.MoveExtent(i, g, e);
    MoveKeepsBlocked(before, l.bitmap[..], l.total, was, i, cursor, high, g, e);
    if exists r | 0 <= r < |runs| :: runs[r].Run? && runs[r].lcn + runs[r].length >= high {
      high' := HighestUsedBefore(l.bitmap[..], high);
      HighLowered(before, l.bitmap[..], l.total, runs, g, n, high, high');
      HighestUnique(l.bitmap[..], high, high');
    } else {
      high' := high;
      HighKept(before, l.bitmap[..], l.total, runs, g, n, high);
    }
  }

  /** The clusters just filled at the cursor are in use. */
  ghost predicate Packed(bitmap: seq<bv8>, total: nat, cursor: nat, filled: nat)
    requires total <= 8 * |bitmap|
  {
    1 <= cursor <= filled <= total + 1 && (cursor < filled ==> filled <= total && All(bitmap, cursor, filled, true))
  }

  lemma PackedGap(bitmap: seq<bv8>, total: nat, cursor: nat, filled: nat, high: nat, gap: Gap)
    requires high <= total <= 8 * |bitmap| && Packed(bitmap, total, cursor, filled) && gap.Gap?
    requires IsNextGap(bitmap, cursor, high, gap)
    ensures 1 <= gap.start && filled <= gap.start < gap.end <= total
  {
    assert !Used(bitmap, gap.start);
  }

  lemma PackedSkip(bitmap: seq<bv8>, total: nat, e: nat)
    requires 1 <= e <= total <= 8 * |bitmap|
    ensures Packed(bitmap, total, e, e)
  {
  }

  lemma PackedMove(bitmap: seq<bv8>, total: nat, g: nat, high: nat)
    requires 1 <= g < total <= 8 * |bitmap| && Used(bitmap, g) && high <= 8 * |bitmap|
    ensures Packed(bitmap, total, g, g + 1) && Edge(bitmap, g, high)
  {
  }

  lemma FollowItself(streams: seq<Stream>)
    ensures AllFollow(streams, streams)
  {
  }

  /** Over a pass every stream is unchanged or one run lower than before. */
  lemma {:induction false} PassFollows(streams: seq<Stream>, log: seq<Planned>, total: nat)
    requires PassMoves(streams, log, total)
    ensures AllFollow(streams, AfterMoves(streams, log))
  {
    hide AllFollow, Settle, Fits;
    if log == [] {
      FollowItself(streams);
    } else {
      var n: nat := |log| - 1;
      var front, m := log[..n], log[n];
      assert PassMoves(streams, front, total) by {
        forall k | 0 <= k < n ensures front[..k] == log[..k] {}
      }
      PassFollows(streams, front, total);
      FollowStep(streams, AfterMoves(streams, front), m.index, m.start, m.end);
    }
  }

  /** The next gap from the cursor is complete: nothing free adjoins it, and nothing below it can be filled. */
  lemma GapComplete(bitmap: seq<bv8>, total: nat, streams: seq<Stream>, cursor: nat, high: nat, g: nat, e: nat)
    requires high <= total <= 8 * |bitmap| && IsHighest(bitmap, total, high)
    requires Blocked(bitmap, streams, cursor) && Edge(bitmap, cursor, high)
    requires IsNextGap(bitmap, cursor, high, Gap(g, e))
    ensures 1 <= g < e < total && All(bitmap, g, e, false) && Used(bitmap, e) && (g > 1 ==> Used(bitmap, g - 1))
    ensures Blocked(bitmap, streams, g)
  {
    hide Used, Fits;
    assert !Used(bitmap, e - 1) && !Used(bitmap, g);
    assert cursor < g ==> Used(bitmap, g - 1);
    forall a: nat, b: nat, i: nat | FreeRun(bitmap, a, b, g) && i < |streams| ensures !Fits(streams[i], a, b) {
      assert !Used(bitmap, b - 1);
      assert FreeRun(bitmap, a, b, cursor);
    }
  }

  /** Between two gaps: the exact high-water mark, and nothing fits below the cursor. */
  ghost predicate Underway(bitmap: seq<bv8>, total: nat, streams: seq<Stream>, cursor: nat, filled: nat, high: nat) {
    && high <= total <= 8 * |bitmap| && IsHighest(bitmap, total, high)
    && Blocked(bitmap, streams, cursor) && Edge(bitmap, cursor, high) && Packed(bitmap, total, cursor, filled)
  }

  /** The next gap: filled with the largest whole stream above it, or passed over. */
  method TryGap(l: NtfsLayout, cursor: nat, ghost filled: nat, high: nat)
    returns (found: bool, cursor': nat, ghost filled': nat, high': nat, ghost run: seq<Planned>)
    requires l.Valid() && Underway(l.bitmap[..], l.total, l.streams, cursor, filled, high)
    modifies l, l.bitmap
    ensures l.Valid() && |UsedSet(l.bitmap[..], l.total)| == |UsedSet(old(l.bitmap[..]), l.total)| && high' <= high
    ensures Underway(l.bitmap[..], l.total, l.streams, cursor', filled', high')
    ensures !found ==> run == [] && Blocked(l.bitmap[..], l.streams, high')
    ensures found ==> filled < filled' <= l.total + 1
    ensures l.log == old(l.log) + run && |run| <= 1
    ensures run == [] ==> l.streams == old(l.streams)
    ensures run == [] ==> l.bitmap[..] == old(l.bitmap[..])
    ensures run != [] ==>
              && Step(old(l.bitmap[..]), l.bitmap[..], l.total, old(l.streams), run[0])
              && l.streams == old(l.streams)[run[0].index := Settle(old(l.streams)[run[0].index], run[0].start)]
  {
    hide Used, Encode, Clusters, Consistent, Exchanged, Fits, Blocked, IsHighest, UsedSet, Settle, Edge, All, IsNextGap,
         Packed, EndsAbove;
    cursor', filled', high', run := cursor, filled, high, [];
    var gap := NextFreeRun(l.bitmap[..], cursor, high);
    found := gap.Gap?;
    if gap.NoGap? {
      BlockedBelow(l.bitmap[..], l.streams, cursor, high);
      return;
    }
    ghost var before, was := l.bitmap[..], l.streams;
    PackedGap(before, l.total, cursor, filled, high, gap);
    var choice := SelectSource(l.streams, gap.start, gap.end);
    if choice.Nothing? {
      SkipBlocks(before, l.total, was, cursor, high, gap.start, gap.end);
      PackedSkip(before, l.total, gap.end);
      cursor', filled' := gap.end, gap.end;
    } else {
      GapComplete(before, l.total, was, cursor, high, gap.start, gap.end);
      high' := MoveAndTrim(l, choice.index, cursor, gap.start, gap.end, high);
      PackedMove(l.bitmap[..], l.total, gap.start, high');
      cursor', filled', run := gap.start, gap.start + 1, [Planned(choice.index, gap.start, gap.end)];
    }
  }

  /** The high-water mark and the first gap below it. */
  method FirstGap(bitmap: seq<bv8>, total: nat, ghost streams: seq<Stream>) returns (high: nat, cursor: nat)
    requires Consistent(bitmap, total, streams)
    ensures Underway(bitmap, total, streams, cursor, cursor, high)
    ensures forall h: nat | IsHighest(bitmap, total, h) :: high <= h
  {
    assert total <= 8 * |bitmap|;
    high := HighestUsedBefore(bitmap, total);
    HighestUnique(bitmap, total, high);
    hide Used, Consistent, Fits, Blocked, IsHighest;
    var first := NextFreeRun(bitmap, 1, high);
    cursor := if first.Gap? then first.start else if high >= 1 then high else 1;
    BlockedStart(bitmap, streams, cursor, high, first);
  }

  /** compact: fill each gap with the largest whole stream above it, or leave it. */
  method Compact(l: NtfsLayout, stop: nat -> bool)
    returns (high: nat, stopped: bool, ghost maps: seq<seq<bv8>>)
    requires l.Valid()
    modifies l, l.bitmap
    ensures l.Valid() && AllFollow(old(l.streams), l.streams)
    ensures |UsedSet(l.bitmap[..], l.total)| == |UsedSet(old(l.bitmap[..]), l.total)|
    ensures IsHighest(l.bitmap[..], l.total, high)
    ensures forall h: nat | IsHighest(old(l.bitmap[..]), l.total, h) :: high <= h
    ensures stopped ==> exists n :: stop(n)
    ensures !stopped ==> Blocked(l.bitmap[..], l.streams, high)
    ensures old(l.log) <= l.log
    ensures var run := l.log[|old(l.log)|..];
            && Pass(maps, l.total, old(l.streams), run) && l.streams == AfterMoves(old(l.streams), run)
            && maps[0] == old(l.bitmap[..]) && maps[|run|] == l.bitmap[..]
  {
    hide Used, Consistent, Fits, Blocked, IsHighest, AllFollow, UsedSet, Settle, PassMoves, AfterMoves, Edge, Packed,
         Step, Pass;
    ghost var start := l.bitmap[..];
    var cursor;
    high, cursor := FirstGap(l.bitmap[..], l.total, l.streams);
    ghost var top := high;
    ghost var filled: nat, run: seq<Planned> := cursor, [];
    maps := [start];
    NoMoves(start, l.streams, l.total);
    var polls := 0;
    stopped := false;
    while true
      invariant l.Valid() && high <= top && Underway(l.bitmap[..], l.total, l.streams, cursor, filled, high)
      invariant |UsedSet(l.bitmap[..], l.total)| == |UsedSet(start, l.total)|
      invariant l.log == old(l.log) + run
      invariant Pass(maps, l.total, old(l.streams), run) && l.streams == AfterMoves(old(l.streams), run)
      invariant |maps| == |run| + 1 && maps[0] == start && maps[|run|] == l.bitmap[..]
      decreases l.total + 1 - filled
    {
      if stop(polls) {
        stopped := true;
        break;
      }
      polls := polls + 1;
      var found; ghost var more;
      found, cursor, filled, high, more := TryGap(l, cursor, filled, high);
      if !found { break; }
      if more != [] {
        PassStep(maps, l.total, old(l.streams), run, l.bitmap[..], more[0]);
        run, maps := run + [more[0]], maps + [l.bitmap[..]];
      }
    }
    assert l.log[|old(l.log)|..] == run;
    PassIsMoves(maps, l.total, old(l.streams), run);
    PassFollows(old(l.streams), run, l.total);
  }
}
