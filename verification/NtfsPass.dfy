/** A compaction pass has no choice: its moves follow from the map and the streams. */
module NtfsPass {
  import opened NtfsRunlist
  import opened NtfsBitmap
  import opened NtfsCompact
  import M = NtfsMove

  /** Two movable streams that end at the same cluster are one stream. */
  lemma SameEnd(bitmap: seq<bv8>, total: nat, streams: seq<Stream>, i: nat, j: nat)
    requires Consistent(bitmap, total, streams) && i < |streams| && j < |streams|
    requires streams[i].movable && streams[j].movable
    requires !EndsAbove(streams[i].runs, streams[j].runs) && !EndsAbove(streams[j].runs, streams[i].runs)
    ensures i == j
  {
    hide Used, MAX_LENGTH, HighestLcn, EndsAbove;
    var s, t := streams[i], streams[j];
    assert Plain(s) && Plain(t);
    HighestReached(s.runs);
    HighestReached(t.runs);
    HigherEndsAbove(s.runs, t.runs);
    HigherEndsAbove(t.runs, s.runs);
    assert s.runs[0].Run?;
    var r: nat :| r < |s.runs| && s.runs[r].Run? && s.runs[r].lcn + s.runs[r].length == HighestLcn(s.runs);
    var q: nat :| q < |t.runs| && t.runs[q].Run? && t.runs[q].lcn + t.runs[q].length == HighestLcn(s.runs);
    var c: nat := HighestLcn(s.runs) - 1;
    assert Holds(s, r, c) && Holds(t, q, c);
    assert i != j ==> Disjoint(s, t, r, q);
  }

  /** The lowest gap that can be filled is one gap. */
  lemma SameGap(before: seq<bv8>, a: seq<bv8>, b: seq<bv8>, total: nat, streams: seq<Stream>, m: Planned, n: Planned)
    requires Step(before, a, total, streams, m) && Step(before, b, total, streams, n)
    ensures m.start == n.start && m.end == n.end
  {
    hide Used, Fits, Exchanged, EndsAbove, Clusters;
    NoLower(before, a, b, total, streams, m, n);
    NoLower(before, b, a, total, streams, n, m);
    assert Used(before, m.end) && Used(before, n.end);
  }

  lemma NoLower(before: seq<bv8>, a: seq<bv8>, b: seq<bv8>, total: nat, streams: seq<Stream>, m: Planned, n: Planned)
    requires Step(before, a, total, streams, m) && Step(before, b, total, streams, n)
    ensures m.start >= n.start
  {
    hide Used, Fits, Exchanged, EndsAbove, Clusters;
    var lower := FreeRun(before, m.start, m.end, n.start);
    if n.start > 1 { var state := Used(before, n.start - 1); }
  }

  lemma SameMaps(a: seq<bv8>, b: seq<bv8>)
    requires |a| == |b| && forall c: nat | c < 8 * |a| :: Used(a, c) == Used(b, c)
    ensures a == b
  {
    forall i | 0 <= i < |a| ensures a[i] == b[i] { M.SameBits(a, b, i); }
  }

  lemma SameChoice(before: seq<bv8>, a: seq<bv8>, b: seq<bv8>, total: nat, streams: seq<Stream>, m: Planned,
                   n: Planned)
    requires Consistent(before, total, streams) && m.start == n.start && m.end == n.end
    requires Step(before, a, total, streams, m) && Step(before, b, total, streams, n)
    ensures m.index == n.index
  {
    hide Used, Fits, EndsAbove, Clusters, Consistent, Blocked, All, Exchanged;
    Movable(streams[m.index], m.start, m.end);
    Movable(streams[n.index], m.start, m.end);
    SameEnd(before, total, streams, m.index, n.index);
  }

  lemma Movable(s: Stream, g: nat, e: nat)
    requires Fits(s, g, e)
    ensures s.movable
  {
  }

  lemma SameMap(before: seq<bv8>, a: seq<bv8>, b: seq<bv8>, total: nat, streams: seq<Stream>, m: Planned)
    requires Step(before, a, total, streams, m) && Step(before, b, total, streams, m)
    ensures a == b
  {
    hide Used, Chosen, Clusters, Owned, Blocked, All;
    assert m.index < |streams| by { assert Chosen(streams, m.index, m.start, m.end); ChosenIndex(streams, m); }
    SameMaps(a, b);
  }

  lemma ChosenIndex(streams: seq<Stream>, m: Planned)
    requires Chosen(streams, m.index, m.start, m.end)
    ensures m.index < |streams|
  {
  }

  /** The map and the streams determine the step. */
  lemma StepDetermined(before: seq<bv8>, a: seq<bv8>, b: seq<bv8>, total: nat, streams: seq<Stream>, m: Planned,
                       n: Planned)
    requires Consistent(before, total, streams)
    requires Step(before, a, total, streams, m) && Step(before, b, total, streams, n)
    ensures m == n && a == b
  {
    hide Step, Consistent;
    SameGap(before, a, b, total, streams, m, n);
    SameChoice(before, a, b, total, streams, m, n);
    SameMap(before, a, b, total, streams, m);
  }

  /** A step leaves a consistent layout. */
  lemma StepConsistent(before: seq<bv8>, after: seq<bv8>, total: nat, streams: seq<Stream>, m: Planned)
    requires Consistent(before, total, streams) && Step(before, after, total, streams, m)
    ensures m.index < |streams|
    ensures Consistent(after, total, streams[m.index := Settle(streams[m.index], m.start)])
  {
    hide Used, Fits, EndsAbove, Clusters, Consistent, Blocked, Exchanged, Settle;
    MoveConsistent(before, after, total, streams, m.index, m.start, m.end);
  }

  lemma {:induction false} PassFront(maps: seq<seq<bv8>>, total: nat, streams: seq<Stream>, log: seq<Planned>, n: nat)
    requires Pass(maps, total, streams, log) && n <= |log|
    ensures Pass(maps[..n + 1], total, streams, log[..n])
  {
    hide Step, AfterMoves;
    forall k | 0 <= k < n
      ensures Step(maps[..n + 1][k], maps[..n + 1][k + 1], total, AfterMoves(streams, log[..n][..k]), log[..n][k])
    {
      assert log[..n][..k] == log[..k];
      assert Step(maps[k], maps[k + 1], total, AfterMoves(streams, log[..k]), log[k]);
    }
  }

  lemma {:induction false} PassConsistent(maps: seq<seq<bv8>>, total: nat, streams: seq<Stream>, log: seq<Planned>)
    requires Pass(maps, total, streams, log) && Consistent(maps[0], total, streams)
    ensures Consistent(maps[|log|], total, AfterMoves(streams, log))
  {
    hide Step, Consistent, Settle;
    if log != [] {
      var n: nat := |log| - 1;
      PassFront(maps, total, streams, log, n);
      PassConsistent(maps[..n + 1], total, streams, log[..n]);
      assert Step(maps[n], maps[n + 1], total, AfterMoves(streams, log[..n]), log[n]);
      StepConsistent(maps[n], maps[n + 1], total, AfterMoves(streams, log[..n]), log[n]);
    }
  }

  /** Two passes over one layout agree move by move for as long as both go on. */
  lemma {:induction false} PassesAgree(maps: seq<seq<bv8>>, others: seq<seq<bv8>>, total: nat, streams: seq<Stream>,
                                       log: seq<Planned>, other: seq<Planned>, n: nat)
    requires Pass(maps, total, streams, log) && Pass(others, total, streams, other) && maps[0] == others[0]
    requires Consistent(maps[0], total, streams) && n <= |log| && n <= |other|
    ensures log[..n] == other[..n] && maps[..n + 1] == others[..n + 1]
    decreases n
  {
    hide Step, Consistent, AfterMoves;
    if n > 0 {
      var k: nat := n - 1;
      PassesAgree(maps, others, total, streams, log, other, k);
      PassFront(maps, total, streams, log, k);
      PassConsistent(maps[..k + 1], total, streams, log[..k]);
      assert maps[k] == maps[..k + 1][k] == others[..k + 1][k] == others[k];
      assert Step(maps[k], maps[k + 1], total, AfterMoves(streams, log[..k]), log[k]);
      assert Step(others[k], others[k + 1], total, AfterMoves(streams, other[..k]), other[k]);
      StepDetermined(maps[k], maps[k + 1], others[k + 1], total, AfterMoves(streams, log[..k]), log[k], other[k]);
      assert log[..n] == log[..k] + [log[k]] && other[..n] == other[..k] + [other[k]];
    }
  }

  /** A map with no gap left to fill below its high-water mark allows no further step. */
  lemma NoStepLeft(before: seq<bv8>, after: seq<bv8>, total: nat, streams: seq<Stream>, m: Planned, high: nat)
    requires total <= 8 * |before| && IsHighest(before, total, high) && Blocked(before, streams, high)
    ensures !Step(before, after, total, streams, m)
  {
    hide Used, Fits, EndsAbove, Clusters, Exchanged;
    var gap := FreeRun(before, m.start, m.end, high);
    if m.end < total { var state := Used(before, m.end); }
  }

  /** A pass that has come to its end. */
  ghost predicate Finished(bitmap: seq<bv8>, total: nat, streams: seq<Stream>) {
    total <= 8 * |bitmap| && exists high: nat :: IsHighest(bitmap, total, high) && Blocked(bitmap, streams, high)
  }

  lemma {:induction false} NotLonger(maps: seq<seq<bv8>>, others: seq<seq<bv8>>, total: nat, streams: seq<Stream>,
                                     log: seq<Planned>, other: seq<Planned>)
    requires Pass(maps, total, streams, log) && Pass(others, total, streams, other) && maps[0] == others[0]
    requires Consistent(maps[0], total, streams) && Finished(maps[|log|], total, AfterMoves(streams, log))
    ensures |other| <= |log|
  {
    hide Step, Consistent, AfterMoves, Blocked;
    var n := |log|;
    if n < |other| {
      PassesAgree(maps, others, total, streams, log, other, n);
      assert log[..n] == log;
      assert maps[n] == maps[..n + 1][n] == others[..n + 1][n] == others[n];
      var high: nat :| IsHighest(maps[n], total, high) && Blocked(maps[n], AfterMoves(streams, log), high);
      assert Step(others[n], others[n + 1], total, AfterMoves(streams, other[..n]), other[n]);
      NoStepLeft(others[n], others[n + 1], total, AfterMoves(streams, other[..n]), other[n], high);
    }
  }

  /** Two finished passes over one layout made the same moves and left the same maps. */
  lemma {:induction false} PassDetermined(maps: seq<seq<bv8>>, others: seq<seq<bv8>>, total: nat, streams: seq<Stream>,
                                          log: seq<Planned>, other: seq<Planned>)
    requires Pass(maps, total, streams, log) && Pass(others, total, streams, other) && maps[0] == others[0]
    requires Consistent(maps[0], total, streams)
    requires Finished(maps[|log|], total, AfterMoves(streams, log))
    requires Finished(others[|other|], total, AfterMoves(streams, other))
    ensures log == other && maps == others
  {
    hide Step, Consistent, AfterMoves, Finished;
    NotLonger(maps, others, total, streams, log, other);
    NotLonger(others, maps, total, streams, other, log);
    PassesAgree(maps, others, total, streams, log, other, |log|);
    assert log[..|log|] == log && other[..|log|] == other;
    assert maps[..|log| + 1] == maps && others[..|log| + 1] == others;
  }
}
