/** The bytes of an NTFS stream, read through the runs that map it. */
module NtfsContents {
  import opened Basics
  import opened Arithmetic
  import opened NtfsRunlist
  import opened NtfsRecord
  import M = NtfsMove
  import E = ExtentCopy

  /** Offset of byte `q` of cluster `c`. */
  function Spot(c: nat, clusterSize: nat, q: nat): nat { c * clusterSize + q }

  /** Byte `q` of logical cluster `v` lies on the device at this offset. */
  ghost predicate LiesAt(runs: seq<Run>, clusterSize: nat, v: nat, q: nat, p: nat) {
    v < |Places(runs)| && Places(runs)[v].At? && p == Spot(Places(runs)[v].lcn, clusterSize, q)
  }

  /** Read through `now`, the stream has the bytes it had on `before` through `was`. */
  ghost predicate SameContents(before: seq<Byte>, was: seq<Run>, after: seq<Byte>, now: seq<Run>, clusterSize: nat) {
    && |Places(now)| == |Places(was)|
    && forall v: nat, q: nat | v < |Places(was)| && q < clusterSize ::
         SameByte(before, was, after, now, clusterSize, v, q)
  }

  ghost predicate SameByte(before: seq<Byte>, was: seq<Run>, after: seq<Byte>, now: seq<Run>, clusterSize: nat, v: nat,
                           q: nat)
  {
    && v < |Places(was)| && v < |Places(now)| && Places(was)[v].At? && Places(now)[v].At?
    && var p, p' := Places(was)[v].lcn * clusterSize + q, Places(now)[v].lcn * clusterSize + q;
       p < |before| && p' < |after| && after[p'] == before[p]
  }

  lemma SamePlaces(before: seq<Byte>, was: seq<Run>, after: seq<Byte>, now: seq<Run>, now': seq<Run>, clusterSize: nat)
    requires SameContents(before, was, after, now, clusterSize) && Places(now') == Places(now)
    ensures SameContents(before, was, after, now', clusterSize)
  {
    hide Places, Spot;
    forall v: nat, q: nat | v < |Places(was)| && q < clusterSize
      ensures SameByte(before, was, after, now', clusterSize, v, q)
    {
      assert SameByte(before, was, after, now, clusterSize, v, q);
    }
  }

  // ---- Runs and extents --------------------------------------------------------------------------

  lemma ExtentsFront(runs: seq<Run>, clusterSize: nat)
    requires runs != [] && runs[|runs| - 1].Run?
    ensures var es, last := M.ExtentsOf(runs, clusterSize), runs[|runs| - 1];
            && |es| == |runs| && es[..|runs| - 1] == M.ExtentsOf(runs[..|runs| - 1], clusterSize)
            && es[|runs| - 1] == E.Extent(last.lcn * clusterSize, last.length * clusterSize)
            && E.Total(es) == E.Total(es[..|runs| - 1]) + last.length * clusterSize
  {
    var es, n: nat := M.ExtentsOf(runs, clusterSize), |runs| - 1;
    E.TotalSplit(es, n);
    assert es[n..] == [es[n]];
    assert es[n..][1..] == [];
  }

  lemma {:induction false} ExtentsTotal(runs: seq<Run>, clusterSize: nat)
    requires Physical(runs)
    ensures E.Total(M.ExtentsOf(runs, clusterSize)) == SumLengths(runs) * clusterSize
  {
    if runs != [] {
      var front, last := runs[..|runs| - 1], runs[|runs| - 1];
      ExtentsTotal(front, clusterSize);
      ExtentsFront(runs, clusterSize);
      assert SumLengths(runs) == SumLengths(front) + last.length;
      assert (SumLengths(front) + last.length) * clusterSize ==
        SumLengths(front) * clusterSize + last.length * clusterSize;
    }
  }

  /** The extents of a prefix locate their bytes where the whole list does. */
  lemma {:induction false} LocatePrefix(es: seq<E.Extent>, i: nat, k: nat)
    requires i <= |es| && k < E.Total(es[..i])
    ensures k < E.Total(es) && E.Locate(es, k) == E.Locate(es[..i], k)
  {
    E.TotalSplit(es, i);
    if k >= es[0].size {
      assert es[..i][1..] == es[1..][..i - 1];
      LocatePrefix(es[1..], i - 1, k - es[0].size);
    }
  }

  /** The extents of a runlist hold byte `q` of logical cluster `v` where its place says. */
  lemma {:induction false} PlaceLocates(runs: seq<Run>, clusterSize: nat, v: nat, q: nat)
    requires Physical(runs) && v < |Places(runs)| && q < clusterSize
    ensures var es, k := M.ExtentsOf(runs, clusterSize), Spot(v, clusterSize, q);
            k < E.Total(es) && LiesAt(runs, clusterSize, v, q, E.Locate(es, k))
  {
    PlacesFront(runs);
    hide Places, E.Total, E.Locate, M.ExtentsOf, Spot;
    var n: nat := |runs| - 1;
    if v < |Places(runs[..n])| {
      PlaceLocates(runs[..n], clusterSize, v, q);
      ExtentsFront(runs, clusterSize);
      LocatePrefix(M.ExtentsOf(runs, clusterSize), n, Spot(v, clusterSize, q));
    } else {
      LastLocates(runs, clusterSize, v - |Places(runs[..n])|, q);
    }
  }

  lemma LastLocates(runs: seq<Run>, clusterSize: nat, w: nat, q: nat)
    requires Physical(runs) && runs != [] && w < runs[|runs| - 1].length && q < clusterSize
    ensures var n: nat := |runs| - 1;
            var es, k := M.ExtentsOf(runs, clusterSize), Spot(|Places(runs[..n])| + w, clusterSize, q);
            k < E.Total(es) && E.Locate(es, k) == Spot(runs[n].lcn + w, clusterSize, q)
  {
    hide Places, E.Total, E.Locate, M.ExtentsOf;
    var n: nat := |runs| - 1;
    ExtentsFront(runs, clusterSize);
    ExtentsTotal(runs[..n], clusterSize);
    LastRun(w, runs[n].length, |Places(runs[..n])|, runs[n].lcn, clusterSize, q);
    hide Spot;
    E.LocateAt(M.ExtentsOf(runs, clusterSize), n, Spot(w, clusterSize, q));
  }

  lemma PlacesFront(runs: seq<Run>)
    requires |Places(runs)| > 0
    ensures runs != [] && |Places(runs[..|runs| - 1])| == SumLengths(runs[..|runs| - 1])
    ensures var n: nat := |runs| - 1;
            Places(runs) == Places(runs[..n]) + PlacesOf(runs[n])
  {
  }

  lemma LastRun(w: nat, length: nat, before: nat, lcn: nat, clusterSize: nat, q: nat)
    requires w < length && q < clusterSize
    ensures Spot(w, clusterSize, q) < length * clusterSize
    ensures Spot(before + w, clusterSize, q) == before * clusterSize + Spot(w, clusterSize, q)
    ensures Spot(lcn + w, clusterSize, q) == lcn * clusterSize + Spot(w, clusterSize, q)
  {
    Times(w + 1, length, clusterSize);
  }

  // ---- The copy ------------------------------------------------------------------------------------

  /** After the copy the stream reads as before through the old runs and through the new ones. */
  lemma CopiedContents(before: seq<Byte>, after: seq<Byte>, was: seq<Run>, now: seq<Run>, clusterSize: nat)
    requires Physical(was) && Physical(now) && clusterSize > 0
    requires var src, dst := M.ExtentsOf(was, clusterSize), M.ExtentsOf(now, clusterSize);
             M.Copyable(before, src, dst) && M.SameStream(before, after, src, dst)
    ensures SameContents(before, was, after, was, clusterSize) && SameContents(before, was, after, now, clusterSize)
  {
    hide Places, E.Locate, E.Total, M.ExtentsOf;
    SameLength(before, was, now, clusterSize);
    forall v: nat, q: nat | v < |Places(was)| && q < clusterSize
      ensures SameByte(before, was, after, was, clusterSize, v, q)
      ensures SameByte(before, was, after, now, clusterSize, v, q)
    {
      CopiedByte(before, after, was, now, clusterSize, v, q);
    }
  }

  lemma SameLength(before: seq<Byte>, was: seq<Run>, now: seq<Run>, clusterSize: nat)
    requires Physical(was) && Physical(now) && clusterSize > 0
    requires M.Copyable(before, M.ExtentsOf(was, clusterSize), M.ExtentsOf(now, clusterSize))
    ensures |Places(now)| == |Places(was)|
  {
    hide Places, E.Total, M.ExtentsOf;
    ExtentsTotal(was, clusterSize);
    ExtentsTotal(now, clusterSize);
    SameFactor(SumLengths(was), SumLengths(now), clusterSize);
  }

  lemma SameFactor(a: nat, b: nat, m: nat)
    requires m > 0 && a * m == b * m
    ensures a == b
  {
    Quotient(a, b, m);
    Quotient(b, a, m);
  }

  lemma CopiedByte(before: seq<Byte>, after: seq<Byte>, was: seq<Run>, now: seq<Run>, clusterSize: nat, v: nat, q: nat)
    requires Physical(was) && Physical(now) && v < |Places(was)| == |Places(now)| && q < clusterSize
    requires var src, dst := M.ExtentsOf(was, clusterSize), M.ExtentsOf(now, clusterSize);
             M.Copyable(before, src, dst) && M.SameStream(before, after, src, dst)
    ensures SameByte(before, was, after, was, clusterSize, v, q) && SameByte(before, was, after, now, clusterSize, v, q)
  {
    hide Places, E.Locate, E.Total, M.ExtentsOf, Spot;
    var src, dst, k := M.ExtentsOf(was, clusterSize), M.ExtentsOf(now, clusterSize), Spot(v, clusterSize, q);
    PlaceLocates(was, clusterSize, v, q);
    PlaceLocates(now, clusterSize, v, q);
    E.LocateInside(src, k, |before|);
    E.LocateInside(dst, k, |before|);
    assert E.ReadAt(after, src, k) == E.ReadAt(before, src, k) && E.ReadAt(after, dst, k) == E.ReadAt(before, src, k);
    SpotIs(Places(was)[v].lcn, clusterSize, q);
    SpotIs(Places(now)[v].lcn, clusterSize, q);
  }

  lemma SpotIs(c: nat, clusterSize: nat, q: nat)
    ensures Spot(c, clusterSize, q) == c * clusterSize + q
  {
  }
}
