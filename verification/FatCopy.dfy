/** The buffered copy of a cluster mapping: chunks that fit in memory, coalesced extents, disk order. */
module FatCopy {
  import opened Basics
  import opened FatVolume
  import opened FatJournal
  import FatCrash

  /** Clusters [disk, disk + length) of the device at [buffer, buffer + length) of the buffer. */
  datatype IoExtent = IoExtent(disk: nat, buffer: nat, length: nat)

  predicate Holds(e: IoExtent, i: nat) { e.buffer <= i < e.buffer + e.length }

  /** Inside `clusters`, and every position of the extent is the cluster it names. */
  ghost predicate Reads(e: IoExtent, clusters: seq<nat>) {
    e.buffer + e.length <= |clusters| && forall i: nat | Holds(e, i) :: clusters[i] == e.disk + (i - e.buffer)
  }

  ghost predicate Held(es: seq<IoExtent>, i: nat) { exists n :: 0 <= n < |es| && Holds(es[n], i) }

  /** The extents name exactly the clusters of the list, each at its position. */
  ghost predicate Matches(es: seq<IoExtent>, clusters: seq<nat>) {
    && (forall n | 0 <= n < |es| :: Reads(es[n], clusters))
    && (forall i: nat | i < |clusters| :: Held(es, i))
  }

  /** Consecutive, non-empty and never joinable. */
  ghost predicate Coalesced(es: seq<IoExtent>, upTo: nat) {
    && (forall n | 0 <= n < |es| :: es[n].length > 0)
    && (forall n | 0 <= n < |es| - 1 ::
         es[n].buffer + es[n].length == es[n + 1].buffer && es[n].disk + es[n].length != es[n + 1].disk)
    && (es != [] ==> es[0].buffer == 0 && es[|es| - 1].buffer + es[|es| - 1].length == upTo) && (es == [] ==> upTo == 0)
  }

  lemma {:induction false} HeldAppend(es: seq<IoExtent>, e: IoExtent, i: nat)
    ensures Held(es + [e], i) <==> Held(es, i) || Holds(e, i)
  {
    var more := es + [e];
    if n :| 0 <= n < |es| && Holds(es[n], i) { assert Holds(more[n], i); }
    if Holds(e, i) { assert Holds(more[|es|], i); }
  }

  /** The extents of the positions before `first`, which starts a new one. */
  ghost predicate Built(es: seq<IoExtent>, clusters: seq<nat>, first: nat) {
    && first <= |clusters| && (forall n | 0 <= n < |es| :: Reads(es[n], clusters))
    && (forall k: nat | k < first :: Held(es, k))
    && Coalesced(es, first)
    && (first < |clusters| && es != [] ==> es[|es| - 1].disk + es[|es| - 1].length != clusters[first])
  }

  ghost predicate Consecutive(clusters: seq<nat>, first: nat, i: nat) {
    first < i <= |clusters| && forall k: nat | first <= k < i :: clusters[k] == clusters[first] + (k - first)
  }

  lemma {:induction false} CloseExtent(es: seq<IoExtent>, clusters: seq<nat>, first: nat, i: nat)
    requires Built(es, clusters, first) && Consecutive(clusters, first, i)
    requires (i < |clusters| ==> clusters[i] != clusters[i - 1] + 1)
    ensures Built(es + [IoExtent(clusters[first], first, i - first)], clusters, i)
  {
    hide Held, Coalesced;
    var e := IoExtent(clusters[first], first, i - first);
    forall k: nat | k < i ensures Held(es + [e], k) { HeldAppend(es, e, k); }
    assert Reads(e, clusters);
    assert clusters[i - 1] == clusters[first] + (i - 1 - first);
    CoalescedAppend(es, e, clusters, first);
  }

  lemma {:induction false} CoalescedAppend(es: seq<IoExtent>, e: IoExtent, clusters: seq<nat>, first: nat)
    requires Coalesced(es, first) && e.buffer == first && e.length > 0
    requires es != [] ==> es[|es| - 1].disk + es[|es| - 1].length != e.disk
    ensures Coalesced(es + [e], first + e.length)
  {
  }

  lemma NothingBuilt(clusters: seq<nat>)
    ensures Built([], clusters, 0)
  {
  }

  lemma BuiltMatches(es: seq<IoExtent>, clusters: seq<nat>)
    requires Built(es, clusters, |clusters|)
    ensures Matches(es, clusters) && Coalesced(es, |clusters|)
  {
  }

  /** build_cluster_extents */
  method BuildExtents(clusters: seq<nat>) returns (es: seq<IoExtent>)
    ensures Matches(es, clusters) && Coalesced(es, |clusters|)
  {
    hide Built, Matches, Coalesced;
    es := [];
    NothingBuilt(clusters);
    if |clusters| == 0 {
      BuiltMatches(es, clusters);
      return;
    }
    var first, i := 0, 1;
    while i <= |clusters|
      invariant first < i <= |clusters| + 1 && Built(es, clusters, first)
      invariant if i <= |clusters| then Consecutive(clusters, first, i) else first == |clusters|
    {
      if i == |clusters| || clusters[i] != clusters[i - 1] + 1 {
        CloseExtent(es, clusters, first, i);
        es := es + [IoExtent(clusters[first], first, i - first)];
        first := i;
      }
      i := i + 1;
    }
    BuiltMatches(es, clusters);
  }

  method SortByDisk(es: seq<IoExtent>) returns (s: seq<IoExtent>)
    ensures DiskOrder(s) && forall e :: e in s <==> e in es
  {
    hide DiskOrder;
    s := [];
    assert DiskOrder(s) by { NothingOrdered(); }
    for i := 0 to |es|
      invariant DiskOrder(s) && forall e :: e in s <==> e in es[..i]
    {
      var k := 0;
      while k < |s| && s[k].disk <= es[i].disk
        invariant k <= |s| && forall n | 0 <= n < k :: s[n].disk <= es[i].disk
      {
        k := k + 1;
      }
      InsertOrdered(s, k, es[i]);
      assert es[..i + 1] == es[..i] + [es[i]];
      s := s[..k] + [es[i]] + s[k..];
    }
    assert es[..|es|] == es;
  }

  ghost predicate DiskOrder(s: seq<IoExtent>) {
    forall i, j | 0 <= i < j < |s| :: s[i].disk <= s[j].disk
  }

  lemma NothingOrdered()
    ensures DiskOrder([])
  {
  }

  lemma {:induction false} InsertOrdered(s: seq<IoExtent>, k: nat, e: IoExtent)
    requires k <= |s| && DiskOrder(s) && (forall n | 0 <= n < k :: s[n].disk <= e.disk)
    requires (k < |s| ==> e.disk <= s[k].disk)
    ensures DiskOrder(s[..k] + [e] + s[k..])
    ensures forall x :: x in s[..k] + [e] + s[k..] <==> x in s || x == e
  {
    assert s == s[..k] + s[k..];
  }

  lemma {:induction false} SortedMatches(es: seq<IoExtent>, s: seq<IoExtent>, clusters: seq<nat>)
    requires Matches(es, clusters) && forall e :: e in s <==> e in es
    ensures Matches(s, clusters)
  {
    forall n | 0 <= n < |s| ensures Reads(s[n], clusters) {
      assert s[n] in es;
    }
    forall i: nat | i < |clusters| ensures Held(s, i) {
      assert Held(es, i);
      var n :| 0 <= n < |es| && Holds(es[n], i);
      assert es[n] in s;
      var m :| 0 <= m < |s| && s[m] == es[n];
      assert Holds(s[m], i);
    }
  }

  // ---- Transfers -----------------------------------------------------------------------------

  ghost predicate Within(clusters: seq<nat>, count: nat) { forall i | 0 <= i < |clusters| :: clusters[i] < count }

  /** read_extents: the workers complete the extents in no fixed order; the buffer ends up the same. */
  method ReadExtents<T>(disk: array<T>, buffer: array<T>, es: seq<IoExtent>, ghost clusters: seq<nat>)
    requires buffer != disk && Matches(es, clusters) && |clusters| <= buffer.Length && Within(clusters, disk.Length)
    modifies buffer
    ensures forall i | 0 <= i < |clusters| :: buffer[i] == disk[clusters[i]]
  {
    hide Held;
    var pending := set e | e in es;
    while pending != {}
      invariant forall e | e in pending :: e in es
      invariant forall e, i: nat | e in es && e !in pending && Holds(e, i) :: buffer[i] == disk[clusters[i]]
      decreases |pending|
    {
      var e :| e in pending;
      assert Reads(e, clusters);
      ExtentInside(e, clusters, disk.Length);
      forall t | 0 <= t < e.length { buffer[e.buffer + t] := disk[e.disk + t]; }
      forall i: nat | Holds(e, i) ensures buffer[i] == disk[clusters[i]] {
        assert buffer[e.buffer + (i - e.buffer)] == disk[e.disk + (i - e.buffer)];
      }
      pending := pending - {e};
    }
    forall i: nat | i < |clusters| ensures buffer[i] == disk[clusters[i]] {
      var n := Holder(es, clusters, i);
      assert es[n] in es;
    }
  }

  lemma ExtentInside(e: IoExtent, clusters: seq<nat>, count: nat)
    requires Reads(e, clusters) && Within(clusters, count)
    ensures e.length > 0 ==> e.disk + e.length <= count
  {
    if e.length > 0 {
      var i := e.buffer + e.length - 1;
      assert Holds(e, i);
    }
  }

  lemma Holder(es: seq<IoExtent>, clusters: seq<nat>, i: nat) returns (n: nat)
    requires Matches(es, clusters) && i < |clusters|
    ensures n < |es| && Holds(es[n], i)
  {
    assert Held(es, i);
    n :| n < |es| && Holds(es[n], i);
  }

  /** write_extents: every cluster of the list gets its buffer position, no other cluster changes. */
  method WriteExtents<T>(disk: array<T>, buffer: array<T>, es: seq<IoExtent>, ghost clusters: seq<nat>)
    requires buffer != disk && Matches(es, clusters) && |clusters| <= buffer.Length && Within(clusters, disk.Length)
    requires Distinct(clusters)
    modifies disk
    ensures forall i | 0 <= i < |clusters| :: disk[clusters[i]] == buffer[i]
    ensures forall c | 0 <= c < disk.Length && c !in clusters :: disk[c] == old(disk[c])
  {
    hide Held;
    for m := 0 to |es|
      invariant forall k, i: nat | 0 <= k < m && Holds(es[k], i) :: disk[clusters[i]] == buffer[i]
      invariant forall c | 0 <= c < disk.Length && c !in clusters :: disk[c] == old(disk[c])
    {
      var e := es[m];
      assert Reads(e, clusters);
      ExtentInside(e, clusters, disk.Length);
      label before:
      forall t | 0 <= t < e.length { disk[e.disk + t] := buffer[e.buffer + t]; }
      forall i: nat | i < |clusters|
        ensures disk[clusters[i]] == if Holds(e, i) then buffer[i] else old@before(disk[clusters[i]])
      {
        Target(e, clusters, i);
      }
      forall c: nat | e.disk <= c < e.disk + e.length ensures c in clusters {
        assert clusters[e.buffer + (c - e.disk)] == c;
      }
    }
    forall i: nat | i < |clusters| ensures disk[clusters[i]] == buffer[i] {
      var n := Holder(es, clusters, i);
    }
  }

  lemma Target(e: IoExtent, clusters: seq<nat>, i: nat)
    requires Reads(e, clusters) && Distinct(clusters) && i < |clusters|
    ensures e.disk <= clusters[i] < e.disk + e.length <==> Holds(e, i)
    ensures Holds(e, i) ==> clusters[i] - e.disk == i - e.buffer
  {
    if e.disk <= clusters[i] < e.disk + e.length {
      var k := e.buffer + (clusters[i] - e.disk);
      assert Holds(e, k) && clusters[k] == clusters[i];
    }
  }

  /** The mapping copied at once: each destination holds what its source held. */
  ghost predicate Mapped<T>(was: seq<T>, now: seq<T>, sources: seq<nat>, destinations: seq<nat>)
    requires |sources| == |destinations| && Within(sources, |was|) && Within(destinations, |was|)
  {
    && |now| == |was|
    && (forall k | 0 <= k < |sources| :: now[destinations[k]] == was[sources[k]])
    && (forall c | 0 <= c < |was| && c !in destinations :: now[c] == was[c])
  }

  lemma {:induction false} ChunkMapped<T>(was: seq<T>, before: seq<T>, now: seq<T>, sources: seq<nat>,
                                          destinations: seq<nat>, base: nat, end: nat)
    requires base <= end <= |sources| == |destinations| && Within(sources, |was|) && Within(destinations, |was|)
    requires Distinct(destinations)
    requires forall k | 0 <= k < |sources| :: sources[k] !in destinations
    requires |before| == |was| && Mapped(was, before, sources[..base], destinations[..base])
    requires Mapped(before, now, sources[base..end], destinations[base..end])
    ensures Mapped(was, now, sources[..end], destinations[..end])
  {
    forall k | 0 <= k < end ensures now[destinations[k]] == was[sources[k]] {
      if k < base {
        EarlierTarget(was, before, now, sources, destinations, base, end, k);
      } else {
        assert now[destinations[base..end][k - base]] == before[sources[base..end][k - base]];
        assert sources[k] !in destinations[..base];
      }
    }
    forall c | 0 <= c < |was| && c !in destinations[..end] ensures now[c] == was[c] {
      OutsideParts(destinations, base, end, c);
    }
  }

  lemma {:induction false} EarlierTarget<T>(was: seq<T>, before: seq<T>, now: seq<T>, sources: seq<nat>,
                                            destinations: seq<nat>, base: nat, end: nat, k: nat)
    requires k < base <= end <= |sources| == |destinations| && Within(sources, |was|) && Within(destinations, |was|)
    requires Distinct(destinations)
    requires |before| == |was| && Mapped(was, before, sources[..base], destinations[..base])
    requires Mapped(before, now, sources[base..end], destinations[base..end])
    ensures now[destinations[k]] == was[sources[k]]
  {
    assert destinations[k] !in destinations[base..end];
    assert before[destinations[..base][k]] == was[sources[..base][k]];
  }

  lemma OutsideParts(s: seq<nat>, base: nat, end: nat, c: nat)
    requires base <= end <= |s| && c !in s[..end]
    ensures c !in s[..base] && c !in s[base..end]
  {
    assert s[..end] == s[..base] + s[base..end];
  }

  /** copy_cluster_mapping_buffered: chunk by chunk, yet the same as copying the whole mapping at once. */
  method CopyMapping<T(0)>(disk: array<T>, sources: seq<nat>, destinations: seq<nat>, room: nat)
    requires |sources| == |destinations| && Within(sources, disk.Length) && Within(destinations, disk.Length)
    requires Distinct(destinations)
    requires forall k | 0 <= k < |sources| :: sources[k] !in destinations
    modifies disk
    ensures Mapped(old(disk[..]), disk[..], sources, destinations)
  {
    hide Matches, Coalesced, DiskOrder, Mapped;
    var count := |sources|;
    NothingMapped(disk[..], sources, destinations);
    if count == 0 {
      assert sources[..0] == sources && destinations[..0] == destinations;
      return;
    }
    var chunk := if room == 0 then 1 else if room > count then count else room;
    var buffer := new T[chunk];
    var base := 0;
    while base < count
      invariant base <= count && Mapped(old(disk[..]), disk[..], sources[..base], destinations[..base])
    {
      var end := if count - base > chunk then base + chunk else count;
      ghost var before := disk[..];
      MappedSize(old(disk[..]), before, sources[..base], destinations[..base]);
      CopyChunk(disk, buffer, sources[base..end], destinations[base..end]);
      ChunkMapped(old(disk[..]), before, disk[..], sources, destinations, base, end);
      base := end;
    }
    assert sources[..count] == sources && destinations[..count] == destinations;
  }

  lemma NothingMapped<T>(data: seq<T>, sources: seq<nat>, destinations: seq<nat>)
    requires |sources| == |destinations|
    ensures Mapped(data, data, sources[..0], destinations[..0])
  {
  }

  lemma MappedSize<T>(was: seq<T>, now: seq<T>, sources: seq<nat>, destinations: seq<nat>)
    requires |sources| == |destinations| && Within(sources, |was|) && Within(destinations, |was|)
    requires Mapped(was, now, sources, destinations)
    ensures |now| == |was|
  {
  }

  method CopyChunk<T>(disk: array<T>, buffer: array<T>, sources: seq<nat>, destinations: seq<nat>)
    requires buffer != disk && |sources| == |destinations| <= buffer.Length && Within(sources, disk.Length)
    requires Within(destinations, disk.Length)
    requires Distinct(destinations)
    modifies disk, buffer
    ensures Mapped(old(disk[..]), disk[..], sources, destinations)
  {
    hide Matches, Coalesced, DiskOrder;
    var from := BuildExtents(sources);
    var target := BuildExtents(destinations);
    var toRead := SortByDisk(from);
    SortedMatches(from, toRead, sources);
    ReadExtents(disk, buffer, toRead, sources);
    var toWrite := SortByDisk(target);
    SortedMatches(target, toWrite, destinations);
    WriteExtents(disk, buffer, toWrite, destinations);
  }

  /** The buffered copy of a journal's moves is the block-by-block copy of the transaction. */
  lemma {:induction false} MappedIsCopyBlocks(data: seq<Block>, now: seq<Block>, moves: seq<CompactMove>,
                                              sources: seq<nat>, destinations: seq<nat>)
    requires |sources| == |destinations| == |moves| && Within(sources, |data|) && Within(destinations, |data|)
    requires Distinct(destinations)
    requires forall k | 0 <= k < |moves| :: sources[k] == moves[k].source && destinations[k] == moves[k].destination
    requires Mapped(data, now, sources, destinations)
    ensures now == FatCrash.CopyBlocks(data, moves)
  {
    hide FatCrash.CopyBlocks;
    FatCrash.CopyLength(data, moves);
    forall c: nat | c < |data| ensures now[c] == FatCrash.CopyBlocks(data, moves)[c] {
      if c in destinations {
        var k :| 0 <= k < |destinations| && destinations[k] == c;
        FatCrash.CopyMade(data, moves, k);
      } else {
        FatCrash.CopyKept(data, moves, c);
      }
    }
  }
}
