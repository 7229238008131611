/** Patch lists built from forks, and what each list does to the device it was taken from. */
module HfsPatches {
  import opened Basics
  import opened HfsMove
  import opened HfsFork

  // ---- What a patch list rewrites ------------------------------------------------------------

  predicate Inside(places: seq<nat>, size: nat) {
    forall k | 0 <= k < |places| :: places[k] < size
  }

  /** The bytes behind a list of places. */
  function Read(dev: seq<bv8>, places: seq<nat>): (r: seq<bv8>)
    requires Inside(places, |dev|)
    ensures |r| == |places|
  {
    seq(|places|, k requires 0 <= k < |places| => dev[places[k]])
  }

  /** `out` holds `data` at the places and is the old device elsewhere. */
  ghost predicate Poked(dev: seq<bv8>, places: seq<nat>, data: seq<bv8>, out: seq<bv8>) {
    && |out| == |dev| && |data| == |places| && Inside(places, |dev|)
    && (forall k | 0 <= k < |places| :: out[places[k]] == data[k])
    && (forall i: nat | i < |dev| && i !in places :: out[i] == dev[i])
  }

  /** Patches of this device that put `data` at the places and touch nothing else. */
  ghost predicate Rewrites(ps: seq<Patch>, dev: seq<bv8>, places: seq<nat>, data: seq<bv8>) {
    && TakenFrom(ps, dev) && (forall i: nat | Covered(ps, i) :: i in places)
    && Poked(dev, places, data, Apply(dev, ps, true))
  }

  /** Every patched byte changes. */
  ghost predicate Exact(ps: seq<Patch>, dev: seq<bv8>) {
    forall i: nat | i < |dev| && Covered(ps, i) :: Apply(dev, ps, true)[i] != dev[i]
  }

  /** Every patch changes something. */
  predicate Changing(ps: seq<Patch>) {
    forall n | 0 <= n < |ps| :: ps[n].after != ps[n].before
  }

  ghost predicate Apart(a: seq<nat>, b: seq<nat>) {
    forall k, m | 0 <= k < |a| && 0 <= m < |b| :: a[k] != b[m]
  }

  // ---- Appending -----------------------------------------------------------------------------

  lemma {:induction false} ApplyAppend(dev: seq<bv8>, ps: seq<Patch>, qs: seq<Patch>, useNew: bool)
    ensures Apply(dev, ps + qs, useNew) == Apply(Apply(dev, ps, useNew), qs, useNew)
  {
    if qs == [] {
      assert ps + qs == ps;
    } else {
      ApplyAppend(dev, ps, qs[..|qs| - 1], useNew);
      assert (ps + qs)[..|ps + qs| - 1] == ps + qs[..|qs| - 1];
    }
  }

  lemma AppendCovered(ps: seq<Patch>, qs: seq<Patch>, i: nat)
    ensures Covered(ps + qs, i) <==> Covered(ps, i) || Covered(qs, i)
  {
    var all := ps + qs;
    if n :| 0 <= n < |ps| && Covers(ps[n], i) { assert Covers(all[n], i); }
    if n :| 0 <= n < |qs| && Covers(qs[n], i) { assert Covers(all[|ps| + n], i); }
  }

  lemma NoOverlap(ps: seq<Patch>, qs: seq<Patch>, a: seq<nat>, b: seq<nat>, m: nat, n: nat, i: nat)
    requires Apart(a, b) && m < |ps| && n < |qs|
    requires forall i: nat | Covered(ps, i) :: i in a
    requires forall i: nat | Covered(qs, i) :: i in b
    ensures !(Covers(ps[m], i) && Covers(qs[n], i))
  {
    if Covers(ps[m], i) {
      assert Covered(ps, i);
      assert i !in b;
      assert !Covered(qs, i);
    }
  }

  lemma AppendTaken(ps: seq<Patch>, qs: seq<Patch>, dev: seq<bv8>, a: seq<nat>, b: seq<nat>)
    requires TakenFrom(ps, dev) && TakenFrom(qs, dev) && Apart(a, b)
    requires forall i: nat | Covered(ps, i) :: i in a
    requires forall i: nat | Covered(qs, i) :: i in b
    ensures TakenFrom(ps + qs, dev)
  {
    hide Covered, Apart;
    var all := ps + qs;
    forall m, n, i: nat | 0 <= m < n < |all| ensures !(Covers(all[m], i) && Covers(all[n], i)) {
      if m < |ps| <= n {
        NoOverlap(ps, qs, a, b, m, n - |ps|, i);
      } else if n < |ps| {
        assert all[m] == ps[m] && all[n] == ps[n];
      } else {
        assert all[m] == qs[m - |ps|] && all[n] == qs[n - |ps|];
      }
    }
  }

  lemma AppendByte(ps: seq<Patch>, qs: seq<Patch>, dev: seq<bv8>, a: seq<nat>, x: seq<bv8>, b: seq<nat>, y: seq<bv8>,
                   i: nat)
    requires Rewrites(ps, dev, a, x) && Rewrites(qs, dev, b, y) && Apart(a, b) && i < |dev|
    ensures Apply(dev, ps + qs, true)[i] == if i in b then Apply(dev, qs, true)[i] else Apply(dev, ps, true)[i]
  {
    hide Apply;
    ApplyAppend(dev, ps, qs, true);
    var mid := Apply(dev, ps, true);
    if Covered(qs, i) {
      ApplySame(mid, dev, qs, true, i);
    } else {
      ApplyElsewhere(mid, qs, true, i);
      ApplyElsewhere(dev, qs, true, i);
      if i in b { assert i !in a; }
    }
  }

  /** Two lists for separate places do both rewrites. */
  lemma AppendRewrites(ps: seq<Patch>, qs: seq<Patch>, dev: seq<bv8>, a: seq<nat>, x: seq<bv8>, b: seq<nat>,
                       y: seq<bv8>)
    requires Rewrites(ps, dev, a, x) && Rewrites(qs, dev, b, y) && Apart(a, b)
    ensures Rewrites(ps + qs, dev, a + b, x + y)
    ensures Exact(ps, dev) && Exact(qs, dev) ==> Exact(ps + qs, dev)
    ensures Changing(ps) && Changing(qs) ==> Changing(ps + qs)
  {
    AppendTaken(ps, qs, dev, a, b);
    hide TakenFrom, Apply;
    var out := Apply(dev, ps + qs, true);
    forall i: nat ensures Covered(ps + qs, i) <==> Covered(ps, i) || Covered(qs, i) { AppendCovered(ps, qs, i); }
    forall i: nat | i < |dev|
      ensures out[i] == if i in b then Apply(dev, qs, true)[i] else Apply(dev, ps, true)[i]
    {
      AppendByte(ps, qs, dev, a, x, b, y, i);
    }
    hide Covered;
    forall k | 0 <= k < |a + b| ensures out[(a + b)[k]] == (x + y)[k] {
      if k < |a| { assert a[k] !in b; } else { assert b[k - |a|] in b; }
    }
    forall i: nat | i < |dev| && Covered(ps, i) ensures i !in b { assert i in a; }
  }

  /** Bytes that stay as they are need no patch. */
  lemma NoPatch(dev: seq<bv8>, places: seq<nat>)
    requires Inside(places, |dev|)
    ensures Rewrites([], dev, places, Read(dev, places)) && Exact([], dev)
  {
    assert forall i: nat :: !Covered([], i);
  }

  lemma OneApplied(dev: seq<bv8>, p: Patch)
    ensures Apply(dev, [p], true) == Write(dev, p.offset, p.after)
  {
    assert [p][..|[p]| - 1] == [];
    assert Apply(dev, [], true) == dev;
  }

  lemma OneCovered(p: Patch, i: nat)
    ensures Covered([p], i) <==> Covers(p, i)
  {
    if Covers(p, i) { assert Covers([p][0], i); }
  }

  lemma {:induction false} OnePatch(dev: seq<bv8>, p: Patch)
    requires |p.after| == |p.before| && p.offset + |p.before| <= |dev|
    requires p.before == dev[p.offset..p.offset + |p.before|]
    ensures Rewrites([p], dev, BlocksOf(Extent(p.offset, |p.before|)), p.after)
    ensures (forall q | 0 <= q < |p.before| :: p.before[q] != p.after[q]) ==> Exact([p], dev)
  {
    hide Apply, Covered;
    var places := BlocksOf(Extent(p.offset, |p.before|));
    OneApplied(dev, p);
    forall i: nat ensures Covered([p], i) <==> Covers(p, i) { OneCovered(p, i); }
    forall i: nat ensures i in places <==> Covers(p, i) {
      if Covers(p, i) { assert places[i - p.offset] == i; }
    }
    assert forall i: nat | i < |dev| && Covers(p, i) :: dev[i] == p.before[i - p.offset];
  }

  // ---- Lists built from forks ------------------------------------------------------------------

  /** A fork that lies on the device and uses no byte of it twice. */
  ghost predicate Laid(f: Fork, size: nat) { Inside(Places(f), size) && Distinct(Places(f)) }

  lemma SpanLaid(f: Fork, offset: nat, length: nat, size: nat)
    requires Laid(f, size) && Reaches(f, offset, length)
    ensures Inside(Span(f, offset, length), size) && Distinct(Span(f, offset, length))
  {
  }

  lemma DistinctApart(s: seq<nat>, m: nat, n: nat)
    requires Distinct(s) && m <= n <= |s|
    ensures Apart(s[..m], s[m..n])
  {
  }

  /** The next piece of a list, patched or left alone. */
  lemma PatchedPiece(ps: seq<Patch>, qs: seq<Patch>, dev: seq<bv8>, ds: seq<Extent>, n: nat, data: seq<bv8>)
    requires n < |ds| && |data| == |Blocks(ds)| && Distinct(Blocks(ds)) && Total(ds[..n]) + ds[n].count <= |data|
    requires Rewrites(ps, dev, Blocks(ds)[..Total(ds[..n])], data[..Total(ds[..n])])
    requires Rewrites(qs, dev, BlocksOf(ds[n]), data[Total(ds[..n])..Total(ds[..n]) + ds[n].count])
    ensures Total(ds[..n + 1]) == Total(ds[..n]) + ds[n].count
    ensures Rewrites(ps + qs, dev, Blocks(ds)[..Total(ds[..n + 1])], data[..Total(ds[..n + 1])])
    ensures Exact(ps, dev) && Exact(qs, dev) ==> Exact(ps + qs, dev)
    ensures Changing(ps) && Changing(qs) ==> Changing(ps + qs)
  {
    hide Blocks, Total, Rewrites, Exact, Changing;
    var pos := Total(ds[..n]);
    var end := pos + ds[n].count;
    NextTotal(ds, n);
    SegmentSpan(ds, n, pos, ds[n].count);
    JoinSpan(Blocks(ds), 0, pos, end);
    assert Blocks(ds)[..end] == Blocks(ds)[0..end] && Blocks(ds)[..pos] == Blocks(ds)[0..pos];
    assert data[..pos] + data[pos..end] == data[..end];
    DistinctApart(Blocks(ds), pos, end);
    AppendRewrites(ps, qs, dev, Blocks(ds)[..pos], data[..pos], BlocksOf(ds[n]), data[pos..end]);
  }

  /** A piece of the new data that the device already holds is skipped. */
  lemma SamePiece(dev: seq<bv8>, e: Extent, data: seq<bv8>)
    requires e.start + e.count <= |dev| && data == dev[e.start..e.start + e.count]
    ensures Rewrites([], dev, BlocksOf(e), data)
  {
    NoPatch(dev, BlocksOf(e));
    assert Read(dev, BlocksOf(e)) == data;
  }

  lemma PieceInside(f: Fork, offset: nat, length: nat, ds: seq<Extent>, n: nat, size: nat)
    requires Laid(f, size) && Reaches(f, offset, length) && Blocks(ds) == Span(f, offset, length) && n < |ds|
    requires ds[n].count > 0
    ensures Total(ds[..n]) + ds[n].count <= length && ds[n].start + ds[n].count <= size
  {
    hide Blocks, Total;
    SpanLaid(f, offset, length, size);
    NextTotal(ds, n);
    var last: nat := ds[n].count - 1;
    BlocksAt(ds, n, last);
  }

  /** ForkMap.patches: the pieces that differ, old and new. */
  method ForkPatches(dev: seq<bv8>, f: Fork, offset: nat, data: seq<bv8>) returns (r: Result<seq<Patch>>)
    requires Laid(f, |dev|)
    ensures r.Ok? <==> Reaches(f, offset, |data|)
    ensures r.Ok? ==> Rewrites(r.value, dev, Span(f, offset, |data|), data) && Changing(r.value)
  {
    hide Blocks, Total, Rewrites, Laid, Apply;
    var found := Pieces(f, offset, |data|);
    if found.Error? { return Error; }
    var ds, ps, pos: nat := found.value, [], 0;
    SpanLaid(f, offset, |data|, |dev|);
    assert ds[..0] == [];
    NoBlocks();
    NoPatch(dev, []);
    assert Read(dev, []) == [];
    for n := 0 to |ds|
      invariant pos == Total(ds[..n]) <= |data|
      invariant Rewrites(ps, dev, Blocks(ds)[..pos], data[..pos]) && Changing(ps)
    {
      PieceInside(f, offset, |data|, ds, n, |dev|);
      var was, now := dev[ds[n].start..ds[n].start + ds[n].count], data[pos..pos + ds[n].count];
      var p := Patch(ds[n].start, was, now);
      if was != now {
        OnePatch(dev, p);
        PatchedPiece(ps, [p], dev, ds, n, data);
        ps := ps + [p];
      } else {
        SamePiece(dev, ds[n], now);
        PatchedPiece(ps, [], dev, ds, n, data);
        assert ps + [] == ps;
      }
      pos := pos + ds[n].count;
    }
    assert ds[..|ds|] == ds;
    assert Blocks(ds)[..pos] == Blocks(ds) && data[..pos] == data;
    r := Ok(ps);
  }

  lemma PieceRead(dev: seq<bv8>, ds: seq<Extent>, n: nat)
    requires Inside(Blocks(ds), |dev|) && n < |ds| && ds[n].start + ds[n].count <= |dev|
    ensures Total(ds[..n]) + ds[n].count <= |Blocks(ds)|
    ensures Read(dev, Blocks(ds))[Total(ds[..n])..Total(ds[..n]) + ds[n].count] ==
      dev[ds[n].start..ds[n].start + ds[n].count]
  {
    hide Blocks, Total;
    var pos := Total(ds[..n]);
    NextTotal(ds, n);
    var now := Read(dev, Blocks(ds))[pos..pos + ds[n].count];
    var piece := dev[ds[n].start..ds[n].start + ds[n].count];
    forall k | 0 <= k < ds[n].count ensures now[k] == piece[k] {
      BlocksAt(ds, n, k);
    }
  }

  /** The patches of one run of changed bitmap bytes. */
  method RunPatches(dev: seq<bv8>, f: Fork, start: nat, before: seq<bv8>, after: seq<bv8>) returns (ps: seq<Patch>)
    requires Laid(f, |dev|) && |before| == |after| && Reaches(f, start, |after|)
    requires Inside(Span(f, start, |after|), |dev|) && before == Read(dev, Span(f, start, |after|))
    requires forall q | 0 <= q < |before| :: before[q] != after[q]
    ensures Rewrites(ps, dev, Span(f, start, |after|), after) && Exact(ps, dev)
  {
    hide Blocks, Total, Rewrites, Laid, Apply, Exact;
    var found := Pieces(f, start, |after|);
    var ds, pos: nat := found.value, 0;
    ps := [];
    SpanLaid(f, start, |after|, |dev|);
    assert ds[..0] == [];
    NoBlocks();
    NoPatch(dev, []);
    assert Read(dev, []) == [];
    for n := 0 to |ds|
      invariant pos == Total(ds[..n]) <= |after|
      invariant Rewrites(ps, dev, Blocks(ds)[..pos], after[..pos]) && Exact(ps, dev)
    {
      PieceInside(f, start, |after|, ds, n, |dev|);
      PieceRead(dev, ds, n);
      var p := Patch(ds[n].start, before[pos..pos + ds[n].count], after[pos..pos + ds[n].count]);
      OnePatch(dev, p);
      PatchedPiece(ps, [p], dev, ds, n, after);
      ps := ps + [p];
      pos := pos + ds[n].count;
    }
    assert ds[..|ds|] == ds;
    assert Blocks(ds)[..pos] == Blocks(ds) && after[..pos] == after;
  }

  /** The next stretch of a rewrite that proceeds from left to right. */
  lemma NextStretch(ps: seq<Patch>, qs: seq<Patch>, dev: seq<bv8>, places: seq<nat>, data: seq<bv8>, m: nat, n: nat)
    requires m <= n <= |places| == |data| && Distinct(places)
    requires Rewrites(ps, dev, places[..m], data[..m]) && Rewrites(qs, dev, places[m..n], data[m..n])
    requires Exact(ps, dev) && Exact(qs, dev)
    ensures Rewrites(ps + qs, dev, places[..n], data[..n]) && Exact(ps + qs, dev)
  {
    hide Rewrites, Exact;
    DistinctApart(places, m, n);
    AppendRewrites(ps, qs, dev, places[..m], data[..m], places[m..n], data[m..n]);
    assert places[..m] + places[m..n] == places[..n] && data[..m] + data[m..n] == data[..n];
  }

  lemma SameStretch(dev: seq<bv8>, places: seq<nat>, data: seq<bv8>, m: nat)
    requires m < |places| == |data| && Inside(places, |dev|) && dev[places[m]] == data[m]
    ensures Rewrites([], dev, places[m..m + 1], data[m..m + 1]) && Exact([], dev)
  {
    hide Rewrites, Exact;
    NoPatch(dev, places[m..m + 1]);
    assert Read(dev, places[m..m + 1]) == data[m..m + 1];
  }

  lemma SpanPart(dev: seq<bv8>, f: Fork, before: seq<bv8>, m: nat, n: nat)
    requires m < n <= |before| && Reaches(f, 0, |before|) && Inside(Span(f, 0, |before|), |dev|)
    requires before == Read(dev, Span(f, 0, |before|))
    ensures Reaches(f, m, n - m) && Span(f, 0, |before|)[m..n] == Span(f, m, n - m)
    ensures Inside(Span(f, m, n - m), |dev|) && before[m..n] == Read(dev, Span(f, m, n - m))
  {
    hide Blocks;
  }

  /** bitmap_patches: runs of changed bytes through the allocation file.  The patches
      cover exactly the bytes that change, and applying them stores the new bitmap. */
  method BitmapPatches(dev: seq<bv8>, f: Fork, before: seq<bv8>, after: seq<bv8>) returns (ps: seq<Patch>)
    requires Laid(f, |dev|) && |before| == |after| && Reaches(f, 0, |after|)
    requires Inside(Span(f, 0, |after|), |dev|) && before == Read(dev, Span(f, 0, |after|))
    ensures Rewrites(ps, dev, Span(f, 0, |after|), after) && Exact(ps, dev)
  {
    hide Blocks, Total, Rewrites, Laid, Apply, Exact;
    var index: nat := 0;
    ghost var places := Span(f, 0, |after|);
    SpanLaid(f, 0, |after|, |dev|);
    ps := [];
    NoPatch(dev, []);
    assert Read(dev, []) == [] && places[..0] == [] && after[..0] == [];
    while index < |before|
      invariant index <= |before|
      invariant Rewrites(ps, dev, places[..index], after[..index]) && Exact(ps, dev)
    {
      if before[index] == after[index] {
        SameStretch(dev, places, after, index);
        NextStretch(ps, [], dev, places, after, index, index + 1);
        assert ps + [] == ps;
        index := index + 1;
      } else {
        var start := index;
        while index < |before| && before[index] != after[index]
          invariant start <= index <= |before| && forall i | start <= i < index :: before[i] != after[i]
        {
          index := index + 1;
        }
        SpanPart(dev, f, before, start, index);
        var run := RunPatches(dev, f, start, before[start..index], after[start..index]);
        NextStretch(ps, run, dev, places, after, start, index);
        ps := ps + run;
      }
    }
    assert places[..index] == places && after[..index] == after;
  }

  /** The staged list stays inside the final one when every staged byte differs in the
      final data too. */
  lemma CoversMore(stage: seq<Patch>, final: seq<Patch>, dev: seq<bv8>, places: seq<nat>, s: seq<bv8>, f: seq<bv8>,
                   i: nat)
    requires Rewrites(stage, dev, places, s) && Exact(stage, dev) && Rewrites(final, dev, places, f)
    requires forall k | 0 <= k < |places| && s[k] != dev[places[k]] :: f[k] != dev[places[k]]
    requires Covered(stage, i)
    ensures Covered(final, i)
  {
    hide Apply;
    var n :| 0 <= n < |stage| && Covers(stage[n], i);
    assert i < |dev|;
    var k :| 0 <= k < |places| && places[k] == i;
    assert Apply(dev, stage, true)[places[k]] == s[k];
    assert Apply(dev, final, true)[places[k]] == f[k];
    if !Covered(final, i) { ApplyElsewhere(dev, final, true, i); }
  }
}
