/** A loaded HFS+ volume, one of its forks, and the journal move_one writes for it. */
module HfsVolume {
  import opened Basics
  import opened HfsMove
  import opened HfsFork
  import opened HfsPatches

  // ---- The volume ------------------------------------------------------------------------------

  /** What Volume keeps after loading; forks by the device bytes of their extents. */
  datatype Volume = Volume(blockSize: nat, blocks: nat, free: nat, bitmap: seq<bv8>,
                           allocation: Fork, catalog: Fork, overflow: Fork)

  /** DescriptorRef: eight bytes of a tree record and the extent read from them. */
  datatype Ref = Ref(inOverflow: bool, offset: nat, extent: Extent)

  datatype ForkObject = ForkObject(total: nat, refs: seq<Ref>)

  function Tree(v: Volume, ref: Ref): Fork { if ref.inOverflow then v.overflow else v.catalog }

  function Extents(refs: seq<Ref>): (r: seq<Extent>)
    ensures |r| == |refs|
  {
    seq(|refs|, n requires 0 <= n < |refs| => refs[n].extent)
  }

  /** source_blocks. */
  function Source(o: ForkObject): seq<nat> { Blocks(Extents(o.refs)) }

  function Target(o: ForkObject, start: nat): seq<nat> { BlocksOf(Extent(start, o.total)) }

  predicate Addressed(v: Volume, refs: seq<Ref>) {
    forall n | 0 <= n < |refs| :: Reaches(Tree(v, refs[n]), refs[n].offset, 8)
  }

  function Slot(v: Volume, ref: Ref): (r: seq<nat>)
    requires Reaches(Tree(v, ref), ref.offset, 8)
    ensures |r| == 8
  {
    Span(Tree(v, ref), ref.offset, 8)
  }

  /** Byte `q` of a descriptor lies in the extents-overflow file or the catalog file, `q` bytes behind its offset. */
  lemma SlotPlace(v: Volume, ref: Ref, q: nat)
    requires Reaches(Tree(v, ref), ref.offset, 8) && q < 8
    ensures Slot(v, ref)[q] == Blocks((if ref.inOverflow then v.overflow else v.catalog).segments)[ref.offset + q]
  {
  }

  /** The device bytes of all descriptors, in order. */
  function Slots(v: Volume, refs: seq<Ref>): (r: seq<nat>)
    requires Addressed(v, refs)
    ensures |r| == 8 * |refs|
  {
    if refs == [] then [] else Slots(v, refs[..|refs| - 1]) + Slot(v, refs[|refs| - 1])
  }

  predicate Packable(ds: seq<Extent>) {
    forall n | 0 <= n < |ds| :: ds[n].start < UINT32 && ds[n].count < UINT32
  }

  function Packed(ds: seq<Extent>): (r: seq<bv8>)
    requires Packable(ds)
    ensures |r| == 8 * |ds|
  {
    if ds == [] then [] else Packed(ds[..|ds| - 1]) + PackExtent(ds[|ds| - 1])
  }

  const HEADER: nat := 1024
  const FREE_FIELD: nat := 48

  /** The free-block counters of the primary and the alternate header. */
  function Counters(size: nat): (r: seq<nat>)
    requires size >= HEADER
    ensures |r| == 8
  {
    BlocksOf(Extent(HEADER + FREE_FIELD, 4)) + BlocksOf(Extent(size - HEADER + FREE_FIELD, 4))
  }

  predicate Reachable(v: Volume) { Reaches(v.allocation, 0, |v.bitmap|) }

  function Map(v: Volume): (r: seq<nat>)
    requires Reachable(v)
    ensures |r| == |v.bitmap|
  {
    Span(v.allocation, 0, |v.bitmap|)
  }

  /** What Volume.__init__ checks and reads. */
  ghost predicate Loaded(dev: seq<bv8>, v: Volume) {
    && v.blockSize > 0 && v.blocks * v.blockSize <= |dev| && 1536 <= |dev| && v.blocks < UINT32
    && |v.bitmap| == (v.blocks + 7) / 8 && Reachable(v) && Laid(v.allocation, |dev|)
    && Inside(Map(v), |dev|) && v.bitmap == Read(dev, Map(v))
    && v.free == Be32(dev[1024 + 48..1024 + 52])
  }

  /** Every byte a move rewrites outside the fork's own blocks. */
  function Meta(size: nat, v: Volume, o: ForkObject): seq<nat>
    requires size >= HEADER && Reachable(v) && Addressed(v, o.refs)
  {
    Slots(v, o.refs) + Map(v) + Counters(size)
  }

  function Descriptor(dev: seq<bv8>, v: Volume, ref: Ref): Extent
    requires Reaches(Tree(v, ref), ref.offset, 8) && Inside(Slot(v, ref), |dev|)
  {
    ParseExtent(Read(dev, Slot(v, ref)))
  }

  /** The descriptors on the device say these extents. */
  ghost predicate Describes(dev: seq<bv8>, v: Volume, refs: seq<Ref>, ds: seq<Extent>) {
    && |ds| == |refs| && Addressed(v, refs)
    && forall n | 0 <= n < |refs| :: Inside(Slot(v, refs[n]), |dev|) && Descriptor(dev, v, refs[n]) == ds[n]
  }

  /** The references are what the descriptors on the device say. */
  ghost predicate Parsed(dev: seq<bv8>, v: Volume, o: ForkObject) {
    Laid(v.catalog, |dev|) && Laid(v.overflow, |dev|) && Describes(dev, v, o.refs, Extents(o.refs))
  }

  /** Descriptors, bitmap and counters are separate bytes inside allocated blocks. */
  ghost predicate Separate(size: nat, v: Volume, o: ForkObject) {
    && size >= HEADER && Reachable(v) && Addressed(v, o.refs) && v.blockSize > 0 && v.blocks <= 8 * |v.bitmap|
    && Distinct(Meta(size, v, o)) && Inside(Meta(size, v, o), size)
    && forall p: nat | p in Meta(size, v, o) :: InUse(v, BlockAt(p, v.blockSize))
  }

  /** The block of byte `p`. */
  function BlockAt(p: nat, blockSize: nat): nat
    requires blockSize > 0
  {
    p / blockSize
  }

  /** The fork's blocks are its own and allocated. */
  ghost predicate Owned(v: Volume, o: ForkObject) {
    && v.blocks <= 8 * |v.bitmap| && Distinct(Source(o))
    && forall b: nat | b in Source(o) :: b < v.blocks && Taken(v.bitmap, b)
  }

  /** A consistent volume. */
  ghost predicate Healthy(dev: seq<bv8>, v: Volume, o: ForkObject) {
    Parsed(dev, v, o) && Separate(|dev|, v, o) && Owned(v, o)
  }

  predicate InUse(v: Volume, block: nat)
    requires v.blocks <= 8 * |v.bitmap|
  {
    block < v.blocks ==> Taken(v.bitmap, block)
  }

  /** What move_one asks for before it writes anything. */
  predicate Fits(v: Volume, o: ForkObject, start: nat)
    requires v.blocks <= 8 * |v.bitmap|
  {
    && (forall b: nat | b in Target(o, start) :: b < v.blocks && !Taken(v.bitmap, b))
    && Total(Extents(o.refs)) == o.total && o.total <= v.free
  }

  // ---- The lists -------------------------------------------------------------------------------

  lemma PackedAppend(ds: seq<Extent>, e: Extent)
    requires Packable(ds) && e.start < UINT32 && e.count < UINT32
    ensures Packable(ds + [e]) && Packed(ds + [e]) == Packed(ds) + PackExtent(e)
  {
    hide PackExtent;
    assert (ds + [e])[..|ds|] == ds;
  }

  lemma RefTaken(v: Volume, refs: seq<Ref>, n: nat)
    requires n < |refs| && Addressed(v, refs)
    ensures Addressed(v, refs[..n + 1]) && Addressed(v, refs[..n])
    ensures Slots(v, refs[..n + 1]) == Slots(v, refs[..n]) + Slot(v, refs[n])
    ensures Extents(refs[..n + 1]) == Extents(refs[..n]) + [refs[n].extent]
  {
    assert refs[..n + 1][..n] == refs[..n];
  }

  lemma {:induction false} SlotAt(v: Volume, refs: seq<Ref>, n: nat)
    requires n < |refs| && Addressed(v, refs)
    ensures Slots(v, refs)[8 * n..8 * n + 8] == Slot(v, refs[n])
  {
    var last: nat := |refs| - 1;
    if n < last {
      SlotAt(v, refs[..last], n);
      assert Slots(v, refs)[8 * n..8 * n + 8] == Slots(v, refs[..last])[8 * n..8 * n + 8];
    }
  }

  lemma {:induction false} PackedAt(ds: seq<Extent>, n: nat)
    requires n < |ds| && Packable(ds)
    ensures Packed(ds)[8 * n..8 * n + 8] == PackExtent(ds[n])
  {
    hide PackExtent;
    var last: nat := |ds| - 1;
    if n < last {
      PackedAt(ds[..last], n);
      assert Packed(ds)[8 * n..8 * n + 8] == Packed(ds[..last])[8 * n..8 * n + 8];
    }
  }

  /** The slots so far and the next one share no byte. */
  lemma {:induction false} SlotsPrefix(v: Volume, refs: seq<Ref>, n: nat)
    requires n <= |refs| && Addressed(v, refs)
    ensures Addressed(v, refs[..n]) && Slots(v, refs[..n]) == Slots(v, refs)[..8 * n]
  {
    if n == |refs| {
      assert refs[..n] == refs;
    } else {
      var last: nat := |refs| - 1;
      SlotsPrefix(v, refs[..last], n);
      assert refs[..last][..n] == refs[..n];
      assert Slots(v, refs)[..8 * n] == Slots(v, refs[..last])[..8 * n];
    }
  }

  lemma NextApart(v: Volume, refs: seq<Ref>, n: nat)
    requires n < |refs| && Addressed(v, refs) && Distinct(Slots(v, refs))
    ensures Addressed(v, refs[..n]) && Apart(Slots(v, refs[..n]), Slot(v, refs[n]))
  {
    SlotsPrefix(v, refs, n);
    SlotAt(v, refs, n);
    hide Slots, Slot;
    DistinctApart(Slots(v, refs), 8 * n, 8 * n + 8);
  }

  lemma CountsPackable(ds: seq<Extent>, start: nat, n: nat)
    requires n < |ds|
    ensures Rebuilt(ds[..n + 1], start) == Rebuilt(ds[..n], start) + [Extent(start + Total(ds[..n]), ds[n].count)]
    ensures Total(ds[..n + 1]) == Total(ds[..n]) + ds[n].count
  {
    assert ds[..n + 1][..n] == ds[..n];
  }

  /** descriptor_patches: each descriptor gets the next part of the destination run. */
  method DescriptorPatches(dev: seq<bv8>, v: Volume, o: ForkObject, start: nat) returns (r: Result<seq<Patch>>)
    requires Addressed(v, o.refs) && Laid(v.catalog, |dev|) && Laid(v.overflow, |dev|) && Distinct(Slots(v, o.refs))
    requires start + o.total < UINT32 && forall n | 0 <= n < |o.refs| :: o.refs[n].extent.count < UINT32
    ensures r.Ok? <==> Total(Extents(o.refs)) == o.total
    ensures r.Ok? ==> Packable(Rebuilt(Extents(o.refs), start)) && Changing(r.value)
    ensures r.Ok? ==> Rewrites(r.value, dev, Slots(v, o.refs), Packed(Rebuilt(Extents(o.refs), start)))
  {
    hide Slots, Packed, Rebuilt, Total, Rewrites, Laid, PackExtent, Apart, Reaches;
    var refs, ds := o.refs, Extents(o.refs);
    var ps, cursor := [], start;
    Nothing(dev, v, refs, start);
    for n := 0 to |refs|
      invariant cursor == start + Total(ds[..n]) && Addressed(v, refs[..n]) && Packable(Rebuilt(ds[..n], start))
      invariant Rewrites(ps, dev, Slots(v, refs[..n]), Packed(Rebuilt(ds[..n], start))) && Changing(ps)
    {
      CountsPackable(ds, start, n);
      TotalGrows(ds, n);
      if cursor >= UINT32 { return Error; }
      var e := Extent(cursor, refs[n].extent.count);
      var next := ForkPatches(dev, Tree(v, refs[n]), refs[n].offset, PackExtent(e));
      RefTaken(v, refs, n);
      NextApart(v, refs, n);
      PackedAppend(Rebuilt(ds[..n], start), e);
      AppendRewrites(ps, next.value, dev, Slots(v, refs[..n]), Packed(Rebuilt(ds[..n], start)), Slot(v, refs[n]),
                     PackExtent(e));
      ps := ps + next.value;
      cursor := cursor + refs[n].extent.count;
    }
    assert ds[..|refs|] == ds && refs[..|refs|] == refs;
    r := if cursor != start + o.total then Error else Ok(ps);
  }

  lemma Nothing(dev: seq<bv8>, v: Volume, refs: seq<Ref>, start: nat)
    ensures Addressed(v, refs[..0]) && Extents(refs)[..0] == [] && Total(Extents(refs)[..0]) == 0
    ensures Packable(Rebuilt(Extents(refs)[..0], start)) && Changing([])
    ensures Rewrites([], dev, Slots(v, refs[..0]), Packed(Rebuilt(Extents(refs)[..0], start)))
  {
    hide Rewrites;
    NoPatch(dev, []);
    assert Read(dev, []) == [];
    assert Extents(refs)[..0] == [] && refs[..0] == [];
  }

  function Twice(free: nat): (r: seq<bv8>)
    requires free < UINT32
    ensures |r| == 8
  {
    Pack32(free) + Pack32(free)
  }

  /** header_patches: the same count for both headers. */
  method HeaderPatches(dev: seq<bv8>, free: nat) returns (ps: seq<Patch>)
    requires |dev| >= 1536 && free < UINT32 && Distinct(Counters(|dev|))
    ensures Rewrites(ps, dev, Counters(|dev|), Twice(free))
    ensures forall i: nat | i in Counters(|dev|) :: Covered(ps, i)
  {
    hide Pack32, Apply, Rewrites, Counters;
    var a, b: nat := HEADER + FREE_FIELD, |dev| - HEADER + FREE_FIELD;
    var p := Patch(a, dev[a..a + 4], Pack32(free));
    var q := Patch(b, dev[b..b + 4], Pack32(free));
    CounterParts(|dev|);
    OnePatch(dev, p);
    OnePatch(dev, q);
    DistinctApart(Counters(|dev|), 4, 8);
    AppendRewrites([p], [q], dev, BlocksOf(Extent(a, 4)), Pack32(free), BlocksOf(Extent(b, 4)), Pack32(free));
    ps := [p] + [q];
    forall i: nat | i in Counters(|dev|) ensures Covered(ps, i) { BothCounters(p, q, i); }
  }

  lemma CounterParts(size: nat)
    requires size >= HEADER
    ensures Counters(size)[..4] == BlocksOf(Extent(HEADER + FREE_FIELD, 4))
    ensures Counters(size)[4..8] == BlocksOf(Extent(size - HEADER + FREE_FIELD, 4))
    ensures Counters(size) == Counters(size)[..4] + Counters(size)[4..8]
  {
  }

  lemma BothCounters(p: Patch, q: Patch, i: nat)
    requires |p.before| == 4 && |q.before| == 4
    requires i in BlocksOf(Extent(p.offset, 4)) + BlocksOf(Extent(q.offset, 4))
    ensures Covered([p] + [q], i)
  {
    var ps := [p] + [q];
    assert ps[0] == p && ps[1] == q;
    assert Covers(ps[0], i) || Covers(ps[1], i);
  }

  // ---- The journal -----------------------------------------------------------------------------

  /** make_bitmap_states for this move. */
  ghost predicate States(v: Volume, o: ForkObject, start: nat, stage: seq<bv8>, final: seq<bv8>) {
    Changed(v.bitmap, stage, Target(o, start), true) && Changed(stage, final, Source(o), false)
  }

  /** The journal of a move: each list rewrites its own bytes of this device. */
  ghost predicate Built(dev: seq<bv8>, v: Volume, o: ForkObject, start: nat, stage: seq<bv8>, final: seq<bv8>,
                        j: Journal) {
    && |dev| >= HEADER && Reachable(v) && Addressed(v, o.refs) && o.total <= v.free < UINT32
    && Packable(Rebuilt(Extents(o.refs), start)) && Changing(j.metadata)
    && Rewrites(j.metadata, dev, Slots(v, o.refs), Packed(Rebuilt(Extents(o.refs), start)))
    && Rewrites(j.bitmapStage, dev, Map(v), stage) && Exact(j.bitmapStage, dev)
    && Rewrites(j.bitmapFinal, dev, Map(v), final)
    && Rewrites(j.headersStage, dev, Counters(|dev|), Twice(v.free - o.total))
    && Rewrites(j.headersFinal, dev, Counters(|dev|), Twice(v.free))
    && forall i: nat | i in Counters(|dev|) :: Covered(j.headersFinal, i)
  }

  lemma PartsApart(size: nat, v: Volume, o: ForkObject)
    requires Separate(size, v, o)
    ensures Distinct(Slots(v, o.refs)) && Distinct(Counters(size)) && Apart(Slots(v, o.refs), Map(v))
    ensures Apart(Slots(v, o.refs), Counters(size)) && Apart(Map(v), Counters(size))
    ensures Apart(Slots(v, o.refs) + Map(v), Counters(size))
  {
    hide Slots, Map, Counters, InUse;
    ThreeParts(Slots(v, o.refs), Map(v), Counters(size));
  }

  lemma ThreeParts(a: seq<nat>, b: seq<nat>, c: seq<nat>)
    requires Distinct(a + b + c)
    ensures Distinct(a) && Distinct(c) && Apart(a, b) && Apart(a, c) && Apart(b, c) && Apart(a + b, c)
  {
    var s, m := a + b + c, |a| + |b|;
    assert forall k | 0 <= k < |a| :: s[k] == a[k];
    assert forall k | 0 <= k < |b| :: s[|a| + k] == b[k];
    assert forall k | 0 <= k < |c| :: s[m + k] == c[k];
  }

  lemma PlacesDisjoint(ps: seq<Patch>, qs: seq<Patch>, dev: seq<bv8>, a: seq<nat>, x: seq<bv8>, b: seq<nat>,
                       y: seq<bv8>)
    requires Rewrites(ps, dev, a, x) && Rewrites(qs, dev, b, y) && Apart(a, b)
    ensures Disjoint(ps, qs)
  {
    hide TakenFrom, Poked, Covered;
    forall i: nat ensures !(Covered(ps, i) && Covered(qs, i)) {
      if Covered(ps, i) { assert i in a && i !in b; }
    }
  }

  /** The final bitmap patches cover every byte the staged ones touch. */
  lemma StageInsideFinal(dev: seq<bv8>, v: Volume, o: ForkObject, start: nat, stage: seq<bv8>, final: seq<bv8>,
                         j: Journal, i: nat)
    requires Built(dev, v, o, start, stage, final, j) && States(v, o, start, stage, final) && Owned(v, o)
    requires Fits(v, o, start)
    requires Inside(Map(v), |dev|) && Read(dev, Map(v)) == v.bitmap && Covered(j.bitmapStage, i)
    ensures Covered(j.bitmapFinal, i)
  {
    hide Rewrites, Exact, Covered, Taken, Slots, Packed, Counters, Map, Rebuilt, BlocksOf, Blocks, Twice, Reaches;
    assert |stage| == |v.bitmap| == |final|;
    hide Changed;
    forall k: nat | k < |Map(v)| && stage[k] != dev[Map(v)[k]] ensures final[k] != dev[Map(v)[k]] {
      FinalCoversStage(v.bitmap, stage, final, Source(o), Target(o, start), k);
    }
    CoversMore(j.bitmapStage, j.bitmapFinal, dev, Map(v), stage, final, i);
  }

  /** The journal a move builds is ready for its device. */
  lemma BuiltReady(dev: seq<bv8>, v: Volume, o: ForkObject, start: nat, stage: seq<bv8>, final: seq<bv8>, j: Journal)
    requires Built(dev, v, o, start, stage, final, j) && States(v, o, start, stage, final)
    requires Separate(|dev|, v, o) && Owned(v, o) && Fits(v, o, start)
    requires Inside(Map(v), |dev|) && Read(dev, Map(v)) == v.bitmap
    ensures Ready(dev, j)
  {
    hide Slots, Packed, Counters, Map, Rebuilt, Twice, States, Separate, Owned, Fits, Exact, Apart, Disjoint, TakenFrom,
         Covered, Poked, Inside, Reaches;
    PartsApart(|dev|, v, o);
    var packed := Packed(Rebuilt(Extents(o.refs), start));
    PlacesDisjoint(j.metadata, j.bitmapFinal, dev, Slots(v, o.refs), packed, Map(v), final);
    PlacesDisjoint(j.metadata, j.headersFinal, dev, Slots(v, o.refs), packed, Counters(|dev|), Twice(v.free));
    PlacesDisjoint(j.bitmapFinal, j.headersFinal, dev, Map(v), final, Counters(|dev|), Twice(v.free));
    forall i: nat | Covered(j.bitmapStage, i) ensures Covered(j.bitmapFinal, i) {
      StageInsideFinal(dev, v, o, start, stage, final, j, i);
    }
  }

  // ---- Another device that agrees on these bytes -------------------------------------------------

  lemma RewritesSame(ps: seq<Patch>, dev: seq<bv8>, x: seq<bv8>, places: seq<nat>, data: seq<bv8>)
    requires Rewrites(ps, dev, places, data) && |x| == |dev|
    requires forall k | 0 <= k < |places| :: x[places[k]] == dev[places[k]]
    ensures Rewrites(ps, x, places, data)
    ensures Exact(ps, dev) ==> Exact(ps, x)
  {
    hide Apply;
    forall n | 0 <= n < |ps| ensures ps[n].before == x[ps[n].offset..ps[n].offset + |ps[n].before|] {
      SameBefore(ps, dev, x, places, n);
    }
    forall i: nat | i < |dev|
      ensures Apply(x, ps, true)[i] == if i in places then Apply(dev, ps, true)[i] else x[i]
    {
      if i in places { ApplySame(x, dev, ps, true, i); } else { ApplyElsewhere(x, ps, true, i); }
    }
  }

  lemma SameBefore(ps: seq<Patch>, dev: seq<bv8>, x: seq<bv8>, places: seq<nat>, n: nat)
    requires TakenFrom(ps, dev) && n < |ps| && |x| == |dev| && (forall i: nat | Covered(ps, i) :: i in places)
    requires Inside(places, |dev|) && forall k | 0 <= k < |places| :: x[places[k]] == dev[places[k]]
    ensures ps[n].before == x[ps[n].offset..ps[n].offset + |ps[n].before|]
  {
    var p := ps[n];
    var now := x[p.offset..p.offset + |p.before|];
    forall q | 0 <= q < |p.before| ensures now[q] == p.before[q] {
      assert Covers(ps[n], p.offset + q);
      assert Covered(ps, p.offset + q);
    }
  }

  ghost predicate Agree(dev: seq<bv8>, x: seq<bv8>, places: seq<nat>) {
    |x| == |dev| && Inside(places, |dev|) && forall k | 0 <= k < |places| :: x[places[k]] == dev[places[k]]
  }

  /** The journal serves every device that agrees on the bytes it rewrites. */
  lemma BuiltSame(dev: seq<bv8>, x: seq<bv8>, v: Volume, o: ForkObject, start: nat, stage: seq<bv8>, final: seq<bv8>,
                  j: Journal)
    requires Built(dev, v, o, start, stage, final, j)
    requires Agree(dev, x, Slots(v, o.refs)) && Agree(dev, x, Map(v)) && Agree(dev, x, Counters(|dev|))
    ensures Built(x, v, o, start, stage, final, j)
  {
    hide Slots, Packed, Counters, Map, Rebuilt, Twice, Rewrites, Exact, Covered, Inside, Reaches, Changing;
    RewritesSame(j.metadata, dev, x, Slots(v, o.refs), Packed(Rebuilt(Extents(o.refs), start)));
    RewritesSame(j.bitmapStage, dev, x, Map(v), stage);
    RewritesSame(j.bitmapFinal, dev, x, Map(v), final);
    RewritesSame(j.headersStage, dev, x, Counters(|dev|), Twice(v.free - o.total));
    RewritesSame(j.headersFinal, dev, x, Counters(|dev|), Twice(v.free));
  }
}
