/** move_one as a whole: the copy, the journalled transaction, and what recovery finds. */
module HfsRelocation {
  import opened Arithmetic
  import opened Basics
  import opened ClusterLayout
  import opened HfsMove
  import opened HfsFork
  import opened HfsPatches
  import opened HfsVolume

  // ---- Copying blocks ----------------------------------------------------------------------------

  function Block(dev: seq<bv8>, b: nat, size: nat): (r: seq<bv8>)
    ensures b * size + size <= |dev| ==> |r| == size && forall q | 0 <= q < size :: r[q] == dev[b * size + q]
  {
    if b * size + size <= |dev| then dev[b * size..b * size + size] else []
  }

  /** The blocks lie on a device of `size` bytes. */
  ghost predicate Whole(blocks: seq<nat>, blockSize: nat, size: nat) {
    forall k | 0 <= k < |blocks| :: blocks[k] * blockSize + blockSize <= size
  }

  lemma WholeBelow(blocks: seq<nat>, n: nat, blockSize: nat, size: nat)
    requires n * blockSize <= size && forall k | 0 <= k < |blocks| :: blocks[k] < n
    ensures Whole(blocks, blockSize, size)
  {
    forall k | 0 <= k < |blocks| ensures blocks[k] * blockSize + blockSize <= size {
      assert (blocks[k] + 1) * blockSize <= n * blockSize;
    }
  }

  lemma InBlock(i: nat, b: nat, size: nat)
    requires size > 0
    ensures i / size == b <==> b * size <= i < b * size + size
  {
    if b * size <= i < b * size + size { Remainder(i, size, b, i - b * size); }
  }

  lemma BlockFits(b: nat, blocks: nat, size: nat, bytes: nat)
    requires b < blocks && blocks * size <= bytes
    ensures b * size + size <= bytes
  {
    Times(b + 1, blocks, size);
  }

  /** Only the bytes of the written block change. */
  lemma WrittenBlock(dev: seq<bv8>, b: nat, size: nat, data: seq<bv8>)
    requires size > 0 && |data| == size && b * size + size <= |dev|
    ensures Block(Write(dev, b * size, data), b, size) == data
    ensures forall i: nat | i < |dev| && i / size != b :: Write(dev, b * size, data)[i] == dev[i]
  {
    var out := Write(dev, b * size, data);
    forall i: nat | i < |dev| && i / size != b ensures out[i] == dev[i] { InBlock(i, b, size); }
  }

  lemma SameBlock(dev: seq<bv8>, out: seq<bv8>, b: nat, size: nat)
    requires size > 0 && |out| == |dev| && forall i: nat | i < |dev| && i / size == b :: out[i] == dev[i]
    ensures Block(out, b, size) == Block(dev, b, size)
  {
    if b * size + size <= |dev| {
      var x, y := Block(out, b, size), Block(dev, b, size);
      forall q | 0 <= q < size ensures x[q] == y[q] { InBlock(b * size + q, b, size); }
    }
  }

  ghost predicate OnlyBlocks(dev: seq<bv8>, out: seq<bv8>, blocks: seq<nat>, size: nat)
    requires size > 0
  {
    |out| == |dev| && forall i: nat | i < |dev| && i / size !in blocks :: out[i] == dev[i]
  }

  ghost predicate Copied(dev: seq<bv8>, out: seq<bv8>, src: seq<nat>, dst: seq<nat>, size: nat) {
    && size > 0 && |src| == |dst| && OnlyBlocks(dev, out, dst, size)
    && forall k | 0 <= k < |dst| :: Block(out, dst[k], size) == Block(dev, src[k], size)
  }

  /** read_blocks then write_blocks: everything is read before anything is written. */
  method CopyBlocks(dev: seq<bv8>, src: seq<nat>, dst: seq<nat>, size: nat, blocks: nat) returns (out: seq<bv8>)
    requires size > 0 && |src| == |dst| && Distinct(dst) && blocks * size <= |dev|
    requires (forall k | 0 <= k < |src| :: src[k] < blocks) && (forall k | 0 <= k < |dst| :: dst[k] < blocks)
    ensures Copied(dev, out, src, dst, size)
  {
    hide Block, Write;
    var payload := seq(|src|, k requires 0 <= k < |src| => Block(dev, src[k], size));
    out := dev;
    for k := 0 to |dst|
      invariant OnlyBlocks(dev, out, dst[..k], size)
      invariant forall m | 0 <= m < k :: Block(out, dst[m], size) == payload[m]
    {
      BlockFits(dst[k], blocks, size, |dev|);
      BlockSize(dev, src[k], blocks, size);
      ghost var was := out;
      out := Write(out, dst[k] * size, payload[k]);
      WrittenBlock(was, dst[k], size, payload[k]);
      assert dst[..k + 1] == dst[..k] + [dst[k]];
      forall m | 0 <= m < k ensures Block(out, dst[m], size) == payload[m] { SameBlock(was, out, dst[m], size); }
    }
    assert dst[..|dst|] == dst;
  }

  lemma BlockSize(dev: seq<bv8>, b: nat, blocks: nat, size: nat)
    requires b < blocks && blocks * size <= |dev|
    ensures |Block(dev, b, size)| == size
  {
    BlockFits(b, blocks, size, |dev|);
  }

  // ---- The device and its journal ------------------------------------------------------------------

  datatype Stage = Prepared | CopyDone | DestinationReady | Switching | SwitchDone | Complete

  /** The journal file. */
  datatype File = Missing | Saved(journal: Journal, stage: Stage)

  /** A stretch of the run: the device moves from `low` to `high` while the journal file
      says `file`.  A power failure leaves any selection of the bytes being written. */
  datatype Window = Window(low: seq<bv8>, high: seq<bv8>, file: File)

  class Device {
    var bytes: seq<bv8>
    var file: File
    ghost var durable: seq<bv8>
    ghost var windows: seq<Window>

    constructor (b: seq<bv8>)
      ensures bytes == b == durable && file == Missing && windows == []
    {
      bytes, file, durable, windows := b, Missing, b, [];
    }

    method Sync()
      modifies this
      ensures bytes == old(bytes) == durable && file == old(file)
      ensures windows == old(windows) + [Window(old(durable), bytes, file)]
    {
      windows, durable := windows + [Window(durable, bytes, file)], bytes;
    }

    /** journal_write, only ever called on a synced device. */
    method SaveJournal(j: Journal, stage: Stage)
      requires durable == bytes
      modifies this
      ensures bytes == old(bytes) == durable && file == Saved(j, stage)
      ensures windows == old(windows) + [Window(bytes, bytes, file)]
    {
      file := Saved(j, stage);
      windows := windows + [Window(bytes, bytes, file)];
    }
  }

  /** The stretches of a move after the copy, in order. */
  function LateWindows(copied: seq<bv8>, j: Journal): (r: seq<Window>)
    ensures |r| == 7
  {
    var staged, switched, finished := Staged(copied, j), Switched(copied, j), Finished(copied, j);
    [Window(copied, staged, Saved(j, CopyDone)),
     Window(staged, staged, Saved(j, DestinationReady)), Window(staged, staged, Saved(j, Switching)),
     Window(staged, switched, Saved(j, Switching)), Window(switched, switched, Saved(j, SwitchDone)),
     Window(switched, finished, Saved(j, SwitchDone)), Window(finished, finished, Saved(j, Complete))]
  }

  /** Every stretch of a move, in order. */
  function Windows(dev: seq<bv8>, copied: seq<bv8>, j: Journal): (r: seq<Window>)
    ensures |r| == 10
  {
    [Window(dev, dev, Saved(j, Prepared)), Window(dev, copied, Saved(j, Prepared)),
     Window(copied, copied, Saved(j, CopyDone))] + LateWindows(copied, j)
  }

  /** The stages recovery takes as proof of the switch. */
  predicate Sealed(file: File) { file.Saved? && (file.stage == SwitchDone || file.stage == Complete) }

  // ---- What a device holds -------------------------------------------------------------------------

  function Counter(dev: seq<bv8>, offset: nat): nat
    requires offset + 4 <= |dev|
  {
    Be32(dev[offset..offset + 4])
  }

  /** `r` holds the fork with extents `ds` and the contents it had on `dev`, the bitmap
      `bits` and the free count of `dev`; nothing else differs outside the destination. */
  ghost predicate Holds(dev: seq<bv8>, r: seq<bv8>, v: Volume, o: ForkObject, start: nat, ds: seq<Extent>,
                        bits: seq<bv8>) {
    && |r| == |dev| >= 1536 && Describes(r, v, o.refs, ds) && v.blockSize > 0
    && |Blocks(ds)| == |Source(o)|
    && Whole(Source(o), v.blockSize, |dev|) && Whole(Blocks(ds), v.blockSize, |r|)
    && (forall k | 0 <= k < |Blocks(ds)| ::
         Block(r, Blocks(ds)[k], v.blockSize) == Block(dev, Source(o)[k], v.blockSize))
    && Reachable(v) && Inside(Map(v), |r|) && Read(r, Map(v)) == bits
    && Counter(r, 1024 + 48) == v.free
    && forall i: nat | i < |dev| && i / v.blockSize !in Target(o, start) && i !in Meta(|dev|, v, o) :: r[i] == dev[i]
  }

  /** The fork is where it was, and every byte outside the free destination is as it was,
      both headers included. */
  ghost predicate Unmoved(dev: seq<bv8>, r: seq<bv8>, v: Volume, o: ForkObject, start: nat) {
    Holds(dev, r, v, o, start, Extents(o.refs), v.bitmap) && OnlyBlocks(dev, r, Target(o, start), v.blockSize)
  }

  /** The fork is one run at the destination; the bitmap exchanged the two sets of blocks
      and both headers give the free count. */
  ghost predicate Relocated(dev: seq<bv8>, r: seq<bv8>, v: Volume, o: ForkObject, start: nat, bits: seq<bv8>) {
    && Holds(dev, r, v, o, start, Rebuilt(Extents(o.refs), start), bits)
    && Blocks(Rebuilt(Extents(o.refs), start)) == Target(o, start)
    && TakenSet(bits) == TakenSet(v.bitmap) + Elements(Target(o, start)) - Elements(Source(o))
    && |TakenSet(bits)| == |TakenSet(v.bitmap)|
    && Counter(r, |r| - 1024 + 48) == v.free
  }

  // ---- The destination is free -----------------------------------------------------------------------

  lemma MetaOutside(dev: seq<bv8>, v: Volume, o: ForkObject, start: nat, p: nat)
    requires Separate(|dev|, v, o) && Fits(v, o, start) && p in Meta(|dev|, v, o)
    ensures p / v.blockSize !in Target(o, start)
  {
    hide Meta, Taken, BlocksOf, Distinct;
    assert InUse(v, BlockAt(p, v.blockSize));
  }

  lemma SourceOutside(v: Volume, o: ForkObject, start: nat, b: nat)
    requires Owned(v, o) && Fits(v, o, start) && b in Source(o)
    ensures b !in Target(o, start)
  {
    hide Taken, BlocksOf, Blocks, Distinct;
  }

  /** A device changed only inside the destination agrees on everything a move rewrites. */
  lemma MetaAgrees(dev: seq<bv8>, x: seq<bv8>, v: Volume, o: ForkObject, start: nat)
    requires Separate(|dev|, v, o) && Fits(v, o, start) && OnlyBlocks(dev, x, Target(o, start), v.blockSize)
    ensures Agree(dev, x, Meta(|dev|, v, o))
    ensures Agree(dev, x, Slots(v, o.refs)) && Agree(dev, x, Map(v)) && Agree(dev, x, Counters(|dev|))
  {
    hide Slots, Map, Counters, Target, Fits, Reaches;
    var all := Meta(|dev|, v, o);
    forall k | 0 <= k < |all| ensures x[all[k]] == dev[all[k]] { MetaOutside(dev, v, o, start, all[k]); }
    hide Separate, OnlyBlocks;
    AgreeParts(dev, x, Slots(v, o.refs), Map(v), Counters(|dev|));
  }

  lemma AgreeParts(dev: seq<bv8>, x: seq<bv8>, a: seq<nat>, b: seq<nat>, c: seq<nat>)
    requires Agree(dev, x, a + b + c)
    ensures Agree(dev, x, a) && Agree(dev, x, b) && Agree(dev, x, c)
  {
    var s, m := a + b + c, |a| + |b|;
    assert forall k | 0 <= k < |a| :: s[k] == a[k];
    assert forall k | 0 <= k < |b| :: s[|a| + k] == b[k];
    assert forall k | 0 <= k < |c| :: s[m + k] == c[k];
  }

  lemma SameRead(dev: seq<bv8>, x: seq<bv8>, places: seq<nat>)
    requires Agree(dev, x, places)
    ensures Read(x, places) == Read(dev, places)
  {
  }

  /** The journal is ready for the device at every moment of the copy. */
  lemma ReadyWhileCopying(dev: seq<bv8>, x: seq<bv8>, v: Volume, o: ForkObject, start: nat, stage: seq<bv8>,
                          final: seq<bv8>, j: Journal)
    requires Loaded(dev, v) && Healthy(dev, v, o) && Fits(v, o, start)
    requires OnlyBlocks(dev, x, Target(o, start), v.blockSize)
    requires Built(dev, v, o, start, stage, final, j) && States(v, o, start, stage, final)
    ensures Ready(x, j) && Built(x, v, o, start, stage, final, j)
  {
    hide Built, Separate, Owned, Fits, Describes, States, Ready, Agree, Slots, Map, Counters, Meta;
    MetaAgrees(dev, x, v, o, start);
    BuiltSame(dev, x, v, o, start, stage, final, j);
    assert |x| == |dev|;
    AgreeInside(dev, x, Map(v));
    SameRead(dev, x, Map(v));
    BuiltReady(x, v, o, start, stage, final, j);
  }

  lemma AgreeInside(dev: seq<bv8>, x: seq<bv8>, places: seq<nat>)
    requires Agree(dev, x, places)
    ensures |x| == |dev| && Inside(places, |x|)
  {
  }

  // ---- Not moved -----------------------------------------------------------------------------------

  lemma KeptDescriptors(dev: seq<bv8>, x: seq<bv8>, v: Volume, refs: seq<Ref>, ds: seq<Extent>)
    requires Describes(dev, v, refs, ds) && Agree(dev, x, Slots(v, refs))
    ensures Describes(x, v, refs, ds)
  {
    hide ParseExtent, Slots, Slot;
    forall n | 0 <= n < |refs| ensures Inside(Slot(v, refs[n]), |x|) && Descriptor(x, v, refs[n]) == ds[n] {
      SlotAt(v, refs, n);
      AgreeSlice(dev, x, Slots(v, refs), 8 * n, 8 * n + 8);
      SameRead(dev, x, Slot(v, refs[n]));
    }
  }

  lemma AgreeSlice(dev: seq<bv8>, x: seq<bv8>, places: seq<nat>, a: nat, b: nat)
    requires Agree(dev, x, places) && a <= b <= |places|
    ensures Agree(dev, x, places[a..b])
  {
  }

  lemma KeptCounter(dev: seq<bv8>, x: seq<bv8>)
    requires |dev| >= 1536 && Agree(dev, x, Counters(|dev|))
    ensures |x| == |dev| && Counter(x, HEADER + FREE_FIELD) == Counter(dev, HEADER + FREE_FIELD)
  {
    hide Be32;
    var a, b := x[HEADER + FREE_FIELD..HEADER + FREE_FIELD + 4], dev[HEADER + FREE_FIELD..HEADER + FREE_FIELD + 4];
    forall q | 0 <= q < 4 ensures a[q] == b[q] { assert Counters(|dev|)[q] == HEADER + FREE_FIELD + q; }
    assert a == b;
  }

  lemma BothWhole(dev: seq<bv8>, v: Volume, o: ForkObject, start: nat)
    requires Loaded(dev, v) && Healthy(dev, v, o) && Fits(v, o, start)
    ensures Whole(Source(o), v.blockSize, |dev|) && Whole(Target(o, start), v.blockSize, |dev|)
  {
    hide Separate, Target, Source, Taken, Parsed;
    assert forall k | 0 <= k < |Source(o)| :: Source(o)[k] in Source(o);
    assert forall k | 0 <= k < |Target(o, start)| :: Target(o, start)[k] in Target(o, start);
    WholeBelow(Source(o), v.blocks, v.blockSize, |dev|);
    WholeBelow(Target(o, start), v.blocks, v.blockSize, |dev|);
  }

  /** A device changed only inside the free destination still holds the old fork. */
  lemma StillHolds(dev: seq<bv8>, x: seq<bv8>, v: Volume, o: ForkObject, start: nat)
    requires Loaded(dev, v) && Healthy(dev, v, o) && Fits(v, o, start)
    requires OnlyBlocks(dev, x, Target(o, start), v.blockSize)
    ensures Unmoved(dev, x, v, o, start)
  {
    hide Separate, Owned, Fits, Agree, Slots, Map, Counters, Meta, Descriptor, Block, Laid, Target, Blocks, Whole;
    BothWhole(dev, v, o, start);
    MetaAgrees(dev, x, v, o, start);
    KeptDescriptors(dev, x, v, o.refs, Extents(o.refs));
    KeptCounter(dev, x);
    AgreeInside(dev, x, Map(v));
    SameRead(dev, x, Map(v));
    forall k | 0 <= k < |Source(o)|
      ensures Block(x, Source(o)[k], v.blockSize) == Block(dev, Source(o)[k], v.blockSize)
    {
      SourceOutside(v, o, start, Source(o)[k]);
      SameBlock(dev, x, Source(o)[k], v.blockSize);
    }
  }

  // ---- Moved -----------------------------------------------------------------------------------------

  function NewMeta(v: Volume, o: ForkObject, start: nat, final: seq<bv8>): seq<bv8>
    requires Packable(Rebuilt(Extents(o.refs), start)) && v.free < UINT32
  {
    Packed(Rebuilt(Extents(o.refs), start)) + final + Twice(v.free)
  }

  /** The moved device differs from the copied one exactly in descriptors, bitmap and
      counters, which hold their final contents. */
  lemma MovedIsPoked(x: seq<bv8>, v: Volume, o: ForkObject, start: nat, stage: seq<bv8>, final: seq<bv8>, j: Journal)
    requires Separate(|x|, v, o) && Built(x, v, o, start, stage, final, j)
    ensures Poked(x, Meta(|x|, v, o), NewMeta(v, o, start, final), Moved(x, j))
  {
    hide Slots, Map, Counters, Packed, Rebuilt, Twice, Separate, Apply, Apart, TakenFrom, Covered, Poked, Exact,
         Changing, Reaches;
    PartsApart(|x|, v, o);
    var packed := Packed(Rebuilt(Extents(o.refs), start));
    AppendRewrites(j.metadata, j.bitmapFinal, x, Slots(v, o.refs), packed, Map(v), final);
    AppendRewrites(j.metadata + j.bitmapFinal, j.headersFinal, x, Slots(v, o.refs) + Map(v), packed + final,
                   Counters(|x|), Twice(v.free));
    ApplyAppend(x, j.metadata, j.bitmapFinal, true);
    ApplyAppend(x, j.metadata + j.bitmapFinal, j.headersFinal, true);
  }

  /** Reading part of what was written. */
  lemma PokedRead(x: seq<bv8>, places: seq<nat>, data: seq<bv8>, r: seq<bv8>, a: nat, b: nat)
    requires Poked(x, places, data, r) && a <= b <= |places|
    ensures Inside(places[a..b], |r|) && Read(r, places[a..b]) == data[a..b]
  {
  }

  lemma PokedSize(x: seq<bv8>, places: seq<nat>, data: seq<bv8>, r: seq<bv8>)
    requires Poked(x, places, data, r)
    ensures |r| == |x|
  {
  }

  lemma PokedParts(x: seq<bv8>, a: seq<nat>, b: seq<nat>, c: seq<nat>, s: seq<bv8>, t: seq<bv8>, u: seq<bv8>,
                   r: seq<bv8>)
    requires Poked(x, a + b + c, s + t + u, r) && |s| == |a| && |t| == |b| && |u| == |c|
    ensures Inside(a, |r|) && Read(r, a) == s && Inside(b, |r|) && Read(r, b) == t && Inside(c, |r|) && Read(r, c) == u
  {
    hide Poked, Read, Inside;
    var all, data, m := a + b + c, s + t + u, |a| + |b|;
    PokedRead(x, all, data, r, 0, |a|);
    PokedRead(x, all, data, r, |a|, m);
    PokedRead(x, all, data, r, m, |all|);
    assert all[0..|a|] == a && all[|a|..m] == b && all[m..|all|] == c;
    assert data[0..|a|] == s && data[|a|..m] == t && data[m..|all|] == u;
  }

  lemma {:induction false} PackedDescribes(r: seq<bv8>, v: Volume, refs: seq<Ref>, ds: seq<Extent>)
    requires |ds| == |refs| && Addressed(v, refs) && Packable(ds)
    requires Inside(Slots(v, refs), |r|) && Read(r, Slots(v, refs)) == Packed(ds)
    ensures Describes(r, v, refs, ds)
  {
    hide ParseExtent, PackExtent, Slots, Slot, Packed;
    forall n | 0 <= n < |refs| ensures Inside(Slot(v, refs[n]), |r|) && Descriptor(r, v, refs[n]) == ds[n] {
      SlotAt(v, refs, n);
      PackedAt(ds, n);
      assert Read(r, Slot(v, refs[n])) == Read(r, Slots(v, refs))[8 * n..8 * n + 8];
      ExtentRoundTrip(ds[n]);
    }
  }

  lemma CountersRead(r: seq<bv8>, free: nat)
    requires |r| >= 1536 && free < UINT32 && Inside(Counters(|r|), |r|) && Read(r, Counters(|r|)) == Twice(free)
    ensures Counter(r, HEADER + FREE_FIELD) == free && Counter(r, |r| - HEADER + FREE_FIELD) == free
  {
    hide Be32, Pack32;
    NumberRoundTrip(free);
    var a, b: nat := HEADER + FREE_FIELD, |r| - HEADER + FREE_FIELD;
    var was := Read(r, Counters(|r|));
    assert was[..4] == Pack32(free) && was[4..] == Pack32(free);
    forall q | 0 <= q < 4 ensures r[a..a + 4][q] == was[..4][q] && r[b..b + 4][q] == was[4..][q] {
      assert Counters(|r|)[q] == a + q && Counters(|r|)[4 + q] == b + q;
    }
    assert r[a..a + 4] == was[..4] && r[b..b + 4] == was[4..];
  }

  lemma MovedBlock(x: seq<bv8>, r: seq<bv8>, v: Volume, o: ForkObject, start: nat, data: seq<bv8>, k: nat)
    requires Separate(|x|, v, o) && Fits(v, o, start) && k < |Target(o, start)| && Poked(x, Meta(|x|, v, o), data, r)
    ensures Block(r, Target(o, start)[k], v.blockSize) == Block(x, Target(o, start)[k], v.blockSize)
  {
    hide Separate, Fits, Meta, Target, Block, InUse;
    var b := Target(o, start)[k];
    SeparateMeans(|x|, v, o);
    forall i: nat | i < |x| && i / v.blockSize == b ensures r[i] == x[i] {
      if i in Meta(|x|, v, o) { MetaOutside(x, v, o, start, i); }
    }
    SameBlock(x, r, b, v.blockSize);
  }

  lemma SeparateMeans(size: nat, v: Volume, o: ForkObject)
    requires Separate(size, v, o)
    ensures size >= HEADER && Reachable(v) && Addressed(v, o.refs) && v.blockSize > 0
  {
  }

  lemma RebuiltTarget(o: ForkObject, start: nat)
    requires Total(Extents(o.refs)) == o.total
    ensures Blocks(Rebuilt(Extents(o.refs), start)) == Target(o, start) && |Target(o, start)| == |Source(o)| == o.total
  {
    hide Blocks, Rebuilt, BlocksOf;
    RebuiltIsContiguous(Extents(o.refs), start);
  }

  lemma FreeKept(v: Volume, o: ForkObject, start: nat, stage: seq<bv8>, final: seq<bv8>)
    requires Owned(v, o) && Fits(v, o, start) && States(v, o, start, stage, final)
    ensures |final| == |v.bitmap|
    ensures TakenSet(final) == TakenSet(v.bitmap) + Elements(Target(o, start)) - Elements(Source(o))
    ensures |TakenSet(final)| == |TakenSet(v.bitmap)|
  {
    hide Taken, TakenSet, Blocks, Elements, Rebuilt;
    RebuiltTarget(o, start);
    assert Distinct(Target(o, start));
    var src, dst := Source(o), Target(o, start);
    forall k | 0 <= k < |src| ensures src[k] < 8 * |v.bitmap| && Taken(v.bitmap, src[k]) { assert src[k] in src; }
    forall k | 0 <= k < |dst| ensures dst[k] < 8 * |v.bitmap| && !Taken(v.bitmap, dst[k]) { assert dst[k] in dst; }
    FinalKeepsFree(v.bitmap, stage, final, src, dst);
  }

  /** Descriptors, bitmap and counters of the moved device. */
  lemma MovedMeta(x: seq<bv8>, v: Volume, o: ForkObject, start: nat, stage: seq<bv8>, final: seq<bv8>, j: Journal)
    requires |x| >= 1536 && Separate(|x|, v, o) && Built(x, v, o, start, stage, final, j)
    ensures var r := Moved(x, j);
            && |r| == |x| && Describes(r, v, o.refs, Rebuilt(Extents(o.refs), start))
            && Inside(Map(v), |r|) && Read(r, Map(v)) == final
            && Counter(r, 1024 + 48) == v.free && Counter(r, |r| - 1024 + 48) == v.free
  {
    hide Separate, Built, Slots, Map, Counters, Packed, Rebuilt, Twice, Moved, Describes, Read, Reaches, Packable,
         Poked, Counter, Inside;
    MovedIsPoked(x, v, o, start, stage, final, j);
    BuiltSizes(x, v, o, start, stage, final, j);
    var r := Moved(x, j);
    assert |r| == |x| by { PokedSize(x, Meta(|x|, v, o), NewMeta(v, o, start, final), r); }
    PokedParts(x, Slots(v, o.refs), Map(v), Counters(|x|), Packed(Rebuilt(Extents(o.refs), start)), final,
               Twice(v.free), r);
    PackedDescribes(r, v, o.refs, Rebuilt(Extents(o.refs), start));
    CountersRead(r, v.free);
  }

  lemma BuiltSizes(x: seq<bv8>, v: Volume, o: ForkObject, start: nat, stage: seq<bv8>, final: seq<bv8>, j: Journal)
    requires Built(x, v, o, start, stage, final, j)
    ensures |x| >= HEADER && Reachable(v) && Addressed(v, o.refs) && v.free < UINT32
    ensures Packable(Rebuilt(Extents(o.refs), start)) && |final| == |v.bitmap|
  {
  }

  /** Blocks of the moved device: the destination as copied, all else as it was. */
  lemma MovedData(dev: seq<bv8>, copied: seq<bv8>, r: seq<bv8>, v: Volume, o: ForkObject, start: nat, data: seq<bv8>)
    requires Separate(|dev|, v, o) && Fits(v, o, start) && Copied(dev, copied, Source(o), Target(o, start), v.blockSize)
    requires Poked(copied, Meta(|dev|, v, o), data, r)
    ensures forall k | 0 <= k < |Target(o, start)| ::
      Block(r, Target(o, start)[k], v.blockSize) == Block(dev, Source(o)[k], v.blockSize)
    ensures forall i: nat | i < |dev| && i / v.blockSize !in Target(o, start) && i !in Meta(|dev|, v, o) ::
      r[i] == dev[i]
  {
    SeparateMeans(|dev|, v, o);
    hide Separate, Fits, Meta, Target, Source, Block;
    forall k | 0 <= k < |Target(o, start)|
      ensures Block(r, Target(o, start)[k], v.blockSize) == Block(dev, Source(o)[k], v.blockSize)
    {
      MovedBlock(copied, r, v, o, start, data, k);
    }
  }

  /** The moved device holds the fork in one run, with its contents, an exchanged bitmap
      and an unchanged free count. */
  lemma MovedHolds(dev: seq<bv8>, copied: seq<bv8>, v: Volume, o: ForkObject, start: nat, stage: seq<bv8>,
                   final: seq<bv8>, j: Journal)
    requires Loaded(dev, v) && Healthy(dev, v, o) && Fits(v, o, start)
    requires Copied(dev, copied, Source(o), Target(o, start), v.blockSize)
    requires Built(copied, v, o, start, stage, final, j) && States(v, o, start, stage, final)
    ensures Relocated(dev, Moved(copied, j), v, o, start, final)
  {
    assert Total(Extents(o.refs)) == o.total && |copied| == |dev|;
    RebuiltTarget(o, start);
    hide Separate, Owned, Fits, States, Slots, Map, Counters, Rebuilt, Target, Blocks, Block, TakenSet, Elements, Moved,
         Laid, Describes, Read, Reaches, Built, Copied, Meta, Poked, NewMeta, Counter, Inside, Packable, Whole;
    BothWhole(dev, v, o, start);
    SeparateMeans(|dev|, v, o);
    MovedIsPoked(copied, v, o, start, stage, final, j);
    MovedMeta(copied, v, o, start, stage, final, j);
    BuiltSizes(copied, v, o, start, stage, final, j);
    FreeKept(v, o, start, stage, final);
    MovedData(dev, copied, Moved(copied, j), v, o, start, NewMeta(v, o, start, final));
  }

  // ---- move_one --------------------------------------------------------------------------------------

  /** The test of the destination blocks. */
  method DestinationFree(v: Volume, dst: seq<nat>) returns (ok: bool)
    requires v.blocks <= 8 * |v.bitmap|
    ensures ok <==> forall b: nat | b in dst :: b < v.blocks && !Taken(v.bitmap, b)
  {
    hide Taken;
    for k := 0 to |dst|
      invariant forall m | 0 <= m < k :: dst[m] < v.blocks && !Taken(v.bitmap, dst[m])
    {
      if dst[k] >= v.blocks || Taken(v.bitmap, dst[k]) {
        assert dst[k] in dst;
        return false;
      }
    }
    ok := true;
  }

  /** Everything move_one computes before it writes: the five lists, or an error when the
      destination is not free, the descriptors do not add up or the count is too small. */
  method BuildJournal(dev: seq<bv8>, v: Volume, o: ForkObject, start: nat)
    returns (r: Result<Journal>, ghost stage: seq<bv8>, ghost final: seq<bv8>)
    requires Loaded(dev, v) && Healthy(dev, v, o) && start < v.blocks
    ensures r.Ok? <==> Fits(v, o, start)
    ensures r.Ok? ==> Built(dev, v, o, start, stage, final, r.value) && States(v, o, start, stage, final)
  {
    hide Slots, Counters, Packed, Rebuilt, Blocks, Total, Rewrites, Laid, Taken, Exact, Covered, Changing, Read,
         Reaches, BlocksOf, Twice, Inside, Distinct, Meta, InUse, Packable, Descriptor, Changed, Map;
    stage, final := [], [];
    var src, dst := Source(o), Target(o, start);
    var free := DestinationFree(v, dst);
    if !free { return Error, stage, final; }
    RunEnd(start, o.total, v.blocks);
    var s, f, stagePatches, finalPatches := BitmapLists(dev, v, src, dst);
    stage, final := s, f;
    PartsApart(|dev|, v, o);
    DescribedCounts(dev, v, o);
    var metadata := DescriptorPatches(dev, v, o, start);
    if metadata.Error? || v.free < o.total { return Error, stage, final; }
    var headersStage := HeaderPatches(dev, v.free - o.total);
    var headersFinal := HeaderPatches(dev, v.free);
    r := Ok(Journal(metadata.value, stagePatches, finalPatches, headersStage, headersFinal));
  }

  /** The two bitmaps and their patches. */
  method BitmapLists(dev: seq<bv8>, v: Volume, src: seq<nat>, dst: seq<nat>)
    returns (stage: seq<bv8>, final: seq<bv8>, stagePatches: seq<Patch>, finalPatches: seq<Patch>)
    requires Loaded(dev, v) && v.blocks <= 8 * |v.bitmap|
    requires (forall b: nat | b in src :: b < v.blocks) && forall b: nat | b in dst :: b < v.blocks
    ensures Changed(v.bitmap, stage, dst, true) && Changed(stage, final, src, false)
    ensures Rewrites(stagePatches, dev, Map(v), stage) && Exact(stagePatches, dev)
    ensures Rewrites(finalPatches, dev, Map(v), final)
  {
    hide Rewrites, Laid, Exact, Read, Reaches, Taken, Span;
    assert forall k | 0 <= k < |src| :: src[k] in src;
    assert forall k | 0 <= k < |dst| :: dst[k] in dst;
    stage, final := MakeBitmapStates(v.bitmap, src, dst);
    stagePatches := BitmapPatches(dev, v.allocation, v.bitmap, stage);
    finalPatches := BitmapPatches(dev, v.allocation, v.bitmap, final);
  }

  lemma RunEnd(start: nat, count: nat, blocks: nat)
    requires start < blocks && forall b: nat | b in BlocksOf(Extent(start, count)) :: b < blocks
    ensures start + count <= blocks
  {
    if count > 0 {
      var last: nat := start + count - 1;
      assert BlocksOf(Extent(start, count))[count - 1] == last;
      assert last in BlocksOf(Extent(start, count));
    }
  }

  lemma DescribedCounts(dev: seq<bv8>, v: Volume, o: ForkObject)
    requires Parsed(dev, v, o)
    ensures forall n | 0 <= n < |o.refs| :: o.refs[n].extent.count < UINT32
  {
    hide Slot, Read, Be32;
    forall n | 0 <= n < |o.refs| ensures o.refs[n].extent.count < UINT32 {
      assert Descriptor(dev, v, o.refs[n]) == Extents(o.refs)[n];
    }
  }

  /** A move under way: the journal built for the device, and the copy. */
  ghost predicate IsMove(dev: seq<bv8>, copied: seq<bv8>, v: Volume, o: ForkObject, start: nat, stage: seq<bv8>,
                         final: seq<bv8>, j: Journal) {
    && Copied(dev, copied, Source(o), Target(o, start), v.blockSize)
    && Built(dev, v, o, start, stage, final, j) && States(v, o, start, stage, final)
  }

  /** move_one.  The journal file says the switch is done only after the new descriptors
      are on the device, and is removed only after everything is. */
  method MoveOne(dev: Device, v: Volume, o: ForkObject, start: nat)
    returns (r: Result<Journal>, ghost copied: seq<bv8>, ghost stage: seq<bv8>, ghost final: seq<bv8>)
    requires Loaded(dev.bytes, v) && Healthy(dev.bytes, v, o) && start < v.blocks
    requires dev.file == Missing && dev.durable == dev.bytes && dev.windows == []
    modifies dev
    ensures r.Ok? <==> Fits(v, o, start)
    ensures dev.file == Missing && dev.durable == dev.bytes
    ensures r.Error? ==> dev.bytes == old(dev.bytes) && dev.windows == []
    ensures r.Ok? ==> IsMove(old(dev.bytes), copied, v, o, start, stage, final, r.value)
    ensures r.Ok? ==> dev.windows == Windows(old(dev.bytes), copied, r.value)
    ensures r.Ok? ==> Relocated(old(dev.bytes), dev.bytes, v, o, start, final)
  {
    hide Loaded, Healthy, Fits, Built, States, Apply, Copied, Relocated;
    copied := dev.bytes;
    var built;
    built, stage, final := BuildJournal(dev.bytes, v, o, start);
    if built.Error? { return Error, copied, stage, final; }
    var j := built.value;
    dev.SaveJournal(j, Prepared);
    CopyReady(dev.bytes, v, o, start);
    var bytes := CopyBlocks(dev.bytes, Source(o), Target(o, start), v.blockSize, v.blocks);
    dev.bytes := bytes;
    copied := bytes;
    dev.Sync();
    dev.SaveJournal(j, CopyDone);
    RunTransaction(dev, j);
    dev.file := Missing;
    MoveEnds(old(dev.bytes), copied, v, o, start, stage, final, j);
    r := Ok(j);
  }

  lemma CopyReady(dev: seq<bv8>, v: Volume, o: ForkObject, start: nat)
    requires Loaded(dev, v) && Healthy(dev, v, o) && Fits(v, o, start)
    ensures v.blockSize > 0 && v.blocks * v.blockSize <= |dev| && |Source(o)| == |Target(o, start)|
    ensures Distinct(Target(o, start))
    ensures forall k | 0 <= k < |Source(o)| :: Source(o)[k] < v.blocks
    ensures forall k | 0 <= k < |Target(o, start)| :: Target(o, start)[k] < v.blocks
  {
    hide Taken, Blocks, Separate, Parsed, Rebuilt, Total;
    RebuiltTarget(o, start);
    assert forall k | 0 <= k < |Source(o)| :: Source(o)[k] in Source(o);
    assert forall k | 0 <= k < |Target(o, start)| :: Target(o, start)[k] in Target(o, start);
  }

  /** The steps after the copy: stage, switch, finish, each synced before the journal
      file says so. */
  method RunTransaction(dev: Device, j: Journal)
    requires dev.durable == dev.bytes && dev.file == Saved(j, CopyDone)
    modifies dev
    ensures dev.bytes == dev.durable == Finished(old(dev.bytes), j)
    ensures dev.windows == old(dev.windows) + LateWindows(old(dev.bytes), j)
  {
    hide Apply;
    ghost var copied, was := dev.bytes, dev.windows;
    ghost var all := LateWindows(copied, j);
    var next := ApplyPatches(dev.bytes, j.bitmapStage, true);
    next := ApplyPatches(next, j.headersStage, true);
    dev.bytes := next;
    dev.Sync();
    dev.SaveJournal(j, DestinationReady);
    dev.SaveJournal(j, Switching);
    assert dev.windows == was + all[..3];
    next := ApplyPatches(dev.bytes, j.metadata, true);
    dev.bytes := next;
    dev.Sync();
    dev.SaveJournal(j, SwitchDone);
    assert dev.windows == was + all[..5];
    next := ApplyPatches(dev.bytes, j.bitmapFinal, true);
    next := ApplyPatches(next, j.headersFinal, true);
    dev.bytes := next;
    dev.Sync();
    dev.SaveJournal(j, Complete);
    assert dev.windows == was + all;
  }

  /** An uninterrupted move ends with the fork relocated. */
  lemma MoveEnds(dev: seq<bv8>, copied: seq<bv8>, v: Volume, o: ForkObject, start: nat, stage: seq<bv8>,
                 final: seq<bv8>, j: Journal)
    requires Loaded(dev, v) && Healthy(dev, v, o) && Fits(v, o, start)
    requires IsMove(dev, copied, v, o, start, stage, final, j)
    ensures Finished(copied, j) == Moved(copied, j) && Relocated(dev, Finished(copied, j), v, o, start, final)
  {
    hide Loaded, Healthy, Fits, Built, States, Finished, Moved, Relocated, Ready;
    ReadyWhileCopying(dev, copied, v, o, start, stage, final, j);
    FinishedIsMoved(copied, j);
    MovedHolds(dev, copied, v, o, start, stage, final, j);
  }

  /** recover: needs a journal file, and removes it once the device is repaired. */
  method RecoverDevice(dev: Device) returns (ok: bool)
    requires dev.file.Saved? ==> HfsMove.WellFormed(dev.file.journal.metadata, |dev.bytes|)
    modifies dev
    ensures ok == old(dev.file).Saved? && dev.file == Missing
    ensures !ok ==> dev.bytes == old(dev.bytes)
    ensures ok ==> dev.bytes == dev.durable == Recover(old(dev.bytes), old(dev.file).journal, Sealed(old(dev.file)))
  {
    if dev.file == Missing { return false; }
    var bytes := RecoverVolume(dev.bytes, dev.file.journal, dev.file.stage == SwitchDone || dev.file.stage == Complete);
    dev.bytes := bytes;
    dev.Sync();
    dev.file := Missing;
    ok := true;
  }

  // ---- Every interruption ----------------------------------------------------------------------------

  /** A power failure while the blocks are copied: recovery changes nothing more. */
  lemma CutWhileCopying(dev: seq<bv8>, copied: seq<bv8>, v: Volume, o: ForkObject, start: nat, stage: seq<bv8>,
                        final: seq<bv8>, j: Journal,
                        xs: seq<seq<bv8>>, i: nat)
    requires Loaded(dev, v) && Healthy(dev, v, o) && Fits(v, o, start)
    requires IsMove(dev, copied, v, o, start, stage, final, j)
    requires Attempts(j, false, xs) && i < |xs| && Torn(dev, copied, xs[0])
    ensures Unmoved(dev, Recover(xs[i], j, false), v, o, start)
  {
    var x := xs[0];
    assert OnlyBlocks(dev, x, Target(o, start), v.blockSize);
    hide Loaded, Healthy, Fits, Built, States, Ready, Copied, OnlyBlocks, Unmoved, Recover, AllNew, Staged, Target;
    ReadyWhileCopying(dev, x, v, o, start, stage, final, j);
    StagedSize(x, j);
    assert Torn(x, Staged(x, j), x);
    NotAllNew(x, j, x);
    TransactionIsAtomic(x, j, false, xs, i);
    StillHolds(dev, x, v, o, start);
  }

  /** A power failure after the copy: the old fork, or the fork relocated. */
  lemma CutAfterCopy(dev: seq<bv8>, copied: seq<bv8>, v: Volume, o: ForkObject, start: nat, stage: seq<bv8>,
                     final: seq<bv8>, j: Journal,
                     sealed: bool, xs: seq<seq<bv8>>, i: nat)
    requires Loaded(dev, v) && Healthy(dev, v, o) && Fits(v, o, start)
    requires IsMove(dev, copied, v, o, start, stage, final, j)
    requires Attempts(j, sealed, xs) && i < |xs| && Interrupted(copied, j, xs[0], sealed)
    ensures Committed(xs[0], j, sealed) ==> Relocated(dev, Recover(xs[i], j, sealed), v, o, start, final)
    ensures !Committed(xs[0], j, sealed) ==> Unmoved(dev, Recover(xs[i], j, sealed), v, o, start)
  {
    hide Loaded, Healthy, Fits, Built, States, Ready, Unmoved, Relocated, Recover, Interrupted, Attempts, Committed,
         Moved;
    ReadyWhileCopying(dev, copied, v, o, start, stage, final, j);
    TransactionIsAtomic(copied, j, sealed, xs, i);
    MovedHolds(dev, copied, v, o, start, stage, final, j);
    StillHolds(dev, copied, v, o, start);
  }

  /** A stretch in which nothing is written is torn only into itself. */
  lemma NothingTorn(a: seq<bv8>, x: seq<bv8>)
    requires Torn(a, a, x)
    ensures x == a
  {
  }

  /** Where in the transaction each stretch lies. */
  lemma WindowPlace(dev: seq<bv8>, copied: seq<bv8>, j: Journal, n: nat, x: seq<bv8>)
    requires n < 10 && |copied| == |dev|
    requires var w := Windows(dev, copied, j)[n]; Torn(w.low, w.high, x)
    ensures Sealed(Windows(dev, copied, j)[n].file) <==> n >= 7
    ensures n <= 1 ==> Torn(dev, copied, x)
    ensures 2 <= n <= 5 ==> Torn(copied, Staged(copied, j), x)
    ensures n == 6 ==> Torn(Staged(copied, j), Switched(copied, j), x)
    ensures n >= 7 ==> Torn(Switched(copied, j), Finished(copied, j), x)
  {
    SameSizes(copied, j);
    hide Staged, Switched, Finished;
    var w := Windows(dev, copied, j)[n];
    if w.low == w.high { NothingTorn(w.low, x); }
  }

  lemma SameSizes(copied: seq<bv8>, j: Journal)
    ensures |Staged(copied, j)| == |copied| == |Switched(copied, j)| == |Finished(copied, j)|
  {
  }

  /** Wherever the power fails in a move, and however often in recovery, recovery ends
      with the old fork or with the relocated one: always the old one until the switch,
      always the relocated one after it. */
  lemma MoveSurvives(dev: seq<bv8>, copied: seq<bv8>, v: Volume, o: ForkObject, start: nat, stage: seq<bv8>,
                     final: seq<bv8>, j: Journal,
                     n: nat, xs: seq<seq<bv8>>, i: nat)
    requires Loaded(dev, v) && Healthy(dev, v, o) && Fits(v, o, start)
    requires IsMove(dev, copied, v, o, start, stage, final, j)
    requires n < 10 && Attempts(j, Sealed(Windows(dev, copied, j)[n].file), xs) && i < |xs|
    requires var w := Windows(dev, copied, j)[n]; Torn(w.low, w.high, xs[0])
    ensures var r := Recover(xs[i], j, Sealed(Windows(dev, copied, j)[n].file));
            && (Unmoved(dev, r, v, o, start) || Relocated(dev, r, v, o, start, final))
            && (n < 6 ==> Unmoved(dev, r, v, o, start)) && (n > 6 ==> Relocated(dev, r, v, o, start, final))
  {
    assert |copied| == |dev| && |xs| > 0;
    hide Loaded, Healthy, Fits, Built, States, Copied, Ready, Unmoved, Relocated, Recover, Attempts, Windows, Torn,
         Staged, Switched, Finished;
    WindowPlace(dev, copied, j, n, xs[0]);
    if n <= 1 {
      CutWhileCopying(dev, copied, v, o, start, stage, final, j, xs, i);
    } else {
      CutAfterCopy(dev, copied, v, o, start, stage, final, j, n >= 7, xs, i);
      if n <= 5 { NotYet(dev, copied, v, o, start, stage, final, j, xs[0]); }
    }
  }

  lemma NotYet(dev: seq<bv8>, copied: seq<bv8>, v: Volume, o: ForkObject, start: nat, stage: seq<bv8>, final: seq<bv8>,
               j: Journal, x: seq<bv8>)
    requires Loaded(dev, v) && Healthy(dev, v, o) && Fits(v, o, start)
    requires IsMove(dev, copied, v, o, start, stage, final, j)
    requires Torn(copied, Staged(copied, j), x)
    ensures !Committed(x, j, false)
  {
    hide Loaded, Healthy, Fits, Built, States, Ready, Torn, Staged, Committed;
    ReadyWhileCopying(dev, copied, v, o, start, stage, final, j);
    BeforeSwitch(copied, j, x);
  }
}
