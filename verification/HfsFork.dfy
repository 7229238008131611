/** The parts of an HFS+ relocation: bitmap states, extent descriptors and fork addresses. */
module HfsFork {
  import opened Basics
  import opened NtfsBitmap
  import opened ClusterLayout

  // ---- Bitmap states ------------------------------------------------------------------------

  /** HFS+ bitmaps number bits from the top of each byte. */
  predicate Taken(bitmap: seq<bv8>, block: nat)
    requires block < 8 * |bitmap|
  {
    Bit(bitmap[block / 8], 7 - block % 8)
  }

  function Put(bitmap: seq<bv8>, block: nat, value: bool): (r: seq<bv8>)
    requires block < 8 * |bitmap|
    ensures |r| == |bitmap|
    ensures forall c: nat | c < 8 * |bitmap| :: Taken(r, c) == if c == block then value else Taken(bitmap, c)
  {
    var r := bitmap[block / 8 := SetBit(bitmap[block / 8], 7 - block % 8, value)];
    assert forall c: nat | c < 8 * |bitmap| :: Taken(r, c) == if c == block then value else Taken(bitmap, c) by {
      forall c: nat | c < 8 * |bitmap| ensures Taken(r, c) == if c == block then value else Taken(bitmap, c) {
        SetBitAt(bitmap[block / 8], 7 - block % 8, value, 7 - c % 8);
        assert c / 8 == block / 8 && c % 8 == block % 8 ==> c == block;
      }
    }
    r
  }

  ghost predicate Changed(before: seq<bv8>, after: seq<bv8>, blocks: seq<nat>, value: bool) {
    && |after| == |before|
    && forall c: nat | c < 8 * |before| :: Taken(after, c) == if c in blocks then value else Taken(before, c)
  }

  /** make_bitmap_states: destination added, then source removed. */
  method MakeBitmapStates(bitmap: seq<bv8>, src: seq<nat>, dst: seq<nat>) returns (stage: seq<bv8>, final: seq<bv8>)
    requires forall k | 0 <= k < |src| :: src[k] < 8 * |bitmap|
    requires forall k | 0 <= k < |dst| :: dst[k] < 8 * |bitmap|
    ensures Changed(bitmap, stage, dst, true) && Changed(stage, final, src, false)
  {
    hide Taken, Put;
    stage, final := bitmap, bitmap;
    for k := 0 to |dst|
      invariant stage == final && Changed(bitmap, stage, dst[..k], true)
    {
      stage, final := Put(stage, dst[k], true), Put(final, dst[k], true);
      assert dst[..k + 1] == dst[..k] + [dst[k]];
    }
    assert dst[..|dst|] == dst;
    for k := 0 to |src|
      invariant Changed(stage, final, src[..k], false)
    {
      final := Put(final, src[k], false);
      assert src[..k + 1] == src[..k] + [src[k]];
    }
    assert src[..|src|] == src;
  }

  /** Every byte the staged bitmap changes also differs in the final one, so the final
      patches cover every byte the staged patches touch. */
  lemma FinalCoversStage(bitmap: seq<bv8>, stage: seq<bv8>, final: seq<bv8>, src: seq<nat>, dst: seq<nat>, i: nat)
    requires Changed(bitmap, stage, dst, true) && Changed(stage, final, src, false)
    requires forall c | c in dst && c < 8 * |bitmap| :: !Taken(bitmap, c) && c !in src
    requires i < |bitmap| && stage[i] != bitmap[i]
    ensures final[i] != bitmap[i]
  {
    var k := DifferentBit(stage[i], bitmap[i]);
    var c := 8 * i + (7 - k);
    assert c / 8 == i && 7 - c % 8 == k;
    assert Taken(stage, c) != Taken(bitmap, c);
    assert Taken(final, c) && !Taken(bitmap, c);
  }

  lemma DifferentBit(a: bv8, b: bv8) returns (k: nat)
    requires a != b
    ensures k < 8 && Bit(a, k) != Bit(b, k)
  {
    k := 0;
    if k' :| 0 <= k' < 8 && Bit(a, k') != Bit(b, k') { k := k'; } else { SameByte(a, b); }
  }

  // ---- Free count ------------------------------------------------------------------------------

  function TakenSet(bitmap: seq<bv8>): set<nat> {
    set c: nat | c < 8 * |bitmap| && Taken(bitmap, c)
  }

  /** Moving as many blocks as it releases, the final bitmap has the free count of the
      original, which is what the final headers say. */
  lemma FinalKeepsFree(bitmap: seq<bv8>, stage: seq<bv8>, final: seq<bv8>, src: seq<nat>, dst: seq<nat>)
    requires Changed(bitmap, stage, dst, true) && Changed(stage, final, src, false)
    requires Distinct(src) && Distinct(dst) && |src| == |dst|
    requires forall k | 0 <= k < |src| :: src[k] < 8 * |bitmap| && Taken(bitmap, src[k])
    requires forall k | 0 <= k < |dst| :: dst[k] < 8 * |bitmap| && !Taken(bitmap, dst[k])
    ensures TakenSet(final) == TakenSet(bitmap) + Elements(dst) - Elements(src)
    ensures |TakenSet(final)| == |TakenSet(bitmap)|
  {
    hide Taken;
    var a := TakenSet(bitmap);
    DistinctCount(src);
    DistinctCount(dst);
    forall c: nat ensures c in TakenSet(final) <==> c in a + Elements(dst) - Elements(src) {
      assert c in Elements(dst) <==> c in dst;
      assert c in Elements(src) <==> c in src;
    }
    assert Elements(src) <= a && Elements(dst) !! a;
    assert |a + Elements(dst)| == |a| + |Elements(dst)|;
  }

  // ---- Descriptors -------------------------------------------------------------------------------

  datatype Extent = Extent(start: nat, count: nat)

  function Total(ds: seq<Extent>): nat {
    if ds == [] then 0 else Total(ds[..|ds| - 1]) + ds[|ds| - 1].count
  }

  function BlocksOf(e: Extent): (b: seq<nat>)
    ensures |b| == e.count
  {
    seq(e.count, k requires 0 <= k < e.count => e.start + k)
  }

  /** The blocks of a fork in logical order. */
  function Blocks(ds: seq<Extent>): (b: seq<nat>)
    ensures |b| == Total(ds)
  {
    if ds == [] then [] else Blocks(ds[..|ds| - 1]) + BlocksOf(ds[|ds| - 1])
  }

  /** The same extents laid end to end from `start`. */
  function Rebuilt(ds: seq<Extent>, start: nat): (r: seq<Extent>)
    ensures |r| == |ds|
  {
    if ds == [] then []
    else
      var rest := ds[..|ds| - 1];
      Rebuilt(rest, start) + [Extent(start + Total(rest), ds[|ds| - 1].count)]
  }

  lemma {:induction false} RebuiltAt(ds: seq<Extent>, start: nat, n: nat)
    requires n < |ds|
    ensures Rebuilt(ds, start)[n] == Extent(start + Total(ds[..n]), ds[n].count)
  {
    var rest := ds[..|ds| - 1];
    if n < |rest| {
      RebuiltAt(rest, start, n);
      assert rest[..n] == ds[..n];
    }
  }

  lemma {:induction false} RebuiltBlocks(ds: seq<Extent>, start: nat)
    ensures Total(Rebuilt(ds, start)) == Total(ds)
    ensures Blocks(Rebuilt(ds, start)) == BlocksOf(Extent(start, Total(ds)))
  {
    if ds != [] {
      var rest, last, r := ds[..|ds| - 1], ds[|ds| - 1], Rebuilt(ds, start);
      RebuiltBlocks(rest, start);
      assert r[..|r| - 1] == Rebuilt(rest, start);
      hide Rebuilt;
      TwoRuns(start, Total(rest), last.count);
    }
  }

  lemma TwoRuns(start: nat, m: nat, n: nat)
    ensures BlocksOf(Extent(start, m)) + BlocksOf(Extent(start + m, n)) == BlocksOf(Extent(start, m + n))
  {
  }

  /** The rebuilt fork is one contiguous run, extent by extent as long as before. */
  lemma RebuiltIsContiguous(ds: seq<Extent>, start: nat)
    ensures Total(Rebuilt(ds, start)) == Total(ds) && Blocks(Rebuilt(ds, start)) == BlocksOf(Extent(start, Total(ds)))
    ensures forall n | 0 <= n < |ds| :: Rebuilt(ds, start)[n].count == ds[n].count
    ensures forall n | 0 <= n < |ds| - 1 ::
      Rebuilt(ds, start)[n].start + Rebuilt(ds, start)[n].count == Rebuilt(ds, start)[n + 1].start
  {
    RebuiltBlocks(ds, start);
    hide Rebuilt, Blocks;
    forall n | 0 <= n < |ds| ensures Rebuilt(ds, start)[n].count == ds[n].count { RebuiltAt(ds, start, n); }
    forall n | 0 <= n < |ds| - 1
      ensures Rebuilt(ds, start)[n].start + Rebuilt(ds, start)[n].count == Rebuilt(ds, start)[n + 1].start
    {
      RebuiltAt(ds, start, n);
      RebuiltAt(ds, start, n + 1);
      assert ds[..n + 1][..n] == ds[..n];
    }
  }

  // ---- Fork addresses ------------------------------------------------------------------------

  /** ForkMap: the byte ranges of a fork's extents, in logical order. */
  datatype Fork = Fork(size: nat, segments: seq<Extent>)

  /** The device byte behind every logical byte. */
  function Places(f: Fork): seq<nat> { Blocks(f.segments) }

  predicate Reaches(f: Fork, offset: nat, length: nat) {
    offset + length <= f.size && (length == 0 || offset + length <= |Places(f)|)
  }

  function Span(f: Fork, offset: nat, length: nat): (r: seq<nat>)
    requires Reaches(f, offset, length)
    ensures |r| == length
  {
    if length == 0 then [] else Places(f)[offset..offset + length]
  }

  lemma {:induction false} BlocksAt(ds: seq<Extent>, n: nat, q: nat)
    requires n < |ds| && q < ds[n].count
    ensures Total(ds[..n]) + ds[n].count <= Total(ds) && Blocks(ds)[Total(ds[..n]) + q] == ds[n].start + q
  {
    var rest := ds[..|ds| - 1];
    if n < |rest| {
      BlocksAt(rest, n, q);
      assert rest[..n] == ds[..n];
    }
  }

  lemma AppendBlocks(ds: seq<Extent>, e: Extent)
    ensures Total(ds + [e]) == Total(ds) + e.count && Blocks(ds + [e]) == Blocks(ds) + BlocksOf(e)
  {
    assert (ds + [e])[..|ds|] == ds;
  }

  lemma {:induction false} TotalGrows(ds: seq<Extent>, n: nat)
    requires n <= |ds|
    ensures Total(ds[..n]) <= Total(ds)
  {
    if n < |ds| {
      TotalGrows(ds[..|ds| - 1], n);
      assert ds[..|ds| - 1][..n] == ds[..n];
    } else {
      assert ds[..n] == ds;
    }
  }

  /** Part of one segment holds consecutive device bytes. */
  lemma SegmentSpan(ds: seq<Extent>, n: nat, pos: nat, take: nat)
    requires n < |ds| && Total(ds[..n]) <= pos && pos + take <= Total(ds[..n]) + ds[n].count
    ensures Total(ds[..n]) + ds[n].count <= Total(ds)
    ensures Blocks(ds)[pos..pos + take] == BlocksOf(Extent(ds[n].start + pos - Total(ds[..n]), take))
  {
    hide Blocks, Total;
    NextTotal(ds, n);
    var lo := Total(ds[..n]);
    var piece := BlocksOf(Extent(ds[n].start + pos - lo, take));
    forall k | 0 <= k < take ensures Blocks(ds)[pos + k] == piece[k] {
      BlocksAt(ds, n, pos - lo + k);
    }
  }

  /** ForkMap.pieces: the device ranges behind a logical range, in order, or an error
      when the fork does not reach that far. */
  method Pieces(f: Fork, offset: nat, length: nat) returns (r: Result<seq<Extent>>)
    ensures r.Ok? <==> Reaches(f, offset, length)
    ensures r.Ok? ==> Blocks(r.value) == Span(f, offset, length)
    ensures r.Ok? ==> forall n | 0 <= n < |r.value| :: r.value[n].count > 0
  {
    hide Blocks, Total;
    if offset + length > f.size { return Error; }
    var out: seq<Extent> := [];
    var pos: nat, left: nat, lo: nat := offset, length, 0;
    NoBlocks();
    assert f.segments[..0] == [];
    for n := 0 to |f.segments|
      invariant lo == Total(f.segments[..n]) && offset <= pos && pos + left == offset + length
      invariant pos == offset || pos <= lo
      invariant left == 0 || lo <= pos
      invariant Total(f.segments[..n]) <= |Places(f)|
      invariant Blocks(out) == if pos == offset then [] else Places(f)[offset..pos]
      invariant forall k | 0 <= k < |out| :: out[k].count > 0
    {
      if left == 0 { break; }
      var segment := f.segments[n];
      var hi := lo + segment.count;
      NextTotal(f.segments, n);
      if pos < hi {
        assert lo <= pos;
        var take: nat := if left < hi - pos then left else hi - pos;
        var piece := Extent(segment.start + (pos - lo), take);
        NextPiece(f.segments, out, offset, pos, n, take);
        out, pos, left := out + [piece], pos + take, left - take;
      }
      lo := hi;
    }
    assert left > 0 ==> lo == |Places(f)| by { assert f.segments[..|f.segments|] == f.segments; }
    r := if left > 0 then Error else Ok(out);
  }

  lemma NextPiece(ds: seq<Extent>, out: seq<Extent>, offset: nat, pos: nat, n: nat, take: nat)
    requires n < |ds| && Total(ds[..n]) <= pos && pos + take <= Total(ds[..n]) + ds[n].count
    requires offset <= pos && (pos == offset || pos <= |Blocks(ds)|)
    requires Blocks(out) == if pos == offset then [] else Blocks(ds)[offset..pos]
    ensures pos + take <= |Blocks(ds)|
    ensures Blocks(out + [Extent(ds[n].start + (pos - Total(ds[..n])), take)]) == Blocks(ds)[offset..pos + take]
  {
    hide Blocks, Total;
    SegmentSpan(ds, n, pos, take);
    AppendBlocks(out, Extent(ds[n].start + (pos - Total(ds[..n])), take));
    JoinSpan(Blocks(ds), offset, pos, pos + take);
  }

  lemma NoBlocks()
    ensures Blocks([]) == [] && Total([]) == 0
  {
  }

  lemma NextTotal(ds: seq<Extent>, n: nat)
    requires n < |ds|
    ensures Total(ds[..n + 1]) == Total(ds[..n]) + ds[n].count <= |Blocks(ds)|
  {
    TotalGrows(ds, n + 1);
    assert ds[..n + 1][..n] == ds[..n];
  }

  lemma JoinSpan(s: seq<nat>, a: nat, b: nat, c: nat)
    requires a <= b <= c <= |s|
    ensures s[a..b] + s[b..c] == s[a..c]
  {
  }

  // ---- Numbers ---------------------------------------------------------------------------------

  function One(b: bool): nat { if b then 1 else 0 }

  /** The value of four bits of a byte. */
  function Half(b: bv8, k: nat): (v: nat)
    requires k + 3 < 8
    ensures v < 16
  {
    One(Bit(b, k)) + 2 * One(Bit(b, k + 1)) + 4 * One(Bit(b, k + 2)) + 8 * One(Bit(b, k + 3))
  }

  function Value(b: bv8): (v: nat)
    ensures v < 256
  {
    Half(b, 0) + 16 * Half(b, 4)
  }

  /** The byte with value `v` below 16. */
  function Nibble(v: nat): bv8 {
    var even: bv8 := if v / 2 % 2 == 1 then 2 else 0;
    (if v % 2 == 1 then 1 else 0) | even | (if v / 4 % 2 == 1 then 4 else 0) | (if v / 8 % 2 == 1 then 8 else 0)
  }

  function ByteOf(v: nat): bv8 { Nibble(v % 16) | (Nibble(v / 16) << 4) }

  lemma NibbleValue(v: nat)
    requires v < 16
    ensures Nibble(v) & 0xF0 == 0 && Half(Nibble(v), 0) == v
  {
  }

  lemma TwoNibbles(a: bv8, b: bv8)
    requires a & 0xF0 == 0 && b & 0xF0 == 0
    ensures Half(a | (b << 4), 0) == Half(a, 0) && Half(a | (b << 4), 4) == Half(b, 0)
  {
  }

  lemma ByteRoundTrip(v: nat)
    requires v < 256
    ensures Value(ByteOf(v)) == v
  {
    hide Nibble, Half;
    NibbleValue(v % 16);
    NibbleValue(v / 16);
    TwoNibbles(Nibble(v % 16), Nibble(v / 16));
  }

  const UINT32: nat := 0x1_0000_0000

  /** pack32: big endian. */
  function Pack32(x: nat): (s: seq<bv8>)
    requires x < UINT32
    ensures |s| == 4
  {
    var y := x / 256;
    var z := y / 256;
    [ByteOf(z / 256), ByteOf(z % 256), ByteOf(y % 256), ByteOf(x % 256)]
  }

  /** be32. */
  function Be32(s: seq<bv8>): (x: nat)
    requires |s| == 4
    ensures x < UINT32
  {
    256 * (256 * (256 * Value(s[0]) + Value(s[1])) + Value(s[2])) + Value(s[3])
  }

  lemma NumberRoundTrip(x: nat)
    requires x < UINT32
    ensures Be32(Pack32(x)) == x
  {
    hide ByteOf, Value;
    var y := x / 256;
    var z := y / 256;
    ByteRoundTrip(z / 256);
    ByteRoundTrip(z % 256);
    ByteRoundTrip(y % 256);
    ByteRoundTrip(x % 256);
  }

  /** An extent descriptor: first block, then block count. */
  function PackExtent(e: Extent): (s: seq<bv8>)
    requires e.start < UINT32 && e.count < UINT32
    ensures |s| == 8
  {
    Pack32(e.start) + Pack32(e.count)
  }

  function ParseExtent(s: seq<bv8>): Extent
    requires |s| == 8
  {
    Extent(Be32(s[..4]), Be32(s[4..]))
  }

  lemma ExtentRoundTrip(e: Extent)
    requires e.start < UINT32 && e.count < UINT32
    ensures ParseExtent(PackExtent(e)) == e
  {
    hide Pack32, Be32;
    NumberRoundTrip(e.start);
    NumberRoundTrip(e.count);
    var s := PackExtent(e);
    assert s[..4] == Pack32(e.start) && s[4..] == Pack32(e.count);
  }
}
