/**
 The journalled move of one NTFS stream and its recovery.  Between two syncs any
 selection of the sectors and bytes being written may reach the device.
 */
module NtfsMove {
  import opened Basics
  import opened NtfsRunlist
  import opened NtfsBitmap
  import C = NtfsCompact
  import L = ClusterLayout
  import E = ExtentCopy

  type Sector = seq<Byte>

  /** One MFT record, the cluster bitmap, both copies of the $Volume record, the data. */
  datatype Disk = Disk(rec: seq<Sector>, bitmap: seq<bv8>, vol: seq<Sector>, mirror: seq<Sector>, data: seq<Byte>)

  datatype Patch = Patch(offset: nat, bytes: seq<bv8>)

  datatype Journal = Journal(before: seq<Sector>, after: seq<Sector>, released: seq<Run>, destinations: seq<Run>,
                             snapshots: seq<Patch>, volBefore: seq<Sector>, volDirty: seq<Sector>,
                             mirrorBefore: seq<Sector>, mirrorDirty: seq<Sector>)

  // ---- Bitmap bytes from bits -----------------------------------------------------------------

  function ByteOf(b0: bool, b1: bool, b2: bool, b3: bool, b4: bool, b5: bool, b6: bool, b7: bool): (r: bv8)
    ensures Bit(r, 0) == b0 && Bit(r, 1) == b1 && Bit(r, 2) == b2 && Bit(r, 3) == b3
    ensures Bit(r, 4) == b4 && Bit(r, 5) == b5 && Bit(r, 6) == b6 && Bit(r, 7) == b7
  {
    (if b0 then 1 else 0) | (if b1 then 2 else 0) | (if b2 then 4 else 0) | (if b3 then 8 else 0) |
    (if b4 then 16 else 0) | (if b5 then 32 else 0) | (if b6 then 64 else 0) | (if b7 then 128 else 0)
  }

  /** Bitmaps with the same bits in byte `i` have the same byte `i`. */
  lemma SameBits(a: seq<bv8>, b: seq<bv8>, i: nat)
    requires i < |a| == |b| && forall c: nat | 8 * i <= c < 8 * i + 8 :: Used(a, c) == Used(b, c)
    ensures a[i] == b[i]
  {
    forall k: nat | k < 8 ensures Bit(a[i], k) == Bit(b[i], k) {
      var c := 8 * i + k;
      assert c / 8 == i && c % 8 == k;
      assert Used(a, c) == Used(b, c);
    }
    SameByte(a[i], b[i]);
  }

  function NewBit(b: bv8, s: set<nat>, value: bool, i: nat, k: nat): bool
    requires k < 8
  {
    if 8 * i + k in s then value else Bit(b, k)
  }

  function NewByte(b: bv8, s: set<nat>, value: bool, i: nat): bv8 {
    ByteOf(NewBit(b, s, value, i, 0), NewBit(b, s, value, i, 1), NewBit(b, s, value, i, 2), NewBit(b, s, value, i, 3),
           NewBit(b, s, value, i, 4), NewBit(b, s, value, i, 5), NewBit(b, s, value, i, 6), NewBit(b, s, value, i, 7))
  }

  /** The bitmap with every cluster of `s` set to `value`. */
  function SetBits(bitmap: seq<bv8>, s: set<nat>, value: bool): (r: seq<bv8>)
    ensures |r| == |bitmap|
    ensures forall c: nat | c < 8 * |bitmap| :: Used(r, c) == if c in s then value else Used(bitmap, c)
  {
    var r := seq(|bitmap|, i requires 0 <= i < |bitmap| => NewByte(bitmap[i], s, value, i));
    assert forall c: nat | c < 8 * |bitmap| :: Used(r, c) == if c in s then value else Used(bitmap, c) by {
      forall c: nat | c < 8 * |bitmap| ensures Used(r, c) == if c in s then value else Used(bitmap, c) {
        NewByteAt(bitmap[c / 8], s, value, c / 8, c % 8);
        assert 8 * (c / 8) + c % 8 == c;
      }
    }
    r
  }

  lemma NewByteAt(b: bv8, s: set<nat>, value: bool, i: nat, k: nat)
    requires k < 8
    ensures Bit(NewByte(b, s, value, i), k) == NewBit(b, s, value, i, k)
  {
    hide ByteOf, NewBit;
    assert k == 0 || k == 1 || k == 2 || k == 3 || k == 4 || k == 5 || k == 6 || k == 7;
  }

  // ---- Bitmap patches ------------------------------------------------------------------------

  predicate PatchCovers(p: Patch, i: nat) { p.offset <= i < p.offset + |p.bytes| }

  ghost predicate Covered(ps: seq<Patch>, i: nat) {
    exists n :: 0 <= n < |ps| && PatchCovers(ps[n], i)
  }

  /** The patches are excerpts of `bitmap`. */
  ghost predicate Excerpts(ps: seq<Patch>, bitmap: seq<bv8>) {
    forall n | 0 <= n < |ps| :: ps[n].offset + |ps[n].bytes| <= |bitmap|
      && ps[n].bytes == bitmap[ps[n].offset..ps[n].offset + |ps[n].bytes|]
  }

  function WritePatch(bitmap: seq<bv8>, p: Patch): (r: seq<bv8>)
    ensures |r| == |bitmap|
  {
    seq(|bitmap|, i requires 0 <= i < |bitmap| => if PatchCovers(p, i) then p.bytes[i - p.offset] else bitmap[i])
  }

  /** _write_bitmap_patches. */
  function WritePatches(bitmap: seq<bv8>, ps: seq<Patch>): (r: seq<bv8>)
    ensures |r| == |bitmap|
  {
    if ps == [] then bitmap else WritePatch(WritePatches(bitmap, ps[..|ps| - 1]), ps[|ps| - 1])
  }

  /** Writing excerpts of `image` makes the covered bytes equal to it. */
  lemma {:induction false} WriteExcerpts(bitmap: seq<bv8>, ps: seq<Patch>, image: seq<bv8>, i: nat)
    requires Excerpts(ps, image) && |image| == |bitmap| && i < |bitmap|
    ensures WritePatches(bitmap, ps)[i] == if Covered(ps, i) then image[i] else bitmap[i]
  {
    if ps != [] {
      var rest, last := ps[..|ps| - 1], ps[|ps| - 1];
      assert forall n | 0 <= n < |rest| :: rest[n] == ps[n];
      WriteExcerpts(bitmap, rest, image, i);
      if PatchCovers(last, i) {
        assert PatchCovers(ps[|ps| - 1], i);
        assert last.bytes[i - last.offset] == image[i];
      } else if Covered(ps, i) {
        var n :| 0 <= n < |ps| && PatchCovers(ps[n], i);
        assert PatchCovers(rest[n], i);
      } else {
        assert forall n | 0 <= n < |rest| :: !PatchCovers(ps[n], i);
      }
    }
  }

  /** _current_bitmap_patches. */
  function CurrentPatches(memory: seq<bv8>, snapshots: seq<Patch>): seq<Patch>
    requires forall n | 0 <= n < |snapshots| :: snapshots[n].offset + |snapshots[n].bytes| <= |memory|
  {
    seq(|snapshots|, n requires 0 <= n < |snapshots| =>
      Patch(snapshots[n].offset, memory[snapshots[n].offset..snapshots[n].offset + |snapshots[n].bytes|]))
  }

  lemma CurrentCovers(memory: seq<bv8>, snapshots: seq<Patch>, i: nat)
    requires forall n | 0 <= n < |snapshots| :: snapshots[n].offset + |snapshots[n].bytes| <= |memory|
    ensures Excerpts(CurrentPatches(memory, snapshots), memory)
    ensures Covered(CurrentPatches(memory, snapshots), i) <==> Covered(snapshots, i)
  {
    var ps := CurrentPatches(memory, snapshots);
    assert forall n | 0 <= n < |ps| :: PatchCovers(ps[n], i) <==> PatchCovers(snapshots[n], i);
  }

  /** The snapshots hold every bitmap byte of the clusters `s`. */
  ghost predicate Covering(ps: seq<Patch>, s: set<nat>) {
    forall c | c in s :: Covered(ps, c / 8)
  }

  ghost predicate SameOutside(a: seq<bv8>, b: seq<bv8>, s: set<nat>) {
    |b| == |a| && forall c: nat | c < 8 * |a| && c !in s :: Used(b, c) == Used(a, c)
  }

  lemma UncoveredSame(a: seq<bv8>, b: seq<bv8>, s: set<nat>, ps: seq<Patch>, i: nat)
    requires SameOutside(a, b, s) && Covering(ps, s) && i < |a| && !Covered(ps, i)
    ensures a[i] == b[i]
  {
    forall c: nat | 8 * i <= c < 8 * i + 8 ensures Used(a, c) == Used(b, c) {
      assert c / 8 == i;
      assert c !in s;
    }
    SameBits(a, b, i);
  }

  /** Writing the memory image's patches brings the disk's bitmap level with it. */
  lemma PatchesSuffice(disk: seq<bv8>, memory: seq<bv8>, s: set<nat>, snapshots: seq<Patch>)
    requires SameOutside(memory, disk, s) && Covering(snapshots, s)
    requires forall n | 0 <= n < |snapshots| :: snapshots[n].offset + |snapshots[n].bytes| <= |memory|
    ensures WritePatches(disk, CurrentPatches(memory, snapshots)) == memory
  {
    var ps := CurrentPatches(memory, snapshots);
    forall i: nat | i < |memory| ensures WritePatches(disk, ps)[i] == memory[i] {
      CurrentCovers(memory, snapshots, i);
      WriteExcerpts(disk, ps, memory, i);
      if !Covered(snapshots, i) { UncoveredSame(memory, disk, s, snapshots, i); }
    }
  }

  /** Restoring the snapshots brings back the bitmap they were taken from. */
  lemma SnapshotsRestore(original: seq<bv8>, disk: seq<bv8>, s: set<nat>, snapshots: seq<Patch>)
    requires SameOutside(original, disk, s) && Covering(snapshots, s) && Excerpts(snapshots, original)
    ensures WritePatches(disk, snapshots) == original
  {
    forall i: nat | i < |original| ensures WritePatches(disk, snapshots)[i] == original[i] {
      WriteExcerpts(disk, snapshots, original, i);
      if !Covered(snapshots, i) { UncoveredSame(original, disk, s, snapshots, i); }
    }
  }

  // ---- Taking the snapshots --------------------------------------------------------------------

  datatype Span = Span(first: nat, end: nat)

  predicate SpanHas(r: Span, i: nat) { r.first <= i < r.end }

  ghost predicate AnyHas(rs: seq<Span>, i: nat) {
    exists n :: 0 <= n < |rs| && SpanHas(rs[n], i)
  }

  ghost predicate Ascending(rs: seq<Span>) {
    forall i, j | 0 <= i < j < |rs| :: rs[i].first <= rs[j].first
  }

  lemma NoSpans()
    ensures Ascending([])
  {
  }

  method SortSpans(rs: seq<Span>) returns (s: seq<Span>)
    ensures Ascending(s) && |s| == |rs|
    ensures forall r :: r in s <==> r in rs
  {
    hide Ascending;
    s := [];
    assert Ascending(s) by { NoSpans(); }
    for i := 0 to |rs|
      invariant Ascending(s) && |s| == i && forall r :: r in s <==> r in rs[..i]
    {
      var k := 0;
      while k < |s| && s[k].first <= rs[i].first
        invariant k <= |s| && forall n | 0 <= n < k :: s[n].first <= rs[i].first
      {
        k := k + 1;
      }
      InsertSpan(s, k, rs[i]);
      assert rs[..i + 1] == rs[..i] + [rs[i]];
      s := s[..k] + [rs[i]] + s[k..];
    }
    assert rs[..|rs|] == rs;
  }

  lemma {:induction false} InsertSpan(s: seq<Span>, k: nat, r: Span)
    requires k <= |s| && Ascending(s) && (forall n | 0 <= n < k :: s[n].first <= r.first)
    requires (k < |s| ==> r.first <= s[k].first)
    ensures Ascending(s[..k] + [r] + s[k..])
    ensures forall x :: x in s[..k] + [r] + s[k..] <==> x in s || x == r
  {
    SpanMembers(s, k);
  }

  lemma SpanMembers(s: seq<Span>, k: nat)
    requires k <= |s|
    ensures forall x :: x in s <==> x in s[..k] || x in s[k..]
  {
    assert s == s[..k] + s[k..];
  }

  /** Joining a later span onto the last one covers both. */
  lemma JoinCovers(rs: seq<Span>, last: Span, r: Span, i: nat)
    requires rs != [] && rs[|rs| - 1] == last && last.first <= r.first <= last.end
    ensures AnyHas(rs[..|rs| - 1] + [Span(last.first, if last.end < r.end then r.end else last.end)], i) <==>
      AnyHas(rs, i) || SpanHas(r, i)
  {
    var wide := Span(last.first, if last.end < r.end then r.end else last.end);
    var joined := rs[..|rs| - 1] + [wide];
    if n :| 0 <= n < |rs| && SpanHas(rs[n], i) { assert SpanHas(joined[n], i); }
    if SpanHas(r, i) { assert SpanHas(joined[|rs| - 1], i); }
    if n :| 0 <= n < |joined| && SpanHas(joined[n], i) {
      if n < |rs| - 1 { assert SpanHas(rs[n], i); } else { assert SpanHas(last, i) ==> SpanHas(rs[|rs| - 1], i); }
    }
  }

  lemma AppendCovers(rs: seq<Span>, r: Span, i: nat)
    ensures AnyHas(rs + [r], i) <==> AnyHas(rs, i) || SpanHas(r, i)
  {
    var more := rs + [r];
    if n :| 0 <= n < |rs| && SpanHas(rs[n], i) { assert SpanHas(more[n], i); }
    if SpanHas(r, i) { assert SpanHas(more[|rs|], i); }
  }

  method MergeSpans(sorted: seq<Span>, limit: nat) returns (merged: seq<Span>)
    requires Ascending(sorted) && forall n | 0 <= n < |sorted| :: sorted[n].first <= sorted[n].end <= limit
    ensures forall i: nat :: AnyHas(merged, i) <==> AnyHas(sorted, i)
    ensures forall n | 0 <= n < |merged| :: merged[n].first <= merged[n].end <= limit
    ensures forall n | 0 <= n < |merged| - 1 :: merged[n].end < merged[n + 1].first
  {
    hide AnyHas;
    merged := [];
    assert sorted[..0] == [];
    for k := 0 to |sorted|
      invariant forall i: nat :: AnyHas(merged, i) <==> AnyHas(sorted[..k], i)
      invariant forall n | 0 <= n < |merged| :: merged[n].first <= merged[n].end <= limit
      invariant forall n | 0 <= n < |merged| - 1 :: merged[n].end < merged[n + 1].first
      invariant merged != [] ==> k > 0 && merged[|merged| - 1].first <= sorted[k - 1].first
    {
      var r := sorted[k];
      assert sorted[..k + 1] == sorted[..k] + [r];
      forall i: nat ensures AnyHas(sorted[..k + 1], i) <==> AnyHas(sorted[..k], i) || SpanHas(r, i) {
        AppendCovers(sorted[..k], r, i);
      }
      if merged != [] && r.first <= merged[|merged| - 1].end {
        var last := merged[|merged| - 1];
        var next := merged[..|merged| - 1] + [Span(last.first, if last.end < r.end then r.end else last.end)];
        forall i: nat ensures AnyHas(next, i) <==> AnyHas(sorted[..k + 1], i) { JoinCovers(merged, last, r, i); }
        merged := next;
      } else {
        var next := merged + [r];
        forall i: nat ensures AnyHas(next, i) <==> AnyHas(sorted[..k + 1], i) { AppendCovers(merged, r, i); }
        merged := next;
      }
    }
    assert sorted[..|sorted|] == sorted;
  }

  /** _bitmap_patches_for_runs: excerpts holding every byte the runs touch. */
  method BitmapPatchesForRuns(bitmap: seq<bv8>, runs: seq<Run>) returns (patches: seq<Patch>)
    requires forall r | 0 <= r < |runs| && runs[r].Run? :: runs[r].lcn + runs[r].length <= 8 * |bitmap|
    ensures Excerpts(patches, bitmap) && Covering(patches, C.Owned(runs))
  {
    var spans: seq<Span> := [];
    for r := 0 to |runs|
      invariant forall n | 0 <= n < |spans| :: spans[n].first <= spans[n].end <= |bitmap|
      invariant forall k | 0 <= k < r && runs[k].Run? && runs[k].length > 0 :: SpanOf(runs[k]) in spans
    {
      if runs[r].Run? && runs[r].length > 0 { spans := spans + [SpanOf(runs[r])]; }
    }
    var sorted := SortSpans(spans);
    assert forall n | 0 <= n < |sorted| :: sorted[n] in spans;
    var merged := MergeSpans(sorted, |bitmap|);
    patches := seq(|merged|,
                   n requires 0 <= n < |merged| => Patch(merged[n].first, bitmap[merged[n].first..merged[n].end]));
    forall c | c in C.Owned(runs) ensures Covered(patches, c / 8) {
      C.OwnedAt(runs, c);
      var k :| 0 <= k < |runs| && C.Covers(runs[k], c);
      assert SpanOf(runs[k]) in sorted;
      var m :| 0 <= m < |sorted| && sorted[m] == SpanOf(runs[k]);
      assert SpanHas(sorted[m], c / 8);
      assert AnyHas(merged, c / 8);
      var n :| 0 <= n < |merged| && SpanHas(merged[n], c / 8);
      assert PatchCovers(patches[n], c / 8);
    }
  }

  function SpanOf(run: Run): Span
    requires run.Run? && run.length > 0
  {
    Span(run.lcn / 8, (run.lcn + run.length - 1) / 8 + 1)
  }

  // ---- The move ----------------------------------------------------------------------------------

  function Affected(j: Journal): set<nat> {
    C.Owned(j.released) + C.Owned(j.destinations)
  }

  /** What the journal records about the volume it was written for. */
  ghost predicate Ready(d: Disk, j: Journal) {
    && d.rec == j.before && |j.after| == |j.before|
    && d.vol == j.volBefore && |j.volDirty| == |d.vol| && d.mirror == j.mirrorBefore && |j.mirrorDirty| == |d.mirror|
    && Excerpts(j.snapshots, d.bitmap) && Covering(j.snapshots, Affected(j))
  }

  /** The device after the first `k` synced steps of _move_extent. */
  function MoveState(d: Disk, j: Journal, k: nat): Disk {
    if k == 0 then d
    else if k == 1 then d.(vol := j.volDirty, mirror := j.mirrorDirty)
    else if k == 2 then MoveState(d, j, 1).(bitmap := SetBits(d.bitmap, C.Owned(j.destinations), true))
    else if k == 3 then MoveState(d, j, 2).(rec := j.after)
    else if k == 4 then MoveState(d, j, 3).(bitmap := SetBits(MoveState(d, j, 3).bitmap, C.Owned(j.released), false))
    else MoveState(d, j, 4).(vol := j.volBefore, mirror := j.mirrorBefore)
  }

  ghost predicate TornDisk(a: Disk, b: Disk, x: Disk) {
    && Torn(a.rec, b.rec, x.rec) && Torn(a.bitmap, b.bitmap, x.bitmap) && Torn(a.vol, b.vol, x.vol)
    && Torn(a.mirror, b.mirror, x.mirror)
    && x.data == a.data == b.data
  }

  /** The power fails somewhere in the move, after the journal was written. */
  ghost predicate Interrupted(d: Disk, j: Journal, x: Disk) {
    exists k: nat :: k < 5 && TornDisk(MoveState(d, j, k), MoveState(d, j, k + 1), x)
  }

  // ---- Recovery -----------------------------------------------------------------------------------

  /** First synced step of _recover_loaded: forward when the record is the new one,
      otherwise back to the saved record and bitmap bytes. */
  function Settle(j: Journal, x: Disk): Disk
    requires forall n | 0 <= n < |j.snapshots| :: j.snapshots[n].offset + |j.snapshots[n].bytes| <= |x.bitmap|
  {
    if x.rec == j.after then
      var memory := SetBits(SetBits(x.bitmap, C.Owned(j.destinations), true), C.Owned(j.released), false);
      x.(bitmap := WritePatches(x.bitmap, CurrentPatches(memory, j.snapshots)))
    else x.(rec := j.before, bitmap := WritePatches(x.bitmap, j.snapshots))
  }

  /** Second synced step: the saved $Volume records. */
  function Clean(j: Journal, x: Disk): Disk {
    x.(vol := j.volBefore, mirror := j.mirrorBefore)
  }

  /** States recovery may find: record sectors old or new, other clusters' bits intact. */
  ghost predicate Resumable(d: Disk, j: Journal, x: Disk) {
    && Torn(j.before, j.after, x.rec) && SameOutside(d.bitmap, x.bitmap, Affected(j))
    && |x.vol| == |d.vol| && |x.mirror| == |d.mirror| && x.data == d.data
  }

  lemma ResumableFits(d: Disk, j: Journal, x: Disk)
    requires Ready(d, j) && Resumable(d, j, x)
    ensures forall n | 0 <= n < |j.snapshots| :: j.snapshots[n].offset + |j.snapshots[n].bytes| <= |x.bitmap|
  {
  }

  lemma TornBits(a: seq<bv8>, b: seq<bv8>, x: seq<bv8>, original: seq<bv8>, s: set<nat>)
    requires Torn(a, b, x) && SameOutside(original, a, s) && SameOutside(original, b, s)
    ensures SameOutside(original, x, s)
  {
    forall c: nat | c < 8 * |original| && c !in s ensures Used(x, c) == Used(original, c) {
      assert x[c / 8] == a[c / 8] || x[c / 8] == b[c / 8];
      assert Used(a, c) == Used(original, c) && Used(b, c) == Used(original, c);
    }
  }

  lemma {:induction false} MoveStates(d: Disk, j: Journal, k: nat)
    requires Ready(d, j) && k <= 5
    ensures var m := MoveState(d, j, k);
            && Resumable(d, j, m) && (m.rec == j.before || m.rec == j.after)
            && (k <= 2 ==> m.rec == j.before) && (k >= 3 ==> m.rec == j.after)
  {
    if k > 0 { MoveStates(d, j, k - 1); }
  }

  lemma InterruptedIsResumable(d: Disk, j: Journal, x: Disk)
    requires Ready(d, j) && Interrupted(d, j, x)
    ensures Resumable(d, j, x)
  {
    var k: nat :| k < 5 && TornDisk(MoveState(d, j, k), MoveState(d, j, k + 1), x);
    MoveStates(d, j, k);
    MoveStates(d, j, k + 1);
    hide MoveState, SameOutside;
    TornBits(MoveState(d, j, k).bitmap, MoveState(d, j, k + 1).bitmap, x.bitmap, d.bitmap, Affected(j));
  }

  lemma SameBitmap(a: seq<bv8>, b: seq<bv8>)
    requires |a| == |b| && forall c: nat | c < 8 * |a| :: Used(a, c) == Used(b, c)
    ensures a == b
  {
    forall i: nat | i < |a| ensures a[i] == b[i] { SameBits(a, b, i); }
  }

  /** Forward completion writes the moved bitmap; rollback the original one. */
  lemma SettleEffect(d: Disk, j: Journal, x: Disk)
    requires Ready(d, j) && Resumable(d, j, x)
    requires forall n | 0 <= n < |j.snapshots| :: j.snapshots[n].offset + |j.snapshots[n].bytes| <= |x.bitmap|
    ensures var r := Settle(j, x);
            if x.rec == j.after then r == x.(bitmap := MoveState(d, j, 5).bitmap)
            else r == x.(rec := j.before, bitmap := d.bitmap)
  {
    hide Used, SetBits, Excerpts, Covering, WritePatches, CurrentPatches;
    if x.rec == j.after {
      var memory := Exchange(x.bitmap, j);
      SameExchange(d.bitmap, x.bitmap, j);
      MovedBitmap(d, j);
      ExchangeOutside(x.bitmap, j);
      PatchesSuffice(x.bitmap, memory, Affected(j), j.snapshots);
    } else {
      SnapshotsRestore(d.bitmap, x.bitmap, Affected(j), j.snapshots);
    }
  }

  /** Destinations allocated, released extents free. */
  function Exchange(bitmap: seq<bv8>, j: Journal): seq<bv8> {
    SetBits(SetBits(bitmap, C.Owned(j.destinations), true), C.Owned(j.released), false)
  }

  lemma MovedBitmap(d: Disk, j: Journal)
    ensures MoveState(d, j, 5).bitmap == Exchange(d.bitmap, j)
    ensures MoveState(d, j, 5) ==
      d.(rec := j.after, bitmap := Exchange(d.bitmap, j), vol := j.volBefore, mirror := j.mirrorBefore)
  {
    assert MoveState(d, j, 2).bitmap == SetBits(d.bitmap, C.Owned(j.destinations), true);
    assert MoveState(d, j, 3).bitmap == MoveState(d, j, 2).bitmap;
  }

  lemma SameExchange(a: seq<bv8>, b: seq<bv8>, j: Journal)
    requires SameOutside(a, b, Affected(j))
    ensures Exchange(a, j) == Exchange(b, j)
  {
    hide Used;
    forall c: nat | c < 8 * |a| ensures Used(Exchange(a, j), c) == Used(Exchange(b, j), c) {
      assert c !in Affected(j) ==> Used(b, c) == Used(a, c);
    }
    SameBitmap(Exchange(a, j), Exchange(b, j));
  }

  lemma ExchangeOutside(a: seq<bv8>, j: Journal)
    ensures |Exchange(a, j)| == |a| && SameOutside(Exchange(a, j), a, Affected(j))
    ensures SameOutside(a, Exchange(a, j), Affected(j))
  {
    hide Used;
  }

  // ---- Atomicity ------------------------------------------------------------------------------------

  /** Recovery itself is cut short in its first or second step. */
  ghost predicate Stopped(j: Journal, x: Disk, y: Disk)
    requires forall n | 0 <= n < |j.snapshots| :: j.snapshots[n].offset + |j.snapshots[n].bytes| <= |x.bitmap|
  {
    TornDisk(x, Settle(j, x), y) || TornDisk(Settle(j, x), Clean(j, Settle(j, x)), y)
  }

  lemma TornTwice(before: seq<Sector>, after: seq<Sector>, x: seq<Sector>, y: seq<Sector>)
    requires Torn(before, after, x) && Torn(x, before, y)
    ensures Torn(before, after, y) && (y == after ==> x == after)
  {
    forall i | 0 <= i < |x|
      ensures (y[i] == before[i] || y[i] == after[i]) && (y[i] == after[i] ==> x[i] == after[i])
    {
    }
  }

  /** A cut recovery leaves a resumable volume and never changes the verdict. */
  lemma StoppedIsResumable(d: Disk, j: Journal, x: Disk, y: Disk)
    requires Ready(d, j) && Resumable(d, j, x)
    requires forall n | 0 <= n < |j.snapshots| :: j.snapshots[n].offset + |j.snapshots[n].bytes| <= |x.bitmap|
    requires Stopped(j, x, y)
    ensures Resumable(d, j, y) && (y.rec == j.after <==> x.rec == j.after)
  {
    hide Ready, SameOutside;
    SettleEffect(d, j, x);
    MovedBitmap(d, j);
    ExchangeOutside(d.bitmap, j);
    OutsideItself(d.bitmap, Affected(j));
    hide Settle, Exchange, MoveState;
    var r := Settle(j, x);
    if TornDisk(x, r, y) {
      TornBits(x.bitmap, r.bitmap, y.bitmap, d.bitmap, Affected(j));
      RecordVerdict(j, x.rec, r.rec, y.rec);
    } else {
      TornNowhere(r.bitmap, y.bitmap);
      TornNowhere(r.rec, y.rec);
    }
  }

  lemma OutsideItself(a: seq<bv8>, s: set<nat>)
    ensures SameOutside(a, a, s)
  {
  }

  lemma TornNowhere<T(!new)>(a: seq<T>, x: seq<T>)
    ensures Torn(a, a, x) ==> x == a
  {
  }

  lemma RecordVerdict(j: Journal, x: seq<Sector>, r: seq<Sector>, y: seq<Sector>)
    requires Torn(j.before, j.after, x) && Torn(x, r, y) && r == if x == j.after then x else j.before
    ensures Torn(j.before, j.after, y) && (y == j.after <==> x == j.after)
  {
    if x == j.after { TornNowhere(x, y); } else { TornTwice(j.before, j.after, x, y); }
  }

  /** Any number of interrupted recoveries. */
  ghost predicate Attempts(j: Journal, xs: seq<Disk>) {
    && xs != []
    && (forall i, n | 0 <= i < |xs| && 0 <= n < |j.snapshots| ::
         j.snapshots[n].offset + |j.snapshots[n].bytes| <= |xs[i].bitmap|)
    && forall i | 0 <= i < |xs| - 1 :: Stopped(j, xs[i], xs[i + 1])
  }

  lemma {:induction false} AttemptsResumable(d: Disk, j: Journal, xs: seq<Disk>, i: nat)
    requires Ready(d, j) && Attempts(j, xs) && Resumable(d, j, xs[0]) && i < |xs|
    ensures Resumable(d, j, xs[i]) && (xs[i].rec == j.after <==> xs[0].rec == j.after)
  {
    hide Resumable, Ready, Stopped;
    if i > 0 {
      AttemptsResumable(d, j, xs, i - 1);
      StoppedIsResumable(d, j, xs[i - 1], xs[i]);
    }
  }

  /** After a power failure anywhere in the move, and any number of power failures in
      recovery, finishing recovery leaves exactly the old volume or exactly the moved
      one: the latter when, and only when, the whole new record had reached the device. */
  lemma MoveIsAtomic(d: Disk, j: Journal, xs: seq<Disk>, i: nat)
    requires Ready(d, j) && Attempts(j, xs) && Interrupted(d, j, xs[0]) && i < |xs|
    ensures Clean(j, Settle(j, xs[i])) == if xs[0].rec == j.after then MoveState(d, j, 5) else d
  {
    var x := xs[i];
    hide Ready, Resumable, Interrupted, Stopped, Settle, MoveState, Exchange;
    InterruptedIsResumable(d, j, xs[0]);
    AttemptsResumable(d, j, xs, i);
    hide Attempts;
    RecoveryOutcome(d, j, x);
  }

  lemma RecoveryOutcome(d: Disk, j: Journal, x: Disk)
    requires Ready(d, j) && Resumable(d, j, x)
    requires forall n | 0 <= n < |j.snapshots| :: j.snapshots[n].offset + |j.snapshots[n].bytes| <= |x.bitmap|
    ensures Clean(j, Settle(j, x)) == if x.rec == j.after then MoveState(d, j, 5) else d
  {
    SettleEffect(d, j, x);
    MovedBitmap(d, j);
    hide Settle, MoveState, Exchange, Covering, Excerpts, SameOutside;
  }

  // ---- The steps, in order ------------------------------------------------------------------------

  class Device {
    var disk: Disk
    /** The device contents at each sync. */
    ghost var synced: seq<Disk>

    constructor (d: Disk)
      ensures disk == d && synced == []
    {
      disk, synced := d, [];
    }

    method Sync()
      modifies this
      ensures disk == old(disk) && synced == old(synced) + [disk]
    {
      synced := synced + [disk];
    }
  }

  predicate InBitmap(runs: seq<Run>, bitmap: nat) {
    forall r | 0 <= r < |runs| && runs[r].Run? :: runs[r].lcn + runs[r].length <= 8 * bitmap
  }

  /** _set_range over every run. */
  method SetRuns(memory: array<bv8>, runs: seq<Run>, value: bool)
    requires InBitmap(runs, memory.Length)
    modifies memory
    ensures memory[..] == SetBits(old(memory[..]), C.Owned(runs), value)
  {
    hide SetBits, Used, SetTo;
    ghost var was := memory[..];
    SetNone(was, value);
    assert runs[..0] == [];
    for r := 0 to |runs|
      invariant memory[..] == SetBits(was, C.Owned(runs[..r]), value)
    {
      ghost var now := memory[..];
      assert runs[..r + 1][..r] == runs[..r];
      if runs[r].Run? {
        SetRange(memory, runs[r].lcn, runs[r].length, value);
        SetMore(was, now, memory[..], C.Owned(runs[..r]), runs[r].lcn, runs[r].lcn + runs[r].length, value);
      } else {
        assert C.Owned(runs[..r + 1]) == C.Owned(runs[..r]);
      }
    }
    assert runs[..|runs|] == runs;
  }

  lemma SetNone(was: seq<bv8>, value: bool)
    ensures SetBits(was, C.Owned([]), value) == was
  {
    hide Used;
    SameBitmap(SetBits(was, C.Owned([]), value), was);
  }

  lemma SetMore(was: seq<bv8>, now: seq<bv8>, after: seq<bv8>, s: set<nat>, lo: nat, hi: nat, value: bool)
    requires now == SetBits(was, s, value) && SetTo(now, after, lo, hi, value)
    ensures after == SetBits(was, s + L.Range(lo, hi), value)
  {
    hide Used;
    forall c: nat | c < 8 * |was| ensures Used(after, c) == Used(SetBits(was, s + L.Range(lo, hi), value), c) {
      C.RangeAt(lo, hi, c);
      assert Used(now, c) == if c in s then value else Used(was, c);
    }
    SameBitmap(after, SetBits(was, s + L.Range(lo, hi), value));
  }

  function ExtentsOf(runs: seq<Run>, clusterSize: nat): seq<E.Extent> {
    seq(|runs|, r requires 0 <= r < |runs| =>
      if runs[r].Run? then E.Extent(runs[r].lcn * clusterSize, runs[r].length * clusterSize) else E.Extent(0, 0))
  }

  /** The copy can run: as many bytes on both sides, inside the device, nothing shared. */
  ghost predicate Copyable(data: seq<Byte>, src: seq<E.Extent>, dst: seq<E.Extent>) {
    && E.Inside(src, |data|) && E.Inside(dst, |data|) && E.Separate(dst) && E.Apart(src, dst)
    && E.Total(src) == E.Total(dst)
  }

  /** The stream reads the same through the old and through the new extents. */
  ghost predicate SameStream(original: seq<Byte>, data: seq<Byte>, src: seq<E.Extent>, dst: seq<E.Extent>)
    requires Copyable(original, src, dst)
  {
    && |data| == |original|
    && forall k: nat | k < E.Total(src) ::
         E.ReadAt(data, src, k) == E.ReadAt(original, src, k) && E.ReadAt(data, dst, k) == E.ReadAt(original, src, k)
  }

  /** Nothing outside the extents has changed. */
  ghost predicate OnlyInside(original: seq<Byte>, data: seq<Byte>, dst: seq<E.Extent>) {
    |data| == |original| && forall p: nat | p < |original| && !E.InExtents(dst, p) :: data[p] == original[p]
  }

  lemma SourceUntouched(original: seq<Byte>, data: seq<Byte>, src: seq<E.Extent>, dst: seq<E.Extent>, k: nat)
    requires Copyable(original, src, dst) && |data| == |original| && k < E.Total(src)
    requires forall p: nat | p < |original| && !E.InExtents(dst, p) :: data[p] == original[p]
    ensures E.ReadAt(data, src, k) == E.ReadAt(original, src, k)
  {
    var i, off := E.LocateFrom(src, k);
    var p := E.Locate(src, k);
    assert E.Covers(src[i], p);
    forall m | 0 <= m < |dst| ensures !E.Covers(dst[m], p) {}
    assert !E.InExtents(dst, p);
  }

  /** Steps after the copy, each followed by a sync. */
  ghost predicate SyncPoints(d: Disk, j: Journal, synced: seq<Disk>) {
    synced == [d, MoveState(d, j, 1), MoveState(d, j, 2), MoveState(d, j, 3), MoveState(d, j, 4), MoveState(d, j, 5)]
  }

  /** The six syncs of a move that starts on `d`: the volume records are the dirty ones from the second to the fifth,
      the new record is there from the fourth on, the destinations are in use from the third on and the released
      clusters free from the fifth on. */
  ghost predicate Guarded(d: Disk, synced: seq<Disk>, after: seq<Sector>, released: seq<Run>, destinations: seq<Run>,
                          volDirty: seq<Sector>, mirrorDirty: seq<Sector>)
  {
    && |synced| == 6
    && (forall k | 0 <= k < 6 :: synced[k].vol == if 1 <= k <= 4 then volDirty else d.vol)
    && (forall k | 0 <= k < 6 :: synced[k].mirror == if 1 <= k <= 4 then mirrorDirty else d.mirror)
    && (forall k | 0 <= k < 6 :: synced[k].rec == if k < 3 then d.rec else after)
    && (forall k | 0 <= k < 6 :: |synced[k].bitmap| == |d.bitmap| && synced[k].data == synced[0].data)
    && (forall k, c: nat | 0 <= k < 6 && c < 8 * |d.bitmap| ::
          Used(synced[k].bitmap, c) ==
          ((Used(d.bitmap, c) || (k >= 2 && InRuns(destinations, c))) && !(k >= 4 && InRuns(released, c))))
  }

  ghost predicate InRuns(runs: seq<Run>, c: nat) {
    exists r | 0 <= r < |runs| :: runs[r].Run? && runs[r].lcn <= c < runs[r].lcn + runs[r].length
  }

  /** Whatever a crash leaves between two syncs, the volume is marked dirty unless the record and the bitmap are the old
      ones or the new ones. */
  ghost predicate AlwaysMarked(d: Disk, synced: seq<Disk>, volDirty: seq<Sector>, mirrorDirty: seq<Sector>)
    requires |synced| == 6
  {
    forall k: nat, x | k < 5 && TornDisk(synced[k], synced[k + 1], x) ::
      || (x.rec == d.rec && x.bitmap == d.bitmap) || (x.rec == synced[5].rec && x.bitmap == synced[5].bitmap)
      || (x.vol == volDirty && x.mirror == mirrorDirty)
  }

  lemma InOwned(runs: seq<Run>, c: nat)
    ensures c in C.Owned(runs) <==> InRuns(runs, c)
  {
    hide C.Owned;
    C.OwnedAt(runs, c);
    if r :| 0 <= r < |runs| && C.Covers(runs[r], c) { assert runs[r].Run?; }
    if r :| 0 <= r < |runs| && runs[r].Run? && runs[r].lcn <= c < runs[r].lcn + runs[r].length {
      assert C.Covers(runs[r], c);
    }
  }

  /** The parts of the device after `k` steps. */
  lemma {:induction false} StateParts(d: Disk, j: Journal, k: nat)
    requires Ready(d, j) && k < 6
    ensures var x := MoveState(d, j, k);
            && x.vol == (if 1 <= k <= 4 then j.volDirty else d.vol)
            && x.mirror == (if 1 <= k <= 4 then j.mirrorDirty else d.mirror)
            && x.rec == (if k < 3 then d.rec else j.after)
            && |x.bitmap| == |d.bitmap| && x.data == d.data
            && forall c: nat | c < 8 * |d.bitmap| ::
                 Used(x.bitmap, c) == ((Used(d.bitmap, c) || (k >= 2 && c in C.Owned(j.destinations))) &&
                                       !(k >= 4 && c in C.Owned(j.released)))
  {
    hide Used, C.Owned, Covering, Excerpts;
    if k > 0 { StateParts(d, j, k - 1); }
  }

  lemma SyncedAt(d: Disk, j: Journal, synced: seq<Disk>)
    requires SyncPoints(d, j, synced)
    ensures |synced| == 6 && forall k: nat | k < 6 :: synced[k] == MoveState(d, j, k)
  {
    hide SetBits, C.Owned;
    forall k: nat | k < 6 ensures synced[k] == MoveState(d, j, k) {
      assert k == 0 || k == 1 || k == 2 || k == 3 || k == 4 || k == 5;
    }
  }

  lemma BitsAt(d: Disk, j: Journal, k: nat, c: nat)
    requires Ready(d, j) && k < 6 && c < 8 * |d.bitmap|
    ensures var bitmap := MoveState(d, j, k).bitmap;
            |bitmap| == |d.bitmap| &&
            Used(bitmap, c) ==
            ((Used(d.bitmap, c) || (k >= 2 && InRuns(j.destinations, c))) && !(k >= 4 && InRuns(j.released, c)))
  {
    hide Used, C.Owned, Ready, InRuns, MoveState;
    StateParts(d, j, k);
    InOwned(j.destinations, c);
    InOwned(j.released, c);
  }

  lemma MoveGuarded(d: Disk, copied: Disk, j: Journal, synced: seq<Disk>)
    requires copied == d.(data := copied.data) && Ready(copied, j) && SyncPoints(copied, j, synced)
    ensures Guarded(d, synced, j.after, j.released, j.destinations, j.volDirty, j.mirrorDirty)
    ensures AlwaysMarked(d, synced, j.volDirty, j.mirrorDirty)
  {
    hide Used, Ready, InRuns, MoveState, AlwaysMarked, SyncPoints;
    MoveMarked(d, copied, j, synced);
    SyncedAt(copied, j, synced);
    forall k: nat | k < 6
      ensures synced[k].vol == (if 1 <= k <= 4 then j.volDirty else d.vol)
      ensures synced[k].mirror == (if 1 <= k <= 4 then j.mirrorDirty else d.mirror)
      ensures synced[k].rec == (if k < 3 then d.rec else j.after)
      ensures |synced[k].bitmap| == |d.bitmap| && synced[k].data == copied.data
    {
      StateParts(copied, j, k);
    }
    forall k: nat, c: nat | k < 6 && c < 8 * |d.bitmap|
      ensures Used(synced[k].bitmap, c) ==
              ((Used(d.bitmap, c) || (k >= 2 && InRuns(j.destinations, c))) && !(k >= 4 && InRuns(j.released, c)))
    {
      BitsAt(copied, j, k, c);
    }
  }

  lemma MoveMarked(d: Disk, copied: Disk, j: Journal, synced: seq<Disk>)
    requires copied == d.(data := copied.data) && Ready(copied, j) && SyncPoints(copied, j, synced)
    ensures AlwaysMarked(d, synced, j.volDirty, j.mirrorDirty)
  {
    hide Used, C.Owned, Covering, Excerpts, SetBits;
    forall k: nat, x | k < 5 && TornDisk(synced[k], synced[k + 1], x)
      ensures
        || (x.rec == d.rec && x.bitmap == d.bitmap) || (x.rec == synced[5].rec && x.bitmap == synced[5].bitmap)
        || (x.vol == j.volDirty && x.mirror == j.mirrorDirty)
    {
      if k == 0 {
        NotTorn(d.rec, x.rec);
        NotTorn(d.bitmap, x.bitmap);
      } else if k < 4 {
        NotTorn(j.volDirty, x.vol);
        NotTorn(j.mirrorDirty, x.mirror);
      } else {
        NotTorn(synced[5].rec, x.rec);
        NotTorn(synced[5].bitmap, x.bitmap);
      }
    }
  }

  lemma NotTorn<T(!new)>(a: seq<T>, x: seq<T>)
    ensures Torn(a, a, x) ==> x == a
  {
  }

  /** _move_extent up to the journal: snapshot the bitmap bytes and copy the data. */
  method PrepareMove(dev: Device, memory: array<bv8>, after: seq<Sector>, released: seq<Run>, destinations: seq<Run>,
                     volDirty: seq<Sector>, mirrorDirty: seq<Sector>, clusterSize: nat, chunk: nat)
    returns (j: Journal)
    requires memory[..] == dev.disk.bitmap && |after| == |dev.disk.rec| && chunk > 0
    requires |volDirty| == |dev.disk.vol| && |mirrorDirty| == |dev.disk.mirror|
    requires InBitmap(released, memory.Length) && InBitmap(destinations, memory.Length)
    requires Copyable(dev.disk.data, ExtentsOf(released, clusterSize), ExtentsOf(destinations, clusterSize))
    modifies dev
    ensures j.after == after && j.released == released && j.destinations == destinations && Ready(dev.disk, j)
    ensures j.volDirty == volDirty && j.mirrorDirty == mirrorDirty
    ensures dev.disk == old(dev.disk).(data := dev.disk.data) && dev.synced == old(dev.synced) + [dev.disk]
    ensures SameStream(old(dev.disk.data), dev.disk.data, ExtentsOf(released, clusterSize),
                       ExtentsOf(destinations, clusterSize))
    ensures OnlyInside(old(dev.disk.data), dev.disk.data, ExtentsOf(destinations, clusterSize))
  {
    hide Covering, Excerpts, Used, SetBits;
    ghost var original := dev.disk.data;
    var src, dst := ExtentsOf(released, clusterSize), ExtentsOf(destinations, clusterSize);
    InBoth(released, destinations, memory.Length);
    var snapshots := BitmapPatchesForRuns(memory[..], released + destinations);
    CoversBoth(snapshots, released, destinations);
    var start := dev.disk;
    j := Journal(start.rec, after, released, destinations, snapshots, start.vol, volDirty, start.mirror, mirrorDirty);
    var copied := E.CopyExtents(start.data, src, dst, chunk);
    forall k: nat | k < E.Total(src) ensures E.ReadAt(copied, src, k) == E.ReadAt(original, src, k) {
      SourceUntouched(original, copied, src, dst, k);
    }
    dev.disk := start.(data := copied);
    dev.Sync();
  }

  lemma InBoth(a: seq<Run>, b: seq<Run>, bitmap: nat)
    requires InBitmap(a, bitmap) && InBitmap(b, bitmap)
    ensures InBitmap(a + b, bitmap)
  {
  }

  /** _move_extent from the journal on: mark dirty, reserve, switch the record,
      release, mark clean, with a sync after each. */
  method CommitMove(dev: Device, memory: array<bv8>, j: Journal)
    requires memory[..] == dev.disk.bitmap && Ready(dev.disk, j) && dev.synced == [dev.disk]
    requires InBitmap(j.released, memory.Length) && InBitmap(j.destinations, memory.Length)
    modifies dev, memory
    ensures dev.disk == MoveState(old(dev.disk), j, 5) && memory[..] == dev.disk.bitmap
    ensures SyncPoints(old(dev.disk), j, dev.synced)
  {
    hide Covering, Excerpts, Used, WritePatches, CurrentPatches, InBitmap, SetBits, MoveState;
    ghost var d := dev.disk;
    States(d, j);
    dev.disk := dev.disk.(vol := j.volDirty, mirror := j.mirrorDirty);
    dev.Sync();
    SetRuns(memory, j.destinations, true);
    Level(d, j, d.bitmap, memory[..], true);
    dev.disk := dev.disk.(bitmap := WritePatches(dev.disk.bitmap, CurrentPatches(memory[..], j.snapshots)));
    assert dev.disk == MoveState(d, j, 2);
    dev.Sync();
    dev.disk := dev.disk.(rec := j.after);
    dev.Sync();
    ghost var reserved := memory[..];
    SetRuns(memory, j.released, false);
    Level(d, j, reserved, memory[..], false);
    dev.disk := dev.disk.(bitmap := WritePatches(dev.disk.bitmap, CurrentPatches(memory[..], j.snapshots)));
    assert dev.disk == MoveState(d, j, 4);
    dev.Sync();
    dev.disk := dev.disk.(vol := j.volBefore, mirror := j.mirrorBefore);
    dev.Sync();
  }

  /** _recover_loaded: settle the record and bitmap, sync, restore the $Volume records. */
  method RecoverLoaded(dev: Device, j: Journal, ghost d: Disk)
    requires Ready(d, j) && Resumable(d, j, dev.disk) && InBitmap(j.released, |d.bitmap|)
    requires InBitmap(j.destinations, |d.bitmap|)
    requires dev.synced == []
    modifies dev
    ensures dev.disk == if old(dev.disk.rec) == j.after then MoveState(d, j, 5) else d
    ensures |dev.synced| == 2 && dev.synced[0] == old(Settle(j, dev.disk)) && dev.synced[1] == dev.disk
  {
    ghost var x := dev.disk;
    ResumableFits(d, j, x);
    RecoveryOutcome(d, j, x);
    assert |x.bitmap| == |d.bitmap|;
    hide Covering, Excerpts, Used, WritePatches, CurrentPatches, SetBits, MoveState, Ready, Resumable, InBitmap;
    if dev.disk.rec == j.after {
      var memory := new bv8[|dev.disk.bitmap|](i requires 0 <= i < |dev.disk.bitmap| reads dev => dev.disk.bitmap[i]);
      assert memory[..] == x.bitmap;
      SetRuns(memory, j.destinations, true);
      SetRuns(memory, j.released, false);
      dev.disk := dev.disk.(bitmap := WritePatches(dev.disk.bitmap, CurrentPatches(memory[..], j.snapshots)));
    } else {
      dev.disk := dev.disk.(rec := j.before, bitmap := WritePatches(dev.disk.bitmap, j.snapshots));
    }
    dev.Sync();
    dev.disk := dev.disk.(vol := j.volBefore, mirror := j.mirrorBefore);
    dev.Sync();
  }

  lemma States(d: Disk, j: Journal)
    ensures MoveState(d, j, 1) == d.(vol := j.volDirty, mirror := j.mirrorDirty)
    ensures MoveState(d, j, 2) == MoveState(d, j, 1).(bitmap := SetBits(d.bitmap, C.Owned(j.destinations), true))
    ensures MoveState(d, j, 3) == MoveState(d, j, 2).(rec := j.after)
    ensures MoveState(d, j, 4) ==
      MoveState(d, j, 3).(bitmap := SetBits(MoveState(d, j, 3).bitmap, C.Owned(j.released), false))
    ensures MoveState(d, j, 5) == MoveState(d, j, 4).(vol := j.volBefore, mirror := j.mirrorBefore)
  {
  }

  lemma CoversBoth(ps: seq<Patch>, released: seq<Run>, destinations: seq<Run>)
    requires Covering(ps, C.Owned(released + destinations))
    ensures Covering(ps, C.Owned(released) + C.Owned(destinations))
  {
    var all := released + destinations;
    forall c | c in C.Owned(released) + C.Owned(destinations) ensures Covered(ps, c / 8) {
      C.OwnedAt(released, c);
      C.OwnedAt(destinations, c);
      C.OwnedAt(all, c);
      if r :| 0 <= r < |released| && C.Covers(released[r], c) { assert C.Covers(all[r], c); }
      if r :| 0 <= r < |destinations| && C.Covers(destinations[r], c) { assert C.Covers(all[|released| + r], c); }
    }
  }

  /** Patching the device after one change of the memory image makes them equal. */
  lemma Level(d: Disk, j: Journal, disk: seq<bv8>, memory: seq<bv8>, value: bool)
    requires Excerpts(j.snapshots, d.bitmap) && Covering(j.snapshots, Affected(j)) && |disk| == |d.bitmap|
    requires memory == SetBits(disk, if value then C.Owned(j.destinations) else C.Owned(j.released), value)
    ensures forall n | 0 <= n < |j.snapshots| :: j.snapshots[n].offset + |j.snapshots[n].bytes| <= |memory|
    ensures WritePatches(disk, CurrentPatches(memory, j.snapshots)) == memory
  {
    assert SameOutside(memory, disk, Affected(j));
    PatchesSuffice(disk, memory, Affected(j), j.snapshots);
  }
}
