/** One journalled move of an NTFS stream: what the MFT record and the bitmap say afterwards. */
module NtfsTransaction {
  import opened Basics
  import opened Arithmetic
  import opened NtfsRunlist
  import opened NtfsBitmap
  import opened NtfsRecord
  import F = NtfsFixups
  import opened M = NtfsMove
  import C = NtfsCompact
  import S = NtfsContents

  // ---- Records and sectors -------------------------------------------------------------------

  ghost predicate Sectored(sectors: seq<Sector>, size: nat) {
    size >= 1 && forall i | 0 <= i < |sectors| :: |sectors[i]| == size
  }

  lemma Parts(k: nat, size: nat, n: nat)
    requires size >= 1 && k < n * size
    ensures k / size < n && k == k / size * size + k % size
  {
    if k / size >= n { Times(n, k / size, size); }
  }

  /** The record the sectors hold. */
  function Joined(sectors: seq<Sector>, size: nat): (rec: F.Record)
    requires size >= 1 && forall i | 0 <= i < |sectors| :: |sectors[i]| == size
    ensures |rec| == |sectors| * size
    ensures forall k: nat | k < |rec| :: k / size < |sectors| && rec[k] == sectors[k / size][k % size]
  {
    assert forall k: nat | k < |sectors| * size :: k / size < |sectors| by {
      forall k: nat | k < |sectors| * size ensures k / size < |sectors| { Parts(k, size, |sectors|); }
    }
    seq(|sectors| * size, k requires 0 <= k < |sectors| * size => sectors[k / size][k % size])
  }

  /** The sectors hold a record of a size the reader accepts. */
  ghost predicate IsRecord(sectors: seq<Sector>, size: nat) {
    Sectored(sectors, size) && F.RecordSized(|Joined(sectors, size)|, size)
  }

  /** The sectors of a record. */
  function Cut(rec: F.Record, size: nat): (sectors: seq<Sector>)
    requires size >= 1
    ensures |sectors| == |rec| / size
    ensures forall i: nat | i < |sectors| :: i * size + size <= |rec| && sectors[i] == rec[i * size..i * size + size]
  {
    AllWhole(size, |rec|);
    seq(|rec| / size, i requires 0 <= i < |rec| / size => rec[i * size..i * size + size])
  }

  lemma AllWhole(size: nat, len: nat)
    requires size >= 1
    ensures forall i: nat | i < len / size :: 0 <= i * size && i * size + size <= len
  {
    forall i: nat | i < len / size ensures 0 <= i * size && i * size + size <= len { Whole(i, size, len); }
  }

  lemma Whole(i: nat, size: nat, len: nat)
    requires size >= 1 && i < len / size
    ensures 0 <= i * size && i * size + size <= len
  {
    Position(i, 0, size, len / size);
    assert len / size * size <= len;
  }

  lemma CutIsSectored(rec: F.Record, size: nat)
    requires size >= 1
    ensures Sectored(Cut(rec, size), size)
  {
    hide Cut;
  }

  lemma JoinCut(rec: F.Record, size: nat)
    requires F.RecordSized(|rec|, size)
    ensures Sectored(Cut(rec, size), size) && Joined(Cut(rec, size), size) == rec
  {
    hide Cut, Joined;
    CutIsSectored(rec, size);
    var sectors := Cut(rec, size);
    assert |sectors| * size == |rec|;
    forall k: nat | k < |rec| ensures Joined(sectors, size)[k] == rec[k] {
      Parts(k, size, |sectors|);
      assert sectors[k / size] == rec[k / size * size..k / size * size + size];
    }
  }

  lemma JoinedAt(sectors: seq<Sector>, size: nat, i: nat, q: nat)
    requires Sectored(sectors, size) && i < |sectors| && q < size
    ensures i * size + q < |sectors| * size && Joined(sectors, size)[i * size + q] == sectors[i][q]
  {
    hide Joined;
    Position(i, q, size, |sectors|);
  }

  lemma JoinedInjective(a: seq<Sector>, b: seq<Sector>, size: nat)
    requires Sectored(a, size) && Sectored(b, size) && |a| == |b| && Joined(a, size) == Joined(b, size)
    ensures a == b
  {
    hide Joined;
    forall i: nat | i < |a| ensures a[i] == b[i] {
      forall q: nat | q < size ensures a[i][q] == b[i][q] {
        JoinedAt(a, size, i, q);
        JoinedAt(b, size, i, q);
      }
    }
  }

  /** A device holding sectors of two images holds a torn record. */
  lemma TornJoined(a: seq<Sector>, b: seq<Sector>, x: seq<Sector>, size: nat)
    requires Sectored(a, size) && Sectored(b, size) && Torn(a, b, x)
    ensures Sectored(x, size) && F.TornRecord(Joined(x, size), Joined(a, size), Joined(b, size), |a| + 1, size)
  {
    hide Joined;
    forall m: nat | 1 <= m < |a| + 1
      ensures F.FromSector(Joined(x, size), Joined(a, size), m, size) ||
        F.FromSector(Joined(x, size), Joined(b, size), m, size)
    {
      if x[m - 1] == a[m - 1] { SameSector(x, a, m, size); } else { SameSector(x, b, m, size); }
    }
  }

  lemma SameSector(x: seq<Sector>, a: seq<Sector>, m: nat, size: nat)
    requires Sectored(x, size) && Sectored(a, size) && |x| == |a| && 1 <= m <= |a| && x[m - 1] == a[m - 1]
    ensures F.FromSector(Joined(x, size), Joined(a, size), m, size)
  {
    hide Joined;
    var jx, ja := Joined(x, size), Joined(a, size);
    forall k: nat | k < |jx| && F.End(m, size) + 2 - size <= k < F.End(m, size) + 2 ensures jx[k] == ja[k] {
      assert k / size == m - 1 by { InSector(k, m, size); }
    }
  }

  lemma InSector(k: nat, m: nat, size: nat)
    requires m >= 1 && size >= 1 && F.End(m, size) + 2 - size <= k < F.End(m, size) + 2
    ensures k / size == m - 1
  {
    assert m * size - size == size * (m - 1);
    Remainder(k, size, m - 1, k - size * (m - 1));
  }

  // ---- Reading a record ------------------------------------------------------------------------

  /** The attribute list a reader of the stored record gets. */
  function Read(raw: F.Record, size: nat): Result<seq<Attribute>>
    requires F.RecordSized(|raw|, size)
  {
    match F.Apply(raw, size)
    case Error => Error
    case Ok(fixed) => Attributes(fixed)
  }

  /** A record the scan accepted, with a nonresident attribute at `n`. */
  ghost predicate Scanned(raw: F.Record, size: nat, n: nat) {
    && ArrayApart(raw, size) && F.U16(raw, 4) + 2 <= size && Read(raw, size).Ok?
    && n < |Read(raw, size).value| && Read(raw, size).value[n].nonresident
  }

  lemma FixedApart(raw: F.Record, size: nat)
    requires ArrayApart(raw, size) && F.Apply(raw, size).Ok?
    ensures ArrayApart(F.Apply(raw, size).value, size)
  {
    var off, count := F.U16(raw, 4), F.U16(raw, 6);
    F.ApplyAt(raw, raw[off], raw[off + 1], off, 1, count, size);
    forall k | 0 <= k < 32 ensures !F.IsEnd(k, 1, count, size) { EarlyByte(count, size, k); }
    hide F.End, F.ApplyFrom, F.IsEnd, F.Shaped, F.Framed;
    var fixed := F.Apply(raw, size).value;
    assert forall k | 0 <= k < 32 :: fixed[k] == raw[k];
    HeaderWords(raw, fixed);
  }

  lemma EarlyByte(count: nat, size: nat, k: int)
    requires size >= 256 && 0 <= k < 32
    ensures !F.IsEnd(k, 1, count, size)
  {
    forall m: nat | 1 <= m < count ensures !F.WordAt(k, m, size) { F.Product(m, size); }
  }

  lemma ScannedFacts(raw: F.Record, size: nat, n: nat)
    requires Scanned(raw, size, n)
    ensures F.RecordSized(|raw|, size) && F.Apply(raw, size).Ok? && ArrayApart(F.Apply(raw, size).value, size)
    ensures var fixed := F.Apply(raw, size).value; var attr := Read(raw, size).value[n];
            && |fixed| == |raw| && Attributes(fixed) == Read(raw, size) && Rewritable(fixed, attr)
            && F.U16(fixed, 20) <= attr.offset
            && attr.length >= 64
            && ParseAttribute(fixed[attr.offset..attr.offset + attr.length], attr.offset) == Ok(attr)
  {
    hide F.Apply, ParseBody, F.U16, U32, Stands, ParseAttribute, InUse, Attributes, F.Shaped, F.ArrayFits;
    FixedApart(raw, size);
    var fixed := F.Apply(raw, size).value;
    BodyOf(fixed);
    var pos := F.U16(fixed, 20);
    AttributeStands(fixed[pos..InUse(fixed)], pos, n);
    var attr := Read(raw, size).value[n];
    StandsIn(fixed, pos, InUse(fixed), attr);
    NonresidentPlaced(fixed[attr.offset..attr.offset + attr.length], attr.offset, attr);
  }

  lemma NonresidentPlaced(b: seq<Byte>, offset: nat, attr: Attribute)
    requires |b| >= 24 && ParseAttribute(b, offset) == Ok(attr) && attr.nonresident
    ensures 64 <= attr.runOffset < |b| == attr.length
  {
    hide Decode;
  }

  // ---- The record switch -------------------------------------------------------------------------

  /** `after` is the stored record with the runs of attribute `n` replaced. */
  ghost predicate Switches(raw: F.Record, after: F.Record, size: nat, n: nat, runs: seq<Run>) {
    && Scanned(raw, size, n) && F.Apply(raw, size).Ok? && Placed(F.Apply(raw, size).value, Read(raw, size).value[n])
    && UpdatedRecord(F.Apply(raw, size).value, Read(raw, size).value[n], runs, size) == Ok(after)
  }

  /** Old and new image differ, and the new one reads as the old with the runs exchanged. */
  lemma SwitchReads(raw: F.Record, after: F.Record, size: nat, n: nat, runs: seq<Run>)
    requires Switches(raw, after, size, n, runs)
    ensures |after| == |raw| && F.RecordSized(|after|, size) && after != raw
    ensures var fixed, attrs := F.Apply(raw, size).value, Read(raw, size).value;
            && PlanRewrite(fixed, attrs[n], runs).Ok?
            && Read(after, size) ==
               Ok(attrs[..n] + [Updated(fixed, attrs[n], runs)] + Shift(attrs[n + 1..],
                                                                        PlanRewrite(fixed, attrs[n], runs).value.1))
            && n < |Read(after, size).value| && Read(after, size).value[n].runs == Coalesce(runs)
  {
    ScannedFacts(raw, size, n);
    var fixed := F.Apply(raw, size).value;
    var attr := Read(raw, size).value[n];
    assert PlanRewrite(fixed, attr, runs).Ok?;
    UpdatedRecordReparses(fixed, n, runs, size);
    NewNumber(raw, after, size, n, runs);
    hide F.Apply, Attributes, Updated, UpdatedRecord, Shift, Coalesce, PlanRewrite, ArrayApart;
    assert Updated(fixed, attr, runs).runs == Coalesce(runs) by { UpdatedRuns(fixed, attr, runs); }
  }

  lemma UpdatedRuns(fixed: F.Record, attr: Attribute, runs: seq<Run>)
    requires Placed(fixed, attr) && PlanRewrite(fixed, attr, runs).Ok?
    ensures Updated(fixed, attr, runs).runs == Coalesce(runs)
  {
  }

  /** The update-sequence number of the new image is another one. */
  lemma NewNumber(raw: F.Record, after: F.Record, size: nat, n: nat, runs: seq<Run>)
    requires Switches(raw, after, size, n, runs)
    ensures |after| == |raw| && after != raw
  {
    ScannedFacts(raw, size, n);
    var fixed := F.Apply(raw, size).value;
    var attr := Read(raw, size).value[n];
    var out := Rewrite(fixed, attr, runs).value;
    F.ReadKeepsNumber(raw, size);
    RewriteHead(fixed, attr, runs, size);
    NumberUnwritten(fixed, attr, runs);
    F.PreparedImage(out, size);
    hide F.Apply, F.Prepare, Rewrite, F.Shaped, F.Framed, F.ArrayFits, Attributes;
    assert F.U16(after, F.U16(raw, 4)) == F.NextNumber(F.U16(raw, F.U16(raw, 4)));
  }

  /** A record with sectors of both images is one of them or rejected by every reader. */
  lemma SwitchTorn(raw: F.Record, after: F.Record, size: nat, n: nat, runs: seq<Run>, x: F.Record)
    requires Switches(raw, after, size, n, runs) && F.TornRecord(x, raw, after, |raw| / size + 1, size)
    ensures F.RecordSized(|x|, size) && (x == raw || x == after || Read(x, size).Error?)
  {
    ScannedFacts(raw, size, n);
    assert F.U16(raw, 6) == |raw| / size + 1;
    hide F.Apply, Rewrite, F.Shaped, F.Framed, Attributes, UpdatedRecord;
    SwitchIsDetected(raw, Read(raw, size).value[n], runs, size, x);
  }

  // ---- Record and bitmap together ----------------------------------------------------------------

  /** A cluster belongs to a runlist when some logical cluster lies there. */
  lemma {:induction false} OwnedPlaces(runs: seq<Run>, c: nat)
    ensures c in C.Owned(runs) <==> At(c) in Places(runs)
  {
    if runs != [] {
      var front, last := runs[..|runs| - 1], runs[|runs| - 1];
      OwnedPlaces(front, c);
      if last.Run? {
        C.RangeAt(last.lcn, last.lcn + last.length, c);
        if last.lcn <= c < last.lcn + last.length { assert PlacesOf(last)[c - last.lcn] == At(c); }
      }
    }
  }

  lemma OwnedCoalesced(runs: seq<Run>)
    ensures C.Owned(Coalesce(runs)) == C.Owned(runs)
  {
    hide C.Owned, Places, Coalesce;
    forall c: nat ensures c in C.Owned(Coalesce(runs)) <==> c in C.Owned(runs) {
      OwnedPlaces(runs, c);
      OwnedPlaces(Coalesce(runs), c);
    }
  }

  /** Of the clusters in `area`, exactly those of `runs` are allocated. */
  ghost predicate Matches(bitmap: seq<bv8>, runs: seq<Run>, area: set<nat>) {
    && C.Owned(runs) <= area
    && forall c: nat | c in area :: c < 8 * |bitmap| && (Used(bitmap, c) <==> c in C.Owned(runs))
  }

  /** The journal replaces the released clusters of one stream by the destinations, in record and bitmap. */
  ghost predicate MovesStream(d: Disk, j: Journal, size: nat, n: nat, runs: seq<Run>) {
    && Ready(d, j) && Sectored(j.before, size) && Sectored(j.after, size)
    && Switches(Joined(j.before, size), Joined(j.after, size), size, n, runs)
    && var was := Read(Joined(j.before, size), size).value[n].runs;
       && C.Owned(j.released) <= C.Owned(was) && C.Owned(j.destinations) !! C.Owned(was)
       && C.Owned(runs) == C.Owned(was) - C.Owned(j.released) + C.Owned(j.destinations)
       && Matches(d.bitmap, was, C.Owned(was) + C.Owned(j.destinations))
  }

  /** The stored record reads, and the bitmap agrees with the runs it maps. */
  ghost predicate Mapped(x: Disk, size: nat, n: nat, area: set<nat>, attrs: seq<Attribute>) {
    && n < |attrs| && IsRecord(x.rec, size)
    && Read(Joined(x.rec, size), size) == Ok(attrs) && Matches(x.bitmap, attrs[n].runs, area)
  }

  lemma OldMapped(d: Disk, j: Journal, size: nat, n: nat, runs: seq<Run>)
    requires MovesStream(d, j, size, n, runs)
    ensures var attrs := Read(Joined(j.before, size), size).value;
            Mapped(d, size, n, C.Owned(attrs[n].runs) + C.Owned(j.destinations), attrs)
  {
    hide Joined, Read, Switches, Matches;
    SwitchSized(Joined(j.before, size), Joined(j.after, size), size, n, runs);
  }

  lemma SwitchSized(raw: F.Record, after: F.Record, size: nat, n: nat, runs: seq<Run>)
    requires Switches(raw, after, size, n, runs)
    ensures F.RecordSized(|raw|, size) && Read(raw, size).Ok? && n < |Read(raw, size).value|
  {
  }

  lemma NewMapped(d: Disk, j: Journal, size: nat, n: nat, runs: seq<Run>)
    requires MovesStream(d, j, size, n, runs)
    ensures var was := Read(Joined(j.before, size), size).value[n].runs;
            var area := C.Owned(was) + C.Owned(j.destinations);
            && F.RecordSized(|Joined(j.after, size)|, size) && Read(Joined(j.after, size), size).Ok?
            && var attrs := Read(Joined(j.after, size), size).value;
               n < |attrs| && attrs[n].runs == Coalesce(runs) && Mapped(MoveState(d, j, 5), size, n, area, attrs)
  {
    hide Joined, Read, MoveState, C.Owned, SetBits, Used, Coalesce, Covering, Excerpts;
    var raw, after := Joined(j.before, size), Joined(j.after, size);
    SwitchSized(raw, after, size, n, runs);
    SwitchReads(raw, after, size, n, runs);
    hide Switches, Updated, PlanRewrite, F.Apply, Shift;
    var was := Read(raw, size).value[n].runs;
    OwnedCoalesced(runs);
    MovedBitmap(d, j);
    ExchangeMatches(d.bitmap, j, was, runs);
  }

  lemma ExchangeMatches(bitmap: seq<bv8>, j: Journal, was: seq<Run>, runs: seq<Run>)
    requires C.Owned(j.released) <= C.Owned(was) && C.Owned(j.destinations) !! C.Owned(was)
    requires C.Owned(runs) == C.Owned(was) - C.Owned(j.released) + C.Owned(j.destinations)
    requires Matches(bitmap, was, C.Owned(was) + C.Owned(j.destinations))
    ensures C.Owned(Coalesce(runs)) == C.Owned(runs) ==>
      Matches(Exchange(bitmap, j), Coalesce(runs), C.Owned(was) + C.Owned(j.destinations))
  {
    hide C.Owned, Used, Coalesce;
    var after := Exchange(bitmap, j);
    forall c: nat | c in C.Owned(was) + C.Owned(j.destinations)
      ensures c < 8 * |after| && (Used(after, c) <==> c in C.Owned(runs))
    {
      assert Used(after, c) ==
        if c in C.Owned(j.released) then false else if c in C.Owned(j.destinations) then true else Used(bitmap, c);
    }
  }

  /** Wherever the power fails, the record on the device reads as the old mapping, reads as the new one, or is
      rejected by every reader. */
  lemma InterruptedReads(d: Disk, j: Journal, size: nat, n: nat, runs: seq<Run>, x: Disk)
    requires MovesStream(d, j, size, n, runs) && Interrupted(d, j, x)
    ensures IsRecord(x.rec, size)
    ensures x.rec == j.before || x.rec == j.after || Read(Joined(x.rec, size), size).Error?
  {
    hide MovesStream, Ready, Switches, Interrupted, Joined, Read, Torn;
    StreamSwitches(d, j, size, n, runs);
    InterruptedTorn(d, j, x);
    TornReads(j.before, j.after, x.rec, size, n, runs);
  }

  lemma StreamSwitches(d: Disk, j: Journal, size: nat, n: nat, runs: seq<Run>)
    requires MovesStream(d, j, size, n, runs)
    ensures Ready(d, j) && Sectored(j.before, size) && Sectored(j.after, size)
    ensures Switches(Joined(j.before, size), Joined(j.after, size), size, n, runs)
  {
    hide Ready, Switches, Joined, Read, Matches, C.Owned;
  }

  lemma InterruptedTorn(d: Disk, j: Journal, x: Disk)
    requires Ready(d, j) && Interrupted(d, j, x)
    ensures Torn(j.before, j.after, x.rec)
  {
    hide Ready, Interrupted, Torn, SameOutside;
    InterruptedIsResumable(d, j, x);
  }

  lemma TornReads(before: seq<Sector>, after: seq<Sector>, x: seq<Sector>, size: nat, n: nat, runs: seq<Run>)
    requires Sectored(before, size) && Sectored(after, size) && Torn(before, after, x)
    requires Switches(Joined(before, size), Joined(after, size), size, n, runs)
    ensures IsRecord(x, size)
    ensures x == before || x == after || Read(Joined(x, size), size).Error?
  {
    hide Joined, Read, Switches, F.TornRecord;
    var raw := Joined(before, size);
    SwitchSized(raw, Joined(after, size), size, n, runs);
    TornJoined(before, after, x, size);
    SectorCount(before, size);
    SwitchTorn(raw, Joined(after, size), size, n, runs, Joined(x, size));
    if Joined(x, size) == raw { JoinedInjective(x, before, size); }
    if Joined(x, size) == Joined(after, size) { JoinedInjective(x, after, size); }
  }

  lemma SectorCount(sectors: seq<Sector>, size: nat)
    requires Sectored(sectors, size)
    ensures |Joined(sectors, size)| / size == |sectors|
  {
    hide Joined;
    Remainder(|Joined(sectors, size)|, size, |sectors|, 0);
  }

  /** After a power failure anywhere in the move and any number of them in recovery, finishing recovery leaves
      either the old mapping or the new one.  The record reads, exactly its runs are allocated among the old and new
      clusters, and everything else is as it was: other bits, the data, both $Volume records. */
  lemma RecoveredMapping(d: Disk, j: Journal, size: nat, n: nat, runs: seq<Run>, xs: seq<Disk>, i: nat)
    requires MovesStream(d, j, size, n, runs) && Attempts(j, xs) && Interrupted(d, j, xs[0]) && i < |xs|
    ensures j.after != j.before
    ensures F.RecordSized(|Joined(j.after, size)|, size) && Read(Joined(j.after, size), size).Ok?
    ensures var before := Read(Joined(j.before, size), size).value;
            var r, area := Clean(j, Settle(j, xs[i])), C.Owned(before[n].runs) + C.Owned(j.destinations);
            && SameOutside(d.bitmap, r.bitmap, Affected(j)) && r.data == d.data && r.vol == d.vol
            && r.mirror == d.mirror
            && if xs[0].rec == j.after
               then
                 var after := Read(Joined(j.after, size), size).value;
                 Mapped(r, size, n, area, after) && after[n].runs == Coalesce(runs)
               else Mapped(r, size, n, area, before)
  {
    hide Joined, Read, Interrupted, Matches, C.Owned, Covering, Excerpts, SameOutside, Mapped, Settle, Coalesce,
         MoveState, Attempts, Stopped;
    var raw, after := Joined(j.before, size), Joined(j.after, size);
    NewNumber(raw, after, size, n, runs);
    SwitchSized(raw, after, size, n, runs);
    hide Switches;
    OldMapped(d, j, size, n, runs);
    NewMapped(d, j, size, n, runs);
    MoveIsAtomic(d, j, xs, i);
    AttemptsFit(j, xs, i);
    MovedBitmap(d, j);
    ExchangeOutside(d.bitmap, j);
    OutsideItself(d.bitmap, Affected(j));
  }

  /** The stream through the record recovery leaves has the bytes it had before the move. */
  lemma RecoveredContents(d: Disk, copied: Disk, j: Journal, size: nat, n: nat, runs: seq<Run>, xs: seq<Disk>, i: nat,
                          clusterSize: nat)
    requires IsRecord(d.rec, size) && Scanned(Joined(d.rec, size), size, n) && copied == d.(data := copied.data)
    requires Carries(d, copied, size, n, runs, clusterSize) && MovesStream(copied, j, size, n, runs)
    requires Attempts(j, xs) && Interrupted(copied, j, xs[0]) && i < |xs|
    ensures forall n | 0 <= n < |j.snapshots| :: j.snapshots[n].offset + |j.snapshots[n].bytes| <= |xs[i].bitmap|
    ensures var r := Clean(j, Settle(j, xs[i]));
            exists attrs: seq<Attribute> ::
              && Mapped(r, size, n, C.Owned(OldRuns(d, size, n)) + C.Owned(j.destinations), attrs)
              && S.SameContents(d.data, OldRuns(d, size, n), r.data, attrs[n].runs, clusterSize)
  {
    hide Joined, Read, Interrupted, Matches, C.Owned, SameOutside, Mapped, Settle, Coalesce, Attempts, Switches,
         Scanned, Covering, Excerpts, S.SameContents;
    AttemptsFit(j, xs, i);
    RecoveredMapping(copied, j, size, n, runs, xs, i);
    SwitchSized(Joined(j.before, size), Joined(j.after, size), size, n, runs);
    var r := Clean(j, Settle(j, xs[i]));
    var before, after := Read(Joined(j.before, size), size).value, Read(Joined(j.after, size), size).value;
    assert before[n].runs == OldRuns(d, size, n);
    var attrs := if xs[0].rec == j.after then after else before;
    assert Mapped(r, size, n, C.Owned(OldRuns(d, size, n)) + C.Owned(j.destinations), attrs);
  }

  lemma AttemptsFit(j: Journal, xs: seq<Disk>, i: nat)
    requires Attempts(j, xs) && i < |xs|
    ensures forall n | 0 <= n < |j.snapshots| :: j.snapshots[n].offset + |j.snapshots[n].bytes| <= |xs[i].bitmap|
  {
  }

  // ---- The whole move ------------------------------------------------------------------------------

  /** The runs of the scanned stream. */
  ghost function OldRuns(d: Disk, size: nat, n: nat): seq<Run>
    requires IsRecord(d.rec, size) && Scanned(Joined(d.rec, size), size, n)
  {
    Read(Joined(d.rec, size), size).value[n].runs
  }

  /** What _move_extent is called with: a scanned stream without sparse runs, all of whose runs are released for
      free destinations, which become its new runs in this order. */
  ghost predicate Movable(d: Disk, size: nat, n: nat, runs: seq<Run>, released: seq<Run>, destinations: seq<Run>) {
    && IsRecord(d.rec, size) && Scanned(Joined(d.rec, size), size, n)
    && var was := OldRuns(d, size, n);
       && released == was && runs == destinations && Physical(was) && Physical(destinations)
       && C.Owned(destinations) !! C.Owned(was) && Matches(d.bitmap, was, C.Owned(was) + C.Owned(destinations))
  }

  /** The stream reads as on `d`, through the old runs and through the new ones. */
  ghost predicate Carries(d: Disk, x: Disk, size: nat, n: nat, runs: seq<Run>, clusterSize: nat)
    requires IsRecord(d.rec, size) && Scanned(Joined(d.rec, size), size, n)
  {
    && S.SameContents(d.data, OldRuns(d, size, n), x.data, OldRuns(d, size, n), clusterSize)
    && S.SameContents(d.data, OldRuns(d, size, n), x.data, Coalesce(runs), clusterSize)
  }

  lemma CopyCarries(d: Disk, x: Disk, size: nat, n: nat, runs: seq<Run>, released: seq<Run>, destinations: seq<Run>,
                    clusterSize: nat)
    requires Movable(d, size, n, runs, released, destinations) && clusterSize > 0
    requires Copyable(d.data, ExtentsOf(released, clusterSize), ExtentsOf(destinations, clusterSize))
    requires SameStream(d.data, x.data, ExtentsOf(released, clusterSize), ExtentsOf(destinations, clusterSize))
    ensures Carries(d, x, size, n, runs, clusterSize)
  {
    hide Joined, Read, C.Owned, Matches, Scanned, Coalesce, SameStream, Copyable, ExtentsOf, S.SameContents, OldRuns,
         Places;
    S.CopiedContents(d.data, x.data, released, destinations, clusterSize);
    S.SamePlaces(d.data, released, x.data, destinations, Coalesce(runs), clusterSize);
  }

  lemma BecomesMove(d: Disk, j: Journal, after: F.Record, size: nat, n: nat, runs: seq<Run>)
    requires Movable(d, size, n, runs, j.released, j.destinations) && Ready(d, j) && j.after == Cut(after, size)
    requires Switches(Joined(d.rec, size), after, size, n, runs) && F.RecordSized(|after|, size)
    ensures MovesStream(d, j, size, n, runs)
  {
    hide Joined, Cut, Read, Switches, Matches, C.Owned, Scanned, Covering, Excerpts;
    JoinCut(after, size);
  }

  /** The new record image, or an error exactly when the record cannot take the new runs. */
  method NewRecord(raw: F.Record, size: nat, n: nat, runs: seq<Run>) returns (r: Result<F.Record>)
    requires Scanned(raw, size, n)
    ensures r.Ok? ==> Switches(raw, r.value, size, n, runs) && |r.value| == |raw|
    ensures r.Error? ==> forall after :: !Switches(raw, after, size, n, runs)
  {
    hide F.Apply, UpdatedRecord, Attributes, ArrayApart;
    ScannedFacts(raw, size, n);
    var fixed := F.ApplyFixups(raw, size);
    var attrs := ReadAttributes(fixed.value);
    r := UpdatedRecordRuns(fixed.value, attrs.value[n], runs, size);
    if r.Ok? { NewNumber(raw, r.value, size, n, runs); }
  }

  /** The finished move, seen from the device it started on. */
  ghost predicate Finished(d: Disk, x: Disk, size: nat, n: nat, runs: seq<Run>, released: seq<Run>,
                           destinations: seq<Run>, clusterSize: nat)
    requires Movable(d, size, n, runs, released, destinations)
  {
    && (exists attrs: seq<Attribute> ::
          && Mapped(x, size, n, C.Owned(OldRuns(d, size, n)) + C.Owned(destinations), attrs)
          && attrs[n].runs == Coalesce(runs)
          && S.SameContents(d.data, OldRuns(d, size, n), x.data, attrs[n].runs, clusterSize))
    && OnlyInside(d.data, x.data, ExtentsOf(destinations, clusterSize)) && x.vol == d.vol && x.mirror == d.mirror
  }

  /** _move_extent: refuses without writing exactly when the record cannot take the new runs; otherwise the record maps
      the new runs, the bitmap agrees, through these runs the stream reads as before, and no data outside the
      destinations changed. */
  method MoveExtent(dev: Device, memory: array<bv8>, size: nat, n: nat, runs: seq<Run>, released: seq<Run>,
                    destinations: seq<Run>,
                    volDirty: seq<Sector>, mirrorDirty: seq<Sector>, clusterSize: nat, chunk: nat)
    returns (r: Result<Journal>, ghost copied: Disk)
    requires Movable(dev.disk, size, n, runs, released, destinations) && memory[..] == dev.disk.bitmap
    requires dev.synced == [] && chunk > 0 && clusterSize > 0
    requires |volDirty| == |dev.disk.vol| && |mirrorDirty| == |dev.disk.mirror|
    requires InBitmap(released, memory.Length) && InBitmap(destinations, memory.Length)
    requires Copyable(dev.disk.data, ExtentsOf(released, clusterSize), ExtentsOf(destinations, clusterSize))
    modifies dev, memory
    ensures r.Error? ==> dev.disk == old(dev.disk) && memory[..] == old(memory[..]) && dev.synced == []
    ensures r.Error? ==> forall after :: !Switches(Joined(old(dev.disk.rec), size), after, size, n, runs)
    ensures r.Ok? ==> copied == old(dev.disk).(data := dev.disk.data) && MovesStream(copied, r.value, size, n, runs)
    ensures r.Ok? ==> Carries(old(dev.disk), copied, size, n, runs, clusterSize)
    ensures r.Ok? ==> SyncPoints(copied, r.value, dev.synced) && memory[..] == dev.disk.bitmap
    ensures r.Ok? ==> Finished(old(dev.disk), dev.disk, size, n, runs, released, destinations, clusterSize)
    ensures r.Ok? ==> Guarded(old(dev.disk), dev.synced, dev.disk.rec, released, destinations, volDirty, mirrorDirty)
    ensures r.Ok? ==> AlwaysMarked(old(dev.disk), dev.synced, volDirty, mirrorDirty) && dev.disk == dev.synced[5]
  {
    hide Joined, Cut, Movable, Covering, Excerpts, MoveState, SameStream, OnlyInside, Copyable, MovesStream, Switches,
         Scanned, Finished, InBitmap, Ready, SyncPoints, Carries, ExtentsOf, Guarded, AlwaysMarked;
    copied := dev.disk;
    ghost var d := dev.disk;
    MovableFacts(d, size, n, runs, released, destinations);
    var raw := Joined(dev.disk.rec, size);
    var updated := NewRecord(raw, size, n, runs);
    if updated.Error? { return Error, copied; }
    CutCount(dev.disk.rec, updated.value, size);
    var after := Cut(updated.value, size);
    var j := PrepareMove(dev, memory, after, released, destinations, volDirty, mirrorDirty, clusterSize, chunk);
    copied := dev.disk;
    StillMovable(d, copied, size, n, runs, released, destinations);
    BecomesMove(copied, j, updated.value, size, n, runs);
    CopyCarries(d, copied, size, n, runs, released, destinations, clusterSize);
    CommitMove(dev, memory, j);
    MoveFinished(d, copied, j, size, n, runs, clusterSize);
    MoveGuarded(d, copied, j, dev.synced);
    LastSync(copied, j, dev.synced);
    r := Ok(j);
  }

  lemma LastSync(d: Disk, j: Journal, synced: seq<Disk>)
    requires SyncPoints(d, j, synced)
    ensures |synced| == 6 && synced[5] == MoveState(d, j, 5) && synced[5].rec == j.after
  {
    hide SetBits;
  }

  lemma MovableFacts(d: Disk, size: nat, n: nat, runs: seq<Run>, released: seq<Run>, destinations: seq<Run>)
    requires Movable(d, size, n, runs, released, destinations)
    ensures IsRecord(d.rec, size) && Scanned(Joined(d.rec, size), size, n)
  {
    hide Joined, Read, C.Owned, Matches;
  }

  lemma CutCount(rec: seq<Sector>, after: F.Record, size: nat)
    requires IsRecord(rec, size) && |after| == |Joined(rec, size)|
    ensures F.RecordSized(|after|, size) && |Cut(after, size)| == |rec|
  {
    hide Joined, Cut;
    SectorCount(rec, size);
  }

  lemma StillMovable(d: Disk, x: Disk, size: nat, n: nat, runs: seq<Run>, released: seq<Run>, destinations: seq<Run>)
    requires Movable(d, size, n, runs, released, destinations) && x == d.(data := x.data)
    ensures Movable(x, size, n, runs, released, destinations)
  {
  }

  lemma MoveFinished(d: Disk, copied: Disk, j: Journal, size: nat, n: nat, runs: seq<Run>, clusterSize: nat)
    requires Movable(d, size, n, runs, j.released, j.destinations) && copied == d.(data := copied.data)
    requires MovesStream(copied, j, size, n, runs)
    requires Carries(d, copied, size, n, runs, clusterSize)
    requires OnlyInside(d.data, copied.data, ExtentsOf(j.destinations, clusterSize))
    ensures Finished(d, MoveState(copied, j, 5), size, n, runs, j.released, j.destinations, clusterSize)
    ensures MoveState(copied, j, 5).data == copied.data
  {
    hide Joined, Read, C.Owned, Matches, OnlyInside, Switches, MoveState, Mapped, Coalesce, Scanned, ExtentsOf,
         S.SameContents;
    MovedBitmap(copied, j);
    NewMapped(copied, j, size, n, runs);
  }
}
