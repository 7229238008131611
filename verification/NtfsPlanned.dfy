/** What the compactor plans, the MFT record can take: the capacity kept in the plan stays the record's own. */
module NtfsPlanned {
  import opened Basics
  import opened NtfsRunlist
  import opened NtfsRecord
  import opened NtfsTransaction
  import opened NtfsBitmap
  import opened NtfsMapping
  import F = NtfsFixups
  import C = NtfsCompact

  /** The planned stream is attribute `n` of the stored record, an aligned one, with that record's capacity. */
  ghost predicate Backed(s: C.Stream, raw: F.Record, size: nat, n: nat) {
    && Scanned(raw, size, n) && F.Apply(raw, size).Ok?
    && var fixed, attr := F.Apply(raw, size).value, Read(raw, size).value[n];
       && Placed(fixed, attr) && s.runs == attr.runs && attr.length % 8 == 0
       && U32(fixed, 24) <= Allocated(fixed) && attr.offset + attr.length <= U32(fixed, 24)
       && s.capacity == Capacity(fixed, attr)
  }

  function Target(s: C.Stream, g: nat): seq<Run> { [Run(g, C.Clusters(s.runs))] }

  lemma {:induction false} PlainLength(runs: seq<Run>)
    requires forall r | 0 <= r < |runs| :: runs[r].Run?
    ensures SumLengths(runs) == C.Clusters(runs)
  {
    if runs != [] { PlainLength(runs[..|runs| - 1]); }
  }

  lemma OneRun(g: nat, n: nat)
    requires n > 0
    ensures Coalesce([Run(g, n)]) == [Run(g, n)] && SumLengths([Run(g, n)]) == n
  {
    assert [Run(g, n)][..0] == [];
    assert SumLengths([]) == 0;
  }

  lemma ParsedLength(b: seq<Byte>, offset: nat, attr: Attribute)
    requires |b| >= 24 && ParseAttribute(b, offset) == Ok(attr) && attr.nonresident
    ensures SumLengths(attr.runs) as int == attr.highestVcn - attr.lowestVcn + 1
  {
    hide Decode;
  }

  /** A stream that fits by the plan's capacity passes the second capacity test and is rewritten: neither the refusal
      of _select_compact_source nor the error of _updated_record_runs can occur. */
  lemma PlanIsTaken(s: C.Stream, raw: F.Record, size: nat, n: nat, g: nat, e: nat)
    requires Backed(s, raw, size, n) && C.Plain(s) && C.Fits(s, g, e)
    ensures var fixed, attr := F.Apply(raw, size).value, Read(raw, size).value[n];
            && Encode(Target(s, g)).Ok? && |Encode(Target(s, g)).value| <= Capacity(fixed, attr)
            && PlanRewrite(fixed, attr, Target(s, g)).Ok?
            && F.RecordSized(|fixed|, size) && UpdatedRecord(fixed, attr, Target(s, g), size).Ok?
  {
    hide F.Apply, Attributes, Encode, Coalesce, SumLengths, U32, Allocated, Capacity, ParseAttribute, C.Clusters,
         Growth, C.LiesAbove;
    var fixed, attr := F.Apply(raw, size).value, Read(raw, size).value[n];
    ScannedFacts(raw, size, n);
    ParsedLength(fixed[attr.offset..attr.offset + attr.length], attr.offset, attr);
    PlainLength(s.runs);
    OneRun(g, C.Clusters(s.runs));
    CapacityExact(fixed, attr);
    assert U32(fixed, 24) + Growth(attr, |Encode(Target(s, g)).value|) <= Allocated(fixed);
    RewriteIsSealed(fixed, attr, Target(s, g), size);
  }

  lemma RewriteIsSealed(fixed: F.Record, attr: Attribute, runs: seq<Run>, size: nat)
    requires ArrayApart(fixed, size) && Placed(fixed, attr) && F.U16(fixed, 20) <= attr.offset
    requires PlanRewrite(fixed, attr, runs).Ok?
    ensures UpdatedRecord(fixed, attr, runs, size).Ok?
  {
    hide PlanRewrite, F.Prepare, F.Shaped, F.ArrayFits;
    RewriteHead(fixed, attr, runs, size);
    F.PreparedImage(Rewrite(fixed, attr, runs).value, size);
  }

  // ---- The capacity stays right -----------------------------------------------------------------

  lemma SameEarlyBytes(raw: F.Record, size: nat)
    requires F.WellPlaced(raw, size) && F.Apply(raw, size).Ok?
    ensures forall k | 0 <= k < 32 && k < |raw| :: F.Apply(raw, size).value[k] == raw[k]
  {
    var off, count := F.U16(raw, 4), F.U16(raw, 6);
    F.ApplyAt(raw, raw[off], raw[off + 1], off, 1, count, size);
    forall k | 0 <= k < 32 ensures !F.IsEnd(k, 1, count, size) { EarlyByte(count, size, k); }
  }

  /** The sealed image of a rewritten record is again a record the scan accepts. */
  lemma SealedApart(out: F.Record, size: nat)
    requires ArrayApart(out, size)
    ensures F.Prepare(out, size).Ok? && ArrayApart(F.Prepare(out, size).value, size)
    ensures F.Apply(F.Prepare(out, size).value, size).Ok?
    ensures forall k | 0 <= k < 32 :: F.Apply(F.Prepare(out, size).value, size).value[k] == out[k]
    ensures F.U16(F.Prepare(out, size).value, 4) == F.U16(out, 4)
  {
    hide F.Prepare, F.Apply, F.Shaped, F.ArrayFits;
    F.PreparedImage(out, size);
    F.FixupsRoundTrip(out, size);
    var raw := F.Prepare(out, size).value;
    SameEarlyBytes(raw, size);
    var fixed := F.Apply(raw, size).value;
    assert forall k | 0 <= k < 32 :: fixed[k] == out[k];
    HeaderWords(out, raw);
  }

  /** The rewritten attribute, read back from the new record. */
  lemma NewAttribute(raw: F.Record, after: F.Record, size: nat, n: nat, runs: seq<Run>)
    requires Switches(raw, after, size, n, runs)
    ensures F.RecordSized(|after|, size) && Read(after, size).Ok? && n < |Read(after, size).value|
    ensures var fixed, attr := F.Apply(raw, size).value, Read(raw, size).value[n];
            PlanRewrite(fixed, attr, runs).Ok? && Read(after, size).value[n] == Updated(fixed, attr, runs)
  {
    hide F.Apply, Read, UpdatedRecord, PlanRewrite, Updated, Shift, Scanned, Coalesce;
    SwitchSized(raw, after, size, n, runs);
    SwitchReads(raw, after, size, n, runs);
  }

  /** The sealed record and its early words. */
  lemma NewImage(raw: F.Record, after: F.Record, size: nat, n: nat, runs: seq<Run>)
    requires Switches(raw, after, size, n, runs)
    ensures var fixed, attr := F.Apply(raw, size).value, Read(raw, size).value[n];
            && ArrayApart(fixed, size) && F.U16(fixed, 20) <= attr.offset && Rewrite(fixed, attr, runs).Ok?
            && ArrayApart(after, size) && F.U16(after, 4) + 2 <= size && F.Apply(after, size).Ok?
            && |F.Apply(after, size).value| == |Rewrite(fixed, attr, runs).value|
            && forall k | 0 <= k < 32 :: F.Apply(after, size).value[k] == Rewrite(fixed, attr, runs).value[k]
  {
    hide F.Apply, Read, UpdatedRecord, Rewrite, ParseAttribute, ArrayApart, F.U16, F.WellPlaced, Placed;
    ScannedFacts(raw, size, n);
    var fixed, attr := F.Apply(raw, size).value, Read(raw, size).value[n];
    ApartHeader(raw, size);
    ApartHeader(fixed, size);
    RewriteOf(fixed, attr, runs, size, after);
    RewriteHead(fixed, attr, runs, size);
    SealedApart(Rewrite(fixed, attr, runs).value, size);
    NumberUnwritten(fixed, attr, runs);
    F.ReadKeepsNumber(raw, size);
  }

  /** The moved stream is backed by the new record: the capacity in the plan is still the record's own. */
  lemma MovedIsBacked(s: C.Stream, raw: F.Record, after: F.Record, size: nat, n: nat, g: nat, e: nat)
    requires Backed(s, raw, size, n) && C.Plain(s) && C.Fits(s, g, e) && Switches(raw, after, size, n, Target(s, g))
    ensures Backed(C.Settle(s, g), after, size, n)
  {
    hide F.Apply, Read, Encode, U32, C.Clusters, C.LiesAbove, Switches, PlanRewrite, Updated, ArrayApart, Rewrite,
         F.U16, Allocated, Capacity, Placed, Coalesce;
    var runs := Target(s, g);
    SwitchSized(raw, after, size, n, runs);
    var fixed, attr := F.Apply(raw, size).value, Read(raw, size).value[n];
    NewAttribute(raw, after, size, n, runs);
    NewImage(raw, after, size, n, runs);
    OneRun(g, C.Clusters(s.runs));
    ApartHeader(fixed, size);
    KeptCapacity(fixed, attr, runs, Rewrite(fixed, attr, runs).value, F.Apply(after, size).value);
    UpdatedKeeps(fixed, attr, runs);
  }

  lemma ApartHeader(fixed: F.Record, size: nat)
    requires ArrayApart(fixed, size)
    ensures F.WellPlaced(fixed, size) && HeaderApart(fixed) && 32 <= F.U16(fixed, 4)
    ensures F.U16(fixed, 4) + 2 <= F.U16(fixed, 20)
  {
  }

  lemma UpdatedKeeps(fixed: F.Record, attr: Attribute, runs: seq<Run>)
    requires Placed(fixed, attr) && PlanRewrite(fixed, attr, runs).Ok?
    ensures Updated(fixed, attr, runs).runs == Coalesce(runs)
    ensures Updated(fixed, attr, runs).nonresident == attr.nonresident
  {
  }

  lemma RewriteOf(fixed: F.Record, attr: Attribute, runs: seq<Run>, size: nat, after: F.Record)
    requires Placed(fixed, attr) && F.RecordSized(|fixed|, size) && UpdatedRecord(fixed, attr, runs, size) == Ok(after)
    ensures Rewrite(fixed, attr, runs).Ok? && F.Prepare(Rewrite(fixed, attr, runs).value, size) == Ok(after)
  {
  }

  lemma {:induction false} KeptCapacity(fixed: F.Record, attr: Attribute, runs: seq<Run>, out: F.Record, read: F.Record)
    requires Placed(fixed, attr) && HeaderApart(fixed) && F.U16(fixed, 20) <= attr.offset
    requires Rewrite(fixed, attr, runs) == Ok(out)
    requires U32(fixed, 24) <= Allocated(fixed) && attr.offset + attr.length <= U32(fixed, 24) && attr.length % 8 == 0
    requires |read| == |out| && forall k | 0 <= k < 32 :: read[k] == out[k]
    ensures PlanRewrite(fixed, attr, runs).Ok?
    ensures var now := Updated(fixed, attr, runs);
            && Placed(read, now) && now.length % 8 == 0 && U32(read, 24) <= Allocated(read)
            && now.offset + now.length <= U32(read, 24)
            && Capacity(read, now) == Capacity(fixed, attr)
  {
    hide U32, Rewrite, PlanRewrite, Encode, Coalesce, NewBytes, Growth, F.U16, Allocated, Capacity;
    CapacityKept(fixed, attr, runs);
    RewriteBody(fixed, attr, runs);
    GrowthAligned(attr, |PlanRewrite(fixed, attr, runs).value.0|);
    var growth := PlanRewrite(fixed, attr, runs).value.1;
    SameCapacity(out, read, attr.(length := attr.length + growth, runs := Coalesce(runs)), Updated(fixed, attr, runs));
  }

  /** The capacity depends only on the early words and the attribute's size. */
  lemma SameCapacity(out: F.Record, read: F.Record, attr: Attribute, now: Attribute)
    requires |read| == |out| >= 32 && forall k | 0 <= k < 32 :: read[k] == out[k]
    requires Placed(out, attr) && U32(out, 24) <= Allocated(out)
    requires now.offset == attr.offset && now.length == attr.length && now.runOffset == attr.runOffset
    ensures Placed(read, now) && U32(read, 24) == U32(out, 24) && Allocated(read) == Allocated(out)
    ensures Capacity(read, now) == Capacity(out, attr)
  {
    EarlyWords(out, read);
    hide U32;
  }

  lemma EarlyWords(a: F.Record, b: F.Record)
    requires |a| >= 32 && |b| == |a| && forall k | 0 <= k < 32 :: b[k] == a[k]
    ensures U32(b, 24) == U32(a, 24) && U32(b, 28) == U32(a, 28)
  {
  }

  // ---- A planned move never grows its record ------------------------------------------------------

  /** The whole stream fits the gap and lies above it, whatever its mapping needs. */
  ghost predicate Roomy(s: C.Stream, g: nat, e: nat) {
    && s.movable && 0 < C.Clusters(s.runs) && g + C.Clusters(s.runs) <= e
    && forall r | 0 <= r < |s.runs| && s.runs[r].Run? && s.runs[r].length > 0 :: e <= s.runs[r].lcn
  }

  lemma StoredMapping(raw: F.Record, size: nat, n: nat)
    requires Scanned(raw, size, n) && F.Apply(raw, size).Ok?
    ensures var fixed, attr := F.Apply(raw, size).value, Read(raw, size).value[n];
            && attr.offset + attr.length <= |fixed| && attr.runOffset < attr.length
            && Decode(fixed[attr.offset..attr.offset + attr.length][attr.runOffset..]) == Ok(attr.runs)
  {
    hide F.Apply, Attributes, Decode, SumLengths, U32;
    ScannedFacts(raw, size, n);
  }

  /** The mapping bytes a backed stream has are enough for one run below it, so its record does not grow. */
  lemma NeverGrows(s: C.Stream, raw: F.Record, size: nat, n: nat, g: nat, e: nat)
    requires Backed(s, raw, size, n) && C.Plain(s) && Roomy(s, g, e) && e < MAX_LENGTH
    ensures var attr := Read(raw, size).value[n];
            && Encode(Target(s, g)).Ok? && attr.runOffset + |Encode(Target(s, g)).value| <= attr.length
            && Growth(attr, |Encode(Target(s, g)).value|) == 0
  {
    hide F.Apply, Attributes, Encode, Decode, SumLengths, U32, Allocated, C.Clusters, Growth, Capacity;
    var fixed, attr := F.Apply(raw, size).value, Read(raw, size).value[n];
    StoredMapping(raw, size, n);
    PlainLength(s.runs);
    assert s.runs[0].Run? && e <= s.runs[0].lcn;
    OneRunFits(fixed[attr.offset..attr.offset + attr.length][attr.runOffset..], s.runs, g);
    NoGrowth(attr, |Encode(Target(s, g)).value|);
  }

  lemma NoGrowth(attr: Attribute, encoded: nat)
    requires attr.runOffset + encoded <= attr.length && attr.length % 8 == 0
    ensures Growth(attr, encoded) == 0
  {
  }

  /** For backed streams the capacity test of the planner is redundant. */
  lemma CapacityNeverRefuses(s: C.Stream, raw: F.Record, size: nat, n: nat, g: nat, e: nat)
    requires Backed(s, raw, size, n) && C.Plain(s) && e < MAX_LENGTH
    ensures C.Fits(s, g, e) <==> Roomy(s, g, e)
  {
    hide F.Apply, Read, Encode, U32, Allocated, Scanned, C.Clusters;
    if Roomy(s, g, e) { NeverGrows(s, raw, size, n, g, e); }
  }

  // ---- The other attributes of the record -----------------------------------------------------------

  /** Rewriting without growth leaves every other attribute where and as it was. */
  lemma OthersRead(raw: F.Record, after: F.Record, size: nat, n: nat, runs: seq<Run>, m: nat)
    requires Switches(raw, after, size, n, runs) && m != n && m < |Read(raw, size).value|
    requires PlanRewrite(F.Apply(raw, size).value, Read(raw, size).value[n], runs).Ok?
    requires PlanRewrite(F.Apply(raw, size).value, Read(raw, size).value[n], runs).value.1 == 0
    ensures F.RecordSized(|after|, size) && Read(after, size).Ok? && m < |Read(after, size).value|
    ensures Read(after, size).value[m] == Read(raw, size).value[m]
  {
    hide F.Apply, Read, UpdatedRecord, PlanRewrite, Updated, Scanned, Coalesce;
    SwitchSized(raw, after, size, n, runs);
    SwitchReads(raw, after, size, n, runs);
  }

  lemma SameSpace(fixed: F.Record, attr: Attribute, runs: seq<Run>, out: F.Record, read: F.Record)
    requires Placed(fixed, attr) && HeaderApart(fixed) && F.U16(fixed, 20) <= attr.offset
    requires Rewrite(fixed, attr, runs) == Ok(out) && U32(fixed, 24) <= Allocated(fixed) && attr.length % 8 == 0
    requires |read| == |out| && forall k | 0 <= k < 32 :: read[k] == out[k]
    ensures PlanRewrite(fixed, attr, runs).Ok? && |read| == |fixed|
    ensures PlanRewrite(fixed, attr, runs).value.1 == 0 ==>
      U32(read, 24) == U32(fixed, 24) && Allocated(read) == Allocated(fixed)
  {
    hide U32, Rewrite, PlanRewrite, Encode, Coalesce, NewBytes, Growth, F.U16;
    RewriteBody(fixed, attr, runs);
    RewriteAllocated(fixed, attr, runs);
    EarlyWords(out, read);
  }

  /** A stream backed by another attribute of the record stays backed. */
  lemma OthersBacked(s: C.Stream, raw: F.Record, after: F.Record, size: nat, n: nat, g: nat, e: nat, t: C.Stream,
                     m: nat)
    requires Backed(s, raw, size, n) && C.Plain(s) && Roomy(s, g, e) && e < MAX_LENGTH
    requires Switches(raw, after, size, n, Target(s, g)) && Backed(t, raw, size, m) && m != n
    ensures Backed(t, after, size, m)
  {
    hide F.Apply, Read, Encode, U32, C.Clusters, C.LiesAbove, Switches, PlanRewrite, Updated, ArrayApart, Rewrite,
         F.U16, Allocated, Placed, Coalesce, Growth;
    var runs := Target(s, g);
    SwitchSized(raw, after, size, n, runs);
    var fixed, attr := F.Apply(raw, size).value, Read(raw, size).value[n];
    NewAttribute(raw, after, size, n, runs);
    NewImage(raw, after, size, n, runs);
    OneRun(g, C.Clusters(s.runs));
    NeverGrows(s, raw, size, n, g, e);
    OthersRead(raw, after, size, n, runs, m);
    ApartHeader(fixed, size);
    SameSpace(fixed, attr, runs, Rewrite(fixed, attr, runs).value, F.Apply(after, size).value);
    StillPlaced(fixed, F.Apply(after, size).value, Read(raw, size).value[m]);
  }

  lemma StillPlaced(fixed: F.Record, read: F.Record, attr: Attribute)
    requires Placed(fixed, attr) && |read| == |fixed|
    ensures Placed(read, attr)
    ensures U32(read, 24) == U32(fixed, 24) <= Allocated(fixed) == Allocated(read) ==>
      Capacity(read, attr) == Capacity(fixed, attr)
  {
    hide U32, Allocated;
  }

  // ---- The whole pass ----------------------------------------------------------------------------------

  /** Where a stream is stored: the MFT record and the attribute in it. */
  datatype Key = Key(record: nat, attribute: nat)

  /** Every movable stream is backed by its own attribute of the stored records. */
  ghost predicate AllBacked(streams: seq<C.Stream>, records: seq<F.Record>, keys: seq<Key>, size: nat) {
    && |keys| == |streams|
    && (forall i | 0 <= i < |streams| && streams[i].movable ::
          && C.Plain(streams[i]) && keys[i].record < |records|
          && Backed(streams[i], records[keys[i].record], size, keys[i].attribute))
    && forall i, j | 0 <= i < j < |streams| && streams[i].movable && streams[j].movable :: keys[i] != keys[j]
  }

  /** The planned move rewrites the record of its stream. */
  ghost predicate Takes(streams: seq<C.Stream>, records: seq<F.Record>, keys: seq<Key>, size: nat, m: C.Planned,
                        records': seq<F.Record>)
  {
    && m.index < |streams| && m.index < |keys| && keys[m.index].record < |records| && |records'| == |records|
    && var k := keys[m.index];
       && Switches(records[k.record], records'[k.record], size, k.attribute, Target(streams[m.index], m.start))
       && forall r | 0 <= r < |records| && r != k.record :: records'[r] == records[r]
  }

  lemma SettledPlain(s: C.Stream, g: nat)
    requires 0 < C.Clusters(s.runs)
    ensures C.Plain(C.Settle(s, g)) && C.Settle(s, g).movable == s.movable
  {
  }

  /** The record can be rewritten for a planned move. */
  lemma SwitchExists(s: C.Stream, raw: F.Record, size: nat, n: nat, g: nat, e: nat) returns (after: F.Record)
    requires Backed(s, raw, size, n) && C.Plain(s) && C.Fits(s, g, e)
    ensures Switches(raw, after, size, n, Target(s, g))
  {
    hide F.Apply, Read, UpdatedRecord, PlanRewrite, Encode, Capacity, Placed, U32, Allocated, C.Clusters, C.LiesAbove;
    PlanIsTaken(s, raw, size, n, g, e);
    after := UpdatedRecord(F.Apply(raw, size).value, Read(raw, size).value[n], Target(s, g), size).value;
  }

  /** One planned move: its record takes it, and every movable stream is backed afterwards. */
  lemma MoveTaken(streams: seq<C.Stream>, records: seq<F.Record>, keys: seq<Key>, size: nat, m: C.Planned)
    returns (records': seq<F.Record>)
    requires AllBacked(streams, records, keys, size) && m.index < |streams|
    requires C.Fits(streams[m.index], m.start, m.end) && m.end < MAX_LENGTH
    ensures Takes(streams, records, keys, size, m, records')
    ensures AllBacked(streams[m.index := C.Settle(streams[m.index], m.start)], records', keys, size)
  {
    hide Backed, Switches, C.Settle, C.Plain;
    var s, k := streams[m.index], keys[m.index];
    FitsRoomy(s, m.start, m.end);
    hide C.Fits, Roomy;
    var after := SwitchExists(s, records[k.record], size, k.attribute, m.start, m.end);
    records' := records[k.record := after];
    var now := streams[m.index := C.Settle(s, m.start)];
    SettledPlain(s, m.start);
    MovedIsBacked(s, records[k.record], after, size, k.attribute, m.start, m.end);
    forall i | 0 <= i < |now| && now[i].movable
      ensures C.Plain(now[i]) && Backed(now[i], records'[keys[i].record], size, keys[i].attribute)
    {
      if i != m.index && keys[i].record == k.record {
        OthersBacked(s, records[k.record], after, size, k.attribute, m.start, m.end, streams[i], keys[i].attribute);
      }
    }
  }

  lemma FitsRoomy(s: C.Stream, g: nat, e: nat)
    requires C.Fits(s, g, e)
    ensures Roomy(s, g, e) && s.movable && 0 < C.Clusters(s.runs)
  {
    hide Encode, C.Clusters;
  }

  /** The stored records along a pass: each move rewrites the record of its stream. */
  ghost predicate Carried(streams: seq<C.Stream>, log: seq<C.Planned>, keys: seq<Key>, size: nat,
                          history: seq<seq<F.Record>>)
  {
    && |history| == |log| + 1
    && forall k | 0 <= k < |log| ::
         Takes(C.AfterMoves(streams, log[..k]), history[k], keys, size, log[k], history[k + 1])
  }

  /** Every move of a pass is taken: starting from backed streams, the records can be rewritten move by move, and the
      streams are backed at the end. */
  lemma {:induction false} PassTaken(streams: seq<C.Stream>, records: seq<F.Record>, keys: seq<Key>, size: nat,
                                     log: seq<C.Planned>, total: nat)
    returns (history: seq<seq<F.Record>>)
    requires AllBacked(streams, records, keys, size) && C.PassMoves(streams, log, total) && total < MAX_LENGTH
    ensures Carried(streams, log, keys, size, history) && history[0] == records
    ensures AllBacked(C.AfterMoves(streams, log), history[|log|], keys, size)
  {
    hide AllBacked, Takes, C.Fits, C.Settle;
    history := [records];
    if log != [] {
      var n: nat := |log| - 1;
      FrontMoves(streams, log, total);
      history := PassTaken(streams, records, keys, size, log[..n], total);
      var last := MoveTaken(C.AfterMoves(streams, log[..n]), history[n], keys, size, log[n]);
      CarriedStep(streams, log, keys, size, history, last);
      history := history + [last];
    }
  }

  lemma {:induction false} FrontMoves(streams: seq<C.Stream>, log: seq<C.Planned>, total: nat)
    requires C.PassMoves(streams, log, total) && log != []
    ensures C.PassMoves(streams, log[..|log| - 1], total)
    ensures var n: nat := |log| - 1;
            && log[n].index < |streams| && log[n].end <= total
            && C.Fits(C.AfterMoves(streams, log[..n])[log[n].index], log[n].start, log[n].end)
  {
    hide C.AfterMoves, C.Fits;
    var n: nat := |log| - 1;
    var front := log[..n];
    forall k | 0 <= k < n
      ensures front[k].index < |streams| && 1 <= front[k].start && front[k].end <= total
      ensures C.Fits(C.AfterMoves(streams, front[..k])[front[k].index], front[k].start, front[k].end)
    {
      assert front[..k] == log[..k] && front[k] == log[k];
    }
  }

  lemma {:induction false} CarriedStep(streams: seq<C.Stream>, log: seq<C.Planned>, keys: seq<Key>, size: nat,
                    history: seq<seq<F.Record>>, last: seq<F.Record>)
    requires log != [] && Carried(streams, log[..|log| - 1], keys, size, history)
    requires Takes(C.AfterMoves(streams, log[..|log| - 1]), history[|log| - 1], keys, size, log[|log| - 1], last)
    ensures Carried(streams, log, keys, size, history + [last])
  {
    hide C.AfterMoves, Takes;
    var n, more := |log| - 1, history + [last];
    forall k | 0 <= k < |log|
      ensures Takes(C.AfterMoves(streams, log[..k]), more[k], keys, size, log[k], more[k + 1])
    {
      if k < n { assert log[..n][..k] == log[..k]; }
    }
  }

  /** No free run has room for a complete movable stream above it, whatever its mapping needs. */
  ghost predicate Full(bitmap: seq<bv8>, streams: seq<C.Stream>, limit: nat) {
    forall a: nat, b: nat, i: nat | C.FreeRun(bitmap, a, b, limit) && i < |streams| :: !Roomy(streams[i], a, b)
  }

  lemma BlockedIsFull(bitmap: seq<bv8>, streams: seq<C.Stream>, records: seq<F.Record>, keys: seq<Key>, size: nat,
                      limit: nat)
    requires AllBacked(streams, records, keys, size) && C.Blocked(bitmap, streams, limit) && limit < MAX_LENGTH
    ensures Full(bitmap, streams, limit)
  {
    hide Backed, C.Plain, C.Fits;
    forall a: nat, b: nat, i: nat | C.FreeRun(bitmap, a, b, limit) && i < |streams| ensures !Roomy(streams[i], a, b) {
      if streams[i].movable {
        CapacityNeverRefuses(streams[i], records[keys[i].record], size, keys[i].attribute, a, b);
      }
    }
  }

  /** The move fills the lowest gap with room for any complete stream above it, with the largest such stream and, of
      equally large ones, the one that ends highest. */
  ghost predicate Best(bitmap: seq<bv8>, streams: seq<C.Stream>, m: C.Planned) {
    && Full(bitmap, streams, m.start) && m.index < |streams| && Roomy(streams[m.index], m.start, m.end)
    && forall j | 0 <= j < |streams| && Roomy(streams[j], m.start, m.end) ::
         && C.Clusters(streams[j].runs) <= C.Clusters(streams[m.index].runs)
         && (C.Clusters(streams[j].runs) == C.Clusters(streams[m.index].runs) ==>
               !C.EndsAbove(streams[j].runs, streams[m.index].runs))
  }

  lemma StepIsBest(before: seq<bv8>, after: seq<bv8>, total: nat, streams: seq<C.Stream>, m: C.Planned,
                   records: seq<F.Record>, keys: seq<Key>, size: nat)
    requires AllBacked(streams, records, keys, size) && total < MAX_LENGTH && C.Step(before, after, total, streams, m)
    ensures Best(before, streams, m)
  {
    hide Backed, C.Plain, C.Fits, C.Blocked, C.Exchanged, All, C.EndsAbove, C.Clusters, Full, Roomy;
    BlockedIsFull(before, streams, records, keys, size, m.start);
    FitsRoomy(streams[m.index], m.start, m.end);
    forall j | 0 <= j < |streams| && Roomy(streams[j], m.start, m.end) ensures C.Fits(streams[j], m.start, m.end) {
      RoomyMoves(streams[j], m.start, m.end);
      CapacityNeverRefuses(streams[j], records[keys[j].record], size, keys[j].attribute, m.start, m.end);
    }
  }

  lemma RoomyMoves(s: C.Stream, g: nat, e: nat)
    requires Roomy(s, g, e)
    ensures s.movable
  {
  }

  lemma PassIsBest(maps: seq<seq<bv8>>, streams: seq<C.Stream>, records: seq<F.Record>, keys: seq<Key>, size: nat,
                   log: seq<C.Planned>, total: nat)
    requires AllBacked(streams, records, keys, size) && total < MAX_LENGTH && C.Pass(maps, total, streams, log)
    ensures forall k | 0 <= k < |log| :: Best(maps[k], C.AfterMoves(streams, log[..k]), log[k])
  {
    hide AllBacked, C.AfterMoves, Best, C.Step, C.PassMoves;
    forall k | 0 <= k < |log| ensures Best(maps[k], C.AfterMoves(streams, log[..k]), log[k]) {
      assert C.Pass(maps[..k + 1], total, streams, log[..k]) by {
        forall q | 0 <= q < k ensures log[..k][..q] == log[..q] {}
      }
      C.PassIsMoves(maps[..k + 1], total, streams, log[..k]);
      var history := PassTaken(streams, records, keys, size, log[..k], total);
      StepIsBest(maps[k], maps[k + 1], total, C.AfterMoves(streams, log[..k]), log[k], history[k], keys, size);
    }
  }

  /** compact on stored records: every planned move is one the record of its stream takes, all streams are backed
      afterwards, each move is the best there is, and an unstopped pass leaves no gap with room for a complete movable
      stream above it. */
  method CompactStored(l: C.NtfsLayout, stop: nat -> bool, ghost records: seq<F.Record>, ghost keys: seq<Key>,
                       ghost size: nat)
    returns (high: nat, stopped: bool, ghost history: seq<seq<F.Record>>, ghost maps: seq<seq<bv8>>)
    requires l.Valid() && AllBacked(l.streams, records, keys, size)
    modifies l, l.bitmap
    ensures l.Valid() && old(l.log) <= l.log && l.streams == C.AfterMoves(old(l.streams), l.log[|old(l.log)|..])
    ensures Carried(old(l.streams), l.log[|old(l.log)|..], keys, size, history) && history[0] == records
    ensures AllBacked(l.streams, history[|history| - 1], keys, size)
    ensures var run := l.log[|old(l.log)|..];
            && C.Pass(maps, l.total, old(l.streams), run) && maps[0] == old(l.bitmap[..]) && maps[|run|] == l.bitmap[..]
            && forall k | 0 <= k < |run| :: Best(maps[k], C.AfterMoves(old(l.streams), run[..k]), run[k])
    ensures stopped ==> exists n :: stop(n)
    ensures !stopped ==> Full(l.bitmap[..], l.streams, high)
  {
    assert l.total < MAX_LENGTH && l.total <= 8 * l.bitmap.Length;
    hide AllBacked, C.Blocked, Full, C.Consistent, C.PassMoves, C.AfterMoves, C.AllFollow, C.UsedSet, C.Step, Best;
    ghost var was := l.streams;
    high, stopped, maps := C.Compact(l, stop);
    ghost var run := l.log[|old(l.log)|..];
    C.PassIsMoves(maps, l.total, was, run);
    PassIsBest(maps, was, records, keys, size, run, l.total);
    history := PassTaken(was, records, keys, size, run, l.total);
    HighInside(l.bitmap[..], l.total, high);
    if !stopped { BlockedIsFull(l.bitmap[..], l.streams, history[|run|], keys, size, high); }
  }

  lemma HighInside(bitmap: seq<bv8>, total: nat, high: nat)
    requires total <= 8 * |bitmap| && IsHighest(bitmap, total, high)
    ensures high <= total
  {
  }
}
