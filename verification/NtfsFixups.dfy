/**
 Update-sequence fixups of MFT records: every sector of a written record ends in
 the update-sequence number, and the displaced words are kept in an array.
 */
module NtfsFixups {
  import opened Basics

  type Record = seq<Byte>

  function U16(b: seq<Byte>, off: nat): nat
    requires off + 2 <= |b|
  {
    var lo: nat, hi: nat := b[off], b[off + 1];
    lo + 256 * hi
  }

  function PutWord(b: seq<Byte>, at: nat, lo: Byte, hi: Byte): (r: seq<Byte>)
    requires at + 2 <= |b|
    ensures |r| == |b| && forall k | 0 <= k < |b| :: r[k] == if k == at then lo else if k == at + 1 then hi else b[k]
  {
    b[at := lo][at + 1 := hi]
  }

  // ---- Sector ends -------------------------------------------------------------------------

  /** The last word of sector `i`, counted from 1. */
  function End(i: nat, size: nat): int { i * size - 2 }

  lemma EndsApart(i: nat, j: nat, size: nat)
    requires i < j
    ensures End(i, size) + size <= End(j, size)
  {
    assert (j - i) * size >= size by { Product(j - i, size); }
    assert End(j, size) - End(i, size) == (j - i) * size;
  }

  lemma Product(n: nat, size: nat)
    requires n >= 1
    ensures n * size >= size
  {
  }

  /** A record of whole sectors with its array inside. */
  predicate Framed(len: nat, off: nat, count: nat, size: nat) {
    size >= 2 && count >= 1 && len == (count - 1) * size && off + 2 * count <= len
  }

  /** ... and the array clear of every sector end. */
  ghost predicate Shaped(len: nat, off: nat, count: nat, size: nat) {
    && Framed(len, off, count, size)
    && forall i: nat | 1 <= i < count :: off + 2 * count <= End(i, size) || End(i, size) + 2 <= off
  }

  lemma EndInside(len: nat, off: nat, count: nat, size: nat, i: nat)
    requires Framed(len, off, count, size) && 1 <= i < count
    ensures 0 <= End(i, size) && End(i, size) + 2 <= len
  {
    Product(i, size);
    assert End(count - 1, size) + 2 == len;
    if i < count - 1 { EndsApart(i, count - 1, size); }
  }

  // ---- Writing --------------------------------------------------------------------------------

  /** Sectors `i` on: save the last word, then store the sequence number there. */
  function PrepareFrom(rec: Record, lo: Byte, hi: Byte, off: nat, i: nat, count: nat, size: nat): (r: Record)
    requires Framed(|rec|, off, count, size) && 1 <= i <= count
    ensures |r| == |rec|
    decreases count - i
  {
    if i == count then rec
    else
      EndInside(|rec|, off, count, size, i);
      var end := End(i, size);
      PrepareFrom(PutWord(PutWord(rec, off + 2 * i, rec[end], rec[end + 1]), end, lo, hi), lo, hi, off, i + 1, count,
                  size)
  }

  ghost predicate IsEnd(k: int, i: nat, count: nat, size: nat) {
    exists m: nat :: i <= m < count && WordAt(k, m, size)
  }

  ghost predicate WordAt(k: int, m: nat, size: nat) { End(m, size) <= k < End(m, size) + 2 }

  /** Sector `m` of `r` ends in the sequence number and its word of `rec` is in the array. */
  ghost predicate Saved(rec: Record, r: Record, lo: Byte, hi: Byte, off: nat, m: nat, size: nat) {
    && |r| == |rec| && 0 <= End(m, size) && End(m, size) + 2 <= |rec| && off + 2 * m + 2 <= |rec|
    && r[off + 2 * m] == rec[End(m, size)] && r[off + 2 * m + 1] == rec[End(m, size) + 1]
    && r[End(m, size)] == lo && r[End(m, size) + 1] == hi
  }

  ghost predicate SameElsewhere(rec: Record, r: Record, off: nat, i: nat, count: nat, size: nat) {
    && |r| == |rec|
    && forall k | 0 <= k < |rec| && !(off + 2 * i <= k < off + 2 * count) && !IsEnd(k, i, count, size) :: r[k] == rec[k]
  }

  lemma {:induction false} PrepareAt(rec: Record, lo: Byte, hi: Byte, off: nat, i: nat, count: nat, size: nat)
    requires Shaped(|rec|, off, count, size) && 1 <= i <= count
    ensures var r := PrepareFrom(rec, lo, hi, off, i, count, size);
            && (forall m: nat | i <= m < count :: Saved(rec, r, lo, hi, off, m, size))
            && SameElsewhere(rec, r, off, i, count, size)
    decreases count - i
  {
    if i < count {
      EndInside(|rec|, off, count, size, i);
      var end := End(i, size);
      assert off + 2 * count <= end || end + 2 <= off;
      var next := PutWord(PutWord(rec, off + 2 * i, rec[end], rec[end + 1]), end, lo, hi);
      PrepareAt(next, lo, hi, off, i + 1, count, size);
      var r := PrepareFrom(next, lo, hi, off, i + 1, count, size);
      forall m: nat | i < m < count ensures end + 2 <= End(m, size) { EndsApart(i, m, size); }
      assert forall m: nat | i <= m < count :: off + 2 * count <= End(m, size) || End(m, size) + 2 <= off;
      hide End, Shaped, PrepareFrom;
      PrepareElsewhere(rec, next, r, lo, hi, off, i, count, size);
      hide SameElsewhere;
      forall m: nat | i <= m < count ensures Saved(rec, r, lo, hi, off, m, size) {
        if m > i { SavedLater(rec, next, r, lo, hi, off, i, m, count, size); }
      }
    }
  }

  lemma SavedLater(rec: Record, next: Record, r: Record, lo: Byte, hi: Byte, off: nat, i: nat, m: nat, count: nat,
                   size: nat)
    requires i < m < count && |next| == |rec| && off + 2 * count <= |rec| && Saved(next, r, lo, hi, off, m, size)
    requires 0 <= End(i, size) && End(i, size) + 2 <= |rec| && End(i, size) + 2 <= End(m, size)
    requires off + 2 * count <= End(m, size) || End(m, size) + 2 <= off
    requires next == PutWord(PutWord(rec, off + 2 * i, rec[End(i, size)], rec[End(i, size) + 1]), End(i, size), lo, hi)
    ensures Saved(rec, r, lo, hi, off, m, size)
  {
    hide End;
  }

  lemma PrepareElsewhere(rec: Record, next: Record, r: Record, lo: Byte, hi: Byte, off: nat, i: nat, count: nat,
                         size: nat)
    requires i < count && |next| == |rec| && SameElsewhere(next, r, off, i + 1, count, size) && off + 2 * count <= |rec|
    requires 0 <= End(i, size) && End(i, size) + 2 <= |rec|
    requires next == PutWord(PutWord(rec, off + 2 * i, rec[End(i, size)], rec[End(i, size) + 1]), End(i, size), lo, hi)
    requires forall m: nat | i < m < count :: End(i, size) + 2 <= End(m, size)
    requires forall m: nat | i <= m < count :: off + 2 * count <= End(m, size) || End(m, size) + 2 <= off
    ensures SameElsewhere(rec, r, off, i, count, size)
    ensures var end := End(i, size);
      r[end] == lo && r[end + 1] == hi && r[off + 2 * i] == rec[end] && r[off + 2 * i + 1] == rec[end + 1]
  {
    hide End;
    var end := End(i, size);
    assert WordAt(end, i, size) && WordAt(end + 1, i, size);
    forall k | 0 <= k < |rec| && !(off + 2 * i <= k < off + 2 * count) && !IsEnd(k, i, count, size)
      ensures r[k] == rec[k]
    {
      assert !WordAt(k, i, size);
    }
    forall k | k == end || k == end + 1 ensures r[k] == next[k] {
      assert !IsEnd(k, i + 1, count, size);
    }
    forall k | off + 2 * i <= k < off + 2 * i + 2 ensures r[k] == next[k] {
      assert !IsEnd(k, i + 1, count, size);
    }
  }

  /** The number after `number`, never 0. */
  function NextNumber(number: nat): (r: nat)
    requires number < 65536
    ensures r != number && 1 <= r < 65536
    ensures number < 65535 ==> r == number + 1
    ensures number == 65535 ==> r == 1
  {
    var next := (number + 1) % 65536;
    if next == 0 then 1 else next
  }

  // ---- Reading ----------------------------------------------------------------------------------

  /** Sectors `i` on: check the sequence number, then put the saved word back. */
  function ApplyFrom(rec: Record, lo: Byte, hi: Byte, off: nat, i: nat, count: nat, size: nat): (r: Result<Record>)
    requires Framed(|rec|, off, count, size) && 1 <= i <= count
    ensures r.Ok? ==> |r.value| == |rec|
    decreases count - i
  {
    if i == count then Ok(rec)
    else
      EndInside(|rec|, off, count, size, i);
      var end := End(i, size);
      if rec[end] != lo || rec[end + 1] != hi then Error
      else ApplyFrom(PutWord(rec, end, rec[off + 2 * i], rec[off + 2 * i + 1]), lo, hi, off, i + 1, count, size)
  }

  ghost predicate Sealed(rec: Record, lo: Byte, hi: Byte, m: nat, size: nat) {
    0 <= End(m, size) && End(m, size) + 2 <= |rec| && rec[End(m, size)] == lo && rec[End(m, size) + 1] == hi
  }

  ghost predicate Restored(rec: Record, r: Record, off: nat, m: nat, size: nat) {
    && |r| == |rec| && 0 <= End(m, size) && End(m, size) + 2 <= |rec| && off + 2 * m + 2 <= |rec|
    && r[End(m, size)] == rec[off + 2 * m] && r[End(m, size) + 1] == rec[off + 2 * m + 1]
  }

  /** Reading succeeds exactly when every sector carries the number, and then only
      the sector ends change. */
  lemma {:induction false} ApplyAt(rec: Record, lo: Byte, hi: Byte, off: nat, i: nat, count: nat, size: nat)
    requires Shaped(|rec|, off, count, size) && 1 <= i <= count
    ensures var r := ApplyFrom(rec, lo, hi, off, i, count, size);
            && (r.Ok? <==> forall m: nat | i <= m < count :: Sealed(rec, lo, hi, m, size))
            && (r.Ok? ==> (forall m: nat | i <= m < count :: Restored(rec, r.value, off, m, size))
                          && forall k | 0 <= k < |rec| && !IsEnd(k, i, count, size) :: r.value[k] == rec[k])
    decreases count - i
  {
    if i < count {
      EndInside(|rec|, off, count, size, i);
      var end := End(i, size);
      forall m: nat | i < m < count ensures end + 2 <= End(m, size) { EndsApart(i, m, size); }
      assert forall m: nat | i <= m < count :: off + 2 * count <= End(m, size) || End(m, size) + 2 <= off;
      assert WordAt(end, i, size) && WordAt(end + 1, i, size);
      if rec[end] == lo && rec[end + 1] == hi {
        var next := PutWord(rec, end, rec[off + 2 * i], rec[off + 2 * i + 1]);
        ApplyAt(next, lo, hi, off, i + 1, count, size);
        var r := ApplyFrom(rec, lo, hi, off, i, count, size);
        hide End, Shaped, ApplyFrom;
        forall m: nat | i < m < count ensures Sealed(next, lo, hi, m, size) <==> Sealed(rec, lo, hi, m, size) {}
        assert Sealed(rec, lo, hi, i, size);
        if r.Ok? {
          ApplyElsewhere(rec, next, r.value, off, i, count, size);
        }
      } else {
        assert !Sealed(rec, lo, hi, i, size);
      }
    }
  }

  lemma ApplyElsewhere(rec: Record, next: Record, r: Record, off: nat, i: nat, count: nat, size: nat)
    requires i < count && |next| == |rec| == |r| && off + 2 * count <= |rec|
    requires 0 <= End(i, size) && End(i, size) + 2 <= |rec|
    requires next == PutWord(rec, End(i, size), rec[off + 2 * i], rec[off + 2 * i + 1])
    requires forall m: nat | i < m < count :: End(i, size) + 2 <= End(m, size)
    requires forall m: nat | i <= m < count :: off + 2 * count <= End(m, size) || End(m, size) + 2 <= off
    requires forall m: nat | i < m < count :: Restored(next, r, off, m, size)
    requires forall k | 0 <= k < |rec| && !IsEnd(k, i + 1, count, size) :: r[k] == next[k]
    ensures forall m: nat | i <= m < count :: Restored(rec, r, off, m, size)
    ensures forall k | 0 <= k < |rec| && !IsEnd(k, i, count, size) :: r[k] == rec[k]
  {
    hide End;
    var end := End(i, size);
    assert WordAt(end, i, size) && WordAt(end + 1, i, size);
    forall k | k == end || k == end + 1 ensures r[k] == next[k] {
      assert !IsEnd(k, i + 1, count, size);
    }
    forall m: nat | i <= m < count ensures Restored(rec, r, off, m, size) {
      if m > i { assert Restored(next, r, off, m, size); }
    }
    forall k | 0 <= k < |rec| && !IsEnd(k, i, count, size) ensures r[k] == rec[k] {
      assert !WordAt(k, i, size) && !IsEnd(k, i + 1, count, size);
    }
  }

  // ---- Whole records ------------------------------------------------------------------------------

  /** The record sizes an opened volume can have. */
  predicate RecordSized(len: nat, size: nat) {
    size >= 256 && len >= size && len % size == 0
  }

  predicate ArrayFits(rec: Record, size: nat)
    requires RecordSized(|rec|, size)
  {
    U16(rec, 6) == |rec| / size + 1 && U16(rec, 4) + 2 * U16(rec, 6) <= |rec|
  }

  lemma FitsIsFramed(rec: Record, size: nat)
    requires RecordSized(|rec|, size) && ArrayFits(rec, size)
    ensures Framed(|rec|, U16(rec, 4), U16(rec, 6), size)
  {
    assert |rec| == (|rec| / size) * size;
  }

  function Apply(raw: Record, size: nat): (r: Result<Record>)
    requires RecordSized(|raw|, size)
    ensures r.Ok? ==> |r.value| == |raw|
  {
    if !ArrayFits(raw, size) then Error
    else
      FitsIsFramed(raw, size);
      var off := U16(raw, 4);
      ApplyFrom(raw, raw[off], raw[off + 1], off, 1, U16(raw, 6), size)
  }

  /** _apply_fixups. */
  method ApplyFixups(raw: Record, size: nat) returns (r: Result<Record>)
    requires RecordSized(|raw|, size)
    ensures r == Apply(raw, size)
  {
    if !ArrayFits(raw, size) { return Error; }
    FitsIsFramed(raw, size);
    var record, off, count := raw, U16(raw, 4), U16(raw, 6);
    var lo, hi := raw[off], raw[off + 1];
    for i := 1 to count
      invariant |record| == |raw| && Apply(raw, size) == ApplyFrom(record, lo, hi, off, i, count, size)
    {
      EndInside(|raw|, off, count, size, i);
      var end := i * size - 2;
      if record[end] != lo || record[end + 1] != hi { return Error; }
      record := PutWord(record, end, record[off + 2 * i], record[off + 2 * i + 1]);
    }
    r := Ok(record);
  }

  function Prepare(fixed: Record, size: nat): (r: Result<Record>)
    requires RecordSized(|fixed|, size)
    ensures r.Ok? ==> |r.value| == |fixed|
  {
    if !ArrayFits(fixed, size) then Error
    else
      FitsIsFramed(fixed, size);
      var off := U16(fixed, 4);
      var next := NextNumber(U16(fixed, off));
      Ok(PrepareFrom(PutWord(fixed, off, next % 256, next / 256), next % 256, next / 256, off, 1, U16(fixed, 6), size))
  }

  /** _prepare_fixups. */
  method PrepareFixups(fixed: Record, size: nat) returns (r: Result<Record>)
    requires RecordSized(|fixed|, size)
    ensures r == Prepare(fixed, size)
  {
    if !ArrayFits(fixed, size) { return Error; }
    FitsIsFramed(fixed, size);
    var off, count := U16(fixed, 4), U16(fixed, 6);
    var next := NextNumber(U16(fixed, off));
    var lo: Byte, hi: Byte := next % 256, next / 256;
    var record := PutWord(fixed, off, lo, hi);
    for i := 1 to count
      invariant |record| == |fixed| && Prepare(fixed, size) == Ok(PrepareFrom(record, lo, hi, off, i, count, size))
    {
      EndInside(|fixed|, off, count, size, i);
      var end := i * size - 2;
      record := PutWord(PutWord(record, off + 2 * i, record[end], record[end + 1]), end, lo, hi);
    }
    r := Ok(record);
  }

  /** Array past the record's header words and clear of sector ends. */
  ghost predicate WellPlaced(rec: Record, size: nat) {
    && RecordSized(|rec|, size) && ArrayFits(rec, size) && U16(rec, 4) >= 8
    && Shaped(|rec|, U16(rec, 4), U16(rec, 6), size)
  }

  ghost predicate InArray(rec: Record, k: nat)
    requires |rec| >= 8
  {
    U16(rec, 4) <= k < U16(rec, 4) + 2 * U16(rec, 6)
  }

  lemma HeaderKept(off: nat, count: nat, size: nat, k: int)
    requires size >= 256 && 0 <= k < 8
    ensures !IsEnd(k, 1, count, size)
  {
    forall m: nat | 1 <= m < count ensures !WordAt(k, m, size) { Product(m, size); }
  }

  ghost predicate AllSealed(raw: Record, lo: Byte, hi: Byte, count: nat, size: nat) {
    forall m: nat | 1 <= m < count :: Sealed(raw, lo, hi, m, size)
  }

  ghost predicate Written(numbered: Record, raw: Record, lo: Byte, hi: Byte, off: nat, count: nat, size: nat) {
    && SameElsewhere(numbered, raw, off, 1, count, size)
    && forall m: nat | 1 <= m < count :: Saved(numbered, raw, lo, hi, off, m, size)
  }

  ghost predicate ReadBack(raw: Record, back: Record, off: nat, count: nat, size: nat) {
    && |back| == |raw| && (forall m: nat | 1 <= m < count :: Restored(raw, back, off, m, size))
    && forall k | 0 <= k < |raw| && !IsEnd(k, 1, count, size) :: back[k] == raw[k]
  }

  lemma WrittenReadsBack(numbered: Record, raw: Record, back: Record, lo: Byte, hi: Byte, off: nat, count: nat,
                         size: nat)
    requires Written(numbered, raw, lo, hi, off, count, size) && ReadBack(raw, back, off, count, size)
    ensures |back| == |numbered|
    ensures forall k | 0 <= k < |back| && !(off <= k < off + 2 * count) :: back[k] == numbered[k]
  {
    hide End;
    forall k | 0 <= k < |back| && !(off <= k < off + 2 * count) ensures back[k] == numbered[k] {
      if IsEnd(k, 1, count, size) {
        var m: nat :| 1 <= m < count && WordAt(k, m, size);
        assert Saved(numbered, raw, lo, hi, off, m, size) && Restored(raw, back, off, m, size);
      }
    }
  }

  /** The written image: same header, next number, sealed sectors. */
  lemma PreparedImage(fixed: Record, size: nat)
    requires WellPlaced(fixed, size)
    ensures Prepare(fixed, size).Ok?
    ensures var raw, off, count := Prepare(fixed, size).value, U16(fixed, 4), U16(fixed, 6);
            && U16(raw, 4) == off && U16(raw, 6) == count && WellPlaced(raw, size)
            && U16(raw, off) == NextNumber(U16(fixed, off))
            && AllSealed(raw, raw[off], raw[off + 1], count, size)
    ensures var raw, off, count := Prepare(fixed, size).value, U16(fixed, 4), U16(fixed, 6);
            exists numbered ::
              Numbered(fixed, numbered, off) && Written(numbered, raw, raw[off], raw[off + 1], off, count, size)
  {
    var off, count := U16(fixed, 4), U16(fixed, 6);
    var next := NextNumber(U16(fixed, off));
    var lo: Byte, hi: Byte := next % 256, next / 256;
    var numbered := PutWord(fixed, off, lo, hi);
    var raw := Prepare(fixed, size).value;
    PrepareAt(numbered, lo, hi, off, 1, count, size);
    forall k | 0 <= k < 8 ensures !IsEnd(k, 1, count, size) { HeaderKept(off, count, size, k); }
    NumberKept(off, count, size, |fixed|);
    assert |numbered| == |fixed|;
    hide End, Shaped, PrepareFrom, Framed, ArrayFits, IsEnd;
    ImageFacts(fixed, numbered, raw, lo, hi, off, count, size);
    assert Numbered(fixed, numbered, off);
    forall m: nat | 1 <= m < count ensures Sealed(raw, lo, hi, m, size) {
      assert Saved(numbered, raw, lo, hi, off, m, size);
    }
  }

  lemma ImageFacts(fixed: Record, numbered: Record, raw: Record, lo: Byte, hi: Byte, off: nat, count: nat, size: nat)
    requires WellPlaced(fixed, size) && off == U16(fixed, 4) && count == U16(fixed, 6)
    requires numbered == PutWord(fixed, off, lo, hi)
    requires SameElsewhere(numbered, raw, off, 1, count, size)
    requires !IsEnd(off, 1, count, size) && !IsEnd(off + 1, 1, count, size)
    requires forall k | 0 <= k < 8 :: !IsEnd(k, 1, count, size)
    ensures raw[off] == lo && raw[off + 1] == hi && U16(raw, 4) == off && U16(raw, 6) == count && WellPlaced(raw, size)
  {
    hide End, IsEnd, Shaped, Framed;
    assert forall k | 0 <= k < 8 :: raw[k] == numbered[k] == fixed[k];
  }

  ghost predicate Numbered(fixed: Record, numbered: Record, off: nat) {
    && |numbered| == |fixed|
    && forall k | 0 <= k < |fixed| && !(off <= k < off + 2) :: numbered[k] == fixed[k]
  }

  /** Reading a prepared record gives the record back outside the array, and the
      written image carries a new number. */
  lemma FixupsRoundTrip(fixed: Record, size: nat)
    requires WellPlaced(fixed, size)
    ensures Prepare(fixed, size).Ok?
    ensures var raw := Prepare(fixed, size).value;
            && U16(raw, U16(fixed, 4)) == NextNumber(U16(fixed, U16(fixed, 4)))
            && Apply(raw, size).Ok?
            && forall k | 0 <= k < |fixed| && !InArray(fixed, k) :: Apply(raw, size).value[k] == fixed[k]
  {
    PreparedImage(fixed, size);
    var raw, off, count := Prepare(fixed, size).value, U16(fixed, 4), U16(fixed, 6);
    ApplyAt(raw, raw[off], raw[off + 1], off, 1, count, size);
    hide End, Shaped, ApplyFrom, Framed, ArrayFits, Prepare, WellPlaced, Written, Sealed, Restored;
    var numbered :| Numbered(fixed, numbered, off) && Written(numbered, raw, raw[off], raw[off + 1], off, count, size);
    var back := Apply(raw, size).value;
    assert ReadBack(raw, back, off, count, size);
    WrittenReadsBack(numbered, raw, back, raw[off], raw[off + 1], off, count, size);
  }

  lemma NumberKept(off: nat, count: nat, size: nat, len: nat)
    requires Shaped(len, off, count, size)
    ensures !IsEnd(off, 1, count, size) && !IsEnd(off + 1, 1, count, size)
  {
    hide End;
  }

  // ---- Torn records ------------------------------------------------------------------------------

  /** Sector `m` of `x` is the one of `image`. */
  ghost predicate FromSector(x: Record, image: Record, m: nat, size: nat) {
    && |x| == |image| && m >= 1
    && forall k | 0 <= k < |x| && End(m, size) + 2 - size <= k < End(m, size) + 2 :: x[k] == image[k]
  }

  /** Every sector comes whole from one of the two images. */
  ghost predicate TornRecord(x: Record, a: Record, b: Record, count: nat, size: nat) {
    |x| == |a| == |b| && forall m: nat | 1 <= m < count :: FromSector(x, a, m, size) || FromSector(x, b, m, size)
  }

  lemma SectorIndex(k: nat, count: nat, size: nat) returns (m: nat)
    requires size >= 2 && count >= 1 && k < (count - 1) * size
    ensures 1 <= m < count && End(m, size) + 2 - size <= k < End(m, size) + 2
  {
    m := k / size + 1;
    assert k == (k / size) * size + k % size;
    assert m * size == (k / size) * size + size;
    if m >= count {
      Quotient(m - 1, count - 1, size);
      assert false;
    }
  }

  lemma Quotient(a: nat, b: nat, size: nat)
    requires a >= b
    ensures a * size >= b * size
  {
  }

  /** Sealed with a number that only the sectors of `image` carry, `x` is `image`. */
  lemma SealedIsWhole(x: Record, image: Record, other: Record, lo: Byte, hi: Byte, off: nat, count: nat, size: nat)
    requires Framed(|x|, off, count, size) && TornRecord(x, image, other, count, size)
    requires AllSealed(x, lo, hi, count, size)
    requires exists lo': Byte, hi': Byte :: AllSealed(other, lo', hi', count, size) && !(lo' == lo && hi' == hi)
    ensures x == image
  {
    var lo': Byte, hi': Byte :| AllSealed(other, lo', hi', count, size) && !(lo' == lo && hi' == hi);
    forall k | 0 <= k < |x| ensures x[k] == image[k] {
      var m := SectorIndex(k, count, size);
      hide End;
      assert Sealed(x, lo, hi, m, size) && Sealed(other, lo', hi', m, size);
      assert x[End(m, size)] != other[End(m, size)] || x[End(m, size) + 1] != other[End(m, size) + 1];
      assert !FromSector(x, other, m, size);
      assert FromSector(x, image, m, size);
    }
  }

  lemma FirstSector(x: Record, image: Record, size: nat)
    requires FromSector(x, image, 1, size) && WellPlaced(image, size) && U16(image, 4) + 2 <= size
    ensures U16(x, 4) == U16(image, 4) && U16(x, 6) == U16(image, 6) && U16(x, U16(x, 4)) == U16(image, U16(image, 4))
  {
    assert End(1, size) + 2 == size;
    hide End, Shaped;
    assert forall k | 0 <= k < |x| && k < size :: x[k] == image[k];
  }

  lemma ReadIsSealed(x: Record, size: nat)
    requires RecordSized(|x|, size) && ArrayFits(x, size) && Shaped(|x|, U16(x, 4), U16(x, 6), size)
    ensures Apply(x, size).Ok? <==> AllSealed(x, x[U16(x, 4)], x[U16(x, 4) + 1], U16(x, 6), size)
  {
    var off, count := U16(x, 4), U16(x, 6);
    ApplyAt(x, x[off], x[off + 1], off, 1, count, size);
    hide End, ApplyFrom;
  }

  lemma NumberBytes(a: Record, b: Record, off: nat)
    requires off + 2 <= |a| && off + 2 <= |b|
    ensures U16(a, off) == U16(b, off) <==> a[off] == b[off] && a[off + 1] == b[off + 1]
  {
  }

  /** A record whose sectors mix two differently numbered images is rejected. */
  lemma TornIsDetected(x: Record, a: Record, b: Record, size: nat)
    requires WellPlaced(a, size) && WellPlaced(b, size) && Apply(a, size).Ok? && Apply(b, size).Ok?
    requires U16(a, 4) == U16(b, 4) && U16(a, 6) == U16(b, 6) && U16(a, 4) + 2 <= size
    requires U16(a, U16(a, 4)) != U16(b, U16(b, 4)) && TornRecord(x, a, b, U16(a, 6), size)
    ensures x == a || x == b || Apply(x, size).Error?
  {
    var off, count := U16(a, 4), U16(a, 6);
    assert 2 <= count by { assert Framed(|a|, off, count, size); }
    hide End, Apply, AllSealed, Shaped;
    ReadIsSealed(a, size);
    ReadIsSealed(b, size);
    assert FromSector(x, a, 1, size) || FromSector(x, b, 1, size);
    if FromSector(x, a, 1, size) {
      FirstSector(x, a, size);
      TornLike(x, a, b, off, count, size);
    } else {
      FirstSector(x, b, size);
      TornLike(x, b, a, off, count, size);
    }
  }

  lemma TornLike(x: Record, image: Record, other: Record, off: nat, count: nat, size: nat)
    requires RecordSized(|x|, size) && ArrayFits(x, size) && Shaped(|x|, off, count, size) && off == U16(x, 4)
    requires count == U16(x, 6)
    requires TornRecord(x, image, other, count, size) && AllSealed(other, other[off], other[off + 1], count, size)
    requires U16(x, off) != U16(other, off)
    ensures x == image || Apply(x, size).Error?
  {
    hide End, Apply, AllSealed;
    ReadIsSealed(x, size);
    NumberBytes(x, other, off);
    if Apply(x, size).Ok? {
      SealedIsWhole(x, image, other, x[off], x[off + 1], off, count, size);
    }
  }

  /** Reading leaves the header words and the sequence number as they are. */
  lemma ReadKeepsNumber(raw: Record, size: nat)
    requires WellPlaced(raw, size) && Apply(raw, size).Ok?
    ensures var fixed := Apply(raw, size).value;
            && U16(fixed, 4) == U16(raw, 4) && U16(fixed, 6) == U16(raw, 6)
            && U16(fixed, U16(raw, 4)) == U16(raw, U16(raw, 4))
  {
    var off, count := U16(raw, 4), U16(raw, 6);
    ApplyAt(raw, raw[off], raw[off + 1], off, 1, count, size);
    forall k | 0 <= k < 8 ensures !IsEnd(k, 1, count, size) { HeaderKept(off, count, size, k); }
    NumberKept(off, count, size, |raw|);
    hide End, ApplyFrom, IsEnd, Shaped, Framed;
    var fixed := Apply(raw, size).value;
    assert forall k | 0 <= k < 8 :: fixed[k] == raw[k];
  }
}
