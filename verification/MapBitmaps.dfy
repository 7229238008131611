/** Bitmap maps: byte-wise bit counting in place of one state per unit. */
module MapBitmaps {
  import opened Basics
  import opened MapCells
  import opened NtfsBitmap

  function One(b: bool): nat { if b then 1 else 0 }

  /** int.bit_count of a byte. */
  function PopCount(b: bv8): nat {
    One(Bit(b, 0)) + One(Bit(b, 1)) + One(Bit(b, 2)) + One(Bit(b, 3)) +
    One(Bit(b, 4)) + One(Bit(b, 5)) + One(Bit(b, 6)) + One(Bit(b, 7))
  }

  /** Set bits of the clusters [lo, hi). */
  function Ones(bitmap: seq<bv8>, lo: nat, hi: nat): (n: nat)
    requires hi <= 8 * |bitmap|
    ensures lo <= hi ==> n <= hi - lo
    decreases hi - lo
  {
    if hi <= lo then 0 else Ones(bitmap, lo, hi - 1) + One(Used(bitmap, hi - 1))
  }

  lemma {:induction false} OnesSplit(bitmap: seq<bv8>, lo: nat, mid: nat, hi: nat)
    requires lo <= mid <= hi <= 8 * |bitmap|
    ensures Ones(bitmap, lo, hi) == Ones(bitmap, lo, mid) + Ones(bitmap, mid, hi)
    decreases hi - mid
  {
    hide Used;
    if mid < hi { OnesSplit(bitmap, lo, mid, hi - 1); }
  }

  // ---- Masks ------------------------------------------------------------------------------------

  /** The low `n` bits. */
  function LowMask(n: nat): bv8
    requires n <= 8
  {
    match n
    case 0 => 0 case 1 => 1 case 2 => 3 case 3 => 7 case 4 => 15 case 5 => 31 case 6 => 63 case 7 => 127 case 8 => 255
  }

  /** Bits `from` to `until` - 1. */
  function RangeMask(from: nat, until: nat): bv8
    requires from <= until <= 8
  {
    LowMask(until) & !LowMask(from)
  }

  lemma LowMaskBit(n: nat, k: nat)
    requires n <= 8 && k < 8
    ensures Bit(LowMask(n), k) <==> k < n
  {
  }

  lemma MaskedBit(b: bv8, from: nat, until: nat, k: nat)
    requires from <= until <= 8 && k < 8
    ensures Bit(b & RangeMask(from, until), k) <==> from <= k < until && Bit(b, k)
  {
    hide RangeMask, Bit;
    RangeMaskBit(from, until, k);
    AndBit(b, RangeMask(from, until), k);
  }

  lemma RangeMaskBit(from: nat, until: nat, k: nat)
    requires from <= until <= 8 && k < 8
    ensures Bit(RangeMask(from, until), k) <==> from <= k < until
  {
    hide LowMask, Bit;
    LowMaskBit(from, k);
    LowMaskBit(until, k);
    AndNotBit(LowMask(until), LowMask(from), k);
  }

  lemma AndBit(x: bv8, y: bv8, k: nat)
    requires k < 8
    ensures Bit(x & y, k) <==> Bit(x, k) && Bit(y, k)
  {
  }

  lemma AndNotBit(x: bv8, y: bv8, k: nat)
    requires k < 8
    ensures Bit(x & !y, k) <==> Bit(x, k) && !Bit(y, k)
  {
  }

  function Part(b: bv8, from: nat, until: nat, k: nat): nat
    requires k < 8
  {
    One(from <= k < until && Bit(b, k))
  }

  function Parts(b: bv8, from: nat, until: nat): nat {
    Part(b, from, until, 0) + Part(b, from, until, 1) + Part(b, from, until, 2) + Part(b, from, until, 3) +
    Part(b, from, until, 4) + Part(b, from, until, 5) + Part(b, from, until, 6) + Part(b, from, until, 7)
  }

  lemma MaskedPart(b: bv8, from: nat, until: nat, k: nat)
    requires from <= until <= 8 && k < 8
    ensures One(Bit(b & RangeMask(from, until), k)) == Part(b, from, until, k)
  {
    hide RangeMask, Bit;
    MaskedBit(b, from, until, k);
  }

  lemma MaskedCount(b: bv8, from: nat, until: nat)
    requires from <= until <= 8
    ensures PopCount(b & RangeMask(from, until)) == Parts(b, from, until)
  {
    hide RangeMask, Bit, One, Part;
    MaskedPart(b, from, until, 0);
    MaskedPart(b, from, until, 1);
    MaskedPart(b, from, until, 2);
    MaskedPart(b, from, until, 3);
    MaskedPart(b, from, until, 4);
    MaskedPart(b, from, until, 5);
    MaskedPart(b, from, until, 6);
    MaskedPart(b, from, until, 7);
  }

  lemma {:induction false} PartsAreOnes(bitmap: seq<bv8>, i: nat, from: nat, until: nat)
    requires i < |bitmap| && from <= until <= 8
    ensures Ones(bitmap, 8 * i + from, 8 * i + until) == Parts(bitmap[i], from, until)
    decreases until
  {
    hide Bit, Ones, Parts;
    if from < until {
      PartsAreOnes(bitmap, i, from, until - 1);
      LastOne(bitmap, i, 8 * i + from, until - 1);
      OneMore(bitmap[i], from, until - 1);
    } else {
      OnesNone(bitmap, 8 * i + from, 8 * i + until);
      NoParts(bitmap[i], from);
    }
  }

  lemma NoParts(b: bv8, from: nat)
    ensures Parts(b, from, from) == 0
  {
  }

  lemma LastOne(bitmap: seq<bv8>, i: nat, lo: nat, k: nat)
    requires i < |bitmap| && k < 8 && lo <= 8 * i + k
    ensures Ones(bitmap, lo, 8 * i + k + 1) == Ones(bitmap, lo, 8 * i + k) + One(Bit(bitmap[i], k))
  {
    hide Bit;
    var c := 8 * i + k;
    assert c / 8 == i && c % 8 == k;
  }

  lemma OneMore(b: bv8, from: nat, k: nat)
    requires from <= k < 8
    ensures Parts(b, from, k + 1) == Parts(b, from, k) + One(Bit(b, k))
  {
    hide Bit;
    assert k == 0 || k == 1 || k == 2 || k == 3 || k == 4 || k == 5 || k == 6 || k == 7;
  }

  function MaskedOnes(b: bv8, from: nat, until: nat): nat
    requires from <= until <= 8
  {
    PopCount(b & RangeMask(from, until))
  }

  /** The masked population count of one byte is its share of the range. */
  lemma ByteShare(bitmap: seq<bv8>, i: nat, from: nat, until: nat)
    requires i < |bitmap| && from <= until <= 8
    ensures MaskedOnes(bitmap[i], from, until) == Ones(bitmap, 8 * i + from, 8 * i + until)
  {
    MaskedCount(bitmap[i], from, until);
    PartsAreOnes(bitmap, i, from, until);
  }

  /** count_set_bits: partial first byte, whole bytes, partial last byte. */
  method CountSetBits(bitmap: seq<bv8>, start: nat, end: nat) returns (count: nat)
    requires end <= 8 * |bitmap|
    ensures count == Ones(bitmap, start, end)
  {
    hide MaskedOnes, Ones, Used;
    OnesNone(bitmap, start, end);
    if end <= start { return 0; }
    var first, last := start / 8, (end - 1) / 8;
    var f: nat := start % 8;
    assert start == 8 * first + f;
    if first == last {
      ByteShare(bitmap, first, f, end - 8 * first);
      return MaskedOnes(bitmap[first], f, end - 8 * first);
    }
    count := 0;
    if f != 0 {
      ByteShare(bitmap, first, f, 8);
      count := MaskedOnes(bitmap[first], f, 8);
      first := first + 1;
    } else {
      OnesNone(bitmap, start, start);
    }
    var full := end / 8;
    var whole := CountWholeBytes(bitmap, first, full);
    OnesSplit(bitmap, start, 8 * first, 8 * full);
    count := count + whole;
    var rest: nat := end % 8;
    assert end == 8 * full + rest;
    if rest != 0 {
      assert last == full;
      ByteShare(bitmap, last, 0, rest);
      OnesSplit(bitmap, start, 8 * full, end);
      count := count + MaskedOnes(bitmap[last], 0, rest);
    }
  }

  method CountWholeBytes(bitmap: seq<bv8>, first: nat, full: nat) returns (count: nat)
    requires first <= full <= |bitmap|
    ensures count == Ones(bitmap, 8 * first, 8 * full)
  {
    hide MaskedOnes, Ones, Used;
    OnesNone(bitmap, 8 * first, 8 * first);
    count := 0;
    for i := first to full
      invariant count == Ones(bitmap, 8 * first, 8 * i)
    {
      ByteShare(bitmap, i, 0, 8);
      OnesSplit(bitmap, 8 * first, 8 * i, 8 * i + 8);
      count := count + MaskedOnes(bitmap[i], 0, 8);
    }
  }

  lemma OnesNone(bitmap: seq<bv8>, lo: nat, hi: nat)
    requires hi <= 8 * |bitmap|
    ensures hi <= lo ==> Ones(bitmap, lo, hi) == 0
  {
  }

  // ---- Maps --------------------------------------------------------------------------------------

  /** A reserved prefix of unknown units, then one bit per unit. */
  function BitmapStates(bitmap: seq<bv8>, total: nat, reserved: nat): (s: seq<int>)
    requires total - reserved <= 8 * |bitmap|
    ensures |s| == total && forall u: nat | u < total :: s[u] == UnitState(bitmap, total, reserved, u)
    ensures States(s)
  {
    hide UnitState;
    seq(total, u requires 0 <= u < total => UnitState(bitmap, total, reserved, u))
  }

  function UnitState(bitmap: seq<bv8>, total: nat, reserved: nat, u: nat): (state: int)
    requires total - reserved <= 8 * |bitmap| && u < total
    ensures IsState(state)
  {
    if u < reserved then 2 else One(Used(bitmap, u - reserved))
  }

  lemma {:induction false} PrefixCount(s: seq<int>, lo: nat, hi: nat)
    requires States(s) && lo <= hi <= |s| && forall u | lo <= u < hi :: s[u] == 2
    ensures Tally(s, lo, hi) == Counts(0, 0, hi - lo, 0)
  {
    hide Tally, States, Size, Add;
    TallyNone(s, lo);
    TallyStretch(s, lo, lo, hi, 2);
    AddUnknown(hi - lo);
  }

  lemma AddUnknown(n: nat)
    ensures Add(NONE, 2, n) == Counts(0, 0, n, 0)
  {
  }

  lemma TallyStep(s: seq<int>, lo: nat, hi: nat)
    requires States(s) && lo < hi <= |s|
    ensures IsState(s[hi - 1]) && Tally(s, lo, hi) == Add(Tally(s, lo, hi - 1), s[hi - 1], 1)
  {
  }

  lemma TallyNone(s: seq<int>, lo: nat)
    requires States(s) && lo <= |s|
    ensures Tally(s, lo, lo) == NONE
  {
  }

  lemma {:induction false} BitCount(bitmap: seq<bv8>, total: nat, reserved: nat, s: seq<int>, lo: nat, hi: nat)
    requires total - reserved <= 8 * |bitmap| && reserved <= lo <= hi <= total && |s| == total && States(s)
    requires forall u: nat | u < total :: s[u] == UnitState(bitmap, total, reserved, u)
    ensures var used := Ones(bitmap, lo - reserved, hi - reserved);
            Tally(s, lo, hi) == Counts(hi - lo - used, used, 0, 0)
    decreases hi
  {
    hide Used, States, Tally, Size;
    if lo < hi {
      BitCount(bitmap, total, reserved, s, lo, hi - 1);
      assert s[hi - 1] == UnitState(bitmap, total, reserved, hi - 1);
      TallyStep(s, lo, hi);
    } else {
      TallyNone(s, lo);
    }
  }

  /** One cell: unknown before the prefix ends, then set and clear bits. */
  method BitmapCell(bitmap: seq<bv8>, total: nat, reserved: nat, start: nat, end: nat) returns (counts: Counts)
    requires total - reserved <= 8 * |bitmap| && start < end <= total
    ensures counts == Tally(BitmapStates(bitmap, total, reserved), start, end)
  {
    hide Tally, BitmapStates, Ones, Used;
    var stop := if end < reserved then end else reserved;
    var unknown := if stop > start then stop - start else 0;
    var from := if start < reserved then reserved else start;
    var data := if end > from then end - from else 0;
    var used := 0;
    if data > 0 { used := CountSetBits(bitmap, from - reserved, end - reserved); }
    counts := Counts(data - used, used, unknown, 0);
    CellCounts(bitmap, total, reserved, BitmapStates(bitmap, total, reserved), start, end, start + unknown, used);
  }

  lemma {:induction false} CellCounts(bitmap: seq<bv8>, total: nat, reserved: nat, s: seq<int>, start: nat, end: nat,
                                      mid: nat, used: nat)
    requires total - reserved <= 8 * |bitmap| && start <= mid <= end <= total && |s| == total && States(s)
    requires forall u: nat | u < total :: s[u] == UnitState(bitmap, total, reserved, u)
    requires start < mid ==> mid <= reserved
    requires mid < end ==> reserved <= mid && used == Ones(bitmap, mid - reserved, end - reserved)
    requires mid == end ==> used == 0
    ensures used <= end - mid && Tally(s, start, end) == Counts(end - mid - used, used, mid - start, 0)
  {
    hide Tally, Ones, States, Size, UnitState, Plus;
    UnknownCount(bitmap, total, reserved, s, start, mid);
    DataCount(bitmap, total, reserved, s, mid, end, used);
    TallySplit(s, start, mid, end);
    PlusParts(mid - start, end - mid - used, used);
  }

  lemma PlusParts(unknown: nat, free: nat, used: nat)
    ensures Plus(Counts(0, 0, unknown, 0), Counts(free, used, 0, 0)) == Counts(free, used, unknown, 0)
  {
  }

  lemma {:induction false} UnknownCount(bitmap: seq<bv8>, total: nat, reserved: nat, s: seq<int>, lo: nat, hi: nat)
    requires total - reserved <= 8 * |bitmap| && lo <= hi <= total && |s| == total && States(s)
    requires (lo < hi ==> hi <= reserved)
    requires forall u: nat | u < total :: s[u] == UnitState(bitmap, total, reserved, u)
    ensures Tally(s, lo, hi) == Counts(0, 0, hi - lo, 0)
  {
    hide Tally, States, Size, Used;
    forall u: nat | lo <= u < hi ensures s[u] == 2 { assert s[u] == UnitState(bitmap, total, reserved, u); }
    PrefixCount(s, lo, hi);
  }

  lemma {:induction false} DataCount(bitmap: seq<bv8>, total: nat, reserved: nat, s: seq<int>, lo: nat, hi: nat,
                                     used: nat)
    requires total - reserved <= 8 * |bitmap| && lo <= hi <= total && |s| == total && States(s)
    requires forall u: nat | u < total :: s[u] == UnitState(bitmap, total, reserved, u)
    requires lo < hi ==> reserved <= lo && used == Ones(bitmap, lo - reserved, hi - reserved)
    requires lo == hi ==> used == 0
    ensures used <= hi - lo && Tally(s, lo, hi) == Counts(hi - lo - used, used, 0, 0)
  {
    hide Tally, Ones, States, Size, UnitState;
    if lo < hi { BitCount(bitmap, total, reserved, s, lo, hi); } else { TallyNone(s, lo); }
  }

  /** aggregate_bitmap: the map of the per-unit states, without expanding the bitmap. */
  method AggregateBitmap(bitmap: seq<bv8>, total: nat, wanted: int, reserved: nat)
    returns (r: Result<(seq<Cell>, Counts)>)
    requires total >= 1
    ensures r.Error? <==> 8 * |bitmap| < total - reserved
    ensures r.Ok? ==> IsMap(BitmapStates(bitmap, total, reserved), CellCount(total, wanted), r.value.0, r.value.1)
  {
    hide Boundary, Tally, CellsUpTo, Plus, IsMap, BitmapStates;
    if 8 * |bitmap| < total - reserved { return Error; }
    var n := CellCount(total, wanted);
    ghost var s := BitmapStates(bitmap, total, reserved);
    var cells, totals := [], NONE;
    CellsStart(s, n);
    for i := 0 to n
      invariant |cells| == i && CellsUpTo(s, n, cells, totals)
    {
      CellsPartition(total, n, i);
      var start, end := Boundary(total, n, i), CellEnd(total, n, i);
      var counts := BitmapCell(bitmap, total, reserved, start, end);
      CellsStep(s, n, cells, totals, counts);
      cells, totals := cells + [Cell(start, end - 1, counts)], Plus(totals, counts);
    }
    CellsDone(s, n, cells, totals);
    r := Ok((cells, totals));
  }
}
