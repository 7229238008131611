/** The cluster bitmap and its byte-skipping scanners. */
module NtfsBitmap {

  // ---- Bits ------------------------------------------------------------------------------

  function Mask(k: nat): bv8
    requires k < 8
  {
    match k case 0 => 1 case 1 => 2 case 2 => 4 case 3 => 8 case 4 => 16 case 5 => 32 case 6 => 64 case 7 => 128
  }

  predicate Bit(b: bv8, k: nat)
    requires k < 8
  {
    b & Mask(k) != 0
  }

  /** _bit: cluster `c` is allocated. */
  predicate Used(bitmap: seq<bv8>, c: nat)
    requires c < 8 * |bitmap|
  {
    Bit(bitmap[c / 8], c % 8)
  }

  lemma WholeByte(b: bv8)
    ensures b == 0 <==> forall k: nat | k < 8 :: !Bit(b, k)
    ensures b == 0xFF <==> forall k: nat | k < 8 :: Bit(b, k)
  {
    assert b == 0 <==>
      !Bit(b, 0) && !Bit(b, 1) && !Bit(b, 2) && !Bit(b, 3) && !Bit(b, 4) && !Bit(b, 5) && !Bit(b, 6) && !Bit(b, 7);
    assert b == 0xFF <==>
      Bit(b, 0) && Bit(b, 1) && Bit(b, 2) && Bit(b, 3) && Bit(b, 4) && Bit(b, 5) && Bit(b, 6) && Bit(b, 7);
  }

  lemma SameByte(a: bv8, b: bv8)
    requires forall k: nat | k < 8 :: Bit(a, k) == Bit(b, k)
    ensures a == b
  {
    assert Bit(a, 0) == Bit(b, 0) && Bit(a, 1) == Bit(b, 1) && Bit(a, 2) == Bit(b, 2) && Bit(a, 3) == Bit(b, 3);
    assert Bit(a, 4) == Bit(b, 4) && Bit(a, 5) == Bit(b, 5) && Bit(a, 6) == Bit(b, 6) && Bit(a, 7) == Bit(b, 7);
  }

  function SetBit(b: bv8, k: nat, value: bool): bv8
    requires k < 8
  {
    if value then b | Mask(k) else b & !Mask(k)
  }

  lemma SetBitAt(b: bv8, k: nat, value: bool, i: nat)
    requires k < 8 && i < 8
    ensures Bit(SetBit(b, k, value), i) == if i == k then value else Bit(b, i)
  {
  }

  /** int.bit_length of a byte. */
  function BitLength(b: bv8): (n: nat)
    ensures n <= 8
  {
    if b >= 128 then 8 else if b >= 64 then 7 else if b >= 32 then 6 else if b >= 16 then 5
    else if b >= 8 then 4 else if b >= 4 then 3 else if b >= 2 then 2 else if b >= 1 then 1 else 0
  }

  lemma BitLengthAt(b: bv8, k: nat)
    requires k < 8
    ensures k + 1 == BitLength(b) ==> Bit(b, k)
    ensures k >= BitLength(b) ==> !Bit(b, k)
  {
  }

  // ---- Ranges -----------------------------------------------------------------------------

  /** Every cluster of [lo, hi) has the given state. */
  ghost predicate All(bitmap: seq<bv8>, lo: nat, hi: nat, used: bool)
    requires hi <= 8 * |bitmap|
  {
    forall c: nat | lo <= c < hi :: Used(bitmap, c) == used
  }

  /** A whole byte settles the next eight clusters. */
  lemma SkipByte(bitmap: seq<bv8>, lo: nat, c: nat, used: bool)
    requires c % 8 == 0 && c + 8 <= 8 * |bitmap| && All(bitmap, lo, c, used)
    requires bitmap[c / 8] == if used then 0xFF else 0
    ensures All(bitmap, lo, c + 8, used)
  {
    WholeByte(bitmap[c / 8]);
    forall d: nat | c <= d < c + 8 ensures Used(bitmap, d) == used {
      assert d / 8 == c / 8 && d % 8 == d - c;
    }
  }

  ghost predicate SetTo(before: seq<bv8>, after: seq<bv8>, lo: nat, hi: nat, value: bool) {
    && |after| == |before|
    && forall c: nat | c < 8 * |before| :: Used(after, c) == if lo <= c < hi then value else Used(before, c)
  }

  lemma SetOne(start: seq<bv8>, before: seq<bv8>, after: seq<bv8>, lo: nat, c: nat, value: bool)
    requires SetTo(start, before, lo, c, value) && lo <= c < 8 * |start|
    requires after == before[c / 8 := SetBit(before[c / 8], c % 8, value)]
    ensures SetTo(start, after, lo, c + 1, value)
  {
    hide SetBit;
    forall d: nat | d < 8 * |start| ensures Used(after, d) == if lo <= d < c + 1 then value else Used(start, d) {
      SetBitAt(before[c / 8], c % 8, value, d % 8);
      assert Used(before, d) == if lo <= d < c then value else Used(start, d);
      assert d / 8 == c / 8 && d % 8 == c % 8 ==> d == c;
    }
  }

  lemma SetByte(start: seq<bv8>, before: seq<bv8>, after: seq<bv8>, lo: nat, c: nat, value: bool)
    requires SetTo(start, before, lo, c, value) && lo <= c && c % 8 == 0 && c + 8 <= 8 * |start|
    requires after == before[c / 8 := if value then 0xFF else 0]
    ensures SetTo(start, after, lo, c + 8, value)
  {
    WholeByte(after[c / 8]);
    forall d: nat | d < 8 * |start| ensures Used(after, d) == if lo <= d < c + 8 then value else Used(start, d) {
      assert Used(before, d) == if lo <= d < c then value else Used(start, d);
      assert d / 8 == c / 8 <==> c <= d < c + 8;
    }
  }

  /** _set_range: bits up to a byte boundary, whole bytes, remaining bits. */
  method SetRange(bitmap: array<bv8>, start: nat, length: nat, value: bool)
    requires start + length <= 8 * bitmap.Length
    modifies bitmap
    ensures SetTo(old(bitmap[..]), bitmap[..], start, start + length, value)
  {
    hide SetTo, SetBit, Used;
    var end, c := start + length, start;
    ghost var was := bitmap[..];
    SetNothing(was, start, value);
    while c < end && c % 8 != 0
      invariant start <= c <= end && SetTo(was, bitmap[..], start, c, value)
    {
      ghost var now := bitmap[..];
      bitmap[c / 8] := SetBit(bitmap[c / 8], c % 8, value);
      SetOne(was, now, bitmap[..], start, c, value);
      c := c + 1;
    }
    while c < end && c + 8 <= end
      invariant start <= c <= end && (c < end ==> c % 8 == 0) && SetTo(was, bitmap[..], start, c, value)
    {
      ghost var now := bitmap[..];
      bitmap[c / 8] := if value then 0xFF else 0;
      SetByte(was, now, bitmap[..], start, c, value);
      c := c + 8;
    }
    while c < end
      invariant start <= c <= end && SetTo(was, bitmap[..], start, c, value)
    {
      ghost var now := bitmap[..];
      bitmap[c / 8] := SetBit(bitmap[c / 8], c % 8, value);
      SetOne(was, now, bitmap[..], start, c, value);
      c := c + 1;
    }
  }

  lemma SetNothing(bitmap: seq<bv8>, lo: nat, value: bool)
    ensures SetTo(bitmap, bitmap, lo, lo, value)
  {
  }

  // ---- Scanners ------------------------------------------------------------------------------

  function Limit(bitmap: seq<bv8>, before: nat): (r: nat)
    ensures r <= before && r <= 8 * |bitmap|
  {
    if before < 8 * |bitmap| then before else 8 * |bitmap|
  }

  datatype Gap = NoGap | Gap(start: nat, end: nat)

  /** The first maximal free extent of [from, limit). */
  ghost predicate IsNextGap(bitmap: seq<bv8>, from: nat, limit: nat, gap: Gap)
    requires limit <= 8 * |bitmap|
  {
    match gap
    case NoGap => All(bitmap, from, limit, true)
    case Gap(g, e) =>
      && from <= g < e <= limit && All(bitmap, from, g, true) && All(bitmap, g, e, false)
      && (e == limit || Used(bitmap, e))
  }

  /** Skip clusters in state `used`, whole bytes at a time. */
  method Skip(bitmap: seq<bv8>, from: nat, limit: nat, used: bool) returns (c: nat)
    requires from <= limit <= 8 * |bitmap|
    ensures from <= c <= limit && All(bitmap, from, c, used) && (c == limit || Used(bitmap, c) != used)
  {
    hide Used;
    c := from;
    while c < limit
      invariant from <= c <= limit && All(bitmap, from, c, used)
    {
      if c % 8 == 0 && c + 8 <= limit && bitmap[c / 8] == (if used then 0xFF else 0) {
        SkipByte(bitmap, from, c, used);
        c := c + 8;
      } else if Used(bitmap, c) != used {
        return;
      } else {
        c := c + 1;
      }
    }
  }

  /** _next_free_run. */
  method NextFreeRun(bitmap: seq<bv8>, start: nat, before: nat) returns (gap: Gap)
    ensures IsNextGap(bitmap, start, Limit(bitmap, before), gap)
  {
    hide Used;
    var limit := Limit(bitmap, before);
    if start >= limit { return NoGap; }
    var g := Skip(bitmap, start, limit, true);
    if g >= limit { return NoGap; }
    var e := Skip(bitmap, g, limit, false);
    return Gap(g, e);
  }

  /** One past the highest allocated cluster below `limit`. */
  ghost predicate IsHighest(bitmap: seq<bv8>, limit: nat, high: nat)
    requires limit <= 8 * |bitmap|
  {
    high <= limit && All(bitmap, high, limit, false) && (high > 0 ==> Used(bitmap, high - 1))
  }

  /** _highest_used_before. */
  method HighestUsedBefore(bitmap: seq<bv8>, before: nat) returns (high: nat)
    ensures IsHighest(bitmap, Limit(bitmap, before), high)
  {
    hide BitLength;
    var limit := Limit(bitmap, before);
    var c: nat := limit;
    while c > 0 && c % 8 != 0
      invariant c <= limit && All(bitmap, c, limit, false)
    {
      if Used(bitmap, c - 1) { return c; }
      c := c - 1;
    }
    var index: nat := c / 8;
    while index > 0
      invariant 8 * index <= limit && All(bitmap, 8 * index, limit, false)
    {
      var value := bitmap[index - 1];
      HighestInByte(bitmap, index - 1);
      if value != 0 { return 8 * (index - 1) + BitLength(value); }
      index := index - 1;
    }
    high := 0;
  }

  lemma HighestInByte(bitmap: seq<bv8>, index: nat)
    requires index < |bitmap|
    ensures var high := 8 * index + BitLength(bitmap[index]);
            && All(bitmap, high, 8 * index + 8, false)
            && (bitmap[index] != 0 ==> high > 8 * index && Used(bitmap, high - 1))
            && (bitmap[index] == 0 ==> high == 8 * index)
  {
    var b := bitmap[index];
    forall c: nat | 8 * index <= c < 8 * index + 8 ensures c >= 8 * index + BitLength(b) ==> !Used(bitmap, c) {
      BitLengthAt(b, c - 8 * index);
      assert c / 8 == index && c % 8 == c - 8 * index;
    }
    if b != 0 {
      BitLengthAt(b, BitLength(b) - 1);
      var c := 8 * index + BitLength(b) - 1;
      assert c / 8 == index && c % 8 == BitLength(b) - 1;
    }
  }

  // ---- All gaps ---------------------------------------------------------------------------------

  /** A maximal free extent below `limit`. */
  ghost predicate IsGap(bitmap: seq<bv8>, limit: nat, gap: Gap)
    requires limit <= 8 * |bitmap|
  {
    && gap.Gap? && gap.start < gap.end <= limit && All(bitmap, gap.start, gap.end, false)
    && (gap.start == 0 || Used(bitmap, gap.start - 1)) && (gap.end == limit || Used(bitmap, gap.end))
  }

  predicate Inside(gap: Gap, c: nat) { gap.Gap? && gap.start <= c < gap.end }

  /** `gaps` lists the maximal free extents that end at or before `upTo`, in order. */
  ghost predicate Listed(bitmap: seq<bv8>, limit: nat, upTo: nat, gaps: seq<Gap>)
    requires upTo <= limit <= 8 * |bitmap|
  {
    && (forall i | 0 <= i < |gaps| :: IsGap(bitmap, limit, gaps[i]) && gaps[i].end <= upTo)
    && (forall i, j | 0 <= i < j < |gaps| :: gaps[i].end < gaps[j].start)
    && (forall c: nat | c < upTo && !Used(bitmap, c) :: exists i | 0 <= i < |gaps| :: Inside(gaps[i], c))
  }

  lemma ListMore(bitmap: seq<bv8>, limit: nat, start: nat, c: nat, gaps: seq<Gap>, more: seq<Gap>)
    requires start < c <= limit <= 8 * |bitmap| && Listed(bitmap, limit, start, gaps)
    requires IsGap(bitmap, limit, Gap(start, c)) && more == gaps + [Gap(start, c)]
    ensures Listed(bitmap, limit, c, more)
  {
    assert !Used(bitmap, start);
    hide Used;
    forall i, j | 0 <= i < j < |more| ensures more[i].end < more[j].start {
      if j == |gaps| { assert IsGap(bitmap, limit, gaps[i]); }
    }
    forall d: nat | d < c && !Used(bitmap, d) ensures exists i | 0 <= i < |more| :: Inside(more[i], d) {
      if d >= start {
        assert Inside(more[|gaps|], d);
      } else {
        var i :| 0 <= i < |gaps| && Inside(gaps[i], d);
        assert Inside(more[i], d);
      }
    }
  }

  lemma ListOn(bitmap: seq<bv8>, limit: nat, upTo: nat, c: nat, gaps: seq<Gap>)
    requires upTo <= c <= limit <= 8 * |bitmap| && Listed(bitmap, limit, upTo, gaps) && All(bitmap, upTo, c, true)
    ensures Listed(bitmap, limit, c, gaps)
  {
  }

  /** _free_runs_before. */
  method FreeRunsBefore(bitmap: seq<bv8>, before: nat) returns (gaps: seq<Gap>)
    ensures Listed(bitmap, Limit(bitmap, before), Limit(bitmap, before), gaps)
  {
    hide Used, Listed;
    var limit := Limit(bitmap, before);
    gaps := [];
    ListedNone(bitmap, limit);
    var open, start: nat, c: nat := false, 0, 0;
    while c < limit
      invariant c <= limit && start <= c
      invariant if open then Listed(bitmap, limit, start, gaps) && start < c && All(bitmap, start, c, false) &&
        (start == 0 || Used(bitmap, start - 1))
                else Listed(bitmap, limit, c, gaps) && (c == 0 || Used(bitmap, c - 1))
      decreases limit - c
    {
      if c % 8 == 0 && c + 8 <= limit && bitmap[c / 8] == 0 {
        if !open { start, open := c, true; }
        SkipByte(bitmap, start, c, false);
        c := c + 8;
      } else if c % 8 == 0 && c + 8 <= limit && bitmap[c / 8] == 0xFF {
        SkipByte(bitmap, c, c, true);
        if open {
          assert Used(bitmap, c);
          ListMore(bitmap, limit, start, c, gaps, gaps + [Gap(start, c)]);
          gaps, open := gaps + [Gap(start, c)], false;
        }
        ListOn(bitmap, limit, c, c + 8, gaps);
        c := c + 8;
      } else {
        if Used(bitmap, c) {
          if open {
            ListMore(bitmap, limit, start, c, gaps, gaps + [Gap(start, c)]);
            gaps, open := gaps + [Gap(start, c)], false;
          }
          ListOn(bitmap, limit, c, c + 1, gaps);
        } else if !open {
          start, open := c, true;
        }
        c := c + 1;
      }
    }
    if open {
      ListMore(bitmap, limit, start, limit, gaps, gaps + [Gap(start, limit)]);
      gaps := gaps + [Gap(start, limit)];
    }
  }

  lemma ListedNone(bitmap: seq<bv8>, limit: nat)
    requires limit <= 8 * |bitmap|
    ensures Listed(bitmap, limit, 0, [])
  {
  }

  ghost predicate Room(bitmap: seq<bv8>, limit: nat, s: nat, length: nat)
    requires limit <= 8 * |bitmap|
  {
    s + length <= limit && All(bitmap, s, s + length, false)
  }

  /** _find_free_run: the lowest gap below `before` with room for `length` clusters. */
  method FindFreeRun(bitmap: seq<bv8>, length: nat, before: nat) returns (gap: Gap)
    ensures gap.Gap? ==> IsGap(bitmap, Limit(bitmap, before), gap) && 0 < length <= gap.end - gap.start
    ensures length > 0 ==> forall s: nat | Room(bitmap, Limit(bitmap, before), s, length) ::
              gap.Gap? && gap.start <= s
  {
    if length == 0 { return NoGap; }
    ghost var limit := Limit(bitmap, before);
    var gaps := FreeRunsBefore(bitmap, before);
    hide Used;
    for i := 0 to |gaps|
      invariant forall k | 0 <= k < i :: gaps[k].end - gaps[k].start < length
    {
      if gaps[i].end - gaps[i].start >= length {
        forall s: nat | Room(bitmap, limit, s, length) ensures gaps[i].start <= s {
          var k := GapAround(bitmap, limit, gaps, s, length);
          assert i <= k;
        }
        return gaps[i];
      }
    }
    forall s: nat | Room(bitmap, limit, s, length) ensures false {
      var k := GapAround(bitmap, limit, gaps, s, length);
    }
    gap := NoGap;
  }

  lemma GapAround(bitmap: seq<bv8>, limit: nat, gaps: seq<Gap>, s: nat, length: nat) returns (i: nat)
    requires limit <= 8 * |bitmap| && Listed(bitmap, limit, limit, gaps)
    requires length > 0 && Room(bitmap, limit, s, length)
    ensures i < |gaps| && gaps[i].start <= s && s + length <= gaps[i].end
  {
    hide Used;
    assert !Used(bitmap, s);
    i :| 0 <= i < |gaps| && Inside(gaps[i], s);
    assert IsGap(bitmap, limit, gaps[i]);
    assert forall c: nat | s <= c < s + length :: !Used(bitmap, c);
  }
}
