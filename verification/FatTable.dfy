/** The packed FAT: entries of 12, 16 or 28 bits inside the bytes of every table copy. */
module FatTable {
  import opened Basics
  import opened Arithmetic
  import FatVolume

  type Kind = FatVolume.FatType

  // ---- Reference view: an array of half bytes ------------------------------------------------

  function Nibble(raw: seq<Byte>, i: nat): (n: nat)
    requires i < 2 * |raw|
    ensures n < 16
  {
    if i % 2 == 0 then raw[i / 2] % 16 else raw[i / 2] / 16
  }

  /** Half bytes from one entry to the next. */
  function Width(kind: Kind): nat {
    match kind case Fat12 => 3 case Fat16 => 4 case Fat32 => 8
  }

  /** Half bytes that belong to the entry's value; FAT32 keeps its top one reserved. */
  function Digits(kind: Kind): nat {
    match kind case Fat12 => 3 case Fat16 => 4 case Fat32 => 7
  }

  function Pow16(n: nat): (p: nat)
    ensures p >= 1
  {
    if n == 0 then 1 else 16 * Pow16(n - 1)
  }

  /** The little-endian value of `n` half bytes. */
  function Value(raw: seq<Byte>, at: nat, n: nat): nat
    requires at + n <= 2 * |raw|
    decreases n
  {
    if n == 0 then 0 else Nibble(raw, at) + 16 * Value(raw, at + 1, n - 1)
  }

  function Digit(v: nat, j: nat): nat {
    if j == 0 then v % 16 else Digit(v / 16, j - 1)
  }

  predicate Owns(kind: Kind, c: nat, i: nat) {
    Width(kind) * c <= i < Width(kind) * c + Digits(kind)
  }

  // ---- The codec -------------------------------------------------------------------------------

  /** Values an entry can hold: those under its mask. */
  function Range(kind: Kind): (n: nat)
    ensures n >= 1
  {
    FatVolume.Mask(kind) + 1
  }

  function EntryCount(kind: Kind, size: nat): nat {
    match kind case Fat12 => size * 2 / 3 case Fat16 => size / 2 case Fat32 => size / 4
  }

  function Offset(kind: Kind, c: nat): nat {
    match kind case Fat12 => c + c / 2 case Fat16 => c * 2 case Fat32 => c * 4
  }

  function Span(kind: Kind): nat { if kind.Fat32? then 4 else 2 }

  /** fat_entry_byte_offset: the bounds tests of decode_fat_entry never fire below the entry count. */
  lemma EntryInside(kind: Kind, size: nat, c: nat)
    requires c < EntryCount(kind, size)
    ensures Offset(kind, c) + Span(kind) <= size && Width(kind) * c + Digits(kind) <= 2 * size
  {
  }

  function Read16(raw: seq<Byte>, off: nat): (v: nat)
    requires off + 2 <= |raw|
    ensures v < 0x10000
  {
    var lo: nat, hi: nat := raw[off], raw[off + 1];
    lo + 256 * hi
  }

  function Read32(raw: seq<Byte>, off: nat): (v: nat)
    requires off + 4 <= |raw|
    ensures v < 0x1_0000_0000
  {
    Read16(raw, off) + 0x1_0000 * Read16(raw, off + 2)
  }

  function Bytes16(v: nat): (b: seq<Byte>)
    ensures |b| == 2
  {
    [v % 256, v / 256 % 256]
  }

  function Bytes32(v: nat): (b: seq<Byte>)
    ensures |b| == 4
  {
    [v % 256, v / 0x100 % 256, v / 0x1_0000 % 256, v / 0x100_0000 % 256]
  }

  function Splice(raw: seq<Byte>, off: nat, b: seq<Byte>): (r: seq<Byte>)
    requires off + |b| <= |raw|
    ensures |r| == |raw| && forall i: nat | i < |raw| :: r[i] == if off <= i < off + |b| then b[i - off] else raw[i]
  {
    raw[..off] + b + raw[off + |b|..]
  }

  function Read(kind: Kind, raw: seq<Byte>, off: nat): nat
    requires off + Span(kind) <= |raw|
  {
    if kind.Fat32? then Read32(raw, off) else Read16(raw, off)
  }

  function Bytes(kind: Kind, word: nat): (b: seq<Byte>)
    ensures |b| == Span(kind)
  {
    if kind.Fat32? then Bytes32(word) else Bytes16(word)
  }

  /** decode_fat_entry */
  function Decode(kind: Kind, raw: seq<Byte>, c: nat): nat
    requires c < EntryCount(kind, |raw|)
  {
    EntryInside(kind, |raw|, c);
    var word := Read(kind, raw, Offset(kind, c));
    match kind
    case Fat12 => if c % 2 == 1 then word / 16 else word % 0x1000
    case Fat16 => word
    case Fat32 => word % 0x1000_0000
  }

  /** The word fat32_write_entry stores back over the word it read. */
  function Stored(kind: Kind, c: nat, word: nat, v: nat): nat {
    match kind
    case Fat12 => if c % 2 == 1 then word % 16 + 16 * (v % 0x1000) else word / 0x1000 * 0x1000 + v % 0x1000
    case Fat16 => v % 0x10000
    case Fat32 => word / 0x1000_0000 * 0x1000_0000 + v % 0x1000_0000
  }

  function Put(kind: Kind, raw: seq<Byte>, c: nat, v: nat): (r: seq<Byte>)
    requires c < EntryCount(kind, |raw|)
    ensures |r| == |raw|
  {
    EntryInside(kind, |raw|, c);
    var off := Offset(kind, c);
    Splice(raw, off, Bytes(kind, Stored(kind, c, Read(kind, raw, off), v)))
  }

  // ---- Arithmetic of digits ------------------------------------------------------------------------

  /** Half bytes that spell the digits of `v` have its low part as value. */
  lemma {:induction false} Spells(raw: seq<Byte>, at: nat, n: nat, v: nat)
    requires at + n <= 2 * |raw| && forall j: nat | j < n :: Nibble(raw, at + j) == Digit(v, j)
    ensures Value(raw, at, n) == v % Pow16(n)
    decreases n
  {
    hide Nibble;
    if n > 0 {
      forall j: nat | j < n - 1 ensures Nibble(raw, at + 1 + j) == Digit(v / 16, j) {
        assert Nibble(raw, at + (j + 1)) == Digit(v, j + 1);
      }
      Spells(raw, at + 1, n - 1, v / 16);
      assert Nibble(raw, at + 0) == Digit(v, 0);
      LowPart(v, Pow16(n - 1));
    }
  }

  lemma LowPart(v: nat, p: nat)
    requires p >= 1
    ensures v % (16 * p) == v % 16 + 16 * (v / 16 % p)
  {
    var q, r := v / 16, v % 16;
    var a, b := q / p, q % p;
    assert q == p * a + b;
    assert v == (16 * p) * a + (16 * b + r);
    Remainder(v, 16 * p, a, 16 * b + r);
  }

  // ---- Digits of stored words ----------------------------------------------------------------------

  /** Replacing the low `n` digits of a number. */
  lemma {:induction false} Blend(k: nat, v: nat, n: nat, j: nat)
    ensures j < n ==> Digit(k * Pow16(n) + v % Pow16(n), j) == Digit(v, j)
    ensures j >= n ==> Digit(k * Pow16(n) + v % Pow16(n), j) == Digit(k, j - n)
    decreases n
  {
    hide Digit, Pow16;
    if n == 0 {
      LastPower(k, v);
    } else {
      var p := Pow16(n - 1);
      NextPower(n);
      BlendStep(k, v, p);
      if j == 0 {
        FirstDigit(k * (16 * p) + v % (16 * p));
        FirstDigit(v);
      } else {
        Blend(k, v / 16, n - 1, j - 1);
        LaterDigit(k * (16 * p) + v % (16 * p), j);
        LaterDigit(v, j);
      }
    }
  }

  lemma LastPower(k: nat, v: nat)
    ensures k * Pow16(0) + v % Pow16(0) == k
  {
  }

  lemma NextPower(n: nat)
    requires n > 0
    ensures Pow16(n) == 16 * Pow16(n - 1)
  {
  }

  lemma FirstDigit(v: nat)
    ensures Digit(v, 0) == v % 16
  {
  }

  lemma LaterDigit(v: nat, j: nat)
    requires j > 0
    ensures Digit(v, j) == Digit(v / 16, j - 1)
  {
  }

  lemma BlendStep(k: nat, v: nat, p: nat)
    requires p >= 1
    ensures var w := k * (16 * p) + v % (16 * p); w % 16 == v % 16 && w / 16 == k * p + v / 16 % p
  {
    LowPart(v, p);
    var rest := k * p + v / 16 % p;
    Regroup(k, p);
    Remainder(16 * rest + v % 16, 16, rest, v % 16);
  }

  lemma Regroup(k: nat, p: nat)
    ensures k * (16 * p) == 16 * (k * p)
  {
  }

  lemma ByteDigits(b: Byte, x: nat, j: nat)
    ensures Digit(b + 256 * x, 0) == b % 16 && Digit(b + 256 * x, 1) == b / 16
    ensures Digit(b + 256 * x, j + 2) == Digit(x, j)
  {
    var v: nat := b + 256 * x;
    assert v % 16 == b % 16 && v / 16 == b / 16 + 16 * x;
    assert Digit(v, 1) == Digit(v / 16, 0);
    assert v / 16 / 16 == x;
    assert Digit(v, j + 2) == Digit(v / 16, j + 1) == Digit(x, j);
  }

  lemma ReadDigits16(raw: seq<Byte>, off: nat, j: nat)
    requires off + 2 <= |raw| && j < 4
    ensures Nibble(raw, 2 * off + j) == Digit(Read16(raw, off), j)
  {
    ByteDigits(raw[off], raw[off + 1], 0);
    ByteDigits(raw[off], raw[off + 1], 1);
    ByteDigits(raw[off + 1], 0, 0);
  }

  lemma ReadDigits32(raw: seq<Byte>, off: nat, j: nat)
    requires off + 4 <= |raw| && j < 8
    ensures Nibble(raw, 2 * off + j) == Digit(Read32(raw, off), j)
  {
    hide Digit, Nibble;
    var low, high := Read16(raw, off), Read16(raw, off + 2);
    Blend(high, low, 4, j);
    assert Pow16(4) == 0x10000;
    if j < 4 { ReadDigits16(raw, off, j); } else { ReadDigits16(raw, off + 2, j - 4); }
  }

  lemma ReadDigits(kind: Kind, raw: seq<Byte>, off: nat, j: nat)
    requires off + Span(kind) <= |raw| && j < 2 * Span(kind)
    ensures Nibble(raw, 2 * off + j) == Digit(Read(kind, raw, off), j)
  {
    hide Digit, Nibble;
    if kind.Fat32? { ReadDigits32(raw, off, j); } else { ReadDigits16(raw, off, j); }
  }

  lemma ReadBack16(raw: seq<Byte>, off: nat, word: nat)
    requires off + 2 <= |raw| && word < 0x10000 && raw[off] == word % 256 && raw[off + 1] == word / 256 % 256
    ensures Read16(raw, off) == word
  {
  }

  lemma ReadBack(kind: Kind, raw: seq<Byte>, off: nat, word: nat)
    requires off + Span(kind) <= |raw| && word < Pow16(2 * Span(kind))
    ensures Read(kind, Splice(raw, off, Bytes(kind, word)), off) == word
  {
    hide Splice, Read16, Pow16;
    Powers();
    var after := Splice(raw, off, Bytes(kind, word));
    if kind.Fat32? {
      var low, high := word % 0x10000, word / 0x10000;
      Halved(word);
      ReadBack16(after, off, low);
      ReadBack16(after, off + 2, high);
    } else {
      ReadBack16(after, off, word);
    }
  }

  lemma Halved(word: nat)
    requires word < 0x1_0000_0000
    ensures word % 0x10000 % 256 == word % 256 && word % 0x10000 / 256 % 256 == word / 256 % 256
    ensures word / 0x10000 % 256 == word / 0x1_0000 % 256 && word / 0x10000 / 256 % 256 == word / 0x100_0000 % 256
    ensures word / 0x10000 < 0x10000
  {
  }

  lemma StoredDigits(kind: Kind, c: nat, word: nat, v: nat, j: nat)
    requires word < Pow16(2 * Span(kind)) && j < 2 * Span(kind)
    ensures Stored(kind, c, word, v) < Pow16(2 * Span(kind))
    ensures var i := 2 * Offset(kind, c) + j;
            Digit(Stored(kind, c, word, v), j) ==
              if Owns(kind, c, i) then Digit(v, i - Width(kind) * c) else Digit(word, j)
  {
    hide Digit;
    assert Pow16(1) == 16 && Pow16(3) == 0x1000 && Pow16(4) == 0x10000 && Pow16(7) == 0x1000_0000;
    assert Pow16(8) == 0x1_0000_0000;
    match kind
    case Fat12 =>
      if c % 2 == 1 {
        Blend(v % 0x1000, word, 1, j);
        if j > 0 { Blend(0, v, 3, j - 1); }
      } else {
        Blend(word / 0x1000, v, 3, j);
        Blend(word / 0x1000, word, 3, j);
      }
    case Fat16 => Blend(0, v, 4, j);
    case Fat32 =>
      Blend(word / 0x1000_0000, v, 7, j);
      Blend(word / 0x1000_0000, word, 7, j);
  }

  // ---- One entry ---------------------------------------------------------------------------------

  lemma WordBound(kind: Kind, raw: seq<Byte>, off: nat)
    requires off + Span(kind) <= |raw|
    ensures Read(kind, raw, off) < Pow16(2 * Span(kind))
  {
    assert Pow16(4) == 0x10000 && Pow16(8) == 0x1_0000_0000;
  }

  /** Decoding an entry reads exactly the half bytes it owns. */
  lemma DecodeReadsOwn(kind: Kind, raw: seq<Byte>, c: nat)
    requires c < EntryCount(kind, |raw|)
    ensures Width(kind) * c + Digits(kind) <= 2 * |raw|
    ensures Decode(kind, raw, c) == Value(raw, Width(kind) * c, Digits(kind))
  {
    hide Nibble, Value, Pow16;
    EntryInside(kind, |raw|, c);
    var off := Offset(kind, c);
    var skip := Width(kind) * c - 2 * off;
    var word := Read(kind, raw, off);
    var x := if skip == 1 then word / 16 else word;
    forall j: nat | j < Digits(kind) ensures Nibble(raw, Width(kind) * c + j) == Digit(x, j) {
      ReadDigits(kind, raw, off, skip + j);
      assert 2 * off + (skip + j) == Width(kind) * c + j;
    }
    Spells(raw, Width(kind) * c, Digits(kind), x);
    WordBound(kind, raw, off);
    Powers();
  }

  lemma Powers()
    ensures Pow16(3) == 0x1000 && Pow16(4) == 0x10000 && Pow16(7) == 0x1000_0000 && Pow16(8) == 0x1_0000_0000
  {
  }

  lemma PutInside(kind: Kind, raw: seq<Byte>, c: nat, v: nat, j: nat)
    requires c < EntryCount(kind, |raw|) && j < 2 * Span(kind)
    ensures 2 * Offset(kind, c) + j < 2 * |raw|
    ensures var i := 2 * Offset(kind, c) + j;
            Nibble(Put(kind, raw, c, v), i) ==
              if Owns(kind, c, i) then Digit(v, i - Width(kind) * c) else Nibble(raw, i)
  {
    hide Digit, Stored, Pow16, Nibble, Splice, Read, Bytes;
    EntryInside(kind, |raw|, c);
    var off := Offset(kind, c);
    var word := Read(kind, raw, off);
    WordBound(kind, raw, off);
    StoredDigits(kind, c, word, v, j);
    ReadBack(kind, raw, off, Stored(kind, c, word, v));
    ReadDigits(kind, raw, off, j);
    ReadDigits(kind, Put(kind, raw, c, v), off, j);
  }

  lemma PutOutside(kind: Kind, raw: seq<Byte>, c: nat, v: nat, i: nat)
    requires c < EntryCount(kind, |raw|) && i < 2 * |raw|
    requires !(2 * Offset(kind, c) <= i < 2 * Offset(kind, c) + 2 * Span(kind))
    ensures Nibble(Put(kind, raw, c, v), i) == Nibble(raw, i) && !Owns(kind, c, i)
  {
    hide Stored, Read, Bytes;
    EntryInside(kind, |raw|, c);
    assert !(Offset(kind, c) <= i / 2 < Offset(kind, c) + Span(kind));
  }

  /** fat32_write_entry: of all half bytes of the copy, only the entry's own change. */
  lemma PutChangesOwn(kind: Kind, raw: seq<Byte>, c: nat, v: nat, i: nat)
    requires c < EntryCount(kind, |raw|) && i < 2 * |raw|
    ensures Nibble(Put(kind, raw, c, v), i) ==
      if Owns(kind, c, i) then Digit(v, i - Width(kind) * c) else Nibble(raw, i)
  {
    hide Put, Nibble, Digit;
    if 2 * Offset(kind, c) <= i < 2 * Offset(kind, c) + 2 * Span(kind) {
      PutInside(kind, raw, c, v, i - 2 * Offset(kind, c));
    } else {
      PutOutside(kind, raw, c, v, i);
    }
  }

  lemma {:induction false} SameValue(raw: seq<Byte>, other: seq<Byte>, at: nat, n: nat)
    requires at + n <= 2 * |raw| && |other| == |raw|
    requires forall i: nat | at <= i < at + n :: Nibble(other, i) == Nibble(raw, i)
    ensures Value(other, at, n) == Value(raw, at, n)
    decreases n
  {
    hide Nibble;
    if n > 0 { SameValue(raw, other, at + 1, n - 1); }
  }

  /** Writing one entry updates the decoded table at that entry and nowhere else. */
  lemma PutUpdatesOne(kind: Kind, raw: seq<Byte>, c: nat, v: nat, e: nat)
    requires c < EntryCount(kind, |raw|) && e < EntryCount(kind, |raw|)
    ensures Decode(kind, Put(kind, raw, c, v), e) == if e == c then v % Range(kind) else Decode(kind, raw, e)
  {
    hide Nibble, Value, Put, Decode, Pow16;
    var after := Put(kind, raw, c, v);
    DecodeReadsOwn(kind, raw, e);
    DecodeReadsOwn(kind, after, e);
    var at := Width(kind) * e;
    if e == c {
      forall j: nat | j < Digits(kind) ensures Nibble(after, at + j) == Digit(v, j) {
        PutChangesOwn(kind, raw, c, v, at + j);
      }
      Spells(after, at, Digits(kind), v);
      Powers();
    } else {
      forall i: nat | at <= i < at + Digits(kind) ensures Nibble(after, i) == Nibble(raw, i) {
        PutChangesOwn(kind, raw, c, v, i);
      }
      SameValue(raw, after, at, Digits(kind));
    }
  }
}
