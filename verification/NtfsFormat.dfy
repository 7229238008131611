/** The layout of attribute records, field by field, and that the parser reads exactly this layout. */
module NtfsFormat {
  import opened Basics
  import opened NtfsRunlist
  import opened NtfsFixups
  import opened NtfsRecord

  // ---- Fields -----------------------------------------------------------------------------------

  function ByteAt(b: seq<Byte>, i: nat): nat
    requires i < |b|
  {
    b[i]
  }

  /** Two little-endian bytes. */
  ghost predicate Word(b: seq<Byte>, off: nat, value: nat) {
    off + 2 <= |b| && value == ByteAt(b, off) + 0x100 * ByteAt(b, off + 1)
  }

  /** Four little-endian bytes. */
  ghost predicate Long(b: seq<Byte>, off: nat, value: nat) {
    && off + 4 <= |b|
    && value == ByteAt(b, off) + 0x100 * ByteAt(b, off + 1) + 0x1_0000 * ByteAt(b, off + 2) +
                0x100_0000 * ByteAt(b, off + 3)
  }

  /** Eight little-endian bytes. */
  ghost predicate Quad(b: seq<Byte>, off: nat, value: nat) {
    && off + 8 <= |b|
    && value == ByteAt(b, off) + 0x100 * ByteAt(b, off + 1) + 0x1_0000 * ByteAt(b, off + 2) +
                0x100_0000 * ByteAt(b, off + 3) + 0x1_0000_0000 * ByteAt(b, off + 4) +
                0x100_0000_0000 * ByteAt(b, off + 5) + 0x1_0000_0000_0000 * ByteAt(b, off + 6) +
                0x100_0000_0000_0000 * ByteAt(b, off + 7)
  }

  lemma WordIs(b: seq<Byte>, off: nat, value: nat)
    requires off + 2 <= |b|
    ensures Word(b, off, value) <==> U16(b, off) == value
  {
  }

  lemma LongIs(b: seq<Byte>, off: nat, value: nat)
    requires off + 4 <= |b|
    ensures Long(b, off, value) <==> U32(b, off) == value
  {
  }

  lemma QuadIs(b: seq<Byte>, off: nat, value: nat)
    requires off + 8 <= |b|
    ensures Quad(b, off, value) <==> U64(b, off) == value
  {
  }

  // ---- One attribute ----------------------------------------------------------------------------

  /** The name: its length in 16-bit units at byte 9, its offset at byte 10. */
  ghost predicate NameLaid(b: seq<Byte>, name: seq<Byte>) {
    && 12 <= |b| && |name| == 2 * ByteAt(b, 9)
    && (name != [] ==> exists off: nat ::
          Word(b, 10, off) && 16 <= off && off + |name| <= |b| && b[off..off + |name|] == name)
  }

  /** The bytes of one attribute: type, non-resident flag, name, flags; then for a non-resident one its range of virtual
      clusters, the mapping pairs, and the three sizes. */
  ghost predicate Laid(b: seq<Byte>, a: Attribute) {
    && |b| == a.length >= 24
    && Long(b, 0, a.atype) && (b[8] != 0 <==> a.nonresident) && NameLaid(b, a.name) && Word(b, 12, a.flags)
    && if a.nonresident then
         && |b| >= 64 && Quad(b, 16, a.lowestVcn) && Quad(b, 24, a.highestVcn) && Word(b, 32, a.runOffset)
         && Quad(b, 40, a.allocatedSize) && Quad(b, 48, a.dataSize) && Quad(b, 56, a.initializedSize)
         && 64 <= a.runOffset < |b| && Decode(b[a.runOffset..]) == Ok(a.runs)
         && a.highestVcn + 1 == a.lowestVcn + SumLengths(a.runs)
       else
         && a.lowestVcn == 0 && a.highestVcn == 0 && a.runOffset == 0 && a.runs == []
         && a.allocatedSize == 0 && a.dataSize == 0 && a.initializedSize == 0
  }

  lemma NameIs(b: seq<Byte>, name: seq<Byte>)
    requires |b| >= 24
    ensures var length: nat, offset := b[9], U16(b, 10);
            NameLaid(b, name) <==>
            !(length > 0 && (offset < 16 || offset + 2 * length > |b|)) &&
            name == if length > 0 then b[offset..offset + 2 * length] else []
  {
    hide Word, U16;
    var length: nat, offset := b[9], U16(b, 10);
    forall off: nat ensures Word(b, 10, off) <==> offset == off { WordIs(b, 10, off); }
    if length > 0 && 16 <= offset && offset + 2 * length <= |b| && name == b[offset..offset + 2 * length] {
      assert Word(b, 10, offset) && b[offset..offset + |name|] == name;
    }
  }

  /** The parser reads an attribute exactly from the bytes laid out for it. */
  lemma ParsesExactly(b: seq<Byte>, offset: nat, a: Attribute)
    requires |b| >= 24
    ensures ParseAttribute(b, offset) == Ok(a) <==> a.offset == offset && Laid(b, a)
  {
    NameIs(b, a.name);
    hide NameLaid, Decode, Word, Long, Quad, U16, U32, U64, SumLengths;
    LongIs(b, 0, a.atype);
    WordIs(b, 12, a.flags);
    if a.nonresident && |b| >= 64 {
      QuadIs(b, 16, a.lowestVcn);
      QuadIs(b, 24, a.highestVcn);
      WordIs(b, 32, a.runOffset);
      QuadIs(b, 40, a.allocatedSize);
      QuadIs(b, 48, a.dataSize);
      QuadIs(b, 56, a.initializedSize);
    }
  }

  // ---- Attribute lists --------------------------------------------------------------------------

  /** Attributes one after the other, each with its length at byte 4, up to an end mark or too few bytes for another. */
  ghost predicate ListLaid(body: seq<Byte>, offset: nat, attrs: seq<Attribute>)
    decreases |attrs|
  {
    if attrs == [] then |body| < 16 || Long(body, 0, 0xFFFF_FFFF)
    else
      var n := attrs[0].length;
      && 16 <= |body| && !Long(body, 0, 0xFFFF_FFFF) && Long(body, 4, n) && 24 <= n <= |body|
      && attrs[0].offset == offset && Laid(body[..n], attrs[0]) && ListLaid(body[n..], offset + n, attrs[1..])
  }

  lemma PrependIs(a: Attribute, r: Result<seq<Attribute>>, attrs: seq<Attribute>)
    ensures Prepend([a], r) == Ok(attrs) <==> attrs != [] && a == attrs[0] && r == Ok(attrs[1..])
  {
    if r.Ok? {
      var whole := [a] + r.value;
      assert whole[1..] == r.value;
      if attrs != [] { assert [attrs[0]] + attrs[1..] == attrs; }
    }
  }

  /** The parser reads a list exactly from the bytes laid out for it. */
  lemma {:induction false} ListParsesExactly(body: seq<Byte>, offset: nat, attrs: seq<Attribute>)
    ensures ParseBody(body, offset) == Ok(attrs) <==> ListLaid(body, offset, attrs)
    decreases |body|
  {
    hide Laid, Long, U32, ParseAttribute, Prepend;
    if |body| >= 16 {
      LongIs(body, 0, 0xFFFF_FFFF);
      var n := U32(body, 4);
      if attrs != [] { LongIs(body, 4, attrs[0].length); }
      if U32(body, 0) != 0xFFFF_FFFF && 24 <= n <= |body| {
        var attr := ParseAttribute(body[..n], offset);
        if attr.Ok? { PrependIs(attr.value, ParseBody(body[n..], offset + n), attrs); }
        if attrs != [] {
          ParsesExactly(body[..n], offset, attrs[0]);
          ListParsesExactly(body[n..], offset + n, attrs[1..]);
        }
      }
    }
  }

  /** The record header: the offset of the first attribute at byte 20, the bytes in use at byte 24. */
  ghost predicate RecordLaid(rec: Record, attrs: seq<Attribute>) {
    exists first: nat, used: nat ::
      && Word(rec, 20, first) && Long(rec, 24, used)
      && var end := if used < |rec| then used else |rec|;
         if first <= end then ListLaid(rec[first..end], first, attrs) else attrs == []
  }

  lemma RecordParsesExactly(rec: Record, attrs: seq<Attribute>)
    requires |rec| >= 32
    ensures Attributes(rec) == Ok(attrs) <==> RecordLaid(rec, attrs)
  {
    hide Word, Long, U32, U16, ParseBody, ListLaid;
    var first, used := U16(rec, 20), U32(rec, 24);
    forall f: nat ensures Word(rec, 20, f) <==> f == first { WordIs(rec, 20, f); }
    forall u: nat ensures Long(rec, 24, u) <==> u == used { LongIs(rec, 24, u); }
    assert Word(rec, 20, first) && Long(rec, 24, used);
    var end := if used < |rec| then used else |rec|;
    if first <= end { ListParsesExactly(rec[first..end], first, attrs); }
  }

  // ---- Assembly ---------------------------------------------------------------------------------

  function Joined(pieces: seq<seq<Byte>>): seq<Byte> {
    if pieces == [] then [] else pieces[0] + Joined(pieces[1..])
  }

  /** Attribute bytes with their length field, for attributes that follow each other from `offset` on. */
  ghost predicate PiecesLaid(pieces: seq<seq<Byte>>, offset: nat, attrs: seq<Attribute>)
    decreases |attrs|
  {
    && |pieces| == |attrs|
    && (attrs != [] ==>
          && attrs[0].offset == offset && attrs[0].atype != 0xFFFF_FFFF && Laid(pieces[0], attrs[0])
          && Long(pieces[0], 4, attrs[0].length) && PiecesLaid(pieces[1..], offset + attrs[0].length, attrs[1..]))
  }

  lemma SameField(b: seq<Byte>, rest: seq<Byte>, off: nat, value: nat)
    requires off + 4 <= |b|
    ensures Long(b + rest, off, value) <==> Long(b, off, value)
  {
  }

  lemma {:induction false} JoinedLaid(pieces: seq<seq<Byte>>, end: seq<Byte>, offset: nat, attrs: seq<Attribute>)
    requires PiecesLaid(pieces, offset, attrs) && (|end| < 16 || Long(end, 0, 0xFFFF_FFFF))
    ensures ListLaid(Joined(pieces) + end, offset, attrs)
    decreases |attrs|
  {
    hide Long;
    if attrs == [] {
      assert Joined(pieces) + end == end;
    } else {
      var p, n := pieces[0], attrs[0].length;
      var rest := Joined(pieces[1..]) + end;
      assert Joined(pieces) + end == p + rest;
      assert |p| == n >= 24 && Long(p, 0, attrs[0].atype);
      hide Laid;
      SameField(p, rest, 0, 0xFFFF_FFFF);
      OneValue(p, attrs[0].atype);
      SameField(p, rest, 4, n);
      assert (p + rest)[..n] == p && (p + rest)[n..] == rest;
      JoinedLaid(pieces[1..], end, offset + n, attrs[1..]);
    }
  }

  lemma OneValue(b: seq<Byte>, value: nat)
    requires Long(b, 0, value)
    ensures Long(b, 0, 0xFFFF_FFFF) ==> value == 0xFFFF_FFFF
  {
  }

  /** A record assembled from a header, the attributes one after the other and an end reads back as the attributes. */
  lemma AssembledReadsBack(header: seq<Byte>, pieces: seq<seq<Byte>>, end: seq<Byte>, attrs: seq<Attribute>)
    requires |header| >= 32 && Word(header, 20, |header|) && Long(header, 24, |header + Joined(pieces) + end|)
    requires PiecesLaid(pieces, |header|, attrs) && (|end| < 16 || Long(end, 0, 0xFFFF_FFFF))
    ensures Attributes(header + Joined(pieces) + end) == Ok(attrs)
  {
    hide PiecesLaid, ListLaid, Attributes, Long, Word, Joined;
    var body := Joined(pieces) + end;
    var rec := header + Joined(pieces) + end;
    assert rec == header + body;
    JoinedLaid(pieces, end, |header|, attrs);
    SameField(header, body, 24, |rec|);
    SameWord(header, body, 20, |header|);
    assert rec[|header|..|rec|] == body;
    RecordParsesExactly(rec, attrs);
    assert Word(rec, 20, |header|) && Long(rec, 24, |rec|);
  }

  lemma SameWord(b: seq<Byte>, rest: seq<Byte>, off: nat, value: nat)
    requires off + 2 <= |b|
    ensures Word(b + rest, off, value) <==> Word(b, off, value)
  {
  }

  /** One run of 24 clusters at cluster 0x5634: the sizes in the first byte, then length and place, least byte first. */
  lemma MappingExample()
    ensures Decode([0x21, 0x18, 0x34, 0x56, 0]) == Ok([Run(0x5634, 0x18)])
  {
    var data: seq<Byte> := [0x21, 0x18, 0x34, 0x56, 0];
    OneByte(0x18);
    OneByte(0x56);
    assert data[1..2] == [0x18] && data[2..4] == [0x34, 0x56] && data[4..] == [0];
    assert [0x34, 0x56][1..] == [0x56];
    assert FromBytes([0x34, 0x56]) == 0x5634;
    assert DecodePair(data, 0) == Ok((Run(0x5634, 0x18), 4));
    assert DecodeFrom(data[4..], 0x5634) == Ok([]);
    assert [Run(0x5634, 0x18)] + [] == [Run(0x5634, 0x18)];
  }
}
