/** A stream moved down as one run needs no more mapping bytes than it had. */
module NtfsMapping {
  import opened Basics
  import opened NtfsRunlist
  import opened NtfsRecord

  /** The values that `size` signed bytes hold, from zero up. */
  ghost predicate Below(v: int, size: nat) { size >= 1 && v < 128 * Pow256(size - 1) }

  lemma SignedBelow(b: seq<Byte>)
    requires b != []
    ensures Below(Signed(b), |b|)
  {
    TopByte(b);
    assert Pow256(|b|) == 256 * Pow256(|b| - 1);
  }

  /** Two lengths together fit the bytes of both. */
  lemma SumBelow(a: nat, m: nat, b: nat, n: nat)
    requires Below(a, m) && Below(b, n)
    ensures Below(a + b, m + n)
  {
    Pow256Monotone(m - 1, m + n - 2);
    Pow256Monotone(n - 1, m + n - 2);
    assert Pow256(m + n - 1) == 256 * Pow256(m + n - 2);
  }

  lemma {:induction false} SumFront(runs: seq<Run>)
    requires runs != []
    ensures SumLengths(runs) == runs[0].length + SumLengths(runs[1..])
  {
    var n: nat := |runs| - 1;
    if n > 0 {
      SumFront(runs[..n]);
      assert runs[..n][1..] == runs[1..][..n - 1] && runs[1..][n - 1] == runs[n];
    } else {
      assert runs[1..] == [] && runs[..0] == [];
    }
  }

  /** What one stored pair says about its size. */
  lemma PairRoom(data: seq<Byte>, previous: nat) returns (lengthSize: nat, offsetSize: nat)
    requires data != [] && data[0] != 0 && DecodePair(data, previous).Ok? && DecodePair(data, previous).value.0.Run?
    ensures var run, size := DecodePair(data, previous).value.0, DecodePair(data, previous).value.1;
            && size == 1 + lengthSize + offsetSize && 1 <= offsetSize <= 8
            && Below(run.length, lengthSize) && Below(run.lcn - previous, offsetSize)
  {
    lengthSize, offsetSize := data[0] % 16, data[0] / 16;
    SignedBelow(data[1..1 + lengthSize]);
    SignedBelow(data[1 + lengthSize..1 + lengthSize + offsetSize]);
  }

  lemma DecodeStep(data: seq<Byte>, previous: nat, runs: seq<Run>)
    requires DecodeFrom(data, previous) == Ok(runs) && runs != []
    ensures data != [] && data[0] != 0 && DecodePair(data, previous).Ok?
    ensures var pair := DecodePair(data, previous).value;
            && pair.0 == runs[0] && pair.1 < |data|
            && DecodeFrom(data[pair.1..], Advance(pair.0, previous)) == Ok(runs[1..])
  {
    hide DecodePair;
    var pair := DecodePair(data, previous).value;
    var rest := DecodeFrom(data[pair.1..], Advance(pair.0, previous));
    assert runs == [pair.0] + rest.value;
    assert runs[1..] == rest.value;
  }

  /** A stored mapping has bytes for its total length, its first location, one header and the end mark. */
  lemma {:induction false} MappingRoom(data: seq<Byte>, previous: nat, runs: seq<Run>)
    returns (lengthSize: nat, offsetSize: nat)
    requires DecodeFrom(data, previous) == Ok(runs) && runs != [] && Physical(runs)
    ensures 2 + lengthSize + offsetSize <= |data| && 1 <= offsetSize <= 8
    ensures Below(SumLengths(runs), lengthSize) && Below(runs[0].lcn - previous, offsetSize)
    decreases |data|
  {
    DecodeStep(data, previous, runs);
    hide DecodeFrom, DecodePair, Below, SumLengths;
    var pair := DecodePair(data, previous).value;
    var rest := data[pair.1..];
    lengthSize, offsetSize := PairRoom(data, previous);
    SumFront(runs);
    if runs[1..] != [] {
      var more, first := MappingRoom(rest, Advance(pair.0, previous), runs[1..]);
      SumBelow(runs[0].length, lengthSize, SumLengths(runs[1..]), more);
      lengthSize := lengthSize + more;
    }
  }

  lemma LengthBytes(v: nat, size: nat)
    requires 1 <= v < MAX_LENGTH && Below(v, size)
    ensures UnsignedMin(v).Ok? && |UnsignedMin(v).value| <= size
  {
    UnsignedMinExact(v);
    var n := ByteLength(v);
    BytesRoundTrip(v, n);
    TopByte(ToBytes(v, n));
    if n > size { Pow256Monotone(size, n - 1); }
  }

  lemma OffsetBytes(v: nat, size: nat)
    requires Below(v, size) && size <= 8
    ensures SignedMin(v).Ok? && |SignedMin(v).value| <= size
  {
    assert FitsSigned(v, size);
    assert SignedSize(v, 1) <= size;
  }

  /** The same clusters as one run no higher than the first: the stored mapping has room for it. */
  lemma OneRunFits(data: seq<Byte>, runs: seq<Run>, g: nat)
    requires Decode(data) == Ok(runs) && runs != [] && Physical(runs) && g <= runs[0].lcn
    requires 1 <= SumLengths(runs) < MAX_LENGTH
    ensures Encode([Run(g, SumLengths(runs))]).Ok? && |Encode([Run(g, SumLengths(runs))]).value| <= |data|
  {
    var lengthSize, offsetSize := MappingRoom(data, 0, runs);
    LengthBytes(SumLengths(runs), lengthSize);
    OffsetBytes(g, offsetSize);
    hide UnsignedMin, SignedMin;
    SingleRun(g, SumLengths(runs));
  }
}
