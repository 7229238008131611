/** NTFS mapping pairs: the engine's encoder and decoder and the analyser's decoder. */
module NtfsRunlist {
  import opened Basics

  /** A run of clusters; sparse runs have no location. */
  datatype Run = Run(lcn: nat, length: nat) | Sparse(length: nat)

  // ---- Little-endian integers ------------------------------------------------------------

  function Pow256(n: nat): (p: nat)
    ensures p >= 1
  {
    if n == 0 then 1 else 256 * Pow256(n - 1)
  }

  function ToBytes(v: nat, size: nat): (b: seq<Byte>)
    ensures |b| == size
  {
    if size == 0 then [] else [v % 256] + ToBytes(v / 256, size - 1)
  }

  function FromBytes(b: seq<Byte>): (v: nat)
    ensures v < Pow256(|b|)
  {
    if b == [] then 0 else b[0] + 256 * FromBytes(b[1..])
  }

  lemma {:induction false} BytesRoundTrip(v: nat, size: nat)
    requires v < Pow256(size)
    ensures FromBytes(ToBytes(v, size)) == v
  {
    if size > 0 {
      BytesRoundTrip(v / 256, size - 1);
      assert ToBytes(v, size)[1..] == ToBytes(v / 256, size - 1);
    }
  }

  /** The top byte tells whether the value reaches half the range. */
  lemma {:induction false} TopByte(b: seq<Byte>)
    requires b != []
    ensures b[|b| - 1] >= 128 <==> FromBytes(b) >= 128 * Pow256(|b| - 1)
  {
    if |b| > 1 {
      TopByte(b[1..]);
      assert b[1..][|b| - 2] == b[|b| - 1];
    }
  }

  /** Two's complement, as int.from_bytes(..., signed=True). */
  function Signed(b: seq<Byte>): int {
    if b != [] && b[|b| - 1] >= 128 then FromBytes(b) - Pow256(|b|) else FromBytes(b)
  }

  predicate FitsSigned(v: int, size: nat)
    requires size >= 1
  {
    -128 * Pow256(size - 1) <= v < 128 * Pow256(size - 1)
  }

  function SignedBytes(v: int, size: nat): (b: seq<Byte>)
    requires size >= 1 && FitsSigned(v, size)
  {
    ToBytes(if v < 0 then v + Pow256(size) else v, size)
  }

  lemma SignedRoundTrip(v: int, size: nat)
    requires size >= 1 && FitsSigned(v, size)
    ensures Signed(SignedBytes(v, size)) == v && |SignedBytes(v, size)| == size
  {
    var u := if v < 0 then v + Pow256(size) else v;
    assert Pow256(size) == 256 * Pow256(size - 1);
    BytesRoundTrip(u, size);
    TopByte(ToBytes(u, size));
  }

  // ---- Field encodings ----------------------------------------------------------------------

  /** The least size from `size` to 8 that holds `v`, or 9. */
  function SignedSize(v: int, size: nat): (s: nat)
    requires 1 <= size <= 9
    ensures size <= s <= 9 && (s <= 8 ==> FitsSigned(v, s))
    ensures forall t | size <= t < s :: !FitsSigned(v, t)
    decreases 9 - size
  {
    if size == 9 then 9 else if FitsSigned(v, size) then size else SignedSize(v, size + 1)
  }

  /** _signed_min_bytes. */
  method SignedMinBytes(v: int) returns (r: Result<seq<Byte>>)
    ensures r == SignedMin(v)
  {
    for size := 1 to 9
      invariant SignedSize(v, 1) == SignedSize(v, size)
    {
      if FitsSigned(v, size) { return Ok(SignedBytes(v, size)); }
    }
    r := Error;
  }

  function SignedMin(v: int): (r: Result<seq<Byte>>) {
    var s := SignedSize(v, 1);
    if s <= 8 then Ok(SignedBytes(v, s)) else Error
  }

  /** Bytes needed for the magnitude alone. */
  function ByteLength(v: nat): (s: nat)
    ensures v < Pow256(s) && (v > 0 ==> s >= 1 && v >= Pow256(s - 1))
  {
    if v == 0 then 0 else 1 + ByteLength(v / 256)
  }

  /** _unsigned_min_bytes: magnitude bytes, with a zero byte added when the top bit is set. */
  function UnsignedMin(v: int): (r: Result<seq<Byte>>) {
    if v <= 0 then Error
    else
      var b := ToBytes(v, ByteLength(v));
      var e := if b[|b| - 1] >= 128 then b + [0] else b;
      if |e| > 8 then Error else Ok(e)
  }

  lemma {:induction false} AppendZero(b: seq<Byte>)
    ensures FromBytes(b + [0]) == FromBytes(b)
  {
    if b != [] {
      AppendZero(b[1..]);
      assert (b + [0])[1..] == b[1..] + [0];
    }
  }

  const MAX_LENGTH: nat := 128 * Pow256(7)

  lemma {:induction false} Pow256Monotone(a: nat, b: nat)
    requires a <= b
    ensures Pow256(a) <= Pow256(b)
  {
    if a < b { Pow256Monotone(a, b - 1); }
  }

  /** Lengths are encoded exactly when they are positive and fit a signed 64-bit value. */
  lemma UnsignedMinExact(v: int)
    ensures UnsignedMin(v).Ok? <==> 1 <= v < MAX_LENGTH
    ensures UnsignedMin(v).Ok? ==> 1 <= |UnsignedMin(v).value| <= 8 && Signed(UnsignedMin(v).value) == v
  {
    if v >= 1 {
      var n := ByteLength(v);
      var b := ToBytes(v, n);
      BytesRoundTrip(v, n);
      TopByte(b);
      AppendZero(b);
      LengthBound(v, n);
      hide ToBytes, FromBytes, Pow256, ByteLength;
    }
  }

  /** A value of `n` magnitude bytes fits eight signed bytes as its top bit allows. */
  lemma LengthBound(v: nat, n: nat)
    requires n >= 1 && Pow256(n - 1) <= v < Pow256(n)
    ensures v < 128 * Pow256(n - 1) ==> (n <= 8 <==> v < MAX_LENGTH)
    ensures v >= 128 * Pow256(n - 1) ==> (n <= 7 <==> v < MAX_LENGTH)
  {
    if n <= 7 { Pow256Monotone(n, 7); }
    if n >= 9 { Pow256Monotone(8, n - 1); }
  }

  lemma SignedMinExact(v: int)
    ensures SignedMin(v).Ok? <==> FitsSigned(v, 8)
    ensures SignedMin(v).Ok? ==> 1 <= |SignedMin(v).value| <= 8 && Signed(SignedMin(v).value) == v
  {
    var s := SignedSize(v, 1);
    if s <= 8 {
      SignedRoundTrip(v, s);
      Pow256Monotone(s - 1, 7);
    } else {
      assert 1 <= 8 < s;
    }
  }

  function Prepend<T>(front: seq<T>, r: Result<seq<T>>): Result<seq<T>> {
    match r case Error => Error case Ok(rest) => Ok(front + rest)
  }

  lemma PrependNothing<T>(r: Result<seq<T>>)
    ensures Prepend([], r) == r
  {
    if r.Ok? { assert [] + r.value == r.value; }
  }

  lemma PrependTwice<T>(a: seq<T>, b: seq<T>, r: Result<seq<T>>)
    ensures Prepend(a, Prepend(b, r)) == Prepend(a + b, r)
  {
    if r.Ok? { assert a + (b + r.value) == (a + b) + r.value; }
  }

  // ---- Runlists ---------------------------------------------------------------------------------

  function EncodePair(run: Run, previous: nat): (r: Result<seq<Byte>>) {
    match UnsignedMin(run.length)
    case Error => Error
    case Ok(length) =>
      if run.Sparse? then Ok([|length| % 256] + length)
      else
        match SignedMin(run.lcn - previous)
        case Error => Error
        case Ok(delta) => Ok([(|delta| * 16 + |length|) % 256] + length + delta)
  }

  function Advance(run: Run, previous: nat): nat {
    if run.Sparse? then previous else run.lcn
  }

  function EncodeFrom(runs: seq<Run>, previous: nat): (r: Result<seq<Byte>>) {
    if runs == [] then Ok([0])
    else
      match EncodePair(runs[0], previous)
      case Error => Error
      case Ok(pair) => Prepend(pair, EncodeFrom(runs[1..], Advance(runs[0], previous)))
  }

  function Encode(runs: seq<Run>): Result<seq<Byte>> {
    EncodeFrom(runs, 0)
  }

  /** One pair at the start of `data`: the run, and the bytes it takes. */
  function DecodePair(data: seq<Byte>, previous: nat): (r: Result<(Run, nat)>)
    requires data != [] && data[0] != 0
    ensures r.Ok? ==> 1 <= r.value.1 <= |data|
  {
    var lengthSize, offsetSize := data[0] % 16, data[0] / 16;
    if lengthSize == 0 || lengthSize > 8 || offsetSize > 8 || 1 + lengthSize + offsetSize > |data| then Error
    else
      var length := Signed(data[1..1 + lengthSize]);
      if length <= 0 then Error
      else if offsetSize == 0 then Ok((Sparse(length), 1 + lengthSize))
      else
        var lcn := previous + Signed(data[1 + lengthSize..1 + lengthSize + offsetSize]);
        if lcn < 0 then Error else Ok((Run(lcn, length), 1 + lengthSize + offsetSize))
  }

  function DecodeFrom(data: seq<Byte>, previous: nat): (r: Result<seq<Run>>) {
    if data == [] then Error
    else if data[0] == 0 then Ok([])
    else
      match DecodePair(data, previous)
      case Error => Error
      case Ok((run, size)) => Prepend([run], DecodeFrom(data[size..], Advance(run, previous)))
  }

  function Decode(data: seq<Byte>): Result<seq<Run>> {
    DecodeFrom(data, 0)
  }

  /** _encode_runlist. */
  method EncodeRunlist(runs: seq<Run>) returns (r: Result<seq<Byte>>)
    ensures r == Encode(runs)
  {
    hide EncodePair;
    var previous: nat, output: seq<Byte> := 0, [];
    assert runs[0..] == runs;
    PrependNothing(EncodeFrom(runs, 0));
    for i := 0 to |runs|
      invariant Encode(runs) == Prepend(output, EncodeFrom(runs[i..], previous))
    {
      assert runs[i..][0] == runs[i] && runs[i..][1..] == runs[i + 1..];
      var pair := EncodePair(runs[i], previous);
      if pair.Error? { return Error; }
      PrependTwice(output, pair.value, EncodeFrom(runs[i + 1..], Advance(runs[i], previous)));
      output, previous := output + pair.value, Advance(runs[i], previous);
    }
    r := Ok(output + [0]);
  }

  /** _decode_runlist. */
  method DecodeRunlist(data: seq<Byte>) returns (r: Result<seq<Run>>)
    ensures r == Decode(data)
  {
    hide DecodePair;
    var pos: nat, previous: nat, result: seq<Run> := 0, 0, [];
    assert data[0..] == data;
    PrependNothing(DecodeFrom(data, 0));
    while pos < |data|
      invariant pos <= |data|
      invariant Decode(data) == Prepend(result, DecodeFrom(data[pos..], previous))
      decreases |data| - pos
    {
      if data[pos] == 0 {
        assert result + [] == result;
        return Ok(result);
      }
      var pair := DecodePair(data[pos..], previous);
      if pair.Error? { return Error; }
      var run, size := pair.value.0, pair.value.1;
      assert data[pos..][size..] == data[pos + size..];
      PrependTwice(result, [run], DecodeFrom(data[pos + size..], Advance(run, previous)));
      result, previous, pos := result + [run], Advance(run, previous), pos + size;
    }
    r := Error;
  }

  // ---- Round trip -------------------------------------------------------------------------------

  lemma Header(delta: nat, length: nat)
    requires 1 <= length <= 8 && delta <= 8
    ensures var header := (delta * 16 + length) % 256; header != 0 && header % 16 == length && header / 16 == delta
  {
  }

  lemma PairRoundTrip(run: Run, previous: nat, rest: seq<Byte>)
    requires EncodePair(run, previous).Ok?
    ensures var pair := EncodePair(run, previous).value;
            && pair != [] && pair[0] != 0
            && DecodePair(pair + rest, previous) == Ok((run, |pair|))
  {
    hide UnsignedMin, SignedMin, Signed;
    UnsignedMinExact(run.length);
    var length := UnsignedMin(run.length).value;
    var pair := EncodePair(run, previous).value;
    var data := pair + rest;
    if run.Sparse? {
      Header(0, |length|);
      assert data[1..1 + |length|] == length;
    } else {
      SignedMinExact(run.lcn - previous);
      var delta := SignedMin(run.lcn - previous).value;
      Header(|delta|, |length|);
      assert data[0] % 16 == |length| && data[0] / 16 == |delta|;
      assert data[1..1 + |length|] == length;
      assert data[1 + |length|..1 + |length| + |delta|] == delta;
    }
  }

  lemma {:induction false} RoundTripFrom(runs: seq<Run>, previous: nat, padding: seq<Byte>)
    requires EncodeFrom(runs, previous).Ok?
    ensures DecodeFrom(EncodeFrom(runs, previous).value + padding, previous) == Ok(runs)
  {
    hide EncodePair, DecodePair;
    if runs == [] {
      assert ([0] + padding)[0] == 0;
    } else {
      var pair := EncodePair(runs[0], previous).value;
      var next := Advance(runs[0], previous);
      var rest := EncodeFrom(runs[1..], next).value;
      RoundTripFrom(runs[1..], next, padding);
      PairRoundTrip(runs[0], previous, rest + padding);
      var data := EncodeFrom(runs, previous).value + padding;
      assert data == pair + (rest + padding);
      assert data[|pair|..] == rest + padding;
      assert [runs[0]] + runs[1..] == runs;
    }
  }

  /** Decoding an encoded runlist, whatever padding follows, gives the runs back. */
  lemma RunlistRoundTrip(runs: seq<Run>, padding: seq<Byte>)
    requires Encode(runs).Ok?
    ensures Decode(Encode(runs).value + padding) == Ok(runs)
  {
    RoundTripFrom(runs, 0, padding);
  }

  /** Encodable runlists: positive signed 64-bit lengths and distances. */
  ghost predicate Encodable(runs: seq<Run>, previous: nat) {
    runs != [] ==>
      && 1 <= runs[0].length < MAX_LENGTH
      && (runs[0].Run? ==> FitsSigned(runs[0].lcn - previous, 8))
      && Encodable(runs[1..], Advance(runs[0], previous))
  }

  lemma {:induction false} EncodeExact(runs: seq<Run>, previous: nat)
    ensures EncodeFrom(runs, previous).Ok? <==> Encodable(runs, previous)
  {
    if runs != [] {
      UnsignedMinExact(runs[0].length);
      if runs[0].Run? { SignedMinExact(runs[0].lcn - previous); }
      EncodeExact(runs[1..], Advance(runs[0], previous));
    }
  }

  // ---- The analyser's decoder -----------------------------------------------------------------------

  /** One pair as the analyser reads it: unsigned lengths, any field size. */
  function AnalysePair(data: seq<Byte>, lcn: nat): (r: Result<(Run, nat)>)
    requires data != [] && data[0] != 0
    ensures r.Ok? ==> 1 <= r.value.1 <= |data|
  {
    var lengthSize, offsetSize := data[0] % 16, data[0] / 16;
    if lengthSize == 0 || 1 + lengthSize + offsetSize > |data| then Error
    else
      var length := FromBytes(data[1..1 + lengthSize]);
      if length == 0 then Error
      else if offsetSize == 0 then Ok((Sparse(length), 1 + lengthSize))
      else
        var next := lcn + Signed(data[1 + lengthSize..1 + lengthSize + offsetSize]);
        if next < 0 then Error else Ok((Run(next, length), 1 + lengthSize + offsetSize))
  }

  function AnalyseFrom(data: seq<Byte>, lcn: nat): (r: Result<seq<Run>>) {
    if data == [] || data[0] == 0 then Ok([])
    else
      match AnalysePair(data, lcn)
      case Error => Error
      case Ok((run, size)) => Prepend([run], AnalyseFrom(data[size..], Advance(run, lcn)))
  }

  /** _runlist of the analyser, collected into a list. */
  method AnalyseRunlist(data: seq<Byte>) returns (r: Result<seq<Run>>)
    ensures r == AnalyseFrom(data, 0)
  {
    hide AnalysePair;
    var pos: nat, lcn: nat, result: seq<Run> := 0, 0, [];
    assert data[0..] == data;
    PrependNothing(AnalyseFrom(data, 0));
    while pos < |data|
      invariant pos <= |data|
      invariant AnalyseFrom(data, 0) == Prepend(result, AnalyseFrom(data[pos..], lcn))
      decreases |data| - pos
    {
      if data[pos] == 0 {
        assert result + [] == result;
        return Ok(result);
      }
      var pair := AnalysePair(data[pos..], lcn);
      if pair.Error? { return Error; }
      var run, size := pair.value.0, pair.value.1;
      assert data[pos..][size..] == data[pos + size..];
      PrependTwice(result, [run], AnalyseFrom(data[pos + size..], Advance(run, lcn)));
      result, lcn, pos := result + [run], Advance(run, lcn), pos + size;
    }
    assert result + [] == result;
    r := Ok(result);
  }

  lemma {:induction false} AnalyserAgreesFrom(data: seq<Byte>, previous: nat)
    requires DecodeFrom(data, previous).Ok?
    ensures AnalyseFrom(data, previous) == DecodeFrom(data, previous)
  {
    if data[0] != 0 {
      var pair := DecodePair(data, previous).value;
      assert AnalysePair(data, previous) == Ok(pair);
      AnalyserAgreesFrom(data[pair.1..], Advance(pair.0, previous));
    }
  }

  /** Whatever the engine decodes, the analyser decodes to the same runs. */
  lemma AnalyserAgrees(data: seq<Byte>)
    requires Decode(data).Ok?
    ensures AnalyseFrom(data, 0) == Decode(data)
  {
    AnalyserAgreesFrom(data, 0);
  }

  lemma AnalyserReadsEncodings(runs: seq<Run>, padding: seq<Byte>)
    requires Encode(runs).Ok?
    ensures AnalyseFrom(Encode(runs).value + padding, 0) == Ok(runs)
  {
    RunlistRoundTrip(runs, padding);
    AnalyserAgrees(Encode(runs).value + padding);
  }

  /** The converse fails: a length with its top bit set, and a missing terminator. */
  lemma AnalyserIsLaxer()
    ensures Decode([0x11, 0x80, 0x01, 0]).Error? && AnalyseFrom([0x11, 0x80, 0x01, 0], 0) == Ok([Run(1, 128)])
    ensures Decode([0x11, 0x01, 0x01]).Error? && AnalyseFrom([0x11, 0x01, 0x01], 0) == Ok([Run(1, 1)])
  {
    OneByte(0x80);
    OneByte(0x01);
    var a: seq<Byte> := [0x11, 0x80, 0x01, 0];
    assert a[1..2] == [0x80] && a[2..3] == [0x01] && a[3..] == [0];
    assert AnalyseFrom(a[3..], 1) == Ok([]);
    assert AnalysePair(a, 0) == Ok((Run(1, 128), 3));
    assert [Run(1, 128)] + [] == [Run(1, 128)] && [Run(1, 1)] + [] == [Run(1, 1)];
    var b: seq<Byte> := [0x11, 0x01, 0x01];
    assert b[1..2] == [0x01] && b[2..3] == [0x01] && b[3..] == [];
    assert DecodePair(b, 0) == Ok((Run(1, 1), 3)) && AnalysePair(b, 0) == Ok((Run(1, 1), 3));
    assert DecodeFrom(b[3..], 1).Error? && AnalyseFrom(b[3..], 1) == Ok([]);
  }

  lemma OneByte(x: Byte)
    ensures FromBytes([x]) == x && Signed([x]) == if x >= 128 then x - 256 else x
  {
    assert [x][1..] == [] && Pow256(1) == 256;
  }

  // ---- Size of a single run ----------------------------------------------------------------------------

  /** A run placed lower never needs a longer mapping. */
  lemma LowerIsShorter(a: nat, b: nat, length: nat)
    requires a <= b && Encode([Run(b, length)]).Ok?
    ensures Encode([Run(a, length)]).Ok? && |Encode([Run(a, length)]).value| <= |Encode([Run(b, length)]).value|
  {
    SignedMinExact(a);
    SignedMinExact(b);
    var s := SignedSize(b, 1);
    assert FitsSigned(a, s);
    assert SignedSize(a, 1) <= s;
    SingleRun(a, length);
    SingleRun(b, length);
  }

  lemma SingleRun(lcn: nat, length: nat)
    ensures Encode([Run(lcn, length)]) ==
      match EncodePair(Run(lcn, length), 0) case Error => Error case Ok(pair) => Ok(pair + [0])
  {
    assert [Run(lcn, length)][1..] == [];
    assert EncodeFrom([], lcn) == Ok([0]);
  }
}
