/** MFT records: attribute lists and in-place replacement of a runlist. */
module NtfsRecord {
  import opened Basics
  import opened NtfsRunlist
  import opened NtfsFixups

  function U32(b: seq<Byte>, off: nat): nat
    requires off + 4 <= |b|
  {
    U16(b, off) + 65536 * U16(b, off + 2)
  }

  function U64(b: seq<Byte>, off: nat): nat
    requires off + 8 <= |b|
  {
    U32(b, off) + 0x1_0000_0000 * U32(b, off + 4)
  }

  // ---- Coalescing ---------------------------------------------------------------------------

  datatype Place = At(lcn: nat) | Hole

  /** Where each logical cluster of a runlist lies. */
  function Places(runs: seq<Run>): (p: seq<Place>)
    ensures |p| == SumLengths(runs)
  {
    if runs == [] then []
    else Places(runs[..|runs| - 1]) + PlacesOf(runs[|runs| - 1])
  }

  function PlacesOf(run: Run): (p: seq<Place>)
    ensures |p| == run.length
  {
    seq(run.length, k requires 0 <= k < run.length => if run.Sparse? then Hole else At(run.lcn + k))
  }

  function SumLengths(runs: seq<Run>): nat {
    if runs == [] then 0 else SumLengths(runs[..|runs| - 1]) + runs[|runs| - 1].length
  }

  predicate Joins(a: Run, b: Run) {
    (a.Run? && b.Run? && a.lcn + a.length == b.lcn) || (a.Sparse? && b.Sparse?)
  }

  function Join(a: Run, b: Run): Run {
    if a.Run? then Run(a.lcn, a.length + b.length) else Sparse(a.length + b.length)
  }

  ghost predicate Coalesced(runs: seq<Run>) {
    && (forall i | 0 <= i < |runs| :: runs[i].length > 0)
    && forall i | 0 <= i < |runs| - 1 :: Apart(runs[i], runs[i + 1])
  }

  /** Not both holes, and not one directly behind the other. */
  ghost predicate Apart(a: Run, b: Run) {
    !(a.Sparse? && b.Sparse?) && (a.Run? && b.Run? ==> b.lcn != a.lcn + a.length)
  }

  function Coalesce(runs: seq<Run>): (r: seq<Run>)
    ensures Coalesced(r) && Places(r) == Places(runs)
  {
    if runs == [] then []
    else
      var merged, run := Coalesce(runs[..|runs| - 1]), runs[|runs| - 1];
      CoalesceStep(merged, run);
      AddRun(merged, run)
  }

  function AddRun(merged: seq<Run>, run: Run): seq<Run> {
    if run.length == 0 then merged
    else if merged != [] && Joins(merged[|merged| - 1], run) then
      merged[..|merged| - 1] + [Join(merged[|merged| - 1], run)]
    else merged + [run]
  }

  lemma CoalesceStep(merged: seq<Run>, run: Run)
    requires Coalesced(merged)
    ensures Coalesced(AddRun(merged, run)) && Places(AddRun(merged, run)) == Places(merged) + PlacesOf(run)
  {
    if run.length == 0 {
      assert PlacesOf(run) == [];
    } else if merged != [] && Joins(merged[|merged| - 1], run) {
      hide PlacesOf, Places, Coalesced;
      JoinPlaces(merged, run);
      JoinCoalesced(merged, run);
    } else {
      AppendCoalesced(merged, run);
      hide PlacesOf, Places, Coalesced;
      PlacesAppend(merged, run);
    }
  }

  lemma AppendCoalesced(merged: seq<Run>, run: Run)
    requires Coalesced(merged) && run.length > 0 && (merged != [] ==> !Joins(merged[|merged| - 1], run))
    ensures Coalesced(merged + [run])
  {
  }

  lemma {:induction false} JoinPlaces(merged: seq<Run>, run: Run)
    requires merged != [] && Joins(merged[|merged| - 1], run)
    ensures Places(merged[..|merged| - 1] + [Join(merged[|merged| - 1], run)]) == Places(merged) + PlacesOf(run)
  {
    hide PlacesOf, Join, Joins, Places;
    var init, last := merged[..|merged| - 1], merged[|merged| - 1];
    assert merged == init + [last];
    PlacesJoined(init, last, run);
  }

  lemma {:induction false} PlacesJoined(init: seq<Run>, last: Run, run: Run)
    requires Joins(last, run)
    ensures Places(init + [Join(last, run)]) == Places(init + [last]) + PlacesOf(run)
  {
    hide PlacesOf, Join, Joins, Places;
    JoinedPlaces(last, run);
    PlacesAppend(init, Join(last, run));
    PlacesAppend(init, last);
    Associative(Places(init), PlacesOf(last), PlacesOf(run));
  }

  lemma Associative(a: seq<Place>, b: seq<Place>, c: seq<Place>)
    ensures (a + b) + c == a + (b + c)
  {
  }

  lemma {:induction false} PlacesAppend(runs: seq<Run>, run: Run)
    ensures Places(runs + [run]) == Places(runs) + PlacesOf(run)
  {
    hide PlacesOf;
    assert (runs + [run])[..|runs|] == runs;
  }

  lemma JoinedPlaces(a: Run, b: Run)
    requires Joins(a, b)
    ensures PlacesOf(Join(a, b)) == PlacesOf(a) + PlacesOf(b)
  {
  }

  lemma JoinCoalesced(merged: seq<Run>, run: Run)
    requires Coalesced(merged) && merged != [] && Joins(merged[|merged| - 1], run) && run.length > 0
    ensures Coalesced(merged[..|merged| - 1] + [Join(merged[|merged| - 1], run)])
  {
    var result := merged[..|merged| - 1] + [Join(merged[|merged| - 1], run)];
    forall i | 0 <= i < |result| - 1 ensures Apart(result[i], result[i + 1]) {
      assert Apart(merged[i], merged[i + 1]);
    }
  }

  /** _coalesce_runs. */
  method CoalesceRuns(runs: seq<Run>) returns (merged: seq<Run>)
    ensures merged == Coalesce(runs)
  {
    hide Places, Coalesced;
    merged := [];
    for i := 0 to |runs|
      invariant merged == Coalesce(runs[..i])
    {
      assert runs[..i + 1][..i] == runs[..i] && runs[..i + 1][i] == runs[i];
      if runs[i].length > 0 {
        if merged != [] && Joins(merged[|merged| - 1], runs[i]) {
          merged := merged[..|merged| - 1] + [Join(merged[|merged| - 1], runs[i])];
        } else {
          merged := merged + [runs[i]];
        }
      }
    }
    assert runs[..|runs|] == runs;
  }

  // ---- Attributes ------------------------------------------------------------------------------

  datatype Attribute = Attribute(offset: nat, length: nat, atype: nat, name: seq<Byte>, flags: nat, nonresident: bool,
                                 lowestVcn: nat, highestVcn: nat, runOffset: nat, runs: seq<Run>,
                                 allocatedSize: nat, dataSize: nat, initializedSize: nat)

  const END_MARK: nat := 0xFFFF_FFFF

  /** No run is sparse. */
  predicate Physical(runs: seq<Run>) {
    forall r | 0 <= r < |runs| :: runs[r].Run?
  }

  /** One attribute, read from its own bytes. */
  function ParseAttribute(b: seq<Byte>, offset: nat): (r: Result<Attribute>)
    requires |b| >= 24
    ensures r.Ok? ==> r.value.offset == offset && r.value.length == |b|
  {
    var nameLength: nat, nameOffset := b[9], U16(b, 10);
    if nameLength > 0 && (nameOffset < 16 || nameOffset + 2 * nameLength > |b|) then Error
    else
      var name := if nameLength > 0 then b[nameOffset..nameOffset + 2 * nameLength] else [];
      if b[8] == 0 then
        Ok(Attribute(offset, |b|, U32(b, 0), name, U16(b, 12), false, 0, 0, 0, [], 0, 0, 0))
      else if |b| < 64 then Error
      else
        var lowest, highest, runOffset := U64(b, 16), U64(b, 24), U16(b, 32);
        if runOffset < 64 || runOffset >= |b| then Error
        else
          match Decode(b[runOffset..])
          case Error => Error
          case Ok(runs) =>
            if SumLengths(runs) as int != highest - lowest + 1 then Error
            else Ok(Attribute(offset, |b|, U32(b, 0), name, U16(b, 12), true, lowest, highest, runOffset, runs,
                              U64(b, 40), U64(b, 48), U64(b, 56)))
  }

  function ParseBody(body: seq<Byte>, offset: nat): (r: Result<seq<Attribute>>)
    decreases |body|
  {
    if |body| < 16 || U32(body, 0) == END_MARK then Ok([])
    else
      var length := U32(body, 4);
      if length < 24 || length > |body| then Error
      else
        match ParseAttribute(body[..length], offset)
        case Error => Error
        case Ok(attr) => Prepend([attr], ParseBody(body[length..], offset + length))
  }

  function InUse(rec: Record): nat
    requires |rec| >= 32
  {
    if U32(rec, 24) < |rec| then U32(rec, 24) else |rec|
  }

  /** The attribute list of a record. */
  function Attributes(rec: Record): (r: Result<seq<Attribute>>)
    requires |rec| >= 32
  {
    if U16(rec, 20) <= InUse(rec) then ParseBody(rec[U16(rec, 20)..InUse(rec)], U16(rec, 20)) else Ok([])
  }

  /** _attributes, collected into a list. */
  method ReadAttributes(rec: Record) returns (r: Result<seq<Attribute>>)
    requires |rec| >= 32
    ensures r == Attributes(rec)
  {
    hide ParseAttribute, U32;
    var pos, inUse := U16(rec, 20), InUse(rec);
    var result: seq<Attribute> := [];
    if pos > inUse { return Ok([]); }
    PrependNothing(Attributes(rec));
    while pos + 16 <= inUse
      invariant pos <= inUse && Attributes(rec) == Prepend(result, ParseBody(rec[pos..inUse], pos))
      decreases inUse - pos
    {
      ghost var body := rec[pos..inUse];
      FieldAt(rec, pos, inUse, 0);
      FieldAt(rec, pos, inUse, 4);
      assert result + [] == result;
      if U32(rec, pos) == END_MARK { return Ok(result); }
      var length := U32(rec, pos + 4);
      if length < 24 || pos + length > inUse { return Error; }
      SliceParts(rec, pos, inUse, length);
      var attr := ParseAttribute(rec[pos..pos + length], pos);
      if attr.Error? { return Error; }
      PrependTwice(result, [attr.value], ParseBody(rec[pos + length..inUse], pos + length));
      result, pos := result + [attr.value], pos + length;
    }
    assert result + [] == result;
    r := Ok(result);
  }

  lemma SliceParts(rec: Record, lo: nat, hi: nat, n: nat)
    requires lo <= hi <= |rec| && n <= hi - lo
    ensures rec[lo..lo + n] == rec[lo..hi][..n] && rec[lo + n..hi] == rec[lo..hi][n..]
  {
    var s := rec[lo..hi];
    forall k | 0 <= k < |s| ensures s[k] == rec[lo + k] {}
    var tail := rec[lo + n..hi];
    forall k | 0 <= k < |tail| ensures tail[k] == s[n..][k] {
      assert tail[k] == rec[lo + n + k] && s[n..][k] == s[n + k];
    }
  }

  lemma FieldAt(rec: Record, pos: nat, inUse: nat, off: nat)
    requires pos + off + 4 <= inUse <= |rec|
    ensures U32(rec[pos..inUse], off) == U32(rec, pos + off)
  {
  }

  // ---- Replacing one attribute ------------------------------------------------------------------

  function Shift(attrs: seq<Attribute>, growth: nat): seq<Attribute> {
    seq(|attrs|, i requires 0 <= i < |attrs| => attrs[i].(offset := attrs[i].offset + growth))
  }

  lemma AttributeShifted(b: seq<Byte>, offset: nat, growth: nat)
    requires |b| >= 24
    ensures ParseAttribute(b, offset + growth) ==
            match ParseAttribute(b, offset) case Error => Error case Ok(attr) => Ok(attr.(offset := offset + growth))
  {
    hide U32, U64, Decode, SumLengths;
  }

  /** Attributes do not depend on where they stand. */
  lemma {:induction false} ParseShifted(body: seq<Byte>, offset: nat, growth: nat)
    ensures ParseBody(body, offset + growth) ==
            match ParseBody(body, offset) case Error => Error case Ok(attrs) => Ok(Shift(attrs, growth))
    decreases |body|
  {
    hide U32, ParseAttribute;
    if |body| < 16 || U32(body, 0) == END_MARK {
      assert Shift([], growth) == [];
    } else {
      var length := U32(body, 4);
      if 24 <= length <= |body| {
        ParseShifted(body[length..], offset + length, growth);
        AttributeShifted(body[..length], offset, growth);
        var a := ParseAttribute(body[..length], offset);
        if a.Ok? && ParseBody(body[length..], offset + length).Ok? {
          var rest := ParseBody(body[length..], offset + length).value;
          assert Shift([a.value] + rest, growth) == [a.value.(offset := offset + growth)] + Shift(rest, growth);
        }
      }
    }
  }

  /** The first attribute of a body and what follows it. */
  lemma FirstParsed(body: seq<Byte>, offset: nat)
    requires ParseBody(body, offset).Ok? && ParseBody(body, offset).value != []
    ensures var attrs := ParseBody(body, offset).value; var length := attrs[0].length;
            && 24 <= length <= |body| && attrs[0].offset == offset && U32(body, 0) != END_MARK && U32(body, 4) == length
            && ParseAttribute(body[..length], offset) == Ok(attrs[0])
            && ParseBody(body[length..], offset + length) == Ok(attrs[1..])
  {
    hide U32, ParseAttribute;
    var attrs := ParseBody(body, offset).value;
    var rest := ParseBody(body[U32(body, 4)..], offset + U32(body, 4)).value;
    assert attrs[1..] == rest;
  }

  /** A well-formed attribute in front of a parsed body. */
  lemma PutFirst(bytes: seq<Byte>, rest: seq<Byte>, offset: nat, attr: Attribute)
    requires |bytes| >= 24 && U32(bytes, 0) != END_MARK && U32(bytes, 4) == |bytes|
    requires ParseAttribute(bytes, offset) == Ok(attr)
    ensures ParseBody(bytes + rest, offset) == Prepend([attr], ParseBody(rest, offset + |bytes|))
  {
    hide U32, ParseAttribute;
    var body := bytes + rest;
    assert body[..|bytes|] == bytes && body[|bytes|..] == rest && bytes[..|bytes|] == bytes;
    HeadFields(bytes, body, |bytes|);
  }

  lemma HeadFields(a: seq<Byte>, b: seq<Byte>, length: nat)
    requires 16 <= length <= |a| && length <= |b| && a[..length] == b[..length]
    ensures U32(a, 0) == U32(b, 0) && U32(a, 4) == U32(b, 4)
  {
    forall k | 0 <= k < 16 ensures a[k] == b[k] { assert a[..length][k] == b[..length][k]; }
  }

  /** Where attribute `n` stands in the body. */
  ghost predicate Stands(body: seq<Byte>, offset: nat, attr: Attribute) {
    && offset <= attr.offset && attr.offset - offset + attr.length <= |body| && attr.length >= 24
    && var cut := attr.offset - offset; var bytes := body[cut..cut + attr.length];
       U32(bytes, 0) != END_MARK && U32(bytes, 4) == attr.length && ParseAttribute(bytes, attr.offset) == Ok(attr)
  }

  lemma {:induction false} AttributeStands(body: seq<Byte>, offset: nat, n: nat)
    requires ParseBody(body, offset).Ok? && n < |ParseBody(body, offset).value|
    ensures Stands(body, offset, ParseBody(body, offset).value[n])
    ensures n > 0 ==> offset + ParseBody(body, offset).value[0].length <= ParseBody(body, offset).value[n].offset
    decreases n
  {
    hide U32, ParseAttribute, ParseBody, Stands;
    FirstParsed(body, offset);
    var attrs := ParseBody(body, offset).value;
    if n == 0 {
      FirstStands(body, offset, attrs[0]);
    } else {
      AttributeStands(body[attrs[0].length..], offset + attrs[0].length, n - 1);
      StandsFurther(body, offset, attrs[0].length, attrs[n]);
    }
  }

  lemma FirstStands(body: seq<Byte>, offset: nat, attr: Attribute)
    requires attr.offset == offset && 24 <= attr.length <= |body| && U32(body, 0) != END_MARK
    requires U32(body, 4) == attr.length
    requires ParseAttribute(body[..attr.length], offset) == Ok(attr)
    ensures Stands(body, offset, attr)
  {
    hide U32, ParseAttribute, Stands;
    TakeSlice(body, attr.length);
    HeadFields(body, body[..attr.length], attr.length);
    StandsAt(body, offset, attr, 0, body[..attr.length]);
  }

  lemma StandsAt(body: seq<Byte>, offset: nat, attr: Attribute, cut: nat, bytes: seq<Byte>)
    requires attr.offset == offset + cut && attr.length >= 24 && cut + attr.length <= |body|
    requires bytes == body[cut..cut + attr.length]
    requires U32(bytes, 0) != END_MARK && U32(bytes, 4) == attr.length && ParseAttribute(bytes, attr.offset) == Ok(attr)
    ensures Stands(body, offset, attr)
  {
    hide U32, ParseAttribute;
    assert attr.offset - offset == cut;
  }

  lemma TakeSlice(b: seq<Byte>, n: nat)
    requires n <= |b|
    ensures b[0..n] == b[..n] && b[..n][..n] == b[..n]
  {
  }

  lemma StandsFurther(body: seq<Byte>, offset: nat, length: nat, attr: Attribute)
    requires length <= |body| && Stands(body[length..], offset + length, attr)
    ensures Stands(body, offset, attr) && offset + length <= attr.offset
  {
    hide U32, ParseAttribute;
    var at := attr.offset - offset;
    assert body[length..][at - length..at - length + attr.length] == body[at..at + attr.length];
  }

  /** Replacing one attribute's bytes by at least as many changes that attribute and
      moves the later ones; nothing else. */
  lemma {:induction false} ParseReplaced(body: seq<Byte>, offset: nat, n: nat, bytes: seq<Byte>, attr: Attribute)
    requires ParseBody(body, offset).Ok? && n < |ParseBody(body, offset).value|
    requires Stands(body, offset, ParseBody(body, offset).value[n])
    requires |bytes| >= ParseBody(body, offset).value[n].length && U32(bytes, 0) != END_MARK && U32(bytes, 4) == |bytes|
    requires ParseAttribute(bytes, ParseBody(body, offset).value[n].offset) == Ok(attr)
    ensures var attrs := ParseBody(body, offset).value;
            var cut, was := attrs[n].offset - offset, attrs[n].length;
            ParseBody(body[..cut] + bytes + body[cut + was..], offset) ==
              Ok(attrs[..n] + [attr] + Shift(attrs[n + 1..], |bytes| - was))
    decreases n
  {
    hide U32, ParseAttribute, ParseBody, Shift;
    FirstParsed(body, offset);
    var attrs := ParseBody(body, offset).value;
    var cut, was := attrs[n].offset - offset, attrs[n].length;
    var growth: nat := |bytes| - was;
    var length := attrs[0].length;
    var rest := body[length..];
    if n == 0 {
      PutFirst(bytes, rest, offset, attr);
      ParseShifted(rest, offset + length, growth);
      assert body[..cut] + bytes + body[cut + was..] == bytes + rest;
      assert attrs[..0] + [attr] + Shift(attrs[1..], growth) == [attr] + Shift(attrs[1..], growth);
    } else {
      AttributeStands(body, offset, n);
      AttributeStands(rest, offset + length, n - 1);
      ParseReplaced(rest, offset + length, n - 1, bytes, attr);
      var first := body[..length];
      HeadFields(body, first, length);
      PutFirst(first, rest[..cut - length] + bytes + rest[cut - length + was..], offset, attrs[0]);
      assert body[..cut] + bytes + body[cut + was..] ==
        first + (rest[..cut - length] + bytes + rest[cut - length + was..]);
      var tail := attrs[1..];
      assert attrs[..n] == [attrs[0]] + tail[..n - 1] && attrs[n + 1..] == tail[n..] && attrs[n] == tail[n - 1];
      assert [attrs[0]] + (tail[..n - 1] + [attr] + Shift(tail[n..], growth)) ==
        attrs[..n] + [attr] + Shift(attrs[n + 1..], growth);
    }
  }

  // ---- Rewriting a runlist -------------------------------------------------------------------------

  function PutU32(b: seq<Byte>, at: nat, v: nat): (r: seq<Byte>)
    requires at + 4 <= |b| && v < 0x1_0000_0000
    ensures |r| == |b| && U32(r, at) == v
    ensures forall k | 0 <= k < |b| && !(at <= k < at + 4) :: r[k] == b[k]
  {
    var lo, hi := v % 65536, v / 65536;
    WordParts(lo);
    WordParts(hi);
    PutWord(PutWord(b, at, lo % 256, lo / 256), at + 2, hi % 256, hi / 256)
  }

  lemma WordParts(w: nat)
    requires w < 65536
    ensures w / 256 < 256 && w == w % 256 + 256 * (w / 256)
  {
  }

  function Zeros(n: nat): (z: seq<Byte>)
    ensures |z| == n
  {
    seq(n, _ => 0)
  }

  function RoundUp8(n: nat): (r: nat)
    ensures r % 8 == 0 && n <= r < n + 8
  {
    (n + 7) / 8 * 8
  }

  function Growth(attr: Attribute, encoded: nat): nat {
    var required := RoundUp8(attr.runOffset + encoded);
    if required > attr.length then required - attr.length else 0
  }

  function Allocated(rec: Record): nat
    requires |rec| >= 32
  {
    if U32(rec, 28) < |rec| then U32(rec, 28) else |rec|
  }

  /** The attribute's own bytes with a new runlist, longer by `growth`. */
  function NewBytes(b: seq<Byte>, runOffset: nat, encoded: seq<Byte>, growth: nat): (r: seq<Byte>)
    requires 8 <= runOffset && runOffset + |encoded| <= |b| + growth < 0x1_0000_0000 && runOffset <= |b|
    ensures |r| == |b| + growth
  {
    var bytes := b[..runOffset] + encoded + Zeros(|b| + growth - runOffset - |encoded|);
    if growth > 0 then PutU32(bytes, 4, |b| + growth) else bytes
  }

  /** The runlist to store and the bytes it adds, or an error. */
  function PlanRewrite(fixed: Record, attr: Attribute, runs: seq<Run>): (r: Result<(seq<Byte>, nat)>)
    requires |fixed| >= 32
    ensures r.Ok? ==> r.value.1 == Growth(attr, |r.value.0|) && Encode(Coalesce(runs)) == Ok(r.value.0)
    ensures r.Ok? ==>
      attr.offset + attr.length <= U32(fixed, 24) && U32(fixed, 24) + r.value.1 <= Allocated(fixed) <= |fixed|
  {
    if SumLengths(Coalesce(runs)) != attr.highestVcn - attr.lowestVcn + 1 then Error
    else
      match Encode(Coalesce(runs))
      case Error => Error
      case Ok(encoded) =>
        var growth := Growth(attr, |encoded|);
        if U32(fixed, 24) > Allocated(fixed) || attr.offset + attr.length > U32(fixed, 24) then Error
        else if U32(fixed, 24) + growth > Allocated(fixed) then Error
        else Ok((encoded, growth))
  }

  predicate Placed(fixed: Record, attr: Attribute) {
    32 <= |fixed| && 32 <= attr.offset && 64 <= attr.runOffset < attr.length && attr.offset + attr.length <= |fixed|
  }

  /** The record with the runlist of `attr` replaced, before fixups. */
  function Rewrite(fixed: Record, attr: Attribute, runs: seq<Run>): (r: Result<Record>)
    requires Placed(fixed, attr)
    ensures r.Ok? ==> |r.value| == |fixed|
  {
    match PlanRewrite(fixed, attr, runs)
    case Error => Error
    case Ok((encoded, growth)) =>
      AllocatedSmall(fixed);
      GrowthFits(attr, |encoded|);
      Ok(Assemble(fixed, attr, encoded, growth, U32(fixed, 24)))
  }

  /** Header, rewritten attribute, the attributes after it moved up, the rest. */
  function Assemble(fixed: Record, attr: Attribute, encoded: seq<Byte>, growth: nat, inUse: nat): (r: Record)
    requires Placed(fixed, attr) && attr.offset + attr.length <= inUse && inUse + growth <= |fixed|
    requires inUse + growth < 0x1_0000_0000
    requires attr.runOffset + |encoded| <= attr.length + growth
    ensures |r| == |fixed|
  {
    var end := attr.offset + attr.length;
    HeadOf(fixed, attr, growth, inUse) + NewBytes(fixed[attr.offset..end], attr.runOffset, encoded,
                                                  growth) + fixed[end..inUse] + fixed[inUse + growth..]
  }

  function HeadOf(fixed: Record, attr: Attribute, growth: nat, inUse: nat): (head: seq<Byte>)
    requires 32 <= attr.offset <= |fixed| && inUse + growth < 0x1_0000_0000
    ensures |head| == attr.offset
  {
    if growth > 0 then PutU32(fixed[..attr.offset], 24, inUse + growth) else fixed[..attr.offset]
  }

  lemma AllocatedSmall(rec: Record)
    requires |rec| >= 32
    ensures Allocated(rec) < 0x1_0000_0000
  {
  }

  /** A name, when there is one, stands before the mapping pairs. */
  predicate NameBefore(b: seq<Byte>, runOffset: nat) {
    |b| >= 64 && (b[9] == 0 || U16(b, 10) + 2 * (b[9] as nat) <= runOffset)
  }

  lemma NewBytesAt(b: seq<Byte>, runOffset: nat, encoded: seq<Byte>, growth: nat)
    requires 64 <= runOffset <= |b| && runOffset + |encoded| <= |b| + growth < 0x1_0000_0000
    ensures var r := NewBytes(b, runOffset, encoded, growth);
            && (forall k | 0 <= k < runOffset && !(4 <= k < 8) :: r[k] == b[k])
            && r[runOffset..] == encoded + Zeros(|b| + growth - runOffset - |encoded|)
            && (growth > 0 ==> U32(r, 4) == |r|) && (growth == 0 ==> U32(r, 4) == U32(b, 4))
  {
    hide U32;
    var pad := Zeros(|b| + growth - runOffset - |encoded|);
    var bytes := b[..runOffset] + encoded + pad;
    var r := NewBytes(b, runOffset, encoded, growth);
    assert bytes[runOffset..] == encoded + pad;
    if growth == 0 { HeadWords(b, r); }
  }

  lemma HeadWords(a: seq<Byte>, b: seq<Byte>)
    requires 8 <= |a| && 8 <= |b| && forall k | 4 <= k < 8 :: a[k] == b[k]
    ensures U32(a, 4) == U32(b, 4)
  {
  }

  ghost predicate SameFields(b: seq<Byte>, r: seq<Byte>) {
    && |b| >= 64 && |r| >= 64 && r[8] == b[8] && r[9] == b[9]
    && U32(r, 0) == U32(b, 0) && U16(r, 10) == U16(b, 10) && U16(r, 12) == U16(b, 12) && U16(r, 32) == U16(b, 32)
    && U64(r, 16) == U64(b, 16) && U64(r, 24) == U64(b, 24) && U64(r, 40) == U64(b, 40) && U64(r, 48) == U64(b, 48)
    && U64(r, 56) == U64(b, 56)
  }

  lemma FieldsKept(b: seq<Byte>, r: seq<Byte>)
    requires |b| >= 64 && |r| >= 64 && forall k | 0 <= k < 64 && !(4 <= k < 8) :: r[k] == b[k]
    ensures SameFields(b, r)
  {
  }

  /** The name stored in an attribute's own bytes. */
  function NameOf(b: seq<Byte>): seq<Byte>
    requires |b| >= 24
  {
    var length: nat, from := b[9], U16(b, 10);
    if length > 0 && from + 2 * length <= |b| then b[from..from + 2 * length] else []
  }

  lemma ParsedName(b: seq<Byte>, offset: nat)
    requires |b| >= 24 && ParseAttribute(b, offset).Ok?
    ensures ParseAttribute(b, offset).value.name == NameOf(b)
    ensures b[9] > 0 ==> 16 <= U16(b, 10) && U16(b, 10) + 2 * (b[9] as nat) <= |b|
  {
    hide Decode;
  }

  lemma ParseFrom(b: seq<Byte>, r: seq<Byte>, offset: nat, attr: Attribute, runs: seq<Run>)
    requires |b| >= 24 && ParseAttribute(b, offset) == Ok(attr) && attr.nonresident
    requires SameFields(b, r) && attr.runOffset < |r| && |b| <= |r|
    requires forall k | 0 <= k < attr.runOffset && !(4 <= k < 8) :: r[k] == b[k]
    requires Decode(r[attr.runOffset..]) == Ok(runs) && SumLengths(runs) as int == attr.highestVcn - attr.lowestVcn + 1
    ensures ParseAttribute(r, offset) == Ok(attr.(length := |r|, runs := runs, name := NameOf(r)))
  {
    hide Decode, SumLengths, U16, U32, U64;
    ParsedName(b, offset);
  }

  lemma SameName(b: seq<Byte>, r: seq<Byte>, from: nat, to: nat, runOffset: nat)
    requires 8 <= from <= to <= runOffset <= |b| <= |r|
    requires forall k | 0 <= k < runOffset && !(4 <= k < 8) :: r[k] == b[k]
    ensures r[from..to] == b[from..to]
  {
  }

  /** The rewritten attribute parses to the same attribute with the new runs. */
  lemma NewBytesParse(b: seq<Byte>, offset: nat, attr: Attribute, runs: seq<Run>, encoded: seq<Byte>, growth: nat)
    requires |b| >= 24 && ParseAttribute(b, offset) == Ok(attr) && attr.nonresident
    requires Encode(runs) == Ok(encoded) && SumLengths(runs) as int == attr.highestVcn - attr.lowestVcn + 1
    requires 64 <= attr.runOffset < |b| && attr.runOffset + |encoded| <= |b| + growth < 0x1_0000_0000
    ensures var r := NewBytes(b, attr.runOffset, encoded, growth);
            && ParseAttribute(r, offset) == Ok(attr.(length := |b| + growth, runs := runs, name := NameOf(r)))
            && U32(r, 0) == U32(b, 0)
  {
    hide Decode, Encode, SumLengths, NewBytes, ParseAttribute, SameFields, NameOf;
    NewBytesAt(b, attr.runOffset, encoded, growth);
    var r := NewBytes(b, attr.runOffset, encoded, growth);
    RunlistRoundTrip(runs, Zeros(|b| + growth - attr.runOffset - |encoded|));
    FieldsKept(b, r);
    assert U32(r, 0) == U32(b, 0);
    ParseFrom(b, r, offset, attr, runs);
  }

  /** The header's own words end before the attributes. */
  predicate HeaderApart(rec: Record) {
    |rec| >= 32 && 32 <= U16(rec, 20)
  }

  lemma RewriteParts(fixed: Record, attr: Attribute, runs: seq<Run>)
    requires Placed(fixed, attr) && Rewrite(fixed, attr, runs).Ok?
    ensures PlanRewrite(fixed, attr, runs).Ok?
    ensures var (encoded, growth) := PlanRewrite(fixed, attr, runs).value;
            && attr.offset + attr.length <= U32(fixed, 24) && U32(fixed, 24) + growth <= Allocated(fixed) <= |fixed|
            && Allocated(fixed) < 0x1_0000_0000 && attr.runOffset + |encoded| <= attr.length + growth
            && Rewrite(fixed, attr, runs).value == Assemble(fixed, attr, encoded, growth, U32(fixed, 24))
  {
    hide PlanRewrite, Assemble, U32;
    AllocatedSmall(fixed);
    GrowthFits(attr, |PlanRewrite(fixed, attr, runs).value.0|);
  }

  lemma RewriteBody(fixed: Record, attr: Attribute, runs: seq<Run>)
    requires Placed(fixed, attr) && HeaderApart(fixed) && U16(fixed, 20) <= attr.offset
    requires Rewrite(fixed, attr, runs).Ok?
    ensures PlanRewrite(fixed, attr, runs).Ok?
    ensures var out, growth := Rewrite(fixed, attr, runs).value, PlanRewrite(fixed, attr, runs).value.1;
            var encoded, pos, inUse, end := PlanRewrite(fixed, attr, runs).value.0, U16(fixed, 20), U32(fixed, 24),
              attr.offset + attr.length;
            && U16(out, 20) == pos && U32(out, 24) == inUse + growth && InUse(fixed) == inUse
            && InUse(out) == inUse + growth
            && out[pos..inUse + growth] ==
               fixed[pos..attr.offset] + NewBytes(fixed[attr.offset..end], attr.runOffset, encoded, growth) +
                 fixed[end..inUse]
  {
    hide Encode, Coalesce, NewBytes, Growth, U32, U16, PutU32, Coalesced, Places, Rewrite, PlanRewrite;
    RewriteParts(fixed, attr, runs);
    var out := Rewrite(fixed, attr, runs).value;
    var encoded, growth := PlanRewrite(fixed, attr, runs).value.0, PlanRewrite(fixed, attr, runs).value.1;
    GrowthFits(attr, |encoded|);
    var pos, inUse, end := U16(fixed, 20), U32(fixed, 24), attr.offset + attr.length;
    AllocatedSmall(fixed);
    var head := if growth > 0 then PutU32(fixed[..attr.offset], 24, inUse + growth) else fixed[..attr.offset];
    var bytes := NewBytes(fixed[attr.offset..end], attr.runOffset, encoded, growth);
    HeadSame(fixed, attr.offset, head, inUse, growth, pos);
    SplitRecord(out, head, bytes, fixed[end..inUse], fixed[inUse + growth..], pos);
    HeadRead(out, head);
  }

  lemma GrowthFits(attr: Attribute, encoded: nat)
    ensures attr.runOffset + encoded <= attr.length + Growth(attr, encoded)
  {
  }

  lemma HeadSame(fixed: Record, at: nat, head: seq<Byte>, inUse: nat, growth: nat, pos: nat)
    requires 32 <= at <= |fixed| && inUse == U32(fixed, 24) && inUse + growth < 0x1_0000_0000 && 32 <= pos <= at
    requires head == if growth > 0 then PutU32(fixed[..at], 24, inUse + growth) else fixed[..at]
    ensures |head| == at && U32(head, 24) == inUse + growth && U16(head, 20) == U16(fixed, 20)
    ensures head[pos..] == fixed[pos..at]
    ensures forall k | 0 <= k < at && !(24 <= k < 28) :: head[k] == fixed[k]
  {
    assert U32(fixed[..at], 24) == U32(fixed, 24);
  }

  lemma SplitRecord(out: Record, head: seq<Byte>, bytes: seq<Byte>, tail: seq<Byte>, rest: seq<Byte>, pos: nat)
    requires out == head + bytes + tail + rest && pos <= |head|
    ensures out[pos..|head| + |bytes| + |tail|] == head[pos..] + bytes + tail
    ensures out[..|head|] == head
  {
  }

  lemma HeadRead(out: Record, head: seq<Byte>)
    requires |head| >= 32 && |out| >= |head| && out[..|head|] == head
    ensures U16(out, 20) == U16(head, 20) && U32(out, 24) == U32(head, 24) && U16(out, 4) == U16(head, 4)
    ensures U16(out, 6) == U16(head, 6)
  {
    forall k | 0 <= k < |head| ensures out[k] == head[k] { assert out[..|head|][k] == head[k]; }
  }

  predicate Rewritable(fixed: Record, attr: Attribute) {
    attr.nonresident && Placed(fixed, attr)
  }

  /** The attribute after a rewrite: new runs, grown length, and the name its new bytes hold. */
  function Updated(fixed: Record, attr: Attribute, runs: seq<Run>): Attribute
    requires Placed(fixed, attr) && PlanRewrite(fixed, attr, runs).Ok?
  {
    var (encoded, growth) := PlanRewrite(fixed, attr, runs).value;
    PlanFacts(fixed, attr, runs, encoded, growth);
    var bytes := NewBytes(fixed[attr.offset..attr.offset + attr.length], attr.runOffset, encoded, growth);
    attr.(length := attr.length + growth, runs := Coalesce(runs), name := NameOf(bytes))
  }

  /** A name that stands before the mapping pairs is kept; one behind them is overwritten. */
  lemma UpdatedName(fixed: Record, attr: Attribute, runs: seq<Run>)
    requires Placed(fixed, attr) && PlanRewrite(fixed, attr, runs).Ok? && attr.length >= 64
    requires var b := fixed[attr.offset..attr.offset + attr.length];
             ParseAttribute(b, attr.offset) == Ok(attr) && NameBefore(b, attr.runOffset)
    ensures Updated(fixed, attr, runs).name == attr.name
  {
    hide Encode, Coalesce, NewBytes, Growth, SumLengths, ParseAttribute, PlanRewrite, U32;
    var (encoded, growth) := PlanRewrite(fixed, attr, runs).value;
    PlanFacts(fixed, attr, runs, encoded, growth);
    var b := fixed[attr.offset..attr.offset + attr.length];
    var r := NewBytes(b, attr.runOffset, encoded, growth);
    NewBytesAt(b, attr.runOffset, encoded, growth);
    ParsedName(b, attr.offset);
    FieldsKept(b, r);
    var length: nat, from := b[9], U16(b, 10);
    if length > 0 { SameName(b, r, from, from + 2 * length, attr.runOffset); }
  }

  /** A name behind the new mapping pairs is zeroed. */
  lemma NameLost(fixed: Record, attr: Attribute, runs: seq<Run>)
    requires Placed(fixed, attr) && PlanRewrite(fixed, attr, runs).Ok? && attr.length >= 64
    requires var b := fixed[attr.offset..attr.offset + attr.length];
             && ParseAttribute(b, attr.offset) == Ok(attr) && b[9] > 0
             && attr.runOffset + |PlanRewrite(fixed, attr, runs).value.0| <= U16(b, 10)
    ensures Updated(fixed, attr, runs).name == Zeros(|attr.name|)
  {
    hide Encode, Coalesce, NewBytes, Growth, SumLengths, ParseAttribute, PlanRewrite, U32;
    var (encoded, growth) := PlanRewrite(fixed, attr, runs).value;
    PlanFacts(fixed, attr, runs, encoded, growth);
    var b := fixed[attr.offset..attr.offset + attr.length];
    var r := NewBytes(b, attr.runOffset, encoded, growth);
    NewBytesAt(b, attr.runOffset, encoded, growth);
    ParsedName(b, attr.offset);
    FieldsKept(b, r);
    TailZeros(r, attr.runOffset, encoded);
  }

  lemma TailZeros(r: seq<Byte>, runOffset: nat, encoded: seq<Byte>)
    requires runOffset + |encoded| <= |r| && r[runOffset..] == encoded + Zeros(|r| - runOffset - |encoded|)
    ensures forall k | runOffset + |encoded| <= k < |r| :: r[k] == 0
  {
    forall k | runOffset + |encoded| <= k < |r| ensures r[k] == 0 {
      assert r[runOffset..][k - runOffset] == r[k];
    }
  }

  /** After a rewrite the record lists the same attributes, with the coalesced new
      runs and grown length in one of them and the later ones moved up. */
  lemma RewriteReparses(fixed: Record, n: nat, runs: seq<Run>)
    requires HeaderApart(fixed) && Attributes(fixed).Ok? && n < |Attributes(fixed).value|
    requires Rewritable(fixed, Attributes(fixed).value[n])
    requires Rewrite(fixed, Attributes(fixed).value[n], runs).Ok?
    ensures PlanRewrite(fixed, Attributes(fixed).value[n], runs).Ok?
    ensures var attrs := Attributes(fixed).value; var growth := PlanRewrite(fixed, attrs[n], runs).value.1;
            Attributes(Rewrite(fixed, attrs[n], runs).value) ==
            Ok(attrs[..n] + [Updated(fixed, attrs[n], runs)] + Shift(attrs[n + 1..], growth))
  {
    hide Encode, Coalesce, NewBytes, Growth, SumLengths, ParseBody, ParseAttribute, Rewrite, U32, U16, Attributes,
         InUse, PlanRewrite, Stands, Shift, Updated;
    var attrs := Attributes(fixed).value;
    var attr := attrs[n];
    BodyOf(fixed);
    var pos := U16(fixed, 20);
    var body := fixed[pos..InUse(fixed)];
    AttributeStands(body, pos, n);
    StandsIn(fixed, pos, InUse(fixed), attr);
    RewriteBody(fixed, attr, runs);
    BodyOf(Rewrite(fixed, attr, runs).value);
    RewrittenBody(fixed, pos, InUse(fixed), n, attrs, runs);
  }

  lemma BodyOf(rec: Record)
    requires |rec| >= 32
    ensures InUse(rec) <= |rec|
    ensures (U16(rec, 20) <= InUse(rec) ==> Attributes(rec) == ParseBody(rec[U16(rec, 20)..InUse(rec)], U16(rec, 20)))
    ensures Attributes(rec).Ok? && Attributes(rec).value != [] ==> U16(rec, 20) <= InUse(rec)
  {
  }

  lemma StandsIn(fixed: Record, pos: nat, inUse: nat, attr: Attribute)
    requires pos <= inUse <= |fixed| && Stands(fixed[pos..inUse], pos, attr)
    ensures pos <= attr.offset && attr.offset + attr.length <= inUse && attr.length >= 24
    ensures var b := fixed[attr.offset..attr.offset + attr.length];
            U32(b, 0) != END_MARK && U32(b, 4) == attr.length && ParseAttribute(b, attr.offset) == Ok(attr)
  {
    hide U32, ParseAttribute;
    Subslice(fixed, pos, inUse, attr.offset - pos, attr.length);
  }

  lemma Subslice(b: seq<Byte>, lo: nat, hi: nat, at: nat, n: nat)
    requires lo <= hi <= |b| && lo + at + n <= hi
    ensures b[lo..hi][at..at + n] == b[lo + at..lo + at + n]
  {
    var c, d := b[lo..hi][at..at + n], b[lo + at..lo + at + n];
    assert |c| == n && |d| == n;
    forall k | 0 <= k < n ensures c[k] == d[k] {
      assert c[k] == b[lo..hi][at + k];
      assert b[lo..hi][at + k] == b[lo + (at + k)];
    }
  }

  lemma RewrittenBody(fixed: Record, pos: nat, inUse: nat, n: nat, attrs: seq<Attribute>, runs: seq<Run>)
    requires pos <= inUse <= |fixed| && ParseBody(fixed[pos..inUse], pos) == Ok(attrs) && n < |attrs|
    requires Stands(fixed[pos..inUse], pos, attrs[n])
    requires Rewritable(fixed, attrs[n]) && PlanRewrite(fixed, attrs[n], runs).Ok? && pos <= attrs[n].offset
    requires attrs[n].offset + attrs[n].length <= inUse
    requires var b := fixed[attrs[n].offset..attrs[n].offset + attrs[n].length];
             |b| >= 24 && U32(b, 0) != END_MARK && U32(b, 4) == attrs[n].length &&
               ParseAttribute(b, attrs[n].offset) == Ok(attrs[n])
    ensures var attr := attrs[n];
            var encoded, growth := PlanRewrite(fixed, attr, runs).value.0, PlanRewrite(fixed, attr, runs).value.1;
            && attr.runOffset + |encoded| <= attr.length + growth < 0x1_0000_0000
            && var bytes := NewBytes(fixed[attr.offset..attr.offset + attr.length], attr.runOffset, encoded, growth);
               ParseBody(fixed[pos..attr.offset] + bytes + fixed[attr.offset + attr.length..inUse], pos) ==
               Ok(attrs[..n] + [Updated(fixed, attr, runs)] + Shift(attrs[n + 1..], growth))
  {
    hide Encode, Coalesce, NewBytes, Growth, SumLengths, ParseBody, ParseAttribute, U32, U16, PlanRewrite, Stands,
         Shift;
    var attr := attrs[n];
    var b := fixed[attr.offset..attr.offset + attr.length];
    var body := fixed[pos..inUse];
    var encoded, growth := PlanRewrite(fixed, attr, runs).value.0, PlanRewrite(fixed, attr, runs).value.1;
    RewrittenAttribute(fixed, attr, runs, b, encoded, growth);
    var bytes := NewBytes(b, attr.runOffset, encoded, growth);
    ParseReplaced(body, pos, n, bytes, Updated(fixed, attr, runs));
    assert body[..attr.offset - pos] == fixed[pos..attr.offset];
    assert body[attr.offset - pos + attr.length..] == fixed[attr.offset + attr.length..inUse];
  }

  lemma RewrittenAttribute(fixed: Record, attr: Attribute, runs: seq<Run>, b: seq<Byte>, encoded: seq<Byte>,
                           growth: nat)
    requires Placed(fixed, attr) && PlanRewrite(fixed, attr, runs) == Ok((encoded, growth))
    requires b == fixed[attr.offset..attr.offset + attr.length]
    requires |b| >= 24 && ParseAttribute(b, attr.offset) == Ok(attr) && attr.nonresident
    requires U32(b, 0) != END_MARK && U32(b, 4) == attr.length
    ensures attr.runOffset + |encoded| <= |b| + growth < 0x1_0000_0000
    ensures var bytes := NewBytes(b, attr.runOffset, encoded, growth);
            && |bytes| >= attr.length && U32(bytes, 0) != END_MARK && U32(bytes, 4) == |bytes|
            && ParseAttribute(bytes, attr.offset) == Ok(Updated(fixed, attr, runs))
  {
    hide Encode, Coalesce, NewBytes, SumLengths, ParseAttribute, U32, PlanRewrite, Growth, NameOf, Allocated;
    PlanFacts(fixed, attr, runs, encoded, growth);
    NewBytesParse(b, attr.offset, attr, Coalesce(runs), encoded, growth);
    NewBytesAt(b, attr.runOffset, encoded, growth);
  }

  lemma PlanFacts(fixed: Record, attr: Attribute, runs: seq<Run>, encoded: seq<Byte>, growth: nat)
    requires Placed(fixed, attr) && PlanRewrite(fixed, attr, runs) == Ok((encoded, growth))
    ensures Encode(Coalesce(runs)) == Ok(encoded)
    ensures SumLengths(Coalesce(runs)) as int == attr.highestVcn - attr.lowestVcn + 1
    ensures attr.runOffset + |encoded| <= attr.length + growth < 0x1_0000_0000
  {
    hide Encode, Coalesce, SumLengths, U32;
    AllocatedSmall(fixed);
    GrowthFits(attr, |encoded|);
  }

  // ---- Rewriting through the fixups -----------------------------------------------------------------

  /** The update-sequence array stands between the header words and the attributes. */
  ghost predicate ArrayApart(rec: Record, size: nat) {
    HeaderApart(rec) && WellPlaced(rec, size) && 32 <= U16(rec, 4) && U16(rec, 4) + 2 * U16(rec, 6) <= U16(rec, 20)
  }

  lemma SameAttributes(a: Record, b: Record, lo: nat, hi: nat)
    requires |a| == |b| && HeaderApart(a) && 32 <= lo && hi <= U16(a, 20)
    requires forall k | 0 <= k < |a| && !(lo <= k < hi) :: a[k] == b[k]
    ensures Attributes(a) == Attributes(b)
  {
    HeaderWords(a, b);
    hide U16, U32, ParseBody;
    if U16(a, 20) <= InUse(a) {
      assert a[U16(a, 20)..InUse(a)] == b[U16(a, 20)..InUse(a)];
    }
  }

  lemma HeaderWords(a: Record, b: Record)
    requires |a| >= 32 && |b| >= 32 && forall k | 0 <= k < 32 :: a[k] == b[k]
    ensures U16(a, 4) == U16(b, 4) && U16(a, 6) == U16(b, 6) && U16(a, 20) == U16(b, 20)
    ensures U32(a, 24) == U32(b, 24) && U32(a, 28) == U32(b, 28)
  {
  }

  lemma RewriteHead(fixed: Record, attr: Attribute, runs: seq<Run>, size: nat)
    requires Placed(fixed, attr) && ArrayApart(fixed, size) && U16(fixed, 20) <= attr.offset
    requires Rewrite(fixed, attr, runs).Ok?
    ensures ArrayApart(Rewrite(fixed, attr, runs).value, size)
  {
    var out := Rewrite(fixed, attr, runs).value;
    hide Encode, Coalesce, NewBytes, Growth, SumLengths, Shaped, U32;
    forall k | 0 <= k < 24 ensures out[k] == fixed[k] {}
    LowWords(fixed, out);
  }

  lemma LowWords(a: Record, b: Record)
    requires |a| >= 32 && |b| >= 32 && forall k | 0 <= k < 24 :: a[k] == b[k]
    ensures U16(a, 4) == U16(b, 4) && U16(a, 6) == U16(b, 6) && U16(a, 20) == U16(b, 20)
  {
  }

  /** _updated_record_runs as a function. */
  function UpdatedRecord(fixed: Record, attr: Attribute, runs: seq<Run>, size: nat): (r: Result<Record>)
    requires Placed(fixed, attr) && RecordSized(|fixed|, size)
  {
    match Rewrite(fixed, attr, runs)
    case Error => Error
    case Ok(out) => Prepare(out, size)
  }

  /** Rewrite, prepare, write, read back, parse: the same attributes except for the
      coalesced new runs, the grown length and the moved later offsets. */
  lemma UpdatedRecordReparses(fixed: Record, n: nat, runs: seq<Run>, size: nat)
    requires ArrayApart(fixed, size) && Attributes(fixed).Ok? && n < |Attributes(fixed).value|
    requires Rewritable(fixed, Attributes(fixed).value[n]) && U16(fixed, 20) <= Attributes(fixed).value[n].offset
    requires PlanRewrite(fixed, Attributes(fixed).value[n], runs).Ok?
    ensures var attrs := Attributes(fixed).value; var growth := PlanRewrite(fixed, attrs[n], runs).value.1;
            var raw := UpdatedRecord(fixed, attrs[n], runs, size);
            && raw.Ok? && Apply(raw.value, size).Ok?
            && Attributes(Apply(raw.value, size).value) ==
               Ok(attrs[..n] + [Updated(fixed, attrs[n], runs)] + Shift(attrs[n + 1..], growth))
  {
    var attrs := Attributes(fixed).value;
    assert Rewrite(fixed, attrs[n], runs).Ok?;
    hide Encode, Coalesce, NewBytes, Growth, SumLengths, ParseBody, ParseAttribute, Rewrite, U32, U16, Attributes,
         InUse, PlanRewrite, Shift, Updated, Shaped, Framed, ArrayFits, Prepare, Apply;
    var out := Rewrite(fixed, attrs[n], runs).value;
    RewriteReparses(fixed, n, runs);
    RewriteHead(fixed, attrs[n], runs, size);
    FixupsRoundTrip(out, size);
    SameAttributes(out, Apply(Prepare(out, size).value, size).value, U16(out, 4), U16(out, 4) + 2 * U16(out, 6));
  }

  // ---- Capacity --------------------------------------------------------------------------------------

  /** Bytes a record offers for the mapping pairs of `attr`. */
  function Capacity(fixed: Record, attr: Attribute): nat
    requires Placed(fixed, attr) && U32(fixed, 24) <= Allocated(fixed)
  {
    attr.length - attr.runOffset + (Allocated(fixed) - U32(fixed, 24)) / 8 * 8
  }

  /** Every mapping within the capacity fits, exactly when the attribute's alignment
      gap is no larger than the record's odd free bytes; aligned attributes always do. */
  lemma CapacityExact(fixed: Record, attr: Attribute)
    requires Placed(fixed, attr) && U32(fixed, 24) <= Allocated(fixed)
    ensures (forall encoded: nat | encoded <= Capacity(fixed, attr) ::
             U32(fixed, 24) + Growth(attr, encoded) <= Allocated(fixed))
            <==> RoundUp8(attr.length) - attr.length <= (Allocated(fixed) - U32(fixed, 24)) % 8
    ensures attr.length % 8 == 0 ==> RoundUp8(attr.length) == attr.length
  {
    hide U32, Allocated, RoundUp8;
    var spare: nat := Allocated(fixed) - U32(fixed, 24);
    var most := Capacity(fixed, attr);
    MostGrowth(attr, most, spare);
    forall encoded: nat | encoded <= most ensures Growth(attr, encoded) <= Growth(attr, most) {
      RoundUpMonotone(attr.runOffset + encoded, attr.runOffset + most);
    }
    hide Growth;
    var grown, gap := Growth(attr, most), RoundUp8(attr.length) - attr.length;
    assert spare == spare / 8 * 8 + spare % 8;
    assert grown <= spare <==> gap <= spare % 8;
  }

  lemma MostGrowth(attr: Attribute, most: nat, spare: nat)
    requires attr.runOffset <= attr.length && most == attr.length - attr.runOffset + spare / 8 * 8
    ensures Growth(attr, most) == RoundUp8(attr.length) - attr.length + spare / 8 * 8
  {
    assert attr.runOffset + most == attr.length + spare / 8 * 8;
    RoundUpWhole(attr.length, spare / 8);
  }

  lemma RoundUpWhole(n: nat, k: nat)
    ensures RoundUp8(n + k * 8) == RoundUp8(n) + k * 8
  {
  }

  lemma RoundUpMonotone(a: nat, b: nat)
    requires a <= b
    ensures RoundUp8(a) <= RoundUp8(b)
  {
  }

  /** Rewriting an aligned attribute leaves its capacity as it was. */
  lemma CapacityKept(fixed: Record, attr: Attribute, runs: seq<Run>)
    requires Placed(fixed, attr) && HeaderApart(fixed) && U16(fixed, 20) <= attr.offset
    requires Rewrite(fixed, attr, runs).Ok?
    requires U32(fixed, 24) <= Allocated(fixed) && attr.length % 8 == 0
    ensures PlanRewrite(fixed, attr, runs).Ok?
    ensures var out := Rewrite(fixed, attr, runs).value;
            var attr' := attr.(length := attr.length + PlanRewrite(fixed, attr, runs).value.1, runs := Coalesce(runs));
            Placed(out, attr') && U32(out, 24) <= Allocated(out) && Capacity(out, attr') == Capacity(fixed, attr)
  {
    hide U32, U16, Allocated, Rewrite, PlanRewrite, Encode, Coalesce, NewBytes, Growth;
    RewriteBody(fixed, attr, runs);
    RewriteAllocated(fixed, attr, runs);
    var growth := PlanRewrite(fixed, attr, runs).value.1;
    assert |Rewrite(fixed, attr, runs).value| == |fixed|;
    GrowthAligned(attr, |PlanRewrite(fixed, attr, runs).value.0|);
    SpareKept(Allocated(fixed) - U32(fixed, 24), growth);
  }

  lemma GrowthAligned(attr: Attribute, encoded: nat)
    requires attr.length % 8 == 0
    ensures Growth(attr, encoded) % 8 == 0
  {
  }

  lemma SpareKept(spare: nat, growth: nat)
    requires growth % 8 == 0 && growth <= spare
    ensures (spare - growth) / 8 * 8 + growth == spare / 8 * 8
  {
  }

  lemma RewriteAllocated(fixed: Record, attr: Attribute, runs: seq<Run>)
    requires Placed(fixed, attr) && Rewrite(fixed, attr, runs).Ok?
    ensures Allocated(Rewrite(fixed, attr, runs).value) == Allocated(fixed)
  {
    hide Encode, Coalesce, NewBytes, Growth, SumLengths;
    var out := Rewrite(fixed, attr, runs).value;
    forall k | 28 <= k < 32 ensures out[k] == fixed[k] {}
  }

  // ---- The rewrite, step by step ----------------------------------------------------------------------

  function Splice(b: seq<Byte>, at: nat, piece: seq<Byte>): (r: seq<Byte>)
    requires at + |piece| <= |b|
    ensures |r| == |b|
    ensures forall k | 0 <= k < |b| :: r[k] == if at <= k < at + |piece| then piece[k - at] else b[k]
  {
    b[..at] + piece + b[at + |piece|..]
  }

  /** The record after the following attributes moved up and both lengths grew. */
  ghost predicate Opened(fixed: Record, attr: Attribute, inUse: nat, growth: nat, b: Record)
    requires Placed(fixed, attr) && attr.offset + attr.length <= inUse && inUse + growth <= |fixed|
  {
    var end := attr.offset + attr.length;
    && |b| == |fixed|
    && (forall k | 0 <= k < end && !(24 <= k < 28) && !(attr.offset + 4 <= k < attr.offset + 8) :: b[k] == fixed[k])
    && (forall k | end <= k < inUse :: b[k + growth] == fixed[k])
    && (forall k | inUse + growth <= k < |fixed| :: b[k] == fixed[k])
    && (if growth > 0 then U32(b, 24) == inUse + growth && U32(b, attr.offset + 4) == attr.length + growth
        else forall k | 0 <= k < end :: b[k] == fixed[k])
  }

  lemma SameWord(a: seq<Byte>, i: nat, b: seq<Byte>, j: nat)
    requires i + 4 <= |a| && j + 4 <= |b| && U32(a, i) == U32(b, j)
    ensures a[i] == b[j] && a[i + 1] == b[j + 1] && a[i + 2] == b[j + 2] && a[i + 3] == b[j + 3]
  {
    HalfWord(a, i);
    HalfWord(a, i + 2);
    HalfWord(b, j);
    HalfWord(b, j + 2);
    hide U16;
    assert U16(a, i) == U16(b, j) && U16(a, i + 2) == U16(b, j + 2);
  }

  lemma HalfWord(a: seq<Byte>, i: nat)
    requires i + 2 <= |a|
    ensures U16(a, i) < 65536 && a[i] == U16(a, i) % 256 && a[i + 1] == U16(a, i) / 256
  {
  }

  lemma OpenedHead(fixed: Record, attr: Attribute, inUse: nat, growth: nat, b: Record, head: seq<Byte>)
    requires Placed(fixed, attr) && attr.offset + attr.length <= inUse && inUse + growth <= |fixed|
    requires inUse + growth < 0x1_0000_0000
    requires Opened(fixed, attr, inUse, growth, b)
    requires head == if growth > 0 then PutU32(fixed[..attr.offset], 24, inUse + growth) else fixed[..attr.offset]
    ensures b[..attr.offset] == head
  {
    hide U32;
    forall k | 0 <= k < attr.offset ensures b[k] == head[k] {
      if growth > 0 && 24 <= k < 28 { SameWord(b, 24, head, 24); }
    }
  }

  lemma {:induction false} OpenedBytes(fixed: Record, attr: Attribute, inUse: nat, growth: nat, b: Record,
                                       encoded: seq<Byte>)
    requires Placed(fixed, attr) && attr.offset + attr.length <= inUse && inUse + growth <= |fixed|
    requires Opened(fixed, attr, inUse, growth, b) && attr.runOffset + |encoded| <= attr.length + growth < 0x1_0000_0000
    ensures var was := fixed[attr.offset..attr.offset + attr.length];
            var bytes := NewBytes(was, attr.runOffset, encoded, growth);
            && b[attr.offset..attr.offset + attr.runOffset] == bytes[..attr.runOffset]
            && bytes[attr.runOffset..] == encoded + Zeros(attr.length + growth - attr.runOffset - |encoded|)
  {
    hide U32, NewBytes, Zeros;
    var was := fixed[attr.offset..attr.offset + attr.length];
    var bytes := NewBytes(was, attr.runOffset, encoded, growth);
    NewBytesAt(was, attr.runOffset, encoded, growth);
    if growth > 0 { SameWord(b, attr.offset + 4, bytes, 4); }
    forall k | 0 <= k < attr.runOffset ensures b[attr.offset + k] == bytes[k] {
      OpenedByte(fixed, attr, inUse, growth, b, was, bytes, encoded, k);
    }
    hide Opened;
    var x, y := b[attr.offset..attr.offset + attr.runOffset], bytes[..attr.runOffset];
    forall k | 0 <= k < attr.runOffset ensures x[k] == y[k] { assert x[k] == b[attr.offset + k]; }
  }

  lemma OpenedByte(fixed: Record, attr: Attribute, inUse: nat, growth: nat, b: Record, was: seq<Byte>, bytes: seq<Byte>,
                   encoded: seq<Byte>, k: nat)
    requires Placed(fixed, attr) && attr.offset + attr.length <= inUse && inUse + growth <= |fixed|
    requires Opened(fixed, attr, inUse, growth, b)
    requires was == fixed[attr.offset..attr.offset + attr.length]
    requires attr.runOffset + |encoded| <= attr.length + growth < 0x1_0000_0000
    requires bytes == NewBytes(was, attr.runOffset, encoded, growth) && k < attr.runOffset
    requires forall i | 0 <= i < attr.runOffset && !(4 <= i < 8) :: bytes[i] == was[i]
    requires growth > 0 ==>
      && b[attr.offset + 4] == bytes[4] && b[attr.offset + 5] == bytes[5] && b[attr.offset + 6] == bytes[6]
      && b[attr.offset + 7] == bytes[7]
    ensures b[attr.offset + k] == bytes[k]
  {
    hide U32, NewBytes;
    if growth > 0 && 4 <= k < 8 {
      assert k == 4 || k == 5 || k == 6 || k == 7;
    } else {
      assert was[k] == fixed[attr.offset + k];
      assert b[attr.offset + k] == was[k];
      if growth == 0 { SmallBytes(was, attr.runOffset, encoded, k); }
    }
  }

  lemma SmallBytes(b: seq<Byte>, runOffset: nat, encoded: seq<Byte>, k: nat)
    requires 64 <= runOffset <= |b| < 0x1_0000_0000 && runOffset + |encoded| <= |b| && k < runOffset
    ensures NewBytes(b, runOffset, encoded, 0)[k] == b[k]
  {
  }

  lemma OpenedRewrites(fixed: Record, attr: Attribute, runs: seq<Run>, encoded: seq<Byte>, growth: nat, inUse: nat,
                       b: Record)
    requires Placed(fixed, attr) && PlanRewrite(fixed, attr, runs) == Ok((encoded, growth)) && inUse == U32(fixed, 24)
    requires Opened(fixed, attr, inUse, growth, b)
    ensures attr.runOffset + |encoded| <= attr.length + growth && attr.offset + attr.length + growth <= |b|
    ensures Rewrite(fixed, attr, runs) ==
            Ok(Splice(b, attr.offset + attr.runOffset,
                      encoded + Zeros(attr.length + growth - attr.runOffset - |encoded|)))
  {
    hide U32, Growth, PlanRewrite, Opened, Allocated, Splice, Assemble;
    AllocatedSmall(fixed);
    GrowthFits(attr, |encoded|);
    assert |b| == |fixed| by { OpenedTail(fixed, attr, inUse, growth, b); }
    OpenedPieces(fixed, attr, encoded, growth, inUse, b);
  }

  lemma OpenedPieces(fixed: Record, attr: Attribute, encoded: seq<Byte>, growth: nat, inUse: nat, b: Record)
    requires Placed(fixed, attr) && attr.offset + attr.length <= inUse && inUse + growth <= |fixed| == |b|
    requires inUse + growth < 0x1_0000_0000
    requires Opened(fixed, attr, inUse, growth, b) && attr.runOffset + |encoded| <= attr.length + growth
    ensures Assemble(fixed, attr, encoded, growth, inUse) ==
            Splice(b, attr.offset + attr.runOffset, encoded + Zeros(attr.length + growth - attr.runOffset - |encoded|))
  {
    hide U32, NewBytes, Opened, PutU32, Splice, Zeros;
    var head := HeadOf(fixed, attr, growth, inUse);
    OpenedHead(fixed, attr, inUse, growth, b, head);
    hide HeadOf;
    var end := attr.offset + attr.length;
    var bytes := NewBytes(fixed[attr.offset..end], attr.runOffset, encoded, growth);
    assert Assemble(fixed, attr, encoded, growth, inUse) ==
           head + bytes + fixed[end..inUse] + fixed[inUse + growth..];
    hide Assemble;
    OpenedBytes(fixed, attr, inUse, growth, b, encoded);
    OpenedTail(fixed, attr, inUse, growth, b);
    var piece := encoded + Zeros(attr.length + growth - attr.runOffset - |encoded|);
    Pieces(b, head, bytes, piece, fixed[end..inUse], fixed[inUse + growth..], attr.offset, attr.runOffset);
  }

  lemma OpenedTail(fixed: Record, attr: Attribute, inUse: nat, growth: nat, b: Record)
    requires Placed(fixed, attr) && attr.offset + attr.length <= inUse && inUse + growth <= |fixed|
    requires Opened(fixed, attr, inUse, growth, b)
    ensures |b| == |fixed|
    ensures var end := attr.offset + attr.length;
      b[end + growth..inUse + growth] == fixed[end..inUse] && b[inUse + growth..] == fixed[inUse + growth..]
  {
    hide U32;
    var end := attr.offset + attr.length;
    var x, y := b[end + growth..inUse + growth], fixed[end..inUse];
    forall k | 0 <= k < |y| ensures x[k] == y[k] {
      assert fixed[end + k] == b[end + k + growth];
    }
  }

  lemma Pieces(b: seq<Byte>, head: seq<Byte>, bytes: seq<Byte>, piece: seq<Byte>, tail: seq<Byte>, rest: seq<Byte>,
               at: nat, runOffset: nat)
    requires runOffset <= |bytes| && |head| == at && at + |bytes| + |tail| + |rest| == |b| && b[..at] == head
    requires b[at..at + runOffset] == bytes[..runOffset] && bytes[runOffset..] == piece
    requires tail == b[at + |bytes|..at + |bytes| + |tail|] && rest == b[at + |bytes| + |tail|..]
    ensures head + bytes + tail + rest == Splice(b, at + runOffset, piece)
  {
    assert bytes == bytes[..runOffset] + piece;
    assert tail + rest == b[at + |bytes|..];
    assert head + bytes[..runOffset] == b[..at + runOffset];
  }

  /** _updated_record_runs: open a gap when the runlist grew, store it, prepare fixups. */
  method UpdatedRecordRuns(fixed: Record, attr: Attribute, newRuns: seq<Run>, size: nat) returns (r: Result<Record>)
    requires Placed(fixed, attr) && RecordSized(|fixed|, size)
    ensures r == UpdatedRecord(fixed, attr, newRuns, size)
  {
    hide U32, Coalesce, Encode, SumLengths, Rewrite, Prepare;
    var normalized := CoalesceRuns(newRuns);
    if SumLengths(normalized) != attr.highestVcn - attr.lowestVcn + 1 {
      assert PlanRewrite(fixed, attr, newRuns).Error?;
      RewriteNeedsPlan(fixed, attr, newRuns);
      return Error;
    }
    var encoding := EncodeRunlist(normalized);
    RewriteNeedsPlan(fixed, attr, newRuns);
    if encoding.Error? { return Error; }
    var encoded := encoding.value;
    var growth := Growth(attr, |encoded|);
    var inUse, room, end := U32(fixed, 24), Allocated(fixed), attr.offset + attr.length;
    if inUse > room || end > inUse { return Error; }
    if inUse + growth > room { return Error; }
    AllocatedSmall(fixed);
    var b := OpenUp(fixed, attr, inUse, growth);
    hide Opened, PlanRewrite, Splice;
    OpenedRewrites(fixed, attr, newRuns, encoded, growth, inUse, b);
    b := Splice(b, attr.offset + attr.runOffset, encoded + Zeros(attr.length + growth - attr.runOffset - |encoded|));
    r := PrepareFixups(b, size);
  }

  /** Move the following attributes up and store both new lengths, when the attribute grows. */
  method OpenUp(fixed: Record, attr: Attribute, inUse: nat, growth: nat) returns (b: Record)
    requires Placed(fixed, attr) && attr.offset + attr.length <= inUse && inUse + growth <= |fixed|
    requires inUse + growth < 0x1_0000_0000
    ensures Opened(fixed, attr, inUse, growth, b)
  {
    hide U32, Splice, PutU32;
    var end := attr.offset + attr.length;
    b := fixed;
    if growth > 0 {
      b := Splice(b, end + growth, b[end..inUse]);
      b := Splice(b, end, Zeros(growth));
      b := PutU32(b, attr.offset + 4, attr.length + growth);
      b := PutU32(b, 24, inUse + growth);
      OpenGap(fixed, attr, inUse, growth, b);
    }
  }

  lemma RewriteNeedsPlan(fixed: Record, attr: Attribute, runs: seq<Run>)
    requires Placed(fixed, attr)
    ensures Rewrite(fixed, attr, runs).Ok? <==> PlanRewrite(fixed, attr, runs).Ok?
  {
    hide PlanRewrite;
  }

  lemma OpenGap(fixed: Record, attr: Attribute, inUse: nat, growth: nat, b: Record)
    requires Placed(fixed, attr) && attr.offset + attr.length <= inUse && growth > 0 && inUse + growth <= |fixed|
    requires inUse + growth < 0x1_0000_0000
    requires var end := attr.offset + attr.length;
             b ==
               PutU32(PutU32(Splice(Splice(fixed, end + growth, fixed[end..inUse]), end, Zeros(growth)),
                             attr.offset + 4, attr.length + growth), 24, inUse + growth)
    ensures Opened(fixed, attr, inUse, growth, b)
  {
    hide PutU32, Splice;
    var end := attr.offset + attr.length;
    var s1 := Splice(fixed, end + growth, fixed[end..inUse]);
    var s2 := Splice(s1, end, Zeros(growth));
    var s3 := PutU32(s2, attr.offset + 4, attr.length + growth);
    forall k | end <= k < inUse ensures b[k + growth] == fixed[k] {
      assert s1[k + growth] == fixed[end..inUse][k - end];
    }
    WordKept(s3, b, attr.offset + 4);
  }

  lemma WordKept(a: seq<Byte>, b: seq<Byte>, at: nat)
    requires at + 4 <= |a| == |b| && forall k | at <= k < at + 4 :: a[k] == b[k]
    ensures U32(a, at) == U32(b, at)
  {
  }

  // ---- Torn record writes ---------------------------------------------------------------------------

  /** While the record is being replaced, a device holding sectors of both images
      holds a record that every reader rejects. */
  lemma SwitchIsDetected(raw: Record, attr: Attribute, runs: seq<Run>, size: nat, x: Record)
    requires ArrayApart(raw, size) && Apply(raw, size).Ok? && U16(raw, 4) + 2 <= size
    requires ArrayApart(Apply(raw, size).value, size) && Placed(Apply(raw, size).value, attr)
    requires U16(Apply(raw, size).value, 20) <= attr.offset
    requires UpdatedRecord(Apply(raw, size).value, attr, runs, size).Ok?
    requires TornRecord(x, raw, UpdatedRecord(Apply(raw, size).value, attr, runs, size).value, U16(raw, 6), size)
    ensures x == raw || x == UpdatedRecord(Apply(raw, size).value, attr, runs, size).value || Apply(x, size).Error?
  {
    var fixed := Apply(raw, size).value;
    var out := Rewrite(fixed, attr, runs).value;
    ReadKeepsNumber(raw, size);
    RewriteHead(fixed, attr, runs, size);
    NumberUnwritten(fixed, attr, runs);
    PreparedImage(out, size);
    FixupsRoundTrip(out, size);
    hide Apply, Prepare, Rewrite, Shaped, Framed, ArrayFits;
    TornIsDetected(x, raw, Prepare(out, size).value, size);
  }

  lemma NumberUnwritten(fixed: Record, attr: Attribute, runs: seq<Run>)
    requires Placed(fixed, attr) && HeaderApart(fixed) && U16(fixed, 20) <= attr.offset
    requires Rewrite(fixed, attr, runs).Ok?
    requires 32 <= U16(fixed, 4) && U16(fixed, 4) + 2 <= U16(fixed, 20)
    ensures var out := Rewrite(fixed, attr, runs).value;
            && U16(out, 4) == U16(fixed, 4) && U16(out, 6) == U16(fixed, 6)
            && U16(out, U16(fixed, 4)) == U16(fixed, U16(fixed, 4))
  {
    hide Encode, Coalesce, NewBytes, Growth, SumLengths, U32;
    var out := Rewrite(fixed, attr, runs).value;
    forall k | 0 <= k < attr.offset && !(24 <= k < 28) ensures out[k] == fixed[k] {}
    LowWords(fixed, out);
  }
}
