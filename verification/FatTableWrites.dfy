/** Writing the FAT: single entries, and FAT32 updates batched by sector. */
module FatTableWrites {
  import opened Basics
  import opened Arithmetic
  import opened FatTable
  import FatVolume

  datatype Update = Update(cluster: nat, value: nat)

  function Entries(kind: Kind, raw: seq<Byte>): (s: seq<nat>)
    ensures |s| == EntryCount(kind, |raw|) && forall e: nat | e < |s| :: s[e] == Decode(kind, raw, e)
  {
    seq(EntryCount(kind, |raw|), e requires 0 <= e < EntryCount(kind, |raw|) => Decode(kind, raw, e))
  }

  ghost predicate Inside(updates: seq<Update>, count: nat) {
    forall n | 0 <= n < |updates| :: updates[n].cluster < count
  }

  /** The updates, in order, on the table as a map from cluster to value. */
  function Fold(kind: Kind, table: seq<nat>, updates: seq<Update>): (s: seq<nat>)
    requires Inside(updates, |table|)
    ensures |s| == |table|
  {
    if updates == [] then table
    else
      var last := updates[|updates| - 1];
      Fold(kind, table, updates[..|updates| - 1])[last.cluster := last.value % Range(kind)]
  }

  /** The updates, in order, as single-entry writes to one copy. */
  function PutAll(kind: Kind, raw: seq<Byte>, updates: seq<Update>): (r: seq<Byte>)
    requires Inside(updates, EntryCount(kind, |raw|))
    ensures |r| == |raw|
  {
    if updates == [] then raw
    else
      var last := updates[|updates| - 1];
      Put(kind, PutAll(kind, raw, updates[..|updates| - 1]), last.cluster, last.value)
  }

  lemma {:induction false} FoldSnoc(kind: Kind, table: seq<nat>, updates: seq<Update>, n: nat)
    requires n < |updates| && Inside(updates[..n + 1], |table|)
    ensures Inside(updates[..n], |table|)
    ensures Fold(kind, table, updates[..n + 1]) ==
      Fold(kind, table, updates[..n])[updates[n].cluster := updates[n].value % Range(kind)]
  {
    var more := updates[..n + 1];
    assert more[..n] == updates[..n] && more[n] == updates[n];
  }

  lemma {:induction false} PutAllSnoc(kind: Kind, raw: seq<Byte>, updates: seq<Update>, n: nat)
    requires n < |updates| && Inside(updates[..n + 1], EntryCount(kind, |raw|))
    ensures Inside(updates[..n], EntryCount(kind, |raw|))
    ensures PutAll(kind, raw, updates[..n + 1]) ==
      Put(kind, PutAll(kind, raw, updates[..n]), updates[n].cluster, updates[n].value)
  {
    var more := updates[..n + 1];
    assert more[..n] == updates[..n] && more[n] == updates[n];
  }

  /** Single-entry writes refine the map: the decoded copy is the folded table. */
  lemma {:induction false} PutAllDecodes(kind: Kind, raw: seq<Byte>, updates: seq<Update>)
    requires Inside(updates, EntryCount(kind, |raw|))
    ensures Entries(kind, PutAll(kind, raw, updates)) == Fold(kind, Entries(kind, raw), updates)
    decreases |updates|
  {
    hide Put, Decode;
    if updates != [] {
      var n := |updates| - 1;
      var earlier := PutAll(kind, raw, updates[..n]);
      PutAllDecodes(kind, raw, updates[..n]);
      var c, v := updates[n].cluster, updates[n].value;
      forall e: nat | e < EntryCount(kind, |raw|)
        ensures Decode(kind, Put(kind, earlier, c, v), e) == Entries(kind, earlier)[c := v % Range(kind)][e]
      {
        PutUpdatesOne(kind, earlier, c, v, e);
      }
    }
  }

  /** Folding acts entry by entry. */
  lemma {:induction false} FoldAt(kind: Kind, a: seq<nat>, b: seq<nat>, updates: seq<Update>, e: nat)
    requires |a| == |b| && Inside(updates, |a|) && e < |a| && a[e] == b[e]
    ensures Fold(kind, a, updates)[e] == Fold(kind, b, updates)[e]
    decreases |updates|
  {
    if updates != [] { FoldAt(kind, a, b, updates[..|updates| - 1], e); }
  }

  lemma {:induction false} FoldUntouched(kind: Kind, table: seq<nat>, updates: seq<Update>, e: nat)
    requires Inside(updates, |table|) && e < |table| && forall n | 0 <= n < |updates| :: updates[n].cluster != e
    ensures Fold(kind, table, updates)[e] == table[e]
    decreases |updates|
  {
    if updates != [] { FoldUntouched(kind, table, updates[..|updates| - 1], e); }
  }

  // ---- Sectors ---------------------------------------------------------------------------------

  lemma SectorRange(x: nat, size: nat, first: nat, n: nat)
    requires size >= 1
    ensures first <= x / size < first + n <==> size * first <= x < size * (first + n)
  {
    SectorFrom(x, size, first);
    SectorFrom(x, size, first + n);
  }

  lemma SectorFrom(x: nat, size: nat, first: nat)
    requires size >= 1
    ensures first <= x / size <==> size * first <= x
  {
    var q := x / size;
    assert x == size * q + x % size;
    if first <= q { Times(first, q, size); }
    if size * first <= x { Quotient(first, q, size); }
  }

  lemma Below(q: nat, n: nat, size: nat)
    requires size * q < size * n
    ensures q < n
  {
    if n <= q { Times(n, q, size); }
  }

  /** A sector that holds part of the table lies inside it. */
  lemma SectorInside(x: nat, size: nat, total: nat)
    requires size >= 1 && x < total && total % size == 0
    ensures size * (x / size) + size <= total
  {
    var q, n := x / size, total / size;
    assert x == size * q + x % size && total == size * n;
    Below(q, n, size);
    Times(q + 1, n, size);
  }

  ghost predicate Rising(s: seq<nat>) {
    forall i, j | 0 <= i < j < |s| :: s[i] < s[j]
  }

  method SortUnique(sectors: seq<nat>) returns (s: seq<nat>)
    ensures Rising(s) && forall x :: x in s <==> x in sectors
  {
    s := [];
    for i := 0 to |sectors|
      invariant Rising(s) && forall x :: x in s <==> x in sectors[..i]
    {
      var k := 0;
      while k < |s| && s[k] < sectors[i]
        invariant k <= |s| && forall n | 0 <= n < k :: s[n] < sectors[i]
      {
        k := k + 1;
      }
      assert sectors[..i + 1] == sectors[..i] + [sectors[i]];
      if k == |s| || s[k] != sectors[i] {
        InsertRising(s, k, sectors[i]);
        s := s[..k] + [sectors[i]] + s[k..];
      }
    }
    assert sectors[..|sectors|] == sectors;
  }

  lemma {:induction false} InsertRising(s: seq<nat>, k: nat, x: nat)
    requires k <= |s| && Rising(s) && (forall n | 0 <= n < k :: s[n] < x) && (k < |s| ==> x < s[k])
    ensures Rising(s[..k] + [x] + s[k..])
    ensures forall y :: y in s[..k] + [x] + s[k..] <==> y in s || y == x
  {
    assert s == s[..k] + s[k..];
  }

  // ---- One run of sectors -------------------------------------------------------------------------

  ghost predicate Spelled(words: seq<Byte>, fat: seq<nat>, first: nat) {
    && |words| % 4 == 0 && first + |words| / 4 <= |fat|
    && forall j: nat | j < |words| / 4 :: Read32(words, 4 * j) == fat[first + j]
  }

  lemma WordBack(v: nat)
    requires v < 0x1_0000_0000
    ensures Read32(Bytes32(v), 0) == v
  {
    Powers();
    ReadBack(FatVolume.Fat32, [0, 0, 0, 0], 0, v);
    assert Splice([0, 0, 0, 0], 0, Bytes32(v)) == Bytes32(v);
  }

  lemma {:induction false} MoreWords(words: seq<Byte>, fat: seq<nat>, first: nat)
    requires Spelled(words, fat, first) && first + |words| / 4 < |fat| && fat[first + |words| / 4] < 0x1_0000_0000
    ensures Spelled(words + Bytes32(fat[first + |words| / 4]), fat, first)
  {
    hide Bytes32;
    var v := fat[first + |words| / 4];
    var more := words + Bytes32(v);
    WordBack(v);
    forall j: nat | j < |more| / 4 ensures Read32(more, 4 * j) == fat[first + j] {
      if j < |words| / 4 {
        SameWord(more, 4 * j, words, 4 * j);
      } else {
        SameWord(more, 4 * j, Bytes32(v), 0);
      }
    }
  }

  lemma SameWord(a: seq<Byte>, i: nat, b: seq<Byte>, j: nat)
    requires i + 4 <= |a| && j + 4 <= |b| && a[i] == b[j] && a[i + 1] == b[j + 1] && a[i + 2] == b[j + 2]
    requires a[i + 3] == b[j + 3]
    ensures Read32(a, i) == Read32(b, j)
  {
  }

  method WordsOf(fat: seq<nat>, first: nat, n: nat) returns (words: seq<Byte>)
    requires first + n <= |fat| && forall e | 0 <= e < |fat| :: fat[e] < 0x1_0000_0000
    ensures |words| == 4 * n && Spelled(words, fat, first)
  {
    hide Spelled;
    words := [];
    assert Spelled(words, fat, first) by { NoWords(fat, first); }
    for j := 0 to n
      invariant |words| == 4 * j && Spelled(words, fat, first)
    {
      MoreWords(words, fat, first);
      words := words + Bytes32(fat[first + j]);
    }
  }

  lemma NoWords(fat: seq<nat>, first: nat)
    requires first <= |fat|
    ensures Spelled([], fat, first)
  {
  }

  /** Whole sectors of the table hold the loaded entries, the others what they held. */
  ghost predicate Rewritten(before: seq<Byte>, after: seq<Byte>, fat: seq<nat>, sectors: seq<nat>, size: nat) {
    && size >= 1 && |after| == |before| && |before| / 4 <= |fat|
    && forall e: nat | e < |before| / 4 ::
         Read32(after, 4 * e) == if 4 * e / size in sectors then fat[e] else Read32(before, 4 * e)
  }

  lemma SplicedWord(raw: seq<Byte>, off: nat, words: seq<Byte>, fat: seq<nat>, e: nat)
    requires off % 4 == 0 && off + |words| <= |raw| && Spelled(words, fat, off / 4) && e < |raw| / 4
    ensures Read32(Splice(raw, off, words), 4 * e) ==
      if off <= 4 * e < off + |words| then fat[e] else Read32(raw, 4 * e)
  {
    hide Read32;
    var after := Splice(raw, off, words);
    if off <= 4 * e < off + |words| {
      var j := e - off / 4;
      assert Read32(words, 4 * j) == fat[off / 4 + j];
      SameWord(after, 4 * e, words, 4 * j);
    } else {
      SameWord(after, 4 * e, raw, 4 * e);
    }
  }

  /** One pwrite of a run extends the rewritten sectors by the run. */
  lemma {:induction false} RunRewrites(before: seq<Byte>, raw: seq<Byte>, fat: seq<nat>, done: seq<nat>, size: nat,
                                       first: nat, n: nat, words: seq<Byte>, all: seq<nat>)
    requires Rewritten(before, raw, fat, done, size) && size % 4 == 0
    requires |words| == size * n && size * first + |words| <= |raw| && (size * first) % 4 == 0
    requires Spelled(words, fat, size * first / 4)
    requires forall x :: x in all <==> x in done || first <= x < first + n
    ensures Rewritten(before, Splice(raw, size * first, words), fat, all, size)
  {
    hide Read32, Splice, Spelled;
    var off := size * first;
    forall e: nat | e < |before| / 4
      ensures Read32(Splice(raw, off, words), 4 * e) == if 4 * e / size in all then fat[e] else Read32(before, 4 * e)
    {
      SplicedWord(raw, off, words, fat, e);
      SectorRange(4 * e, size, first, n);
      assert size * (first + n) == off + |words|;
    }
  }

  // ---- The loaded table and its copies on disk ----------------------------------------------------

  method DecodeAll(kind: Kind, raw: seq<Byte>) returns (fat: seq<nat>)
    ensures fat == Entries(kind, raw)
  {
    hide Decode;
    fat := [];
    for e := 0 to EntryCount(kind, |raw|)
      invariant |fat| == e && forall n: nat | n < e :: fat[n] == Decode(kind, raw, n)
    {
      fat := fat + [Decode(kind, raw, e)];
    }
  }

  lemma DecodeBound(kind: Kind, raw: seq<Byte>, e: nat)
    requires e < EntryCount(kind, |raw|)
    ensures Decode(kind, raw, e) < Range(kind)
  {
  }

  function SectorsOf(updates: seq<Update>, size: nat): (s: seq<nat>)
    requires size >= 1
    ensures |s| == |updates| && forall n: nat | n < |s| :: s[n] == 4 * updates[n].cluster / size
  {
    seq(|updates|, n requires 0 <= n < |updates| => 4 * updates[n].cluster / size)
  }

  ghost predicate Small(fat: seq<nat>) { forall e | 0 <= e < |fat| :: fat[e] < 0x1000_0000 }

  lemma {:induction false} FoldSmall(fat: seq<nat>, updates: seq<Update>)
    requires Small(fat) && Inside(updates, |fat|)
    ensures Small(Fold(FatVolume.Fat32, fat, updates))
    decreases |updates|
  {
    if updates != [] { FoldSmall(fat, updates[..|updates| - 1]); }
  }

  /** A sector-batched update decodes, wherever the copy agreed with the loaded table, to the folded table. */
  lemma {:induction false} BatchDecodes(before: seq<Byte>, after: seq<Byte>, fat: seq<nat>, updates: seq<Update>,
                                        size: nat, e: nat)
    requires size >= 1 && Small(fat) && |fat| == |before| / 4 && Inside(updates, |fat|) && e < |fat|
    requires Rewritten(before, after, Fold(FatVolume.Fat32, fat, updates), SectorsOf(updates, size), size)
    requires Decode(FatVolume.Fat32, before, e) == fat[e]
    ensures Decode(FatVolume.Fat32, after, e) == Fold(FatVolume.Fat32, fat, updates)[e]
  {
    hide Read32, SectorsOf, Fold;
    FoldSmall(fat, updates);
    if 4 * e / size !in SectorsOf(updates, size) {
      forall n | 0 <= n < |updates| ensures updates[n].cluster != e {
        assert SectorsOf(updates, size)[n] in SectorsOf(updates, size);
      }
      FoldUntouched(FatVolume.Fat32, fat, updates, e);
    }
  }

  lemma {:induction false} PutAllReserved(raw: seq<Byte>, updates: seq<Update>, e: nat)
    requires Inside(updates, |raw| / 4) && e < |raw| / 4
    ensures Nibble(PutAll(FatVolume.Fat32, raw, updates), 8 * e + 7) == Nibble(raw, 8 * e + 7)
    decreases |updates|
  {
    hide Put, Nibble, Digit;
    if updates != [] {
      var n := |updates| - 1;
      PutAllReserved(raw, updates[..n], e);
      PutChangesOwn(FatVolume.Fat32, PutAll(FatVolume.Fat32, raw, updates[..n]), updates[n].cluster, updates[n].value,
                    8 * e + 7);
    }
  }

  lemma TopNibble(raw: seq<Byte>, e: nat)
    requires e < |raw| / 4
    ensures Read32(raw, 4 * e) / 0x1000_0000 == Nibble(raw, 8 * e + 7)
  {
    assert (8 * e + 7) / 2 == 4 * e + 3;
  }

  /** The two ways of writing differ in the reserved bits: single writes keep them, a
      batch clears them in the sectors it writes. */
  lemma {:induction false} ReservedBits(before: seq<Byte>, after: seq<Byte>, fat: seq<nat>, updates: seq<Update>,
                                        size: nat, e: nat)
    requires size >= 1 && Small(fat) && |fat| == |before| / 4 && Inside(updates, |fat|) && e < |fat|
    requires Rewritten(before, after, Fold(FatVolume.Fat32, fat, updates), SectorsOf(updates, size), size)
    ensures Read32(PutAll(FatVolume.Fat32, before, updates), 4 * e) / 0x1000_0000 == Read32(before, 4 * e) / 0x1000_0000
    ensures Read32(after, 4 * e) / 0x1000_0000 ==
      if 4 * e / size in SectorsOf(updates, size) then 0 else Read32(before, 4 * e) / 0x1000_0000
  {
    hide Read32, SectorsOf, Fold, PutAll, Nibble;
    FoldSmall(fat, updates);
    PutAllReserved(before, updates, e);
    TopNibble(before, e);
    TopNibble(PutAll(FatVolume.Fat32, before, updates), e);
  }

  class Tables {
    const kind: Kind
    const size: nat
    const sectorSize: nat
    const active: nat
    const mirrored: bool
    const recovering: bool
    var copies: seq<seq<Byte>>
    var fat: seq<nat>

    /** The loaded table is the decoded active copy. */
    ghost predicate Valid()
      reads this
    {
      && active < |copies| && (forall k | 0 <= k < |copies| :: |copies[k]| == size)
      && (kind.Fat32? ==> sectorSize >= 1 && sectorSize % 4 == 0 && size % sectorSize == 0)
      && fat == Entries(kind, copies[active])
    }

    predicate Written(k: nat) { mirrored || k == active }

    constructor (kind: Kind, sectorSize: nat, copies: seq<seq<Byte>>, active: nat, mirrored: bool, recovering: bool)
      requires active < |copies| && forall k | 0 <= k < |copies| :: |copies[k]| == |copies[active]|
      requires kind.Fat32? ==> sectorSize >= 1 && sectorSize % 4 == 0 && |copies[active]| % sectorSize == 0
      ensures Valid() && this.copies == copies && this.kind == kind && this.active == active
      ensures this.mirrored == mirrored
    {
      this.kind, this.size, this.sectorSize := kind, |copies[active]|, sectorSize;
      this.active, this.mirrored, this.recovering := active, mirrored, recovering;
      this.copies := copies;
      var fat := DecodeAll(kind, copies[active]);
      this.fat := fat;
    }

    /** fat32_write_entry */
    method WriteEntry(c: nat, v: nat) returns (ok: bool)
      requires Valid()
      modifies this
      ensures Valid() && ok == (c < EntryCount(kind, size)) && |copies| == |old(copies)| && |fat| == |old(fat)|
      ensures !ok ==> copies == old(copies) && fat == old(fat)
      ensures ok ==> fat == old(fat)[c := v % Range(kind)]
      ensures ok ==>
        forall k: nat | k < |copies| ::
          copies[k] == if mirrored || k == active then Put(kind, old(copies)[k], c, v) else old(copies)[k]
    {
      hide Put, Decode;
      if c >= |fat| { return false; }
      for k := 0 to |copies|
        invariant |copies| == |old(copies)| && fat == old(fat)
        invariant forall n: nat | n < |copies| ::
          copies[n] == if n < k && Written(n) then Put(kind, old(copies)[n], c, v) else old(copies)[n]
      {
        if Written(k) { copies := copies[k := Put(kind, copies[k], c, v)]; }
      }
      forall e: nat | e < |fat| ensures Decode(kind, copies[active], e) == fat[c := v % Range(kind)][e] {
        PutUpdatesOne(kind, old(copies)[active], c, v, e);
      }
      fat := fat[c := v % Range(kind)];
      ok := true;
    }

    method WriteSingly(updates: seq<Update>) returns (ok: bool, ghost done: nat)
      requires Valid()
      modifies this
      ensures Valid() && |copies| == |old(copies)| && |fat| == |old(fat)|
      ensures done <= |updates| && Inside(updates[..done], EntryCount(kind, size))
      ensures if ok then done == |updates| else done < |updates| && updates[done].cluster >= EntryCount(kind, size)
      ensures fat == Fold(kind, old(fat), updates[..done])
      ensures forall k: nat | k < |copies| ::
        copies[k] == if Written(k) then PutAll(kind, old(copies)[k], updates[..done]) else old(copies)[k]
    {
      hide Put, Decode, PutAll, Fold, Entries, Inside;
      done := 0;
      assert Inside(updates[..0], EntryCount(kind, size)) by { InsideNone(updates, EntryCount(kind, size)); }
      NothingWritten(kind, fat, copies);
      assert updates[..0] == [];
      for i := 0 to |updates|
        invariant Valid() && done == i && |copies| == |old(copies)| && |fat| == |old(fat)|
        invariant Inside(updates[..i], EntryCount(kind, size))
        invariant fat == Fold(kind, old(fat), updates[..i])
        invariant forall k: nat | k < |copies| ::
          copies[k] == if Written(k) then PutAll(kind, old(copies)[k], updates[..i]) else old(copies)[k]
      {
        ok := WriteEntry(updates[i].cluster, updates[i].value);
        if !ok { return; }
        InsideSnoc(updates, i, EntryCount(kind, size));
        FoldSnoc(kind, old(fat), updates, i);
        forall k: nat | k < |copies| && Written(k) ensures copies[k] == PutAll(kind, old(copies)[k], updates[..i + 1]) {
          PutAllSnoc(kind, old(copies)[k], updates, i);
        }
        done := i + 1;
      }
      ok := true;
    }

    /** Every copy that is written holds the loaded entries in `sectors`; the others are as before. */
    ghost predicate Progress(before: seq<seq<Byte>>, sectors: seq<nat>)
      reads this
    {
      && |copies| == |before|
      && forall k: nat | k < |copies| ::
           if Written(k) then Rewritten(before[k], copies[k], fat, sectors, sectorSize) else copies[k] == before[k]
    }

    /** The pwrites of one run of consecutive sectors. */
    method WriteRun(first: nat, n: nat, ghost before: seq<seq<Byte>>, ghost done: seq<nat>, ghost all: seq<nat>)
      requires sectorSize >= 1 && sectorSize % 4 == 0 && sectorSize * first + sectorSize * n <= size
      requires |fat| == size / 4 && Small(fat)
      requires (forall k | 0 <= k < |before| :: |before[k]| == size) && Progress(before, done)
      requires forall x :: x in all <==> x in done || first <= x < first + n
      modifies this`copies
      ensures Progress(before, all)
    {
      hide Splice, Rewritten, Spelled;
      FourDivides(sectorSize, first);
      FourDivides(sectorSize, n);
      var words := WordsOf(fat, sectorSize * first / 4, sectorSize * n / 4);
      ghost var start := copies;
      for k := 0 to |copies|
        invariant |copies| == |start| == |before|
        invariant forall m: nat | k <= m < |copies| :: copies[m] == start[m]
        invariant forall m: nat | m < k ::
          if Written(m) then Rewritten(before[m], copies[m], fat, all, sectorSize) else copies[m] == before[m]
      {
        if Written(k) {
          assert Rewritten(before[k], copies[k], fat, done, sectorSize);
          SizeKept(before[k], copies[k], fat, done, sectorSize);
          RunRewrites(before[k], copies[k], fat, done, sectorSize, first, n, words, all);
          copies := copies[k := Splice(copies[k], sectorSize * first, words)];
        }
      }
    }

    /** fat32_apply_updates, sector-batched: the loaded table is updated first, then whole
        sectors are written from it. */
    method WriteBatched(updates: seq<Update>) returns (ok: bool)
      requires Valid() && kind.Fat32?
      modifies this
      ensures ok <==> Inside(updates, size / 4)
      ensures !ok ==> copies == old(copies)
      ensures ok ==> fat == Fold(kind, old(fat), updates) && Progress(old(copies), SectorsOf(updates, sectorSize))
    {
      hide Rewritten, Fold, Entries, Decode, SectorsOf;
      assert Small(fat) by { LoadedSmall(copies[active], fat); }
      ok := LoadUpdates(updates);
      if !ok { return; }
      var unique := SortUnique(SectorsOf(updates, sectorSize));
      var start := 0;
      forall k: nat | k < |copies| ensures Rewritten(copies[k], copies[k], fat, unique[..0], sectorSize) {
        NothingRewritten(copies[k], fat, unique, sectorSize);
      }
      while start < |unique|
        invariant start <= |unique| && Progress(old(copies), unique[..start])
        invariant fat == Fold(kind, old(fat), updates) && |fat| == size / 4 && Small(fat)
      {
        var end := start + 1;
        while end < |unique| && unique[end] == unique[end - 1] + 1
          invariant start < end <= |unique| && forall i | start <= i < end :: unique[i] == unique[start] + (i - start)
        {
          end := end + 1;
        }
        RunInside(updates, unique, start, end, sectorSize, size);
        RunMembers(unique, start, end);
        WriteRun(unique[start], end - start, old(copies), unique[..start], unique[..end]);
        start := end;
      }
      assert unique[..|unique|] == unique;
      forall k: nat | k < |copies| && Written(k)
        ensures Rewritten(old(copies)[k], copies[k], fat, SectorsOf(updates, sectorSize), sectorSize)
      {
        assert Rewritten(old(copies)[k], copies[k], fat, unique, sectorSize);
        SameSectors(old(copies)[k], copies[k], fat, unique, SectorsOf(updates, sectorSize), sectorSize);
      }
    }

    method LoadUpdates(updates: seq<Update>) returns (ok: bool)
      requires kind.Fat32? && Small(fat)
      modifies this`fat
      ensures ok <==> Inside(updates, |old(fat)|)
      ensures ok ==> fat == Fold(kind, old(fat), updates) && |fat| == |old(fat)| && Small(fat)
    {
      hide Fold;
      NothingWritten(kind, fat, []);
      assert updates[..0] == [];
      for i := 0 to |updates|
        invariant Inside(updates[..i], |old(fat)|) && |fat| == |old(fat)| && Small(fat)
        invariant fat == Fold(kind, old(fat), updates[..i])
      {
        var c, v := updates[i].cluster, updates[i].value;
        if c >= |fat| { return false; }
        FoldSnoc(kind, old(fat), updates, i);
        fat := fat[c := fat[c] / 0x1000_0000 * 0x1000_0000 + v % 0x1000_0000];
      }
      assert updates[..|updates|] == updates;
      ok := true;
    }

    /** Which way the updates are written. */
    ghost predicate Singly(updates: seq<Update>)
      reads this
    {
      updates == [] || !kind.Fat32? || (recovering && mirrored)
    }

    /** fat32_apply_updates: however it writes, a copy decodes to the folded table at every
        entry where it agreed with the loaded one. */
    method ApplyUpdates(updates: seq<Update>) returns (ok: bool)
      requires Valid()
      modifies this
      ensures |copies| == |old(copies)| && (ok <==> Inside(updates, EntryCount(kind, size)))
      ensures ok ==> Valid() && |fat| == |old(fat)| && fat == Fold(kind, old(fat), updates)
      ensures ok ==> forall k: nat | k < |copies| && !mirrored && k != active :: copies[k] == old(copies)[k]
      ensures ok && Singly(updates) ==>
        forall k: nat | k < |copies| && Written(k) :: copies[k] == PutAll(kind, old(copies)[k], updates)
      ensures ok && !Singly(updates) ==> Progress(old(copies), SectorsOf(updates, sectorSize))
      ensures ok ==>
        forall k: nat, e: nat | k < |copies| && Written(k) && e < |fat| &&
          Decode(kind, old(copies)[k], e) == old(fat)[e] ::
          |copies[k]| == size &&
          Decode(kind, copies[k], e) == fat[e] == Decode(kind, PutAll(kind, old(copies)[k], updates), e)
    {
      hide Rewritten, Fold, Decode, Put, PutAll, SectorsOf;
      ghost var before, table := copies, fat;
      if updates == [] {
        NothingWritten(kind, fat, copies);
        return true;
      }
      if !kind.Fat32? || (recovering && mirrored) {
        ghost var done: nat;
        ok, done := WriteSingly(updates);
        assert updates[..|updates|] == updates;
        if ok { SinglyDecodes(before, table, updates); }
        return;
      }
      assert Small(fat) by { LoadedSmall(copies[active], fat); }
      ok := WriteBatched(updates);
      if ok { BatchedDecodes(before, table, updates); }
    }

    lemma SinglyDecodes(before: seq<seq<Byte>>, table: seq<nat>, updates: seq<Update>)
      requires |before| == |copies| && (forall k | 0 <= k < |before| :: |before[k]| == size)
      requires |table| == EntryCount(kind, size) && Inside(updates, |table|)
      requires fat == Fold(kind, table, updates)
      requires forall k: nat | k < |copies| && Written(k) :: copies[k] == PutAll(kind, before[k], updates)
      ensures forall k: nat, e: nat | k < |copies| && Written(k) && e < |fat| &&
        Decode(kind, before[k], e) == table[e] ::
        |copies[k]| == size &&
        Decode(kind, copies[k], e) == fat[e] == Decode(kind, PutAll(kind, before[k], updates), e)
    {
      hide Fold, Decode, Put, PutAll;
      forall k: nat, e: nat | k < |copies| && Written(k) && e < |fat| && Decode(kind, before[k], e) == table[e]
        ensures Decode(kind, copies[k], e) == fat[e]
      {
        PutAllDecodes(kind, before[k], updates);
        FoldAt(kind, Entries(kind, before[k]), table, updates, e);
      }
    }

    lemma BatchedDecodes(before: seq<seq<Byte>>, table: seq<nat>, updates: seq<Update>)
      requires kind.Fat32? && sectorSize >= 1 && Small(table) && active < |before|
      requires (forall k | 0 <= k < |before| :: |before[k]| == size) && |table| == EntryCount(kind, size)
      requires Inside(updates, |table|)
      requires fat == Fold(kind, table, updates) && Progress(before, SectorsOf(updates, sectorSize))
      requires table == Entries(kind, before[active])
      ensures forall k: nat | k < |copies| :: |copies[k]| == size
      ensures fat == Entries(kind, copies[active])
      ensures forall k: nat, e: nat | k < |copies| && Written(k) && e < |fat| &&
        Decode(kind, before[k], e) == table[e] ::
        Decode(kind, copies[k], e) == fat[e] == Decode(kind, PutAll(kind, before[k], updates), e)
    {
      hide Rewritten, Fold, Decode, Put, PutAll, SectorsOf;
      forall k: nat | k < |copies| ensures |copies[k]| == size {
        if Written(k) { SizeKept(before[k], copies[k], fat, SectorsOf(updates, sectorSize), sectorSize); }
      }
      forall k: nat, e: nat | k < |copies| && Written(k) && e < |fat| && Decode(kind, before[k], e) == table[e]
        ensures Decode(kind, copies[k], e) == fat[e] == Decode(kind, PutAll(kind, before[k], updates), e)
      {
        BatchDecodes(before[k], copies[k], table, updates, sectorSize, e);
        PutAllDecodes(kind, before[k], updates);
        FoldAt(kind, Entries(kind, before[k]), table, updates, e);
      }
    }
  }

  lemma FourDivides(size: nat, n: nat)
    requires size % 4 == 0
    ensures (size * n) % 4 == 0 && 4 * (size * n / 4) == size * n
  {
    var q := size / 4;
    assert size == 4 * q;
    assert size * n == 4 * (q * n);
  }

  lemma SizeKept(before: seq<Byte>, after: seq<Byte>, fat: seq<nat>, sectors: seq<nat>, size: nat)
    requires Rewritten(before, after, fat, sectors, size)
    ensures |after| == |before|
  {
  }

  lemma SameSectors(before: seq<Byte>, after: seq<Byte>, fat: seq<nat>, a: seq<nat>, b: seq<nat>, size: nat)
    requires Rewritten(before, after, fat, a, size) && forall x :: x in a <==> x in b
    ensures Rewritten(before, after, fat, b, size)
  {
  }

  lemma NothingRewritten(raw: seq<Byte>, fat: seq<nat>, sectors: seq<nat>, size: nat)
    requires size >= 1 && |raw| / 4 <= |fat|
    ensures Rewritten(raw, raw, fat, sectors[..0], size)
  {
  }

  lemma LoadedSmall(raw: seq<Byte>, fat: seq<nat>)
    requires fat == Entries(FatVolume.Fat32, raw)
    ensures Small(fat)
  {
    hide Decode;
    forall e: nat | e < |fat| ensures fat[e] < 0x1000_0000 { DecodeBound(FatVolume.Fat32, raw, e); }
  }

  lemma RunMembers(unique: seq<nat>, start: nat, end: nat)
    requires start < end <= |unique| && forall i | start <= i < end :: unique[i] == unique[start] + (i - start)
    ensures forall x ::
      x in unique[..end] <==> x in unique[..start] || unique[start] <= x < unique[start] + (end - start)
  {
    forall x: nat | unique[start] <= x < unique[start] + (end - start) ensures x in unique[..end] {
      assert unique[..end][start + (x - unique[start])] == x;
    }
    forall x | x in unique[..start] ensures x in unique[..end] {
      var i :| 0 <= i < start && unique[i] == x;
      assert unique[..end][i] == x;
    }
  }

  lemma OneRun(size: nat, first: nat, n: nat)
    requires n >= 1
    ensures size * first + size * n == size * (first + (n - 1)) + size
  {
  }

  lemma {:induction false} RunInside(updates: seq<Update>, unique: seq<nat>, start: nat, end: nat, sectorSize: nat,
                                     size: nat)
    requires sectorSize >= 1 && size % sectorSize == 0 && Inside(updates, size / 4) && start < end <= |unique|
    requires (forall x :: x in unique <==> x in SectorsOf(updates, sectorSize))
    requires forall i | start <= i < end :: unique[i] == unique[start] + (i - start)
    ensures sectorSize * unique[start] + sectorSize * (end - start) <= size
  {
    hide SectorsOf;
    var last := unique[end - 1];
    assert last in SectorsOf(updates, sectorSize);
    var n :| 0 <= n < |updates| && SectorsOf(updates, sectorSize)[n] == last;
    SectorInside(4 * updates[n].cluster, sectorSize, size);
    OneRun(sectorSize, unique[start], end - start);
  }

  lemma InsideNone(updates: seq<Update>, count: nat)
    ensures Inside(updates[..0], count)
  {
  }

  lemma InsideSnoc(updates: seq<Update>, n: nat, count: nat)
    requires n < |updates| && Inside(updates[..n], count) && updates[n].cluster < count
    ensures Inside(updates[..n + 1], count)
  {
  }

  lemma NothingWritten(kind: Kind, fat: seq<nat>, copies: seq<seq<Byte>>)
    ensures Fold(kind, fat, []) == fat && forall k: nat | k < |copies| :: PutAll(kind, copies[k], []) == copies[k]
  {
  }
}
