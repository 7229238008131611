/** What a scan records, said about the cells of the volume rather than about the scan. */
module FatReferences {
  import opened Arithmetic
  import opened Basics
  import opened ClusterLayout
  import opened FatVolume
  import opened FatScan

  // ---- Directories and their live cells -----------------------------------------------------

  /** A directory: its blocks in order, and its path. */
  datatype Dir = Dir(units: seq<Container>, path: string)

  predicate OnVolume(v: Vol, units: seq<Container>) {
    forall n | 0 <= n < |units| :: units[n].InCluster? ==> units[n].cluster <= v.max
  }

  /** Entry `s` of block `n` stands before the end mark of the directory. */
  ghost predicate Live(v: Vol, units: seq<Container>, n: nat, s: nat)
    requires Loaded(v) && OnVolume(v, units)
  {
    && n < |units| && s < |Area(v, units[n])|
    && (forall k, t | 0 <= k < n && 0 <= t < |Area(v, units[k])| :: !Area(v, units[k])[t].info.EndMark?)
    && forall t | 0 <= t <= s :: !Area(v, units[n])[t].info.EndMark?
  }

  /** Deleted entries, long names and labels name nothing; dot entries and named ones may. */
  predicate Names(cell: Cell) { (cell.info.Dot? || cell.info.Named?) && cell.first != 0 }

  predicate Records(cell: Cell) { cell.info.Named? && cell.info.name != "" }

  /** The record of a named entry. */
  predicate RecordFor(d: Dir, at: Offset, cell: Cell, rec: FileRec) {
    && cell.info.Named? && rec.at == at && rec.first == cell.first
    && rec.size == cell.info.size && rec.isDir == cell.info.isDir
    && rec.path == if d.path == "" || d.path[|d.path| - 1] == '/' then d.path + cell.info.name
                   else d.path + "/" + cell.info.name
  }

  /** The entry is among the references if it names a cluster, and among the records if it has a name. */
  ghost predicate CellRead(v: Vol, d: Dir, n: nat, s: nat, st: State)
    requires Loaded(v) && OnVolume(v, d.units)
  {
    && n < |d.units| && s < |Area(v, d.units[n])|
    && var at, cell := Offset(d.units[n], s), Area(v, d.units[n])[s];
       && (Names(cell) ==> Ref(at, cell.first) in st.refs)
       && (Records(cell) ==> exists i | 0 <= i < |st.files| :: RecordFor(d, at, cell, st.files[i]))
  }

  ghost predicate DirRead(v: Vol, d: Dir, st: State)
    requires Loaded(v) && OnVolume(v, d.units)
  {
    forall n: nat, s: nat | Live(v, d.units, n, s) :: CellRead(v, d, n, s, st)
  }

  predicate Descends(rec: FileRec) { rec.isDir && rec.first != 0 }

  function DirOf(rec: FileRec): Dir { Dir(Units(rec.chain), rec.path) }

  /** Every directory recorded from index `from` on has been read. */
  ghost predicate SubdirsRead(v: Vol, st: State, from: nat)
    requires Loaded(v)
  {
    forall i | from <= i < |st.files| && Descends(st.files[i]) ::
      OnVolume(v, DirOf(st.files[i]).units) && DirRead(v, DirOf(st.files[i]), st)
  }

  // ---- Completeness -----------------------------------------------------------------------------

  predicate Extends(st: State, st': State) { st.files <= st'.files && st.refs <= st'.refs }

  lemma CellStays(v: Vol, d: Dir, n: nat, s: nat, st: State, st': State)
    requires Loaded(v) && OnVolume(v, d.units) && n < |d.units| && s < |Area(v, d.units[n])|
    requires CellRead(v, d, n, s, st) && Extends(st, st')
    ensures CellRead(v, d, n, s, st')
  {
    var at, cell := Offset(d.units[n], s), Area(v, d.units[n])[s];
    if Records(cell) {
      var i :| 0 <= i < |st.files| && RecordFor(d, at, cell, st.files[i]);
      assert st'.files[i] == st.files[i];
    }
  }

  lemma DirStays(v: Vol, d: Dir, st: State, st': State)
    requires Loaded(v) && OnVolume(v, d.units) && DirRead(v, d, st) && Extends(st, st')
    ensures DirRead(v, d, st')
  {
    hide Live, CellRead;
    forall n: nat, s: nat | Live(v, d.units, n, s) ensures CellRead(v, d, n, s, st') {
      LiveInside(v, d.units, n, s);
      CellStays(v, d, n, s, st, st');
    }
  }

  lemma LiveInside(v: Vol, units: seq<Container>, n: nat, s: nat)
    requires Loaded(v) && OnVolume(v, units) && Live(v, units, n, s)
    ensures n < |units| && s < |Area(v, units[n])| && !Area(v, units[n])[s].info.EndMark?
  {
  }

  lemma SubdirsStay(v: Vol, st: State, st': State, from: nat, mid: nat)
    requires Loaded(v) && SubdirsRead(v, st, from) && SubdirsRead(v, st', mid) && Extends(st, st') && mid == |st.files|
    ensures SubdirsRead(v, st', from)
  {
    hide DirRead;
    forall i | from <= i < |st'.files| && Descends(st'.files[i])
      ensures OnVolume(v, DirOf(st'.files[i]).units) && DirRead(v, DirOf(st'.files[i]), st')
    {
      if i < mid {
        assert st'.files[i] == st.files[i];
        DirStays(v, DirOf(st.files[i]), st, st');
      }
    }
  }

  /** The blocks of a directory reached so far hold no end mark. */
  ghost predicate Reached(v: Vol, units: seq<Container>, n: nat, slot: nat)
    requires Loaded(v) && OnVolume(v, units)
  {
    && n < |units|
    && (forall k, t | 0 <= k < n && 0 <= t < |Area(v, units[k])| :: !Area(v, units[k])[t].info.EndMark?)
    && forall t | 0 <= t < slot && t < |Area(v, units[n])| :: !Area(v, units[n])[t].info.EndMark?
  }

  /** The live entries of block `n` from `slot` on are read. */
  ghost predicate BlockRead(v: Vol, d: Dir, n: nat, slot: nat, st: State)
    requires Loaded(v) && OnVolume(v, d.units) && n < |d.units|
  {
    forall s: nat | slot <= s && Live(v, d.units, n, s) :: CellRead(v, d, n, s, st)
  }

  lemma BlockStep(v: Vol, d: Dir, n: nat, slot: nat, st: State, st': State)
    requires Loaded(v) && OnVolume(v, d.units) && n < |d.units| && slot < |Area(v, d.units[n])|
    requires CellRead(v, d, n, slot, st) && Extends(st, st') && BlockRead(v, d, n, slot + 1, st')
    ensures BlockRead(v, d, n, slot, st')
  {
    hide Live, CellRead;
    CellStays(v, d, n, slot, st, st');
    forall s: nat | slot <= s && Live(v, d.units, n, s)
      ensures CellRead(v, d, n, s, st')
    {
      LiveInside(v, d.units, n, s);
    }
  }

  lemma BlockEnds(v: Vol, d: Dir, n: nat, slot: nat, st: State)
    requires Loaded(v) && OnVolume(v, d.units) && n < |d.units|
    requires slot >= |Area(v, d.units[n])| || Area(v, d.units[n])[slot].info.EndMark?
    ensures BlockRead(v, d, n, slot, st)
  {
  }

  lemma {:induction false} ReadCells(v: Vol, d: Dir, n: nat, slot: nat, st: State, depth: nat)
    requires Loaded(v) && OnVolume(v, d.units) && Reached(v, d.units, n, slot) && depth <= MAX_RECURSION_DEPTH
    requires ScanCells(v, d.units[n], slot, d.path, st, depth).Ok?
    ensures var (r, ended) := ScanCells(v, d.units[n], slot, d.path, st, depth).value;
            && Extends(st, r) && BlockRead(v, d, n, slot, r) && SubdirsRead(v, r, |st.files|)
            && (ended <==> exists t :: slot <= t < |Area(v, d.units[n])| && Area(v, d.units[n])[t].info.EndMark?)
    decreases MAX_RECURSION_DEPTH + 1 - depth, 0, |Area(v, d.units[n])| - slot
  {
    hide Record, ReadChain, BlockRead, SubdirsRead, Live, CellRead, ScanDirectory;
    var container := d.units[n];
    var area := Area(v, container);
    var (r, ended) := ScanCells(v, container, slot, d.path, st, depth).value;
    if slot >= |area| || area[slot].info.EndMark? {
      BlockEnds(v, d, n, slot, st);
      NoSubdirs(v, st);
    } else {
      var cell, at := area[slot], Offset(container, slot);
      var st1 := if cell.info.Ignored? then st else AddRef(st, at, cell.first);
      if Records(cell) {
        ReadNamed(v, d, n, slot, st, depth);
      } else {
        SkippedRead(v, d, n, slot, st);
        NoSubdirs(v, st);
        ReadCells(v, d, n, slot + 1, st1, depth);
        BlockStep(v, d, n, slot, st1, r);
      }
    }
  }

  lemma NoSubdirs(v: Vol, st: State)
    requires Loaded(v)
    ensures SubdirsRead(v, st, |st.files|)
  {
  }

  lemma SkippedRead(v: Vol, d: Dir, n: nat, s: nat, st: State)
    requires Loaded(v) && OnVolume(v, d.units) && n < |d.units| && s < |Area(v, d.units[n])|
    ensures var at, cell := Offset(d.units[n], s), Area(v, d.units[n])[s];
            var st1 := if cell.info.Ignored? || cell.info.EndMark? then st else AddRef(st, at, cell.first);
            Extends(st, st1) && st1.files == st.files && (!Records(cell) ==> CellRead(v, d, n, s, st1))
  {
    var at, cell := Offset(d.units[n], s), Area(v, d.units[n])[s];
    if Names(cell) { assert AddRef(st, at, cell.first).refs[|st.refs|] == Ref(at, cell.first); }
  }

  /** A named entry: its record, the directory it may be, and the entries after it. */
  lemma {:induction false} ReadNamed(v: Vol, d: Dir, n: nat, slot: nat, st: State, depth: nat)
    requires Loaded(v) && OnVolume(v, d.units) && Reached(v, d.units, n, slot) && depth <= MAX_RECURSION_DEPTH
    requires slot < |Area(v, d.units[n])| && Records(Area(v, d.units[n])[slot])
    requires ScanCells(v, d.units[n], slot, d.path, st, depth).Ok?
    ensures var (r, ended) := ScanCells(v, d.units[n], slot, d.path, st, depth).value;
            && Extends(st, r) && BlockRead(v, d, n, slot, r) && SubdirsRead(v, r, |st.files|)
            && (ended <==> exists t :: slot <= t < |Area(v, d.units[n])| && Area(v, d.units[n])[t].info.EndMark?)
    decreases MAX_RECURSION_DEPTH + 1 - depth, 0, |Area(v, d.units[n])| - slot, 0
  {
    hide Record, ReadChain, BlockRead, SubdirsRead, Live, CellRead, ScanDirectory;
    var container := d.units[n];
    var cell, at := Area(v, container)[slot], Offset(container, slot);
    var st1 := AddRef(st, at, cell.first);
    var st2 := Record(v, at, cell, d.path, st1).value;
    RecordRead(v, d, n, slot, st);
    var (r, ended) := ScanCells(v, container, slot, d.path, st, depth).value;
    var rec := st2.files[|st.files|];
    var st3 := if Descends(rec) then ScanDirectory(v, cell.first, rec.path, st2, depth + 1).value else st2;
    if Descends(rec) {
      ReadDirectory(v, cell.first, rec.path, st2, depth + 1);
      DirUnits(v, rec);
    }
    JoinSubdirs(v, st, st2, st3);
    ReadCells(v, d, n, slot + 1, st3, depth);
    SubdirsStay(v, st3, r, |st.files|, |st3.files|);
    CellStays(v, d, n, slot, st2, st3);
    BlockStep(v, d, n, slot, st3, r);
  }

  lemma DirUnits(v: Vol, rec: FileRec)
    requires Loaded(v) && ReadChain(v, rec.first, {}) == Ok(rec.chain)
    ensures OnVolume(v, DirOf(rec).units)
  {
    hide ReadChain;
    ChainInRange(v, rec.chain);
  }

  /** The new directory and everything below it has been read. */
  lemma JoinSubdirs(v: Vol, st: State, st2: State, st3: State)
    requires Loaded(v) && Extends(st, st2) && Extends(st2, st3) && |st2.files| == |st.files| + 1
    requires var rec := st2.files[|st.files|];
             if Descends(rec) then OnVolume(v, DirOf(rec).units) && DirRead(v, DirOf(rec), st3) else st3 == st2
    requires SubdirsRead(v, st3, |st2.files|)
    ensures SubdirsRead(v, st3, |st.files|)
  {
    hide DirRead;
    assert st3.files[|st.files|] == st2.files[|st.files|];
  }

  lemma RecordRead(v: Vol, d: Dir, n: nat, s: nat, st: State)
    requires Loaded(v) && OnVolume(v, d.units) && n < |d.units| && s < |Area(v, d.units[n])|
    requires Records(Area(v, d.units[n])[s])
    requires var at, cell := Offset(d.units[n], s), Area(v, d.units[n])[s];
             Record(v, at, cell, d.path, AddRef(st, at, cell.first)).Ok?
    ensures var at, cell := Offset(d.units[n], s), Area(v, d.units[n])[s];
            var st2 := Record(v, at, cell, d.path, AddRef(st, at, cell.first)).value;
            && Extends(st, st2) && |st2.files| == |st.files| + 1 && RecordFor(d, at, cell, st2.files[|st.files|])
            && CellRead(v, d, n, s, st2) && SubdirsRead(v, st2, |st2.files|)
            && st2.files[|st.files|].path == PathJoin(d.path, cell.info.name)
            && (cell.first != 0 ==> ReadChain(v, cell.first, {}) == Ok(st2.files[|st.files|].chain))
            && (cell.first == 0 ==> st2.files[|st.files|].chain == [])
  {
    hide ReadChain;
    var at, cell := Offset(d.units[n], s), Area(v, d.units[n])[s];
    var st2 := Record(v, at, cell, d.path, AddRef(st, at, cell.first)).value;
    assert RecordFor(d, at, cell, st2.files[|st.files|]);
    SkippedRead(v, d, n, s, st);
    if Names(cell) { assert AddRef(st, at, cell.first).refs[|st.refs|] == Ref(at, cell.first); }
  }

  lemma {:induction false} ReadUnits(v: Vol, d: Dir, n: nat, st: State, depth: nat)
    requires Loaded(v) && OnVolume(v, d.units) && n <= |d.units| && depth <= MAX_RECURSION_DEPTH
    requires n < |d.units| ==> Reached(v, d.units, n, 0)
    requires ScanUnits(v, d.units, n, d.path, st, depth).Ok?
    ensures var r := ScanUnits(v, d.units, n, d.path, st, depth).value;
            && Extends(st, r) && SubdirsRead(v, r, |st.files|)
            && forall k: nat | n <= k < |d.units| :: BlockRead(v, d, k, 0, r)
    decreases MAX_RECURSION_DEPTH + 1 - depth, 1, |d.units| - n
  {
    hide ScanCells, BlockRead, SubdirsRead;
    NoSubdirs(v, st);
    if n < |d.units| {
      ReadCells(v, d, n, 0, st, depth);
      var (st1, ended) := ScanCells(v, d.units[n], 0, d.path, st, depth).value;
      var r := ScanUnits(v, d.units, n, d.path, st, depth).value;
      if ended {
        forall k: nat | n < k < |d.units| ensures BlockRead(v, d, k, 0, r) { AfterEnd(v, d, n, k, r); }
      } else {
        ReadUnits(v, d, n + 1, st1, depth);
        SubdirsStay(v, st1, r, |st.files|, |st1.files|);
        BlockStays(v, d, n, st1, r);
      }
    }
  }

  lemma BlockStays(v: Vol, d: Dir, n: nat, st: State, st': State)
    requires Loaded(v) && OnVolume(v, d.units) && n < |d.units| && BlockRead(v, d, n, 0, st) && Extends(st, st')
    ensures BlockRead(v, d, n, 0, st')
  {
    hide Live, CellRead;
    forall s: nat | Live(v, d.units, n, s) ensures CellRead(v, d, n, s, st') {
      LiveInside(v, d.units, n, s);
      CellStays(v, d, n, s, st, st');
    }
  }

  /** Nothing is live behind the block with the end mark. */
  lemma AfterEnd(v: Vol, d: Dir, n: nat, k: nat, st: State)
    requires Loaded(v) && OnVolume(v, d.units) && n < k < |d.units|
    requires exists t :: 0 <= t < |Area(v, d.units[n])| && Area(v, d.units[n])[t].info.EndMark?
    ensures BlockRead(v, d, k, 0, st)
  {
    forall s: nat ensures !Live(v, d.units, k, s) {}
  }

  lemma {:induction false} ReadDirectory(v: Vol, first: nat, path: string, st: State, depth: nat)
    requires Loaded(v) && ScanDirectory(v, first, path, st, depth).Ok?
    ensures var r := ScanDirectory(v, first, path, st, depth).value;
            && Extends(st, r) && SubdirsRead(v, r, |st.files|)
            && (v.rootFixed && first == 0 && depth == 0 ==> DirRead(v, Dir([RootArea], path), r))
            && (!(v.rootFixed && first == 0 && depth == 0) ==>
                 && ReadChain(v, first, {}).Ok? && OnVolume(v, Units(ReadChain(v, first, {}).value))
                 && DirRead(v, Dir(Units(ReadChain(v, first, {}).value), path), r))
    decreases MAX_RECURSION_DEPTH + 1 - depth, 2, 0
  {
    hide ScanUnits, SubdirsRead, ReadChain, DirRead;
    var r := ScanDirectory(v, first, path, st, depth).value;
    if v.rootFixed && first == 0 && depth == 0 {
      ReadUnits(v, Dir([RootArea], path), 0, st, depth);
      AllBlocks(v, Dir([RootArea], path), r);
    } else {
      var chain := ReadChain(v, first, {}).value;
      ChainInRange(v, chain);
      var st1 := st.(visited := st.visited + {first});
      ReadUnits(v, Dir(Units(chain), path), 0, st1, depth);
      AllBlocks(v, Dir(Units(chain), path), r);
    }
  }

  lemma AllBlocks(v: Vol, d: Dir, st: State)
    requires Loaded(v) && OnVolume(v, d.units) && forall k: nat | k < |d.units| :: BlockRead(v, d, k, 0, st)
    ensures DirRead(v, d, st)
  {
    hide Live, CellRead;
    forall n: nat, s: nat | Live(v, d.units, n, s)
      ensures CellRead(v, d, n, s, st)
    {
      LiveInside(v, d.units, n, s);
      assert BlockRead(v, d, n, 0, st);
    }
  }

  // ---- Soundness --------------------------------------------------------------------------------

  ghost predicate RefAt(v: Vol, x: Dir, n: nat, s: nat, ref: Ref)
    requires Loaded(v)
  {
    && OnVolume(v, x.units) && Live(v, x.units, n, s) && Names(Area(v, x.units[n])[s])
    && ref == Ref(Offset(x.units[n], s), Area(v, x.units[n])[s].first)
  }

  ghost predicate RecAt(v: Vol, x: Dir, n: nat, s: nat, rec: FileRec)
    requires Loaded(v)
  {
    && OnVolume(v, x.units) && Live(v, x.units, n, s) && Records(Area(v, x.units[n])[s])
    && RecordFor(x, Offset(x.units[n], s), Area(v, x.units[n])[s], rec)
    && if rec.first == 0 then rec.chain == [] else ReadChain(v, rec.first, {}) == Ok(rec.chain)
  }

  /** `x` is the directory `d` or one recorded from index `from` on. */
  ghost predicate Within(d: Dir, x: Dir, files: seq<FileRec>, from: nat) {
    x == d || exists i | from <= i < |files| :: Descends(files[i]) && x == DirOf(files[i])
  }

  ghost predicate RefFrom(v: Vol, d: Dir, files: seq<FileRec>, from: nat, ref: Ref)
    requires Loaded(v)
  {
    exists x: Dir, n: nat, s: nat :: Within(d, x, files, from) && RefAt(v, x, n, s, ref)
  }

  ghost predicate RecFrom(v: Vol, d: Dir, files: seq<FileRec>, from: nat, rec: FileRec)
    requires Loaded(v)
  {
    exists x: Dir, n: nat, s: nat :: Within(d, x, files, from) && RecAt(v, x, n, s, rec)
  }

  /** All that was added between the two states comes from live entries of `d` or of
      directories added on the way. */
  ghost predicate Sound(v: Vol, d: Dir, st: State, st': State)
    requires Loaded(v)
  {
    && Extends(st, st')
    && (forall i | |st.refs| <= i < |st'.refs| :: RefFrom(v, d, st'.files, |st.files|, st'.refs[i]))
    && (forall i | |st.files| <= i < |st'.files| :: RecFrom(v, d, st'.files, |st.files|, st'.files[i]))
  }

  lemma WithinGrows(d: Dir, x: Dir, files: seq<FileRec>, from: nat, files': seq<FileRec>, from': nat)
    requires Within(d, x, files, from) && files <= files' && from' <= from
    ensures Within(d, x, files', from')
  {
    if x != d {
      var i :| from <= i < |files| && Descends(files[i]) && x == DirOf(files[i]);
      assert files'[i] == files[i];
    }
  }

  lemma RefGrows(v: Vol, d: Dir, files: seq<FileRec>, from: nat, files': seq<FileRec>, from': nat, ref: Ref)
    requires Loaded(v) && RefFrom(v, d, files, from, ref) && files <= files' && from' <= from
    ensures RefFrom(v, d, files', from', ref)
  {
    hide Within, RefAt;
    var x: Dir, n: nat, s: nat :| Within(d, x, files, from) && RefAt(v, x, n, s, ref);
    WithinGrows(d, x, files, from, files', from');
  }

  lemma RecGrows(v: Vol, d: Dir, files: seq<FileRec>, from: nat, files': seq<FileRec>, from': nat, rec: FileRec)
    requires Loaded(v) && RecFrom(v, d, files, from, rec) && files <= files' && from' <= from
    ensures RecFrom(v, d, files', from', rec)
  {
    hide Within, RecAt;
    var x: Dir, n: nat, s: nat :| Within(d, x, files, from) && RecAt(v, x, n, s, rec);
    WithinGrows(d, x, files, from, files', from');
  }

  lemma SoundChain(v: Vol, d: Dir, a: State, b: State, c: State)
    requires Loaded(v) && Sound(v, d, a, b) && Sound(v, d, b, c)
    ensures Sound(v, d, a, c)
  {
    hide RefFrom, RecFrom;
    forall i | |a.refs| <= i < |c.refs| ensures RefFrom(v, d, c.files, |a.files|, c.refs[i]) {
      if i < |b.refs| {
        assert c.refs[i] == b.refs[i];
        RefGrows(v, d, b.files, |a.files|, c.files, |a.files|, b.refs[i]);
      } else {
        RefGrows(v, d, c.files, |b.files|, c.files, |a.files|, c.refs[i]);
      }
    }
    forall i | |a.files| <= i < |c.files| ensures RecFrom(v, d, c.files, |a.files|, c.files[i]) {
      if i < |b.files| {
        assert c.files[i] == b.files[i];
        RecGrows(v, d, b.files, |a.files|, c.files, |a.files|, b.files[i]);
      } else {
        RecGrows(v, d, c.files, |b.files|, c.files, |a.files|, c.files[i]);
      }
    }
  }

  lemma WithinSub(d: Dir, e: Dir, x: Dir, files: seq<FileRec>, from: nat, k: nat)
    requires from <= k < |files| && Descends(files[k]) && e == DirOf(files[k]) && Within(e, x, files, k + 1)
    ensures Within(d, x, files, from)
  {
    if x != e { var i :| k + 1 <= i < |files| && Descends(files[i]) && x == DirOf(files[i]); }
  }

  /** What was read inside the directory recorded at `k` belongs to its parent's scan. */
  lemma SoundSub(v: Vol, d: Dir, a: State, b: State, c: State, k: nat)
    requires Loaded(v) && Sound(v, d, a, b) && k == |a.files| && |b.files| == k + 1 && Descends(b.files[k])
    requires Sound(v, DirOf(b.files[k]), b, c)
    ensures Sound(v, d, a, c)
  {
    hide RefFrom, RecFrom;
    var e := DirOf(b.files[k]);
    assert c.files[k] == b.files[k];
    forall i | |b.refs| <= i < |c.refs| ensures RefFrom(v, d, c.files, |b.files| - 1, c.refs[i]) {
      RefSub(v, d, e, c.files, k, c.refs[i]);
    }
    forall i | |b.files| <= i < |c.files| ensures RecFrom(v, d, c.files, |b.files| - 1, c.files[i]) {
      RecSub(v, d, e, c.files, k, c.files[i]);
    }
    forall i | |a.refs| <= i < |b.refs| ensures RefFrom(v, d, c.files, k, c.refs[i]) {
      assert c.refs[i] == b.refs[i];
      RefGrows(v, d, b.files, k, c.files, k, b.refs[i]);
    }
    RecGrows(v, d, b.files, k, c.files, k, b.files[k]);
  }

  lemma RefSub(v: Vol, d: Dir, e: Dir, files: seq<FileRec>, k: nat, ref: Ref)
    requires Loaded(v) && k < |files| && Descends(files[k]) && e == DirOf(files[k]) && RefFrom(v, e, files, k + 1, ref)
    ensures RefFrom(v, d, files, k, ref)
  {
    hide Within, RefAt;
    var x: Dir, n: nat, s: nat :| Within(e, x, files, k + 1) && RefAt(v, x, n, s, ref);
    WithinSub(d, e, x, files, k, k);
  }

  lemma RecSub(v: Vol, d: Dir, e: Dir, files: seq<FileRec>, k: nat, rec: FileRec)
    requires Loaded(v) && k < |files| && Descends(files[k]) && e == DirOf(files[k]) && RecFrom(v, e, files, k + 1, rec)
    ensures RecFrom(v, d, files, k, rec)
  {
    hide Within, RecAt;
    var x: Dir, n: nat, s: nat :| Within(e, x, files, k + 1) && RecAt(v, x, n, s, rec);
    WithinSub(d, e, x, files, k, k);
  }

  lemma NothingAdded(v: Vol, d: Dir, st: State, st': State)
    requires Loaded(v) && st'.files == st.files && st'.refs == st.refs
    ensures Sound(v, d, st, st')
  {
  }

  lemma LiveHere(v: Vol, d: Dir, n: nat, s: nat)
    requires Loaded(v) && OnVolume(v, d.units) && Reached(v, d.units, n, s)
    requires s < |Area(v, d.units[n])| && !Area(v, d.units[n])[s].info.EndMark?
    ensures Live(v, d.units, n, s) && Reached(v, d.units, n, s + 1)
  {
  }

  lemma RefAdded(v: Vol, d: Dir, n: nat, s: nat, st: State)
    requires Loaded(v) && OnVolume(v, d.units) && Live(v, d.units, n, s)
    requires Area(v, d.units[n])[s].info.Dot? || Area(v, d.units[n])[s].info.Named?
    ensures Sound(v, d, st, AddRef(st, Offset(d.units[n], s), Area(v, d.units[n])[s].first))
  {
    LiveInside(v, d.units, n, s);
    hide Live;
    var cell := Area(v, d.units[n])[s];
    var st1 := AddRef(st, Offset(d.units[n], s), cell.first);
    if cell.first != 0 {
      var ref := Ref(Offset(d.units[n], s), cell.first);
      assert RefAt(v, d, n, s, ref) && Within(d, d, st1.files, |st.files|);
      assert st1.refs[|st.refs|] == ref;
    }
  }

  lemma RecAdded(v: Vol, d: Dir, n: nat, s: nat, st: State)
    requires Loaded(v) && OnVolume(v, d.units) && Live(v, d.units, n, s) && Records(Area(v, d.units[n])[s])
    requires Record(v, Offset(d.units[n], s), Area(v, d.units[n])[s], d.path, st).Ok?
    ensures Sound(v, d, st, Record(v, Offset(d.units[n], s), Area(v, d.units[n])[s], d.path, st).value)
  {
    LiveInside(v, d.units, n, s);
    hide Live, ReadChain;
    var cell, at := Area(v, d.units[n])[s], Offset(d.units[n], s);
    var st1 := Record(v, at, cell, d.path, st).value;
    var rec := st1.files[|st.files|];
    assert RecAt(v, d, n, s, rec) && Within(d, d, st1.files, |st.files|);
  }

  lemma {:induction false} SoundCells(v: Vol, d: Dir, n: nat, slot: nat, st: State, depth: nat)
    requires Loaded(v) && OnVolume(v, d.units) && Reached(v, d.units, n, slot) && depth <= MAX_RECURSION_DEPTH
    requires ScanCells(v, d.units[n], slot, d.path, st, depth).Ok?
    ensures Sound(v, d, st, ScanCells(v, d.units[n], slot, d.path, st, depth).value.0)
    decreases MAX_RECURSION_DEPTH + 1 - depth, 0, |Area(v, d.units[n])| - slot
  {
    hide Record, ReadChain, Sound, Live, ScanDirectory, Reached;
    ReachedInside(v, d.units, n, slot);
    var area := Area(v, d.units[n]);
    if slot >= |area| || area[slot].info.EndMark? {
      NothingAdded(v, d, st, st);
    } else {
      var cell, at := area[slot], Offset(d.units[n], slot);
      LiveHere(v, d, n, slot);
      var st1 := if cell.info.Ignored? then st else AddRef(st, at, cell.first);
      if cell.info.Ignored? { NothingAdded(v, d, st, st); } else { RefAdded(v, d, n, slot, st); }
      var st3 := if Records(cell) then AfterNamed(v, d, n, slot, st1, depth) else st1;
      if Records(cell) {
        SoundNamed(v, d, n, slot, st1, depth);
        SoundChain(v, d, st, st1, st3);
      }
      SoundCells(v, d, n, slot + 1, st3, depth);
      SoundChain(v, d, st, st3, ScanCells(v, d.units[n], slot, d.path, st, depth).value.0);
    }
  }

  lemma ReachedInside(v: Vol, units: seq<Container>, n: nat, slot: nat)
    requires Loaded(v) && OnVolume(v, units) && Reached(v, units, n, slot)
    ensures n < |units|
  {
  }

  /** The state after a named entry and the directory it may be. */
  ghost function AfterNamed(v: Vol, d: Dir, n: nat, slot: nat, st: State, depth: nat): State
    requires Loaded(v) && OnVolume(v, d.units) && n < |d.units| && slot < |Area(v, d.units[n])|
    requires Records(Area(v, d.units[n])[slot]) && depth <= MAX_RECURSION_DEPTH
    requires var cell, at := Area(v, d.units[n])[slot], Offset(d.units[n], slot);
             && Record(v, at, cell, d.path, st).Ok?
             && (cell.info.isDir && cell.first != 0 ==>
                  ScanDirectory(v, cell.first, PathJoin(d.path, cell.info.name), Record(v, at, cell, d.path, st).value,
                                depth + 1).Ok?)
  {
    var cell, at := Area(v, d.units[n])[slot], Offset(d.units[n], slot);
    var st2 := Record(v, at, cell, d.path, st).value;
    if cell.info.isDir && cell.first != 0
    then ScanDirectory(v, cell.first, PathJoin(d.path, cell.info.name), st2, depth + 1).value
    else st2
  }

  lemma {:induction false} SoundNamed(v: Vol, d: Dir, n: nat, slot: nat, st: State, depth: nat)
    requires Loaded(v) && OnVolume(v, d.units) && Live(v, d.units, n, slot)
    requires Records(Area(v, d.units[n])[slot]) && depth <= MAX_RECURSION_DEPTH
    requires var cell, at := Area(v, d.units[n])[slot], Offset(d.units[n], slot);
             && Record(v, at, cell, d.path, st).Ok?
             && (cell.info.isDir && cell.first != 0 ==>
                  ScanDirectory(v, cell.first, PathJoin(d.path, cell.info.name), Record(v, at, cell, d.path, st).value,
                                depth + 1).Ok?)
    ensures Sound(v, d, st, AfterNamed(v, d, n, slot, st, depth))
    decreases MAX_RECURSION_DEPTH - depth, 3, 0
  {
    hide ReadChain, Sound, Live, ScanDirectory;
    LiveInside(v, d.units, n, slot);
    var cell, at := Area(v, d.units[n])[slot], Offset(d.units[n], slot);
    var st2 := Record(v, at, cell, d.path, st).value;
    RecAdded(v, d, n, slot, st);
    if cell.info.isDir && cell.first != 0 {
      SoundDirectory(v, cell.first, PathJoin(d.path, cell.info.name), st2, depth + 1);
      SoundSub(v, d, st, st2, AfterNamed(v, d, n, slot, st, depth), |st.files|);
    }
  }

  lemma {:induction false} SoundUnits(v: Vol, d: Dir, n: nat, st: State, depth: nat)
    requires Loaded(v) && OnVolume(v, d.units) && n <= |d.units| && depth <= MAX_RECURSION_DEPTH
    requires n < |d.units| ==> Reached(v, d.units, n, 0)
    requires ScanUnits(v, d.units, n, d.path, st, depth).Ok?
    ensures Sound(v, d, st, ScanUnits(v, d.units, n, d.path, st, depth).value)
    decreases MAX_RECURSION_DEPTH + 1 - depth, 1, |d.units| - n
  {
    hide ScanCells, Sound, BlockRead, SubdirsRead;
    NothingAdded(v, d, st, st);
    if n < |d.units| {
      SoundCells(v, d, n, 0, st, depth);
      ReadCells(v, d, n, 0, st, depth);
      var (st1, ended) := ScanCells(v, d.units[n], 0, d.path, st, depth).value;
      if !ended {
        SoundUnits(v, d, n + 1, st1, depth);
        SoundChain(v, d, st, st1, ScanUnits(v, d.units, n, d.path, st, depth).value);
      }
    }
  }

  lemma {:induction false} SoundDirectory(v: Vol, first: nat, path: string, st: State, depth: nat)
    requires Loaded(v) && ScanDirectory(v, first, path, st, depth).Ok?
    ensures var r := ScanDirectory(v, first, path, st, depth).value;
            && (v.rootFixed && first == 0 && depth == 0 ==> Sound(v, Dir([RootArea], path), st, r))
            && (!(v.rootFixed && first == 0 && depth == 0) ==>
                 && ReadChain(v, first, {}).Ok?
                 && Sound(v, Dir(Units(ReadChain(v, first, {}).value), path), st, r))
    decreases MAX_RECURSION_DEPTH + 1 - depth, 2, 0
  {
    hide ScanUnits, ReadChain, Sound;
    var r := ScanDirectory(v, first, path, st, depth).value;
    if v.rootFixed && first == 0 && depth == 0 {
      SoundUnits(v, Dir([RootArea], path), 0, st, depth);
    } else {
      var chain := ReadChain(v, first, {}).value;
      ChainInRange(v, chain);
      var d, st1 := Dir(Units(chain), path), st.(visited := st.visited + {first});
      SoundUnits(v, d, 0, st1, depth);
      NothingAdded(v, d, st, st1);
      SoundChain(v, d, st, st1, r);
    }
  }

  // ---- A scanned volume -----------------------------------------------------------------------------

  function RootDir(v: Vol): Dir
    requires Loaded(v) && RootChain(v).Ok?
  {
    if v.rootFixed then Dir([RootArea], "") else Dir(Units(RootChain(v).value), "")
  }

  /** The root or a directory among the records. */
  ghost predicate IsDirectory(v: Vol, d: Dir)
    requires Loaded(v) && ScanFiles(v).Ok? && RootChain(v).Ok?
  {
    Within(RootDir(v), d, ScanFiles(v).value.files, 0)
  }

  /** A scan is complete: every live entry of every directory is in it. */
  lemma EveryCellRead(v: Vol, d: Dir)
    requires Loaded(v) && ScanFiles(v).Ok? && RootChain(v).Ok? && IsDirectory(v, d)
    ensures OnVolume(v, d.units) && DirRead(v, d, ScanFiles(v).value)
  {
    hide ScanDirectory, ReadChain, DirRead;
    var st := ScanFiles(v).value;
    ReadDirectory(v, RootCluster(v), "", State([], [], {}, Elements(RootChain(v).value)), 0);
    if d != RootDir(v) {
      var i :| 0 <= i < |st.files| && Descends(st.files[i]) && d == DirOf(st.files[i]);
    }
  }

  ghost predicate IsReference(v: Vol, ref: Ref)
    requires Loaded(v) && ScanFiles(v).Ok? && RootChain(v).Ok?
  {
    exists d: Dir, n: nat, s: nat :: IsDirectory(v, d) && RefAt(v, d, n, s, ref)
  }

  ghost predicate IsEntry(v: Vol, rec: FileRec)
    requires Loaded(v) && ScanFiles(v).Ok? && RootChain(v).Ok?
  {
    exists d: Dir, n: nat, s: nat :: IsDirectory(v, d) && RecAt(v, d, n, s, rec)
  }

  /** And sound: every reference and every record is a live entry of a directory, a record
      with the chain that starts at its first cluster. */
  lemma NothingElseRead(v: Vol)
    requires Loaded(v) && ScanFiles(v).Ok? && RootChain(v).Ok?
    ensures forall i | 0 <= i < |ScanFiles(v).value.refs| :: IsReference(v, ScanFiles(v).value.refs[i])
    ensures forall i | 0 <= i < |ScanFiles(v).value.files| :: IsEntry(v, ScanFiles(v).value.files[i])
  {
    hide ScanDirectory, ReadChain, RefAt, RecAt, Within;
    var st, st0 := ScanFiles(v).value, State([], [], {}, Elements(RootChain(v).value));
    SoundDirectory(v, RootCluster(v), "", st0, 0);
    assert Sound(v, RootDir(v), st0, st);
    hide ScanFiles, RootDir;
    forall i | 0 <= i < |st.refs| ensures IsReference(v, st.refs[i]) {
      assert RefFrom(v, RootDir(v), st.files, 0, st.refs[i]);
      var d: Dir, n: nat, s: nat :| Within(RootDir(v), d, st.files, 0) && RefAt(v, d, n, s, st.refs[i]);
      assert IsDirectory(v, d);
    }
    forall i | 0 <= i < |st.files| ensures IsEntry(v, st.files[i]) {
      assert RecFrom(v, RootDir(v), st.files, 0, st.files[i]);
      var d: Dir, n: nat, s: nat :| Within(RootDir(v), d, st.files, 0) && RecAt(v, d, n, s, st.files[i]);
      assert IsDirectory(v, d);
    }
  }

  // ---- Exactly the chains and sizes that pass ----------------------------------------------------------

  /** The sixteen largest values of a table entry name no cluster: seven are reserved, then the bad mark, then eight end
      marks. */
  function Special(v: Vol): nat {
    match v.kind case Fat12 => 0xFF0 case Fat16 => 0xFFF0 case Fat32 => 0xFFF_FFF0
  }

  /** Clusters of the volume, each named by the entry of the one before, the last with an end mark. */
  ghost predicate Follows(v: Vol, chain: seq<nat>)
    requires Loaded(v)
  {
    && chain != [] && (forall k | 0 <= k < |chain| :: 2 <= chain[k] <= v.max)
    && (forall k | 0 <= k < |chain| - 1 :: Fat(v, chain[k]) == chain[k + 1])
    && (forall k | 0 <= k < |chain| - 1 :: Fat(v, chain[k]) < Special(v))
    && Fat(v, chain[|chain| - 1]) >= Special(v) + 8
  }

  lemma ChainFollows(v: Vol, chain: seq<nat>)
    requires Loaded(v)
    ensures IsChain(v, chain) <==> Follows(v, chain)
  {
    if IsChain(v, chain) {
      forall k | 0 <= k < |chain| - 1 ensures Fat(v, chain[k]) < Special(v) {
        assert Held(v, chain[k]) && Held(v, chain[k + 1]) && Fat(v, chain[k]) == chain[k + 1];
      }
      assert Held(v, chain[|chain| - 1]);
    }
    if Follows(v, chain) {
      forall k | 0 <= k < |chain| ensures Held(v, chain[k]) {
        if k + 1 < |chain| { assert Fat(v, chain[k]) == chain[k + 1] && 2 <= chain[k + 1]; }
      }
    }
  }

  /** A chain is read exactly when there is one, and then it is the one there is; a bad cluster is one whose entry is
      the bad mark. */
  lemma ChainRead(v: Vol, first: nat)
    requires Loaded(v)
    ensures ReadChain(v, first, {}).Ok? <==> exists chain: seq<nat> :: Follows(v, chain) && chain[0] == first
    ensures ReadChain(v, first, {}).Ok? ==> Follows(v, ReadChain(v, first, {}).value)
    ensures forall c :: c in BadClusters(v) <==> 2 <= c <= v.max && Fat(v, c) == Special(v) + 7
  {
    if chain: seq<nat> :| Follows(v, chain) && chain[0] == first {
      ChainFollows(v, chain);
      FollowsChain(v, chain, 0, {});
    }
    if ReadChain(v, first, {}).Ok? { ChainFollows(v, ReadChain(v, first, {}).value); }
  }

  /** Directories nest up to 128 deep: below that the scan gives up, and at that depth an empty one is read. */
  lemma DepthLimit(v: Vol, first: nat, path: string, st: State)
    requires Loaded(v)
    ensures ScanDirectory(v, first, path, st, 129).Error?
    ensures (2 <= first <= v.max && first !in st.visited && ReadChain(v, first, {}).Ok? && v.data[first] != [] &&
             v.data[first][0].info.EndMark?) ==>
            ScanDirectory(v, first, path, st, 128).Ok?
  {
    if 2 <= first <= v.max && first !in st.visited && ReadChain(v, first, {}).Ok? {
      var chain := ReadChain(v, first, {}).value;
      assert Units(chain)[0] == InCluster(first);
    }
  }

  /** A chain ends, so no cluster occurs twice in it. */
  lemma {:induction false} NoRepeat(v: Vol, chain: seq<nat>, a: nat, b: nat)
    requires Loaded(v) && IsChain(v, chain) && a < b < |chain|
    ensures chain[a] != chain[b]
    decreases |chain| - b
  {
    assert Held(v, chain[a]) && Held(v, chain[a + 1]) && Fat(v, chain[a]) == chain[a + 1];
    if b + 1 < |chain| {
      NoRepeat(v, chain, a + 1, b + 1);
      assert Fat(v, chain[b]) == chain[b + 1];
    }
  }

  lemma {:induction false} FollowsChain(v: Vol, chain: seq<nat>, k: nat, seen: set<nat>)
    requires Loaded(v) && IsChain(v, chain) && k < |chain| && forall c | c in seen :: c in chain[..k]
    ensures ReadChain(v, chain[k], seen).Ok?
    decreases |chain| - k
  {
    assert Held(v, chain[k]);
    if chain[k] in seen {
      var a: nat :| a < k && chain[a] == chain[k];
      NoRepeat(v, chain, a, k);
    }
    if k + 1 < |chain| {
      assert Fat(v, chain[k]) == chain[k + 1] && Held(v, chain[k + 1]);
      FollowsChain(v, chain, k + 1, seen + {chain[k]});
    }
  }

  /** A named entry passes exactly when its chain reads, shares no cluster with what was
      claimed before, and, unless it is a directory, is as long as its size asks for. */
  lemma RecordPasses(v: Vol, at: Offset, cell: Cell, path: string, st: State)
    requires Loaded(v) && cell.info.Named?
    ensures Record(v, at, cell, path, st).Ok? <==>
            && ChainOf(v, cell.first).Ok?
            && var chain := ChainOf(v, cell.first).value;
               && (forall k | 0 <= k < |chain| :: chain[k] !in st.claimed)
               && (cell.info.isDir ||
                   (|chain| - 1) * v.clusterSize < cell.info.size <= |chain| * v.clusterSize)
  {
    hide ReadChain;
    if ChainOf(v, cell.first).Ok? {
      var chain := ChainOf(v, cell.first).value;
      RightSize(v, cell.info.size, |chain|);
      assert Elements(chain) * st.claimed == {} <==> forall k | 0 <= k < |chain| :: chain[k] !in st.claimed by {
        if forall k | 0 <= k < |chain| :: chain[k] !in st.claimed {
          forall c | c in Elements(chain) ensures c !in st.claimed {}
        } else {
          var k :| 0 <= k < |chain| && chain[k] in st.claimed;
          assert chain[k] in Elements(chain) * st.claimed;
        }
      }
    }
  }

  lemma RightSize(v: Vol, size: nat, n: nat)
    requires Loaded(v)
    ensures n == ExpectedClusters(v, size) <==> (n - 1) * v.clusterSize < size <= n * v.clusterSize
  {
    RoundedUp(size, v.clusterSize, n);
  }

  lemma RoundedUp(size: nat, unit: nat, n: nat)
    requires unit >= 1
    ensures n == (if size == 0 then 0 else (size + unit - 1) / unit) <==> (n - 1) * unit < size <= n * unit
  {
    var q := (size + unit - 1) / unit;
    if size == 0 {
      if n >= 1 { Times(0, n - 1, unit); }
    } else {
      CeilingBounds(size, unit);
      if (n - 1) * unit < size <= n * unit {
        Quotient(n, q, unit);
        Quotient(q, n, unit);
      }
    }
  }

  lemma CeilingBounds(size: nat, unit: nat)
    requires unit >= 1 && size >= 1
    ensures var q := (size + unit - 1) / unit; q >= 1 && (q - 1) * unit < size <= q * unit
  {
    var q := (size + unit - 1) / unit;
    var r := (size + unit - 1) % unit;
    assert size + unit - 1 == unit * q + r;
    assert (q - 1) * unit == unit * q - unit;
  }
}
