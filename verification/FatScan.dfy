/** What a successful scan establishes about the volume. */
module FatScan {
  import opened Basics
  import opened ClusterLayout
  import opened FatVolume

  lemma ExtendLayout(l: Layout, l': Layout, o: Obj)
    requires WellFormed(l) && l' == l.(objs := l.objs + [o])
    requires Distinct(o.chain) && Elements(o.chain) !! Alloc(l)
    requires forall k | 0 <= k < |o.chain| :: 2 <= o.chain[k] <= l.max && o.chain[k] !in l.bad
    ensures WellFormed(l') && Alloc(l') == Alloc(l) + Elements(o.chain)
  {
    var n := |l.objs|;
    forall c | c in Alloc(l) ensures c in Alloc(l') {
      var i, k :| Owns(l, i, k) && l.objs[i].chain[k] == c;
      assert Owns(l, i, k);
      assert Owns(l', i, k) && l'.objs[i].chain[k] == c;
    }
    forall c | c in Elements(o.chain) ensures c in Alloc(l') {
      var k :| 0 <= k < |o.chain| && o.chain[k] == c;
      assert Owns(l', n, k) && l'.objs[n].chain[k] == c;
    }
    forall c | c in Alloc(l') ensures c in Alloc(l) + Elements(o.chain) {
      var i, k :| Owns(l', i, k) && l'.objs[i].chain[k] == c;
      assert Owns(l', i, k);
      if i < n { AllocAt(l, i, k); }
    }
    ExtendWellFormed(l, l', o);
  }

  lemma ExtendWellFormed(l: Layout, l': Layout, o: Obj)
    requires WellFormed(l) && l' == l.(objs := l.objs + [o])
    requires Distinct(o.chain) && Elements(o.chain) !! Alloc(l)
    requires forall k | 0 <= k < |o.chain| :: 2 <= o.chain[k] <= l.max && o.chain[k] !in l.bad
    ensures WellFormed(l')
  {
    forall i, k | Owns(l', i, k) ensures 2 <= l'.objs[i].chain[k] <= l.max && l'.objs[i].chain[k] !in l.bad {
      if i < |l.objs| { assert Owns(l, i, k); }
    }
    forall i, k, j, n | Owns(l', i, k) && Owns(l', j, n) && l'.objs[i].chain[k] == l'.objs[j].chain[n]
      ensures i == j && k == n
    {
      if i < |l.objs| { assert Owns(l, i, k); AllocAt(l, i, k); } else { assert o.chain[k] in Elements(o.chain); }
      if j < |l.objs| { assert Owns(l, j, n); AllocAt(l, j, n); } else { assert o.chain[n] in Elements(o.chain); }
    }
  }

  // ---- Scan invariant ------------------------------------------------------------------

  /** The cells in `container` belong to a directory among the scanned objects. */
  ghost predicate InDirectory(v: Vol, root: seq<nat>, files: seq<FileRec>, container: Container) {
    match container
    case RootArea => v.rootFixed
    case InCluster(c) =>
      c <= v.max && (c in root || exists i | 0 <= i < |files| :: files[i].isDir && c in files[i].chain)
  }

  /** The reference is read off the volume and lies in a directory. */
  ghost predicate RefOk(v: Vol, root: seq<nat>, files: seq<FileRec>, ref: Ref)
    requires Loaded(v)
  {
    && InDirectory(v, root, files, ref.at.container)
    && ref.at.slot < |Area(v, ref.at.container)|
    && ref.target == Area(v, ref.at.container)[ref.at.slot].first && ref.target != 0
  }

  ghost predicate RecOk(v: Vol, rec: FileRec, refs: seq<Ref>)
    requires Loaded(v)
  {
    if rec.first == 0 then rec.chain == []
    else IsChain(v, rec.chain) && rec.chain[0] == rec.first && Ref(rec.at, rec.first) in refs
  }

  ghost predicate Good(v: Vol, root: seq<nat>, st: State)
    requires Loaded(v)
  {
    && WellFormed(LayoutWith(v, root, st.files)) && Alloc(LayoutWith(v, root, st.files)) == st.claimed
    && (forall i | 0 <= i < |st.refs| :: RefOk(v, root, st.files, st.refs[i]))
    && (forall i | 0 <= i < |st.files| :: RecOk(v, st.files[i], st.refs))
    && (root != [] ==> IsChain(v, root))
  }

  lemma InDirectoryGrows(v: Vol, root: seq<nat>, files: seq<FileRec>, files': seq<FileRec>, container: Container)
    requires InDirectory(v, root, files, container) && files <= files'
    ensures InDirectory(v, root, files', container)
  {
    if container.InCluster? && container.cluster !in root {
      var i :| 0 <= i < |files| && files[i].isDir && container.cluster in files[i].chain;
      assert files'[i] == files[i];
    }
  }

  lemma GoodAddRef(v: Vol, root: seq<nat>, st: State, at: Offset)
    requires Loaded(v) && Good(v, root, st) && InDirectory(v, root, st.files, at.container)
    requires at.slot < |Area(v, at.container)|
    ensures Good(v, root, AddRef(st, at, Area(v, at.container)[at.slot].first))
  {
    hide WellFormed, Alloc, LayoutWith;
    var st' := AddRef(st, at, Area(v, at.container)[at.slot].first);
    forall i | 0 <= i < |st.files| ensures RecOk(v, st'.files[i], st'.refs) {
      assert RecOk(v, st.files[i], st.refs);
    }
  }

  lemma ObjsAppend(root: seq<nat>, files: seq<FileRec>, rec: FileRec)
    ensures ObjsOf(root, files + [rec]) == ObjsOf(root, files) + [FileObj(rec)]
  {
  }

  lemma GoodRecord(v: Vol, root: seq<nat>, st: State, at: Offset, cell: Cell, path: string)
    requires Loaded(v) && Good(v, root, st) && cell.info.Named?
    requires cell.first != 0 ==> Ref(at, cell.first) in st.refs
    requires Record(v, at, cell, path, st).Ok?
    ensures Good(v, root, Record(v, at, cell, path, st).value)
  {
    var st' := Record(v, at, cell, path, st).value;
    RecordFacts(v, at, cell, path, st);
    var rec := st'.files[|st.files|];
    hide Record, ReadChain, IsChain, WellFormed, Alloc, ObjsOf, RefOk;
    ObjsAppend(root, st.files, rec);
    ChainInRange(v, rec.chain);
    GoodRecordRest(v, root, st, st', rec);
    hide RecOk;
    ExtendLayout(LayoutWith(v, root, st.files), LayoutWith(v, root, st'.files), FileObj(rec));
  }

  lemma RecordFacts(v: Vol, at: Offset, cell: Cell, path: string, st: State)
    requires Loaded(v) && cell.info.Named? && Record(v, at, cell, path, st).Ok?
    requires cell.first != 0 ==> Ref(at, cell.first) in st.refs
    ensures var st' := Record(v, at, cell, path, st).value;
            && |st'.files| == |st.files| + 1 && st'.files == st.files + [st'.files[|st.files|]] && st'.refs == st.refs
            && var rec := st'.files[|st.files|];
               && RecOk(v, rec, st.refs) && Distinct(rec.chain) && Elements(rec.chain) !! st.claimed
               && (rec.chain != [] ==> IsChain(v, rec.chain)) && st'.claimed == st.claimed + Elements(rec.chain)
  {
    hide ReadChain, IsChain;
  }

  lemma ChainInRange(v: Vol, chain: seq<nat>)
    requires Loaded(v) && (chain != [] ==> IsChain(v, chain))
    ensures forall k | 0 <= k < |chain| :: 2 <= chain[k] <= v.max && chain[k] !in BadClusters(v)
  {
  }

  lemma GoodRecordRest(v: Vol, root: seq<nat>, st: State, st': State, rec: FileRec)
    requires Loaded(v) && Good(v, root, st)
    requires st'.files == st.files + [rec] && st'.refs == st.refs && RecOk(v, rec, st.refs)
    ensures forall i | 0 <= i < |st'.refs| :: RefOk(v, root, st'.files, st'.refs[i])
    ensures forall i | 0 <= i < |st'.files| :: RecOk(v, st'.files[i], st'.refs)
  {
    hide WellFormed, Alloc, LayoutWith;
    forall i | 0 <= i < |st'.refs| ensures RefOk(v, root, st'.files, st'.refs[i]) {
      assert RefOk(v, root, st.files, st.refs[i]);
      InDirectoryGrows(v, root, st.files, st'.files, st.refs[i].at.container);
    }
  }

  lemma {:induction false} GoodCells(v: Vol, root: seq<nat>, container: Container, slot: nat, path: string, st: State,
                                     depth: nat)
    requires Loaded(v) && Good(v, root, st) && depth <= MAX_RECURSION_DEPTH
    requires InDirectory(v, root, st.files, container)
    requires ScanCells(v, container, slot, path, st, depth).Ok?
    ensures var r := ScanCells(v, container, slot, path, st, depth).value.0;
            Good(v, root, r) && st.files <= r.files && st.refs <= r.refs
    decreases MAX_RECURSION_DEPTH + 1 - depth, 0, |Area(v, container)| - slot
  {
    assert container.InCluster? ==> container.cluster <= v.max;
    hide Good, InDirectory, Record, ReadChain;
    if slot < |Area(v, container)| {
      var cell := Area(v, container)[slot];
      var at := Offset(container, slot);
      match cell.info
      case EndMark =>
      case Ignored => GoodCells(v, root, container, slot + 1, path, st, depth);
      case Dot =>
        GoodAddRef(v, root, st, at);
        GoodCells(v, root, container, slot + 1, path, AddRef(st, at, cell.first), depth);
      case Named(name, size, isDir) =>
        var st1 := AddRef(st, at, cell.first);
        GoodAddRef(v, root, st, at);
        if name == "" {
          GoodCells(v, root, container, slot + 1, path, st1, depth);
        } else {
          var st2 := Record(v, at, cell, path, st1).value;
          assert cell.first != 0 ==> st1.refs[|st.refs|] == Ref(at, cell.first);
          GoodRecord(v, root, st1, at, cell, path);
          RecordAppends(v, root, at, cell, path, st1);
          InDirectoryGrows(v, root, st1.files, st2.files, container);
          if isDir && cell.first != 0 {
            GoodDirectory(v, root, cell.first, PathJoin(path, name), st2, depth + 1);
            var st3 := ScanDirectory(v, cell.first, PathJoin(path, name), st2, depth + 1).value;
            InDirectoryGrows(v, root, st2.files, st3.files, container);
            GoodCells(v, root, container, slot + 1, path, st3, depth);
          } else {
            GoodCells(v, root, container, slot + 1, path, st2, depth);
          }
        }
    }
  }

  lemma RecordAppends(v: Vol, root: seq<nat>, at: Offset, cell: Cell, path: string, st: State)
    requires Loaded(v) && cell.info.Named? && Record(v, at, cell, path, st).Ok?
    ensures var r := Record(v, at, cell, path, st).value;
            st.files <= r.files && r.refs == st.refs && r.visited == st.visited
    ensures cell.info.isDir && cell.first != 0 ==>
            DirChainKnown(v, root, Record(v, at, cell, path, st).value.files, cell.first)
  {
    var r := Record(v, at, cell, path, st).value;
    if cell.info.isDir && cell.first != 0 {
      var chain := ReadChain(v, cell.first, {}).value;
      assert r.files[|st.files|].chain == chain && r.files[|st.files|].isDir;
    }
  }

  /** The directory's clusters belong to a scanned directory object. */
  ghost predicate DirChainKnown(v: Vol, root: seq<nat>, files: seq<FileRec>, first: nat)
    requires Loaded(v)
  {
    ReadChain(v, first, {}).Ok? ==>
      forall k | 0 <= k < |ReadChain(v, first, {}).value| ::
        InDirectory(v, root, files, InCluster(ReadChain(v, first, {}).value[k]))
  }

  lemma {:induction false} GoodUnits(v: Vol, root: seq<nat>, units: seq<Container>, n: nat, path: string, st: State,
                                     depth: nat)
    requires Loaded(v) && Good(v, root, st) && depth <= MAX_RECURSION_DEPTH && n <= |units|
    requires forall k | 0 <= k < |units| ::
      InDirectory(v, root, st.files, units[k]) && (units[k].InCluster? ==> units[k].cluster <= v.max)
    requires ScanUnits(v, units, n, path, st, depth).Ok?
    ensures var r := ScanUnits(v, units, n, path, st, depth).value;
            Good(v, root, r) && st.files <= r.files && st.refs <= r.refs
    decreases MAX_RECURSION_DEPTH + 1 - depth, 1, |units| - n
  {
    hide Good, InDirectory, ScanCells;
    if n < |units| {
      GoodCells(v, root, units[n], 0, path, st, depth);
      var st1 := ScanCells(v, units[n], 0, path, st, depth).value;
      if !st1.1 {
        forall k | 0 <= k < |units| ensures InDirectory(v, root, st1.0.files, units[k]) {
          InDirectoryGrows(v, root, st.files, st1.0.files, units[k]);
        }
        GoodUnits(v, root, units, n + 1, path, st1.0, depth);
      }
    }
  }

  lemma {:induction false} GoodDirectory(v: Vol, root: seq<nat>, first: nat, path: string, st: State, depth: nat)
    requires Loaded(v) && Good(v, root, st) && DirChainKnown(v, root, st.files, first)
    requires ScanDirectory(v, first, path, st, depth).Ok?
    ensures var r := ScanDirectory(v, first, path, st, depth).value;
            Good(v, root, r) && st.files <= r.files && st.refs <= r.refs
    decreases MAX_RECURSION_DEPTH + 1 - depth, 2, 0
  {
    hide ScanUnits, ScanCells, ReadChain;
    if v.rootFixed && first == 0 && depth == 0 {
      GoodUnits(v, root, [RootArea], 0, path, st, depth);
    } else {
      var chain := ReadChain(v, first, {}).value;
      var st1 := st.(visited := st.visited + {first});
      GoodVisited(v, root, st, first);
      forall k | 0 <= k < |chain| ensures InDirectory(v, root, st.files, Units(chain)[k]) {
        assert InDirectory(v, root, st.files, InCluster(chain[k]));
      }
      GoodUnits(v, root, Units(chain), 0, path, st1, depth);
    }
  }

  lemma GoodVisited(v: Vol, root: seq<nat>, st: State, first: nat)
    requires Loaded(v) && Good(v, root, st)
    ensures Good(v, root, st.(visited := st.visited + {first}))
  {
  }

  /** A scanned volume: chains follow the table, are disjoint and cover every
      allocated cluster; every first cluster is referenced. */
  lemma ScanIsGood(v: Vol)
    requires Loaded(v) && ScanFiles(v).Ok?
    ensures RootChain(v).Ok? && Good(v, RootChain(v).value, ScanFiles(v).value)
    ensures WellFormed(LayoutOf(v))
    ensures forall c | 2 <= c <= v.max :: c in Alloc(LayoutOf(v)) <==> Fat(v, c) != 0 && Fat(v, c) != BadValue(v.kind)
    ensures forall c | 2 <= c <= v.max :: c in Free(LayoutOf(v)) <==> Fat(v, c) == 0
  {
    hide ScanDirectory, ScanUnits, ScanCells, ReadChain;
    var root := RootChain(v).value;
    var st0 := State([], [], {}, Elements(root));
    GoodStart(v, root);
    GoodDirectory(v, root, RootCluster(v), "", st0, 0);
    ScanCovers(v, root, ScanFiles(v).value);
  }

  lemma GoodStart(v: Vol, root: seq<nat>)
    requires Loaded(v) && RootChain(v) == Ok(root)
    ensures Good(v, root, State([], [], {}, Elements(root)))
    ensures DirChainKnown(v, root, [], RootCluster(v))
  {
    StartLayout(v, root);
    if root != [] { assert IsChain(v, root); }
    hide LayoutWith, WellFormed, Alloc, IsChain, BadClusters;
  }

  lemma StartLayout(v: Vol, root: seq<nat>)
    requires Loaded(v) && (root != [] ==> IsChain(v, root) && Distinct(root))
    ensures WellFormed(LayoutWith(v, root, [])) && Alloc(LayoutWith(v, root, [])) == Elements(root)
  {
    var empty := Layout(v.max, BadClusters(v), []);
    var l := LayoutWith(v, root, []);
    assert Alloc(empty) == {};
    if root == [] {
      assert l == empty;
      assert Elements(root) == {};
    } else {
      ChainInRange(v, root);
      hide IsChain, Alloc, WellFormed, BadClusters;
      assert l == empty.(objs := empty.objs + [Obj(true, true, "<root directory>", root)]);
      assert WellFormed(empty) by { EmptyWellFormed(v.max, BadClusters(v)); }
      ExtendLayout(empty, l, Obj(true, true, "<root directory>", root));
    }
  }

  lemma EmptyWellFormed(max: nat, bad: set<nat>)
    ensures WellFormed(Layout(max, bad, []))
  {
  }

  lemma ScanCovers(v: Vol, root: seq<nat>, st: State)
    requires Loaded(v) && Good(v, root, st) && NothingLost(v, st.claimed)
    ensures var l := LayoutWith(v, root, st.files);
            forall c | 2 <= c <= v.max ::
              && (c in Alloc(l) <==> Fat(v, c) != 0 && Fat(v, c) != BadValue(v.kind))
              && (c in Free(l) <==> Fat(v, c) == 0)
  {
    var l := LayoutWith(v, root, st.files);
    AllocHeld(v, root, st);
    forall c | 2 <= c <= v.max
      ensures c in Alloc(l) <==> Fat(v, c) != 0 && Fat(v, c) != BadValue(v.kind)
      ensures c in Free(l) <==> Fat(v, c) == 0
    {
      assert Between(2, c, v.max + 1);
    }
  }

  lemma AllocHeld(v: Vol, root: seq<nat>, st: State)
    requires Loaded(v) && Good(v, root, st)
    ensures forall c | c in Alloc(LayoutWith(v, root, st.files)) :: Held(v, c)
  {
    var l := LayoutWith(v, root, st.files);
    forall c | c in Alloc(l) ensures Held(v, c) {
      var i, k :| Owns(l, i, k) && l.objs[i].chain[k] == c;
      assert Owns(l, i, k);
      ObjIsChain(v, root, st, i);
    }
  }

  /** Every non-empty object of the layout follows the table. */
  lemma ObjIsChain(v: Vol, root: seq<nat>, st: State, i: nat)
    requires Loaded(v) && Good(v, root, st) && i < |ObjsOf(root, st.files)|
    ensures ObjsOf(root, st.files)[i].chain != [] ==> IsChain(v, ObjsOf(root, st.files)[i].chain)
  {
    hide WellFormed, Alloc, LayoutWith, IsChain, RefOk;
    var n := if root == [] then 0 else 1;
    ObjAt(root, st.files, i);
    if i >= n {
      assert RecOk(v, st.files[i - n], st.refs);
    }
  }

  lemma ObjAt(root: seq<nat>, files: seq<FileRec>, i: nat)
    requires i < |ObjsOf(root, files)|
    ensures var n := if root == [] then 0 else 1;
            if i < n then ObjsOf(root, files)[i].chain == root
            else i - n < |files| && ObjsOf(root, files)[i] == FileObj(files[i - n])
  {
  }
}
