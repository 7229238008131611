/** When a relocation can be journalled, and where the engine falls short of its promise. */
module FatTransaction {
  import opened Basics
  import opened ClusterLayout
  import opened FatVolume
  import opened FatScan
  import opened FatJournal
  import opened FatRelocation
  import opened FatMeaning

  // ---- Journals can always be made -----------------------------------------------------

  /** An allocated cluster that links onward is followed by its target in its object. */
  lemma LinkPosition(v: Vol, root: seq<nat>, st: State, p: nat) returns (i: nat, k: nat)
    requires Loaded(v) && Good(v, root, st) && p in Alloc(LayoutWith(v, root, st.files)) && p <= v.max
    requires IsLink(v, Fat(v, p))
    ensures var l := LayoutWith(v, root, st.files);
            && Owns(l, i, k) && Owns(l, i, k + 1)
            && l.objs[i].chain[k] == p && l.objs[i].chain[k + 1] == Fat(v, p)
  {
    hide WellFormed, Good, ObjsOf, BadClusters;
    var l := LayoutWith(v, root, st.files);
    i, k :| Owns(l, i, k) && l.objs[i].chain[k] == p;
    assert Owns(l, i, k);
    ObjIsChain(v, root, st, i);
    NotLast(v, l.objs[i].chain, k);
  }

  /** Only the last cluster of a chain holds an end mark. */
  lemma NotLast(v: Vol, chain: seq<nat>, k: nat)
    requires Loaded(v) && IsChain(v, chain) && k < |chain| && chain[k] <= v.max && IsLink(v, Fat(v, chain[k]))
    ensures k < |chain| - 1 && chain[k + 1] == Fat(v, chain[k])
  {
    assert !IsEoc(v, Fat(v, chain[k]));
  }

  /** Two entries never name the same cluster on a scanned volume. */
  lemma ScannedLinksUnique(v: Vol)
    requires Loaded(v) && ScanFiles(v).Ok?
    ensures LinksUnique(v)
  {
    hide ScanFiles, LayoutOf, Good;
    ScanIsGood(v);
    var root, st := RootChain(v).value, ScanFiles(v).value;
    ScanFacts(v, root, st);
    var l := LayoutWith(v, root, st.files);
    forall p, q | 2 <= p <= v.max && 2 <= q <= v.max && IsLink(v, Fat(v, p)) && Fat(v, p) == Fat(v, q)
      ensures p == q
    {
      var i, k := LinkPosition(v, root, st, p);
      var a, b := LinkPosition(v, root, st, q);
      assert i == a && k + 1 == b + 1;
    }
  }

  lemma ScanFacts(v: Vol, root: seq<nat>, st: State)
    requires Loaded(v) && ScanFiles(v) == Ok(st) && RootChain(v) == Ok(root)
    ensures Good(v, root, st) && WellFormed(LayoutWith(v, root, st.files))
    ensures LayoutOf(v) == LayoutWith(v, root, st.files)
    ensures forall c | 2 <= c <= v.max && Fat(v, c) != 0 && Fat(v, c) != BadValue(v.kind) ::
      c in Alloc(LayoutWith(v, root, st.files))
    ensures root != [] ==> root[0] == RootCluster(v)
  {
    ScanIsGood(v);
  }

  lemma FollowerHasPredecessor(v: Vol, pred: seq<nat>, chain: seq<nat>, k: nat)
    requires Loaded(v) && IsPredTable(v, pred) && IsChain(v, chain) && 0 < k < |chain|
    ensures chain[k] <= v.max && pred[chain[k]] != 0
  {
    assert Held(v, chain[k - 1]) && Held(v, chain[k]) && Fat(v, chain[k - 1]) == chain[k];
    assert IsLink(v, Fat(v, chain[k - 1]));
  }

  lemma HeadNamed(v: Vol, root: seq<nat>, st: State, i: nat)
    requires Loaded(v) && Good(v, root, st) && (root != [] ==> root[0] == RootCluster(v))
    requires i < |ObjsOf(root, st.files)| && ObjsOf(root, st.files)[i].chain != []
    ensures var c := ObjsOf(root, st.files)[i].chain[0]; c == RootCluster(v) || Referenced(st.refs, c)
  {
    hide WellFormed, Alloc, LayoutWith, IsChain, Good, Referenced, RefOk, ObjsOf, RecOk;
    var n := if root == [] then 0 else 1;
    ObjsList(root, st.files, i);
    if i >= n {
      FileHead(v, root, st, i - n);
    }
  }

  lemma ObjsList(root: seq<nat>, files: seq<FileRec>, i: nat)
    requires i < |ObjsOf(root, files)|
    ensures var n := if root == [] then 0 else 1;
            if i < n then root != [] && ObjsOf(root, files)[i].chain == root
            else i - n < |files| && ObjsOf(root, files)[i].chain == files[i - n].chain
  {
  }

  lemma FileHead(v: Vol, root: seq<nat>, st: State, f: nat)
    requires Loaded(v) && Good(v, root, st) && f < |st.files| && st.files[f].chain != []
    ensures Referenced(st.refs, st.files[f].chain[0])
  {
    var rec := st.files[f];
    assert RecOk(v, rec, st.refs);
    hide WellFormed, Alloc, LayoutWith, IsChain, Good, Referenced, RefOk;
    RefNames(st.refs, Ref(rec.at, rec.first));
  }

  lemma RefNames(refs: seq<Ref>, ref: Ref)
    requires ref in refs
    ensures Referenced(refs, ref.target)
  {
  }

  /** A moved cluster without a predecessor heads its object, so something names it. */
  lemma HeadIsNamed(v: Vol, pred: seq<nat>, c: nat)
    requires Loaded(v) && ScanFiles(v).Ok? && IsPredTable(v, pred) && c in Alloc(LayoutOf(v)) && 2 <= c <= v.max
    requires pred[c] == 0
    ensures c == RootCluster(v) || Referenced(ScanFiles(v).value.refs, c)
  {
    hide ScanFiles, LayoutOf, WellFormed, RootChain, Referenced, Good, IsPredTable, IsChain;
    ScanIsGood(v);
    var root, st := RootChain(v).value, ScanFiles(v).value;
    ScanFacts(v, root, st);
    var l := LayoutWith(v, root, st.files);
    var i: nat, k: nat :| Owns(l, i, k) && l.objs[i].chain[k] == c;
    assert Owns(l, i, k);
    ObjIsChain(v, root, st, i);
    if k == 0 {
      HeadNamed(v, root, st, i);
    } else {
      FollowerHasPredecessor(v, pred, l.objs[i].chain, k);
    }
  }

  /** A scanned volume and a legal move list always yield a journal. */
  lemma JournalAlwaysMade(v: Vol, pred: seq<nat>, moves: seq<Move>)
    requires Loaded(v) && ScanFiles(v).Ok? && IsPredTable(v, pred) && Legal(LayoutOf(v), moves)
    ensures MakeJournal(v, ScanFiles(v).value.refs, pred, moves).Ok?
  {
    hide ScanFiles, LayoutOf, RelocationMap, Referenced;
    LegalIsValid(v, moves);
    var filled := FillMoves(v, pred, moves);
    var refs, root := ScanFiles(v).value.refs, RootCluster(v);
    forall i | 0 <= i < |filled| && filled[i].predecessor == 0
      ensures filled[i].source == root || Referenced(refs, filled[i].source)
    {
      assert InRange(v.max, moves[i]);
      HeadIsNamed(v, pred, moves[i].source);
    }
  }

  // ---- The textual journal reader --------------------------------------------------------

  /** A journal written for a volume is readable again exactly when the root directory
      is a cluster chain: on FAT12 and FAT16 the root fields are 0 and are refused. */
  lemma ReaderAcceptsExactly(v: Vol, pred: seq<nat>, moves: seq<Move>, j: Journal)
    requires Transaction(v, pred, moves, j) && moves != []
    ensures ReaderAccepts(j) <==> !v.rootFixed
  {
    LegalOf(v, pred, moves, j);
    JournalFacts(v, pred, moves, j);
    MapRange(v, pred, moves, j);
    hide Transaction, RelocationMap;
    if !v.rootFixed {
      assert RootChain(v).Ok?;
      assert 2 <= RootCluster(v) by { ReadStep(v, RootCluster(v), {}); }
    }
  }

  // ---- Cluster numbers in the reserved range ----------------------------------------------

  /** The largest FAT12 volume, holding one file in clusters 2 and 3. */
  function LargestFat12(): Vol {
    Vol(Fat12, 0xFF5, 1, [seq(0xFF6, c => if c == 2 then 3 else if c == 3 then 0xFFF else 0)], 0, true,
        seq(0xFF6, c => []), 0, true, [Cell(2, Named("A", 2, false))], [0])
  }

  function LargestFat12Predecessors(): seq<nat> {
    seq(0xFF6, c => if c == 3 then 2 else 0)
  }

  lemma LargestFat12Scans()
    ensures var v := LargestFat12();
            && Loaded(v) && IsPredTable(v, LargestFat12Predecessors())
            && ScanFiles(v).Ok? && ScanFiles(v).value.files == [FileRec("A", Offset(RootArea, 0), 2, 2, false, [2, 3])]
  {
    var v := LargestFat12();
    assert ReadChain(v, 3, {2}) == Ok([3]);
    assert ReadChain(v, 2, {}) == Ok([2] + [3]) by { assert {} + {2} == {2 as nat}; }
    var st0 := State([], [], {}, {});
    var at := Offset(RootArea, 0);
    var st1 := AddRef(st0, at, 2);
    var chain: seq<nat> := [2, 3];
    assert chain == [2] + [3];
    assert PathJoin("", "A") == "A";
    var rec := FileRec("A", at, 2, 2, false, chain);
    var st2 := st1.(files := [rec], claimed := Elements(chain));
    assert ChainOf(v, 2) == Ok(chain) && ExpectedClusters(v, 2) == 2;
    assert st1.claimed + Elements(chain) == Elements(chain) && st1.files + [rec] == [rec];
    assert Elements(chain) * st1.claimed == {};
    assert Record(v, at, v.rootArea[0], "", st1) == Ok(st2);
    assert ScanCells(v, RootArea, 1, "", st2, 0) == Ok((st2, false));
    assert ScanCells(v, RootArea, 0, "", st0, 0) == Ok((st2, false));
    assert ScanUnits(v, [RootArea], 1, "", st2, 0) == Ok(st2);
    assert ScanUnits(v, [RootArea], 0, "", st0, 0) == Ok(st2);
    assert Elements([]) == {};
    assert chain[0] in Elements(chain) && chain[1] in Elements(chain);
    assert NothingLost(v, st2.claimed);
  }

  /** Moving its second cluster to the last one leaves a volume that no longer scans. */
  lemma ReservedClusterCounterexample() returns (j: Journal)
    ensures Transaction(LargestFat12(), LargestFat12Predecessors(), [Move(3, 0xFF5)], j)
    ensures JournalFits(LargestFat12(), j) && ScanFiles(Complete(LargestFat12(), j)).Error?
  {
    var v, pred, moves := LargestFat12(), LargestFat12Predecessors(), [Move(3, 0xFF5)];
    LargestFat12Scans();
    hide ScanFiles;
    var l := LayoutOf(v);
    ScanIsGood(v);
    assert Legal(l, moves);
    JournalAlwaysMade(v, pred, moves);
    j := MakeJournal(v, ScanFiles(v).value.refs, pred, moves).value;
    JournalFacts(v, pred, moves, j);
    ImageAt(moves, 0);
    assert Used(v, 2) && Fat(v, 2) in MapOf(j);
    RelocationPreservesMeaning(v, pred, moves, j);
  }
}
