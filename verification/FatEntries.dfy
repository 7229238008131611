/** Directory entries after a relocation, entry by entry. */
module FatEntries {
  import opened ClusterLayout
  import opened FatVolume
  import opened FatJournal
  import opened FatScan
  import opened FatRelocation
  import opened FatMeaning
  import opened FatReferences

  /** Cluster `c` ends up at `c'`. */
  predicate Goes(moves: seq<Move>, c: nat, c': nat) {
    && (forall k | 0 <= k < |moves| && moves[k].source == c :: c' == moves[k].destination)
    && ((forall k | 0 <= k < |moves| :: moves[k].source != c) ==> c' == c)
  }

  /** Where an entry of `was` stands afterwards. */
  predicate GoesTo(moves: seq<Move>, was: Container, now: Container) {
    match was
    case RootArea => now.RootArea?
    case InCluster(c) => now.InCluster? && Goes(moves, c, now.cluster)
  }

  lemma ImageGoes(moves: seq<Move>, c: nat)
    requires DistinctMoves(moves)
    ensures Goes(moves, c, Image(RelocationMap(moves), c))
  {
    var m := RelocationMap(moves);
    forall k | 0 <= k < |moves| && moves[k].source == c ensures Image(m, c) == moves[k].destination {
      ImageAt(moves, k);
    }
    if forall k | 0 <= k < |moves| :: moves[k].source != c { assert c !in Sources(moves); }
  }

  /** Blocks of a directory are in use. */
  lemma DirectoryUsed(v: Vol, d: Dir, n: nat)
    requires Loaded(v) && ScanFiles(v).Ok? && RootChain(v).Ok? && IsDirectory(v, d) && n < |d.units|
    ensures UsedContainer(v, d.units[n])
  {
    hide ScanFiles, ReadChain;
    ScanIsGood(v);
    hide WellFormed, Alloc;
    var st := ScanFiles(v).value;
    if d == RootDir(v) {
      if !v.rootFixed { ChainUsed(v, RootChain(v).value); }
    } else {
      var i :| 0 <= i < |st.files| && Descends(st.files[i]) && d == DirOf(st.files[i]);
      assert RecOk(v, st.files[i], st.refs);
      ChainUsed(v, st.files[i].chain);
    }
  }

  /** Every live entry of every directory is found again: dot entries and named ones name the
      cluster that the one they named went to, and nothing else about any entry changes. */
  lemma EntriesFollow(v: Vol, pred: seq<nat>, moves: seq<Move>, j: Journal, d: Dir, n: nat, s: nat)
    returns (to: Container)
    requires Transaction(v, pred, moves, j) && RootChain(v).Ok? && IsDirectory(v, d)
    requires OnVolume(v, d.units) && Live(v, d.units, n, s)
    ensures JournalFits(v, j) && GoesTo(moves, d.units[n], to) && (to.InCluster? ==> to.cluster <= v.max)
    ensures s < |Area(Complete(v, j), to)|
    ensures var was, now := Area(v, d.units[n])[s], Area(Complete(v, j), to)[s];
            && now.info == was.info
            && (was.info.Dot? || was.info.Named? ==> Goes(moves, was.first, now.first))
            && (was.info.Ignored? ==> now.first == was.first)
  {
    LiveInside(v, d.units, n, s);
    hide Transaction, ScanFiles, Complete, MapOf, IsDirectory, Live, RelocationMap, DirRead;
    JournalFacts(v, pred, moves, j);
    LegalOf(v, pred, moves, j);
    DirectoryUsed(v, d, n);
    var m, at := MapOf(j), Offset(d.units[n], s);
    AreaRenamed(v, pred, moves, j, d.units[n]);
    to := RenameContainer(m, d.units[n]);
    MovesDistinct(v, pred, moves, j);
    if d.units[n].InCluster? { ImageGoes(moves, d.units[n].cluster); }
    var was := Area(v, d.units[n])[s];
    ImageGoes(moves, was.first);
    ReadAtAll(v, d, n, s);
    NotReferred(v, d.units[n], s);
    ZeroStays(v, pred, moves, j);
  }

  lemma MovesDistinct(v: Vol, pred: seq<nat>, moves: seq<Move>, j: Journal)
    requires Transaction(v, pred, moves, j)
    ensures DistinctMoves(moves)
  {
    hide ScanFiles, LayoutOf, MakeJournal;
  }

  lemma ZeroStays(v: Vol, pred: seq<nat>, moves: seq<Move>, j: Journal)
    requires Transaction(v, pred, moves, j)
    ensures Image(MapOf(j), 0) == 0
  {
    hide Transaction, ScanFiles;
    JournalFacts(v, pred, moves, j);
    LegalOf(v, pred, moves, j);
  }

  lemma ReadAtAll(v: Vol, d: Dir, n: nat, s: nat)
    requires Loaded(v) && ScanFiles(v).Ok? && RootChain(v).Ok? && IsDirectory(v, d)
    requires OnVolume(v, d.units) && Live(v, d.units, n, s)
    ensures CellRead(v, d, n, s, ScanFiles(v).value)
  {
    hide ScanFiles, Live, CellRead, IsDirectory;
    EveryCellRead(v, d);
  }

  /** An entry that is neither a dot entry nor named is nobody's reference. */
  lemma NotReferred(v: Vol, container: Container, s: nat)
    requires Loaded(v) && ScanFiles(v).Ok? && RootChain(v).Ok? && (container.InCluster? ==> container.cluster <= v.max)
    requires s < |Area(v, container)|
    ensures !Area(v, container)[s].info.Dot? && !Area(v, container)[s].info.Named? ==>
            forall t :: Ref(Offset(container, s), t) !in ScanFiles(v).value.refs
  {
    hide ScanFiles, Live, IsDirectory;
    NothingElseRead(v);
    var refs := ScanFiles(v).value.refs;
    forall t | Ref(Offset(container, s), t) in refs
      ensures Area(v, container)[s].info.Dot? || Area(v, container)[s].info.Named?
    {
      var i :| 0 <= i < |refs| && refs[i] == Ref(Offset(container, s), t);
      assert IsReference(v, refs[i]);
      var d: Dir, n: nat, k: nat :| IsDirectory(v, d) && RefAt(v, d, n, k, refs[i]);
      LiveInside(v, d.units, n, k);
    }
  }

  /** An entry that named the first cluster of a file or directory, such as "." and "..", names
      its first cluster afterwards. */
  lemma NamesFollow(v: Vol, pred: seq<nat>, moves: seq<Move>, j: Journal, d: Dir, n: nat, s: nat, i: nat)
    returns (to: Container)
    requires Transaction(v, pred, moves, j) && LinkSafe(v, MapOf(j)) && RootChain(v).Ok? && IsDirectory(v, d)
    requires OnVolume(v, d.units) && Live(v, d.units, n, s) && i < |ScanFiles(v).value.files|
    requires var was := Area(v, d.units[n])[s];
             (was.info.Dot? || was.info.Named?) && was.first == ScanFiles(v).value.files[i].first != 0
    ensures JournalFits(v, j) && GoesTo(moves, d.units[n], to) && (to.InCluster? ==> to.cluster <= v.max)
    ensures ScanFiles(Complete(v, j)).Ok? && i < |ScanFiles(Complete(v, j)).value.files|
    ensures s < |Area(Complete(v, j), to)|
    ensures var after := ScanFiles(Complete(v, j)).value.files[i];
            && Area(Complete(v, j), to)[s].first == after.first && after.chain != [] && after.first == after.chain[0]
            && Area(Complete(v, j), to)[s].info == Area(v, d.units[n])[s].info
  {
    LiveInside(v, d.units, n, s);
    hide Transaction, ScanFiles, Complete, MapOf, IsDirectory, Live, RelocationMap, LinkSafe, LayoutOf, Relocate;
    to := EntriesFollow(v, pred, moves, j, d, n, s);
    RelocationPreservesMeaning(v, pred, moves, j);
    JournalFacts(v, pred, moves, j);
    MovesDistinct(v, pred, moves, j);
    var was := ScanFiles(v).value.files[i];
    ImageGoes(moves, was.first);
    OneImage(moves, was.first, Image(MapOf(j), was.first), Area(Complete(v, j), to)[s].first);
    ScanIsGood(v);
    assert RecOk(v, was, ScanFiles(v).value.refs);
  }

  lemma OneImage(moves: seq<Move>, c: nat, a: nat, b: nat)
    requires Goes(moves, c, a) && Goes(moves, c, b)
    ensures a == b
  {
    if k :| 0 <= k < |moves| && moves[k].source == c {}
  }

  /** With mirroring every copy of the table is updated alike; without it only the active one is. A moved root is
      recorded in every boot sector. */
  lemma CopiesFollow(v: Vol, j: Journal, k: nat)
    requires Loaded(v) && JournalFits(v, j) && k < |v.fats|
    ensures |Complete(v, j).fats| == |v.fats| && |Complete(v, j).boots| == |v.boots|
    ensures !v.mirroring && k != v.active ==> Complete(v, j).fats[k] == v.fats[k]
    ensures v.mirroring && v.fats[k] == v.fats[v.active] ==> Complete(v, j).fats[k] == Complete(v, j).fats[v.active]
    ensures forall i | 0 <= i < |v.boots| :: j.rootNew != j.rootOld ==> Complete(v, j).boots[i] == j.rootNew
  {
    hide NewFat, PatchBlock, PatchMap;
  }
}
