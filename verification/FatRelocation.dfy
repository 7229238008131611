/** The relocated volume is the old one with clusters renamed. */
module FatRelocation {
  import opened Basics
  import opened ClusterLayout
  import opened FatVolume
  import opened FatScan
  import opened FatJournal

  // ---- Update and patch maps -------------------------------------------------------------

  lemma {:induction false} UpdateMapValue(us: seq<Update>, c: nat, x: nat)
    requires forall i | 0 <= i < |us| && us[i].cluster == c :: us[i].value == x
    ensures c in UpdateMap(us) <==> exists i | 0 <= i < |us| :: us[i].cluster == c
    ensures c in UpdateMap(us) ==> UpdateMap(us)[c] == x
  {
    if us != [] {
      var rest := us[..|us| - 1];
      UpdateMapValue(rest, c, x);
      assert forall i | 0 <= i < |rest| :: rest[i] == us[i];
      if us[|us| - 1].cluster != c && exists i | 0 <= i < |us| :: us[i].cluster == c {
        var i :| 0 <= i < |us| && us[i].cluster == c;
        assert rest[i].cluster == c;
      }
    }
  }

  lemma {:induction false} PatchMapValue(ps: seq<DirPatch>, at: Offset, x: nat)
    requires forall i | 0 <= i < |ps| && ps[i].at == at :: ps[i].newTarget == x
    ensures at in PatchMap(ps) <==> exists i | 0 <= i < |ps| :: ps[i].at == at
    ensures at in PatchMap(ps) ==> PatchMap(ps)[at] == x
  {
    if ps != [] {
      var rest := ps[..|ps| - 1];
      PatchMapValue(rest, at, x);
      assert forall i | 0 <= i < |rest| :: rest[i] == ps[i];
      if ps[|ps| - 1].at != at && exists i | 0 <= i < |ps| :: ps[i].at == at {
        var i :| 0 <= i < |ps| && ps[i].at == at;
        assert rest[i].at == at;
      }
    }
  }

  lemma {:induction false} PredecessorLinkFrom(m: map<nat, nat>, moves: seq<CompactMove>, n: nat) returns (i: nat)
    requires n < |PredecessorLinks(m, moves)|
    ensures i < |moves| && moves[i].predecessor != 0 && moves[i].predecessor !in m
    ensures PredecessorLinks(m, moves)[n] == Update(moves[i].predecessor, moves[i].destination)
  {
    var rest := moves[..|moves| - 1];
    if n < |PredecessorLinks(m, rest)| {
      i := PredecessorLinkFrom(m, rest, n);
    } else {
      i := |moves| - 1;
    }
  }

  lemma {:induction false} PredecessorLinkTo(m: map<nat, nat>, moves: seq<CompactMove>, i: nat) returns (n: nat)
    requires i < |moves| && moves[i].predecessor != 0 && moves[i].predecessor !in m
    ensures n < |PredecessorLinks(m, moves)|
    ensures PredecessorLinks(m, moves)[n] == Update(moves[i].predecessor, moves[i].destination)
  {
    var rest := moves[..|moves| - 1];
    if i < |rest| {
      n := PredecessorLinkTo(m, rest, i);
    } else {
      n := |PredecessorLinks(m, rest)|;
    }
  }

  lemma {:induction false} PatchFrom(m: map<nat, nat>, refs: seq<Ref>, n: nat) returns (i: nat)
    requires n < |DirPatches(m, refs)|
    ensures i < |refs| && refs[i].target in m
    ensures DirPatches(m, refs)[n] == DirPatch(MoveOffset(m, refs[i].at), refs[i].target, m[refs[i].target])
  {
    var rest := refs[..|refs| - 1];
    if n < |DirPatches(m, rest)| {
      i := PatchFrom(m, rest, n);
    } else {
      i := |refs| - 1;
    }
  }

  lemma {:induction false} PatchTo(m: map<nat, nat>, refs: seq<Ref>, i: nat) returns (n: nat)
    requires i < |refs| && refs[i].target in m
    ensures n < |DirPatches(m, refs)|
    ensures DirPatches(m, refs)[n] == DirPatch(MoveOffset(m, refs[i].at), refs[i].target, m[refs[i].target])
  {
    var rest := refs[..|refs| - 1];
    if i < |rest| {
      n := PatchTo(m, rest, i);
    } else {
      n := |DirPatches(m, rest)|;
    }
  }

  // ---- The transaction in context ----------------------------------------------------------

  /** A scanned volume, a legal move list and the journal made from them. */
  ghost predicate Transaction(v: Vol, pred: seq<nat>, moves: seq<Move>, j: Journal) {
    && Loaded(v) && ScanFiles(v).Ok? && IsPredTable(v, pred)
    && Legal(LayoutOf(v), moves)
    && MakeJournal(v, ScanFiles(v).value.refs, pred, moves) == Ok(j)
  }

  lemma LegalIsValid(v: Vol, moves: seq<Move>)
    requires Loaded(v) && ScanFiles(v).Ok? && Legal(LayoutOf(v), moves)
    ensures ValidMoves(v.max, moves)
    ensures forall s | s in Sources(moves) :: 2 <= s <= v.max && Fat(v, s) != 0 && Fat(v, s) != BadValue(v.kind)
    ensures forall d | d in Destinations(moves) :: 2 <= d <= v.max && Fat(v, d) == 0
  {
    hide ScanFiles, LayoutOf;
    ScanIsGood(v);
    AllocInRange(LayoutOf(v));
    assert LayoutOf(v).max == v.max by { LayoutMax(v); }
    forall i | 0 <= i < |moves| ensures InRange(v.max, moves[i]) {
      assert moves[i].source in Range(2, v.max + 1) && moves[i].destination in Range(2, v.max + 1);
    }
  }

  lemma LayoutMax(v: Vol)
    requires Loaded(v) && ScanFiles(v).Ok?
    ensures LayoutOf(v).max == v.max && LayoutOf(v).bad == BadClusters(v)
  {
  }

  lemma JournalFacts(v: Vol, pred: seq<nat>, moves: seq<Move>, j: Journal)
    requires Transaction(v, pred, moves, j)
    ensures ValidMoves(v.max, moves) && Plain(j.moves) == moves && MapOf(j) == RelocationMap(moves)
    ensures JournalFits(v, j) && |j.moves| == |moves|
    ensures forall i | 0 <= i < |moves| ::
      && j.moves[i].source == moves[i].source && j.moves[i].destination == moves[i].destination
      && 2 <= moves[i].source <= v.max && j.moves[i].next == Fat(v, moves[i].source)
      && j.moves[i].predecessor == pred[moves[i].source]
    ensures j.patches == DirPatches(MapOf(j), ScanFiles(v).value.refs)
    ensures j.rootOld == RootCluster(v) && j.rootNew == Image(MapOf(j), RootCluster(v))
  {
    hide ScanFiles, LayoutOf;
    LegalIsValid(v, moves);
    assert Plain(j.moves) == moves;
    forall i | 0 <= i < |moves| ensures InRange(v.max, moves[i]) {}
  }

  // ---- Table entries --------------------------------------------------------------------------

  /** Table entries that no update names. */
  lemma LinkAbsent(max: nat, j: Journal, c: nat)
    requires forall i | 0 <= i < |j.moves| :: j.moves[i].destination != c
    requires forall i | 0 <= i < |j.moves| :: j.moves[i].predecessor == c ==> c == 0 || c in MapOf(j)
    ensures c !in UpdateMap(LinkUpdates(max, j))
  {
    var us := LinkUpdates(max, j);
    forall i | 0 <= i < |us| ensures us[i].cluster != c {
      if i >= |j.moves| {
        var k := PredecessorLinkFrom(MapOf(j), j.moves, i - |j.moves|);
      }
    }
    UpdateMapValue(us, c, 0);
  }

  lemma LinkDestination(max: nat, j: Journal, n: nat)
    requires n < |j.moves| && DistinctMoves(Plain(j.moves))
    requires forall i | 0 <= i < |j.moves| :: j.moves[i].predecessor != j.moves[n].destination
    ensures var c := j.moves[n].destination; var links := UpdateMap(LinkUpdates(max, j));
            c in links && links[c] == NewNext(max, MapOf(j), j.moves[n].next)
  {
    var c := j.moves[n].destination;
    var us := LinkUpdates(max, j);
    forall i | 0 <= i < |us| && us[i].cluster == c ensures us[i].value == NewNext(max, MapOf(j), j.moves[n].next) {
      if i >= |j.moves| {
        var k := PredecessorLinkFrom(MapOf(j), j.moves, i - |j.moves|);
      } else {
        assert Plain(j.moves)[i].destination == Plain(j.moves)[n].destination;
      }
    }
    assert us[n].cluster == c;
    UpdateMapValue(us, c, NewNext(max, MapOf(j), j.moves[n].next));
  }

  lemma LinkPredecessor(max: nat, j: Journal, n: nat)
    requires n < |j.moves| && j.moves[n].predecessor != 0 && j.moves[n].predecessor !in MapOf(j)
    requires forall i | 0 <= i < |j.moves| :: j.moves[i].destination != j.moves[n].predecessor
    requires forall i | 0 <= i < |j.moves| && j.moves[i].predecessor == j.moves[n].predecessor :: i == n
    ensures var c := j.moves[n].predecessor; var links := UpdateMap(LinkUpdates(max, j));
            c in links && links[c] == j.moves[n].destination
  {
    var c := j.moves[n].predecessor;
    var us := LinkUpdates(max, j);
    forall i | 0 <= i < |us| && us[i].cluster == c ensures us[i].value == j.moves[n].destination {
      if i >= |j.moves| {
        var k := PredecessorLinkFrom(MapOf(j), j.moves, i - |j.moves|);
      }
    }
    var k := PredecessorLinkTo(MapOf(j), j.moves, n);
    assert us[|j.moves| + k].cluster == c;
    UpdateMapValue(us, c, j.moves[n].destination);
  }

  /** Value of a table entry after completion. */
  lemma NewEntry(v: Vol, pred: seq<nat>, moves: seq<Move>, j: Journal, c: nat)
    requires Loaded(v) && Transaction(v, pred, moves, j) && c <= v.max && JournalFits(v, j)
    ensures var links := UpdateMap(LinkUpdates(v.max, j));
            Fat(Complete(v, j), c) == if c in MapOf(j) then 0 else if c in links then links[c] else Fat(v, c)
  {
    hide Transaction, UpdateMap, LinkUpdates, MapOf, JournalFits, PatchMap, PatchBlock, CopiedFrom;
  }

  lemma EntryMoved(v: Vol, pred: seq<nat>, moves: seq<Move>, j: Journal, n: nat)
    requires Loaded(v) && Transaction(v, pred, moves, j) && JournalFits(v, j) && n < |moves|
    ensures Loaded(v) && 2 <= moves[n].source <= v.max && 2 <= moves[n].destination <= v.max
    ensures Fat(Complete(v, j), moves[n].destination) == NewNext(v.max, MapOf(j), Fat(v, moves[n].source))
  {
    hide Transaction, Complete, UpdateMap, LinkUpdates, RelocationMap, MapOf, NewNext, Loaded;
    JournalFacts(v, pred, moves, j);
    PredFacts(v, pred, moves, j);
    assert InRange(v.max, moves[n]);
    assert moves[n].destination !in MapOf(j) by {
      assert moves[n].destination in Destinations(moves);
    }
    NewEntry(v, pred, moves, j, moves[n].destination);
    LinkDestination(v.max, j, n);
  }

  lemma EntryRelinked(v: Vol, pred: seq<nat>, moves: seq<Move>, j: Journal, c: nat, n: nat)
    requires Loaded(v) && Transaction(v, pred, moves, j) && JournalFits(v, j)
    requires 2 <= c <= v.max && c !in MapOf(j) && c !in Destinations(moves) && n < |moves|
    requires Fat(v, c) == moves[n].source
    ensures Fat(Complete(v, j), c) == moves[n].destination
  {
    hide Transaction, Complete, UpdateMap, LinkUpdates, RelocationMap, MapOf, NewNext, Loaded;
    JournalFacts(v, pred, moves, j);
    PredFacts(v, pred, moves, j);
    LegalOf(v, pred, moves, j);
    NewEntry(v, pred, moves, j, c);
    assert forall i | 0 <= i < |moves| :: moves[i].destination in Destinations(moves);
    assert pred[Fat(v, c)] == c by {
      assert 2 <= moves[n].source <= v.max && IsLink(v, Fat(v, c));
    }
    LinkPredecessor(v.max, j, n);
  }

  lemma EntryKept(v: Vol, pred: seq<nat>, moves: seq<Move>, j: Journal, c: nat)
    requires Loaded(v) && Transaction(v, pred, moves, j) && JournalFits(v, j)
    requires 2 <= c <= v.max && c !in MapOf(j) && c !in Destinations(moves) && Fat(v, c) !in Sources(moves)
    ensures Fat(Complete(v, j), c) == Fat(v, c)
  {
    hide Transaction, Complete, UpdateMap, LinkUpdates, RelocationMap, MapOf, NewNext, Loaded;
    JournalFacts(v, pred, moves, j);
    PredFacts(v, pred, moves, j);
    NewEntry(v, pred, moves, j, c);
    forall i | 0 <= i < |moves| ensures moves[i].destination != c && j.moves[i].predecessor != c {
      assert moves[i].destination in Destinations(moves) && moves[i].source in Sources(moves);
    }
    LinkAbsent(v.max, j, c);
  }

  lemma EntryUnmoved(v: Vol, pred: seq<nat>, moves: seq<Move>, j: Journal, c: nat)
    requires Loaded(v) && Transaction(v, pred, moves, j) && JournalFits(v, j)
    requires 2 <= c <= v.max && c !in MapOf(j) && c !in Destinations(moves)
    ensures Fat(Complete(v, j), c) == NewNext(v.max, MapOf(j), Fat(v, c))
  {
    hide Transaction, Complete, RelocationMap, Loaded;
    JournalFacts(v, pred, moves, j);
    if Fat(v, c) in Sources(moves) {
      var n := MoveAt(moves, Fat(v, c));
      ImageAt(moves, n);
      assert InRange(v.max, moves[n]);
      EntryRelinked(v, pred, moves, j, c, n);
    } else {
      EntryKept(v, pred, moves, j, c);
    }
  }

  /** Allocated clusters: the new table renames both the cluster and its link. */
  lemma EntryRenamed(v: Vol, pred: seq<nat>, moves: seq<Move>, j: Journal, c: nat)
    requires Loaded(v) && Transaction(v, pred, moves, j) && JournalFits(v, j)
    requires 2 <= c <= v.max && Fat(v, c) != 0
    ensures 2 <= Image(MapOf(j), c) <= v.max
    ensures Fat(Complete(v, j), Image(MapOf(j), c)) == NewNext(v.max, MapOf(j), Fat(v, c))
  {
    hide Transaction, Complete, RelocationMap, NewNext, IsPredTable, Loaded;
    JournalFacts(v, pred, moves, j);
    LegalOf(v, pred, moves, j);
    if c in MapOf(j) {
      var n := MoveAt(moves, c);
      ImageAt(moves, n);
      EntryMoved(v, pred, moves, j, n);
    } else {
      EntryUnmoved(v, pred, moves, j, c);
    }
  }

  lemma LegalOf(v: Vol, pred: seq<nat>, moves: seq<Move>, j: Journal)
    requires Transaction(v, pred, moves, j)
    ensures Loaded(v) && ScanFiles(v).Ok? && IsPredTable(v, pred)
    ensures forall s | s in Sources(moves) :: 2 <= s <= v.max && Fat(v, s) != 0 && Fat(v, s) != BadValue(v.kind)
    ensures forall d | d in Destinations(moves) :: 2 <= d <= v.max && Fat(v, d) == 0
  {
    LegalIsValid(v, moves);
  }

  /** A recorded predecessor is allocated and links to exactly that source. */
  lemma PredFacts(v: Vol, pred: seq<nat>, moves: seq<Move>, j: Journal)
    requires Transaction(v, pred, moves, j) && |j.moves| == |moves|
    ensures Loaded(v) && |pred| == v.max + 1
    ensures forall i | 0 <= i < |moves| && j.moves[i].predecessor != 0 ::
      2 <= j.moves[i].predecessor <= v.max && Fat(v, j.moves[i].predecessor) == moves[i].source
    ensures forall i, k | 0 <= i < |moves| && 0 <= k < |moves| && j.moves[i].predecessor != 0
      && j.moves[i].predecessor == j.moves[k].predecessor :: i == k
    ensures forall i, k | 0 <= i < |moves| && 0 <= k < |moves| :: j.moves[i].predecessor != moves[k].destination
  {
    hide ScanFiles, LayoutOf, MakeJournal;
    JournalFacts(v, pred, moves, j);
    LegalOf(v, pred, moves, j);
    forall i | 0 <= i < |moves| && j.moves[i].predecessor != 0
      ensures 2 <= j.moves[i].predecessor <= v.max && Fat(v, j.moves[i].predecessor) == moves[i].source
    {
      assert pred[moves[i].source] == j.moves[i].predecessor;
    }
    forall i, k | 0 <= i < |moves| && 0 <= k < |moves| ensures j.moves[i].predecessor != moves[k].destination {
      assert moves[k].destination in Destinations(moves) && moves[i].source in Sources(moves);
    }
  }

  // ---- Cells ---------------------------------------------------------------------------------------

  lemma CopiedBack(j: Journal, c: nat)
    requires DistinctMoves(Plain(j.moves))
    requires c !in Destinations(Plain(j.moves))
    ensures CopiedFrom(j, Image(MapOf(j), c)) == c
  {
    hide RelocationMap;
    var moves := Plain(j.moves);
    var back := Swapped(moves);
    assert DistinctMoves(back);
    if c in MapOf(j) {
      var n := MoveAt(moves, c);
      ImageAt(moves, n);
      assert back[n] == Move(moves[n].destination, c);
      ImageAt(back, n);
    } else if c in RelocationMap(back) {
      var n := MoveAt(back, c);
    }
  }

  /** How one cell of a renamed container reads after the move. */
  function RenamedCell(m: map<nat, nat>, refs: seq<Ref>, at: Offset, cell: Cell): Cell {
    if Ref(at, cell.first) in refs then cell.(first := Image(m, cell.first)) else cell
  }

  /** References name real cells of allocated clusters, with the value found there. */
  ghost predicate RefsReal(v: Vol, refs: seq<Ref>)
    requires Loaded(v)
  {
    forall i | 0 <= i < |refs| ::
      && (refs[i].at.container.InCluster? ==>
          2 <= refs[i].at.container.cluster <= v.max && Fat(v, refs[i].at.container.cluster) != 0)
      && refs[i].at.slot < |Area(v, refs[i].at.container)|
      && refs[i].target == Area(v, refs[i].at.container)[refs[i].at.slot].first
  }

  ghost predicate InjectiveOnUsed(v: Vol, m: map<nat, nat>)
    requires Loaded(v)
  {
    forall a, b | 2 <= a <= v.max && 2 <= b <= v.max && Fat(v, a) != 0 && Fat(v, b) != 0 ::
      Image(m, a) == Image(m, b) ==> a == b
  }

  /** The patches touch exactly the recorded cells that name a moved cluster. */
  lemma PatchedCell(v: Vol, m: map<nat, nat>, refs: seq<Ref>, container: Container, s: nat)
    requires Loaded(v) && RefsReal(v, refs) && InjectiveOnUsed(v, m)
    requires container.InCluster? ==> 2 <= container.cluster <= v.max && Fat(v, container.cluster) != 0
    requires s < |Area(v, container)|
    ensures var at := MoveOffset(m, Offset(container, s)); var first := Area(v, container)[s].first;
            var pm := PatchMap(DirPatches(m, refs));
            && (at in pm <==> Ref(Offset(container, s), first) in refs && first in m)
            && (at in pm ==> pm[at] == m[first])
  {
    hide PatchMap, DirPatches;
    var at0 := Offset(container, s);
    var at := MoveOffset(m, at0);
    var first := Area(v, container)[s].first;
    var ps := DirPatches(m, refs);
    forall n | 0 <= n < |ps| && ps[n].at == at
      ensures first in m && ps[n].newTarget == m[first] && Ref(at0, first) in refs
    {
      var i := PatchFrom(m, refs, n);
      assert refs[i].at == at0;
      assert refs[i] == Ref(at0, first);
    }
    PatchMapValue(ps, at, if first in m then m[first] else 0);
    if Ref(at0, first) in refs && first in m {
      var i :| 0 <= i < |refs| && refs[i] == Ref(at0, first);
      var n := PatchTo(m, refs, i);
      assert ps[n].at == at;
    }
  }

  lemma ScannedRefsReal(v: Vol)
    requires Loaded(v) && ScanFiles(v).Ok?
    ensures RefsReal(v, ScanFiles(v).value.refs)
  {
    hide ScanFiles, LayoutOf, WellFormed;
    ScanIsGood(v);
    var st, root := ScanFiles(v).value, RootChain(v).value;
    forall i | 0 <= i < |st.refs|
      ensures st.refs[i].at.container.InCluster? ==>
        2 <= st.refs[i].at.container.cluster <= v.max && Fat(v, st.refs[i].at.container.cluster) != 0
    {
      assert RefOk(v, root, st.files, st.refs[i]);
      DirectoryUsed(v, root, st, st.refs[i].at.container);
    }
  }

  lemma DirectoryUsed(v: Vol, root: seq<nat>, st: State, container: Container)
    requires Loaded(v) && Good(v, root, st) && InDirectory(v, root, st.files, container)
    ensures container.InCluster? ==> Held(v, container.cluster)
  {
    hide WellFormed, Alloc;
    if container.InCluster? && container.cluster !in root {
      var i :| 0 <= i < |st.files| && st.files[i].isDir && container.cluster in st.files[i].chain;
      assert RecOk(v, st.files[i], st.refs);
    }
  }

  lemma MapInjective(v: Vol, pred: seq<nat>, moves: seq<Move>, j: Journal)
    requires Loaded(v) && Transaction(v, pred, moves, j)
    ensures InjectiveOnUsed(v, MapOf(j))
  {
    hide Transaction, RelocationMap, Loaded;
    JournalFacts(v, pred, moves, j);
    LegalOf(v, pred, moves, j);
    var m := MapOf(j);
    forall c | c in m ensures Image(m, c) in Destinations(moves) {
      var n := MoveAt(moves, c);
      ImageAt(moves, n);
      assert moves[n].destination in Destinations(moves);
    }
    forall a, b | 2 <= a <= v.max && 2 <= b <= v.max && Fat(v, a) != 0 && Fat(v, b) != 0 && Image(m, a) == Image(m, b)
      ensures a == b
    {
      if a in m && b in m {
        var n := MoveAt(moves, a);
        var k := MoveAt(moves, b);
        ImageAt(moves, n);
        ImageAt(moves, k);
      }
    }
  }

  /** Blocks move with their cluster; recorded entries are renamed, nothing else changes. */
  lemma AreaRenamed(v: Vol, pred: seq<nat>, moves: seq<Move>, j: Journal, container: Container)
    requires Loaded(v) && Transaction(v, pred, moves, j) && JournalFits(v, j)
    requires container.InCluster? ==> 2 <= container.cluster <= v.max && Fat(v, container.cluster) != 0
    ensures container.InCluster? ==> 2 <= Image(MapOf(j), container.cluster) <= v.max
    ensures var to := MoveOffset(MapOf(j), Offset(container, 0)).container;
            && |Area(Complete(v, j), to)| == |Area(v, container)|
            && forall s | 0 <= s < |Area(v, container)| ::
                 Area(Complete(v, j), to)[s] ==
                   RenamedCell(MapOf(j), ScanFiles(v).value.refs, Offset(container, s), Area(v, container)[s])
  {
    hide Transaction, ScanFiles, PatchMap, DirPatches, NewFat, RelocationMap;
    JournalFacts(v, pred, moves, j);
    LegalOf(v, pred, moves, j);
    ScannedRefsReal(v);
    MapInjective(v, pred, moves, j);
    var m, refs := MapOf(j), ScanFiles(v).value.refs;
    if container.InCluster? {
      EntryRenamed(v, pred, moves, j, container.cluster);
      CopiedBack(j, container.cluster);
    }
    forall s | 0 <= s < |Area(v, container)|
      ensures Area(Complete(v, j), MoveOffset(m, Offset(container, 0)).container)[s] ==
        RenamedCell(m, refs, Offset(container, s), Area(v, container)[s])
    {
      PatchedCell(v, m, refs, container, s);
    }
  }
}
