/**
 Runs of relocation transactions on a volume.  Whatever the layout-level planners
 do, the volume follows: each rescan returns the planned layout, and no file changes.
 */
module VolumeRuns {
  import opened Basics
  import opened ClusterLayout
  import opened FatVolume
  import opened FatScan
  import opened FatJournal
  import opened FatRelocation
  import opened FatMeaning
  import opened FatTransaction

  // ---- One transaction -----------------------------------------------------------------

  ghost function PredecessorOf(v: Vol, c: nat): nat
    requires Loaded(v)
  {
    if exists p | 2 <= p <= v.max :: Fat(v, p) == c then
      var p :| 2 <= p <= v.max && Fat(v, p) == c; p
    else 0
  }

  ghost function Predecessors(v: Vol): seq<nat>
    requires Loaded(v)
  {
    seq(v.max + 1, c requires 0 <= c <= v.max => PredecessorOf(v, c))
  }

  lemma PredecessorsExist(v: Vol)
    requires Loaded(v) && LinksUnique(v)
    ensures IsPredTable(v, Predecessors(v))
  {
    var pred := Predecessors(v);
    forall c | 2 <= c <= v.max && pred[c] != 0 ensures 2 <= pred[c] <= v.max && Fat(v, pred[c]) == c {
      assert pred[c] == PredecessorOf(v, c);
    }
    forall p | 2 <= p <= v.max && IsLink(v, Fat(v, p)) ensures pred[Fat(v, p)] == p {
      assert pred[Fat(v, p)] == PredecessorOf(v, Fat(v, p));
    }
  }

  lemma SamePredecessors(v: Vol, pred: seq<nat>, pred': seq<nat>)
    requires Loaded(v) && IsPredTable(v, pred) && IsPredTable(v, pred')
    ensures forall c | 2 <= c <= v.max :: pred[c] == pred'[c]
  {
    forall c | 2 <= c <= v.max ensures pred[c] == pred'[c] {
      if pred[c] != 0 { assert IsLink(v, Fat(v, pred[c])); }
      if pred'[c] != 0 { assert IsLink(v, Fat(v, pred'[c])); }
    }
  }

  /** The journal does not depend on how the predecessor table was built. */
  lemma SameJournal(v: Vol, refs: seq<Ref>, pred: seq<nat>, pred': seq<nat>, moves: seq<Move>)
    requires Loaded(v) && IsPredTable(v, pred) && IsPredTable(v, pred')
    ensures MakeJournal(v, refs, pred, moves) == MakeJournal(v, refs, pred', moves)
  {
    SamePredecessors(v, pred, pred');
    if ValidMoves(v.max, moves) {
      forall i | 0 <= i < |moves| ensures pred[moves[i].source] == pred'[moves[i].source] {
        assert InRange(v.max, moves[i]);
      }
      assert FillMoves(v, pred, moves) == FillMoves(v, pred', moves);
    }
  }

  ghost predicate Ready(v: Vol) { Loaded(v) && ScanFiles(v).Ok? }

  /** Every cluster that is linked to has a number the table may hold as a link. */
  ghost predicate Readable(l: Layout, reserved: nat) {
    forall i, k | 1 <= k && Owns(l, i, k) :: l.objs[i].chain[k] < reserved
  }

  lemma LinkNotReserved(v: Vol, chain: seq<nat>, k: nat)
    requires Loaded(v) && IsChain(v, chain) && 1 <= k < |chain|
    ensures chain[k - 1] <= v.max && Fat(v, chain[k - 1]) == chain[k] < ReservedMin(v.kind)
  {
    assert Held(v, chain[k - 1]) && Held(v, chain[k]);
  }

  lemma LinkBefore(v: Vol, i: nat, k: nat)
    requires Ready(v) && 1 <= k && Owns(LayoutOf(v), i, k)
    ensures var chain := LayoutOf(v).objs[i].chain;
      Used(v, chain[k - 1]) && Fat(v, chain[k - 1]) == chain[k] < ReservedMin(v.kind)
  {
    hide ScanFiles, LayoutOf, Good, ObjsOf;
    ScanIsGood(v);
    var root, st := RootChain(v).value, ScanFiles(v).value;
    ScanFacts(v, root, st);
    ObjIsChain(v, root, st, i);
    LinkNotReserved(v, LayoutOf(v).objs[i].chain, k);
    assert Held(v, LayoutOf(v).objs[i].chain[k - 1]);
  }

  lemma ReadableIsSafe(v: Vol, m: map<nat, nat>)
    requires Ready(v) && MapInRange(v, m) && Readable(Rename(LayoutOf(v), m), ReservedMin(v.kind))
    ensures LinkSafe(v, m)
  {
    hide ScanFiles, LayoutOf, Good, ObjsOf, Alloc;
    ScanIsGood(v);
    var root, st, l := RootChain(v).value, ScanFiles(v).value, LayoutOf(v);
    ScanFacts(v, root, st);
    forall c | Used(v, c) && Fat(v, c) in m ensures m[Fat(v, c)] < ReservedMin(v.kind) {
      var i, k := LinkPosition(v, root, st, c);
      assert Owns(Rename(l, m), i, k + 1) && Rename(l, m).objs[i].chain[k + 1] == m[Fat(v, c)];
    }
  }

  lemma SafeIsReadable(v: Vol, m: map<nat, nat>)
    requires Ready(v) && LinkSafe(v, m)
    ensures Readable(Rename(LayoutOf(v), m), ReservedMin(v.kind))
  {
    hide ScanFiles, LayoutOf;
    var l := LayoutOf(v);
    forall i, k | 1 <= k && Owns(Rename(l, m), i, k) ensures Rename(l, m).objs[i].chain[k] < ReservedMin(v.kind) {
      assert Owns(l, i, k);
      LinkBefore(v, i, k);
    }
  }

  /** The condition of a transaction, seen on the layout it produces. */
  lemma SafeIffReadable(v: Vol, pred: seq<nat>, moves: seq<Move>, j: Journal)
    requires Transaction(v, pred, moves, j)
    ensures LinkSafe(v, MapOf(j)) <==> Readable(Relocate(LayoutOf(v), moves), ReservedMin(v.kind))
  {
    MapRange(v, pred, moves, j);
    JournalFacts(v, pred, moves, j);
    hide ScanFiles, LayoutOf, Transaction, Rename, LinkSafe, Readable, RelocationMap, MapOf, MapInRange, JournalFits;
    var m := MapOf(j);
    if Readable(Rename(LayoutOf(v), m), ReservedMin(v.kind)) { ReadableIsSafe(v, m); }
    if LinkSafe(v, m) { SafeIsReadable(v, m); }
  }

  ghost function JournalOf(v: Vol, moves: seq<Move>): (j: Journal)
    requires Loaded(v) && ScanFiles(v).Ok? && Legal(LayoutOf(v), moves)
    ensures Transaction(v, Predecessors(v), moves, j)
  {
    ScannedLinksUnique(v);
    PredecessorsExist(v);
    JournalAlwaysMade(v, Predecessors(v), moves);
    MakeJournal(v, ScanFiles(v).value.refs, Predecessors(v), moves).value
  }

  lemma CompleteGeometry(v: Vol, j: Journal)
    requires Loaded(v) && JournalFits(v, j)
    ensures Complete(v, j).kind == v.kind && Complete(v, j).max == v.max
  {
  }

  /** A transaction the engine's own scan survives. */
  ghost predicate Safe(v: Vol, moves: seq<Move>)
    requires Ready(v)
  {
    Legal(LayoutOf(v), moves) && Readable(Relocate(LayoutOf(v), moves), ReservedMin(v.kind))
  }

  /** The volume after one transaction: rescanning it returns the relocated layout. */
  ghost function Transact(v: Vol, moves: seq<Move>): (r: Vol)
    requires Ready(v) && Safe(v, moves)
    ensures Ready(r) && r.kind == v.kind && r.max == v.max && LayoutOf(r) == Relocate(LayoutOf(v), moves)
  {
    hide ScanFiles, LayoutOf, Transaction, Complete, LinkSafe, Relocate, Readable;
    var j := JournalOf(v, moves);
    SafeIffReadable(v, Predecessors(v), moves, j);
    RelocationPreservesMeaning(v, Predecessors(v), moves, j);
    CompleteGeometry(v, j);
    Complete(v, j)
  }

  /** Exactly the transactions that keep links readable leave a volume that scans. */
  lemma TransactionExact(v: Vol, moves: seq<Move>)
    requires Ready(v) && Legal(LayoutOf(v), moves)
    ensures JournalFits(v, JournalOf(v, moves)) && (ScanFiles(Complete(v, JournalOf(v, moves))).Ok? <==> Safe(v, moves))
  {
    hide ScanFiles, LayoutOf, Transaction, Complete, LinkSafe, Relocate, Readable;
    var j := JournalOf(v, moves);
    SafeIffReadable(v, Predecessors(v), moves, j);
    RelocationPreservesMeaning(v, Predecessors(v), moves, j);
  }

  /** compact_execute_moves: predecessor table, journal, completion. */
  method CompactExecuteMoves(v: Vol, refs: seq<Ref>, moves: seq<Move>) returns (r: Result<Vol>)
    requires Loaded(v)
    ensures r.Ok? ==> Loaded(r.value)
    ensures Ready(v) && refs == ScanFiles(v).value.refs && Safe(v, moves) ==> r == Ok(Transact(v, moves))
  {
    hide ScanFiles, LayoutOf, Complete, Relocate, Transact, MakeJournal, RelocationMap, Readable;
    ghost var ready := Ready(v) && refs == ScanFiles(v).value.refs && Safe(v, moves);
    if ready { ScannedLinksUnique(v); PredecessorsExist(v); }
    var table := BuildPredecessorTable(v);
    if table.Error? { return Error; }
    var valid := BuildMap(v.max, moves);
    if valid.Error? {
      if ready { LegalIsValid(v, moves); }
      return Error;
    }
    var journal := MakeJournal(v, refs, table.value, moves);
    if ready { ExecutesTransaction(v, table.value, moves); }
    if journal.Error? { return Error; }
    JournalKeepsMoves(v, refs, table.value, moves);
    r := Ok(Complete(v, journal.value));
  }

  lemma ExecutesTransaction(v: Vol, pred: seq<nat>, moves: seq<Move>)
    requires Ready(v) && Safe(v, moves) && IsPredTable(v, pred)
    ensures var made := MakeJournal(v, ScanFiles(v).value.refs, pred, moves);
            made.Ok? && JournalFits(v, made.value) && Complete(v, made.value) == Transact(v, moves)
  {
    var j := JournalOf(v, moves);
    hide ScanFiles, LayoutOf, Complete, Relocate, Legal, JournalFits;
    assert MakeJournal(v, ScanFiles(v).value.refs, Predecessors(v), moves) == Ok(j) && IsPredTable(v, Predecessors(v));
    SameJournal(v, ScanFiles(v).value.refs, pred, Predecessors(v), moves);
    JournalFacts(v, Predecessors(v), moves, j);
  }

  lemma JournalKeepsMoves(v: Vol, refs: seq<Ref>, pred: seq<nat>, moves: seq<Move>)
    requires Loaded(v) && |pred| == v.max + 1 && MakeJournal(v, refs, pred, moves).Ok?
    ensures JournalFits(v, MakeJournal(v, refs, pred, moves).value)
  {
    assert Plain(FillMoves(v, pred, moves)) == moves;
  }

  // ---- Whole runs -----------------------------------------------------------------------

  /** A lawful run along which every layout stays readable. */
  ghost predicate SafeRun(l: Layout, txs: seq<seq<Move>>, reserved: nat)
    decreases |txs|
  {
    txs == [] ||
    (SafeRun(l, txs[..|txs| - 1], reserved) && Legal(AfterRun(l, txs[..|txs| - 1]),
                                                     txs[|txs| - 1]) && Readable(AfterRun(l, txs), reserved))
  }

  lemma {:induction false} SafeIsLegal(l: Layout, txs: seq<seq<Move>>, reserved: nat)
    requires SafeRun(l, txs, reserved)
    ensures LegalRun(l, txs)
    decreases |txs|
  {
    hide Legal, Readable, AfterRun;
    if txs != [] { SafeIsLegal(l, txs[..|txs| - 1], reserved); }
  }

  /** Where no cluster number is reserved, every lawful run is safe. */
  lemma {:induction false} SmallIsSafe(l: Layout, txs: seq<seq<Move>>, reserved: nat)
    requires WellFormed(l) && LegalRun(l, txs) && l.max < reserved
    ensures SafeRun(l, txs, reserved)
    decreases |txs|
  {
    hide Legal, WellFormed, AfterRun;
    if txs != [] {
      SmallIsSafe(l, txs[..|txs| - 1], reserved);
      assert Reached(l, txs, AfterRun(l, txs));
      RunKeeps(l, txs, AfterRun(l, txs));
      SmallReadable(AfterRun(l, txs), reserved);
    }
  }

  lemma SmallReadable(l: Layout, reserved: nat)
    requires WellFormed(l) && l.max < reserved
    ensures Readable(l, reserved)
  {
  }

  /** The volume after such a run. */
  ghost function AfterTransactions(v: Vol, txs: seq<seq<Move>>): (r: Vol)
    requires Ready(v) && SafeRun(LayoutOf(v), txs, ReservedMin(v.kind))
    ensures Ready(r) && r.kind == v.kind && r.max == v.max && LayoutOf(r) == AfterRun(LayoutOf(v), txs)
    decreases |txs|
  {
    hide ScanFiles, LayoutOf, Ready, Legal, Relocate, Readable;
    if txs == [] then v else Transact(AfterTransactions(v, txs[..|txs| - 1]), txs[|txs| - 1])
  }

  /** Same files, in order: path, size, kind and, for regular files, every byte. */
  ghost predicate SameFiles(v: Vol, v': Vol)
    requires Loaded(v) && ScanFiles(v).Ok? && Loaded(v') && ScanFiles(v').Ok?
  {
    var files, files' := ScanFiles(v).value.files, ScanFiles(v').value.files;
    && |files'| == |files|
    && forall i | 0 <= i < |files| :: SameFile(v, files[i], v', files'[i])
  }

  ghost predicate SameFile(v: Vol, a: FileRec, v': Vol, b: FileRec)
    requires Loaded(v) && Loaded(v')
  {
    && b.path == a.path && b.size == a.size && b.isDir == a.isDir && |b.chain| == |a.chain|
    && (forall k | 0 <= k < |a.chain| :: a.chain[k] <= v.max)
    && (forall k | 0 <= k < |b.chain| :: b.chain[k] <= v'.max)
    && (!a.isDir ==> Contents(v', b.chain) == Contents(v, a.chain))
  }

  lemma TransactionKeepsFiles(v: Vol, pred: seq<nat>, moves: seq<Move>, j: Journal)
    requires Transaction(v, pred, moves, j) && LinkSafe(v, MapOf(j))
    ensures JournalFits(v, j) && ScanFiles(Complete(v, j)).Ok? && SameFiles(v, Complete(v, j))
  {
    RelocationPreservesMeaning(v, pred, moves, j);
    var v', m := Complete(v, j), MapOf(j);
    hide Transaction, Complete, ScanFiles, LinkSafe, MapOf, LayoutOf, Contents;
    var files, files' := ScanFiles(v).value.files, ScanFiles(v').value.files;
    forall i | 0 <= i < |files| ensures SameFile(v, files[i], v', files'[i]) {
      assert files'[i] == RenameRec(m, files[i]);
      RecInRange(v, i);
      RecInRange(v', i);
      if !files[i].isDir { FileContentsPreserved(v, pred, moves, j, i); }
    }
  }

  lemma RecInRange(v: Vol, i: nat)
    requires Loaded(v) && ScanFiles(v).Ok? && i < |ScanFiles(v).value.files|
    ensures forall k | 0 <= k < |ScanFiles(v).value.files[i].chain| :: ScanFiles(v).value.files[i].chain[k] <= v.max
  {
    ScanIsGood(v);
    hide ScanFiles, WellFormed, Alloc, LayoutOf;
    assert RecOk(v, ScanFiles(v).value.files[i], ScanFiles(v).value.refs);
  }

  lemma SameFilesSteps(v: Vol, v1: Vol, v2: Vol)
    requires Loaded(v) && ScanFiles(v).Ok? && Loaded(v1) && ScanFiles(v1).Ok? && Loaded(v2) && ScanFiles(v2).Ok?
    requires SameFiles(v, v1) && SameFiles(v1, v2)
    ensures SameFiles(v, v2)
  {
    hide ScanFiles, Contents, Loaded;
    var a, b, c := ScanFiles(v).value.files, ScanFiles(v1).value.files, ScanFiles(v2).value.files;
    forall i | 0 <= i < |a| ensures SameFile(v, a[i], v2, c[i]) {
      assert SameFile(v, a[i], v1, b[i]) && SameFile(v1, b[i], v2, c[i]);
    }
  }

  lemma TransactKeepsFiles(v: Vol, moves: seq<Move>)
    requires Ready(v) && Safe(v, moves)
    ensures SameFiles(v, Transact(v, moves))
  {
    hide ScanFiles, LayoutOf, Transaction, Complete, LinkSafe, Relocate, SameFiles, Readable;
    var j := JournalOf(v, moves);
    SafeIffReadable(v, Predecessors(v), moves, j);
    TransactionKeepsFiles(v, Predecessors(v), moves, j);
  }

  /** Over any lawful run that stays readable, no file is lost, renamed, resized or altered. */
  lemma {:induction false} RunKeepsFiles(v: Vol, txs: seq<seq<Move>>)
    requires Ready(v) && SafeRun(LayoutOf(v), txs, ReservedMin(v.kind))
    ensures SameFiles(v, AfterTransactions(v, txs))
    decreases |txs|
  {
    hide ScanFiles, LayoutOf, Transact, SameFiles, Readable;
    if txs == [] {
      SameFilesItself(v);
    } else {
      var before := AfterTransactions(v, txs[..|txs| - 1]);
      RunKeepsFiles(v, txs[..|txs| - 1]);
      TransactKeepsFiles(before, txs[|txs| - 1]);
      SameFilesSteps(v, before, AfterTransactions(v, txs));
    }
  }

  lemma SameFilesItself(v: Vol)
    requires Loaded(v) && ScanFiles(v).Ok?
    ensures SameFiles(v, v)
  {
    hide ScanFiles;
    forall i | 0 <= i < |ScanFiles(v).value.files|
      ensures SameFile(v, ScanFiles(v).value.files[i], v, ScanFiles(v).value.files[i])
    {
      RecInRange(v, i);
    }
  }
}
