/**
 The batched file pass writes every journal with the directory references of one
 initial scan.  They still give the journals a fresh scan would give.
 */
module StaleReferences {
  import opened ClusterLayout
  import opened FatVolume
  import opened FatScan
  import opened FatJournal
  import opened FatRelocation
  import opened FatMeaning
  import opened VolumeRuns
  import opened FileDefrag

  /** For the moves of `m`, both reference lists call for the same patches. */
  ghost predicate SamePatches(m: map<nat, nat>, refs: seq<Ref>, refs': seq<Ref>) {
    && DirPatches(m, refs') == DirPatches(m, refs)
    && forall c | c in m :: Referenced(refs', c) <==> Referenced(refs, c)
  }

  function RenameRefs(m: map<nat, nat>, refs: seq<Ref>): (r: seq<Ref>) {
    seq(|refs|, i requires 0 <= i < |refs| => RenameRef(m, refs[i]))
  }

  lemma {:induction false} PatchesRenamed(m: map<nat, nat>, earlier: map<nat, nat>, refs: seq<Ref>)
    requires forall c | c in earlier :: c !in m && earlier[c] !in m
    requires forall i | 0 <= i < |refs| :: MoveOffset(earlier, refs[i].at) == refs[i].at
    ensures DirPatches(m, RenameRefs(earlier, refs)) == DirPatches(m, refs)
  {
    if refs != [] {
      var rest := refs[..|refs| - 1];
      var renamed := RenameRefs(earlier, refs);
      PatchesRenamed(m, earlier, rest);
      assert renamed[..|renamed| - 1] == RenameRefs(earlier, rest);
    }
  }

  lemma SamePatchesStep(m: map<nat, nat>, earlier: map<nat, nat>, refs0: seq<Ref>, refs: seq<Ref>)
    requires forall c | c in earlier :: c !in m && earlier[c] !in m
    requires forall i | 0 <= i < |refs| :: MoveOffset(earlier, refs[i].at) == refs[i].at
    requires SamePatches(m, refs0, refs)
    ensures SamePatches(m, refs0, RenameRefs(earlier, refs))
  {
    hide DirPatches;
    PatchesRenamed(m, earlier, refs);
    var renamed := RenameRefs(earlier, refs);
    forall c | c in m ensures Referenced(renamed, c) <==> Referenced(refs, c) {
      if Referenced(refs, c) {
        var i :| 0 <= i < |refs| && refs[i].target == c;
        assert renamed[i].target == c;
      }
      if Referenced(renamed, c) {
        var i :| 0 <= i < |renamed| && renamed[i].target == c;
        assert refs[i].target == c;
      }
    }
  }

  /** Rescanning after one transaction returns the renamed references. */
  lemma RefsRenamed(v: Vol, moves: seq<Move>)
    requires Ready(v) && Safe(v, moves)
    ensures ScanFiles(Transact(v, moves)).value.refs == RenameRefs(RelocationMap(moves), ScanFiles(v).value.refs)
  {
    var j := JournalOf(v, moves);
    var pred := Predecessors(v);
    SafeIffReadable(v, pred, moves, j);
    RelocationPreservesMeaning(v, pred, moves, j);
    JournalFacts(v, pred, moves, j);
    hide Transaction, Complete, ScanFiles, LinkSafe, LayoutOf, RelocationMap;
  }

  /** References lie in directories, so an untouched directory keeps their offsets. */
  lemma OffsetsStay(v: Vol, txs: seq<seq<Move>>, t: nat, i: nat)
    requires Loaded(v) && ScanFiles(v).Ok? && DirectoriesStay(LayoutOf(v), txs) && t < |txs| && DistinctMoves(txs[t])
    requires i < |ScanFiles(v).value.refs|
    ensures var ref := ScanFiles(v).value.refs[i]; MoveOffset(RelocationMap(txs[t]), ref.at) == ref.at
  {
    ScanIsGood(v);
    var st, root := ScanFiles(v).value, RootChain(v).value;
    var l := LayoutWith(v, root, st.files);
    assert l == LayoutOf(v) && RefOk(v, root, st.files, st.refs[i]);
    hide ScanFiles, WellFormed, Alloc, LayoutOf, Touched, RelocationMap;
    var ref := st.refs[i];
    if ref.at.container.InCluster? {
      var c := ref.at.container.cluster;
      DirectoryOwner(v, root, st.files, c);
      TouchedAt(txs, t);
      forall s | s in RelocationMap(txs[t]) ensures s in Touched(txs) {
        var n := MoveAt(txs[t], s);
        assert s in Sources(txs[t]);
      }
    }
  }

  lemma DirectoryOwner(v: Vol, root: seq<nat>, files: seq<FileRec>, c: nat)
    requires Loaded(v) && InDirectory(v, root, files, InCluster(c))
    ensures var l := LayoutWith(v, root, files);
      exists i, k :: Owns(l, i, k) && l.objs[i].isDir && l.objs[i].chain[k] == c
  {
    var n := if root == [] then 0 else 1;
    var l := LayoutWith(v, root, files);
    if c in root {
      var p :| 0 <= p < |root| && root[p] == c;
      assert Owns(l, 0, p) && l.objs[0].isDir && l.objs[0].chain[p] == c;
    } else {
      var d :| 0 <= d < |files| && files[d].isDir && c in files[d].chain;
      var p :| 0 <= p < |files[d].chain| && files[d].chain[p] == c;
      assert l.objs[n + d] == FileObj(files[d]);
      assert Owns(l, n + d, p) && l.objs[n + d].isDir && l.objs[n + d].chain[p] == c;
    }
  }

  lemma {:induction false} SafePrefix(l: Layout, txs: seq<seq<Move>>, n: nat, reserved: nat)
    requires SafeRun(l, txs, reserved) && n <= |txs|
    ensures SafeRun(l, txs[..n], reserved)
    ensures n < |txs| ==> Legal(AfterRun(l, txs[..n]), txs[n])
    decreases |txs|
  {
    hide Legal, Readable, AfterRun;
    if n == |txs| {
      assert txs[..n] == txs;
    } else {
      var front := txs[..|txs| - 1];
      SafePrefix(l, front, n, reserved);
      assert front[..n] == txs[..n];
      if n == |front| { assert front[..n] == front; }
    }
  }

  /** After `n` transactions the fresh references have the recorded offsets and call
      for the same patches in transaction `t`. */
  lemma {:induction false} StaleAgrees(v: Vol, txs: seq<seq<Move>>, n: nat, t: nat)
    requires Ready(v) && SafeRun(LayoutOf(v), txs, ReservedMin(v.kind)) && StaleSafe(txs)
    requires DirectoriesStay(LayoutOf(v), txs)
    requires n <= t < |txs| && SafeRun(LayoutOf(v), txs[..n], ReservedMin(v.kind)) && DistinctMoves(txs[t])
    ensures var refs0, refs := ScanFiles(v).value.refs, ScanFiles(AfterTransactions(v, txs[..n])).value.refs;
            && SamePatches(RelocationMap(txs[t]), refs0, refs) && |refs| == |refs0|
            && forall i | 0 <= i < |refs| :: refs[i].at == refs0[i].at
  {
    hide ScanFiles, LayoutOf, Transact, Relocate, Readable, SamePatches, RelocationMap, DirectoriesStay, StaleSafe,
         Legal, MoveOffset;
    var refs0 := ScanFiles(v).value.refs;
    if n == 0 {
      assert SamePatches(RelocationMap(txs[t]), refs0, refs0) by { SamePatchesItself(RelocationMap(txs[t]), refs0); }
    } else {
      var prior := txs[..n][..n - 1];
      assert prior == txs[..n - 1];
      SafePrefix(LayoutOf(v), txs, n - 1, ReservedMin(v.kind));
      StaleAgrees(v, txs, n - 1, t);
      var before := AfterTransactions(v, prior);
      var refs := ScanFiles(before).value.refs;
      assert txs[..n][n - 1] == txs[n - 1];
      assert DistinctMoves(txs[n - 1]) by { LegalIsDistinct(LayoutOf(before), txs[n - 1]); }
      RefsRenamed(before, txs[n - 1]);
      forall i | 0 <= i < |refs| ensures MoveOffset(RelocationMap(txs[n - 1]), refs[i].at) == refs[i].at {
        OffsetsStay(v, txs, n - 1, i);
      }
      MapsApart(txs, n - 1, t);
      SamePatchesStep(RelocationMap(txs[t]), RelocationMap(txs[n - 1]), refs0, refs);
    }
  }

  lemma SamePatchesItself(m: map<nat, nat>, refs: seq<Ref>)
    ensures SamePatches(m, refs, refs)
  {
  }

  lemma LegalIsDistinct(l: Layout, moves: seq<Move>)
    requires Legal(l, moves)
    ensures DistinctMoves(moves)
  {
  }

  lemma MapsApart(txs: seq<seq<Move>>, a: nat, b: nat)
    requires StaleSafe(txs) && a < b < |txs| && DistinctMoves(txs[a]) && DistinctMoves(txs[b])
    ensures var m, earlier := RelocationMap(txs[b]), RelocationMap(txs[a]);
            forall c | c in earlier :: c !in m && earlier[c] !in m
  {
    hide RelocationMap;
    var m, earlier := RelocationMap(txs[b]), RelocationMap(txs[a]);
    forall c | c in m ensures c in Sources(txs[b]) {
      var n := MoveAt(txs[b], c);
    }
    forall c | c in earlier ensures c !in m && earlier[c] !in m {
      var n := MoveAt(txs[a], c);
      ImageAt(txs[a], n);
      assert c in Sources(txs[a]) && earlier[c] in Destinations(txs[a]);
    }
  }

  /** Journals written with the initial references equal freshly scanned ones. */
  lemma StaleReferencesSuffice(v: Vol, txs: seq<seq<Move>>, t: nat, pred: seq<nat>)
    requires Ready(v) && SafeRun(LayoutOf(v), txs, ReservedMin(v.kind)) && StaleSafe(txs)
    requires DirectoriesStay(LayoutOf(v), txs) && t < |txs|
    requires SafeRun(LayoutOf(v), txs[..t], ReservedMin(v.kind)) && |pred| == v.max + 1
    ensures var now := AfterTransactions(v, txs[..t]);
            && |pred| == now.max + 1
            && MakeJournal(now, ScanFiles(v).value.refs, pred, txs[t]) ==
               MakeJournal(now, ScanFiles(now).value.refs, pred, txs[t])
  {
    hide ScanFiles, LayoutOf, AfterTransactions, Relocate, DirectoriesStay, StaleSafe, Legal, AfterRun, SafeRun,
         Referenced, DirPatches, RelocationMap;
    SafePrefix(LayoutOf(v), txs, t, ReservedMin(v.kind));
    LegalIsDistinct(AfterRun(LayoutOf(v), txs[..t]), txs[t]);
    StaleAgrees(v, txs, t, t);
    var now, moves := AfterTransactions(v, txs[..t]), txs[t];
    SameMax(v, txs[..t]);
    if ValidMoves(now.max, moves) {
      forall i | 0 <= i < |moves| ensures moves[i].source in RelocationMap(moves) {
        ImageAt(moves, i);
      }
    }
  }

  lemma {:induction false} SameMax(v: Vol, txs: seq<seq<Move>>)
    requires Ready(v) && SafeRun(LayoutOf(v), txs, ReservedMin(v.kind))
    ensures AfterTransactions(v, txs).max == v.max
    decreases |txs|
  {
    hide ScanFiles, LayoutOf, Relocate;
    if txs != [] {
      SameMax(v, txs[..|txs| - 1]);
    }
  }
}
