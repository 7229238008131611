/** Volumes on which Growth Defrag does not reach its promise. */
module GrowthLimits {
  import opened ClusterLayout
  import opened FatEngine
  import opened GrowthPlan
  import opened GrowthRoom
  import opened GrowthPrepare
  import opened GrowthPreflight
  import opened GrowthDefrag

  /** A fragmented file in clusters 2 and 4, scanned after the records in `before`. */
  function OneFile(max: nat, bad: set<nat>, before: seq<Obj>): Layout {
    Layout(max, bad, before + [Obj(false, false, "A", [2, 4])])
  }

  /** Nothing allocated before it, and clusters 3, 5 and 6 free. */
  ghost predicate Fitting(max: nat, bad: set<nat>, before: seq<Obj>) {
    && max >= 6 && 2 !in bad && 3 !in bad && 4 !in bad && 5 !in bad && 6 !in bad
    && (before == [] || before == [Obj(false, false, "A", [])])
  }

  lemma OneFileOwns(max: nat, bad: set<nat>, before: seq<Obj>, i: int, k: int)
    requires Fitting(max, bad, before) && Owns(OneFile(max, bad, before), i, k)
    ensures var l := OneFile(max, bad, before); i == |before| && l.objs[i].chain == [2, 4] && 0 <= k < 2
  {
  }

  lemma OneFileWellFormed(max: nat, bad: set<nat>, before: seq<Obj>)
    requires Fitting(max, bad, before)
    ensures WellFormed(OneFile(max, bad, before))
  {
    hide OneFile;
    var l := OneFile(max, bad, before);
    forall i, k | Owns(l, i, k) ensures 2 <= l.objs[i].chain[k] <= l.max && l.objs[i].chain[k] !in l.bad {
      OneFileIs(max, bad, before);
      OneFileOwns(max, bad, before, i, k);
    }
    forall i, k, j, n | Owns(l, i, k) && Owns(l, j, n) && l.objs[i].chain[k] == l.objs[j].chain[n]
      ensures i == j && k == n
    {
      OneFileOwns(max, bad, before, i, k);
      OneFileOwns(max, bad, before, j, n);
    }
  }

  lemma OneFileIs(max: nat, bad: set<nat>, before: seq<Obj>)
    ensures OneFile(max, bad, before).max == max && OneFile(max, bad, before).bad == bad
  {
  }

  lemma OneFileFree(max: nat, bad: set<nat>, before: seq<Obj>)
    requires Fitting(max, bad, before)
    ensures |Free(OneFile(max, bad, before))| >= 3
  {
    var l := OneFile(max, bad, before);
    forall c | c in {3, 5, 6} ensures c in Free(l) {
      assert Between(2, c, l.max + 1);
      if c in Alloc(l) {
        var i, k :| Owns(l, i, k) && l.objs[i].chain[k] == c;
        OneFileOwns(max, bad, before, i, k);
      }
    }
    SubsetCount({3, 5, 6}, Free(l));
  }

  lemma OneFileReserve(max: nat, bad: set<nat>, before: seq<Obj>)
    requires Fitting(max, bad, before)
    ensures TotalReserve(OneFile(max, bad, before), 10) == 1
  {
    var l, n := OneFile(max, bad, before), |before|;
    var all := Range(0, |l.objs|);
    assert Between(0, n, |l.objs|);
    assert ReserveIn(l, all, 0, 10) == 0;
    assert n == 1 ==> ReserveIn(l, all, 1, 10) == 0;
    assert l.objs[n].chain == [2, 4] && FileReserve(l, n, 10) == 1;
    assert ReserveIn(l, all, n + 1, 10) == ReserveIn(l, all, n, 10) + 1;
  }

  /** Growth Defrag has work to do on it. */
  lemma OneFileWork(max: nat, bad: set<nat>, before: seq<Obj>)
    requires Fitting(max, bad, before)
    ensures var l := OneFile(max, bad, before); WellFormed(l) && IsLargest(l, 2) && WorkToDo(l, 2, 10)
  {
    hide CanonicalLayout, Free, TotalReserve, WellFormed;
    var l, n := OneFile(max, bad, before), |before|;
    OneFileWellFormed(max, bad, before);
    OneFileFree(max, bad, before);
    OneFileReserve(max, bad, before);
    assert l.objs[n].chain == [2, 4] && l.objs[n].chain[1] == 4 && !l.objs[n].isDir;
    assert !Contiguous(l.objs[n].chain) && RegularFile(l, n);
    assert Blames(l, n, 10, ObjectFragmented);
    NoOtherProblem(l, 10, ObjectFragmented, ReserveShort);
  }

  /** Admitted, yet without a workspace: the last cluster is bad. */
  lemma LostWorkspace()
    ensures var l := OneFile(7, {7}, []);
            WellFormed(l) && IsLargest(l, 2) && WorkToDo(l, 2, 10) && Admitted(l, 2, 10) && !RoomForWorkspace(l, 2)
  {
    OneFileWork(7, {7}, []);
    assert 6 <= 7 < 6 + 2 && 7 in {7};
  }

  /** An empty record of the same name is found first: its size is not the planned one. */
  lemma EmptyTwin()
    ensures var l := OneFile(7, {}, [Obj(false, false, "A", [])]);
            WellFormed(l) && WorkToDo(l, 2, 10) && !SizesAgree(l) && !Findable(l) && !UniqueKeys(l)
  {
    var l := OneFile(7, {}, [Obj(false, false, "A", [])]);
    OneFileWork(7, {}, [Obj(false, false, "A", [])]);
    assert l.objs[0].chain == [] && l.objs[1].chain == [2, 4];
    assert SameKey(l.objs[0], KeyOf(l.objs[1]));
    assert FirstMatch(l, KeyOf(l.objs[1])) == 0;
  }

  // ---- A workspace, but no fit -----------------------------------------------------------

  /** Packed around a bad cluster: a fragmented file in 2 and 4, another one in 5. */
  function TwoFiles(): Layout {
    Layout(9, {3}, [Obj(false, false, "B", [2, 4]), Obj(false, false, "A", [5])])
  }

  lemma TwoFilesOwn(i: int, k: int)
    requires Owns(TwoFiles(), i, k)
    ensures (i == 0 && k == 0) || (i == 0 && k == 1) || (i == 1 && k == 0)
  {
  }

  lemma TwoFilesWellFormed()
    ensures WellFormed(TwoFiles())
  {
    var l := TwoFiles();
    forall i, k | Owns(l, i, k) ensures 2 <= l.objs[i].chain[k] <= l.max && l.objs[i].chain[k] !in l.bad {
      TwoFilesOwn(i, k);
    }
    forall i, k, j, n | Owns(l, i, k) && Owns(l, j, n) && l.objs[i].chain[k] == l.objs[j].chain[n]
      ensures i == j && k == n
    {
      TwoFilesOwn(i, k);
      TwoFilesOwn(j, n);
    }
  }

  lemma TwoFilesSpace()
    ensures Alloc(TwoFiles()) == {2, 4, 5} && Free(TwoFiles()) == {6, 7, 8, 9} && NoHoles(TwoFiles())
  {
    var l := TwoFiles();
    assert Owns(l, 0, 0) && Owns(l, 0, 1) && Owns(l, 1, 0);
    assert l.objs[0].chain[0] == 2 && l.objs[0].chain[1] == 4 && l.objs[1].chain[0] == 5;
    forall c | c in Alloc(l) ensures c in {2, 4, 5} {
      var i, k :| Owns(l, i, k) && l.objs[i].chain[k] == c;
      TwoFilesOwn(i, k);
    }
    hide Alloc;
    forall c: nat ensures c in Range(2, 10) <==> 2 <= c < 10 { assert Between(2, c, 10) <==> 2 <= c < 10; }
    assert Free(l) == {6, 7, 8, 9};
  }

  lemma TwoFilesReserve()
    ensures TotalReserve(TwoFiles(), 25) == 2
  {
    var l := TwoFiles();
    var all := Range(0, 2);
    assert Between(0, 0, 2) && Between(0, 1, 2);
    assert FileReserve(l, 0, 25) == 1 && FileReserve(l, 1, 25) == 1;
    assert ReserveIn(l, all, 0, 25) == 0;
    assert ReserveIn(l, all, 1, 25) == 1;
    assert ReserveIn(l, all, 2, 25) == 2;
  }

  lemma TwoFilesRoom()
    ensures IsLargest(TwoFiles(), 2) && RoomForWorkspace(TwoFiles(), 2) && Admitted(TwoFiles(), 2, 25)
  {
    hide TotalReserve, WellFormed;
    var l := TwoFiles();
    TwoFilesSpace();
    TwoFilesReserve();
    assert l.objs[0].chain == [2, 4] && l.objs[1].chain == [5];
    hide Alloc, Free;
    UsableBelow({3}, 8);
    assert BadIn({3}, 2, 8) == {3};
    assert |{2, 4, 5}| == 3 && |{6, 7, 8, 9}| == 4;
  }

  /** The file in 2 and 4 cannot start before 4, and then its growth room and the other file
      with its own end beyond cluster 7. */
  lemma TwoFilesOrder(objects: seq<GrowthObject>, targets: seq<nat>, ends: seq<nat>, limit: nat)
    requires |objects| == 2 && objects[0].clusters == 2 && objects[1].clusters == 1
    requires !objects[0].isDir && !objects[1].isDir && InOrder({3}, objects, targets, ends, 25, limit)
    ensures limit >= 9
  {
    hide NonBad;
    assert Fits({3}, objects[0], targets[0], ends[0], ends[1], 25);
    assert Fits({3}, objects[1], targets[1], ends[1], ends[2], 25);
    assert targets[0] >= 4 by { assert NoBad({3}, targets[0], 2); }
    NeedsOne(targets[0] + 2, ends[1]);
    NeedsOne(targets[1] + 1, ends[2]);
  }

  lemma NeedsOne(lo: nat, hi: nat)
    requires NonBad({3}, lo, hi) >= 1
    ensures hi >= lo + 1
  {
  }

  lemma TwoFilesListing(b: GrowthObject, a: GrowthObject)
    requires b == GrowthObject(false, false, "B", 2, 2, 0, 0) && a == GrowthObject(false, false, "A", 1, 5, 0, 0)
    ensures Listing(TwoFiles(), [b, a], [0, 1])
  {
    var l := TwoFiles();
    assert l.objs[0].chain == [2, 4] && l.objs[1].chain == [5];
    assert MinCluster([2, 4]) == 2 && MinCluster([5]) == 5;
  }

  /** Admitted, with a workspace, yet no layout fits below it. */
  lemma LostFit()
    ensures var l := TwoFiles();
            && WellFormed(l) && NoHoles(l) && IsLargest(l, 2) && WorkToDo(l, 2, 25)
            && RoomForWorkspace(l, 2) && NothingFits(l, 25, 8) && !Affordable(l, 2, 25)
  {
    hide RoomForWorkspace, Admitted, TotalReserve, NoHoles, CanonicalLayout, WellFormed, NothingFits, Affordable;
    var l := TwoFiles();
    TwoFilesWellFormed();
    TwoFilesSpace();
    TwoFilesRoom();
    TwoFilesTight();
    if Affordable(l, 2, 25) { AffordableSuffices(l, 2, 25); }
    hide Alloc, Free;
    assert l.objs[0].chain[1] == 4;
    assert !Contiguous(l.objs[0].chain) && RegularFile(l, 0);
    assert Blames(l, 0, 25, ObjectFragmented);
    NoOtherProblem(l, 25, ObjectFragmented, ReserveShort);
  }

  lemma TwoFilesTight()
    ensures NothingFits(TwoFiles(), 25, 8)
  {
    hide Listing, InOrder, TwoFiles;
    var b, a := GrowthObject(false, false, "B", 2, 2, 0, 0), GrowthObject(false, false, "A", 1, 5, 0, 0);
    TwoFilesIs();
    TwoFilesListing(b, a);
    NoOrderFor([b, a]);
    assert Listing(TwoFiles(), [b, a], [0, 1]) && NoOrder({3}, [b, a], 25, 8);
  }

  lemma NoOrderFor(objects: seq<GrowthObject>)
    requires |objects| == 2 && objects[0].clusters == 2 && objects[1].clusters == 1
    requires !objects[0].isDir && !objects[1].isDir
    ensures NoOrder({3}, objects, 25, 8)
  {
    hide InOrder;
    forall targets, ends ensures !InOrder({3}, objects, targets, ends, 25, 8) {
      if InOrder({3}, objects, targets, ends, 25, 8) { TwoFilesOrder(objects, targets, ends, 8); }
    }
  }

  lemma TwoFilesIs()
    ensures TwoFiles().max == 9 && TwoFiles().bad == {3}
  {
  }

  /** The whole operation without stop requests: each end by its exact condition. */
  method Unstopped(l: Layout, percent: nat, ghost largest: nat) returns (outcome: Outcome, ghost prepared: Layout)
    requires WellFormed(l) && 1 <= l.max < SIZE_MAX && IsLargest(l, largest) && WorkToDo(l, largest, percent)
    ensures largest <= l.max && prepared.max == l.max && PreparesTo(l, 0, prepared)
    ensures outcome == if !RoomForWorkspace(l, largest) then NoWorkspace
                       else if NothingFits(prepared, percent, l.max + 1 - largest) then NoFit
                       else if SizesAgree(l) then Completed else ObjectChanged
    ensures l.bad == {} || Affordable(l, largest, percent) ==> outcome.Completed? || outcome.ObjectChanged?
  {
    hide WellFormed, IsLargest, SizesAgree, Findable, RoomForWorkspace, WorkToDo, NothingFits, PreparesTo, PreparedBy,
         Affordable, LaidBy, Satisfied, Promised, SameOrder, Free, AfterRun;
    var e := new Engine(l);
    ghost var mark, most;
    outcome, prepared, mark, most := GrowthDefragVolume(e, percent, 0, 32, 4096, n => false, n => false);
    LargestUnique(l, largest, most);
    LargestFits(l, largest);
  }

  /** The three volumes: no workspace, no fit, a changed size. */
  method AllFallShort() returns (first: Outcome, second: Outcome, third: Outcome)
    ensures first.NoWorkspace? && second.NoFit? && third.ObjectChanged?
  {
    hide WellFormed, IsLargest, SizesAgree, Findable, RoomForWorkspace, WorkToDo, OneFile, TwoFiles, NothingFits,
         NoHoles, PreparesTo, Affordable, UniqueKeys;
    ghost var prepared;
    LostWorkspace();
    OneFileIs(7, {7}, []);
    first, prepared := Unstopped(OneFile(7, {7}, []), 10, 2);
    LostFit();
    TwoFilesIs();
    second, prepared := Unstopped(TwoFiles(), 25, 2);
    PreparesToOne(TwoFiles(), 0, prepared, prepared);
    EmptyTwin();
    OneFileIs(7, {}, [Obj(false, false, "A", [])]);
    OneFileWork(7, {}, [Obj(false, false, "A", [])]);
    third, prepared := Unstopped(OneFile(7, {}, [Obj(false, false, "A", [])]), 10, 2);
  }
}
