/** Growth Defrag as a whole: preflight, admission test, preparation, plan and layout. */
module GrowthDefrag {
  import opened ClusterLayout
  import opened FatEngine
  import opened GrowthPrepare
  import opened GrowthPlan
  import opened GrowthRoom
  import opened GrowthPreflight
  import opened GrowthLayout

  // ---- Sums over the object list --------------------------------------------------

  function SumClusters(objects: seq<GrowthObject>): nat {
    if objects == [] then 0 else SumClusters(objects[..|objects| - 1]) + objects[|objects| - 1].clusters
  }

  function SumReserve(objects: seq<GrowthObject>, percent: nat): nat {
    if objects == [] then 0
    else SumReserve(objects[..|objects| - 1], percent) + ReserveOf(objects[|objects| - 1], percent)
  }

  lemma {:induction false} NeedSplits(objects: seq<GrowthObject>, percent: nat)
    ensures Need(objects, percent) == SumClusters(objects) + SumReserve(objects, percent)
  {
    if objects != [] {
      NeedSplits(objects[..|objects| - 1], percent);
    }
  }

  lemma OwnedByGrows(l: Layout, sel: set<nat>, i: nat)
    requires WellFormed(l) && i < |l.objs| && i !in sel
    ensures |OwnedBy(l, sel + {i})| == |OwnedBy(l, sel)| + |l.objs[i].chain|
  {
    var chain := l.objs[i].chain;
    forall a, b | 0 <= a < b < |chain| ensures chain[a] != chain[b] {
      assert Owns(l, i, a) && Owns(l, i, b);
    }
    DistinctCount(chain);
    assert OwnedBy(l, sel + {i}) == OwnedBy(l, sel) + Elements(chain);
    forall c | c in OwnedBy(l, sel) ensures c !in Elements(chain) {
      var j, n :| j in sel && Owns(l, j, n) && l.objs[j].chain[n] == c;
      assert forall k | 0 <= k < |chain| :: Owns(l, i, k);
    }
  }

  lemma {:induction false} OwnedCount(l: Layout, objects: seq<GrowthObject>, idx: seq<nat>, n: nat)
    requires WellFormed(l) && Matches(l, objects, idx) && n <= |objects|
    ensures |OwnedBy(l, Elements(idx[..n]))| == SumClusters(objects[..n])
  {
    if n > 0 {
      OwnedCount(l, objects, idx, n - 1);
      assert idx[..n] == idx[..n - 1] + [idx[n - 1]];
      ElementsAppend(idx[..n - 1], idx[n - 1]);
      assert Describes(l, objects[n - 1], idx[n - 1]);
      assert objects[..n][..n - 1] == objects[..n - 1];
      OwnedByGrows(l, Elements(idx[..n - 1]), idx[n - 1]);
    } else {
      assert OwnedBy(l, Elements(idx[..0])) == {};
    }
  }

  lemma ListedClusters(l: Layout, objects: seq<GrowthObject>, idx: seq<nat>)
    requires WellFormed(l) && Matches(l, objects, idx)
    ensures SumClusters(objects) == |Alloc(l)|
  {
    var n := |objects|;
    OwnedCount(l, objects, idx, n);
    assert idx[..n] == idx && objects[..n] == objects;
    forall c | c in Alloc(l) ensures c in OwnedBy(l, Elements(idx)) {
      var i, k :| Owns(l, i, k) && l.objs[i].chain[k] == c;
      assert i in idx;
    }
    assert OwnedBy(l, Elements(idx)) == Alloc(l);
  }

  ghost function FileReserve(l: Layout, i: nat, percent: nat): nat
    requires i < |l.objs|
  {
    if l.objs[i].chain == [] || l.objs[i].isDir then 0 else Reserve(|l.objs[i].chain|, percent)
  }

  ghost function ReserveIn(l: Layout, sel: set<nat>, n: nat, percent: nat): nat
    requires n <= |l.objs|
  {
    if n == 0 then 0
    else ReserveIn(l, sel, n - 1, percent) + (if n - 1 in sel then FileReserve(l, n - 1, percent) else 0)
  }

  lemma {:induction false} ReserveInGrows(l: Layout, sel: set<nat>, i: nat, n: nat, percent: nat)
    requires n <= |l.objs| && i !in sel && i < |l.objs|
    ensures ReserveIn(l, sel + {i}, n, percent) ==
      ReserveIn(l, sel, n, percent) + (if i < n then FileReserve(l, i, percent) else 0)
  {
    if n > 0 {
      ReserveInGrows(l, sel, i, n - 1, percent);
    }
  }

  lemma {:induction false} ListedReserve(l: Layout, objects: seq<GrowthObject>, idx: seq<nat>, n: nat, percent: nat)
    requires Matches(l, objects, idx) && n <= |objects|
    ensures SumReserve(objects[..n], percent) == ReserveIn(l, Elements(idx[..n]), |l.objs|, percent)
  {
    if n > 0 {
      ListedReserve(l, objects, idx, n - 1, percent);
      assert idx[..n] == idx[..n - 1] + [idx[n - 1]];
      ElementsAppend(idx[..n - 1], idx[n - 1]);
      assert Describes(l, objects[n - 1], idx[n - 1]);
      assert objects[..n][..n - 1] == objects[..n - 1];
      ReserveInGrows(l, Elements(idx[..n - 1]), idx[n - 1], |l.objs|, percent);
    } else {
      ReserveInNothing(l, |l.objs|, percent);
      assert Elements(idx[..0]) == {};
    }
  }

  lemma {:induction false} ReserveInNothing(l: Layout, n: nat, percent: nat)
    requires n <= |l.objs|
    ensures ReserveIn(l, {}, n, percent) == 0
  {
    if n > 0 { ReserveInNothing(l, n - 1, percent); }
  }

  lemma {:induction false} ReserveInSame(l: Layout, l': Layout, sel: set<nat>, sel': set<nat>, n: nat, percent: nat)
    requires SameShape(l, l') && n <= |l.objs|
    requires forall i | 0 <= i < |l.objs| && l.objs[i].chain != [] :: i in sel && i in sel'
    ensures ReserveIn(l, sel, n, percent) == ReserveIn(l', sel', n, percent)
  {
    if n > 0 {
      ReserveInSame(l, l', sel, sel', n - 1, percent);
    }
  }

  /** Free clusters the request asks for after all regular files. */
  ghost function TotalReserve(l: Layout, percent: nat): nat {
    ReserveIn(l, Range(0, |l.objs|), |l.objs|, percent)
  }

  lemma ListedTotal(l: Layout, objects: seq<GrowthObject>, idx: seq<nat>, percent: nat)
    requires Matches(l, objects, idx)
    ensures SumReserve(objects, percent) == TotalReserve(l, percent)
  {
    ListedReserve(l, objects, idx, |objects|, percent);
    assert idx[..|objects|] == idx && objects[..|objects|] == objects;
    forall i | 0 <= i < |l.objs| && l.objs[i].chain != [] ensures i in Elements(idx) && i in Range(0, |l.objs|) {
      assert i in idx && Between(0, i, |l.objs|);
    }
    ReserveInSame(l, l, Elements(idx), Range(0, |l.objs|), |l.objs|, percent);
  }

  lemma TotalInvariant(l: Layout, l': Layout, percent: nat)
    requires SameShape(l, l')
    ensures TotalReserve(l, percent) == TotalReserve(l', percent)
  {
    forall i | 0 <= i < |l.objs| ensures i in Range(0, |l.objs|) {
      assert Between(0, i, |l.objs|);
    }
    ReserveInSame(l, l', Range(0, |l.objs|), Range(0, |l.objs|), |l.objs|, percent);
  }

  // ---- How much workspace the preparation leaves -------------------------------------

  /** Everything that is not bad fits below the last n clusters, which are usable. */
  ghost predicate RoomForWorkspace(l: Layout, n: nat) {
    n < l.max && NoBad(l.bad, l.max + 1 - n, n) && |Alloc(l)| <= NonBad(l.bad, 2, l.max + 1 - n)
  }

  /** Exactly when a prepared volume ends in n free clusters; both sides can be
      decided before the preparation, which keeps bad clusters and sizes. */
  lemma WorkspaceExact(l: Layout, n: nat)
    requires WellFormed(l) && NoHoles(l) && n < l.max
    ensures AllFree(l, l.max + 1 - n, n) <==> RoomForWorkspace(l, n)
  {
    hide WellFormed, Alloc, NoHoles;
    AllocInRange(l);
    var top := l.max + 1 - n;
    var usable := Range(2, top) - l.bad;
    NonBadIsCount(l.bad, 2, top);
    if AllFree(l, top, n) {
      forall c | c in Alloc(l) ensures c in usable {
        assert top <= c < top + n ==> c in Free(l);
      }
      SubsetCount(Alloc(l), usable);
      forall c | top <= c < top + n ensures c !in l.bad {
        assert c in Free(l);
      }
    } else {
      var c :| top <= c < top + n && c !in Free(l);
      if c !in l.bad {
        assert c in Alloc(l);
        PackedBelow(l, top, c);
      }
    }
  }

  lemma PackedBelow(l: Layout, top: nat, c: nat)
    requires NoHoles(l) && c in Alloc(l) && 2 <= top <= c <= l.max
    ensures |Alloc(l)| > |Range(2, top) - l.bad|
  {
    hide Alloc;
    var usable := Range(2, top) - l.bad;
    forall d | d in usable ensures d in Alloc(l) {
      assert d in Free(l) ==> c < d;
    }
    SubsetCount(usable + {c}, Alloc(l));
  }

  lemma WithoutBad(l: Layout)
    requires WellFormed(l) && l.bad == {} && l.max >= 1
    ensures |Alloc(l)| + |Free(l)| == l.max - 1
    ensures forall n: nat | n <= |Free(l)| && n < l.max :: RoomForWorkspace(l, n)
  {
    hide WellFormed, Alloc;
    AllocInRange(l);
    RangeCount(2, l.max - 1);
    assert Range(2, l.max + 1) == Alloc(l) + Free(l);
    assert |Alloc(l) + Free(l)| == |Alloc(l)| + |Free(l)|;
    forall n: nat | n <= |Free(l)| && n < l.max ensures RoomForWorkspace(l, n) {
      NonBadMonotone({}, 2, 2, l.max + 1 - n);
    }
  }

  // ---- The whole operation -------------------------------------------------------------

  datatype Outcome =
    | BadPercent | AlreadySatisfied(canonical: bool) | NoRegularFiles | NotEnoughSpace
    | StoppedPreparing | NoWorkspace | NoFit | StoppedLayout | ObjectChanged | Completed
  {
    predicate Untouched() {
      BadPercent? || AlreadySatisfied? || NoRegularFiles? || NotEnoughSpace?
    }
  }

  ghost predicate IsLargest(l: Layout, n: nat) {
    && (forall i | 0 <= i < |l.objs| :: |l.objs[i].chain| <= n)
    && (n == 0 || exists i | 0 <= i < |l.objs| :: |l.objs[i].chain| == n)
  }

  /** The admission test: the reserve plus a workspace for the largest object. */
  ghost predicate Admitted(l: Layout, largest: nat, percent: nat) {
    largest < |Free(l)| && TotalReserve(l, percent) <= |Free(l)| - largest
  }

  /** Without bad clusters, a volume that passed the admission test has a plan. */
  lemma AdmissionSuffices(l: Layout, objects: seq<GrowthObject>, idx: seq<nat>, largest: nat, percent: nat)
    requires WellFormed(l) && l.max >= 1 && l.bad == {} && Matches(l, objects, idx) && Admitted(l, largest, percent)
    ensures RoomForWorkspace(l, largest)
    ensures 2 + Need(objects, percent) <= l.max + 1 - largest
  {
    WithoutBad(l);
    NeedSplits(objects, percent);
    ListedClusters(l, objects, idx);
    ListedTotal(l, objects, idx, percent);
  }

  lemma ReadyToLay(l: Layout, objects: seq<GrowthObject>, plan: seq<GrowthObject>, cur: seq<nat>, idx: seq<nat>,
                   largest: nat, percent: nat)
    requires WellFormed(l) && Matches(l, objects, idx) && IsLargest(l, largest) && 1 <= largest < l.max
    requires AllFree(l, l.max + 1 - largest, largest)
    requires IsPlan(l.bad, objects, plan, cur, percent, l.max + 1 - largest)
    ensures Progress(l, plan, FoundIn(l, plan), l.max + 1 - largest, |plan|)
  {
    hide WellFormed, Alloc, Matches, FoundIn, Found;
    var workspace := l.max + 1 - largest;
    AllocInRange(l);
    PlanMatches(l, objects, plan, cur, idx, percent, workspace);
    FoundExists(l, plan, idx);
    forall j | 0 <= j < |plan|
      ensures 2 <= plan[j].target && plan[j].target + plan[j].clusters <= workspace
      ensures NoBad(l.bad, plan[j].target, plan[j].clusters) && workspace + plan[j].clusters <= l.max + 1
    {
      PlanBounds(l.bad, objects, plan, cur, percent, workspace, j);
      DescribedAt(l, plan, idx, j);
    }
    forall j, k | 0 <= j < k < |plan| ensures plan[j].target + plan[j].clusters <= plan[k].target {
      PlanBounds(l.bad, objects, plan, cur, percent, workspace, k);
    }
    forall c | workspace <= c <= l.max ensures c !in l.bad && c !in Alloc(l) {
      assert c in Free(l);
    }
    forall c | c in Alloc(l) ensures c < workspace {
      assert c in Range(2, l.max + 1);
    }
  }

  lemma DescribedAt(l: Layout, plan: seq<GrowthObject>, idx: seq<nat>, j: nat)
    requires Matches(l, plan, idx) && j < |plan|
    ensures |idx| == |plan| && Describes(l, plan[j], idx[j])
  {
  }

  lemma PlanMatches(l: Layout, objects: seq<GrowthObject>, plan: seq<GrowthObject>, cur: seq<nat>, idx: seq<nat>,
                    percent: nat, limit: nat)
    requires Matches(l, objects, idx) && IsPlan(l.bad, objects, plan, cur, percent, limit)
    ensures Matches(l, plan, idx)
  {
    forall j | 0 <= j < |plan| ensures Describes(l, plan[j], idx[j]) {
      assert Describes(l, objects[j], idx[j]);
    }
  }

  /** Objects keep their physical order. */
  ghost predicate SameOrder(l: Layout, l': Layout) {
    && |l'.objs| == |l.objs|
    && forall i, j | 0 <= i < |l.objs| && 0 <= j < |l.objs| && l.objs[i].chain != [] && l.objs[j].chain != [] ::
         && l'.objs[i].chain != [] && l'.objs[j].chain != []
         && (MinCluster(l.objs[i].chain) < MinCluster(l.objs[j].chain) ==>
               MinCluster(l'.objs[i].chain) < MinCluster(l'.objs[j].chain))
  }

  lemma LayoutKeepsOrder(l: Layout, l': Layout, objects: seq<GrowthObject>, plan: seq<GrowthObject>, cur: seq<nat>,
                         idx: seq<nat>, percent: nat, limit: nat)
    requires SameShape(l, l') && Matches(l, objects, idx) && InPhysicalOrder(l, objects, idx)
    requires IsPlan(l.bad, objects, plan, cur, percent, limit) && LaidOut(l', plan, idx)
    ensures SameOrder(l, l')
  {
    hide IsPlan, InPlace, Describes, MinCluster, InPhysicalOrder, Matches, LaidOut;
    forall i, j | 0 <= i < |l.objs| && 0 <= j < |l.objs| && l.objs[i].chain != [] && l.objs[j].chain != []
      ensures l'.objs[i].chain != [] && l'.objs[j].chain != []
      ensures MinCluster(l.objs[i].chain) < MinCluster(l.objs[j].chain) ==>
                MinCluster(l'.objs[i].chain) < MinCluster(l'.objs[j].chain)
    {
      var a := PlaceOf(l, objects, idx, i);
      var b := PlaceOf(l, objects, idx, j);
      PlacedFirst(l', plan, idx, a, i);
      PlacedFirst(l', plan, idx, b, j);
      if MinCluster(l.objs[i].chain) < MinCluster(l.objs[j].chain) {
        EarlierPlace(l, objects, idx, a, b);
        PlanBounds(l.bad, objects, plan, cur, percent, limit, b);
      }
    }
  }

  lemma PlaceOf(l: Layout, objects: seq<GrowthObject>, idx: seq<nat>, i: nat) returns (a: nat)
    requires Matches(l, objects, idx) && i < |l.objs| && l.objs[i].chain != []
    ensures a < |idx| == |objects| && idx[a] == i
  {
    a :| a < |idx| && idx[a] == i;
  }

  lemma PlacedFirst(l: Layout, plan: seq<GrowthObject>, idx: seq<nat>, a: nat, i: nat)
    requires LaidOut(l, plan, idx) && a < |idx| && idx[a] == i && i < |l.objs|
    ensures a < |plan| && plan[a].clusters >= 1 && l.objs[i].chain != []
    ensures MinCluster(l.objs[i].chain) == plan[a].target
  {
    assert InPlace(l, plan[a], idx[a]) && Describes(l, plan[a], idx[a]);
    assert l.objs[i].chain[0] == plan[a].target;
  }

  lemma EarlierPlace(l: Layout, objects: seq<GrowthObject>, idx: seq<nat>, a: nat, b: nat)
    requires Matches(l, objects, idx) && InPhysicalOrder(l, objects, idx) && a < |idx| && b < |idx| && idx[a] < |l.objs|
    requires idx[b] < |l.objs|
    requires l.objs[idx[a]].chain != [] && l.objs[idx[b]].chain != []
    requires MinCluster(l.objs[idx[a]].chain) < MinCluster(l.objs[idx[b]].chain)
    ensures a < b
  {
  }

  /** The request is admitted: nothing is reported instead, and there is room for reserve and workspace. */
  ghost predicate WorkToDo(l: Layout, largest: nat, percent: nat) {
    && 1 <= percent <= 25 && !Promised(l, percent) && !Misreported(l, percent)
    && (exists i :: RegularFile(l, i)) && Admitted(l, largest, percent)
  }

  /** Which report, if any, the read-only phase ends with. */
  ghost predicate Decides(o: Outcome, l: Layout, largest: nat, percent: nat) {
    && (o.BadPercent? <==> percent == 0 || percent > 25)
    && (o == AlreadySatisfied(false) <==> 1 <= percent <= 25 && Promised(l, percent))
    && (o == AlreadySatisfied(true) <==> 1 <= percent <= 25 && Misreported(l, percent))
    && (o.NoRegularFiles? <==> 1 <= percent <= 25 && forall i :: !RegularFile(l, i))
    && (o.NotEnoughSpace? <==> 1 <= percent <= 25 && !Promised(l, percent) && !Misreported(l, percent)
                               && (exists i :: RegularFile(l, i)) && !Admitted(l, largest, percent))
    && (!o.Untouched() <==> WorkToDo(l, largest, percent))
  }

  /** The read-only part of growth_defrag_volume, or Completed when work is admitted. */
  method Admit(l: Layout, percent: nat) returns (verdict: Outcome, ghost largest: nat)
    requires WellFormed(l) && 1 <= l.max
    ensures verdict.Untouched() || verdict.Completed?
    ensures IsLargest(l, largest) && Decides(verdict, l, largest, percent)
  {
    hide Free, Alloc, WellFormed, Matches, IsPlan, Satisfied, Promised, Contiguous, TotalReserve, InPhysicalOrder,
         IsLargest, RegularFile, Need, CanonicalLayout, Canonical, FirstProblem;
    var objects, regularFiles, large; ghost var idx;
    objects, large, regularFiles, idx := BuildGrowthObjects(l);
    largest := large;
    LargestIntro(l, largest);
    if percent == 0 || percent > 25 { return BadPercent, largest; }
    ObjectSizes(l, objects, idx);
    RegularIntro(l, regularFiles);
    SameCanonical(l, objects, idx, percent);
    WhatIsReported(l, percent);
    var issue := Preflight(l, percent);
    if issue.Ok? { return AlreadySatisfied(false), largest; }
    if FirstProblem(l, percent, ReserveShort) && !issue.NoFiles? { ProblemUnique(l, percent, issue, ReserveShort); }
    if regularFiles != 0 && !issue.RootFragmented? && !issue.ObjectFragmented? {
      var canonical; ghost var fits, plan, cur;
      canonical, fits, plan, cur := MatchesCanonical(l, objects, percent);
      if canonical { return AlreadySatisfied(true), largest; }
    }
    ListedTotal(l, objects, idx, percent);
    if exists i :: RegularFile(l, i) { NoObjects(l, objects, idx); }
    if objects == [] || regularFiles == 0 { return NoRegularFiles, largest; }
    if |Free(l)| <= large || SumReserve(objects, percent) > |Free(l)| - large { return NotEnoughSpace, largest; }
    verdict := Completed;
  }

  lemma WhatIsReported(l: Layout, percent: nat)
    ensures Satisfied(l, percent) ==> exists i :: RegularFile(l, i)
    ensures Misreported(l, percent) ==> !Satisfied(l, percent) && exists i :: RegularFile(l, i)
  {
    hide RegularFile, FirstProblem, CanonicalLayout;
    if Misreported(l, percent) { ProblemMeans(l, percent, ReserveShort); }
  }

  lemma NoObjects(l: Layout, objects: seq<GrowthObject>, idx: seq<nat>)
    requires Matches(l, objects, idx) && exists i :: RegularFile(l, i)
    ensures objects != []
  {
    var i :| RegularFile(l, i);
    assert RegularFile(l, i) && i in idx;
  }

  /** In physical order, no choice of targets leaves every file its growth room below the limit. */
  ghost predicate NothingFits(l: Layout, percent: nat, limit: nat) {
    exists objects, idx :: Listing(l, objects, idx) && NoOrder(l.bad, objects, percent, limit)
  }

  ghost predicate NoOrder(bad: set<nat>, objects: seq<GrowthObject>, percent: nat, limit: nat) {
    forall targets, ends :: !InOrder(bad, objects, targets, ends, percent, limit)
  }

  lemma SameInOrder(bad: set<nat>, objects: seq<GrowthObject>, objects': seq<GrowthObject>, percent: nat, limit: nat,
                    targets: seq<nat>, ends: seq<nat>)
    requires |objects'| == |objects| && forall j | 0 <= j < |objects| :: SameListed(objects[j], objects'[j])
    requires InOrder(bad, objects, targets, ends, percent, limit)
    ensures InOrder(bad, objects', targets, ends, percent, limit)
  {
    hide NoBad, NonBad, Reserve;
    forall j | 0 <= j < |objects| ensures Fits(bad, objects'[j], targets[j], ends[j], ends[j + 1], percent) {
      assert Fits(bad, objects[j], targets[j], ends[j], ends[j + 1], percent) && SameListed(objects[j], objects'[j]);
    }
  }

  lemma NothingFitsExact(l: Layout, objects: seq<GrowthObject>, idx: seq<nat>, percent: nat, limit: nat)
    requires WellFormed(l) && Listing(l, objects, idx)
    ensures NothingFits(l, percent, limit) <==> NoOrder(l.bad, objects, percent, limit)
  {
    hide WellFormed, Listing, InOrder;
    if objects', idx' :| Listing(l, objects', idx') && NoOrder(l.bad, objects', percent, limit) {
      ListingUnique(l, objects, idx, objects', idx');
      forall targets, ends ensures !InOrder(l.bad, objects, targets, ends, percent, limit) {
        if InOrder(l.bad, objects, targets, ends, percent, limit) {
          SameInOrder(l.bad, objects, objects', percent, limit, targets, ends);
        }
      }
    }
  }

  /** A plan for the listed objects below the workspace, ready to be laid out. */
  ghost predicate Planned(l: Layout, objects: seq<GrowthObject>, plan: seq<GrowthObject>, cur: seq<nat>, idx: seq<nat>,
                          percent: nat, workspace: nat)
  {
    && Listing(l, objects, idx) && Matches(l, plan, idx) && workspace <= l.max + 1
    && IsPlan(l.bad, objects, plan, cur, percent, workspace)
    && Progress(l, plan, FoundIn(l, plan), workspace, |plan|)
  }

  /** What a finished layout loop leaves, equal records or not: the record found for every
      planned object is at the target of an object it was found for. */
  ghost predicate LaidBy(l: Layout, l': Layout, percent: nat) {
    exists objects, plan, cur, idx, workspace :: Laid(l, l', objects, plan, cur, idx, percent, workspace)
  }

  ghost predicate Laid(l: Layout, l': Layout, objects: seq<GrowthObject>, plan: seq<GrowthObject>, cur: seq<nat>,
                       idx: seq<nat>, percent: nat, workspace: nat)
  {
    && Planned(l, objects, plan, cur, idx, percent, workspace)
    && Progress(l', plan, FoundIn(l', plan), workspace, 0)
  }

  lemma LaidIntro(l: Layout, l': Layout, objects: seq<GrowthObject>, plan: seq<GrowthObject>, cur: seq<nat>,
                  idx: seq<nat>, found: seq<nat>, percent: nat, workspace: nat)
    requires Planned(l, objects, plan, cur, idx, percent, workspace) && Progress(l', plan, found, workspace, 0)
    ensures LaidBy(l, l', percent)
  {
    hide Planned;
    assert found == FoundIn(l', plan) by { hide FirstMatch, WellFormed, Targets, AllBelow, SizedFrom, Settled; }
    hide Progress, FoundIn;
    assert Laid(l, l', objects, plan, cur, idx, percent, workspace);
  }

  /** In a laid-out volume the first record of every path and kind that owns clusters is one
      run at a planned target. */
  lemma FirstRecordsLaid(l: Layout, l': Layout, percent: nat, i: nat)
    requires SameShape(l, l') && LaidBy(l, l', percent) && i < |l'.objs| && l'.objs[i].chain != []
    ensures var f := FirstMatch(l', KeyOf(l'.objs[i])); f < |l'.objs| && Contiguous(l'.objs[f].chain)
  {
    var objects, plan, cur, idx, workspace :| Laid(l, l', objects, plan, cur, idx, percent, workspace);
    hide FirstMatch, IsPlan, InPhysicalOrder, Progress, Listing;
    assert i in idx;
    var j: nat :| j < |idx| && idx[j] == i;
    assert Describes(l, plan[j], idx[j]);
    hide Matches, FoundIn;
    SameLookup(l', plan[j], KeyOf(l'.objs[i]));
    SettledRun(l', plan, workspace, j);
  }

  lemma SettledRun(l: Layout, plan: seq<GrowthObject>, workspace: nat, j: nat)
    requires Progress(l, plan, FoundIn(l, plan), workspace, 0) && j < |plan|
    ensures FirstMatch(l, plan[j]) < |l.objs| && Contiguous(l.objs[FirstMatch(l, plan[j])].chain)
  {
    hide FirstMatch, WellFormed, Targets, AllBelow, SizedFrom, FoundIn;
    FoundAt(l, plan, FoundIn(l, plan), j);
    var k := SettledAt(l, plan, FoundIn(l, plan), 0, j);
  }

  lemma SameLookup(l: Layout, g: GrowthObject, h: GrowthObject)
    requires g.isRoot == h.isRoot && g.isDir == h.isDir && g.path == h.path
    ensures FirstMatch(l, g) == FirstMatch(l, h)
  {
    SameSearch(l, g, h, 0);
  }

  lemma {:induction false} SameSearch(l: Layout, g: GrowthObject, h: GrowthObject, n: nat)
    requires g.isRoot == h.isRoot && g.isDir == h.isDir && g.path == h.path && n <= |l.objs|
    ensures FirstFrom(l, g, n) == FirstFrom(l, h, n)
    decreases |l.objs| - n
  {
    if n < |l.objs| { SameSearch(l, g, h, n + 1); }
  }

  /** The workspace test and the plan below it. */
  method PlanBelow(l: Layout, percent: nat, ghost largest: nat)
    returns (verdict: Outcome, plan: seq<GrowthObject>, workspace: nat, ghost objects: seq<GrowthObject>,
             ghost cur: seq<nat>, ghost idx: seq<nat>)
    requires WellFormed(l) && 1 <= l.max && NoHoles(l) && IsLargest(l, largest)
    requires Admitted(l, largest, percent) && exists i :: RegularFile(l, i)
    ensures verdict.NoWorkspace? || verdict.NoFit? || verdict.Completed?
    ensures verdict.NoWorkspace? <==> !RoomForWorkspace(l, largest)
    ensures largest <= l.max
    ensures verdict.NoFit? <==> RoomForWorkspace(l, largest) && NothingFits(l, percent, l.max + 1 - largest)
    ensures l.bad == {} ==> verdict.Completed?
    ensures verdict.Completed? ==> Planned(l, objects, plan, cur, idx, percent, workspace)
  {
    hide NothingFits, InOrder, Free, Alloc, WellFormed, Matches, IsPlan, NoHoles, Progress, FoundIn, RoomForWorkspace,
         Admitted, InPhysicalOrder, IsLargest, AllFree, RegularFile, Need, NoOrder, Planned;
    plan, workspace, objects, cur, idx := [], 0, [], [], [];
    var listed, large, regularFiles; ghost var at;
    listed, large, regularFiles, at := BuildGrowthObjects(l);
    LargestIntro(l, large);
    LargestUnique(l, largest, large);
    LargestPositive(l, largest);
    ObjectSizes(l, listed, at);
    var terminal := TerminalFreeClusters(l);
    TerminalDecides(l, large, terminal);
    assert largest <= l.max by { LargestFits(l, largest); }
    assert l.bad == {} ==> RoomForWorkspace(l, largest) && 2 + Need(listed, percent) <= l.max + 1 - largest by {
      if l.bad == {} { AdmissionSuffices(l, listed, at, largest, percent); }
    }
    if terminal < large { return NoWorkspace, plan, workspace, objects, cur, idx; }
    workspace, objects, idx := l.max - large + 1, listed, at;
    NothingFitsExact(l, listed, at, percent, workspace);
    var r;
    r, cur := PlanGrowthLayout(l.bad, listed, percent, workspace);
    if r.NoPlan? {
      assert NoOrder(l.bad, listed, percent, workspace) by { NoOrderIntro(l.bad, listed, percent, workspace); }
      return NoFit, plan, workspace, objects, cur, idx;
    }
    plan := r.objects;
    PlanIsOrder(l.bad, listed, plan, cur, percent, workspace);
    assert Planned(l, objects, plan, cur, idx, percent, workspace) by {
      PlanReady(l, objects, plan, cur, idx, large, percent);
    }
    verdict := Completed;
  }

  lemma PlanReady(l: Layout, objects: seq<GrowthObject>, plan: seq<GrowthObject>, cur: seq<nat>, idx: seq<nat>,
                  largest: nat, percent: nat)
    requires WellFormed(l) && Listing(l, objects, idx) && IsLargest(l, largest) && 1 <= largest < l.max
    requires AllFree(l, l.max + 1 - largest, largest)
    requires IsPlan(l.bad, objects, plan, cur, percent, l.max + 1 - largest)
    ensures Planned(l, objects, plan, cur, idx, percent, l.max + 1 - largest)
  {
    hide WellFormed, Matches, InPhysicalOrder, IsLargest, AllFree, IsPlan, Progress, FoundIn;
    PlanMatches(l, objects, plan, cur, idx, percent, l.max + 1 - largest);
    ReadyToLay(l, objects, plan, cur, idx, largest, percent);
  }

  /** Phase 2: plan below the workspace and lay the objects out. */
  method PlanAndLay(e: Engine, percent: nat, objectLimit: nat, clusterLimit: nat, stop: nat -> bool, ghost largest: nat)
    returns (outcome: Outcome)
    requires e.Valid() && 1 <= e.lay.max && NoHoles(e.lay) && IsLargest(e.lay, largest)
    requires Admitted(e.lay, largest, percent) && exists i :: RegularFile(e.lay, i)
    modifies e
    ensures e.Valid() && old(e.txs) <= e.txs && |Free(e.lay)| == |Free(old(e.lay))|
    ensures outcome.NoWorkspace? || outcome.NoFit? || outcome.StoppedLayout? || outcome.ObjectChanged? ||
      outcome.Completed?
    ensures outcome.NoWorkspace? <==> !RoomForWorkspace(old(e.lay), largest)
    ensures outcome.NoFit? <==>
      RoomForWorkspace(old(e.lay), largest) && NothingFits(old(e.lay), percent, old(e.lay.max) + 1 - largest)
    ensures outcome.StoppedLayout? ==> exists n :: stop(n)
    ensures outcome.ObjectChanged? ==> !SizesAgree(old(e.lay))
    ensures outcome.Completed? ==> SizesAgree(old(e.lay))
    ensures outcome.Completed? && Findable(old(e.lay)) ==> Promised(e.lay, percent) && SameOrder(old(e.lay), e.lay)
    ensures old(e.lay.bad) == {} ==> !outcome.NoWorkspace? && !outcome.NoFit?
    ensures outcome.NoWorkspace? || outcome.NoFit? ==> e.lay == old(e.lay) && e.txs == old(e.txs)
    ensures outcome.Completed? ==> LaidBy(old(e.lay), e.lay, percent)
  {
    hide NothingFits, Free, Alloc, WellFormed, Reached, Matches, IsPlan, Satisfied, Promised, NoHoles, Progress,
         SizedFrom, SizesAgree, Findable, FoundIn, RoomForWorkspace, Admitted, InPhysicalOrder, SameShape, SameOrder,
         IsLargest, RegularFile;
    ghost var before := e.lay;
    var verdict, plan, workspace; ghost var objects, cur, idx;
    verdict, plan, workspace, objects, cur, idx := PlanBelow(e.lay, percent, largest);
    if !verdict.Completed? { return verdict; }
    ghost var found := FoundIn(e.lay, plan);
    FoundExists(e.lay, plan, idx);
    SizedExact(e.lay, plan, idx, found);
    var end := LayoutObjects(e, plan, found, workspace, objectLimit, clusterLimit, stop);
    if end.Stopped? { return StoppedLayout; }
    if end.SizeChanged? { return ObjectChanged; }
    RunShape(e, before, old(e.txs));
    if Findable(before) { LaidAndSatisfied(before, e.lay, objects, plan, cur, idx, found, percent, workspace); }
    LaidIntro(before, e.lay, objects, plan, cur, idx, found, percent, workspace);
    outcome := Completed;
  }

  lemma NoOrderIntro(bad: set<nat>, objects: seq<GrowthObject>, percent: nat, limit: nat)
    requires forall targets, ends :: !InOrder(bad, objects, targets, ends, percent, limit)
    ensures NoOrder(bad, objects, percent, limit)
  {
  }

  lemma PlanIsOrder(bad: set<nat>, objects: seq<GrowthObject>, plan: seq<GrowthObject>, cur: seq<nat>, percent: nat,
                    limit: nat)
    requires IsPlan(bad, objects, plan, cur, percent, limit)
    ensures !NoOrder(bad, objects, percent, limit)
  {
    hide IsPlan, InOrder;
    PlanInOrder(bad, objects, plan, cur, percent, limit);
  }

  lemma LaidAndSatisfied(l: Layout, l': Layout, objects: seq<GrowthObject>, plan: seq<GrowthObject>, cur: seq<nat>,
                         idx: seq<nat>, found: seq<nat>, percent: nat, workspace: nat)
    requires SameShape(l, l') && Listing(l, objects, idx) && Matches(l, plan, idx) && Findable(l)
    requires exists i :: RegularFile(l, i)
    requires IsPlan(l.bad, objects, plan, cur, percent, workspace) && workspace <= l.max + 1
    requires Progress(l', plan, found, workspace, 0)
    ensures Promised(l', percent) && SameOrder(l, l')
  {
    assert WellFormed(l');
    hide NoHoles, Alloc, Free, WellFormed, IsPlan, Satisfied, Promised, Progress, LaidOut, Matches, InPhysicalOrder,
         SameShape, SameOrder, Findable, RegularFile;
    SameLimits(l, l');
    RegularKept(l, l');
    ShapeKeepsFindable(l, l');
    ShapeKeepsMatch(l, l', plan, idx);
    FinishedLayout(l', plan, idx, found, workspace);
    LaidOutIsSatisfied(l', plan, idx, objects, cur, percent, workspace);
    SatisfiedIsPromised(l', percent);
    LayoutKeepsOrder(l, l', objects, plan, cur, idx, percent, workspace);
  }

  lemma ShapeKeepsMatch(l: Layout, l': Layout, plan: seq<GrowthObject>, idx: seq<nat>)
    requires SameShape(l, l') && Matches(l, plan, idx)
    ensures Matches(l', plan, idx)
  {
    forall j | 0 <= j < |idx| ensures Describes(l', plan[j], idx[j]) {
      assert Describes(l, plan[j], idx[j]);
    }
  }

  lemma ShapeKeepsFindable(l: Layout, l': Layout)
    requires SameShape(l, l')
    ensures Findable(l) <==> Findable(l')
    ensures SizesAgree(l) <==> SizesAgree(l')
  {
    hide FirstMatch;
    forall i | 0 <= i < |l.objs|
      ensures KeyOf(l'.objs[i]) == KeyOf(l.objs[i])
      ensures FirstMatch(l', KeyOf(l'.objs[i])) == FirstMatch(l, KeyOf(l.objs[i]))
    {
      FirstMatchShape(l, l', KeyOf(l.objs[i]));
    }
  }

  // ---- What bad clusters cost ------------------------------------------------------------

  /** Room for everything even if each bad cluster below the workspace costs as much as the
      largest object. */
  ghost predicate Affordable(l: Layout, largest: nat, percent: nat) {
    && 1 <= largest < l.max && NoBad(l.bad, l.max + 1 - largest, largest)
    && var limit := l.max + 1 - largest;
       2 + |Alloc(l)| + TotalReserve(l, percent) + largest * |BadIn(l.bad, 2, limit)| <= limit
  }

  lemma UsableBelow(bad: set<nat>, limit: nat)
    requires limit >= 2
    ensures NonBad(bad, 2, limit) + |BadIn(bad, 2, limit)| == limit - 2
  {
    NonBadIsCount(bad, 2, limit);
    RangeCount(2, limit - 2);
    var usable, lost := Range(2, limit) - bad, BadIn(bad, 2, limit);
    forall c: nat ensures c in Range(2, limit) <==> c in usable + lost {
      assert Between(2, c, limit) <==> 2 <= c < limit;
    }
    assert usable !! lost && usable + lost == Range(2, limit);
  }

  lemma AtLeast(price: nat, n: nat)
    requires price >= 1
    ensures n <= price * n
  {
  }

  lemma AffordableOrder(l: Layout, objects: seq<GrowthObject>, idx: seq<nat>, largest: nat, percent: nat)
    requires WellFormed(l) && Matches(l, objects, idx) && IsLargest(l, largest) && Affordable(l, largest, percent)
    ensures !NoOrder(l.bad, objects, percent, l.max + 1 - largest)
  {
    hide WellFormed, Alloc, TotalReserve, NoBad, BadIn, Need, InOrder;
    var limit := l.max + 1 - largest;
    NeedSplits(objects, percent);
    ListedClusters(l, objects, idx);
    ListedTotal(l, objects, idx, percent);
    CostIsCount(l.bad, 2, limit, largest);
    forall j | 0 <= j < |objects| ensures 1 <= objects[j].clusters <= largest {
      assert Describes(l, objects[j], idx[j]);
    }
    var targets, ends := EnoughRoom(l.bad, objects, percent, limit, largest);
  }

  /** Such a volume has its workspace, and a layout fits below it in every physical order. */
  lemma AffordableSuffices(l: Layout, largest: nat, percent: nat)
    requires WellFormed(l) && IsLargest(l, largest) && Affordable(l, largest, percent)
    ensures RoomForWorkspace(l, largest) && !NothingFits(l, percent, l.max + 1 - largest)
  {
    hide WellFormed, Alloc, TotalReserve, BadIn, NonBad, NoBad, Matches, InPhysicalOrder, IsLargest, NoOrder;
    UsableBelow(l.bad, l.max + 1 - largest);
    AtLeast(largest, |BadIn(l.bad, 2, l.max + 1 - largest)|);
    if NothingFits(l, percent, l.max + 1 - largest) {
      var objects, idx :| Listing(l, objects, idx) && NoOrder(l.bad, objects, percent, l.max + 1 - largest);
      AffordableOrder(l, objects, idx, largest, percent);
    }
  }

  /** The admission test, on a volume whose last clusters are usable, charges one cluster for
      each bad one. */
  lemma AdmissionCharges(l: Layout, largest: nat, percent: nat)
    requires WellFormed(l) && largest < l.max && NoBad(l.bad, l.max + 1 - largest, largest)
    ensures var limit := l.max + 1 - largest;
            Admitted(l, largest, percent) <==>
            && largest < |Free(l)|
            && 2 + |Alloc(l)| + TotalReserve(l, percent) + |BadIn(l.bad, 2, limit)| <= limit
  {
    hide WellFormed, Alloc, TotalReserve;
    var limit := l.max + 1 - largest;
    UsableBelow(l.bad, l.max + 1);
    NonBadIsCount(l.bad, 2, l.max + 1);
    UsableCount(l);
    assert BadIn(l.bad, 2, l.max + 1) == BadIn(l.bad, 2, limit);
  }

  lemma AffordableKept(l: Layout, l': Layout, largest: nat, percent: nat)
    requires WellFormed(l) && WellFormed(l') && SameShape(l, l') && |Free(l)| == |Free(l')|
    ensures Affordable(l, largest, percent) <==> Affordable(l', largest, percent)
  {
    hide WellFormed, Alloc, Free, TotalReserve, NonBad, NoBad, BadIn;
    UsableCount(l);
    UsableCount(l');
    TotalInvariant(l, l', percent);
  }

  /** growth_defrag_volume.  Reports without writing exactly when there is nothing to do or no room,
      refuses what cannot be staged, and otherwise ends in a layout its own preflight accepts. */
  method GrowthDefragVolume(e: Engine, percent: nat, batch: nat, objectLimit: nat, clusterLimit: nat,
                            stopPrepare: nat -> bool, stopLayout: nat -> bool)
    returns (outcome: Outcome, ghost prepared: Layout, ghost mark: nat, ghost largest: nat)
    requires e.Valid() && 1 <= e.lay.max < SIZE_MAX
    modifies e
    ensures e.Valid() && old(e.txs) <= e.txs && |Free(e.lay)| == |Free(old(e.lay))|
    ensures IsLargest(old(e.lay), largest) && Decides(outcome, old(e.lay), largest, percent)
    ensures outcome.Untouched() ==> e.lay == old(e.lay) && e.txs == old(e.txs)
    ensures outcome.StoppedPreparing? ==> exists n :: stopPrepare(n)
    ensures outcome.StoppedLayout? ==> exists n :: stopLayout(n)
    ensures |old(e.txs)| <= mark <= |e.txs|
    ensures var run := e.txs[|old(e.txs)|..mark];
            PreparedBy(old(e.lay), run, 0, BatchOf(batch)) && prepared == AfterRun(old(e.lay), run)
    ensures outcome.StoppedPreparing? || outcome.NoWorkspace? || outcome.NoFit? ==> mark == |e.txs| && e.lay == prepared
    ensures !outcome.Untouched() && !outcome.StoppedPreparing? ==>
              && PreparesTo(old(e.lay), batch, prepared) && SameShape(old(e.lay), prepared) && largest <= prepared.max
              && (outcome.NoWorkspace? <==> !RoomForWorkspace(old(e.lay), largest))
              && (outcome.NoFit? <==> RoomForWorkspace(old(e.lay), largest)
                                      && NothingFits(prepared, percent, prepared.max + 1 - largest))
    ensures outcome.ObjectChanged? ==> !SizesAgree(old(e.lay))
    ensures outcome.Completed? ==> SizesAgree(old(e.lay))
    ensures outcome.Completed? ==> LaidBy(prepared, e.lay, percent)
    ensures outcome.Completed? && Findable(old(e.lay)) ==> Promised(e.lay, percent) && SameOrder(prepared, e.lay)
    ensures old(e.lay.bad) == {} ==> !outcome.NoWorkspace? && !outcome.NoFit?
    ensures Affordable(old(e.lay), largest, percent) ==> !outcome.NoWorkspace? && !outcome.NoFit?
  {
    hide NothingFits, Free, Alloc, WellFormed, Reached, Satisfied, Promised, Affordable, SizesAgree, Findable, NoHoles,
         Contiguous, RoomForWorkspace, TotalReserve, SameShape, SameOrder, IsLargest, RegularFile, Misreported,
         PreparedBy, AfterRun, LaidBy, Prepares;
    prepared, mark := e.lay, |e.txs|;
    NothingPrepared(e.lay, 0, BatchOf(batch));
    assert e.txs[|e.txs|..mark] == [];
    outcome, largest := Admit(e.lay, percent);
    if outcome.Untouched() { return; }
    ghost var start := e.lay;
    var stats, stopped := GrowthPrepareVolume(e, 0, batch, 0, stopPrepare);
    RunShape(e, start, old(e.txs));
    SameLimits(start, e.lay);
    prepared, mark := e.lay, |e.txs|;
    ghost var run := e.txs[|old(e.txs)|..];
    assert e.txs[|old(e.txs)|..mark] == run;
    if stopped { return StoppedPreparing, prepared, mark, largest; }
    PreparesIntro(start, batch, run, prepared);
    ShapeKeepsFindable(start, e.lay);
    LargestKept(start, e.lay, largest);
    LargestFits(e.lay, largest);
    RegularKept(start, e.lay);
    SameRoom(start, e.lay, largest);
    TotalInvariant(start, e.lay, percent);
    AffordableKept(start, e.lay, largest, percent);
    if Affordable(e.lay, largest, percent) { AffordableSuffices(e.lay, largest, percent); }
    ghost var txs := e.txs;
    outcome := PlanAndLay(e, percent, objectLimit, clusterLimit, stopLayout, largest);
    assert e.txs[|old(e.txs)|..mark] == txs[|old(e.txs)|..mark];
  }

  lemma PreparesIntro(l: Layout, batch: nat, run: seq<seq<Move>>, p: Layout)
    requires PreparedBy(l, run, 0, BatchOf(batch)) && p == AfterRun(l, run)
    requires RunEnd(p, MoveCount(run, 0), 0, |run|, 0)
    ensures PreparesTo(l, batch, p)
  {
    assert Prepares(l, batch, run, p);
  }

  lemma LargestFits(l: Layout, largest: nat)
    requires WellFormed(l) && IsLargest(l, largest)
    ensures largest <= l.max
  {
    hide Alloc;
    if largest > 0 {
      var i :| 0 <= i < |l.objs| && |l.objs[i].chain| == largest;
      var chain := l.objs[i].chain;
      forall a, b | 0 <= a < b < |chain| ensures chain[a] != chain[b] { assert Owns(l, i, a) && Owns(l, i, b); }
      DistinctCount(chain);
      forall c | c in Elements(chain) ensures c in Range(2, l.max + 1) {
        var k :| 0 <= k < |chain| && chain[k] == c;
        assert Owns(l, i, k) && Between(2, c, l.max + 1);
      }
      RangeCount(2, if l.max >= 1 then l.max - 1 else 0);
      SubsetCount(Elements(chain), Range(2, l.max + 1));
    }
  }

  lemma SameLimits(l: Layout, l': Layout)
    requires SameShape(l, l')
    ensures l'.max == l.max && l'.bad == l.bad
  {
  }

  lemma LargestKept(l: Layout, l': Layout, n: nat)
    requires SameShape(l, l') && IsLargest(l, n)
    ensures IsLargest(l', n)
  {
    if n != 0 {
      var i :| 0 <= i < |l.objs| && |l.objs[i].chain| == n;
      assert |l'.objs[i].chain| == n;
    }
  }

  lemma LargestUnique(l: Layout, n: nat, n': nat)
    requires IsLargest(l, n) && IsLargest(l, n')
    ensures n == n'
  {
  }

  lemma LargestPositive(l: Layout, n: nat)
    requires IsLargest(l, n) && exists i :: RegularFile(l, i)
    ensures n >= 1
  {
    var i :| RegularFile(l, i);
    assert RegularFile(l, i);
  }

  lemma LargestIntro(l: Layout, n: nat)
    requires forall i | 0 <= i < |l.objs| :: |l.objs[i].chain| <= n
    requires n == 0 || exists i | 0 <= i < |l.objs| :: |l.objs[i].chain| == n
    ensures IsLargest(l, n)
  {
  }

  lemma ObjectSizes(l: Layout, objects: seq<GrowthObject>, idx: seq<nat>)
    requires Matches(l, objects, idx)
    ensures forall j | 0 <= j < |objects| :: objects[j].clusters >= 1
  {
    forall j | 0 <= j < |objects| ensures objects[j].clusters >= 1 {
      assert Describes(l, objects[j], idx[j]);
    }
  }

  lemma RegularIntro(l: Layout, regularFiles: nat)
    requires regularFiles == 0 <==> forall i | 0 <= i < |l.objs| && l.objs[i].chain != [] :: l.objs[i].isDir
    ensures regularFiles != 0 <==> exists i :: RegularFile(l, i)
  {
    if regularFiles != 0 {
      var i :| 0 <= i < |l.objs| && l.objs[i].chain != [] && !l.objs[i].isDir;
      assert RegularFile(l, i);
    }
  }

  lemma RegularKept(l: Layout, l': Layout)
    requires SameShape(l, l') && exists i :: RegularFile(l, i)
    ensures exists i :: RegularFile(l', i)
  {
    var i :| RegularFile(l, i);
    assert RegularFile(l, i);
    assert RegularFile(l', i);
  }

  lemma SameRoom(l: Layout, l': Layout, n: nat)
    requires WellFormed(l) && WellFormed(l') && SameShape(l, l') && |Free(l)| == |Free(l')|
    ensures RoomForWorkspace(l, n) <==> RoomForWorkspace(l', n)
  {
    hide WellFormed, Alloc, Free, Range, NonBad, NoBad;
    UsableCount(l);
    UsableCount(l');
  }

  lemma UsableCount(l: Layout)
    requires WellFormed(l)
    ensures |Alloc(l)| + |Free(l)| == |Range(2, l.max + 1) - l.bad|
  {
    hide WellFormed, Alloc;
    AllocInRange(l);
    assert Range(2, l.max + 1) - l.bad == Alloc(l) + Free(l);
    assert |Alloc(l) + Free(l)| == |Alloc(l)| + |Free(l)|;
  }

  lemma TerminalDecides(l: Layout, n: nat, terminal: nat)
    requires WellFormed(l) && NoHoles(l) && 1 <= l.max && terminal <= l.max - 1
    requires AllFree(l, l.max + 1 - terminal, terminal) && (terminal < l.max - 1 ==> l.max - terminal !in Free(l))
    ensures n <= terminal <==> RoomForWorkspace(l, n)
    ensures n <= terminal ==> AllFree(l, l.max + 1 - n, n)
  {
    hide WellFormed, Alloc;
    if n < l.max {
      WorkspaceExact(l, n);
      if terminal < n {
        assert l.max + 1 - n <= l.max - terminal < l.max + 1;
      }
    }
  }
}
