/** Growth Defrag: the read-only idempotence checks made before any write. */
module GrowthPreflight {
  import opened ClusterLayout
  import opened GrowthPrepare
  import opened GrowthPlan

  datatype Issue = Ok | NoFiles | RootFragmented | ObjectFragmented | ReserveShort

  /** [start, e) holds n free clusters and otherwise only bad ones. */
  ghost predicate RoomUpTo(l: Layout, start: nat, e: nat, n: nat) {
    && start <= e <= l.max + 1 && NonBad(l.bad, start, e) == n
    && forall c | start <= c < e :: c in l.bad || c in Free(l)
  }

  ghost predicate HasRoom(l: Layout, start: nat, n: nat) {
    exists e :: RoomUpTo(l, start, e, n)
  }

  ghost predicate RegularFile(l: Layout, i: int) {
    0 <= i < |l.objs| && l.objs[i].chain != [] && !l.objs[i].isDir
  }

  ghost predicate FileHasRoom(l: Layout, i: int, percent: nat)
    requires RegularFile(l, i)
  {
    HasRoom(l, l.objs[i].chain[0] + |l.objs[i].chain|, Reserve(|l.objs[i].chain|, percent))
  }

  /** What Growth Defrag promises: contiguous objects, growth room after every file. */
  ghost predicate Satisfied(l: Layout, percent: nat) {
    && (exists i :: RegularFile(l, i))
    && (forall i | 0 <= i < |l.objs| :: Contiguous(l.objs[i].chain))
    && (forall i | RegularFile(l, i) :: FileHasRoom(l, i, percent))
  }

  // ---- The promise, spelled out ----------------------------------------------------

  ghost predicate Unowned(l: Layout, c: nat) {
    forall i, k | 0 <= i < |l.objs| && 0 <= k < |l.objs[i].chain| :: l.objs[i].chain[k] != c
  }

  /** Up to `e` only bad clusters and clusters without owner follow the object, and those
      without owner are at least `percent` per cent of its own. */
  ghost predicate GrowsUpTo(l: Layout, i: nat, percent: nat, e: nat)
    requires i < |l.objs| && l.objs[i].chain != []
  {
    var chain := l.objs[i].chain;
    var end := chain[0] + |chain|;
    && end <= e <= l.max + 1 && (forall c: nat | end <= c < e :: c in l.bad || Unowned(l, c))
    && 100 * |set c: nat | end <= c < e && c !in l.bad| >= |chain| * percent
  }

  ghost predicate Grows(l: Layout, i: nat, percent: nat)
    requires i < |l.objs| && l.objs[i].chain != []
  {
    exists e: nat :: GrowsUpTo(l, i, percent, e)
  }

  /** Every object is one run, and every regular file can grow by `percent` in place. */
  ghost predicate Promised(l: Layout, percent: nat) {
    && (exists i | 0 <= i < |l.objs| :: l.objs[i].chain != [] && !l.objs[i].isDir)
    && (forall i, k | 0 <= i < |l.objs| && 0 <= k < |l.objs[i].chain| :: l.objs[i].chain[k] == l.objs[i].chain[0] + k)
    && forall i | 0 <= i < |l.objs| && l.objs[i].chain != [] && !l.objs[i].isDir :: Grows(l, i, percent)
  }

  lemma UnownedIsFree(l: Layout, c: nat)
    requires 2 <= c <= l.max && c !in l.bad
    ensures Unowned(l, c) <==> c in Free(l)
  {
    assert Between(2, c, l.max + 1);
    if c in Free(l) {
      forall i, k | 0 <= i < |l.objs| && 0 <= k < |l.objs[i].chain| ensures l.objs[i].chain[k] != c {
        assert l.objs[i].chain[k] in Alloc(l);
      }
    }
  }

  lemma UsableIsNonBad(bad: set<nat>, lo: nat, hi: nat)
    ensures |set c: nat | lo <= c < hi && c !in bad| == NonBad(bad, lo, hi)
  {
    NonBadIsCount(bad, lo, hi);
    var usable := set c: nat | lo <= c < hi && c !in bad;
    forall c: nat ensures c in usable <==> c in Range(lo, hi) - bad { assert Between(lo, c, hi) <==> lo <= c < hi; }
    assert usable == Range(lo, hi) - bad;
  }

  /** The first point at which the count reaches `n`. */
  lemma {:induction false} ReachesCount(bad: set<nat>, lo: nat, hi: nat, n: nat) returns (e: nat)
    requires lo <= hi && n <= NonBad(bad, lo, hi)
    ensures lo <= e <= hi && NonBad(bad, lo, e) == n
    decreases hi
  {
    if NonBad(bad, lo, hi) == n {
      e := hi;
    } else {
      e := ReachesCount(bad, lo, hi - 1, n);
    }
  }

  lemma Enough(clusters: nat, percent: nat, n: nat)
    ensures Reserve(clusters, percent) <= n <==> clusters * percent <= 100 * n
  {
    var r := Reserve(clusters, percent);
    hide Reserve;
    assert r > 0 ==> 100 * (r - 1) < clusters * percent;
  }

  lemma FileGrows(l: Layout, i: nat, percent: nat)
    requires WellFormed(l) && RegularFile(l, i)
    ensures FileHasRoom(l, i, percent) <==> Grows(l, i, percent)
  {
    hide Reserve, Unowned, NonBad, Free;
    var chain := l.objs[i].chain;
    var start, n := chain[0] + |chain|, Reserve(|chain|, percent);
    assert Owns(l, i, 0) && start >= 2;
    if FileHasRoom(l, i, percent) {
      var e :| RoomUpTo(l, start, e, n);
      UsableIsNonBad(l.bad, start, e);
      Enough(|chain|, percent, n);
      forall c: nat | start <= c < e ensures c in l.bad || Unowned(l, c) {
        if c !in l.bad { UnownedIsFree(l, c); }
      }
      assert GrowsUpTo(l, i, percent, e);
    }
    if Grows(l, i, percent) {
      var e: nat :| GrowsUpTo(l, i, percent, e);
      UsableIsNonBad(l.bad, start, e);
      Enough(|chain|, percent, NonBad(l.bad, start, e));
      var stop := ReachesCount(l.bad, start, e, n);
      forall c | start <= c < stop ensures c in l.bad || c in Free(l) {
        if c !in l.bad { UnownedIsFree(l, c); }
      }
      assert RoomUpTo(l, start, stop, n);
    }
  }

  /** What the preflight accepts is the promise. */
  lemma SatisfiedIsPromised(l: Layout, percent: nat)
    requires WellFormed(l)
    ensures Satisfied(l, percent) <==> Promised(l, percent)
  {
    hide WellFormed, FileHasRoom, Grows;
    forall i: nat | RegularFile(l, i) ensures FileHasRoom(l, i, percent) <==> Grows(l, i, percent) {
      FileGrows(l, i, percent);
    }
    RunsSpelled(l);
    hide Contiguous;
    if Promised(l, percent) {
      var i :| 0 <= i < |l.objs| && l.objs[i].chain != [] && !l.objs[i].isDir;
      assert RegularFile(l, i);
    }
  }

  lemma RunsSpelled(l: Layout)
    ensures (forall i | 0 <= i < |l.objs| :: Contiguous(l.objs[i].chain)) <==>
            (forall i, k | 0 <= i < |l.objs| && 0 <= k < |l.objs[i].chain| ::
               l.objs[i].chain[k] == l.objs[i].chain[0] + k)
  {
    if forall i, k | 0 <= i < |l.objs| && 0 <= k < |l.objs[i].chain| :: l.objs[i].chain[k] == l.objs[i].chain[0] + k {
      forall i | 0 <= i < |l.objs| && l.objs[i].chain != [] ensures Contiguous(l.objs[i].chain) {
        assert l.objs[i].chain == Run(l.objs[i].chain[0], |l.objs[i].chain|);
      }
    }
  }

  method AvailableReserve(l: Layout, start: nat, reserve: nat) returns (available: nat)
    requires 2 <= start <= l.max + 1
    ensures available <= reserve
    ensures available == reserve <==> HasRoom(l, start, reserve)
  {
    available := 0;
    var cursor := start;
    while available < reserve
      invariant start <= cursor <= l.max + 1 && available <= reserve
      invariant RoomUpTo(l, start, cursor, available)
      decreases l.max + 1 - cursor
    {
      if cursor > l.max || (cursor !in l.bad && cursor !in Free(l)) {
        RoomBlocked(l, start, cursor, available, reserve);
        return;
      }
      if cursor !in l.bad { available := available + 1; }
      cursor := cursor + 1;
    }
  }

  lemma RoomBlocked(l: Layout, start: nat, cursor: nat, available: nat, reserve: nat)
    requires RoomUpTo(l, start, cursor, available) && available < reserve
    requires cursor > l.max || (cursor !in l.bad && cursor !in Free(l))
    ensures !HasRoom(l, start, reserve)
  {
    forall e: nat ensures !RoomUpTo(l, start, e, reserve) {
      if RoomUpTo(l, start, e, reserve) {
        if e <= cursor {
          NonBadMonotone(l.bad, start, e, cursor);
        }
      }
    }
  }

  /** The problem, if any, that one object poses. */
  ghost function ObjectIssue(l: Layout, i: int, percent: nat): Issue
    requires 0 <= i < |l.objs|
  {
    if !Contiguous(l.objs[i].chain) then (if l.objs[i].isRoot then RootFragmented else ObjectFragmented)
    else if RegularFile(l, i) && !FileHasRoom(l, i, percent) then ReserveShort
    else Ok
  }

  /** `issue` is the problem of the first object in scan order that has one. */
  ghost predicate FirstProblem(l: Layout, percent: nat, issue: Issue) {
    exists n | 0 <= n < |l.objs| :: Blames(l, n, percent, issue)
  }

  ghost predicate Blames(l: Layout, n: int, percent: nat, issue: Issue)
    requires 0 <= n < |l.objs|
  {
    issue == ObjectIssue(l, n, percent) && !issue.Ok? && forall i | 0 <= i < n :: ObjectIssue(l, i, percent).Ok?
  }

  lemma ProblemUnique(l: Layout, percent: nat, a: Issue, b: Issue)
    requires FirstProblem(l, percent, a) && FirstProblem(l, percent, b)
    ensures a == b
  {
    var n :| 0 <= n < |l.objs| && Blames(l, n, percent, a);
    var m :| 0 <= m < |l.objs| && Blames(l, m, percent, b);
  }

  lemma NoOtherProblem(l: Layout, percent: nat, a: Issue, b: Issue)
    requires FirstProblem(l, percent, a) && a != b
    ensures !FirstProblem(l, percent, b)
  {
    hide FirstProblem;
    if FirstProblem(l, percent, b) { ProblemUnique(l, percent, a, b); }
  }

  lemma ProblemMeans(l: Layout, percent: nat, issue: Issue)
    requires FirstProblem(l, percent, issue)
    ensures !Satisfied(l, percent) && !issue.NoFiles? && (issue.ReserveShort? ==> exists i :: RegularFile(l, i))
  {
    hide FileHasRoom;
    var n :| 0 <= n < |l.objs| && Blames(l, n, percent, issue);
    assert !ObjectIssue(l, n, percent).Ok?;
    assert RegularFile(l, n) || !Contiguous(l.objs[n].chain);
  }

  /** growth_layout_preflight: accepts exactly the satisfied layouts, and otherwise
      reports the problem of the first object in scan order that has one. */
  method Preflight(l: Layout, percent: nat) returns (issue: Issue)
    requires WellFormed(l)
    ensures issue.Ok? <==> Satisfied(l, percent)
    ensures issue.Ok? <==> Promised(l, percent)
    ensures issue.NoFiles? ==> forall i :: !RegularFile(l, i)
    ensures !issue.Ok? && !issue.NoFiles? ==> FirstProblem(l, percent, issue)
  {
    hide HasRoom, WellFormed, Promised, Reserve;
    SatisfiedIsPromised(l, percent);
    var regularFiles := 0;
    for n := 0 to |l.objs|
      invariant regularFiles == 0 <==> forall i | 0 <= i < n :: !RegularFile(l, i)
      invariant forall i | 0 <= i < n :: ObjectIssue(l, i, percent).Ok?
    {
      var o := l.objs[n];
      if o.chain != [] {
        if !Contiguous(o.chain) {
          assert Blames(l, n, percent, ObjectIssue(l, n, percent));
          return if o.isRoot then RootFragmented else ObjectFragmented;
        }
        if !o.isDir {
          assert RegularFile(l, n);
          regularFiles := regularFiles + 1;
          var start := o.chain[0] + |o.chain|;
          assert 2 <= start <= l.max + 1 by { EndInRange(l, n); }
          var reserve := Reserve(|o.chain|, percent);
          var available := AvailableReserve(l, start, reserve);
          if available < reserve {
            assert Blames(l, n, percent, ReserveShort);
            return ReserveShort;
          }
        }
      }
    }
    AllOkIsSatisfied(l, percent);
    if regularFiles == 0 { return NoFiles; }
    issue := Ok;
  }

  lemma AllOkIsSatisfied(l: Layout, percent: nat)
    requires forall i | 0 <= i < |l.objs| :: ObjectIssue(l, i, percent).Ok?
    ensures Satisfied(l, percent) <==> exists i :: RegularFile(l, i)
  {
    forall i | 0 <= i < |l.objs| ensures Contiguous(l.objs[i].chain) {
      assert ObjectIssue(l, i, percent).Ok?;
    }
    forall i | RegularFile(l, i) ensures FileHasRoom(l, i, percent) {
      assert ObjectIssue(l, i, percent).Ok?;
    }
  }

  lemma EndInRange(l: Layout, i: nat)
    requires WellFormed(l) && i < |l.objs| && l.objs[i].chain != [] && Contiguous(l.objs[i].chain)
    ensures 2 <= l.objs[i].chain[0] + |l.objs[i].chain| <= l.max + 1
  {
    var chain := l.objs[i].chain;
    assert Owns(l, i, 0) && Owns(l, i, |chain| - 1);
    assert chain[|chain| - 1] == chain[0] + (|chain| - 1);
  }

  // ---- A finished layout is accepted -------------------------------------------

  ghost predicate InPlace(l: Layout, g: GrowthObject, i: nat) {
    i < |l.objs| && l.objs[i].chain == Run(g.target, g.clusters)
  }

  ghost predicate LaidOut(l: Layout, plan: seq<GrowthObject>, idx: seq<nat>) {
    Matches(l, plan, idx) && forall j | 0 <= j < |plan| :: InPlace(l, plan[j], idx[j])
  }

  lemma {:induction false} CursorsAscend(bad: set<nat>, objects: seq<GrowthObject>, plan: seq<GrowthObject>,
                                         cur: seq<nat>, percent: nat, limit: nat, a: nat, b: nat)
    requires IsPlan(bad, objects, plan, cur, percent, limit) && a <= b <= |plan|
    ensures cur[a] <= cur[b]
    decreases b
  {
    if a < b {
      CursorsAscend(bad, objects, plan, cur, percent, limit, a, b - 1);
      assert Placed(bad, plan[b - 1], cur[b - 1], cur[b], percent);
    }
  }

  /** Targets are disjoint, ascending, inside [2, limit), and keep clear of the growth room. */
  lemma PlanBounds(bad: set<nat>, objects: seq<GrowthObject>, plan: seq<GrowthObject>, cur: seq<nat>, percent: nat,
                   limit: nat, j: nat)
    requires IsPlan(bad, objects, plan, cur, percent, limit) && j < |plan|
    ensures 2 <= plan[j].target && plan[j].target + plan[j].clusters <= cur[j + 1] <= limit
    ensures NoBad(bad, plan[j].target, plan[j].clusters)
    ensures forall k | 0 <= k < j :: plan[k].target + plan[k].clusters <= plan[j].target
    ensures forall k | j < k < |plan| :: cur[j + 1] <= plan[k].target
  {
    CursorsAscend(bad, objects, plan, cur, percent, limit, 0, j);
    CursorsAscend(bad, objects, plan, cur, percent, limit, j + 1, |plan|);
    assert Placed(bad, plan[j], cur[j], cur[j + 1], percent);
    forall k | 0 <= k < j ensures plan[k].target + plan[k].clusters <= plan[j].target {
      assert Placed(bad, plan[k], cur[k], cur[k + 1], percent);
      CursorsAscend(bad, objects, plan, cur, percent, limit, k + 1, j);
    }
    forall k | j < k < |plan| ensures cur[j + 1] <= plan[k].target {
      assert Placed(bad, plan[k], cur[k], cur[k + 1], percent);
      CursorsAscend(bad, objects, plan, cur, percent, limit, j + 1, k);
    }
  }

  /** In a laid-out volume every owned cluster lies in some target run. */
  lemma OwnerInPlace(l: Layout, plan: seq<GrowthObject>, idx: seq<nat>, c: nat) returns (k: nat)
    requires LaidOut(l, plan, idx) && c in Alloc(l)
    ensures k < |plan| && plan[k].target <= c < plan[k].target + plan[k].clusters
  {
    var i, n :| Owns(l, i, n) && l.objs[i].chain[n] == c;
    assert Owns(l, i, n);
    assert i in idx;
    k :| 0 <= k < |idx| && idx[k] == i;
    assert InPlace(l, plan[k], idx[k]);
  }

  lemma NotOwned(l: Layout, plan: seq<GrowthObject>, idx: seq<nat>, c: nat)
    requires LaidOut(l, plan, idx)
    requires forall k | 0 <= k < |plan| :: !(plan[k].target <= c < plan[k].target + plan[k].clusters)
    ensures c !in Alloc(l)
  {
    hide LaidOut, Alloc;
    if c in Alloc(l) { var k := OwnerInPlace(l, plan, idx, c); }
  }

  lemma RoomAfter(l: Layout, plan: seq<GrowthObject>, idx: seq<nat>, objects: seq<GrowthObject>, cur: seq<nat>,
                  percent: nat, limit: nat, j: nat)
    requires LaidOut(l, plan, idx) && IsPlan(l.bad, objects, plan, cur, percent, limit)
    requires limit <= l.max + 1 && j < |plan| && !plan[j].isDir
    ensures HasRoom(l, plan[j].target + plan[j].clusters, Reserve(plan[j].clusters, percent))
  {
    var start := plan[j].target + plan[j].clusters;
    PlanBounds(l.bad, objects, plan, cur, percent, limit, j);
    assert Placed(l.bad, plan[j], cur[j], cur[j + 1], percent);
    forall c: nat | start <= c < cur[j + 1] ensures c in l.bad || c in Free(l) {
      NotOwned(l, plan, idx, c);
    }
    assert RoomUpTo(l, start, cur[j + 1], Reserve(plan[j].clusters, percent));
  }

  /** Growth Defrag is idempotent: what the layout phase produces passes the preflight. */
  lemma LaidOutIsSatisfied(l: Layout, plan: seq<GrowthObject>, idx: seq<nat>, objects: seq<GrowthObject>, cur: seq<nat>,
                           percent: nat, limit: nat)
    requires LaidOut(l, plan, idx) && IsPlan(l.bad, objects, plan, cur, percent, limit)
    requires limit <= l.max + 1 && exists i :: RegularFile(l, i)
    ensures Satisfied(l, percent)
  {
    forall i | 0 <= i < |l.objs| ensures Contiguous(l.objs[i].chain) {
      if l.objs[i].chain != [] {
        var j :| 0 <= j < |idx| && idx[j] == i;
        assert InPlace(l, plan[j], idx[j]);
      }
    }
    forall i | RegularFile(l, i) ensures FileHasRoom(l, i, percent) {
      var j :| 0 <= j < |idx| && idx[j] == i;
      assert InPlace(l, plan[j], idx[j]);
      assert Describes(l, plan[j], idx[j]);
      RoomAfter(l, plan, idx, objects, cur, percent, limit, j);
    }
  }

  // ---- The canonical-layout check ------------------------------------------------

  /** growth_layout_matches_canonical: only first clusters are compared. */
  method MatchesCanonical(l: Layout, objects: seq<GrowthObject>, percent: nat)
    returns (r: bool, ghost fits: bool, ghost plan: seq<GrowthObject>, ghost cur: seq<nat>)
    requires forall j | 0 <= j < |objects| :: objects[j].clusters >= 1
    requires l.max >= 1
    ensures fits ==> IsPlan(l.bad, objects, plan, cur, percent, l.max + 1)
    ensures l.bad == {} ==> (fits <==> 2 + Need(objects, percent) <= l.max + 1)
    ensures r <==> fits && objects != [] && AtTargets(objects, plan)
    ensures r <==> Canonical(l.bad, objects, percent, l.max + 1)
  {
    hide IsPlan, InOrder, Need, Canonical, AtTargets;
    var limit := l.max + 1;
    var p;
    p, cur := PlanGrowthLayout(l.bad, objects, percent, limit);
    fits, plan := p.Plan?, [];
    if p.NoPlan? {
      NoPlanNotCanonical(l.bad, objects, percent, limit);
      return false, false, [], [];
    }
    plan := p.objects;
    PlanSize(l.bad, objects, plan, cur, percent, limit);
    PlanDecides(l.bad, objects, plan, cur, percent, limit);
    for j := 0 to |objects|
      invariant forall k | 0 <= k < j :: p.objects[k].target == objects[k].physicalFirst
    {
      if p.objects[j].target != objects[j].physicalFirst {
        assert !AtTargets(objects, plan) by { Misplaced(objects, plan, j); }
        return false, fits, plan, cur;
      }
    }
    assert AtTargets(objects, plan) by { AllPlaced(objects, plan); }
    r := objects != [];
  }

  /** Every object starts at its planned first cluster. */
  ghost predicate AtTargets(objects: seq<GrowthObject>, plan: seq<GrowthObject>) {
    |plan| == |objects| && forall j | 0 <= j < |objects| :: plan[j].target == objects[j].physicalFirst
  }

  /** The whole-volume plan exists and every object starts where it says. */
  ghost predicate Canonical(bad: set<nat>, objects: seq<GrowthObject>, percent: nat, limit: nat) {
    objects != [] && exists plan, cur :: IsPlan(bad, objects, plan, cur, percent, limit) && AtTargets(objects, plan)
  }

  lemma Misplaced(objects: seq<GrowthObject>, plan: seq<GrowthObject>, j: nat)
    requires |plan| == |objects| && j < |objects| && plan[j].target != objects[j].physicalFirst
    ensures !AtTargets(objects, plan)
  {
  }

  lemma AllPlaced(objects: seq<GrowthObject>, plan: seq<GrowthObject>)
    requires |plan| == |objects| && forall j | 0 <= j < |objects| :: plan[j].target == objects[j].physicalFirst
    ensures AtTargets(objects, plan)
  {
  }

  lemma NoPlanNotCanonical(bad: set<nat>, objects: seq<GrowthObject>, percent: nat, limit: nat)
    requires forall targets, ends :: !InOrder(bad, objects, targets, ends, percent, limit)
    ensures !Canonical(bad, objects, percent, limit)
  {
    hide IsPlan, InOrder;
    if plan, cur :| IsPlan(bad, objects, plan, cur, percent, limit) {
      PlanInOrder(bad, objects, plan, cur, percent, limit);
    }
  }

  /** The plan at hand is the only one, so it decides. */
  lemma PlanDecides(bad: set<nat>, objects: seq<GrowthObject>, plan: seq<GrowthObject>, cur: seq<nat>, percent: nat,
                    limit: nat)
    requires IsPlan(bad, objects, plan, cur, percent, limit)
    ensures Canonical(bad, objects, percent, limit) <==> objects != [] && AtTargets(objects, plan)
  {
    hide IsPlan;
    PlanSize(bad, objects, plan, cur, percent, limit);
    if plan': seq<GrowthObject>, cur': seq<nat> :|
      IsPlan(bad, objects, plan', cur', percent, limit) && AtTargets(objects, plan') {
      forall j: nat | j < |objects| ensures plan[j].target == plan'[j].target {
        PlanUnique(bad, objects, plan, cur, percent, limit, plan', cur', j);
      }
    }
  }

  lemma PlanSize(bad: set<nat>, objects: seq<GrowthObject>, plan: seq<GrowthObject>, cur: seq<nat>, percent: nat,
                 limit: nat)
    requires IsPlan(bad, objects, plan, cur, percent, limit)
    ensures |plan| == |objects|
  {
  }

  /** The check is consulted only when the preflight failed; whenever it then says
      yes, some object is fragmented, so the layout is not what the request asks for. */
  lemma CanonicalAcceptsOnlyFragmented(l: Layout, objects: seq<GrowthObject>, idx: seq<nat>, plan: seq<GrowthObject>,
                                       cur: seq<nat>, percent: nat)
    requires Matches(l, objects, idx) && InPhysicalOrder(l, objects, idx)
    requires IsPlan(l.bad, objects, plan, cur, percent, l.max + 1)
    requires AtTargets(objects, plan)
    requires (exists i :: RegularFile(l, i)) && !Satisfied(l, percent)
    ensures exists i | 0 <= i < |l.objs| :: !Contiguous(l.objs[i].chain)
  {
    if forall i | 0 <= i < |l.objs| :: Contiguous(l.objs[i].chain) {
      forall j | 0 <= j < |plan| ensures InPlace(l, plan[j], idx[j]) && Describes(l, plan[j], idx[j]) {
        assert Describes(l, objects[j], idx[j]);
        var chain := l.objs[idx[j]].chain;
        assert Contiguous(chain) && MinCluster(chain) == chain[0];
      }
      LaidOutIsSatisfied(l, plan, idx, objects, cur, percent, l.max + 1);
    }
  }

  /** A directory [2, 5] around a file [4] whose growth room is taken. */
  function Interleaved(): Layout {
    Layout(9, {}, [Obj(false, false, "A", [4]), Obj(false, true, "B", [2, 5])])
  }

  lemma InterleavedFacts()
    ensures WellFormed(Interleaved()) && !Satisfied(Interleaved(), 10)
    ensures RegularFile(Interleaved(), 0) && FirstProblem(Interleaved(), 10, ReserveShort)
  {
    var l := Interleaved();
    assert Owns(l, 1, 1);
    AllocAt(l, 1, 1);
    assert RegularFile(l, 0) && !FileHasRoom(l, 0, 10) by {
      forall e: nat ensures !RoomUpTo(l, 5, e, 1) {}
    }
    assert Blames(l, 0, 10, ReserveShort);
  }

  lemma {:induction false} InterleavedObjects(objects: seq<GrowthObject>, idx: seq<nat>)
    requires Matches(Interleaved(), objects, idx) && InPhysicalOrder(Interleaved(), objects, idx)
    ensures |objects| == 2 && Need(objects, 10) == 4
    ensures objects[0].clusters == 2 && objects[0].isDir && objects[0].physicalFirst == 2
    ensures objects[1].clusters == 1 && !objects[1].isDir && objects[1].physicalFirst == 4
  {
    var l := Interleaved();
    assert l.objs[0].chain == [4] && l.objs[1].chain == [2, 5];
    assert 0 in idx && 1 in idx;
    forall j | 0 <= j < |idx| ensures idx[j] == 0 || idx[j] == 1 { assert Describes(l, objects[j], idx[j]); }
    assert |idx| <= 2 by {
      DistinctCount(idx);
      SubsetCount(Elements(idx), {0, 1});
    }
    assert Describes(l, objects[0], idx[0]) && Describes(l, objects[1], idx[1]);
    assert MinCluster([2, 5]) == 2 && MinCluster([4]) == 4;
    var one := objects[..1];
    assert one == [objects[0]] && one[..0] == [];
    assert Need(one, 10) == Need([], 10) + 2;
    assert Reserve(1, 10) == 1;
  }

  lemma InterleavedPlan(objects: seq<GrowthObject>, plan: seq<GrowthObject>, cur: seq<nat>)
    requires |objects| == 2 && objects[0].clusters == 2 && objects[0].isDir && objects[1].clusters == 1
    requires !objects[1].isDir
    requires IsPlan({}, objects, plan, cur, 10, 10)
    ensures plan[0].target == 2 && plan[1].target == 4
  {
    assert Placed({}, plan[0], 2, cur[1], 10) && Placed({}, plan[1], cur[1], cur[2], 10);
    assert NoBad({}, 2, 2) && NoBad({}, cur[1], 1);
    NonBadMonotone({}, 4, 4, cur[1]);
  }

  /** The preflight reports the file, the canonical check still says the layout is fine. */
  method CanonicalCounterexample() returns (issue: Issue, canonical: bool)
    ensures !Satisfied(Interleaved(), 10) && issue == ReserveShort && canonical && Misreported(Interleaved(), 10)
  {
    hide Blames, Matches, InPhysicalOrder, IsPlan, Need, WellFormed, Satisfied, ObjectIssue, Canonical;
    InterleavedFacts();
    var l := Interleaved();
    issue := Preflight(l, 10);
    ProblemUnique(l, 10, issue, ReserveShort);
    var objects, largest, regularFiles; ghost var idx, fits, plan, cur;
    objects, largest, regularFiles, idx := BuildGrowthObjects(l);
    InterleavedObjects(objects, idx);
    canonical, fits, plan, cur := MatchesCanonical(l, objects, 10);
    InterleavedPlan(objects, plan, cur);
    PlanSize({}, objects, plan, cur, 10, l.max + 1);
    assert Listing(l, objects, idx);
  }

  // ---- When the canonical check is believed ---------------------------------------------

  /** Every object starts where the plan for the whole volume would put it. */
  ghost predicate CanonicalLayout(l: Layout, percent: nat) {
    exists objects, idx :: Listing(l, objects, idx) && Canonical(l.bad, objects, percent, l.max + 1)
  }

  /** The exact condition for the wrong report: growth room is the first thing missing, and all
      first clusters are canonical. */
  ghost predicate Misreported(l: Layout, percent: nat) {
    FirstProblem(l, percent, ReserveShort) && CanonicalLayout(l, percent)
  }

  lemma SamePlan(bad: set<nat>, objects: seq<GrowthObject>, objects': seq<GrowthObject>, plan: seq<GrowthObject>,
                 cur: seq<nat>, percent: nat, limit: nat)
    requires IsPlan(bad, objects, plan, cur, percent, limit) && |objects'| == |objects|
    requires forall j | 0 <= j < |objects| :: SameListed(objects[j], objects'[j])
    ensures IsPlan(bad, objects', plan, cur, percent, limit)
  {
    hide Placed;
  }

  lemma SameCanonical(l: Layout, objects: seq<GrowthObject>, idx: seq<nat>, percent: nat)
    requires WellFormed(l) && Listing(l, objects, idx)
    ensures CanonicalLayout(l, percent) <==> Canonical(l.bad, objects, percent, l.max + 1)
  {
    hide WellFormed, Listing, IsPlan;
    if objects', idx' :| Listing(l, objects', idx') && Canonical(l.bad, objects', percent, l.max + 1) {
      ListingUnique(l, objects', idx', objects, idx);
      var plan: seq<GrowthObject>, cur: seq<nat> :|
        IsPlan(l.bad, objects', plan, cur, percent, l.max + 1) && AtTargets(objects', plan);
      SamePlan(l.bad, objects', objects, plan, cur, percent, l.max + 1);
      forall j | 0 <= j < |objects| ensures plan[j].target == objects[j].physicalFirst {
        assert SameListed(objects'[j], objects[j]);
      }
      assert AtTargets(objects, plan);
    }
  }

  /** A misreported layout has a fragmented object. */
  lemma MisreportedIsFragmented(l: Layout, percent: nat)
    requires Misreported(l, percent)
    ensures !Satisfied(l, percent) && exists i | 0 <= i < |l.objs| :: !Contiguous(l.objs[i].chain)
  {
    hide FirstProblem, Satisfied, IsPlan, Contiguous, Matches, InPhysicalOrder;
    ProblemMeans(l, percent, ReserveShort);
    var objects, idx :| Listing(l, objects, idx) && Canonical(l.bad, objects, percent, l.max + 1);
    var plan: seq<GrowthObject>, cur: seq<nat> :|
      IsPlan(l.bad, objects, plan, cur, percent, l.max + 1) && AtTargets(objects, plan);
    CanonicalAcceptsOnlyFragmented(l, objects, idx, plan, cur, percent);
  }
}
