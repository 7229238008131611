/** Growth Defrag: the object list, the target plan and the read-only preflight. */
module GrowthPlan {
  import opened ClusterLayout
  import opened GrowthPrepare

  datatype GrowthObject = GrowthObject(isRoot: bool, isDir: bool, path: string, clusters: nat,
                                       physicalFirst: nat, target: nat, reserveAfter: nat)

  /** The growth room of a regular file: the least number that is `percent` of its clusters. */
  function Reserve(clusters: nat, percent: nat): (r: nat)
    ensures clusters * percent <= 100 * r && (r > 0 ==> 100 * (r - 1) < clusters * percent)
  {
    (clusters * percent + 99) / 100
  }

  // ---- Object list ----------------------------------------------------------

  predicate SameKey(o: Obj, g: GrowthObject) {
    o.isRoot == g.isRoot && (g.isRoot || (o.path == g.path && o.isDir == g.isDir))
  }

  /** The first record from `n` on with the path and kind of `g`; the number of records if there is none. */
  function FirstFrom(l: Layout, g: GrowthObject, n: nat): (i: nat)
    requires n <= |l.objs|
    ensures n <= i <= |l.objs| && (i < |l.objs| ==> SameKey(l.objs[i], g))
    ensures forall k | n <= k < i :: !SameKey(l.objs[k], g)
    decreases |l.objs| - n
  {
    if n == |l.objs| || SameKey(l.objs[n], g) then n else FirstFrom(l, g, n + 1)
  }

  /** What a lookup by path and kind returns. */
  function FirstMatch(l: Layout, g: GrowthObject): (i: nat)
    ensures i <= |l.objs| && (i < |l.objs| ==> SameKey(l.objs[i], g))
    ensures forall k | 0 <= k < i :: !SameKey(l.objs[k], g)
  {
    FirstFrom(l, g, 0)
  }

  function KeyOf(o: Obj): GrowthObject { GrowthObject(o.isRoot, o.isDir, o.path, 0, 0, 0, 0) }

  /** Every allocated object is what a lookup by its path and kind returns. */
  ghost predicate Findable(l: Layout) {
    forall i | 0 <= i < |l.objs| && l.objs[i].chain != [] :: FirstMatch(l, KeyOf(l.objs[i])) == i
  }

  /** Every allocated object has the size of what a lookup by its path and kind returns. */
  ghost predicate SizesAgree(l: Layout) {
    forall i: nat | i < |l.objs| && l.objs[i].chain != [] ::
      var n := FirstMatch(l, KeyOf(l.objs[i])); n < |l.objs| && |l.objs[n].chain| == |l.objs[i].chain|
  }

  ghost predicate UniqueKeys(l: Layout) {
    forall i, j | 0 <= i < j < |l.objs| ::
      l.objs[i].isRoot != l.objs[j].isRoot ||
      (!l.objs[i].isRoot && (l.objs[i].path != l.objs[j].path || l.objs[i].isDir != l.objs[j].isDir))
  }

  /** Unique paths and kinds are enough. */
  lemma UniqueIsFindable(l: Layout)
    requires UniqueKeys(l)
    ensures Findable(l)
  {
    forall i | 0 <= i < |l.objs| && l.objs[i].chain != [] ensures FirstMatch(l, KeyOf(l.objs[i])) == i {
      var n := FirstMatch(l, KeyOf(l.objs[i]));
      assert SameKey(l.objs[i], KeyOf(l.objs[i]));
    }
  }

  lemma {:induction false} FirstFromShape(l: Layout, l': Layout, g: GrowthObject, n: nat)
    requires SameShape(l, l') && n <= |l.objs|
    ensures FirstFrom(l', g, n) == FirstFrom(l, g, n)
    decreases |l.objs| - n
  {
    if n < |l.objs| && !SameKey(l.objs[n], g) { FirstFromShape(l, l', g, n + 1); }
  }

  lemma FirstMatchShape(l: Layout, l': Layout, g: GrowthObject)
    requires SameShape(l, l')
    ensures FirstMatch(l', g) == FirstMatch(l, g)
  {
    FirstFromShape(l, l', g, 0);
  }

  ghost predicate Describes(l: Layout, g: GrowthObject, i: nat) {
    && i < |l.objs| && g.isRoot == l.objs[i].isRoot && g.isDir == l.objs[i].isDir && g.path == l.objs[i].path
    && g.clusters == |l.objs[i].chain| && g.clusters >= 1
  }

  /** objects[j] describes l.objs[idx[j]]; every allocated object is described once. */
  ghost predicate Matches(l: Layout, objects: seq<GrowthObject>, idx: seq<nat>) {
    && |idx| == |objects|
    && (forall j | 0 <= j < |idx| :: Describes(l, objects[j], idx[j]))
    && (forall j, k | 0 <= j < k < |idx| :: idx[j] != idx[k])
    && (forall i | 0 <= i < |l.objs| && l.objs[i].chain != [] :: i in idx)
  }

  ghost predicate InPhysicalOrder(l: Layout, objects: seq<GrowthObject>, idx: seq<nat>) {
    && |idx| == |objects|
    && (forall j | 0 <= j < |idx| :: idx[j] < |l.objs| && l.objs[idx[j]].chain != []
                                  && objects[j].physicalFirst == MinCluster(l.objs[idx[j]].chain))
    && (forall j, k | 0 <= j < k < |objects| :: objects[j].physicalFirst <= objects[k].physicalFirst)
  }

  /** The list after the first n scanned objects. */
  ghost predicate ListedUpTo(l: Layout, objects: seq<GrowthObject>, idx: seq<nat>, n: nat) {
    ListedObjects(l, objects, idx) && ListedIndices(l, idx, n)
  }

  ghost predicate ListedObjects(l: Layout, objects: seq<GrowthObject>, idx: seq<nat>) {
    && |idx| == |objects|
    && (forall j | 0 <= j < |idx| :: Describes(l, objects[j], idx[j]))
    && InPhysicalOrder(l, objects, idx)
  }

  ghost predicate ListedIndices(l: Layout, idx: seq<nat>, n: nat) {
    && (forall j | 0 <= j < |idx| :: idx[j] < n)
    && (forall j, k | 0 <= j < k < |idx| :: idx[j] != idx[k])
    && (forall i | 0 <= i < n && i < |l.objs| && l.objs[i].chain != [] :: i in idx)
  }

  lemma IndexInsert(l: Layout, idx: seq<nat>, n: nat, p: nat)
    requires n < |l.objs| && ListedIndices(l, idx, n) && p <= |idx|
    ensures ListedIndices(l, idx[..p] + [n] + idx[p..], n + 1)
  {
    var idx' := idx[..p] + [n] + idx[p..];
    forall i | 0 <= i < n + 1 && l.objs[i].chain != [] ensures i in idx' {
      if i == n {
        assert idx'[p] == n;
      } else {
        var j :| 0 <= j < |idx| && idx[j] == i;
        assert idx'[if j < p then j else j + 1] == i;
      }
    }
  }

  lemma ObjectInsert(l: Layout, objects: seq<GrowthObject>, idx: seq<nat>, n: nat, p: nat, g: GrowthObject)
    requires n < |l.objs| && ListedObjects(l, objects, idx) && p <= |objects|
    requires Describes(l, g, n) && g.physicalFirst == MinCluster(l.objs[n].chain)
    requires forall j | 0 <= j < p :: objects[j].physicalFirst <= g.physicalFirst
    requires p < |objects| ==> g.physicalFirst <= objects[p].physicalFirst
    ensures ListedObjects(l, objects[..p] + [g] + objects[p..], idx[..p] + [n] + idx[p..])
  {
    hide MinCluster;
    var objects', idx' := objects[..p] + [g] + objects[p..], idx[..p] + [n] + idx[p..];
    forall j | 0 <= j < |idx'|
      ensures Describes(l, objects'[j], idx'[j]) && objects'[j].physicalFirst == MinCluster(l.objs[idx'[j]].chain)
    {
      if j < p {
        assert Describes(l, objects[j], idx[j]);
      } else if j > p {
        assert Describes(l, objects[j - 1], idx[j - 1]);
      }
    }
    hide Describes;
    InsertKeepsOrder(objects, p, g);
  }

  lemma InsertKeepsOrder(objects: seq<GrowthObject>, p: nat, g: GrowthObject)
    requires p <= |objects|
    requires forall j, k | 0 <= j < k < |objects| :: objects[j].physicalFirst <= objects[k].physicalFirst
    requires forall j | 0 <= j < p :: objects[j].physicalFirst <= g.physicalFirst
    requires p < |objects| ==> g.physicalFirst <= objects[p].physicalFirst
    ensures var more := objects[..p] + [g] + objects[p..];
            forall j, k | 0 <= j < k < |more| :: more[j].physicalFirst <= more[k].physicalFirst
  {
  }

  lemma ListEmpty(l: Layout)
    ensures ListedUpTo(l, [], [], 0)
  {
  }

  lemma ListSkip(l: Layout, idx: seq<nat>, n: nat)
    requires n < |l.objs| && l.objs[n].chain == [] && ListedIndices(l, idx, n)
    ensures ListedIndices(l, idx, n + 1)
  {
  }

  lemma ListComplete(l: Layout, objects: seq<GrowthObject>, idx: seq<nat>)
    requires ListedUpTo(l, objects, idx, |l.objs|)
    ensures Matches(l, objects, idx) && InPhysicalOrder(l, objects, idx)
  {
  }

  /** build_growth_objects: every allocated object, in physical order. */
  method BuildGrowthObjects(l: Layout)
    returns (objects: seq<GrowthObject>, largest: nat, regularFiles: nat, ghost idx: seq<nat>)
    ensures Matches(l, objects, idx) && InPhysicalOrder(l, objects, idx)
    ensures forall i | 0 <= i < |l.objs| :: |l.objs[i].chain| <= largest
    ensures largest == 0 || exists i | 0 <= i < |l.objs| :: |l.objs[i].chain| == largest
    ensures regularFiles == 0 <==> forall i | 0 <= i < |l.objs| && l.objs[i].chain != [] :: l.objs[i].isDir
  {
    hide ListedObjects, ListedIndices;
    objects, largest, regularFiles, idx := [], 0, 0, [];
    ListEmpty(l);
    for n := 0 to |l.objs|
      invariant ListedUpTo(l, objects, idx, n) && |idx| == |objects|
      invariant forall i | 0 <= i < n :: |l.objs[i].chain| <= largest
      invariant largest == 0 || exists i | 0 <= i < n :: |l.objs[i].chain| == largest
      invariant regularFiles == 0 <==> forall i | 0 <= i < n && l.objs[i].chain != [] :: l.objs[i].isDir
    {
      var o := l.objs[n];
      if o.chain != [] {
        var g := GrowthObject(o.isRoot, o.isDir, o.path, |o.chain|, MinCluster(o.chain), 0, 0);
        var p := 0;
        while p < |objects| && objects[p].physicalFirst < g.physicalFirst
          invariant p <= |objects|
          invariant forall j | 0 <= j < p :: objects[j].physicalFirst <= g.physicalFirst
        {
          p := p + 1;
        }
        IndexInsert(l, idx, n, p);
        ObjectInsert(l, objects, idx, n, p, g);
        objects, idx := objects[..p] + [g] + objects[p..], idx[..p] + [n] + idx[p..];
        if |o.chain| > largest { largest := |o.chain|; }
        if !o.isDir { regularFiles := regularFiles + 1; }
      } else {
        ListSkip(l, idx, n);
      }
    }
    ListComplete(l, objects, idx);
  }

  // ---- Target plan ------------------------------------------------------------

  ghost predicate NoBad(bad: set<nat>, start: nat, length: nat) {
    forall c | start <= c < start + length :: c !in bad
  }

  /** Number of usable (not bad) clusters in [lo, hi). */
  ghost function NonBad(bad: set<nat>, lo: nat, hi: nat): nat {
    if hi <= lo then 0 else NonBad(bad, lo, hi - 1) + (if hi - 1 in bad then 0 else 1)
  }

  lemma {:induction false} NonBadIsCount(bad: set<nat>, lo: nat, hi: nat)
    ensures NonBad(bad, lo, hi) == |Range(lo, hi) - bad|
    decreases hi
  {
    hide Range;
    if hi <= lo {
      NoRange(lo, hi);
    } else {
      NonBadIsCount(bad, lo, hi - 1);
      RangeStep(lo, hi - 1);
      OneMore(Range(lo, hi - 1), bad, hi - 1);
    }
  }

  lemma NoRange(lo: nat, hi: nat)
    requires hi <= lo
    ensures Range(lo, hi) == {}
  {
    forall c: nat ensures c !in Range(lo, hi) { assert !Between(lo, c, hi); }
  }

  lemma OneMore(s: set<nat>, bad: set<nat>, c: nat)
    requires c !in s
    ensures |(s + {c}) - bad| == |s - bad| + (if c in bad then 0 else 1)
  {
    assert (s + {c}) - bad == if c in bad then s - bad else (s - bad) + {c};
  }

  lemma {:induction false} NonBadMonotone(bad: set<nat>, lo: nat, mid: nat, hi: nat)
    requires lo <= mid <= hi
    ensures NonBad(bad, lo, mid) <= NonBad(bad, lo, hi) <= NonBad(bad, lo, mid) + (hi - mid)
    ensures bad == {} ==> NonBad(bad, lo, hi) == NonBad(bad, lo, mid) + (hi - mid)
    decreases hi
  {
    if mid < hi {
      NonBadMonotone(bad, lo, mid, hi - 1);
    }
  }

  datatype Position = Nowhere | At(cluster: nat)

  /** growth_find_usable_run: the lowest run of `length` usable clusters in [cursor, limit). */
  method FindUsableRun(bad: set<nat>, cursor: nat, length: nat, limit: nat) returns (r: Position)
    requires length >= 1 && cursor >= 2
    ensures r.At? ==> cursor <= r.cluster && r.cluster + length <= limit && NoBad(bad, r.cluster, length)
    ensures r.At? ==> forall s | cursor <= s < r.cluster :: !NoBad(bad, s, length)
    ensures r.Nowhere? ==> forall s | cursor <= s && s + length <= limit :: !NoBad(bad, s, length)
  {
    var start := cursor;
    while start < limit
      invariant cursor <= start
      invariant forall s | cursor <= s < start :: !NoBad(bad, s, length)
    {
      if start + length > limit { return Nowhere; }
      var clear, i := true, 0;
      while i < length
        invariant 0 <= i <= length && forall c | start <= c < start + i :: c !in bad
      {
        if start + i in bad { clear := false; break; }
        i := i + 1;
      }
      if clear { return At(start); }
      forall s | start <= s < start + i + 1 ensures !NoBad(bad, s, length) {
        assert start + i in bad;
      }
      start := start + i + 1;
    }
    r := Nowhere;
  }

  /** growth_advance_reserve: step over `reserve` usable clusters and no further. */
  method AdvanceReserve(bad: set<nat>, cursor: nat, reserve: nat, limit: nat) returns (r: Position)
    requires cursor <= limit
    ensures r.At? ==>
      && cursor <= r.cluster <= limit && NonBad(bad, cursor, r.cluster) == reserve
      && (cursor < r.cluster ==> r.cluster - 1 !in bad)
    ensures r.Nowhere? ==> NonBad(bad, cursor, limit) < reserve
  {
    var remaining, c := reserve, cursor;
    while remaining != 0
      invariant cursor <= c <= limit && 0 <= remaining <= reserve
      invariant NonBad(bad, cursor, c) == reserve - remaining && (remaining == 0 && cursor < c ==> c - 1 !in bad)
      decreases limit - c
    {
      if c >= limit { return Nowhere; }
      if c !in bad { remaining := remaining - 1; }
      c := c + 1;
    }
    r := At(c);
  }

  function ReserveOf(g: GrowthObject, percent: nat): nat {
    if g.isDir then 0 else Reserve(g.clusters, percent)
  }

  /** Clusters needed by all objects and their growth room. */
  function Need(objects: seq<GrowthObject>, percent: nat): nat {
    if objects == [] then 0
    else
      var last := objects[|objects| - 1];
      Need(objects[..|objects| - 1], percent) + last.clusters + ReserveOf(last, percent)
  }

  datatype PlanResult = NoPlan | Plan(objects: seq<GrowthObject>, layoutEnd: nat)

  /** Object j takes the lowest usable run from cur[j] on; cur[j+1] is past its growth room. */
  ghost predicate Placed(bad: set<nat>, g: GrowthObject, from: nat, next: nat, percent: nat) {
    && from <= g.target && NoBad(bad, g.target, g.clusters) && g.target + g.clusters <= next
    && (forall s | from <= s < g.target :: !NoBad(bad, s, g.clusters))
    && g.reserveAfter == ReserveOf(g, percent)
    && NonBad(bad, g.target + g.clusters, next) == g.reserveAfter && (g.target + g.clusters < next ==> next - 1 !in bad)
  }

  // ---- Any layout in the given order --------------------------------------------------------

  /** Object `g` at `target`, with its growth room before `next`. */
  ghost predicate Fits(bad: set<nat>, g: GrowthObject, target: nat, from: nat, next: nat, percent: nat) {
    && from <= target && NoBad(bad, target, g.clusters) && target + g.clusters <= next
    && NonBad(bad, target + g.clusters, next) >= ReserveOf(g, percent)
  }

  /** Some choice of targets, in order from cluster 2, that leaves every file its growth room below the limit. */
  ghost predicate InOrder(bad: set<nat>, objects: seq<GrowthObject>, targets: seq<nat>, ends: seq<nat>, percent: nat,
                          limit: nat) {
    && |targets| == |objects| && |ends| == |objects| + 1 && ends[0] == 2
    && (forall j | 0 <= j < |objects| :: Fits(bad, objects[j], targets[j], ends[j], ends[j + 1], percent))
    && (forall j | 0 <= j <= |objects| :: ends[j] <= limit)
  }

  lemma NonBadLater(bad: set<nat>, a: nat, b: nat, hi: nat)
    requires a <= b
    ensures NonBad(bad, b, hi) <= NonBad(bad, a, hi)
    decreases hi
  {
    if b < hi { NonBadLater(bad, a, b, hi - 1); }
  }

  /** The greedy placement is never behind any other. */
  lemma PlacedAhead(bad: set<nat>, g: GrowthObject, from: nat, next: nat, percent: nat, o: GrowthObject, target: nat,
                    from': nat, next': nat)
    requires Placed(bad, g, from, next, percent) && Fits(bad, o, target, from', next', percent) && from <= from'
    requires g.clusters == o.clusters && g.isDir == o.isDir
    ensures g.target <= target && next <= next'
  {
    hide Reserve;
    assert NoBad(bad, target, g.clusters);
    var after := g.target + g.clusters;
    NonBadLater(bad, after, target + g.clusters, next');
    if next > next' { NonBadMonotone(bad, after, next', next - 1); }
  }

  lemma {:induction false} GreedyAhead(bad: set<nat>, objects: seq<GrowthObject>, plan: seq<GrowthObject>,
                                       cur: seq<nat>, percent: nat, limit: nat, targets: seq<nat>, ends: seq<nat>,
                                       n: nat)
    requires PlannedUpTo(bad, objects, plan, cur, percent, limit)
    requires InOrder(bad, objects, targets, ends, percent, limit) && n <= |plan|
    ensures cur[n] <= ends[n]
    decreases n
  {
    hide Placed, Fits;
    if n > 0 {
      GreedyAhead(bad, objects, plan, cur, percent, limit, targets, ends, n - 1);
      assert Placed(bad, plan[n - 1], cur[n - 1], cur[n], percent);
      assert Fits(bad, objects[n - 1], targets[n - 1], ends[n - 1], ends[n], percent);
      PlacedAhead(bad, plan[n - 1], cur[n - 1], cur[n], percent, objects[n - 1], targets[n - 1], ends[n - 1], ends[n]);
    }
  }

  /** Where any other layout puts the object the greedy plan is about to place. */
  lemma NextObject(bad: set<nat>, objects: seq<GrowthObject>, plan: seq<GrowthObject>, cur: seq<nat>, percent: nat,
                   limit: nat, targets: seq<nat>, ends: seq<nat>)
    requires PlannedUpTo(bad, objects, plan, cur, percent, limit) && |plan| < |objects|
    requires InOrder(bad, objects, targets, ends, percent, limit)
    ensures cur[|plan|] <= targets[|plan|] && ends[|plan| + 1] <= limit
    ensures Fits(bad, objects[|plan|], targets[|plan|], ends[|plan|], ends[|plan| + 1], percent)
  {
    GreedyAhead(bad, objects, plan, cur, percent, limit, targets, ends, |plan|);
    assert Fits(bad, objects[|plan|], targets[|plan|], ends[|plan|], ends[|plan| + 1], percent);
  }

  /** No usable run for the next object: nothing fits in this order. */
  lemma NoRunNoLayout(bad: set<nat>, objects: seq<GrowthObject>, plan: seq<GrowthObject>, cur: seq<nat>, percent: nat,
                      limit: nat, targets: seq<nat>, ends: seq<nat>)
    requires PlannedUpTo(bad, objects, plan, cur, percent, limit) && |plan| < |objects|
    requires forall s | cur[|plan|] <= s && s + objects[|plan|].clusters <= limit ::
      !NoBad(bad, s, objects[|plan|].clusters)
    ensures !InOrder(bad, objects, targets, ends, percent, limit)
  {
    if InOrder(bad, objects, targets, ends, percent, limit) {
      NextObject(bad, objects, plan, cur, percent, limit, targets, ends);
    }
  }

  /** No growth room for the next object at its lowest run: nothing fits in this order. */
  lemma NoRoomNoLayout(bad: set<nat>, objects: seq<GrowthObject>, plan: seq<GrowthObject>, cur: seq<nat>, percent: nat,
                       limit: nat, target: nat, targets: seq<nat>, ends: seq<nat>)
    requires PlannedUpTo(bad, objects, plan, cur, percent, limit) && |plan| < |objects|
    requires forall s | cur[|plan|] <= s < target :: !NoBad(bad, s, objects[|plan|].clusters)
    requires NonBad(bad, target + objects[|plan|].clusters, limit) < ReserveOf(objects[|plan|], percent)
    ensures !InOrder(bad, objects, targets, ends, percent, limit)
  {
    hide Reserve;
    var n := |plan|;
    if InOrder(bad, objects, targets, ends, percent, limit) {
      NextObject(bad, objects, plan, cur, percent, limit, targets, ends);
      RoomShrinks(bad, target + objects[n].clusters, targets[n] + objects[n].clusters, ends[n + 1], limit);
    }
  }

  lemma RoomShrinks(bad: set<nat>, a: nat, b: nat, hi: nat, limit: nat)
    requires a <= b <= hi <= limit
    ensures NonBad(bad, b, hi) <= NonBad(bad, a, limit)
  {
    NonBadLater(bad, a, b, hi);
    NonBadMonotone(bad, a, hi, limit);
  }

  function TargetsOf(plan: seq<GrowthObject>): (t: seq<nat>)
    ensures |t| == |plan| && forall j | 0 <= j < |plan| :: t[j] == plan[j].target
  {
    seq(|plan|, j requires 0 <= j < |plan| => plan[j].target)
  }

  /** The plan itself is such a layout. */
  lemma PlanInOrder(bad: set<nat>, objects: seq<GrowthObject>, plan: seq<GrowthObject>, cur: seq<nat>, percent: nat,
                    limit: nat)
    requires IsPlan(bad, objects, plan, cur, percent, limit)
    ensures InOrder(bad, objects, TargetsOf(plan), cur, percent, limit)
  {
    hide Reserve, TargetsOf;
    forall j | 0 <= j < |objects| ensures Fits(bad, objects[j], TargetsOf(plan)[j], cur[j], cur[j + 1], percent) {
      assert Placed(bad, plan[j], cur[j], cur[j + 1], percent);
    }
    CursorsRise(bad, objects, plan, cur, percent, limit, |plan|);
  }

  /** There is only one greedy plan. */
  lemma PlanUnique(bad: set<nat>, objects: seq<GrowthObject>, plan: seq<GrowthObject>, cur: seq<nat>, percent: nat,
                   limit: nat, plan': seq<GrowthObject>, cur': seq<nat>, j: nat)
    requires IsPlan(bad, objects, plan, cur, percent, limit) && IsPlan(bad, objects, plan', cur', percent, limit)
    requires j < |objects|
    ensures plan[j].target == plan'[j].target
  {
    NeverBehind(bad, objects, plan, cur, percent, limit, plan', cur', j);
    NeverBehind(bad, objects, plan', cur', percent, limit, plan, cur, j);
  }

  lemma NeverBehind(bad: set<nat>, objects: seq<GrowthObject>, plan: seq<GrowthObject>, cur: seq<nat>, percent: nat,
                    limit: nat, plan': seq<GrowthObject>, cur': seq<nat>, j: nat)
    requires IsPlan(bad, objects, plan, cur, percent, limit) && IsPlan(bad, objects, plan', cur', percent, limit)
    requires j < |objects|
    ensures plan[j].target <= plan'[j].target
  {
    hide Reserve, TargetsOf, Placed, Fits;
    PlanInOrder(bad, objects, plan', cur', percent, limit);
    GreedyAhead(bad, objects, plan, cur, percent, limit, TargetsOf(plan'), cur', j);
    assert Placed(bad, plan[j], cur[j], cur[j + 1], percent);
    assert Fits(bad, objects[j], TargetsOf(plan')[j], cur'[j], cur'[j + 1], percent);
    PlacedAhead(bad, plan[j], cur[j], cur[j + 1], percent, objects[j], plan'[j].target, cur'[j], cur'[j + 1]);
  }

  lemma {:induction false} CursorsRise(bad: set<nat>, objects: seq<GrowthObject>, plan: seq<GrowthObject>,
                                       cur: seq<nat>, percent: nat, limit: nat, n: nat)
    requires PlannedUpTo(bad, objects, plan, cur, percent, limit) && n <= |plan| && cur[n] <= limit
    ensures forall j | 0 <= j <= n :: cur[j] <= limit
    decreases n
  {
    if n > 0 {
      assert Placed(bad, plan[n - 1], cur[n - 1], cur[n], percent);
      CursorsRise(bad, objects, plan, cur, percent, limit, n - 1);
    }
  }

  ghost predicate PlannedUpTo(bad: set<nat>, objects: seq<GrowthObject>, plan: seq<GrowthObject>, cur: seq<nat>,
                              percent: nat, limit: nat) {
    && |cur| == |plan| + 1 && |plan| <= |objects| && cur[0] == 2
    && cur[|plan|] <= limit
    && (forall j | 0 <= j < |plan| :: Placed(bad, plan[j], cur[j], cur[j + 1], percent))
    && (forall j | 0 <= j < |plan| ::
         plan[j].(target := objects[j].target, reserveAfter := objects[j].reserveAfter) == objects[j])
  }

  ghost predicate IsPlan(bad: set<nat>, objects: seq<GrowthObject>, plan: seq<GrowthObject>, cur: seq<nat>,
                         percent: nat, limit: nat) {
    |plan| == |objects| && PlannedUpTo(bad, objects, plan, cur, percent, limit)
  }

  lemma PlanStep(bad: set<nat>, objects: seq<GrowthObject>, plan: seq<GrowthObject>, cur: seq<nat>, percent: nat,
                 limit: nat, g: GrowthObject, next: nat)
    requires PlannedUpTo(bad, objects, plan, cur, percent, limit) && |plan| < |objects|
    requires Placed(bad, g, cur[|plan|], next, percent) && next <= limit
    requires g.(target := objects[|plan|].target, reserveAfter := objects[|plan|].reserveAfter) == objects[|plan|]
    ensures PlannedUpTo(bad, objects, plan + [g], cur + [next], percent, limit)
  {
  }

  /** plan_growth_layout.  The plan exists exactly when some layout in physical order fits below
      the limit; without bad clusters, exactly when the sizes and growth rooms add up to no more. */
  method PlanGrowthLayout(bad: set<nat>, objects: seq<GrowthObject>, percent: nat, limit: nat)
    returns (r: PlanResult, ghost cur: seq<nat>)
    requires forall j | 0 <= j < |objects| :: objects[j].clusters >= 1
    requires limit >= 2
    ensures r.Plan? ==> IsPlan(bad, objects, r.objects, cur, percent, limit)
    ensures r.Plan? <==> exists targets, ends :: InOrder(bad, objects, targets, ends, percent, limit)
    ensures bad == {} ==> (r.Plan? <==> 2 + Need(objects, percent) <= limit)
  {
    hide Placed, Reserve, InOrder;
    var plan, cursor := [], 2;
    cur := [2];
    for i := 0 to |objects|
      invariant |plan| == i && PlannedUpTo(bad, objects, plan, cur, percent, limit)
      invariant |cur| == i + 1 && cur[i] == cursor && 2 <= cursor <= limit
      invariant bad == {} ==> cursor == 2 + Need(objects[..i], percent)
    {
      var g := objects[i];
      assert objects[..i + 1][..i] == objects[..i];
      NeedGrows(objects, i + 1, percent);
      assert bad == {} ==> NoBad(bad, cursor, g.clusters);
      var run := FindUsableRun(bad, cursor, g.clusters, limit);
      if run.Nowhere? {
        forall targets, ends ensures !InOrder(bad, objects, targets, ends, percent, limit) {
          NoRunNoLayout(bad, objects, plan, cur, percent, limit, targets, ends);
        }
        return NoPlan, [];
      }
      g := g.(target := run.cluster);
      var after := g.target + g.clusters;
      var reserve := ReserveOf(g, percent);
      g := g.(reserveAfter := reserve);
      var next := AdvanceReserve(bad, after, reserve, limit);
      if next.Nowhere? {
        NonBadMonotone(bad, after, after, limit);
        forall targets, ends ensures !InOrder(bad, objects, targets, ends, percent, limit) {
          NoRoomNoLayout(bad, objects, plan, cur, percent, limit, run.cluster, targets, ends);
        }
        return NoPlan, [];
      }
      NonBadMonotone(bad, after, after, next.cluster);
      assert Placed(bad, g, cursor, next.cluster, percent) by { PlacedIntro(bad, g, cursor, next.cluster, percent); }
      PlanStep(bad, objects, plan, cur, percent, limit, g, next.cluster);
      plan, cur, cursor := plan + [g], cur + [next.cluster], next.cluster;
    }
    assert objects[..|objects|] == objects;
    PlanInOrder(bad, objects, plan, cur, percent, limit);
    r := Plan(plan, cursor - 1);
  }

  lemma PlacedIntro(bad: set<nat>, g: GrowthObject, from: nat, next: nat, percent: nat)
    requires from <= g.target && NoBad(bad, g.target, g.clusters) && g.target + g.clusters <= next
    requires forall s | from <= s < g.target :: !NoBad(bad, s, g.clusters)
    requires g.reserveAfter == ReserveOf(g, percent) && NonBad(bad, g.target + g.clusters, next) == g.reserveAfter
    requires g.target + g.clusters < next ==> next - 1 !in bad
    ensures Placed(bad, g, from, next, percent)
  {
  }

  lemma {:induction false} NeedGrows(objects: seq<GrowthObject>, n: nat, percent: nat)
    requires n <= |objects|
    ensures Need(objects[..n], percent) <= Need(objects, percent)
    decreases |objects| - n
  {
    if n < |objects| {
      NeedGrows(objects, n + 1, percent);
      assert objects[..n + 1][..n] == objects[..n];
    } else {
      assert objects[..n] == objects;
    }
  }

  // ---- One physical order ------------------------------------------------------------

  ghost predicate Listing(l: Layout, objects: seq<GrowthObject>, idx: seq<nat>) {
    Matches(l, objects, idx) && InPhysicalOrder(l, objects, idx)
  }

  lemma ListedAt(l: Layout, objects: seq<GrowthObject>, idx: seq<nat>, i: nat, n: nat) returns (k: nat)
    requires Listing(l, objects, idx) && i < |l.objs| && l.objs[i].chain != [] && n <= |idx| && i !in idx[..n]
    ensures n <= k < |idx| && idx[k] == i
  {
    assert i in idx;
    k :| 0 <= k < |idx| && idx[k] == i;
    assert forall m | 0 <= m < n :: idx[m] in idx[..n];
  }

  lemma RisingFirsts(l: Layout, objects: seq<GrowthObject>, idx: seq<nat>, j: nat, k: nat)
    requires Listing(l, objects, idx) && j <= k < |idx|
    ensures idx[j] < |l.objs| && idx[k] < |l.objs| && l.objs[idx[j]].chain != [] && l.objs[idx[k]].chain != []
    ensures MinCluster(l.objs[idx[j]].chain) <= MinCluster(l.objs[idx[k]].chain)
  {
    hide MinCluster;
    assert j < k ==> objects[j].physicalFirst <= objects[k].physicalFirst;
  }

  lemma SameFirstSameObject(l: Layout, i: nat, j: nat)
    requires WellFormed(l) && i < |l.objs| && j < |l.objs| && l.objs[i].chain != [] && l.objs[j].chain != []
    requires MinCluster(l.objs[i].chain) == MinCluster(l.objs[j].chain)
    ensures i == j
  {
    var m := MinCluster(l.objs[i].chain);
    var a :| 0 <= a < |l.objs[i].chain| && l.objs[i].chain[a] == m;
    var b :| 0 <= b < |l.objs[j].chain| && l.objs[j].chain[b] == m;
    assert Owns(l, i, a) && Owns(l, j, b);
  }

  lemma NotBefore(l: Layout, objects: seq<GrowthObject>, idx: seq<nat>, n: nat)
    requires Listing(l, objects, idx) && n < |idx|
    ensures idx[n] !in idx[..n]
  {
  }

  lemma {:induction false} SamePrefix(l: Layout, objects: seq<GrowthObject>, idx: seq<nat>, objects': seq<GrowthObject>,
                                      idx': seq<nat>, n: nat)
    requires WellFormed(l) && Listing(l, objects, idx) && Listing(l, objects', idx') && n <= |idx|
    ensures n <= |idx'| && idx[..n] == idx'[..n]
  {
    hide WellFormed, Listing, MinCluster;
    if n > 0 {
      var m: nat := n - 1;
      SamePrefix(l, objects, idx, objects', idx', m);
      RisingFirsts(l, objects, idx, m, m);
      NotBefore(l, objects, idx, m);
      var k := ListedAt(l, objects', idx', idx[m], m);
      RisingFirsts(l, objects', idx', m, k);
      NotBefore(l, objects', idx', m);
      var q := ListedAt(l, objects, idx, idx'[m], m);
      RisingFirsts(l, objects, idx, m, q);
      SameFirstSameObject(l, idx[m], idx'[m]);
      assert idx[..n] == idx[..m] + [idx[m]] && idx'[..n] == idx'[..m] + [idx'[m]];
    }
  }

  /** The physical order of the objects is determined by the layout. */
  lemma ListingUnique(l: Layout, objects: seq<GrowthObject>, idx: seq<nat>, objects': seq<GrowthObject>, idx': seq<nat>)
    requires WellFormed(l) && Listing(l, objects, idx) && Listing(l, objects', idx')
    ensures |objects'| == |objects| && forall j | 0 <= j < |objects| :: SameListed(objects[j], objects'[j])
  {
    hide WellFormed, MinCluster;
    SamePrefix(l, objects, idx, objects', idx', |idx|);
    SamePrefix(l, objects', idx', objects, idx, |idx'|);
    assert idx[..|idx|] == idx && idx'[..|idx'|] == idx';
    assert idx == idx';
    forall j | 0 <= j < |objects| ensures SameListed(objects[j], objects'[j]) {
      assert Describes(l, objects[j], idx[j]) && Describes(l, objects'[j], idx'[j]);
    }
  }

  predicate SameListed(g: GrowthObject, h: GrowthObject) {
    h.(target := g.target, reserveAfter := g.reserveAfter) == g
  }
}
