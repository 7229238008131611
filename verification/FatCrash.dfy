/**
 The writes of complete_compact_journal, and what survives when only some of them
 reach the device.  Recovery repeats the whole completion from the journal.
 */
module FatCrash {
  import opened Basics
  import opened ClusterLayout
  import opened FatVolume
  import opened FatJournal
  import opened FatRelocation
  import opened FatMeaning

  // ---- Device writes --------------------------------------------------------------------

  datatype Write =
    | WriteBlock(cluster: nat, block: Block)
    | WriteEntry(copy: nat, cluster: nat, value: nat)
    | WriteFirst(at: Offset, target: nat)
    | WriteRoot(boot: nat, root: nat)

  function PutFirst(block: Block, slot: nat, target: nat): Block {
    if slot < |block| then block[slot := block[slot].(first := target)] else block
  }

  function Put(v: Vol, w: Write): (r: Vol)
  {
    match w
    case WriteBlock(c, block) => if c < |v.data| then v.(data := v.data[c := block]) else v
    case WriteEntry(k, c, x) =>
      if k < |v.fats| && c < |v.fats[k]| then
        var fat: seq<nat> := v.fats[k];
        v.(fats := v.fats[k := fat[c := x]])
      else v
    case WriteFirst(at, x) =>
      (match at.container
       case RootArea => v.(rootArea := PutFirst(v.rootArea, at.slot, x))
       case InCluster(c) => if c < |v.data| then v.(data := v.data[c := PutFirst(v.data[c], at.slot, x)]) else v)
    case WriteRoot(b, root) => if b < |v.boots| then v.(boots := v.boots[b := root]) else v
  }

  // ---- What the journal may touch ------------------------------------------------------------

  /** Table entries the completion rewrites: freed sources and relinked clusters. */
  ghost predicate Rewritten(j: Journal, max: nat, c: nat) {
    c in MapOf(j) || c in UpdateMap(LinkUpdates(max, j))
  }

  ghost predicate IsDestination(j: Journal, c: nat) {
    c in Destinations(Plain(j.moves))
  }

  /** A write the completion of `j` may issue, whatever value it carries. */
  ghost predicate Covered(v0: Vol, j: Journal, w: Write) {
    match w
    case WriteBlock(c, block) => IsDestination(j, c) && |block| == v0.cells
    case WriteEntry(k, c, x) => Written(v0, k) && Rewritten(j, v0.max, c)
    case WriteFirst(at, x) => at in PatchMap(j.patches)
    case WriteRoot(b, root) => j.rootNew != j.rootOld
  }

  ghost predicate SameBlock(pm: map<Offset, nat>, container: Container, a: Block, b: Block) {
    && |b| == |a|
    && forall s | 0 <= s < |a| :: b[s].info == a[s].info && (Offset(container, s) !in pm ==> b[s].first == a[s].first)
  }

  ghost predicate Alike(v0: Vol, v: Vol) {
    && Loaded(v0) && Loaded(v) && SameGeometry(v0, v) && v.active == v0.active && v.mirroring == v0.mirroring
    && v.cells == v0.cells
    && |v.fats| == |v0.fats| && |v.boots| == |v0.boots|
  }

  ghost predicate SameEntry(v0: Vol, j: Journal, v: Vol, k: nat, c: nat)
    requires Alike(v0, v) && k < |v0.fats| && c <= v0.max
  {
    (Written(v0, k) && Rewritten(j, v0.max, c)) || v.fats[k][c] == v0.fats[k][c]
  }

  /** `v` agrees with `v0` everywhere the completion of `j` does not overwrite. */
  ghost predicate Intact(v0: Vol, j: Journal, v: Vol) {
    && Alike(v0, v)
    && (forall k: nat, c: nat | k < |v0.fats| && c <= v0.max :: SameEntry(v0, j, v, k, c))
    && (forall c | 0 <= c <= v0.max && !IsDestination(j, c) ::
         SameBlock(PatchMap(j.patches), InCluster(c), v0.data[c], v.data[c]))
    && SameBlock(PatchMap(j.patches), RootArea, v0.rootArea, v.rootArea)
    && (j.rootNew == j.rootOld ==> v.boots == v0.boots)
  }

  /** Entries are patched in copies, never in the clusters being copied. */
  ghost predicate SourcesUnpatched(j: Journal) {
    forall at | at in PatchMap(j.patches) && at.container.InCluster? :: at.container.cluster !in MapOf(j)
  }

  lemma IntactItself(v: Vol, j: Journal)
    requires Loaded(v)
    ensures Intact(v, j, v)
  {
  }

  /** Any covered write, complete or torn, keeps the rest of the volume intact. */
  lemma CoveredKeepsIntact(v0: Vol, j: Journal, v: Vol, w: Write)
    requires Intact(v0, j, v) && Covered(v0, j, w)
    ensures Intact(v0, j, Put(v, w))
  {
    hide PatchMap, Rewritten, IsDestination, MapOf;
    var v' := Put(v, w);
    assert Alike(v0, v');
    forall k: nat, c: nat | k < |v0.fats| && c <= v0.max ensures SameEntry(v0, j, v', k, c) {
      assert SameEntry(v0, j, v, k, c);
    }
    forall c | 0 <= c <= v0.max && !IsDestination(j, c)
      ensures SameBlock(PatchMap(j.patches), InCluster(c), v0.data[c], v'.data[c])
    {
      assert SameBlock(PatchMap(j.patches), InCluster(c), v0.data[c], v.data[c]);
    }
  }

  // ---- Redo ------------------------------------------------------------------------------------

  lemma RedoBlock(v0: Vol, j: Journal, v: Vol, c: nat)
    requires Intact(v0, j, v) && JournalFits(v0, j) && SourcesUnpatched(j) && c <= v0.max && CopiedFrom(j, c) <= v0.max
    ensures PatchBlock(PatchMap(j.patches), InCluster(c), v.data[CopiedFrom(j, c)]) ==
            PatchBlock(PatchMap(j.patches), InCluster(c), v0.data[CopiedFrom(j, c)])
  {
    var from := CopiedFrom(j, c);
    CopySource(v0.max, j, c);
    hide PatchMap, JournalFits, MapOf, CopiedFrom;
    assert SameBlock(PatchMap(j.patches), InCluster(from), v0.data[from], v.data[from]);
    if from in MapOf(j) {
      forall s | 0 <= s < |v0.data[from]| ensures v.data[from][s] == v0.data[from][s] {}
      assert v.data[from] == v0.data[from];
    }
  }

  /** A block comes from a moved source, or from its own cluster when that is no destination. */
  lemma CopySource(max: nat, j: Journal, c: nat)
    requires ValidMoves(max, Plain(j.moves))
    ensures var from := CopiedFrom(j, c); !IsDestination(j, from) && (from in MapOf(j) || from == c)
  {
    hide RelocationMap;
    var moves := Plain(j.moves);
    var back := Swapped(moves);
    assert DistinctMoves(back);
    if c in RelocationMap(back) {
      var n := MoveAt(back, c);
      ImageAt(back, n);
      ImageAt(moves, n);
      assert moves[n].source in Sources(moves);
    } else {
      forall n | 0 <= n < |moves| ensures moves[n].destination in RelocationMap(back) {
        assert back[n].source == moves[n].destination;
        ImageAt(back, n);
      }
    }
  }

  /** Completing from any intact state gives the volume an uninterrupted run gives. */
  lemma RedoIsIdempotent(v0: Vol, j: Journal, v: Vol)
    requires Intact(v0, j, v) && JournalFits(v0, j) && SourcesUnpatched(j)
    ensures JournalFits(v, j) && Complete(v, j) == Complete(v0, j)
  {
    CopiedInRange(v0.max, j);
    RedoFats(v0, j, v);
    hide PatchMap, JournalFits, MapOf, CopiedFrom, NewFat;
    forall c | 0 <= c <= v0.max
      ensures PatchBlock(PatchMap(j.patches), InCluster(c), v.data[CopiedFrom(j, c)]) ==
              PatchBlock(PatchMap(j.patches), InCluster(c), v0.data[CopiedFrom(j, c)])
    {
      RedoBlock(v0, j, v, c);
    }
    var a, b := Complete(v, j), Complete(v0, j);
    assert a.data == b.data;
    assert a.rootArea == b.rootArea;
    assert a.boots == b.boots;
    assert a.fats == b.fats;
  }

  lemma RedoFats(v0: Vol, j: Journal, v: Vol)
    requires Intact(v0, j, v)
    ensures forall k | 0 <= k < |v0.fats| ::
      (if Written(v0, k) then NewFat(v.fats[k], v0.max, j) else v.fats[k]) ==
        (if Written(v0, k) then NewFat(v0.fats[k], v0.max, j) else v0.fats[k])
  {
    hide SameBlock, PatchMap, MapOf, UpdateMap, LinkUpdates;
    forall k | 0 <= k < |v0.fats|
      ensures (if Written(v0, k) then NewFat(v.fats[k], v0.max, j) else v.fats[k]) ==
        (if Written(v0, k) then NewFat(v0.fats[k], v0.max, j) else v0.fats[k])
    {
      forall c: nat | c <= v0.max ensures SameEntry(v0, j, v, k, c) {}
      assert |v.fats[k]| == |v0.fats[k]|;
      if Written(v0, k) {
        var a, b := NewFat(v.fats[k], v0.max, j), NewFat(v0.fats[k], v0.max, j);
        forall c: nat | c <= v0.max ensures a[c] == b[c] {
          assert SameEntry(v0, j, v, k, c);
        }
        assert a == b;
      } else {
        forall c: nat | c <= v0.max ensures v.fats[k][c] == v0.fats[k][c] {
          assert SameEntry(v0, j, v, k, c);
        }
        assert v.fats[k] == v0.fats[k];
      }
    }
  }

  // ---- The completion, write by write --------------------------------------------------------

  class Device {
    var vol: Vol
    /** Every write issued so far; an interruption may lose any of the unsynced ones. */
    ghost var issued: seq<Write>

    constructor (v: Vol)
      ensures vol == v && issued == []
    {
      vol := v;
      issued := [];
    }

    method Issue(w: Write)
      modifies this
      ensures vol == Put(old(vol), w) && issued == old(issued) + [w]
    {
      vol := Put(vol, w);
      issued := issued + [w];
    }
  }

  ghost predicate AllCovered(v0: Vol, j: Journal, ws: seq<Write>) {
    forall i | 0 <= i < |ws| :: Covered(v0, j, ws[i])
  }

  function CopyBlocks(data: seq<Block>, moves: seq<CompactMove>): seq<Block> {
    if moves == [] then data
    else
      var last := moves[|moves| - 1];
      var rest := CopyBlocks(data, moves[..|moves| - 1]);
      if last.destination < |rest| && last.source < |data| then rest[last.destination := data[last.source]] else rest
  }

  lemma {:induction false} CopyLength(data: seq<Block>, moves: seq<CompactMove>)
    ensures |CopyBlocks(data, moves)| == |data|
  {
    if moves != [] { CopyLength(data, moves[..|moves| - 1]); }
  }

  lemma {:induction false} CopyKept(data: seq<Block>, moves: seq<CompactMove>, c: nat)
    requires c < |data| && forall i | 0 <= i < |moves| :: moves[i].destination != c
    ensures |CopyBlocks(data, moves)| == |data| && CopyBlocks(data, moves)[c] == data[c]
  {
    if moves != [] { CopyKept(data, moves[..|moves| - 1], c); } else {}
  }

  lemma {:induction false} CopyMade(data: seq<Block>, moves: seq<CompactMove>, n: nat)
    requires n < |moves| && moves[n].destination < |data| && moves[n].source < |data|
    requires forall i | 0 <= i < |moves| && moves[i].destination == moves[n].destination :: i == n
    ensures |CopyBlocks(data, moves)| == |data|
    ensures CopyBlocks(data, moves)[moves[n].destination] == data[moves[n].source]
  {
    var rest := moves[..|moves| - 1];
    CopyLength(data, rest);
    if n < |rest| {
      assert rest[n] == moves[n];
      CopyMade(data, rest, n);
    }
  }

  /** Copying in order is the same as looking each block up at its origin. */
  lemma CopyIsLookup(v: Vol, j: Journal)
    requires Loaded(v) && JournalFits(v, j)
    ensures |CopyBlocks(v.data, j.moves)| == v.max + 1
    ensures forall c | 0 <= c <= v.max ::
      CopiedFrom(j, c) <= v.max && CopyBlocks(v.data, j.moves)[c] == v.data[CopiedFrom(j, c)]
  {
    hide RelocationMap;
    CopiedInRange(v.max, j);
    CopyLength(v.data, j.moves);
    var moves := Plain(j.moves);
    var back := Swapped(moves);
    assert DistinctMoves(back);
    forall c | 0 <= c <= v.max ensures CopyBlocks(v.data, j.moves)[c] == v.data[CopiedFrom(j, c)] {
      if c in RelocationMap(back) {
        var n := MoveAt(back, c);
        ImageAt(back, n);
        assert InRange(v.max, moves[n]);
        forall i | 0 <= i < |j.moves| && j.moves[i].destination == c ensures i == n {
          assert moves[i].destination == moves[n].destination;
        }
        CopyMade(v.data, j.moves, n);
      } else {
        forall n | 0 <= n < |j.moves| ensures j.moves[n].destination != c {
          assert back[n].source == j.moves[n].destination;
          ImageAt(back, n);
        }
        CopyKept(v.data, j.moves, c);
      }
    }
  }

  // ---- Table updates ------------------------------------------------------------------------

  function SetValue(fat: seq<nat>, c: nat, x: nat): seq<nat> {
    if c < |fat| then fat[c := x] else fat
  }

  /** The first `copies` tables with entry `c` set in those that are written. */
  function SetEntry(v: Vol, c: nat, x: nat, copies: nat): seq<seq<nat>> {
    seq(|v.fats|,
        k requires 0 <= k < |v.fats| => if k < copies && Written(v, k) then SetValue(v.fats[k], c, x) else v.fats[k])
  }

  function ApplyUpdates(v: Vol, us: seq<Update>): (r: Vol) {
    if us == [] then v
    else
      var rest := ApplyUpdates(v, us[..|us| - 1]);
      rest.(fats := SetEntry(rest, us[|us| - 1].cluster, us[|us| - 1].value, |rest.fats|))
  }

  function Updated(us: map<nat, nat>, c: nat, x: nat): nat {
    if c in us then us[c] else x
  }

  ghost predicate EntryUpdated(v: Vol, us: map<nat, nat>, r: Vol, k: nat, c: nat)
    requires Loaded(v) && Loaded(r) && |r.fats| == |v.fats| && r.max == v.max && k < |v.fats| && c <= v.max
  {
    r.fats[k][c] == if Written(v, k) then Updated(us, c, v.fats[k][c]) else v.fats[k][c]
  }

  ghost predicate EntriesUpdated(v: Vol, us: map<nat, nat>, r: Vol)
    requires Loaded(v) && Loaded(r) && |r.fats| == |v.fats| && r.max == v.max
  {
    forall k: nat, c: nat | k < |v.fats| && c <= v.max :: EntryUpdated(v, us, r, k, c)
  }

  lemma {:induction false} UpdatesAt(v: Vol, us: seq<Update>)
    requires Loaded(v)
    ensures var r := ApplyUpdates(v, us);
            r == v.(fats := r.fats) && Loaded(r) && |r.fats| == |v.fats| && EntriesUpdated(v, UpdateMap(us), r)
  {
    if us == [] {
      assert UpdateMap(us) == map[] && ApplyUpdates(v, us) == v;
    } else {
      var rest := ApplyUpdates(v, us[..|us| - 1]);
      UpdatesAt(v, us[..|us| - 1]);
      forall k: nat, c: nat | k < |v.fats| && c <= v.max
        ensures EntryUpdated(v, UpdateMap(us), ApplyUpdates(v, us), k, c)
      {
        assert EntryUpdated(v, UpdateMap(us[..|us| - 1]), rest, k, c);
      }
    }
  }

  method WriteUpdates(dev: Device, us: seq<Update>, ghost v0: Vol, ghost j: Journal)
    requires Loaded(dev.vol) && dev.vol.max == v0.max && dev.vol.mirroring == v0.mirroring
    requires dev.vol.active == v0.active
    requires forall i | 0 <= i < |us| :: Rewritten(j, v0.max, us[i].cluster)
    requires AllCovered(v0, j, dev.issued)
    modifies dev
    ensures dev.vol == ApplyUpdates(old(dev.vol), us) && AllCovered(v0, j, dev.issued) && old(dev.issued) <= dev.issued
  {
    hide Rewritten, Loaded;
    ghost var start := dev.vol;
    for i := 0 to |us|
      invariant dev.vol == ApplyUpdates(start, us[..i]) && dev.vol == start.(fats := dev.vol.fats)
      invariant AllCovered(v0, j, dev.issued) && old(dev.issued) <= dev.issued
    {
      ghost var before := dev.vol;
      var k := 0;
      assert SetEntry(before, us[i].cluster, us[i].value, 0) == before.fats;
      while k < |dev.vol.fats|
        invariant k <= |before.fats| && dev.vol == before.(fats := SetEntry(before, us[i].cluster, us[i].value, k))
        invariant AllCovered(v0, j, dev.issued) && old(dev.issued) <= dev.issued
      {
        ghost var now := dev.vol;
        if Written(dev.vol, k) { dev.Issue(WriteEntry(k, us[i].cluster, us[i].value)); }
        assert dev.vol.fats == SetEntry(before, us[i].cluster, us[i].value, k + 1);
        k := k + 1;
      }
      assert us[..i + 1][..i] == us[..i];
    }
    assert us[..|us|] == us;
  }

  // ---- Entry patches --------------------------------------------------------------------------

  function ApplyPatches(v: Vol, ps: seq<DirPatch>): (r: Vol) {
    if ps == [] then v else Put(ApplyPatches(v, ps[..|ps| - 1]), WriteFirst(ps[|ps| - 1].at, ps[|ps| - 1].newTarget))
  }

  lemma PatchAgain(pm: map<Offset, nat>, at: Offset, x: nat, container: Container, block: Block)
    ensures PatchBlock(pm[at := x], container, block) ==
            if at.container == container then PutFirst(PatchBlock(pm, container, block), at.slot, x)
            else PatchBlock(pm, container, block)
  {
  }

  lemma {:induction false} PatchesAt(v: Vol, ps: seq<DirPatch>)
    ensures var r := ApplyPatches(v, ps);
            && r == v.(data := r.data, rootArea := r.rootArea)
            && |r.data| == |v.data| && r.rootArea == PatchBlock(PatchMap(ps), RootArea, v.rootArea)
            && forall c | 0 <= c < |v.data| :: r.data[c] == PatchBlock(PatchMap(ps), InCluster(c), v.data[c])
  {
    if ps == [] {
      assert PatchMap(ps) == map[];
    } else {
      var last := ps[|ps| - 1];
      var rest := ps[..|ps| - 1];
      PatchesAt(v, rest);
      PatchAgain(PatchMap(rest), last.at, last.newTarget, RootArea, v.rootArea);
      forall c | 0 <= c < |v.data|
        ensures ApplyPatches(v, ps).data[c] == PatchBlock(PatchMap(ps), InCluster(c), v.data[c])
      {
        PatchAgain(PatchMap(rest), last.at, last.newTarget, InCluster(c), v.data[c]);
      }
    }
  }

  lemma {:induction false} PatchListed(ps: seq<DirPatch>, i: nat)
    requires i < |ps|
    ensures ps[i].at in PatchMap(ps)
  {
    if i < |ps| - 1 { PatchListed(ps[..|ps| - 1], i); }
  }

  method WritePatches(dev: Device, ghost v0: Vol, j: Journal)
    requires AllCovered(v0, j, dev.issued)
    modifies dev
    ensures dev.vol == ApplyPatches(old(dev.vol), j.patches) && AllCovered(v0, j, dev.issued)
    ensures old(dev.issued) <= dev.issued
  {
    hide PatchMap;
    var ps := j.patches;
    for i := 0 to |ps|
      invariant dev.vol == ApplyPatches(old(dev.vol), ps[..i])
      invariant AllCovered(v0, j, dev.issued) && old(dev.issued) <= dev.issued
    {
      PatchListed(ps, i);
      dev.Issue(WriteFirst(ps[i].at, ps[i].newTarget));
      assert ps[..i + 1][..i] == ps[..i];
    }
    assert ps[..|ps|] == ps;
  }

  method WriteCopies(dev: Device, ghost v0: Vol, j: Journal)
    requires Loaded(dev.vol) && JournalFits(dev.vol, j) && v0.cells == dev.vol.cells && AllCovered(v0, j, dev.issued)
    modifies dev
    ensures dev.vol == old(dev.vol).(data := CopyBlocks(old(dev.vol).data, j.moves))
    ensures AllCovered(v0, j, dev.issued) && old(dev.issued) <= dev.issued
  {
    ghost var v := dev.vol;
    var moves := j.moves;
    for i := 0 to |moves|
      invariant dev.vol == v.(data := CopyBlocks(v.data, moves[..i]))
      invariant AllCovered(v0, j, dev.issued) && old(dev.issued) <= dev.issued
    {
      assert InRange(v.max, Plain(moves)[i]);
      CopyLength(v.data, moves[..i]);
      assert dev.vol.data[moves[i].source] == v.data[moves[i].source] by {
        SourceStays(v, j, i);
      }
      assert IsDestination(j, moves[i].destination) by { assert Plain(moves)[i].destination == moves[i].destination; }
      dev.Issue(WriteBlock(moves[i].destination, dev.vol.data[moves[i].source]));
      assert moves[..i + 1][..i] == moves[..i];
    }
    assert moves[..|moves|] == moves;
  }

  lemma SourceStays(v: Vol, j: Journal, n: nat)
    requires Loaded(v) && JournalFits(v, j) && n < |j.moves|
    ensures j.moves[n].source <= v.max && |CopyBlocks(v.data, j.moves[..n])| == |v.data|
    ensures CopyBlocks(v.data, j.moves[..n])[j.moves[n].source] == v.data[j.moves[n].source]
  {
    var moves := Plain(j.moves);
    assert InRange(v.max, moves[n]) && moves[n].source in Sources(moves);
    forall i | 0 <= i < n ensures j.moves[i].destination != j.moves[n].source {
      assert moves[i].destination in Destinations(moves);
    }
    CopyKept(v.data, j.moves[..n], j.moves[n].source);
  }

  // ---- All phases --------------------------------------------------------------------------------

  function Frees(moves: seq<CompactMove>): seq<Update> {
    seq(|moves|, i requires 0 <= i < |moves| => Update(moves[i].source, 0))
  }

  function Rebooted(v: Vol, j: Journal): Vol {
    if j.rootNew != j.rootOld then v.(boots := seq(|v.boots|, i => j.rootNew)) else v
  }

  /** The phases in their order. */
  function Phases(v: Vol, j: Journal): Vol {
    var copied := v.(data := CopyBlocks(v.data, j.moves));
    var linked := ApplyUpdates(copied, LinkUpdates(v.max, j));
    var patched := ApplyPatches(linked, j.patches);
    ApplyUpdates(Rebooted(patched, j), Frees(j.moves))
  }

  lemma FreesAt(j: Journal)
    requires DistinctMoves(Plain(j.moves))
    ensures UpdateMap(Frees(j.moves)).Keys == MapOf(j).Keys
    ensures forall c | c in UpdateMap(Frees(j.moves)) :: UpdateMap(Frees(j.moves))[c] == 0
  {
    hide RelocationMap;
    var us, moves := Frees(j.moves), Plain(j.moves);
    forall c: nat ensures (c in UpdateMap(us) <==> c in MapOf(j)) && (c in UpdateMap(us) ==> UpdateMap(us)[c] == 0) {
      UpdateMapValue(us, c, 0);
      if c in UpdateMap(us) {
        var i :| 0 <= i < |us| && us[i].cluster == c;
        ImageAt(moves, i);
      }
      if c in MapOf(j) {
        var n := MoveAt(moves, c);
        assert us[n].cluster == c;
      }
    }
  }

  lemma TwoUpdates(v: Vol, j: Journal, linked: Vol, booted: Vol, r: Vol, k: nat)
    requires Loaded(v) && Loaded(linked) && Loaded(booted) && Loaded(r) && JournalFits(v, j) && k < |v.fats|
    requires |linked.fats| == |v.fats| && linked.max == v.max
    requires EntriesUpdated(v, UpdateMap(LinkUpdates(v.max, j)), linked)
    requires booted.fats == linked.fats && booted.max == v.max && booted.mirroring == v.mirroring
    requires booted.active == v.active
    requires |r.fats| == |v.fats| && r.max == v.max && EntriesUpdated(booted, UpdateMap(Frees(j.moves)), r)
    ensures r.fats[k] == if Written(v, k) then NewFat(v.fats[k], v.max, j) else v.fats[k]
  {
    FreesAt(j);
    hide MapOf, LinkUpdates, Frees, UpdateMap;
    var want := if Written(v, k) then NewFat(v.fats[k], v.max, j) else v.fats[k];
    assert |r.fats[k]| == |want|;
    hide EntriesUpdated, Loaded, JournalFits;
    forall c: nat | c <= v.max ensures r.fats[k][c] == want[c] {
      assert EntryUpdated(v, UpdateMap(LinkUpdates(v.max, j)), linked, k, c);
      assert EntryUpdated(booted, UpdateMap(Frees(j.moves)), r, k, c);
    }
  }

  lemma SameEntries(v: Vol, w: Vol, us: map<nat, nat>, r: Vol)
    requires Loaded(v) && Loaded(w) && Loaded(r) && |r.fats| == |w.fats| && r.max == w.max && EntriesUpdated(w, us, r)
    requires w.fats == v.fats && w.max == v.max && w.mirroring == v.mirroring && w.active == v.active
    ensures EntriesUpdated(v, us, r)
  {
    forall k: nat, c: nat | k < |v.fats| && c <= v.max ensures EntryUpdated(v, us, r, k, c) {
      assert EntryUpdated(w, us, r, k, c);
    }
  }

  lemma PhaseData(v: Vol, j: Journal, linked: Vol)
    requires Loaded(v) && JournalFits(v, j) && linked.data == CopyBlocks(v.data, j.moves)
    requires linked.rootArea == v.rootArea
    ensures ApplyPatches(linked, j.patches).data == Complete(v, j).data
    ensures ApplyPatches(linked, j.patches).rootArea == Complete(v, j).rootArea
  {
    CopyIsLookup(v, j);
    hide CopyBlocks, PatchMap, MapOf, CopiedFrom, ApplyPatches, NewFat, JournalFits, PatchBlock;
    PatchesAt(linked, j.patches);
  }

  lemma PhaseFats(v: Vol, j: Journal, linked: Vol, booted: Vol, r: Vol)
    requires Loaded(v) && Loaded(linked) && Loaded(booted) && Loaded(r) && JournalFits(v, j)
    requires |linked.fats| == |v.fats| && linked.max == v.max
    requires EntriesUpdated(v, UpdateMap(LinkUpdates(v.max, j)), linked)
    requires booted.fats == linked.fats && booted.max == v.max && booted.mirroring == v.mirroring
    requires booted.active == v.active
    requires |r.fats| == |v.fats| && r.max == v.max && EntriesUpdated(booted, UpdateMap(Frees(j.moves)), r)
    ensures r.fats == Complete(v, j).fats
  {
    hide EntriesUpdated, Loaded, JournalFits, NewFat, UpdateMap, LinkUpdates, Frees;
    forall k | 0 <= k < |v.fats| ensures r.fats[k] == Complete(v, j).fats[k] {
      TwoUpdates(v, j, linked, booted, r, k);
    }
  }

  lemma PhaseLinks(v: Vol, j: Journal)
    requires Loaded(v) && JournalFits(v, j)
    ensures var linked := ApplyUpdates(v.(data := CopyBlocks(v.data, j.moves)), LinkUpdates(v.max, j));
            && linked == v.(data := CopyBlocks(v.data, j.moves), fats := linked.fats)
            && Loaded(linked) && |linked.fats| == |v.fats|
            && EntriesUpdated(v, UpdateMap(LinkUpdates(v.max, j)), linked)
  {
    CopyIsLookup(v, j);
    var copied := v.(data := CopyBlocks(v.data, j.moves));
    assert Loaded(copied);
    hide CopyBlocks, UpdateMap, LinkUpdates, ApplyUpdates, JournalFits, EntriesUpdated, CopiedFrom;
    UpdatesAt(copied, LinkUpdates(v.max, j));
    SameEntries(v, copied, UpdateMap(LinkUpdates(v.max, j)), ApplyUpdates(copied, LinkUpdates(v.max, j)));
  }

  lemma PhasePatches(v: Vol, j: Journal, linked: Vol)
    requires Loaded(v) && JournalFits(v, j) && Loaded(linked)
    requires linked == v.(data := CopyBlocks(v.data, j.moves), fats := linked.fats)
    ensures var booted := Rebooted(ApplyPatches(linked, j.patches), j);
            && Loaded(booted) && booted == Complete(v, j).(fats := linked.fats)
  {
    PhaseData(v, j, linked);
    hide CopyBlocks, ApplyPatches, JournalFits, PatchBlock, PatchMap, CopiedFrom, NewFat;
    PatchesAt(linked, j.patches);
    var booted := Rebooted(ApplyPatches(linked, j.patches), j);
    assert booted.boots == Complete(v, j).boots;
  }

  /** The completion's phases compute the relocated volume. */
  lemma PhasesComplete(v: Vol, j: Journal)
    requires Loaded(v) && JournalFits(v, j)
    ensures Phases(v, j) == Complete(v, j)
  {
    hide CopyBlocks, UpdateMap, LinkUpdates, Frees, ApplyUpdates, ApplyPatches, JournalFits, EntriesUpdated, Loaded,
         Rebooted, PatchBlock, NewFat;
    PhaseLinks(v, j);
    var linked := ApplyUpdates(v.(data := CopyBlocks(v.data, j.moves)), LinkUpdates(v.max, j));
    PhasePatches(v, j, linked);
    var booted := Rebooted(ApplyPatches(linked, j.patches), j);
    UpdatesAt(booted, Frees(j.moves));
    PhaseFats(v, j, linked, booted, Phases(v, j));
  }

  lemma LinksRewritten(max: nat, j: Journal)
    requires DistinctMoves(Plain(j.moves))
    ensures forall i | 0 <= i < |LinkUpdates(max, j)| :: Rewritten(j, max, LinkUpdates(max, j)[i].cluster)
    ensures forall i | 0 <= i < |Frees(j.moves)| :: Rewritten(j, max, Frees(j.moves)[i].cluster)
  {
    FreesAt(j);
    var us := LinkUpdates(max, j);
    forall i | 0 <= i < |us| ensures us[i].cluster in UpdateMap(us) { UpdateListed(us, i); }
    forall i | 0 <= i < |Frees(j.moves)| ensures Frees(j.moves)[i].cluster in MapOf(j) {
      UpdateListed(Frees(j.moves), i);
    }
  }

  lemma {:induction false} UpdateListed(us: seq<Update>, i: nat)
    requires i < |us|
    ensures us[i].cluster in UpdateMap(us)
  {
    if i < |us| - 1 { UpdateListed(us[..|us| - 1], i); }
  }

  /** complete_compact_journal: every write it issues is covered by the journal. */
  method CompleteJournal(dev: Device, j: Journal)
    requires Loaded(dev.vol) && JournalFits(dev.vol, j) && dev.issued == []
    modifies dev
    ensures dev.vol == Complete(old(dev.vol), j)
    ensures AllCovered(old(dev.vol), j, dev.issued)
  {
    ghost var v := dev.vol;
    PhasesComplete(v, j);
    LinksRewritten(v.max, j);
    CopyIsLookup(v, j);
    hide Complete, CopyBlocks, ApplyUpdates, ApplyPatches, MapOf, LinkUpdates, Frees, Covered, Rewritten, CopiedFrom;
    WriteCopies(dev, v, j);
    ghost var copied := dev.vol;
    assert Loaded(copied);
    UpdatesAt(copied, LinkUpdates(v.max, j));
    WriteUpdates(dev, LinkUpdates(dev.vol.max, j), v, j);
    ghost var linked := dev.vol;
    WritePatches(dev, v, j);
    PatchesAt(linked, j.patches);
    ghost var patched := dev.vol;
    if j.rootNew != j.rootOld { WriteBoots(dev, v, j); }
    assert dev.vol == Rebooted(patched, j) && Loaded(dev.vol);
    WriteUpdates(dev, Frees(j.moves), v, j);
  }

  method WriteBoots(dev: Device, ghost v0: Vol, j: Journal)
    requires j.rootNew != j.rootOld && AllCovered(v0, j, dev.issued)
    modifies dev
    ensures dev.vol == Rebooted(old(dev.vol), j) && AllCovered(v0, j, dev.issued) && old(dev.issued) <= dev.issued
  {
    ghost var v := dev.vol;
    var b := 0;
    while b < |dev.vol.boots|
      invariant b <= |v.boots| == |dev.vol.boots| && dev.vol == v.(boots := dev.vol.boots)
      invariant forall i | 0 <= i < |v.boots| :: dev.vol.boots[i] == if i < b then j.rootNew else v.boots[i]
      invariant AllCovered(v0, j, dev.issued) && old(dev.issued) <= dev.issued
    {
      dev.Issue(WriteRoot(b, j.rootNew));
      b := b + 1;
    }
    assert dev.vol.boots == Rebooted(v, j).boots;
  }

  ghost predicate MirrorsAgree(v: Vol) {
    v.mirroring ==> forall a, b | 0 <= a < |v.fats| && 0 <= b < |v.fats| :: v.fats[a] == v.fats[b]
  }

  /** Completing the journal leaves the mirrored tables equal, even after an
      interruption left them different. */
  lemma RecoveryHealsMirrors(v0: Vol, j: Journal, v: Vol)
    requires Intact(v0, j, v) && JournalFits(v0, j) && SourcesUnpatched(j) && MirrorsAgree(v0)
    ensures JournalFits(v, j) && MirrorsAgree(Complete(v, j))
  {
    RedoIsIdempotent(v0, j, v);
    hide NewFat, PatchBlock, CopiedFrom;
  }

  // ---- Interrupted runs -----------------------------------------------------------------------------

  function PutAll(v: Vol, ws: seq<Write>): Vol {
    if ws == [] then v else Put(PutAll(v, ws[..|ws| - 1]), ws[|ws| - 1])
  }

  /** Whatever part of the covered writes reaches the device, in whatever order. */
  lemma {:induction false} PartialWritesIntact(v0: Vol, j: Journal, v: Vol, ws: seq<Write>)
    requires Intact(v0, j, v) && AllCovered(v0, j, ws)
    ensures Intact(v0, j, PutAll(v, ws))
  {
    hide Intact, Covered, Put;
    if ws != [] {
      PartialWritesIntact(v0, j, v, ws[..|ws| - 1]);
      CoveredKeepsIntact(v0, j, PutAll(v, ws[..|ws| - 1]), ws[|ws| - 1]);
    }
  }

  lemma CoveredFromIntact(v0: Vol, j: Journal, v: Vol, ws: seq<Write>)
    requires Intact(v0, j, v) && AllCovered(v, j, ws)
    ensures AllCovered(v0, j, ws)
  {
    hide PatchMap, MapOf, UpdateMap, LinkUpdates;
    forall i | 0 <= i < |ws| ensures Covered(v0, j, ws[i]) {
      assert Covered(v, j, ws[i]);
    }
  }

  /** A history of interrupted attempts: each attempt starts from the volume the one
      before left and gets an arbitrary selection of covered writes onto the device. */
  ghost predicate Attempts(v0: Vol, j: Journal, vs: seq<Vol>, landed: seq<seq<Write>>) {
    && |vs| == |landed| + 1 && vs[0] == v0
    && forall n | 0 <= n < |landed| ::
         Loaded(vs[n]) && AllCovered(vs[n], j, landed[n]) && vs[n + 1] == PutAll(vs[n], landed[n])
  }

  lemma {:induction false} AttemptsIntact(v0: Vol, j: Journal, vs: seq<Vol>, landed: seq<seq<Write>>, n: nat)
    requires Loaded(v0) && Attempts(v0, j, vs, landed) && n < |vs|
    ensures Intact(v0, j, vs[n])
  {
    hide Intact, Covered, Put, AllCovered, Loaded;
    if n == 0 {
      IntactItself(v0, j);
    } else {
      AttemptsIntact(v0, j, vs, landed, n - 1);
      CoveredFromIntact(v0, j, vs[n - 1], landed[n - 1]);
      PartialWritesIntact(v0, j, vs[n - 1], landed[n - 1]);
    }
  }

  /** Journals never patch an entry inside a cluster that is being moved away. */
  lemma JournalSourcesUnpatched(v: Vol, pred: seq<nat>, moves: seq<Move>, j: Journal)
    requires Transaction(v, pred, moves, j)
    ensures JournalFits(v, j) && SourcesUnpatched(j)
  {
    JournalFacts(v, pred, moves, j);
    LegalOf(v, pred, moves, j);
    MapRange(v, pred, moves, j);
    ScannedRefsReal(v);
    var m, refs := MapOf(j), ScanFiles(v).value.refs;
    assert JournalFits(v, j);
    hide Transaction, ScanFiles, MapOf, PatchMap, DirPatches, Complete, JournalFits, LayoutOf;
    forall at | at in PatchMap(j.patches) && at.container.InCluster? ensures at.container.cluster !in m {
      PatchNotInSource(v, moves, m, refs, at);
    }
  }

  lemma PatchNotInSource(v: Vol, moves: seq<Move>, m: map<nat, nat>, refs: seq<Ref>, at: Offset)
    requires Loaded(v) && at in PatchMap(DirPatches(m, refs)) && at.container.InCluster?
    requires forall c | c in m :: c <= v.max && m[c] in Destinations(moves)
    requires forall c | c in Destinations(moves) :: c !in m
    ensures at.container.cluster !in m
  {
    var ps := DirPatches(m, refs);
    var n := PatchOrigin(ps, at);
    var i := PatchFrom(m, refs, n);
    var c := refs[i].at.container;
    assert c.InCluster?;
  }

  lemma {:induction false} PatchOrigin(ps: seq<DirPatch>, at: Offset) returns (n: nat)
    requires at in PatchMap(ps)
    ensures n < |ps| && ps[n].at == at
  {
    if ps[|ps| - 1].at == at { n := |ps| - 1; } else { n := PatchOrigin(ps[..|ps| - 1], at); }
  }

  /** After any number of interrupted attempts, completing the journal leaves exactly
      the volume an uninterrupted transaction leaves. */
  lemma RecoveryCompletes(v: Vol, pred: seq<nat>, moves: seq<Move>, j: Journal, vs: seq<Vol>, landed: seq<seq<Write>>,
                          n: nat)
    requires Transaction(v, pred, moves, j) && Attempts(v, j, vs, landed) && n < |vs|
    ensures Loaded(vs[n]) && JournalFits(vs[n], j) && JournalFits(v, j)
    ensures Complete(vs[n], j) == Complete(v, j)
    ensures LinkSafe(v, MapOf(j)) ==> ScanFiles(Complete(vs[n], j)) == Ok(RenameState(MapOf(j), ScanFiles(v).value))
  {
    RelocationPreservesMeaning(v, pred, moves, j);
    JournalSourcesUnpatched(v, pred, moves, j);
    AttemptsIntact(v, j, vs, landed, n);
    RedoIsIdempotent(v, j, vs[n]);
  }

  /** Any selection of the writes a completion issues, in any order, is one attempt. */
  lemma IssuedIsAttempt(v: Vol, j: Journal, issued: seq<Write>, landed: seq<Write>)
    requires Loaded(v) && AllCovered(v, j, issued) && forall i | 0 <= i < |landed| :: landed[i] in issued
    ensures Attempts(v, j, [v, PutAll(v, landed)], [landed])
  {
    forall i | 0 <= i < |landed| ensures Covered(v, j, landed[i]) {
      assert landed[i] in issued;
    }
  }
}
