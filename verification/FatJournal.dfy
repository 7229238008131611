/** One mapped relocation: the journal it records and the volume it leaves behind. */
module FatJournal {
  import opened Basics
  import opened ClusterLayout
  import opened FatVolume

  datatype CompactMove = CompactMove(source: nat, destination: nat, next: nat, predecessor: nat)

  datatype DirPatch = DirPatch(at: Offset, oldTarget: nat, newTarget: nat)

  datatype Journal = Journal(moves: seq<CompactMove>, patches: seq<DirPatch>, rootOld: nat, rootNew: nat)

  // ---- Relocation map ----------------------------------------------------------------

  predicate ValidMoves(max: nat, moves: seq<Move>) {
    && DistinctMoves(moves) && Sources(moves) !! Destinations(moves)
    && forall i | 0 <= i < |moves| :: InRange(max, moves[i])
  }

  /** compact_build_map: rejects exactly the move lists that are not one-to-one
      renamings onto fresh clusters. */
  method BuildMap(max: nat, moves: seq<Move>) returns (r: Result<map<nat, nat>>)
    ensures r.Ok? <==> ValidMoves(max, moves)
    ensures r.Ok? ==> r.value == RelocationMap(moves)
  {
    hide RelocationMap, Sources, Destinations, DistinctMoves;
    var m: map<nat, nat>, destSeen: set<nat> := map[], {};
    BuildNothing();
    for i := 0 to |moves|
      invariant m == RelocationMap(moves[..i]) && destSeen == Destinations(moves[..i]) && m.Keys == Sources(moves[..i])
      invariant DistinctMoves(moves[..i]) && forall k | 0 <= k < i :: InRange(max, moves[k])
    {
      var mv := moves[i];
      if mv.source < 2 || mv.source > max || mv.destination < 2 || mv.destination > max || mv.destination == mv.source {
        SelfMove(moves, i);
        return Error;
      }
      if mv.source in m || mv.destination in destSeen {
        Duplicate(moves, i);
        return Error;
      }
      assert moves[..i + 1] == moves[..i] + [mv];
      StepMap(moves[..i], mv);
      StepSets(moves[..i], mv);
      m, destSeen := m[mv.source := mv.destination], destSeen + {mv.destination};
    }
    assert moves[..|moves|] == moves;
    for i := 0 to |moves|
      invariant forall k | 0 <= k < i :: moves[k].source !in destSeen
    {
      if moves[i].source in destSeen {
        SourceListed(moves, i);
        return Error;
      }
    }
    SourcesAway(moves, destSeen);
    r := Ok(m);
  }

  predicate InRange(max: nat, mv: Move) {
    2 <= mv.source <= max && 2 <= mv.destination <= max
  }

  lemma BuildNothing()
    ensures RelocationMap([]) == map[] && Destinations([]) == {} && Sources([]) == {} && DistinctMoves([])
  {
  }

  lemma SelfMove(moves: seq<Move>, i: nat)
    requires i < |moves|
    ensures moves[i].source == moves[i].destination ==> !(Sources(moves) !! Destinations(moves))
  {
    assert moves[i].source in Sources(moves) && moves[i].destination in Destinations(moves);
  }

  lemma Duplicate(moves: seq<Move>, i: nat)
    requires i < |moves| && (moves[i].source in Sources(moves[..i]) || moves[i].destination in Destinations(moves[..i]))
    ensures !DistinctMoves(moves)
  {
    var k :| 0 <= k < i &&
      (moves[..i][k].source == moves[i].source || moves[..i][k].destination == moves[i].destination);
    assert moves[..i][k] == moves[k];
  }

  lemma SourceListed(moves: seq<Move>, i: nat)
    requires i < |moves|
    ensures moves[i].source in Sources(moves)
  {
  }

  lemma SourcesAway(moves: seq<Move>, s: set<nat>)
    requires forall k | 0 <= k < |moves| :: moves[k].source !in s
    ensures Sources(moves) !! s
  {
  }

  lemma StepMap(moves: seq<Move>, mv: Move)
    ensures RelocationMap(moves + [mv]) == RelocationMap(moves)[mv.source := mv.destination]
  {
    assert (moves + [mv])[..|moves|] == moves;
  }

  lemma SourcesStep(moves: seq<Move>, mv: Move)
    ensures Sources(moves + [mv]) == Sources(moves) + {mv.source}
  {
    var all := moves + [mv];
    assert all[|moves|].source == mv.source;
    forall c | c in Sources(moves) ensures c in Sources(all) {
      var i := MoveAt(moves, c);
      assert all[i].source == c;
    }
  }

  lemma DestinationsStep(moves: seq<Move>, mv: Move)
    ensures Destinations(moves + [mv]) == Destinations(moves) + {mv.destination}
  {
    var all := moves + [mv];
    assert all[|moves|].destination == mv.destination;
    forall d | d in Destinations(moves) ensures d in Destinations(all) {
      var i :| 0 <= i < |moves| && moves[i].destination == d;
      assert all[i].destination == d;
    }
  }

  lemma StepSets(moves: seq<Move>, mv: Move)
    requires DistinctMoves(moves) && mv.source !in Sources(moves) && mv.destination !in Destinations(moves)
    ensures Sources(moves + [mv]) == Sources(moves) + {mv.source}
    ensures Destinations(moves + [mv]) == Destinations(moves) + {mv.destination}
    ensures DistinctMoves(moves + [mv])
  {
    SourcesStep(moves, mv);
    DestinationsStep(moves, mv);
    forall i | 0 <= i < |moves| ensures moves[i].source != mv.source && moves[i].destination != mv.destination {
      assert moves[i].source in Sources(moves) && moves[i].destination in Destinations(moves);
    }
    hide Sources, Destinations;
  }

  // ---- Predecessors -------------------------------------------------------------------

  predicate IsLink(v: Vol, value: nat) { 2 <= value <= v.max }

  /** pred[c] is the one cluster whose table entry is c, or 0. */
  ghost predicate IsPredTable(v: Vol, pred: seq<nat>)
    requires Loaded(v)
  {
    && |pred| == v.max + 1
    && (forall c | 2 <= c <= v.max && pred[c] != 0 :: 2 <= pred[c] <= v.max && Fat(v, pred[c]) == c)
    && (forall p | 2 <= p <= v.max && IsLink(v, Fat(v, p)) :: pred[Fat(v, p)] == p)
  }

  ghost predicate LinksUnique(v: Vol)
    requires Loaded(v)
  {
    forall p, q | 2 <= p <= v.max && 2 <= q <= v.max && IsLink(v, Fat(v, p)) && Fat(v, p) == Fat(v, q) :: p == q
  }

  /** build_predecessor_table: fails exactly when two entries name the same cluster. */
  method BuildPredecessorTable(v: Vol) returns (r: Result<seq<nat>>)
    requires Loaded(v)
    ensures r.Ok? <==> LinksUnique(v)
    ensures r.Ok? ==> IsPredTable(v, r.value)
  {
    var pred: seq<nat> := seq(v.max + 1, i => 0);
    var c: nat := 2;
    while c <= v.max
      invariant 2 <= c <= v.max + 1 && |pred| == v.max + 1
      invariant forall d | 2 <= d <= v.max && pred[d] != 0 :: 2 <= pred[d] < c && Fat(v, pred[d]) == d
      invariant forall p | 2 <= p < c && IsLink(v, Fat(v, p)) :: pred[Fat(v, p)] == p
    {
      var next := Fat(v, c);
      if IsLink(v, next) {
        if pred[next] != 0 {
          assert Fat(v, pred[next]) == Fat(v, c);
          return Error;
        }
        pred := pred[next := c];
      }
      c := c + 1;
    }
    r := Ok(pred);
  }

  // ---- Journal ---------------------------------------------------------------------------

  function Plain(moves: seq<CompactMove>): seq<Move> {
    seq(|moves|, i requires 0 <= i < |moves| => Move(moves[i].source, moves[i].destination))
  }

  function MapOf(j: Journal): map<nat, nat> {
    RelocationMap(Plain(j.moves))
  }

  /** An entry inside a moved cluster is patched in the copy, never in the source. */
  function MoveOffset(m: map<nat, nat>, at: Offset): Offset {
    match at.container
    case RootArea => at
    case InCluster(c) => Offset(InCluster(Image(m, c)), at.slot)
  }

  function DirPatches(m: map<nat, nat>, refs: seq<Ref>): seq<DirPatch> {
    if refs == [] then []
    else
      var ref := refs[|refs| - 1];
      var rest := DirPatches(m, refs[..|refs| - 1]);
      if ref.target in m then rest + [DirPatch(MoveOffset(m, ref.at), ref.target, m[ref.target])] else rest
  }

  function FillMoves(v: Vol, pred: seq<nat>, moves: seq<Move>): seq<CompactMove>
    requires Loaded(v) && |pred| == v.max + 1 && ValidMoves(v.max, moves)
  {
    seq(|moves|, i requires 0 <= i < |moves| =>
      CompactMove(moves[i].source, moves[i].destination, Fat(v, moves[i].source), pred[moves[i].source]))
  }

  predicate Referenced(refs: seq<Ref>, c: nat) {
    exists i | 0 <= i < |refs| :: refs[i].target == c
  }

  /** make_compact_journal. */
  function MakeJournal(v: Vol, refs: seq<Ref>, pred: seq<nat>, moves: seq<Move>): (r: Result<Journal>)
    requires Loaded(v) && |pred| == v.max + 1
  {
    if !ValidMoves(v.max, moves) then Error
    else
      var filled := FillMoves(v, pred, moves);
      var m := RelocationMap(moves);
      var root := RootCluster(v);
      if exists i | 0 <= i < |filled| ::
           filled[i].predecessor == 0 && filled[i].source != root && !Referenced(refs, filled[i].source) then Error
      else Ok(Journal(filled, DirPatches(m, refs), root, Image(m, root)))
  }

  /** The textual journal is read back only when both root fields are real clusters. */
  predicate ReaderAccepts(j: Journal) {
    j.moves != [] && j.rootOld >= 2 && j.rootNew >= 2
  }

  // ---- Completion ------------------------------------------------------------------------

  datatype Update = Update(cluster: nat, value: nat)

  function UpdateMap(us: seq<Update>): (m: map<nat, nat>) {
    if us == [] then map[] else UpdateMap(us[..|us| - 1])[us[|us| - 1].cluster := us[|us| - 1].value]
  }

  function NewNext(max: nat, m: map<nat, nat>, next: nat): nat {
    if 2 <= next <= max && next in m then m[next] else next
  }

  function DestinationLinks(max: nat, m: map<nat, nat>, moves: seq<CompactMove>): seq<Update> {
    seq(|moves|, i requires 0 <= i < |moves| => Update(moves[i].destination, NewNext(max, m, moves[i].next)))
  }

  function PredecessorLinks(m: map<nat, nat>, moves: seq<CompactMove>): seq<Update> {
    if moves == [] then []
    else
      var last := moves[|moves| - 1];
      var rest := PredecessorLinks(m, moves[..|moves| - 1]);
      if last.predecessor != 0 && last.predecessor !in m then rest + [Update(last.predecessor, last.destination)]
      else rest
  }

  function LinkUpdates(max: nat, j: Journal): seq<Update> {
    DestinationLinks(max, MapOf(j), j.moves) + PredecessorLinks(MapOf(j), j.moves)
  }

  function NewFat(fat: seq<nat>, max: nat, j: Journal): seq<nat> {
    var links := UpdateMap(LinkUpdates(max, j));
    seq(|fat|, c requires 0 <= c < |fat| => if c in MapOf(j) then 0 else if c in links then links[c] else fat[c])
  }

  function PatchMap(patches: seq<DirPatch>): map<Offset, nat> {
    if patches == [] then map[]
    else PatchMap(patches[..|patches| - 1])[patches[|patches| - 1].at := patches[|patches| - 1].newTarget]
  }

  function PatchBlock(pm: map<Offset, nat>, container: Container, block: Block): Block {
    seq(|block|, s requires 0 <= s < |block| =>
      if Offset(container, s) in pm then block[s].(first := pm[Offset(container, s)]) else block[s])
  }

  function Swapped(moves: seq<Move>): seq<Move> {
    seq(|moves|, i requires 0 <= i < |moves| => Move(moves[i].destination, moves[i].source))
  }

  /** The source whose block is copied to `c`, or `c` itself. */
  function CopiedFrom(j: Journal, c: nat): nat {
    Image(RelocationMap(Swapped(Plain(j.moves))), c)
  }

  predicate Written(v: Vol, copy: nat) { v.mirroring || copy == v.active }

  predicate JournalFits(v: Vol, j: Journal) {
    ValidMoves(v.max, Plain(j.moves))
  }

  /** complete_compact_journal: copy, relink, patch entries and root, free the sources. */
  function Complete(v: Vol, j: Journal): (r: Vol)
    requires Loaded(v) && JournalFits(v, j)
    ensures Loaded(r) && r.max == v.max && r.kind == v.kind
  {
    var pm := PatchMap(j.patches);
    CopiedInRange(v.max, j);
    v.(fats := seq(|v.fats|,
                   k requires 0 <= k < |v.fats| => if Written(v, k) then NewFat(v.fats[k], v.max, j) else v.fats[k]),
       data := seq(|v.data|, c requires 0 <= c < |v.data| => PatchBlock(pm, InCluster(c), v.data[CopiedFrom(j, c)])),
       rootArea := PatchBlock(pm, RootArea, v.rootArea),
       boots := if j.rootNew != j.rootOld then seq(|v.boots|, i => j.rootNew) else v.boots)
  }

  lemma CopiedInRange(max: nat, j: Journal)
    requires ValidMoves(max, Plain(j.moves))
    ensures forall c | 0 <= c <= max :: CopiedFrom(j, c) <= max
  {
    var back := Swapped(Plain(j.moves));
    assert DistinctMoves(back);
    forall c | 0 <= c <= max ensures CopiedFrom(j, c) <= max {
      if c in RelocationMap(back) {
        var i := MoveAt(back, c);
        ImageAt(back, i);
      }
    }
  }
}
