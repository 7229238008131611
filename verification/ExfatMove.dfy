/**
 The exFAT tail-cluster move: one cluster of an object is replaced by a lower free
 one.  The commit point is the directory entry or a single predecessor link.
 An entry-set update counts as one write; recovery gives up on a torn set.
 */
module ExfatMove {
  import opened Basics
  import opened ClusterLayout

  /** What recovery reads from the object's stream entry. */
  datatype Entry = Entry(first: nat, noFat: bool)

  /** FAT entries, bitmap bits and the object's entry. */
  datatype Vol = Vol(fat: seq<nat>, bits: seq<bool>, entry: Entry)

  const EOC: nat := 0xFFFF_FFFF
  const CHAIN_END: nat := 0xFFFF_FFF8

  // ---- Chains --------------------------------------------------------------------------------

  /** `count` clusters from `c` along the table; a loop or an early end is an error. */
  function Follow(fat: seq<nat>, c: nat, count: nat, seen: set<nat>): (r: Result<seq<nat>>)
    requires count >= 1
    ensures r.Ok? ==> |r.value| == count && r.value[0] == c
    decreases count
  {
    if c < 2 || c >= CHAIN_END || c in seen then Error
    else if count == 1 then Ok([c])
    else if c >= |fat| then Error
    else
      match Follow(fat, fat[c], count - 1, seen + {c})
      case Error => Error
      case Ok(rest) => Ok([c] + rest)
  }

  function RunFrom(first: nat, count: nat): (r: seq<nat>)
    ensures |r| == count && forall k | 0 <= k < count :: r[k] == first + k
  {
    seq(count, k requires 0 <= k < count => first + k)
  }

  /** Volume.chain for an entry with `count` clusters. */
  function Chain(v: Vol, count: nat): Result<seq<nat>>
    requires count >= 1
  {
    if v.entry.first == 0 then Ok([])
    else if v.entry.noFat then Ok(RunFrom(v.entry.first, count))
    else Follow(v.fat, v.entry.first, count, {})
  }

  function After(front: seq<nat>, r: Result<seq<nat>>): Result<seq<nat>> {
    match r case Error => Error case Ok(rest) => Ok(front + rest)
  }

  lemma AfterStep(front: seq<nat>, fat: seq<nat>, c: nat, count: nat, seen: set<nat>)
    requires count >= 2 && 2 <= c < CHAIN_END && c !in seen && c < |fat|
    ensures After(front, Follow(fat, c, count, seen)) == After(front + [c], Follow(fat, fat[c], count - 1, seen + {c}))
  {
    var rest := Follow(fat, fat[c], count - 1, seen + {c});
    if rest.Ok? { assert front + ([c] + rest.value) == (front + [c]) + rest.value; }
  }

  /** Volume.chain's loop. */
  method FollowChain(fat: seq<nat>, first: nat, count: nat) returns (r: Result<seq<nat>>)
    requires count >= 1
    ensures r == Follow(fat, first, count, {})
  {
    var out: seq<nat>, seen: set<nat>, c: nat := [], {}, first;
    ghost var whole := Follow(fat, first, count, {});
    if whole.Ok? { assert [] + whole.value == whole.value; }
    while 2 <= c < CHAIN_END
      invariant |out| < count && whole == After(out, Follow(fat, c, count - |out|, seen))
      decreases count - |out|
    {
      if c in seen { return Error; }
      if |out| + 1 >= count { return Ok(out + [c]); }
      if c >= |fat| { return Error; }
      AfterStep(out, fat, c, count - |out|, seen);
      seen, out, c := seen + {c}, out + [c], fat[c];
    }
    r := Error;
  }

  ghost predicate Linked(fat: seq<nat>, chain: seq<nat>) {
    forall i | 0 <= i < |chain| - 1 :: chain[i] < |fat| && fat[chain[i]] == chain[i + 1]
  }

  ghost predicate Proper(chain: seq<nat>) {
    chain != [] && Distinct(chain) && forall i | 0 <= i < |chain| :: 2 <= chain[i] < CHAIN_END
  }

  lemma {:induction false} FollowsLinks(fat: seq<nat>, chain: seq<nat>, seen: set<nat>)
    requires Proper(chain) && Linked(fat, chain) && forall i | 0 <= i < |chain| :: chain[i] !in seen
    ensures Follow(fat, chain[0], |chain|, seen) == Ok(chain)
    decreases |chain|
  {
    if |chain| > 1 {
      var rest := chain[1..];
      forall i | 0 <= i < |rest| ensures rest[i] !in seen + {chain[0]} { assert rest[i] == chain[i + 1]; }
      FollowsLinks(fat, rest, seen + {chain[0]});
      assert chain == [chain[0]] + rest;
    } else {
      assert chain == [chain[0]];
    }
  }

  /** What a followed chain establishes. */
  lemma {:induction false} FollowGives(fat: seq<nat>, c: nat, count: nat, seen: set<nat>)
    requires count >= 1 && Follow(fat, c, count, seen).Ok?
    ensures var chain := Follow(fat, c, count, seen).value;
            Proper(chain) && Linked(fat, chain) && forall i | 0 <= i < |chain| :: chain[i] !in seen
    decreases count
  {
    if count > 1 {
      FollowGives(fat, fat[c], count - 1, seen + {c});
      var rest := Follow(fat, fat[c], count - 1, seen + {c}).value;
      var chain := [c] + rest;
      forall i | 0 <= i < |chain| - 1 ensures chain[i] < |fat| && fat[chain[i]] == chain[i + 1] {
        if i > 0 { assert chain[i] == rest[i - 1] && chain[i + 1] == rest[i]; }
      }
    }
  }

  // ---- To the end mark ----------------------------------------------------------------------------

  /** The entries of the table not yet seen. */
  function Unseen(n: nat, seen: set<nat>): set<nat> { Range(0, n) - seen }

  lemma OneLess(n: nat, seen: set<nat>, c: nat)
    requires c < n && c !in seen
    ensures |Unseen(n, seen + {c})| < |Unseen(n, seen)|
  {
    assert Between(0, c, n);
    assert Unseen(n, seen + {c}) == Unseen(n, seen) - {c};
  }

  /** Volume.chain without a count: along the table until an entry is no cluster number. */
  function Walk(fat: seq<nat>, c: nat, seen: set<nat>): (r: Result<seq<nat>>)
    decreases |Unseen(|fat|, seen)|
  {
    if c < 2 || c >= CHAIN_END then Ok([])
    else if c in seen || c >= |fat| then Error
    else
      OneLess(|fat|, seen, c);
      After([c], Walk(fat, fat[c], seen + {c}))
  }

  method WalkChain(fat: seq<nat>, first: nat) returns (r: Result<seq<nat>>)
    ensures r == Walk(fat, first, {})
  {
    var out: seq<nat>, seen: set<nat>, c: nat := [], {}, first;
    ghost var whole := Walk(fat, first, {});
    if whole.Ok? { assert [] + whole.value == whole.value; }
    while 2 <= c < CHAIN_END
      invariant whole == After(out, Walk(fat, c, seen))
      decreases |Unseen(|fat|, seen)|
    {
      if c in seen || c >= |fat| { return Error; }
      OneLess(|fat|, seen, c);
      WalkStep(out, fat, c, seen);
      seen, out, c := seen + {c}, out + [c], fat[c];
    }
    assert out + [] == out;
    r := Ok(out);
  }

  lemma WalkStep(front: seq<nat>, fat: seq<nat>, c: nat, seen: set<nat>)
    requires 2 <= c < CHAIN_END && c !in seen && c < |fat|
    ensures After(front, Walk(fat, c, seen)) == After(front + [c], Walk(fat, fat[c], seen + {c}))
  {
    var rest := Walk(fat, fat[c], seen + {c});
    if rest.Ok? { assert front + ([c] + rest.value) == (front + [c]) + rest.value; }
  }

  lemma WalkStops(fat: seq<nat>, c: nat, seen: set<nat>)
    ensures Walk(fat, c, seen) == Ok([]) <==> !(2 <= c < 0xFFFF_FFF8)
  {
  }

  /** The walk gives exactly the linked clusters if and only if the entry of the last one is no cluster number. */
  lemma {:induction false} WalkEnds(fat: seq<nat>, chain: seq<nat>, seen: set<nat>)
    requires Proper(chain) && Linked(fat, chain) && forall i | 0 <= i < |chain| :: chain[i] !in seen
    requires chain[|chain| - 1] < |fat|
    ensures Walk(fat, chain[0], seen) == Ok(chain) <==> !(2 <= fat[chain[|chain| - 1]] < 0xFFFF_FFF8)
    decreases |chain|
  {
    var c := chain[0];
    if |chain| > 1 {
      var rest := chain[1..];
      forall i | 0 <= i < |rest| ensures rest[i] !in seen + {c} { assert rest[i] == chain[i + 1]; }
      WalkEnds(fat, rest, seen + {c});
      assert fat[c] == rest[0] && rest[|rest| - 1] == chain[|chain| - 1];
      AfterOne(chain, Walk(fat, rest[0], seen + {c}));
    } else {
      WalkStops(fat, fat[c], seen + {c});
      assert chain[1..] == [];
      AfterOne(chain, Walk(fat, fat[c], seen + {c}));
    }
  }

  lemma AfterOne(chain: seq<nat>, r: Result<seq<nat>>)
    requires chain != []
    ensures After([chain[0]], r) == Ok(chain) <==> r == Ok(chain[1..])
  {
    if r.Ok? {
      var whole := [chain[0]] + r.value;
      assert whole[1..] == r.value;
      assert [chain[0]] + chain[1..] == chain;
    }
  }

  // ---- The move --------------------------------------------------------------------------------

  /** The journal of one tail move (schema 2). */
  datatype Journal = Journal(oldChain: seq<nat>, index: nat, destination: nat, oldNoFat: bool, fatBefore: map<nat, nat>,
                             destinationBit: bool, sourceBit: bool)

  function NewChain(j: Journal): seq<nat>
    requires j.index < |j.oldChain|
  {
    j.oldChain[j.index := j.destination]
  }

  function Source(j: Journal): nat
    requires j.index < |j.oldChain|
  {
    j.oldChain[j.index]
  }

  /** The move switches the entry, or one link. */
  predicate SwitchesEntry(j: Journal) { j.oldNoFat || j.index == 0 }

  function Touched(j: Journal): set<nat> {
    (set c | c in j.oldChain) + {j.destination}
  }

  /** A consistent object, a free lower destination, and the journal written for them. */
  ghost predicate Ready(v: Vol, j: Journal) {
    && |v.fat| == |v.bits| && |v.fat| < CHAIN_END && j.index < |j.oldChain| && Proper(j.oldChain)
    && (forall i | 0 <= i < |j.oldChain| :: j.oldChain[i] < |v.fat| && v.bits[j.oldChain[i]])
    && 2 <= j.destination < Source(j) && !v.bits[j.destination]
    && Chain(v, |j.oldChain|) == Ok(j.oldChain) && v.entry.first != 0 && j.oldNoFat == v.entry.noFat
    && j.fatBefore.Keys == Touched(j) && (forall c | c in j.fatBefore :: c < |v.fat| && j.fatBefore[c] == v.fat[c])
    && j.destinationBit == v.bits[j.destination] && j.sourceBit == v.bits[Source(j)]
  }

  /** fat with every cluster of `chain[..n]` linked to the next, the last to the end mark. */
  function LinkUp(fat: seq<nat>, chain: seq<nat>, n: nat): (r: seq<nat>)
    requires n <= |chain| && forall i | 0 <= i < |chain| :: chain[i] < |fat|
    ensures |r| == |fat|
  {
    if n == 0 then fat
    else LinkUp(fat, chain, n - 1)[chain[n - 1] := if n < |chain| then chain[n] else EOC]
  }

  function MarkUsed(bits: seq<bool>, chain: seq<nat>, n: nat): (r: seq<bool>)
    requires n <= |chain| && forall i | 0 <= i < |chain| :: chain[i] < |bits|
    ensures |r| == |bits|
  {
    if n == 0 then bits else MarkUsed(bits, chain, n - 1)[chain[n - 1] := true]
  }

  lemma {:induction false} LinkUpAt(fat: seq<nat>, chain: seq<nat>, n: nat)
    requires n <= |chain| && Distinct(chain) && forall i | 0 <= i < |chain| :: chain[i] < |fat|
    ensures forall i | 0 <= i < n :: LinkUp(fat, chain, n)[chain[i]] == if i + 1 < |chain| then chain[i + 1] else EOC
    ensures forall c | 0 <= c < |fat| && c !in chain[..n] :: LinkUp(fat, chain, n)[c] == fat[c]
  {
    if n > 0 {
      LinkUpAt(fat, chain, n - 1);
      assert chain[..n] == chain[..n - 1] + [chain[n - 1]];
      var rest, r := LinkUp(fat, chain, n - 1), LinkUp(fat, chain, n);
      forall i | 0 <= i < n ensures r[chain[i]] == if i + 1 < |chain| then chain[i + 1] else EOC {
        if i < n - 1 { assert chain[i] != chain[n - 1] && r[chain[i]] == rest[chain[i]]; }
      }
    }
  }

  lemma {:induction false} MarkUsedAt(bits: seq<bool>, chain: seq<nat>, n: nat)
    requires n <= |chain| && forall i | 0 <= i < |chain| :: chain[i] < |bits|
    ensures forall c | 0 <= c < |bits| :: MarkUsed(bits, chain, n)[c] == (bits[c] || c in chain[..n])
  {
    if n > 0 {
      MarkUsedAt(bits, chain, n - 1);
      assert chain[..n] == chain[..n - 1] + [chain[n - 1]];
    }
  }

  ghost predicate Bounded(v: Vol, j: Journal) {
    && j.index < |j.oldChain| && |v.fat| == |v.bits| && j.destination < |v.fat|
    && forall i | 0 <= i < |j.oldChain| :: j.oldChain[i] < |v.fat|
  }

  /** Destination ready: the whole chain for a contiguous stream, else one entry. */
  function Prepared(v: Vol, j: Journal): Vol
    requires Bounded(v, j)
  {
    var chain := NewChain(j);
    if j.oldNoFat then v.(fat := LinkUp(v.fat, chain, |chain|), bits := MarkUsed(v.bits, chain, |chain|))
    else v.(fat := v.fat[j.destination := if j.index + 1 < |chain| then chain[j.index + 1] else EOC],
            bits := v.bits[j.destination := true])
  }

  function Switched(v: Vol, j: Journal): Vol
    requires Bounded(v, j)
  {
    var p := Prepared(v, j);
    if SwitchesEntry(j) then p.(entry := Entry(NewChain(j)[0], false))
    else p.(fat := p.fat[NewChain(j)[j.index - 1] := j.destination])
  }

  function Released(v: Vol, j: Journal): Vol
    requires Bounded(v, j)
  {
    var s := Switched(v, j);
    s.(fat := s.fat[Source(j) := 0], bits := s.bits[Source(j) := false])
  }

  // ---- Recovery ----------------------------------------------------------------------------------

  ghost predicate Comparable(v: Vol, j: Journal) {
    Bounded(v, j) && j.oldChain != [] && forall c | c in j.fatBefore :: c < |v.fat|
  }

  function Restore(fat: seq<nat>, before: map<nat, nat>): (r: seq<nat>)
    ensures |r| == |fat| && forall c | 0 <= c < |fat| :: r[c] == if c in before then before[c] else fat[c]
  {
    seq(|fat|, c requires 0 <= c < |fat| => if c in before then before[c] else fat[c])
  }

  /** recover, schema 2: forward when the entry reads as the new chain, back when it
      reads as the old one, otherwise an error. */
  function Recover(v: Vol, j: Journal): Result<Vol>
    requires Comparable(v, j)
  {
    var chain := NewChain(j);
    var read := Chain(v, |j.oldChain|);
    if read == Ok(chain) && !v.entry.noFat then
      Ok(v.(fat := LinkUp(v.fat, chain, |chain|)[Source(j) := 0],
            bits := MarkUsed(v.bits, chain, |chain|)[Source(j) := false]))
    else if read == Ok(j.oldChain) && v.entry.noFat == j.oldNoFat then
      Ok(v.(fat := Restore(v.fat, j.fatBefore),
            bits := v.bits[j.destination := j.destinationBit][Source(j) := j.sourceBit]))
    else Error
  }

  // ---- Both sides of the commit point --------------------------------------------------------------

  /** Before the switch: only what rollback restores may differ, and the entry still
      reads as the old chain. */
  ghost predicate OldSide(v0: Vol, j: Journal, x: Vol) {
    && Bounded(x, j) && |x.fat| == |v0.fat| == |v0.bits| && x.entry == v0.entry
    && (forall c | 0 <= c < |v0.fat| && c !in Touched(j) :: x.fat[c] == v0.fat[c])
    && (!j.oldNoFat ==> forall i | 0 <= i < |j.oldChain| :: x.fat[j.oldChain[i]] == v0.fat[j.oldChain[i]])
    && (forall c | 0 <= c < |v0.bits| && c != j.destination :: x.bits[c] == v0.bits[c])
  }

  /** After it: the new chain is linked, only the released cluster may still differ. */
  ghost predicate NewSide(v0: Vol, j: Journal, x: Vol) {
    && Bounded(x, j) && |x.fat| == |v0.fat| == |v0.bits| && Linked(x.fat, NewChain(j))
    && x.entry == (if SwitchesEntry(j) then Entry(NewChain(j)[0], false) else v0.entry)
    && (forall c | 0 <= c < |v0.fat| && c !in Touched(j) :: x.fat[c] == v0.fat[c])
    && (forall c | 0 <= c < |v0.bits| && c != j.destination && c != Source(j) :: x.bits[c] == v0.bits[c])
  }

  lemma NewChainFacts(v: Vol, j: Journal)
    requires Ready(v, j)
    ensures Bounded(v, j) && Proper(NewChain(j)) && NewChain(j) != j.oldChain && Source(j) !in NewChain(j)
    ensures forall i | 0 <= i < |NewChain(j)| :: NewChain(j)[i] < |v.fat| && NewChain(j)[i] in Touched(j)
    ensures j.destination !in j.oldChain
  {
    forall i | 0 <= i < |j.oldChain| ensures j.oldChain[i] != j.destination {
      assert v.bits[j.oldChain[i]];
    }
  }

  lemma OldSideReads(v0: Vol, j: Journal, x: Vol)
    requires Ready(v0, j) && OldSide(v0, j, x)
    ensures Chain(x, |j.oldChain|) == Ok(j.oldChain)
  {
    if !j.oldNoFat {
      FollowGives(v0.fat, v0.entry.first, |j.oldChain|, {});
      FollowsLinks(x.fat, j.oldChain, {});
    }
  }

  lemma NewSideReads(v0: Vol, j: Journal, x: Vol)
    requires Ready(v0, j) && NewSide(v0, j, x)
    ensures Chain(x, |j.oldChain|) == Ok(NewChain(j)) && !x.entry.noFat
  {
    NewChainFacts(v0, j);
    FollowsLinks(x.fat, NewChain(j), {});
    if !SwitchesEntry(j) {
      assert NewChain(j)[0] == j.oldChain[0];
      FollowGives(v0.fat, v0.entry.first, |j.oldChain|, {});
    }
  }

  /** The fully moved object, with the chain closed by the end mark. */
  function Moved(v0: Vol, j: Journal): Vol
    requires Bounded(v0, j)
  {
    var chain := NewChain(j);
    Vol(LinkUp(v0.fat, chain, |chain|)[Source(j) := 0], v0.bits[j.destination := true][Source(j) := false],
        if SwitchesEntry(j) then Entry(chain[0], false) else v0.entry)
  }

  /** Rollback gives back the volume exactly. */
  lemma RollsBack(v0: Vol, j: Journal, x: Vol)
    requires Ready(v0, j) && OldSide(v0, j, x)
    ensures Comparable(x, j) && Recover(x, j) == Ok(v0)
  {
    NewChainFacts(v0, j);
    OldSideReads(v0, j, x);
    var r := Recover(x, j).value;
    assert r.fat == v0.fat;
    assert r.bits == v0.bits;
  }

  /** Completion gives the moved volume exactly. */
  lemma RollsForward(v0: Vol, j: Journal, x: Vol)
    requires Ready(v0, j) && NewSide(v0, j, x)
    ensures Comparable(x, j) && Bounded(v0, j) && Recover(x, j) == Ok(Moved(v0, j))
  {
    NewChainFacts(v0, j);
    NewSideReads(v0, j, x);
    var chain, r, m := NewChain(j), Recover(x, j).value, Moved(v0, j);
    ForwardFat(v0, j, x);
    ForwardBits(v0, j, x);
  }

  lemma ForwardFat(v0: Vol, j: Journal, x: Vol)
    requires Ready(v0, j) && NewSide(v0, j, x) && Bounded(v0, j)
    ensures var chain := NewChain(j);
            LinkUp(x.fat, chain, |chain|)[Source(j) := 0] == LinkUp(v0.fat, chain, |chain|)[Source(j) := 0]
  {
    NewChainFacts(v0, j);
    hide Ready, LinkUp, Linked;
    SameLinkUp(v0.fat, x.fat, j);
  }

  lemma SameLinkUp(a: seq<nat>, b: seq<nat>, j: Journal)
    requires |a| == |b| && j.index < |j.oldChain| && Distinct(NewChain(j)) && Source(j) < |a|
    requires forall i | 0 <= i < |NewChain(j)| :: NewChain(j)[i] < |a|
    requires forall c | 0 <= c < |a| && c !in Touched(j) :: a[c] == b[c]
    ensures LinkUp(b, NewChain(j), |NewChain(j)|)[Source(j) := 0] ==
      LinkUp(a, NewChain(j), |NewChain(j)|)[Source(j) := 0]
  {
    var chain := NewChain(j);
    hide LinkUp, Touched, Distinct;
    assert chain[..|chain|] == chain;
    var x, y := LinkUp(a, chain, |chain|), LinkUp(b, chain, |chain|);
    forall c | 0 <= c < |a| && c != Source(j) ensures x[c] == y[c] {
      if c !in chain && c in Touched(j) { OnlySourceLeft(j, c); }
      LinkUpAgrees(a, b, chain, |chain|, c);
    }
  }

  lemma {:induction false} LinkUpAgrees(a: seq<nat>, b: seq<nat>, chain: seq<nat>, n: nat, c: nat)
    requires |a| == |b| && n <= |chain| && c < |a| && forall i | 0 <= i < |chain| :: chain[i] < |a|
    requires a[c] == b[c] || c in chain[..n]
    ensures LinkUp(a, chain, n)[c] == LinkUp(b, chain, n)[c]
  {
    if n > 0 && c != chain[n - 1] {
      assert chain[..n] == chain[..n - 1] + [chain[n - 1]];
      LinkUpAgrees(a, b, chain, n - 1, c);
    }
  }

  lemma OnlySourceLeft(j: Journal, c: nat)
    requires j.index < |j.oldChain| && c !in NewChain(j) && c in Touched(j)
    ensures c == Source(j)
  {
    assert NewChain(j)[j.index] == j.destination;
    assert forall i | 0 <= i < |j.oldChain| && i != j.index :: NewChain(j)[i] == j.oldChain[i];
  }

  lemma ForwardBits(v0: Vol, j: Journal, x: Vol)
    requires Ready(v0, j) && NewSide(v0, j, x) && Bounded(v0, j)
    ensures var chain := NewChain(j);
            MarkUsed(x.bits, chain, |chain|)[Source(j) := false] == v0.bits[j.destination := true][Source(j) := false]
  {
    hide Chain, LinkUp, MarkUsed, Linked, Proper;
    NewChainFacts(v0, j);
    var chain := NewChain(j);
    MarkUsedAt(x.bits, chain, |chain|);
    assert chain[..|chain|] == chain && chain[j.index] == j.destination;
    var a, b := MarkUsed(x.bits, chain, |chain|), v0.bits[j.destination := true];
    forall c | 0 <= c < |a| && c != Source(j) ensures a[c] == b[c] {
      if c in chain && c != j.destination {
        var i :| 0 <= i < |chain| && chain[i] == c;
        assert chain[i] == j.oldChain[i];
      }
    }
  }

  // ---- Crash points ----------------------------------------------------------------------------------

  /** Each table entry and bit, and the entry set, comes from one of the two volumes. */
  ghost predicate TornVolume(a: Vol, b: Vol, x: Vol) {
    && |x.fat| == |a.fat| == |b.fat| && |x.bits| == |a.bits| == |b.bits|
    && (forall c | 0 <= c < |x.fat| :: x.fat[c] == a.fat[c] || x.fat[c] == b.fat[c])
    && (forall c | 0 <= c < |x.bits| :: x.bits[c] == a.bits[c] || x.bits[c] == b.bits[c])
    && (x.entry == a.entry || x.entry == b.entry)
  }

  ghost predicate Interrupted(v0: Vol, j: Journal, x: Vol) {
    && Bounded(v0, j)
    && (TornVolume(v0, Prepared(v0, j), x) || TornVolume(Prepared(v0, j), Switched(v0, j), x) ||
        TornVolume(Switched(v0, j), Released(v0, j), x))
  }

  lemma OldSideTorn(v0: Vol, j: Journal, a: Vol, b: Vol, x: Vol)
    requires OldSide(v0, j, a) && OldSide(v0, j, b) && TornVolume(a, b, x)
    ensures OldSide(v0, j, x)
  {
  }

  lemma NewSideTorn(v0: Vol, j: Journal, a: Vol, b: Vol, x: Vol)
    requires Ready(v0, j) && NewSide(v0, j, a) && NewSide(v0, j, b) && TornVolume(a, b, x)
    ensures NewSide(v0, j, x)
  {
    NewChainFacts(v0, j);
    var chain := NewChain(j);
    forall i | 0 <= i < |chain| - 1 ensures chain[i] < |x.fat| && x.fat[chain[i]] == chain[i + 1] {
      assert a.fat[chain[i]] == chain[i + 1] && b.fat[chain[i]] == chain[i + 1];
    }
  }

  lemma StartIsOld(v0: Vol, j: Journal)
    requires Ready(v0, j)
    ensures OldSide(v0, j, v0)
  {
    NewChainFacts(v0, j);
  }

  lemma PreparedIsOld(v0: Vol, j: Journal)
    requires Ready(v0, j)
    ensures Bounded(v0, j) && OldSide(v0, j, Prepared(v0, j))
  {
    NewChainFacts(v0, j);
    if j.oldNoFat {
      WholeChainPrepared(v0, j);
    } else {
      hide Chain, LinkUp, MarkUsed, Proper;
      var p := Prepared(v0, j);
      assert forall i | 0 <= i < |j.oldChain| :: j.oldChain[i] != j.destination;
    }
  }

  lemma WholeChainPrepared(v0: Vol, j: Journal)
    requires Ready(v0, j) && Bounded(v0, j) && j.oldNoFat
    ensures OldSide(v0, j, Prepared(v0, j))
  {
    NewChainFacts(v0, j);
    var chain := NewChain(j);
    WholeFat(v0, j);
    WholeBits(v0, j);
    hide Ready, LinkUp, MarkUsed, Touched, Proper, NewChain;
    var p := Prepared(v0, j);
  }

  lemma WholeFat(v0: Vol, j: Journal)
    requires Ready(v0, j) && Bounded(v0, j)
    ensures forall c | 0 <= c < |v0.fat| && c !in Touched(j) ::
      LinkUp(v0.fat, NewChain(j), |NewChain(j)|)[c] == v0.fat[c]
  {
    NewChainFacts(v0, j);
    var chain := NewChain(j);
    hide Ready, LinkUp, Touched;
    LinkUpAt(v0.fat, chain, |chain|);
    assert chain[..|chain|] == chain;
  }

  lemma WholeBits(v0: Vol, j: Journal)
    requires Ready(v0, j) && Bounded(v0, j)
    ensures forall c | 0 <= c < |v0.bits| && c != j.destination ::
      MarkUsed(v0.bits, NewChain(j), |NewChain(j)|)[c] == v0.bits[c]
  {
    NewChainFacts(v0, j);
    var chain := NewChain(j);
    assert forall i | 0 <= i < |j.oldChain| :: v0.bits[j.oldChain[i]];
    hide Ready, MarkUsed;
    MarkUsedAt(v0.bits, chain, |chain|);
    assert chain[..|chain|] == chain;
    forall c | 0 <= c < |v0.bits| && c != j.destination && c in chain ensures v0.bits[c] {
      var i :| 0 <= i < |chain| && chain[i] == c;
      assert chain[i] == j.oldChain[i];
    }
  }

  lemma SwitchedIsNew(v0: Vol, j: Journal)
    requires Ready(v0, j)
    ensures Bounded(v0, j) && NewSide(v0, j, Switched(v0, j))
  {
    NewChainFacts(v0, j);
    PreparedIsOld(v0, j);
    SwitchedLinks(v0, j);
    if !SwitchesEntry(j) { assert NewChain(j)[j.index - 1] == j.oldChain[j.index - 1]; }
  }

  lemma SwitchedLinks(v0: Vol, j: Journal)
    requires Ready(v0, j) && Bounded(v0, j)
    ensures Linked(Switched(v0, j).fat, NewChain(j))
  {
    NewChainFacts(v0, j);
    var chain := NewChain(j);
    if j.oldNoFat {
      hide Ready, LinkUp, MarkUsed;
      LinkUpAt(v0.fat, chain, |chain|);
    } else {
      FollowGives(v0.fat, v0.entry.first, |j.oldChain|, {});
      LinkedBySwitch(v0, j, Switched(v0, j).fat);
    }
  }

  lemma LinkedBySwitch(v0: Vol, j: Journal, fat: seq<nat>)
    requires j.index < |j.oldChain| && Linked(v0.fat, j.oldChain) && Distinct(j.oldChain) && j.destination < |v0.fat|
    requires j.destination !in j.oldChain
    requires forall i | 0 <= i < |j.oldChain| :: j.oldChain[i] < |v0.fat|
    requires var chain := NewChain(j);
             var linked := v0.fat[j.destination := if j.index + 1 < |chain| then chain[j.index + 1] else EOC];
             fat == if j.index == 0 then linked else linked[chain[j.index - 1] := j.destination]
    ensures Linked(fat, NewChain(j))
  {
    var chain := NewChain(j);
    forall i | 0 <= i < |chain| - 1 ensures chain[i] < |fat| && fat[chain[i]] == chain[i + 1] {
      if i != j.index && i + 1 != j.index {
        assert chain[i] == j.oldChain[i] && chain[i + 1] == j.oldChain[i + 1];
      }
    }
  }

  lemma ReleasedIsNew(v0: Vol, j: Journal)
    requires Ready(v0, j)
    ensures Bounded(v0, j) && NewSide(v0, j, Released(v0, j))
  {
    NewChainFacts(v0, j);
    SwitchedIsNew(v0, j);
    hide Switched, Ready, Proper, Linked;
    KeepsLinks(Switched(v0, j).fat, NewChain(j), Source(j));
    ReleaseStays(v0, j, Switched(v0, j));
  }

  lemma ReleaseStays(v0: Vol, j: Journal, s: Vol)
    requires Bounded(v0, j) && NewSide(v0, j, s) && Linked(s.fat[Source(j) := 0], NewChain(j))
    ensures NewSide(v0, j, s.(fat := s.fat[Source(j) := 0], bits := s.bits[Source(j) := false]))
  {
    hide Linked, NewChain;
    assert Source(j) in Touched(j);
  }

  lemma KeepsLinks(fat: seq<nat>, chain: seq<nat>, c: nat)
    requires Linked(fat, chain) && c !in chain && c < |fat|
    ensures Linked(fat[c := 0], chain)
  {
  }

  /** The switch is one write: an entry set, or a single table entry. */
  lemma SwitchIsAtomic(v0: Vol, j: Journal, x: Vol)
    requires Ready(v0, j) && Bounded(v0, j) && TornVolume(Prepared(v0, j), Switched(v0, j), x)
    ensures x == Prepared(v0, j) || x == Switched(v0, j)
  {
    NewChainFacts(v0, j);
    hide Chain, LinkUp, MarkUsed;
    var p, s := Prepared(v0, j), Switched(v0, j);
    assert x.bits == p.bits;
    if SwitchesEntry(j) {
      assert x.fat == p.fat;
    } else {
      var k := NewChain(j)[j.index - 1];
      if x.fat[k] == p.fat[k] { assert x.fat == p.fat; } else { assert x.fat == s.fat; }
    }
  }

  /** A power failure leaves the volume on one side of the commit point. */
  lemma InterruptedSides(v0: Vol, j: Journal, x: Vol)
    requires Ready(v0, j) && Interrupted(v0, j, x)
    ensures OldSide(v0, j, x) || NewSide(v0, j, x)
  {
    StartIsOld(v0, j);
    PreparedIsOld(v0, j);
    SwitchedIsNew(v0, j);
    ReleasedIsNew(v0, j);
    hide Prepared, Switched, Released, OldSide, NewSide, TornVolume, Ready;
    if TornVolume(v0, Prepared(v0, j), x) {
      OldSideTorn(v0, j, v0, Prepared(v0, j), x);
    } else if TornVolume(Prepared(v0, j), Switched(v0, j), x) {
      SwitchIsAtomic(v0, j, x);
    } else {
      NewSideTorn(v0, j, Switched(v0, j), Released(v0, j), x);
    }
  }

  ghost predicate Attempts(j: Journal, xs: seq<Vol>) {
    && xs != [] && (forall i | 0 <= i < |xs| :: Comparable(xs[i], j))
    && forall i | 0 <= i < |xs| - 1 :: Recover(xs[i], j).Ok? && TornVolume(xs[i], Recover(xs[i], j).value, xs[i + 1])
  }

  lemma MovedIsNew(v0: Vol, j: Journal)
    requires Ready(v0, j)
    ensures Bounded(v0, j) && NewSide(v0, j, Moved(v0, j))
  {
    hide Chain, LinkUp, MarkUsed, Proper;
    NewChainFacts(v0, j);
    var chain, m := NewChain(j), Moved(v0, j);
    LinkUpAt(v0.fat, chain, |chain|);
    assert chain[..|chain|] == chain;
    forall i | 0 <= i < |chain| - 1 ensures m.fat[chain[i]] == chain[i + 1] { assert chain[i] != Source(j); }
    assert Source(j) in Touched(j);
  }

  lemma {:induction false} AttemptsStay(v0: Vol, j: Journal, xs: seq<Vol>, i: nat)
    requires Ready(v0, j) && Attempts(j, xs) && i < |xs|
    ensures OldSide(v0, j, xs[0]) ==> OldSide(v0, j, xs[i])
    ensures NewSide(v0, j, xs[0]) ==> NewSide(v0, j, xs[i])
  {
    hide OldSide, NewSide, TornVolume, Ready, Recover, Comparable;
    if i > 0 {
      AttemptsStay(v0, j, xs, i - 1);
      var x := xs[i - 1];
      if OldSide(v0, j, xs[0]) {
        RollsBack(v0, j, x);
        StartIsOld(v0, j);
        OldSideTorn(v0, j, x, v0, xs[i]);
      }
      if NewSide(v0, j, xs[0]) {
        RollsForward(v0, j, x);
        MovedIsNew(v0, j);
        NewSideTorn(v0, j, x, Moved(v0, j), xs[i]);
      }
    }
  }

  /** After a power failure anywhere in the move and any number of them in recovery,
      recovery never gives up and ends in exactly the old or exactly the moved volume. */
  lemma TailMoveIsAtomic(v0: Vol, j: Journal, xs: seq<Vol>, i: nat)
    requires Ready(v0, j) && Attempts(j, xs) && Interrupted(v0, j, xs[0]) && i < |xs|
    ensures Bounded(v0, j) && (Recover(xs[i], j) == Ok(v0) || Recover(xs[i], j) == Ok(Moved(v0, j)))
    ensures OldSide(v0, j, xs[0]) ==> Recover(xs[i], j) == Ok(v0)
    ensures NewSide(v0, j, xs[0]) ==> Recover(xs[i], j) == Ok(Moved(v0, j))
  {
    hide OldSide, NewSide, TornVolume, Ready, Recover;
    InterruptedSides(v0, j, xs[0]);
    AttemptsStay(v0, j, xs, i);
    if OldSide(v0, j, xs[0]) { RollsBack(v0, j, xs[i]); }
    if NewSide(v0, j, xs[0]) { RollsForward(v0, j, xs[i]); }
  }

  // ---- What the moved volume holds -----------------------------------------------------------------

  /** The entry of the last cluster: the end mark when the move wrote it, else what it was. */
  lemma EndMark(v0: Vol, j: Journal)
    requires Ready(v0, j)
    ensures Bounded(v0, j)
    ensures var last: nat := NewChain(j)[|j.oldChain| - 1];
            && Moved(v0, j).fat[last] == 0xFFFF_FFFF
            && Released(v0, j).fat[last] ==
               if j.oldNoFat || j.index + 1 == |j.oldChain| then 0xFFFF_FFFF else v0.fat[last]
  {
    NewChainFacts(v0, j);
    LinkUpAt(v0.fat, NewChain(j), |j.oldChain|);
    LastApart(j);
    hide LinkUp, MarkUsed, Ready, Proper, Touched;
  }

  lemma LastApart(j: Journal)
    requires j.index < |j.oldChain| && Proper(NewChain(j)) && Source(j) !in NewChain(j)
    ensures var last := NewChain(j)[|j.oldChain| - 1];
            && last != Source(j) && (j.index + 1 < |j.oldChain| ==> last != j.destination)
            && (j.index > 0 ==> last != NewChain(j)[j.index - 1])
  {
    var chain := NewChain(j);
    assert chain[|chain| - 1] in chain && chain[j.index] == j.destination;
  }

  /** Without a count the moved object reads as the new chain: always after recovery, and after the move exactly when
      the move wrote the end mark or the entry of the last cluster ended the chain before. */
  lemma WalkMoved(v0: Vol, j: Journal)
    requires Ready(v0, j)
    ensures Bounded(v0, j)
    ensures Walk(Moved(v0, j).fat, Moved(v0, j).entry.first, {}) == Ok(NewChain(j))
    ensures Walk(Released(v0, j).fat, Released(v0, j).entry.first, {}) == Ok(NewChain(j)) <==>
            (j.oldNoFat || j.index + 1 == |j.oldChain| || !(2 <= v0.fat[NewChain(j)[|j.oldChain| - 1]] < 0xFFFF_FFF8))
  {
    hide Walk, Ready, NewSide, Moved, Released;
    EndMark(v0, j);
    MovedIsNew(v0, j);
    ReleasedIsNew(v0, j);
    WalkSide(v0, j, Moved(v0, j));
    WalkSide(v0, j, Released(v0, j));
  }

  lemma WalkSide(v0: Vol, j: Journal, x: Vol)
    requires Ready(v0, j) && NewSide(v0, j, x)
    ensures |x.fat| == |v0.fat| && NewChain(j)[|j.oldChain| - 1] < |x.fat|
    ensures Walk(x.fat, x.entry.first, {}) == Ok(NewChain(j)) <==>
            !(2 <= x.fat[NewChain(j)[|j.oldChain| - 1]] < 0xFFFF_FFF8)
  {
    NewChainFacts(v0, j);
    StartsNew(v0, j, x);
    hide Walk, Ready, Proper, Touched;
    WalkEnds(x.fat, NewChain(j), {});
  }

  lemma StartsNew(v0: Vol, j: Journal, x: Vol)
    requires Ready(v0, j) && NewSide(v0, j, x)
    ensures x.entry.first == NewChain(j)[0]
  {
    NewSideReads(v0, j, x);
    hide Ready, NewSide;
  }

  /** The moved volume, recovered or not, reads as the new chain, which is exactly
      allocated and ends with the end mark; the released cluster is free and unlinked. */
  lemma MovedMeans(v0: Vol, j: Journal)
    requires Ready(v0, j)
    ensures Bounded(v0, j)
    ensures Chain(Moved(v0, j), |j.oldChain|) == Ok(NewChain(j))
    ensures Chain(Released(v0, j), |j.oldChain|) == Ok(NewChain(j))
    ensures Moved(v0, j).bits == Released(v0, j).bits == v0.bits[j.destination := true][Source(j) := false]
    ensures forall i | 0 <= i < |NewChain(j)| :: NewChain(j)[i] < |v0.bits| && Moved(v0, j).bits[NewChain(j)[i]]
    ensures Moved(v0, j).fat[Source(j)] == 0 && Released(v0, j).fat[Source(j)] == 0
    ensures var last: nat := NewChain(j)[|j.oldChain| - 1];
            && Moved(v0, j).fat[last] == 0xFFFF_FFFF
            && Released(v0, j).fat[last] ==
               if j.oldNoFat || j.index + 1 == |j.oldChain| then 0xFFFF_FFFF else v0.fat[last]
    ensures Walk(Moved(v0, j).fat, Moved(v0, j).entry.first, {}) == Ok(NewChain(j))
    ensures Walk(Released(v0, j).fat, Released(v0, j).entry.first, {}) == Ok(NewChain(j)) <==>
            (j.oldNoFat || j.index + 1 == |j.oldChain| || !(2 <= v0.fat[NewChain(j)[|j.oldChain| - 1]] < 0xFFFF_FFF8))
  {
    NewChainFacts(v0, j);
    MovedIsNew(v0, j);
    ReleasedIsNew(v0, j);
    NewSideReads(v0, j, Moved(v0, j));
    NewSideReads(v0, j, Released(v0, j));
    SwitchedBits(v0, j);
    EndMark(v0, j);
    WalkMoved(v0, j);
    hide Chain, Prepared, LinkUp, MarkUsed, Proper, Walk;
    var chain := NewChain(j);
    assert Moved(v0, j).bits == Released(v0, j).bits;
    forall i | 0 <= i < |chain| ensures Moved(v0, j).bits[chain[i]] {
      assert chain[i] != Source(j);
      if i != j.index { assert chain[i] == j.oldChain[i]; }
    }
  }

  lemma SwitchedBits(v0: Vol, j: Journal)
    requires Ready(v0, j) && Bounded(v0, j)
    ensures Switched(v0, j).bits == v0.bits[j.destination := true]
  {
    NewChainFacts(v0, j);
    WholeBits(v0, j);
    var chain := NewChain(j);
    MarkUsedAt(v0.bits, chain, |chain|);
    hide Ready, LinkUp, MarkUsed;
    assert chain[..|chain|] == chain && chain[j.index] == j.destination;
    assert j.oldNoFat ==> MarkUsed(v0.bits, chain, |chain|) == v0.bits[j.destination := true];
  }

  /** The same blocks in the same order along two chains. */
  ghost predicate SameFile<T>(before: seq<T>, was: seq<nat>, after: seq<T>, now: seq<nat>) {
    && |now| == |was| && |after| == |before|
    && forall k | 0 <= k < |now| :: now[k] < |after| && was[k] < |after| && after[now[k]] == before[was[k]]
  }

  /** The data after the copy. */
  function Copied<T>(data: seq<T>, j: Journal): (r: seq<T>)
    requires j.index < |j.oldChain| && j.destination < |data| && Source(j) < |data|
    ensures |r| == |data|
  {
    data[j.destination := data[Source(j)]]
  }

  /** The blocks of the new chain are the blocks of the old one, which stays readable
      whatever the destination holds. */
  lemma ContentsMoved<T>(data: seq<T>, v0: Vol, j: Journal, torn: T)
    requires Ready(v0, j) && |data| == |v0.fat|
    ensures Bounded(v0, j) && SameFile(data, j.oldChain, Copied(data, j), NewChain(j))
    ensures SameFile(data, j.oldChain, data[j.destination := torn], j.oldChain)
  {
    NewChainFacts(v0, j);
  }

  /** Wherever the power fails, the volume recovery leaves reads as a chain with the object's blocks, closed by the end
      mark if it is the new one: on the copied data once the copy is synced, and before that with anything at all in
      the destination. */
  lemma RecoveryKeepsContents<T>(data: seq<T>, v0: Vol, j: Journal, xs: seq<Vol>, i: nat, torn: T)
    requires Ready(v0, j) && Attempts(j, xs) && Interrupted(v0, j, xs[0]) && i < |xs| && |data| == |v0.fat|
    ensures Bounded(v0, j) && Recover(xs[i], j).Ok?
    ensures var r := Chain(Recover(xs[i], j).value, |j.oldChain|);
      r.Ok? && SameFile(data, j.oldChain, Copied(data, j), r.value)
    ensures var x := Recover(xs[i], j).value;
      x == v0 || (|x.fat| == |v0.fat| && x.fat[NewChain(j)[|j.oldChain| - 1]] == 0xFFFF_FFFF &&
                  Walk(x.fat, x.entry.first, {}) == Ok(NewChain(j)))
    ensures xs[0] == v0 ==>
      Recover(xs[i], j) == Ok(v0) && SameFile(data, j.oldChain, data[j.destination := torn], j.oldChain)
  {
    TailMoveIsAtomic(v0, j, xs, i);
    MovedMeans(v0, j);
    ContentsMoved(data, v0, j, data[j.destination]);
    ContentsMoved(data, v0, j, torn);
    StartReads(v0, j);
    StartIsOld(v0, j);
    assert |Moved(v0, j).fat| == |v0.fat|;
    hide Ready, Attempts, Interrupted, Recover, Chain, Moved, Released, OldSide, NewSide, Copied, Walk;
    OldCopied(data, v0, j);
  }

  lemma StartReads(v0: Vol, j: Journal)
    requires Ready(v0, j)
    ensures Chain(v0, |j.oldChain|) == Ok(j.oldChain)
  {
  }

  lemma OldCopied<T>(data: seq<T>, v0: Vol, j: Journal)
    requires Ready(v0, j) && |data| == |v0.fat|
    ensures Bounded(v0, j) && SameFile(data, j.oldChain, Copied(data, j), j.oldChain)
  {
    NewChainFacts(v0, j);
  }

  // ---- The steps, in order ----------------------------------------------------------------------------

  /** The volume structures and the cluster blocks, in memory and at each sync. */
  class Device<T> {
    var vol: Vol
    var blocks: seq<T>
    ghost var synced: seq<(Vol, seq<T>)>

    constructor (v: Vol, data: seq<T>)
      ensures vol == v && blocks == data && synced == []
    {
      vol, blocks, synced := v, data, [];
    }

    method Sync()
      modifies this
      ensures vol == old(vol) && blocks == old(blocks) && synced == old(synced) + [(vol, blocks)]
    {
      synced := synced + [(vol, blocks)];
    }
  }

  /** The new chain is closed when the move wrote its last entry, and as it was otherwise; closed, the table alone
      gives it. */
  ghost predicate Closed(was: Vol, now: Vol, index: nat, chain: seq<nat>)
    requires chain != [] && chain[|chain| - 1] < |was.fat| == |now.fat|
  {
    var last, wrote := chain[|chain| - 1], was.entry.noFat || index + 1 == |chain|;
    && now.fat[last] == (if wrote then 0xFFFF_FFFF else was.fat[last])
    && (Walk(now.fat, now.entry.first, {}) == Ok(chain) <==> wrote || !(2 <= was.fat[last] < 0xFFFF_FFF8))
  }

  /** move_tail_cluster for an object whose clusters were just parsed. */
  method MoveTailCluster<T>(dev: Device<T>, clusters: seq<nat>, index: nat, destination: nat)
    returns (r: Result<Journal>)
    requires |dev.vol.fat| == |dev.vol.bits| == |dev.blocks| < CHAIN_END && index < |clusters| && Proper(clusters)
    requires forall i | 0 <= i < |clusters| :: clusters[i] < |dev.vol.fat| && dev.vol.bits[clusters[i]]
    requires Chain(dev.vol, |clusters|) == Ok(clusters) && dev.vol.entry.first != 0
    requires 2 <= destination < |dev.vol.bits| && dev.synced == []
    modifies dev
    ensures r.Error? <==> destination >= clusters[index] || old(dev.vol.bits[destination])
    ensures r.Error? ==> dev.vol == old(dev.vol) && dev.blocks == old(dev.blocks) && dev.synced == []
    ensures r.Ok? ==> r.value.oldChain == clusters && r.value.index == index && r.value.destination == destination
    ensures r.Ok? ==>
      Ready(old(dev.vol), r.value) && Bounded(old(dev.vol), r.value) && dev.vol == Released(old(dev.vol), r.value)
    ensures r.Ok? ==> dev.blocks == Copied(old(dev.blocks), r.value)
    ensures r.Ok? ==> dev.synced == [(old(dev.vol), dev.blocks), (Prepared(old(dev.vol), r.value), dev.blocks),
                                     (Switched(old(dev.vol), r.value), dev.blocks), (dev.vol, dev.blocks)]
    ensures r.Ok? ==> Chain(dev.vol, |clusters|) == Ok(NewChain(r.value))
    ensures r.Ok? ==> SameFile(old(dev.blocks), clusters, dev.blocks, NewChain(r.value))
    ensures r.Ok? ==> Closed(old(dev.vol), dev.vol, index, NewChain(r.value))
  {
    hide Ready, Chain, Proper, LinkUp, MarkUsed, MakeJournal, NewChain, Prepared, Switched, Touched, SameFile;
    var v, data := dev.vol, dev.blocks;
    if destination >= clusters[index] || v.bits[destination] { return Error; }
    var j := MakeJournal(v, clusters, index, destination);
    JournalReady(v, clusters, index, destination);
    assert Bounded(v, j);
    dev.blocks := dev.blocks[destination := dev.blocks[clusters[index]]];
    dev.Sync();
    PrepareDestination(dev, j);
    dev.Sync();
    SwitchOver(dev, v, j);
    dev.Sync();
    StillInside(v, j);
    dev.vol := dev.vol.(bits := dev.vol.bits[clusters[index] := false], fat := dev.vol.fat[clusters[index] := 0]);
    dev.Sync();
    MovedMeans(v, j);
    ContentsMoved(data, v, j, data[destination]);
    r := Ok(j);
  }

  lemma StillInside(v: Vol, j: Journal)
    requires Bounded(v, j)
    ensures |Switched(v, j).fat| == |v.fat| && |Switched(v, j).bits| == |v.bits|
  {
  }

  function MakeJournal(v: Vol, clusters: seq<nat>, index: nat, destination: nat): (j: Journal)
    requires index < |clusters| && destination < |v.fat| == |v.bits|
    requires forall i | 0 <= i < |clusters| :: clusters[i] < |v.fat|
    ensures j.oldChain == clusters && j.index == index && j.destination == destination && j.oldNoFat == v.entry.noFat
  {
    var touched := (set c | c in clusters) + {destination};
    Journal(clusters, index, destination, v.entry.noFat, map c | c in touched :: v.fat[c], v.bits[destination],
            v.bits[clusters[index]])
  }

  lemma JournalReady(v: Vol, clusters: seq<nat>, index: nat, destination: nat)
    requires |v.fat| == |v.bits| && |v.fat| < CHAIN_END && index < |clusters| && Proper(clusters)
    requires forall i | 0 <= i < |clusters| :: clusters[i] < |v.fat| && v.bits[clusters[i]]
    requires Chain(v, |clusters|) == Ok(clusters) && v.entry.first != 0
    requires 2 <= destination < clusters[index] && !v.bits[destination]
    ensures Ready(v, MakeJournal(v, clusters, index, destination))
  {
    hide Chain, Proper;
  }

  /** Mark the destination used and link it, or link the whole new chain. */
  method PrepareDestination<T>(dev: Device<T>, j: Journal)
    requires Bounded(dev.vol, j) && j.oldNoFat == dev.vol.entry.noFat
    modifies dev
    ensures dev.vol == Prepared(old(dev.vol), j) && dev.blocks == old(dev.blocks) && dev.synced == old(dev.synced)
  {
    var v, chain := dev.vol, NewChain(j);
    if v.entry.noFat {
      var p: nat := 0;
      while p < |chain|
        invariant p <= |chain| && dev.blocks == old(dev.blocks) && dev.synced == old(dev.synced)
        invariant dev.vol == v.(fat := LinkUp(v.fat, chain, p), bits := MarkUsed(v.bits, chain, p))
      {
        dev.vol := dev.vol.(bits := dev.vol.bits[chain[p] := true],
                            fat := dev.vol.fat[chain[p] := if p + 1 < |chain| then chain[p + 1] else EOC]);
        p := p + 1;
      }
    } else {
      dev.vol := dev.vol.(bits := dev.vol.bits[j.destination := true],
                          fat := dev.vol.fat[j.destination :=
                                   if j.index + 1 < |chain| then chain[j.index + 1] else EOC]);
    }
  }

  /** The commit point: the entry set, or the predecessor's link. */
  method SwitchOver<T>(dev: Device<T>, ghost v: Vol, j: Journal)
    requires Bounded(v, j) && dev.vol == Prepared(v, j)
    modifies dev
    ensures dev.vol == Switched(v, j) && dev.blocks == old(dev.blocks) && dev.synced == old(dev.synced)
  {
    hide LinkUp, MarkUsed;
    var chain := NewChain(j);
    if j.oldNoFat || j.index == 0 {
      dev.vol := dev.vol.(entry := Entry(chain[0], false));
    } else {
      dev.vol := dev.vol.(fat := dev.vol.fat[chain[j.index - 1] := j.destination]);
    }
  }
}
