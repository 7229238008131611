/** State ranges and bitmaps, mapped in one sweep each. */
module MapStates {
  import opened Basics
  import opened MapRanges
  import opened MapCells

  datatype StateRange = StateRange(start: int, end: int, state: int)

  /** Unit `u` of the volume belongs to the range. */
  predicate Holds(r: StateRange, total: nat, u: int) {
    Clip(r.start, total) <= u < Clip(r.end, total)
  }

  predicate Empty(r: StateRange, total: nat) { Clip(r.end, total) <= Clip(r.start, total) }

  /** Two ranges share a unit, or one that holds units has no valid state. */
  ghost predicate Clash(rs: seq<StateRange>, total: nat) {
    || (exists i :: 0 <= i < |rs| && !Empty(rs[i], total) && !IsState(rs[i].state))
    || (exists i, j, u :: 0 <= i < |rs| && 0 <= j < |rs| && i != j && Holds(rs[i], total, u) && Holds(rs[j], total, u))
  }

  // ---- Sorting --------------------------------------------------------------------------------

  /** `perm` lists every index of `rs` once, in the order of `s`. */
  ghost predicate Permutes(rs: seq<StateRange>, s: seq<StateRange>, perm: seq<nat>) {
    Aligned(rs, s, perm) && Distinct(perm) && forall i | 0 <= i < |rs| :: i in perm
  }

  ghost predicate Aligned(rs: seq<StateRange>, s: seq<StateRange>, perm: seq<nat>) {
    |perm| == |s| == |rs| && forall k | 0 <= k < |s| :: perm[k] < |rs| && s[k] == rs[perm[k]]
  }

  ghost predicate ByStart(s: seq<StateRange>) {
    forall i, j | 0 <= i < j < |s| :: s[i].start <= s[j].start
  }

  predicate NotAfter(a: StateRange, b: StateRange) {
    a.start < b.start || (a.start == b.start && (a.end < b.end || (a.end == b.end && a.state <= b.state)))
  }

  method SortRanges(rs: seq<StateRange>) returns (s: seq<StateRange>, ghost perm: seq<nat>)
    ensures ByStart(s) && Permutes(rs, s, perm)
  {
    s, perm := [], [];
    for i := 0 to |rs|
      invariant ByStart(s) && Permutes(rs[..i], s, perm)
    {
      var k := 0;
      while k < |s| && NotAfter(s[k], rs[i])
        invariant k <= |s| && forall n | 0 <= n < k :: s[n].start <= rs[i].start
      {
        k := k + 1;
      }
      InsertPermutes(rs, s, perm, i, k);
      s, perm := s[..k] + [rs[i]] + s[k..], perm[..k] + [i] + perm[k..];
    }
    assert rs[..|rs|] == rs;
  }

  lemma {:induction false} InsertPermutes(rs: seq<StateRange>, s: seq<StateRange>, perm: seq<nat>, i: nat, k: nat)
    requires i < |rs| && Permutes(rs[..i], s, perm) && k <= |s|
    ensures Permutes(rs[..i + 1], s[..k] + [rs[i]] + s[k..], perm[..k] + [i] + perm[k..])
  {
    hide Aligned, Distinct;
    assert |perm| == |s| by { AlignedSize(rs[..i], s, perm); }
    InsertAligned(rs, s, perm, i, k);
    InsertDistinct(rs[..i], s, perm, k);
    forall n: nat | n < i + 1 ensures n in perm[..k] + [i] + perm[k..] { InsertAll(perm, i, k, n); }
  }

  lemma AlignedSize(rs: seq<StateRange>, s: seq<StateRange>, perm: seq<nat>)
    requires Aligned(rs, s, perm)
    ensures |perm| == |s| == |rs|
  {
  }

  lemma {:induction false} InsertAligned(rs: seq<StateRange>, s: seq<StateRange>, perm: seq<nat>, i: nat, k: nat)
    requires i < |rs| && Aligned(rs[..i], s, perm) && k <= |s|
    ensures Aligned(rs[..i + 1], s[..k] + [rs[i]] + s[k..], perm[..k] + [i] + perm[k..])
  {
  }

  lemma {:induction false} InsertDistinct(rs: seq<StateRange>, s: seq<StateRange>, perm: seq<nat>, k: nat)
    requires Aligned(rs, s, perm) && Distinct(perm) && k <= |s|
    ensures Distinct(perm[..k] + [|rs|] + perm[k..])
  {
  }

  lemma {:induction false} InsertAll(perm: seq<nat>, i: nat, k: nat, n: nat)
    requires k <= |perm| && (n == i || n in perm)
    ensures n in perm[..k] + [i] + perm[k..]
  {
    var more := perm[..k] + [i] + perm[k..];
    if n == i {
      assert more[k] == i;
    } else {
      var m :| 0 <= m < |perm| && perm[m] == n;
      assert more[if m < k then m else m + 1] == n;
    }
  }

  lemma ClashPermutes(rs: seq<StateRange>, s: seq<StateRange>, perm: seq<nat>, total: nat)
    requires Permutes(rs, s, perm)
    ensures Clash(rs, total) <==> Clash(s, total)
  {
    if i :| 0 <= i < |s| && !Empty(s[i], total) && !IsState(s[i].state) {
      assert !Empty(rs[perm[i]], total) && !IsState(rs[perm[i]].state);
    }
    if i, j, u :| 0 <= i < |s| && 0 <= j < |s| && i != j && Holds(s[i], total, u) && Holds(s[j], total, u) {
      assert Holds(rs[perm[i]], total, u) && Holds(rs[perm[j]], total, u) && perm[i] != perm[j];
    }
    if i :| 0 <= i < |rs| && !Empty(rs[i], total) && !IsState(rs[i].state) {
      assert i in perm;
      var k :| 0 <= k < |perm| && perm[k] == i;
      assert !Empty(s[k], total) && !IsState(s[k].state);
    }
    if i, j, u :| 0 <= i < |rs| && 0 <= j < |rs| && i != j && Holds(rs[i], total, u) && Holds(rs[j], total, u) {
      assert i in perm && j in perm;
      var k :| 0 <= k < |perm| && perm[k] == i;
      var m :| 0 <= m < |perm| && perm[m] == j;
      assert Holds(s[k], total, u) && Holds(s[m], total, u);
    }
  }

  // ---- Normalising ------------------------------------------------------------------------------

  /** Ascending ranges of valid states inside the volume. */
  ghost predicate Ordered(o: seq<StateRange>, total: nat) {
    && (forall i | 0 <= i < |o| :: 0 <= o[i].start < o[i].end <= total && IsState(o[i].state))
    && (forall i, j | 0 <= i < j < |o| :: o[i].end <= o[j].start)
  }

  /** The state of a unit: that of the range holding it, else unknown. */
  function StateAt(o: seq<StateRange>, u: int): int {
    if o == [] then 2
    else
      var last := o[|o| - 1];
      if last.start <= u < last.end then last.state else StateAt(o[..|o| - 1], u)
  }

  lemma {:induction false} StateAtValid(o: seq<StateRange>, total: nat, u: int)
    requires Ordered(o, total)
    ensures IsState(StateAt(o, u))
  {
    if o != [] { StateAtValid(o[..|o| - 1], total, u); }
  }

  lemma {:induction false} StateAtRange(o: seq<StateRange>, total: nat, n: nat, u: int)
    requires Ordered(o, total) && n < |o| && o[n].start <= u < o[n].end
    ensures StateAt(o, u) == o[n].state
  {
    if n < |o| - 1 { StateAtRange(o[..|o| - 1], total, n, u); }
  }

  lemma {:induction false} StateAtGap(o: seq<StateRange>, u: int)
    requires forall n | 0 <= n < |o| :: !(o[n].start <= u < o[n].end)
    ensures StateAt(o, u) == 2
  {
    if o != [] { StateAtGap(o[..|o| - 1], u); }
  }

  function StatesOf(o: seq<StateRange>, total: nat): seq<int> {
    seq(total, u => StateAt(o, u))
  }

  /** The first `k` sorted ranges, faithfully normalised. */
  ghost predicate Normalised(s: seq<StateRange>, total: nat, k: nat, o: seq<StateRange>) {
    && k <= |s| && Ordered(o, total)
    && (forall i, u | 0 <= i < k && Holds(s[i], total, u) :: StateAt(o, u) == s[i].state)
    && (forall u | (forall i | 0 <= i < k :: !Holds(s[i], total, u)) :: StateAt(o, u) == 2)
    && (forall i | 0 <= i < k && !Empty(s[i], total) ::
         IsState(s[i].state) && o != [] && Clip(s[i].end, total) <= o[|o| - 1].end)
    && (forall i, j, u | 0 <= i < j < k :: !(Holds(s[i], total, u) && Holds(s[j], total, u)))
    && (o != [] ==> exists i :: 0 <= i < k && !Empty(s[i], total) && Clip(s[i].end, total) == o[|o| - 1].end)
  }

  lemma NormaliseNothing(s: seq<StateRange>, total: nat)
    ensures Normalised(s, total, 0, [])
  {
  }

  lemma SkipEmpty(s: seq<StateRange>, total: nat, k: nat, o: seq<StateRange>)
    requires Normalised(s, total, k, o) && k < |s| && Empty(s[k], total)
    ensures Normalised(s, total, k + 1, o)
  {
    assert forall u :: !Holds(s[k], total, u);
  }

  /** Appending a range, or extending the last one, sets exactly its units. */
  lemma {:induction false} PutLast(o: seq<StateRange>, total: nat, start: int, end: int, state: int,
                                   o': seq<StateRange>)
    requires Ordered(o, total) && 0 <= start < end <= total && IsState(state) && (o != [] ==> o[|o| - 1].end <= start)
    requires o' == if o != [] && start == o[|o| - 1].end && state == o[|o| - 1].state
                   then o[..|o| - 1] + [StateRange(o[|o| - 1].start, end, state)]
                   else o + [StateRange(start, end, state)]
    ensures Ordered(o', total) && o' != [] && o'[|o'| - 1].end == end
    ensures forall u :: StateAt(o', u) == if start <= u < end then state else StateAt(o, u)
  {
    if o != [] && start == o[|o| - 1].end && state == o[|o| - 1].state {
      var init := o[..|o| - 1];
      assert o'[..|o'| - 1] == init;
    } else {
      assert o'[..|o'| - 1] == o;
    }
  }

  lemma TakeRange(s: seq<StateRange>, total: nat, k: nat, o: seq<StateRange>, o': seq<StateRange>)
    requires Normalised(s, total, k, o) && k < |s| && !Empty(s[k], total) && IsState(s[k].state)
    requires o != [] ==> o[|o| - 1].end <= Clip(s[k].start, total)
    requires Ordered(o', total) && o' != [] && o'[|o'| - 1].end == Clip(s[k].end, total)
    requires forall u ::
      StateAt(o', u) == if Clip(s[k].start, total) <= u < Clip(s[k].end, total) then s[k].state else StateAt(o, u)
    ensures Normalised(s, total, k + 1, o')
  {
    hide StateAt, Ordered, Clip;
    forall i, u | 0 <= i < k && Holds(s[i], total, u) ensures !Holds(s[k], total, u) {
      assert !Empty(s[i], total);
    }
    forall u | (forall i | 0 <= i < k + 1 :: !Holds(s[i], total, u)) ensures StateAt(o', u) == 2 {
      assert !Holds(s[k], total, u);
    }
    assert !Empty(s[k], total);
  }

  lemma OverlapClashes(s: seq<StateRange>, total: nat, k: nat, o: seq<StateRange>)
    requires Normalised(s, total, k, o) && ByStart(s) && k < |s| && !Empty(s[k], total) && o != []
    requires Clip(s[k].start, total) < o[|o| - 1].end
    ensures Clash(s, total)
  {
    var i :| 0 <= i < k && !Empty(s[i], total) && Clip(s[i].end, total) == o[|o| - 1].end;
    var u := Clip(s[k].start, total);
    assert s[i].start <= s[k].start;
    assert Holds(s[i], total, u) && Holds(s[k], total, u);
  }

  lemma NormalisedIsClean(s: seq<StateRange>, total: nat, o: seq<StateRange>)
    requires Normalised(s, total, |s|, o)
    ensures !Clash(s, total)
  {
    hide StateAt, Clip;
  }

  /** _normalise_state_ranges: fails exactly on clashing ranges. */
  method NormaliseRanges(ranges: seq<StateRange>, total: nat) returns (r: Result<seq<StateRange>>)
    ensures r.Error? <==> Clash(ranges, total)
    ensures r.Ok? ==> Ordered(r.value, total)
    ensures r.Ok? ==>
      forall i, u | 0 <= i < |ranges| && Holds(ranges[i], total, u) :: StateAt(r.value, u) == ranges[i].state
    ensures r.Ok? ==>
      forall u | (forall i | 0 <= i < |ranges| :: !Holds(ranges[i], total, u)) :: StateAt(r.value, u) == 2
  {
    hide Normalised, Clash, StateAt, Ordered, Permutes, ByStart, Holds;
    var s, perm := SortRanges(ranges);
    ClashPermutes(ranges, s, perm, total);
    var o: seq<StateRange> := [];
    NormaliseNothing(s, total);
    for k := 0 to |s|
      invariant Normalised(s, total, k, o)
    {
      var start, end := Clip(s[k].start, total), Clip(s[k].end, total);
      if end <= start {
        SkipEmpty(s, total, k, o);
        continue;
      }
      if !IsState(s[k].state) {
        assert Clash(s, total) by { BadStateClashes(s, total, k); }
        return Error;
      }
      if o != [] && start < o[|o| - 1].end {
        OverlapClashes(s, total, k, o);
        return Error;
      }
      ghost var before := o;
      OrderedOf(s, total, k, o);
      if o != [] && start == o[|o| - 1].end && s[k].state == o[|o| - 1].state {
        o := o[..|o| - 1] + [StateRange(o[|o| - 1].start, end, s[k].state)];
      } else {
        o := o + [StateRange(start, end, s[k].state)];
      }
      PutLast(before, total, start, end, s[k].state, o);
      TakeRange(s, total, k, before, o);
    }
    NormalisedIsClean(s, total, o);
    NormalisedStates(ranges, s, perm, total, o);
    r := Ok(o);
  }

  lemma BadStateClashes(s: seq<StateRange>, total: nat, k: nat)
    requires k < |s| && !Empty(s[k], total) && !IsState(s[k].state)
    ensures Clash(s, total)
  {
  }

  lemma OrderedOf(s: seq<StateRange>, total: nat, k: nat, o: seq<StateRange>)
    requires Normalised(s, total, k, o)
    ensures Ordered(o, total)
  {
  }

  lemma NormalisedStates(ranges: seq<StateRange>, s: seq<StateRange>, perm: seq<nat>, total: nat, o: seq<StateRange>)
    requires Permutes(ranges, s, perm) && Normalised(s, total, |s|, o)
    ensures Ordered(o, total)
    ensures forall i, u | 0 <= i < |ranges| && Holds(ranges[i], total, u) :: StateAt(o, u) == ranges[i].state
    ensures forall u | (forall i | 0 <= i < |ranges| :: !Holds(ranges[i], total, u)) :: StateAt(o, u) == 2
  {
    hide StateAt, Ordered, Clip;
    forall i, u | 0 <= i < |ranges| && Holds(ranges[i], total, u) ensures StateAt(o, u) == ranges[i].state {
      assert i in perm;
      var k :| 0 <= k < |perm| && perm[k] == i;
      assert Holds(s[k], total, u);
    }
    forall u | (forall i | 0 <= i < |ranges| :: !Holds(ranges[i], total, u)) ensures StateAt(o, u) == 2 {
      forall k | 0 <= k < |s| ensures !Holds(s[k], total, u) { assert s[k] == ranges[perm[k]]; }
    }
  }

  // ---- Sweeping ranges --------------------------------------------------------------------------

  /** `s` gives every unit the state its range says, and unknown where there is none. */
  ghost predicate Describes(s: seq<int>, ranges: seq<StateRange>, total: nat) {
    && |s| == total && States(s)
    && (forall i, u | 0 <= i < |ranges| && 0 <= u < total && Holds(ranges[i], total, u) :: s[u] == ranges[i].state)
    && (forall u | 0 <= u < total && (forall i | 0 <= i < |ranges| :: !Holds(ranges[i], total, u)) :: s[u] == 2)
  }

  lemma DescriptionExists(o: seq<StateRange>, ranges: seq<StateRange>, total: nat)
    requires States(StatesOf(o, total))
    requires forall i, u | 0 <= i < |ranges| && Holds(ranges[i], total, u) :: StateAt(o, u) == ranges[i].state
    requires forall u | (forall i | 0 <= i < |ranges| :: !Holds(ranges[i], total, u)) :: StateAt(o, u) == 2
    ensures Describes(StatesOf(o, total), ranges, total)
  {
    hide StateAt, Holds;
  }

  lemma DescriptionUnique(s: seq<int>, o: seq<StateRange>, ranges: seq<StateRange>, total: nat)
    requires Describes(s, ranges, total)
    requires forall i, u | 0 <= i < |ranges| && Holds(ranges[i], total, u) :: StateAt(o, u) == ranges[i].state
    requires forall u | (forall i | 0 <= i < |ranges| :: !Holds(ranges[i], total, u)) :: StateAt(o, u) == 2
    ensures s == StatesOf(o, total)
  {
    hide StateAt, Clip;
    forall u | 0 <= u < total ensures s[u] == StateAt(o, u) {
      if i :| 0 <= i < |ranges| && Holds(ranges[i], total, u) {
        assert s[u] == ranges[i].state;
      } else {
        assert forall i | 0 <= i < |ranges| :: !Holds(ranges[i], total, u);
      }
    }
  }

  lemma StatesValid(o: seq<StateRange>, total: nat)
    requires Ordered(o, total)
    ensures States(StatesOf(o, total)) && |StatesOf(o, total)| == total
  {
    forall u | 0 <= u < total ensures IsState(StatesOf(o, total)[u]) { StateAtValid(o, total, u); }
  }

  /** Ranges before `k` end by `cursor`; range `k`, if any, ends after `start`. */
  ghost predicate Between(o: seq<StateRange>, k: nat, start: int, cursor: int) {
    && k <= |o| && start <= cursor && (forall n | 0 <= n < k :: o[n].end <= cursor)
    && (forall n | k <= n < |o| :: o[n].end > start && (o[n].start >= cursor || cursor == start))
  }

  lemma UnknownStretch(o: seq<StateRange>, total: nat, k: nat, start: nat, cursor: nat, to: nat)
    requires Ordered(o, total) && Between(o, k, start, cursor) && cursor <= to <= total
    requires (k < |o| ==> to <= o[k].start || to == cursor)
    ensures forall u | cursor <= u < to :: StatesOf(o, total)[u] == 2
  {
    forall u | cursor <= u < to ensures StateAt(o, u) == 2 {
      forall n | 0 <= n < |o| ensures !(o[n].start <= u < o[n].end) {
        if n > k { assert o[k].end <= o[n].start; }
      }
      StateAtGap(o, u);
    }
  }

  lemma RangeStretch(o: seq<StateRange>, total: nat, k: nat, from: nat, to: nat)
    requires Ordered(o, total) && k < |o| && o[k].start <= from <= to <= o[k].end
    ensures forall u | from <= u < to :: StatesOf(o, total)[u] == o[k].state
  {
    forall u | from <= u < to ensures StateAt(o, u) == o[k].state { StateAtRange(o, total, k, u); }
  }

  function Later(a: int, b: int): int { if a < b then b else a }

  function Sooner(a: int, b: int): int { if a < b then a else b }

  /** Counting the gap before range `k` and its overlap with the cell. */
  lemma SweepStep(o: seq<StateRange>, total: nat, k: nat, start: nat, cursor: nat, from: nat, to: nat, s: seq<int>)
    requires Ordered(o, total) && s == StatesOf(o, total) && |s| == total && States(s) && k < |o| && IsState(o[k].state)
    requires Between(o, k, start, cursor) && start <= cursor <= from <= to <= total && o[k].start <= from
    requires to <= o[k].end
    requires from <= o[k].start || from == cursor
    ensures Tally(s, start, to) == Add(Add(Tally(s, start, cursor), 2, from - cursor), o[k].state, to - from)
  {
    hide Tally, Add, StatesOf, States, Ordered, Between, Size;
    UnknownStretch(o, total, k, start, cursor, from);
    TallyStretch(s, start, cursor, from, 2);
    RangeStretch(o, total, k, from, to);
    TallyStretch(s, start, from, to, o[k].state);
  }

  lemma StepBounds(o: seq<StateRange>, total: nat, k: nat, start: nat, end: nat, cursor: nat)
    requires Ordered(o, total) && Between(o, k, start, cursor) && cursor <= end <= total && k < |o| && o[k].start < end
    requires (cursor == end ==> start == end)
    ensures start <= cursor <= Later(start, o[k].start) <= Sooner(end, o[k].end) <= end && IsState(o[k].state)
    ensures o[k].start <= Later(start, o[k].start) && Sooner(end, o[k].end) <= o[k].end
    ensures Later(start, o[k].start) <= o[k].start || Later(start, o[k].start) == cursor
  {
  }

  /** One cell of aggregate_ranges: gaps count as unknown, overlaps as their state. */
  method SweepCell(o: seq<StateRange>, total: nat, start: nat, end: nat, index: nat) returns (counts: Counts)
    requires Ordered(o, total) && start < end <= total && index <= |o| && Between(o, index, start, start)
    requires States(StatesOf(o, total)) && |StatesOf(o, total)| == total
    ensures counts == Tally(StatesOf(o, total), start, end)
  {
    hide Tally, Add, StatesOf, StateAt, Size, States, Ordered, Between;
    ghost var s := StatesOf(o, total);
    counts := NONE;
    CountNone(s, start);
    var cursor: nat, check: nat := start, index;
    while check < |o| && o[check].start < end
      invariant Between(o, check, start, cursor) && start <= cursor <= end && check <= |o|
      invariant counts == Tally(s, start, cursor)
      invariant cursor == end ==> check == |o| || o[check].start >= end
      decreases |o| - check
    {
      StepBounds(o, total, check, start, end, cursor);
      var from, to := Later(start, o[check].start), Sooner(end, o[check].end);
      SweepStep(o, total, check, start, cursor, from, to, s);
      counts := Add(Add(counts, 2, from - cursor), o[check].state, to - from);
      cursor := to;
      if o[check].end > end { return; }
      AdvanceBetween(o, total, check, start, end);
      check := check + 1;
    }
    if cursor < end {
      LastStretch(o, total, check, start, cursor, end);
      counts := Add(counts, 2, end - cursor);
    }
  }

  lemma LastStretch(o: seq<StateRange>, total: nat, k: nat, start: nat, cursor: nat, end: nat)
    requires Ordered(o, total) && States(StatesOf(o, total)) && |StatesOf(o, total)| == total && end <= total
    requires Between(o, k, start, cursor) && cursor <= end && (k < |o| ==> end <= o[k].start)
    ensures Tally(StatesOf(o, total), start, end) == Add(Tally(StatesOf(o, total), start, cursor), 2, end - cursor)
  {
    hide Tally, Add, StateAt;
    UnknownStretch(o, total, k, start, cursor, end);
    TallyStretch(StatesOf(o, total), start, cursor, end, 2);
  }

  lemma AdvanceBetween(o: seq<StateRange>, total: nat, k: nat, start: nat, end: nat)
    requires Ordered(o, total) && k < |o| && o[k].end <= end && exists cursor :: Between(o, k, start, cursor)
    ensures Between(o, k + 1, start, o[k].end) && (o[k].end == end ==> k + 1 == |o| || o[k + 1].start >= end)
  {
    var cursor :| Between(o, k, start, cursor);
    forall n | k + 1 <= n < |o| ensures o[n].start >= o[k].end { assert o[k].end <= o[n].start; }
    forall n | 0 <= n < k ensures o[n].end <= o[k].end { assert o[n].end <= o[k].start; }
  }

  lemma SkipTo(o: seq<StateRange>, total: nat, k: nat, start: int)
    requires Ordered(o, total) && k <= |o| && (forall n | 0 <= n < k :: o[n].end <= start)
    requires (k < |o| ==> o[k].end > start)
    ensures Between(o, k, start, start)
  {
    forall n | k <= n < |o| ensures o[n].end > start { if n > k { assert o[k].end <= o[n].start; } }
  }

  /** The cells of aggregate_ranges; the range index never moves back. */
  method SweepCells(o: seq<StateRange>, total: nat, n: nat) returns (cells: seq<Cell>, totals: Counts)
    requires Ordered(o, total) && 1 <= n <= total && States(StatesOf(o, total)) && |StatesOf(o, total)| == total
    ensures IsMap(StatesOf(o, total), n, cells, totals)
  {
    hide Boundary, Tally, CellsUpTo, Plus, IsMap, StatesOf, Ordered, States, Between;
    ghost var s := StatesOf(o, total);
    var index: nat := 0;
    cells, totals := [], NONE;
    CellsStart(s, n);
    for i := 0 to n
      invariant |cells| == i && CellsUpTo(s, n, cells, totals)
      invariant index <= |o| && forall k | 0 <= k < index :: o[k].end <= Boundary(total, n, i)
    {
      CellsPartition(total, n, i);
      var start, end := Boundary(total, n, i), CellEnd(total, n, i);
      while index < |o| && o[index].end <= start
        invariant index <= |o| && forall k | 0 <= k < index :: o[k].end <= start
      {
        index := index + 1;
      }
      SkipTo(o, total, index, start);
      var counts := SweepCell(o, total, start, end, index);
      CellsStep(s, n, cells, totals, counts);
      cells, totals := cells + [Cell(start, end - 1, counts)], Plus(totals, counts);
    }
    CellsDone(s, n, cells, totals);
  }

  /** aggregate_ranges: one sweep, with the counts a per-unit sweep would give. */
  method AggregateRanges(ranges: seq<StateRange>, total: nat, wanted: int)
    returns (r: Result<(seq<Cell>, Counts)>, ghost states: seq<int>)
    requires total >= 1
    ensures r.Error? <==> Clash(ranges, total)
    ensures r.Ok? ==> Describes(states, ranges, total) && forall s | Describes(s, ranges, total) :: s == states
    ensures r.Ok? ==> IsMap(states, CellCount(total, wanted), r.value.0, r.value.1)
  {
    hide IsMap, StatesOf, StateAt, Clash, Ordered, Describes;
    states := [];
    var normal := NormaliseRanges(ranges, total);
    if normal.Error? { return Error, states; }
    var o := normal.value;
    StatesValid(o, total);
    var cells, totals := SweepCells(o, total, CellCount(total, wanted));
    states := StatesOf(o, total);
    DescriptionExists(o, ranges, total);
    forall d | Describes(d, ranges, total) ensures d == states { DescriptionUnique(d, o, ranges, total); }
    r := Ok((cells, totals));
  }

  /** The range sweep equals the per-unit reference on the states the ranges describe. */
  lemma RangesEqualUnits(s: seq<int>, ranges: seq<StateRange>, total: nat, n: nat, a: seq<Cell>, at: Counts,
                         b: seq<Cell>, bt: Counts)
    requires 1 <= n <= total && Describes(s, ranges, total)
    requires IsMap(s, n, a, at) && IsMap(Known(s, total), n, b, bt)
    ensures a == b && at == bt
  {
    assert Known(s, total) == s;
    MapIsUnique(s, n, a, at, b, bt);
  }
}
