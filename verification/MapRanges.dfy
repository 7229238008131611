/** Half-open unit ranges: merging and complement. */
module MapRanges {
  import opened Basics

  datatype Interval = Interval(start: int, end: int)

  predicate Has(r: Interval, u: int) { r.start <= u < r.end }

  ghost predicate SomeHas(rs: seq<Interval>, u: int) {
    exists n :: 0 <= n < |rs| && Has(rs[n], u)
  }

  /** A range merge_ranges keeps: one with a negative start is dropped whole. */
  predicate Kept(r: Interval) { 0 <= r.start < r.end }

  ghost predicate SomeKeptHas(rs: seq<Interval>, u: int) {
    exists n :: 0 <= n < |rs| && Kept(rs[n]) && Has(rs[n], u)
  }

  ghost predicate ByStart(rs: seq<Interval>) {
    forall i, j | 0 <= i < j < |rs| :: rs[i].start <= rs[j].start
  }

  /** Ascending, non-empty, with a gap between neighbours. */
  ghost predicate Separated(rs: seq<Interval>) {
    && (forall i | 0 <= i < |rs| :: 0 <= rs[i].start < rs[i].end)
    && (forall i, j | 0 <= i < j < |rs| :: rs[i].end < rs[j].start)
  }

  method SortByStart(rs: seq<Interval>) returns (s: seq<Interval>)
    ensures ByStart(s) && forall r :: r in s <==> r in rs
  {
    hide ByStart;
    s := [];
    assert ByStart(s) by { NothingByStart(); }
    for i := 0 to |rs|
      invariant ByStart(s) && forall r :: r in s <==> r in rs[..i]
    {
      var k := 0;
      while k < |s| && s[k].start <= rs[i].start
        invariant k <= |s| && forall n | 0 <= n < k :: s[n].start <= rs[i].start
      {
        k := k + 1;
      }
      InsertByStart(s, k, rs[i]);
      assert rs[..i + 1] == rs[..i] + [rs[i]];
      s := s[..k] + [rs[i]] + s[k..];
    }
    assert rs[..|rs|] == rs;
  }

  lemma NothingByStart()
    ensures ByStart([])
  {
  }

  lemma {:induction false} InsertByStart(s: seq<Interval>, k: nat, r: Interval)
    requires k <= |s| && ByStart(s) && (forall n | 0 <= n < k :: s[n].start <= r.start)
    requires (k < |s| ==> r.start <= s[k].start)
    ensures ByStart(s[..k] + [r] + s[k..])
    ensures forall x :: x in s[..k] + [r] + s[k..] <==> x in s || x == r
  {
    SplitMembers(s, k);
  }

  lemma SplitMembers(s: seq<Interval>, k: nat)
    requires k <= |s|
    ensures forall x :: x in s <==> x in s[..k] || x in s[k..]
  {
    assert s == s[..k] + s[k..];
  }

  lemma SameMembers(a: seq<Interval>, b: seq<Interval>, u: int)
    requires forall r :: r in a <==> r in b
    ensures SomeKeptHas(a, u) <==> SomeKeptHas(b, u)
  {
    if n :| 0 <= n < |a| && Kept(a[n]) && Has(a[n], u) {
      assert a[n] in b;
      var m :| 0 <= m < |b| && b[m] == a[n];
      assert Kept(b[m]) && Has(b[m], u);
    }
    if n :| 0 <= n < |b| && Kept(b[n]) && Has(b[n], u) {
      assert b[n] in a;
      var m :| 0 <= m < |a| && a[m] == b[n];
      assert Kept(a[m]) && Has(a[m], u);
    }
  }

  lemma KeptAppend(rs: seq<Interval>, r: Interval, u: int)
    ensures SomeKeptHas(rs + [r], u) <==> SomeKeptHas(rs, u) || (Kept(r) && Has(r, u))
  {
    var more := rs + [r];
    if n :| 0 <= n < |rs| && Kept(rs[n]) && Has(rs[n], u) { assert Kept(more[n]) && Has(more[n], u); }
    if Kept(r) && Has(r, u) { assert Kept(more[|rs|]) && Has(more[|rs|], u); }
  }

  lemma HasAppend(rs: seq<Interval>, r: Interval, u: int)
    ensures SomeHas(rs + [r], u) <==> SomeHas(rs, u) || Has(r, u)
  {
    var more := rs + [r];
    if n :| 0 <= n < |rs| && Has(rs[n], u) { assert Has(more[n], u); }
    if Has(r, u) { assert Has(more[|rs|], u); }
  }

  lemma HasExtend(rs: seq<Interval>, r: Interval, u: int)
    requires rs != [] && rs[|rs| - 1].start <= r.start <= rs[|rs| - 1].end
    ensures var last := rs[|rs| - 1];
            SomeHas(rs[..|rs| - 1] + [Interval(last.start, if last.end < r.end then r.end else last.end)], u) <==>
            SomeHas(rs, u) || Has(r, u)
  {
    var last := rs[|rs| - 1];
    var init := rs[..|rs| - 1];
    HasAppend(init, Interval(last.start, if last.end < r.end then r.end else last.end), u);
    HasAppend(init, last, u);
    assert rs == init + [last];
  }

  /** merge_ranges: the units of the kept ranges, as separated ranges. */
  method MergeRanges(ranges: seq<Interval>) returns (merged: seq<Interval>)
    ensures Separated(merged) && forall u :: SomeHas(merged, u) <==> SomeKeptHas(ranges, u)
  {
    hide SomeHas, SomeKeptHas;
    var sorted := SortByStart(ranges);
    merged := [];
    NothingHeld();
    for k := 0 to |sorted|
      invariant Separated(merged) && forall u :: SomeHas(merged, u) <==> SomeKeptHas(sorted[..k], u)
      invariant merged != [] ==> k > 0 && merged[|merged| - 1].start <= sorted[k - 1].start
    {
      var r := sorted[k];
      assert sorted[..k + 1] == sorted[..k] + [r];
      forall u ensures SomeKeptHas(sorted[..k + 1], u) <==> SomeHas(merged, u) || (Kept(r) && Has(r, u)) {
        KeptAppend(sorted[..k], r, u);
      }
      if r.start < 0 || r.end <= r.start { continue; }
      if merged != [] && r.start <= merged[|merged| - 1].end {
        var last := merged[|merged| - 1];
        var next := merged[..|merged| - 1] + [Interval(last.start, if last.end < r.end then r.end else last.end)];
        forall u ensures SomeHas(next, u) <==> SomeKeptHas(sorted[..k + 1], u) { HasExtend(merged, r, u); }
        merged := next;
      } else {
        var next := merged + [r];
        forall u ensures SomeHas(next, u) <==> SomeKeptHas(sorted[..k + 1], u) { HasAppend(merged, r, u); }
        merged := next;
      }
    }
    assert sorted[..|sorted|] == sorted;
    forall u ensures SomeHas(merged, u) <==> SomeKeptHas(ranges, u) { SameMembers(sorted, ranges, u); }
  }

  lemma NothingHeld()
    ensures forall u :: !SomeHas([], u) && !SomeKeptHas([], u)
  {
  }

  function Clip(x: int, total: int): int
    requires total >= 0
  {
    if x < 0 then 0 else if x > total then total else x
  }

  /** Gaps listed up to `cursor`, which stands at the end of range k - 1. */
  ghost predicate GapsUpTo(merged: seq<Interval>, total: int, k: nat, gaps: seq<Interval>, cursor: int) {
    && k <= |merged| && 0 <= cursor <= total && Separated(gaps)
    && cursor == (if k == 0 then 0 else Clip(merged[k - 1].end, total))
    && (forall n | 0 <= n < |gaps| :: gaps[n].end <= cursor && (gaps[n].end < cursor || cursor == total))
    && (forall u | 0 <= u < cursor :: SomeHas(gaps, u) <==> !SomeHas(merged, u))
  }

  /** Between two neighbours nothing is held. */
  lemma HeldAround(merged: seq<Interval>, k: nat, u: int)
    requires Separated(merged) && k <= |merged| && (k > 0 ==> merged[k - 1].end <= u)
    requires (k < |merged| ==> u < merged[k].end)
    ensures SomeHas(merged, u) <==> k < |merged| && merged[k].start <= u
  {
    if k < |merged| && merged[k].start <= u { assert Has(merged[k], u); }
    forall n | 0 <= n < |merged| && n != k ensures !Has(merged[n], u) {
      if n < k { assert n < k - 1 ==> merged[n].end < merged[k - 1].start; }
    }
  }

  lemma HeldBelow(gaps: seq<Interval>, cursor: int, u: int)
    requires (forall n | 0 <= n < |gaps| :: gaps[n].end <= cursor) && u >= cursor
    ensures !SomeHas(gaps, u)
  {
  }

  lemma GapStep(merged: seq<Interval>, total: int, k: nat, gaps: seq<Interval>, cursor: int, gaps': seq<Interval>,
                cursor': int)
    requires Separated(merged) && k < |merged| && GapsUpTo(merged, total, k, gaps, cursor) && cursor < total
    requires gaps' ==
      if Clip(merged[k].start, total) > cursor then gaps + [Interval(cursor, Clip(merged[k].start, total))] else gaps
    requires cursor' == Clip(merged[k].end, total)
    ensures GapsUpTo(merged, total, k + 1, gaps', cursor')
  {
    var start := Clip(merged[k].start, total);
    assert cursor <= merged[k].start by { if k > 0 { assert merged[k - 1].end < merged[k].start; } }
    assert k > 0 ==> merged[k - 1].end == cursor;
    forall u | 0 <= u < cursor' ensures SomeHas(gaps', u) <==> !SomeHas(merged, u) {
      HasAppend(gaps, Interval(cursor, start), u);
      if u >= cursor {
        HeldAround(merged, k, u);
        HeldBelow(gaps, cursor, u);
      }
    }
  }

  lemma GapLast(merged: seq<Interval>, total: int, gaps: seq<Interval>, cursor: int, gaps': seq<Interval>)
    requires Separated(merged) && GapsUpTo(merged, total, |merged|, gaps, cursor) && cursor < total
    requires gaps' == gaps + [Interval(cursor, total)]
    ensures Separated(gaps') && forall u | 0 <= u < total :: SomeHas(gaps', u) <==> !SomeHas(merged, u)
  {
    forall u | 0 <= u < total ensures SomeHas(gaps', u) <==> !SomeHas(merged, u) {
      HasAppend(gaps, Interval(cursor, total), u);
      if u >= cursor {
        HeldAround(merged, |merged|, u);
        HeldBelow(gaps, cursor, u);
      }
    }
  }

  /** complement_ranges: exactly the units no kept range covers. */
  method ComplementRanges(total: int, occupied: seq<Interval>) returns (r: Result<seq<Interval>>)
    ensures r.Error? <==> total < 0
    ensures r.Ok? ==> Separated(r.value) && forall n | 0 <= n < |r.value| :: r.value[n].end <= total
    ensures r.Ok? ==> forall u | 0 <= u < total :: SomeHas(r.value, u) <==> !SomeKeptHas(occupied, u)
  {
    if total < 0 { return Error; }
    var merged := MergeRanges(occupied);
    var gaps: seq<Interval>, cursor, k: nat := [], 0, 0;
    NothingHeld();
    hide SomeKeptHas, SomeHas, Separated;
    assert GapsUpTo(merged, total, 0, gaps, 0) by { EmptySeparated(); }
    while k < |merged| && cursor < total
      invariant GapsUpTo(merged, total, k, gaps, cursor)
    {
      var start, end := Clip(merged[k].start, total), Clip(merged[k].end, total);
      ghost var before, was := gaps, cursor;
      if start > cursor { gaps := gaps + [Interval(cursor, start)]; }
      assert cursor <= end by { CursorBehind(merged, total, k, before, cursor); }
      cursor := end;
      GapStep(merged, total, k, before, was, gaps, cursor);
      k := k + 1;
    }
    if cursor < total {
      ghost var before := gaps;
      gaps := gaps + [Interval(cursor, total)];
      GapLast(merged, total, before, cursor, gaps);
    }
    r := Ok(gaps);
  }

  lemma EmptySeparated()
    ensures Separated([])
  {
  }

  lemma CursorBehind(merged: seq<Interval>, total: int, k: nat, gaps: seq<Interval>, cursor: int)
    requires Separated(merged) && k < |merged| && GapsUpTo(merged, total, k, gaps, cursor) && cursor < total
    ensures cursor <= Clip(merged[k].end, total)
  {
    if k > 0 { assert merged[k - 1].end < merged[k].start; }
  }
}
