/** Copying one list of byte extents onto another, piece by piece. */
module ExtentCopy {
  datatype Extent = Extent(start: nat, size: nat)

  function Total(es: seq<Extent>): nat {
    if es == [] then 0 else es[0].size + Total(es[1..])
  }

  /** Device offset of logical byte `k`. */
  function Locate(es: seq<Extent>, k: nat): nat
    requires k < Total(es)
  {
    if k < es[0].size then es[0].start + k else Locate(es[1..], k - es[0].size)
  }

  lemma {:induction false} TotalSplit(es: seq<Extent>, i: nat)
    requires i <= |es|
    ensures Total(es) == Total(es[..i]) + Total(es[i..])
  {
    if i > 0 {
      TotalSplit(es[1..], i - 1);
      assert es[..i][1..] == es[1..][..i - 1] && es[1..][i - 1..] == es[i..];
    } else {
      assert es[0..] == es;
    }
  }

  /** Bytes of extent `i` lie at its start. */
  lemma {:induction false} LocateAt(es: seq<Extent>, i: nat, off: nat)
    requires i < |es| && off < es[i].size
    ensures Total(es[..i]) + off < Total(es) && Locate(es, Total(es[..i]) + off) == es[i].start + off
  {
    if i == 0 {
      assert es[..0] == [];
    } else {
      LocateAt(es[1..], i - 1, off);
      assert es[..i][1..] == es[1..][..i - 1];
    }
  }

  /** Which extent holds logical byte `k`. */
  lemma {:induction false} LocateFrom(es: seq<Extent>, k: nat) returns (i: nat, off: nat)
    requires k < Total(es)
    ensures i < |es| && off < es[i].size && k == Total(es[..i]) + off && Locate(es, k) == es[i].start + off
  {
    if k < es[0].size {
      i, off := 0, k;
      assert es[..0] == [];
    } else {
      i, off := LocateFrom(es[1..], k - es[0].size);
      i := i + 1;
      assert es[..i][1..] == es[1..][..i - 1];
    }
  }

  lemma {:induction false} TotalMonotone(es: seq<Extent>, i: nat, j: nat)
    requires i <= j <= |es|
    ensures Total(es[..i]) <= Total(es[..j]) && (i < j ==> Total(es[..i]) + es[i].size <= Total(es[..j]))
  {
    TotalSplit(es[..j], i);
    assert es[..j][..i] == es[..i];
    if i < j {
      assert es[..j][i..][0] == es[i];
    }
  }

  predicate Covers(e: Extent, p: nat) { e.start <= p < e.start + e.size }

  ghost predicate Inside(es: seq<Extent>, len: nat) {
    forall i | 0 <= i < |es| :: es[i].start + es[i].size <= len
  }

  /** No byte belongs to two extents of the list. */
  ghost predicate Separate(es: seq<Extent>) {
    forall i, j, p: nat | 0 <= i < j < |es| :: !(Covers(es[i], p) && Covers(es[j], p))
  }

  ghost predicate Apart(a: seq<Extent>, b: seq<Extent>) {
    forall i, j, p: nat | 0 <= i < |a| && 0 <= j < |b| :: !(Covers(a[i], p) && Covers(b[j], p))
  }

  ghost predicate InExtents(es: seq<Extent>, p: nat) {
    exists i :: 0 <= i < |es| && Covers(es[i], p)
  }

  lemma LocateInside(es: seq<Extent>, k: nat, len: nat)
    requires k < Total(es) && Inside(es, len)
    ensures Locate(es, k) < len && InExtents(es, Locate(es, k))
  {
    var i, off := LocateFrom(es, k);
    assert Covers(es[i], Locate(es, k));
  }

  lemma LocateInjective(es: seq<Extent>, j: nat, k: nat)
    requires j < k < Total(es) && Separate(es)
    ensures Locate(es, j) != Locate(es, k)
  {
    var a, x := LocateFrom(es, j);
    var b, y := LocateFrom(es, k);
    assert Covers(es[a], Locate(es, j)) && Covers(es[b], Locate(es, k));
    if b < a { TotalMonotone(es, b, a); }
  }

  function ReadAt<T>(data: seq<T>, es: seq<Extent>, k: nat): T
    requires k < Total(es) && Inside(es, |data|)
  {
    LocateInside(es, k, |data|);
    data[Locate(es, k)]
  }

  /** `data` with the first `n` logical bytes of `src` copied onto `dst`. */
  ghost predicate Copied<T>(was: seq<T>, data: seq<T>, src: seq<Extent>, dst: seq<Extent>, n: nat)
    requires Inside(src, |was|) && Inside(dst, |was|) && n <= Total(src) == Total(dst)
  {
    && |data| == |was|
    && (forall k: nat | k < n :: ReadAt(data, dst, k) == ReadAt(was, src, k))
    && (forall p: nat | p < |was| && !InExtents(dst, p) :: data[p] == was[p])
  }

  // ---- Empty extents ----------------------------------------------------------------------

  function NonEmpty(es: seq<Extent>): (r: seq<Extent>)
    ensures forall i | 0 <= i < |r| :: r[i].size > 0 && r[i] in es
  {
    if es == [] then [] else (if es[0].size > 0 then [es[0]] else []) + NonEmpty(es[1..])
  }

  lemma {:induction false} NonEmptyTotal(es: seq<Extent>)
    ensures Total(NonEmpty(es)) == Total(es)
  {
    if es != [] {
      NonEmptyTotal(es[1..]);
      var rest := NonEmpty(es[1..]);
      if es[0].size > 0 {
        assert NonEmpty(es)[1..] == rest && NonEmpty(es)[0] == es[0];
      } else {
        assert NonEmpty(es) == rest;
      }
    }
  }

  lemma {:induction false} NonEmptyLocate(es: seq<Extent>, k: nat)
    requires k < Total(es)
    ensures k < Total(NonEmpty(es)) && Locate(NonEmpty(es), k) == Locate(es, k)
  {
    NonEmptyTotal(es);
    var rest := NonEmpty(es[1..]);
    if es[0].size > 0 {
      assert NonEmpty(es)[1..] == rest && NonEmpty(es)[0] == es[0];
    } else {
      assert NonEmpty(es) == rest;
    }
    if k >= es[0].size { NonEmptyLocate(es[1..], k - es[0].size); }
  }

  lemma {:induction false} NonEmptySeparate(es: seq<Extent>)
    requires Separate(es)
    ensures Separate(NonEmpty(es))
  {
    if es != [] {
      var rest := es[1..];
      assert Separate(rest) by {
        forall i, j, p: nat | 0 <= i < j < |rest| ensures !(Covers(rest[i], p) && Covers(rest[j], p)) {
          assert rest[i] == es[i + 1] && rest[j] == es[j + 1];
        }
      }
      NonEmptySeparate(rest);
      var r := NonEmpty(es);
      if es[0].size > 0 {
        assert r == [es[0]] + NonEmpty(rest);
        forall i, j, p: nat | 0 <= i < j < |r| ensures !(Covers(r[i], p) && Covers(r[j], p)) {
          if i == 0 {
            assert r[j] in rest;
            var m :| 0 <= m < |rest| && rest[m] == r[j];
            assert es[m + 1] == r[j];
          } else {
            assert r[i] == NonEmpty(rest)[i - 1] && r[j] == NonEmpty(rest)[j - 1];
          }
        }
      } else {
        assert r == NonEmpty(rest);
      }
    }
  }

  // ---- The copy ----------------------------------------------------------------------------

  function Overwrite<T>(data: seq<T>, at: nat, piece: seq<T>): (r: seq<T>)
    requires at + |piece| <= |data|
    ensures |r| == |data|
    ensures forall p | 0 <= p < |data| :: r[p] == if at <= p < at + |piece| then piece[p - at] else data[p]
  {
    data[..at] + piece + data[at + |piece|..]
  }

  /** A cursor: extent `i`, byte `off` of it, with `done` bytes before. */
  ghost predicate Cursor(es: seq<Extent>, i: nat, off: nat, done: nat) {
    && i <= |es| && done == Total(es[..i]) + off && (i < |es| ==> off < es[i].size) && (i == |es| ==> off == 0)
  }

  lemma CursorStep(es: seq<Extent>, i: nat, off: nat, done: nat, take: nat)
    requires (forall k | 0 <= k < |es| :: es[k].size > 0) && Cursor(es, i, off, done) && i < |es|
    requires take <= es[i].size - off
    ensures if off + take == es[i].size then Cursor(es, i + 1, 0, done + take)
            else Cursor(es, i, off + take, done + take)
  {
    TotalMonotone(es, i, i + 1);
    TotalSplit(es[..i + 1], i);
    assert es[..i + 1][..i] == es[..i] && es[..i + 1][i..] == [es[i]];
    assert Total([es[i]]) == es[i].size;
  }

  lemma CopyPiece<T>(was: seq<T>, data: seq<T>, after: seq<T>, src: seq<Extent>, dst: seq<Extent>, i: nat, x: nat,
                     j: nat, y: nat, done: nat, take: nat)
    requires Inside(src, |was|) && Inside(dst, |was|) && Separate(dst) && Apart(src, dst) && Total(src) == Total(dst)
    requires done + take <= Total(src) && |data| == |was| && Copied(was, data, src, dst, done)
    requires Cursor(src, i, x, done) && Cursor(dst, j, y, done) && i < |src| && j < |dst|
    requires x + take <= src[i].size && y + take <= dst[j].size
    requires after == Overwrite(data, dst[j].start + y, data[src[i].start + x..src[i].start + x + take])
    ensures Copied(was, after, src, dst, done + take)
  {
    hide Total, Locate, Separate, Apart, ReadAt, Copied;
    forall k: nat | k < done + take ensures ReadAt(after, dst, k) == ReadAt(was, src, k) {
      if k >= done {
        NewByte(was, data, after, src, dst, i, x, j, y, done, take, k);
      } else {
        OldByte(was, data, after, src, dst, j, y, done, take, data[src[i].start + x..src[i].start + x + take], k);
      }
    }
    OthersKept(was, data, after, src, dst, j, y, done, data[src[i].start + x..src[i].start + x + take]);
    CopiedIntro(was, after, src, dst, done + take);
  }

  lemma CopiedIntro<T>(was: seq<T>, data: seq<T>, src: seq<Extent>, dst: seq<Extent>, n: nat)
    requires Inside(src, |was|) && Inside(dst, |was|) && n <= Total(src) == Total(dst) && |data| == |was|
    requires forall k: nat | k < n :: ReadAt(data, dst, k) == ReadAt(was, src, k)
    requires forall p: nat | p < |was| && !InExtents(dst, p) :: data[p] == was[p]
    ensures Copied(was, data, src, dst, n)
  {
  }

  lemma NewByte<T>(was: seq<T>, data: seq<T>, after: seq<T>, src: seq<Extent>, dst: seq<Extent>, i: nat, x: nat, j: nat,
                   y: nat, done: nat, take: nat, k: nat)
    requires Inside(src, |was|) && Inside(dst, |was|) && Apart(src, dst) && Total(src) == Total(dst)
    requires done + take <= Total(src) && Copied(was, data, src, dst, done) && |data| == |was|
    requires Cursor(src, i, x, done) && Cursor(dst, j, y, done) && i < |src| && j < |dst|
    requires x + take <= src[i].size && y + take <= dst[j].size && done <= k < done + take
    requires after == Overwrite(data, dst[j].start + y, data[src[i].start + x..src[i].start + x + take])
    ensures ReadAt(after, dst, k) == ReadAt(was, src, k)
  {
    hide Total, Locate, Apart, Copied, Overwrite;
    var t := k - done;
    var from, to := src[i].start + x, dst[j].start + y;
    assert Locate(src, k) == from + t by { CursorByte(src, i, x, done, t); }
    assert Locate(dst, k) == to + t by { CursorByte(dst, j, y, done, t); }
    hide Cursor;
    SourceKept(was, data, src, dst, done, i, from + t);
    assert after[to + t] == data[from..from + take][t];
  }

  lemma CursorByte(es: seq<Extent>, i: nat, off: nat, done: nat, t: nat)
    requires Cursor(es, i, off, done) && i < |es| && off + t < es[i].size
    ensures done + t < Total(es) && Locate(es, done + t) == es[i].start + off + t
  {
    LocateAt(es, i, off + t);
  }

  lemma OldByte<T>(was: seq<T>, data: seq<T>, after: seq<T>, src: seq<Extent>, dst: seq<Extent>, j: nat, y: nat,
                   done: nat, take: nat, piece: seq<T>, k: nat)
    requires Inside(src, |was|) && Inside(dst, |was|) && Separate(dst) && Total(src) == Total(dst) && |piece| == take
    requires |data| == |was|
    requires done + take <= Total(src) && Copied(was, data, src, dst, done) && k < done
    requires Cursor(dst, j, y, done) && j < |dst| && y + take <= dst[j].size
    requires after == Overwrite(data, dst[j].start + y, piece)
    ensures ReadAt(after, dst, k) == ReadAt(was, src, k)
  {
    assert ReadAt(data, dst, k) == ReadAt(was, src, k);
    hide Total, Locate, Separate, Copied;
    EarlierElsewhere(dst, j, y, done, take, k);
    LocateInside(dst, k, |was|);
  }

  lemma OthersKept<T>(was: seq<T>, data: seq<T>, after: seq<T>, src: seq<Extent>, dst: seq<Extent>, j: nat, y: nat,
                      done: nat, piece: seq<T>)
    requires Inside(src, |was|) && Inside(dst, |was|) && done <= Total(src) == Total(dst)
    requires Copied(was, data, src, dst, done) && |data| == |was|
    requires j < |dst| && y + |piece| <= dst[j].size && after == Overwrite(data, dst[j].start + y, piece)
    ensures forall p: nat | p < |was| && !InExtents(dst, p) :: after[p] == was[p]
  {
    forall p: nat | p < |was| && !InExtents(dst, p) ensures after[p] == was[p] {
      assert !Covers(dst[j], p);
    }
  }

  lemma EarlierElsewhere(dst: seq<Extent>, j: nat, y: nat, done: nat, take: nat, k: nat)
    requires Separate(dst) && Cursor(dst, j, y, done) && j < |dst| && y + take <= dst[j].size && k < done <= Total(dst)
    ensures !(dst[j].start + y <= Locate(dst, k) < dst[j].start + y + take)
  {
    hide Separate;
    var to, p := dst[j].start + y, Locate(dst, k);
    if to <= p < to + take {
      LocateAt(dst, j, y + (p - to));
      LocateInjective(dst, k, done + (p - to));
    }
  }

  lemma CursorStart(es: seq<Extent>)
    requires forall k | 0 <= k < |es| :: es[k].size > 0
    ensures Cursor(es, 0, 0, 0)
  {
    assert es[..0] == [];
  }

  lemma CursorInside(es: seq<Extent>, i: nat, off: nat, done: nat)
    requires Cursor(es, i, off, done) && done < Total(es)
    ensures i < |es| && off < es[i].size
  {
    assert es[..|es|] == es;
  }

  lemma SourceKept<T>(was: seq<T>, data: seq<T>, src: seq<Extent>, dst: seq<Extent>, done: nat, i: nat, p: nat)
    requires Inside(src, |was|) && Inside(dst, |was|) && Apart(src, dst) && done <= Total(src) == Total(dst)
    requires Copied(was, data, src, dst, done)
    requires i < |src| && Covers(src[i], p)
    ensures p < |was| && data[p] == was[p]
  {
    forall j | 0 <= j < |dst| ensures !Covers(dst[j], p) {}
    assert !InExtents(dst, p);
  }

  /** The loop of _copy_run_sequences: pieces bounded by the chunk and by both current extents. */
  method CopyPieces<T>(data: seq<T>, src: seq<Extent>, dst: seq<Extent>, chunk: nat) returns (out: seq<T>)
    requires chunk > 0 && Inside(src, |data|) && Inside(dst, |data|)
    requires (forall k | 0 <= k < |src| :: src[k].size > 0) && (forall k | 0 <= k < |dst| :: dst[k].size > 0)
    requires Separate(dst) && Apart(src, dst) && Total(src) == Total(dst)
    ensures |out| == |data| && Copied(data, out, src, dst, Total(src))
  {
    hide Total, Locate, Separate, Apart, Copied, Cursor, ReadAt, Overwrite, InExtents;
    out := data;
    var i: nat, j: nat, x: nat, y: nat := 0, 0, 0, 0;
    var remaining: nat := Total(src);
    CursorStart(src);
    CursorStart(dst);
    CopiedNone(data, src, dst);
    while remaining > 0
      invariant remaining <= Total(src) && Cursor(src, i, x, Total(src) - remaining)
      invariant Cursor(dst, j, y, Total(src) - remaining)
      invariant |out| == |data| && Copied(data, out, src, dst, Total(src) - remaining)
    {
      ghost var done := Total(src) - remaining;
      CursorInside(src, i, x, done);
      CursorInside(dst, j, y, done);
      var take := if chunk < remaining then chunk else remaining;
      if src[i].size - x < take { take := src[i].size - x; }
      if dst[j].size - y < take { take := dst[j].size - y; }
      ghost var before := out;
      var piece := out[src[i].start + x..src[i].start + x + take];
      out := Overwrite(out, dst[j].start + y, piece);
      CopyPiece(data, before, out, src, dst, i, x, j, y, done, take);
      CursorStep(src, i, x, done, take);
      CursorStep(dst, j, y, done, take);
      x, y, remaining := x + take, y + take, remaining - take;
      if x == src[i].size { i, x := i + 1, 0; }
      if y == dst[j].size { j, y := j + 1, 0; }
    }
  }

  lemma CopiedNone<T>(data: seq<T>, src: seq<Extent>, dst: seq<Extent>)
    requires Inside(src, |data|) && Inside(dst, |data|) && Total(src) == Total(dst)
    ensures Copied(data, data, src, dst, 0)
  {
  }

  /** _copy_run_sequences: the destinations read as the sources did; nothing else changes. */
  method CopyExtents<T>(data: seq<T>, sources: seq<Extent>, destinations: seq<Extent>, chunk: nat) returns (out: seq<T>)
    requires chunk > 0 && Inside(sources, |data|) && Inside(destinations, |data|)
    requires Separate(destinations) && Apart(sources, destinations) && Total(sources) == Total(destinations)
    ensures |out| == |data|
    ensures forall k: nat | k < Total(sources) :: ReadAt(out, destinations, k) == ReadAt(data, sources, k)
    ensures forall p: nat | p < |data| && !InExtents(destinations, p) :: out[p] == data[p]
  {
    var src, dst := NonEmpty(sources), NonEmpty(destinations);
    hide Separate, Apart, Total, Locate;
    NonEmptyFacts(sources, destinations, |data|);
    out := CopyPieces(data, src, dst, chunk);
    hide Copied;
    CopiedAll(data, out, sources, destinations);
  }

  lemma NonEmptyFacts(sources: seq<Extent>, destinations: seq<Extent>, len: nat)
    requires Inside(sources, len) && Inside(destinations, len)
    requires Separate(destinations) && Apart(sources, destinations) && Total(sources) == Total(destinations)
    ensures var src, dst := NonEmpty(sources), NonEmpty(destinations);
            && Inside(src, len) && Inside(dst, len) && Separate(dst) && Apart(src, dst)
            && Total(src) == Total(dst) == Total(sources)
  {
    NonEmptyTotal(sources);
    NonEmptyTotal(destinations);
    NonEmptySeparate(destinations);
    var src, dst := NonEmpty(sources), NonEmpty(destinations);
    forall i, j, p: nat | 0 <= i < |src| && 0 <= j < |dst| ensures !(Covers(src[i], p) && Covers(dst[j], p)) {
      assert src[i] in sources && dst[j] in destinations;
    }
  }

  lemma CopiedAll<T>(data: seq<T>, out: seq<T>, sources: seq<Extent>, destinations: seq<Extent>)
    requires Inside(sources, |data|) && Inside(destinations, |data|) && Total(sources) == Total(destinations)
    requires var src, dst := NonEmpty(sources), NonEmpty(destinations);
             && Inside(src, |data|) && Inside(dst, |data|) && Total(src) == Total(dst) == Total(sources)
             && Copied(data, out, src, dst, Total(src))
    ensures |out| == |data|
    ensures forall k: nat | k < Total(sources) :: ReadAt(out, destinations, k) == ReadAt(data, sources, k)
    ensures forall p: nat | p < |data| && !InExtents(destinations, p) :: out[p] == data[p]
  {
    var src, dst := NonEmpty(sources), NonEmpty(destinations);
    forall p: nat | p < |data| && !InExtents(destinations, p) ensures out[p] == data[p] {
      forall i | 0 <= i < |dst| ensures !Covers(dst[i], p) {
        assert dst[i] in destinations;
        var m :| 0 <= m < |destinations| && destinations[m] == dst[i];
      }
      assert !InExtents(dst, p);
    }
    forall k: nat | k < Total(sources) ensures ReadAt(out, destinations, k) == ReadAt(data, sources, k) {
      NonEmptyLocate(sources, k);
      NonEmptyLocate(destinations, k);
      assert ReadAt(out, dst, k) == ReadAt(data, src, k);
    }
  }
}
