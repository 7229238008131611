/**
 The HFS+ relocation transaction: byte patches with old and new contents for the
 staged bitmap, the final bitmap, the extent descriptors and the volume headers.
 Between two syncs any selection of the bytes being written may reach the device.
 */
module HfsMove {
  import opened Basics

  datatype Patch = Patch(offset: nat, before: seq<bv8>, after: seq<bv8>)

  // ---- Patch lists ------------------------------------------------------------------------

  predicate Covers(p: Patch, i: nat) { p.offset <= i < p.offset + |p.before| }

  ghost predicate Covered(ps: seq<Patch>, i: nat) {
    exists n :: 0 <= n < |ps| && Covers(ps[n], i)
  }

  /** Patches inside the device, with both contents of one size, that do not overlap. */
  ghost predicate WellFormed(ps: seq<Patch>, size: nat) {
    && (forall n | 0 <= n < |ps| :: |ps[n].after| == |ps[n].before| && ps[n].offset + |ps[n].before| <= size)
    && (forall m, n, i: nat | 0 <= m < n < |ps| :: !(Covers(ps[m], i) && Covers(ps[n], i)))
  }

  function Content(p: Patch, useNew: bool): seq<bv8> { if useNew then p.after else p.before }

  function Write(dev: seq<bv8>, offset: nat, data: seq<bv8>): (r: seq<bv8>)
    ensures |r| == |dev|
  {
    seq(|dev|, i requires 0 <= i < |dev| => if offset <= i < offset + |data| then data[i - offset] else dev[i])
  }

  function Apply(dev: seq<bv8>, ps: seq<Patch>, useNew: bool): (r: seq<bv8>)
    ensures |r| == |dev|
  {
    if ps == [] then dev
    else Write(Apply(dev, ps[..|ps| - 1], useNew), ps[|ps| - 1].offset, Content(ps[|ps| - 1], useNew))
  }

  /** apply_patches. */
  method ApplyPatches(dev: seq<bv8>, ps: seq<Patch>, useNew: bool) returns (r: seq<bv8>)
    ensures r == Apply(dev, ps, useNew)
  {
    r := dev;
    for n := 0 to |ps|
      invariant r == Apply(dev, ps[..n], useNew)
    {
      r := Write(r, ps[n].offset, if useNew then ps[n].after else ps[n].before);
      assert ps[..n + 1][..n] == ps[..n];
    }
    assert ps[..|ps|] == ps;
  }

  lemma {:induction false} ApplyAt(dev: seq<bv8>, ps: seq<Patch>, useNew: bool, n: nat, i: nat)
    requires WellFormed(ps, |dev|) && n < |ps| && Covers(ps[n], i)
    ensures i < |dev| && Apply(dev, ps, useNew)[i] == Content(ps[n], useNew)[i - ps[n].offset]
  {
    var rest := ps[..|ps| - 1];
    assert WellFormed(rest, |dev|);
    if n < |rest| {
      ApplyAt(dev, rest, useNew, n, i);
      assert !Covers(ps[|ps| - 1], i);
    }
  }

  lemma {:induction false} ApplyElsewhere(dev: seq<bv8>, ps: seq<Patch>, useNew: bool, i: nat)
    requires WellFormed(ps, |dev|) && i < |dev| && !Covered(ps, i)
    ensures Apply(dev, ps, useNew)[i] == dev[i]
  {
    if ps != [] {
      var rest := ps[..|ps| - 1];
      assert WellFormed(rest, |dev|);
      assert !Covered(rest, i) by {
        assert forall n | 0 <= n < |rest| :: !Covers(ps[n], i);
      }
      assert !Covers(ps[|ps| - 1], i);
      ApplyElsewhere(dev, rest, useNew, i);
    }
  }

  /** Applying the same patches to two devices makes their covered bytes equal. */
  lemma ApplySame(a: seq<bv8>, b: seq<bv8>, ps: seq<Patch>, useNew: bool, i: nat)
    requires |a| == |b| && WellFormed(ps, |a|) && i < |a| && (Covered(ps, i) || a[i] == b[i])
    ensures Apply(a, ps, useNew)[i] == Apply(b, ps, useNew)[i]
  {
    if Covered(ps, i) {
      var n :| 0 <= n < |ps| && Covers(ps[n], i);
      ApplyAt(a, ps, useNew, n, i);
      ApplyAt(b, ps, useNew, n, i);
    } else {
      ApplyElsewhere(a, ps, useNew, i);
      ApplyElsewhere(b, ps, useNew, i);
    }
  }

  /** The patches were taken from this device. */
  ghost predicate TakenFrom(ps: seq<Patch>, dev: seq<bv8>) {
    && WellFormed(ps, |dev|)
    && forall n | 0 <= n < |ps| :: ps[n].before == dev[ps[n].offset..ps[n].offset + |ps[n].before|]
  }

  /** Writing the old contents back onto the device they came from changes nothing. */
  lemma OldIsIdentity(dev: seq<bv8>, ps: seq<Patch>)
    requires TakenFrom(ps, dev)
    ensures Apply(dev, ps, false) == dev
  {
    forall i: nat | i < |dev| ensures Apply(dev, ps, false)[i] == dev[i] {
      if Covered(ps, i) {
        var n :| 0 <= n < |ps| && Covers(ps[n], i);
        ApplyAt(dev, ps, false, n, i);
      } else {
        ApplyElsewhere(dev, ps, false, i);
      }
    }
  }

  // ---- The transaction ------------------------------------------------------------------------

  datatype Journal = Journal(metadata: seq<Patch>, bitmapStage: seq<Patch>, bitmapFinal: seq<Patch>,
                             headersStage: seq<Patch>, headersFinal: seq<Patch>)

  ghost predicate Disjoint(a: seq<Patch>, b: seq<Patch>) {
    forall i: nat :: !(Covered(a, i) && Covered(b, i))
  }

  /** A journal written for this device.  Metadata patches really change something. */
  ghost predicate Ready(dev: seq<bv8>, j: Journal) {
    && TakenFrom(j.metadata, dev) && TakenFrom(j.bitmapStage, dev) && TakenFrom(j.bitmapFinal, dev)
    && TakenFrom(j.headersStage, dev) && TakenFrom(j.headersFinal, dev)
    && Disjoint(j.metadata, j.bitmapFinal) && Disjoint(j.metadata, j.headersFinal)
    && Disjoint(j.bitmapFinal, j.headersFinal)
    && (forall i: nat | Covered(j.bitmapStage, i) :: Covered(j.bitmapFinal, i))
    && (forall i: nat | Covered(j.headersStage, i) :: Covered(j.headersFinal, i))
    && (forall n | 0 <= n < |j.metadata| :: j.metadata[n].after != j.metadata[n].before)
  }

  function Staged(dev: seq<bv8>, j: Journal): seq<bv8> {
    Apply(Apply(dev, j.bitmapStage, true), j.headersStage, true)
  }

  function Switched(dev: seq<bv8>, j: Journal): seq<bv8> {
    Apply(Staged(dev, j), j.metadata, true)
  }

  function Finished(dev: seq<bv8>, j: Journal): seq<bv8> {
    Apply(Apply(Switched(dev, j), j.bitmapFinal, true), j.headersFinal, true)
  }

  /** What recovery reads: every descriptor holds its new contents. */
  predicate AllNew(dev: seq<bv8>, ps: seq<Patch>) {
    ps != [] && forall n | 0 <= n < |ps| ::
      ps[n].offset + |ps[n].after| <= |dev| && dev[ps[n].offset..ps[n].offset + |ps[n].after|] == ps[n].after
  }

  predicate Committed(dev: seq<bv8>, j: Journal, switched: bool) { switched || AllNew(dev, j.metadata) }

  /** recover: complete a committed switch, roll anything else back. */
  function Recover(dev: seq<bv8>, j: Journal, switched: bool): seq<bv8> {
    if Committed(dev, j, switched) then
      Apply(Apply(Apply(dev, j.metadata, true), j.bitmapFinal, true), j.headersFinal, true)
    else Apply(Apply(Apply(dev, j.metadata, false), j.bitmapStage, false), j.headersStage, false)
  }

  /** A power failure after the copy; `switched` tells whether the journal records the
      switch as done, which it does only once the new descriptors are durable. */
  ghost predicate Interrupted(dev: seq<bv8>, j: Journal, x: seq<bv8>, switched: bool) {
    || (!switched && Torn(dev, Staged(dev, j), x))
    || (!switched && Torn(Staged(dev, j), Switched(dev, j), x))
    || (switched && Torn(Switched(dev, j), Finished(dev, j), x))
  }

  // ---- The two sides of the switch ------------------------------------------------------------

  /** Bytes of a patch list are old or new. */
  ghost predicate Mixed(dev: seq<bv8>, ps: seq<Patch>, x: seq<bv8>) {
    |x| == |dev| && forall i: nat | i < |dev| && Covered(ps, i) :: x[i] == dev[i] || x[i] == Apply(dev, ps, true)[i]
  }

  /** Uncommitted: only staged bytes and descriptors may differ from the original. */
  ghost predicate OldSide(dev: seq<bv8>, j: Journal, x: seq<bv8>, switched: bool) {
    && !Committed(x, j, switched) && Mixed(dev, j.metadata, x)
    && forall i: nat | i < |dev| && !Covered(j.metadata, i) && !Covered(j.bitmapStage, i) &&
       !Covered(j.headersStage, i) ::
         x[i] == dev[i]
  }

  /** Committed: the descriptors are new, only bitmap and header bytes may still differ. */
  ghost predicate NewSide(dev: seq<bv8>, j: Journal, x: seq<bv8>, switched: bool) {
    && Committed(x, j, switched) && |x| == |dev|
    && (forall i: nat | i < |dev| && Covered(j.metadata, i) :: x[i] == Apply(dev, j.metadata, true)[i])
    && forall i: nat | i < |dev| && !Covered(j.metadata, i) && !Covered(j.bitmapFinal, i) &&
       !Covered(j.headersFinal, i) ::
         x[i] == dev[i]
  }

  /** Rolling back restores the device byte for byte. */
  lemma RollsBack(dev: seq<bv8>, j: Journal, x: seq<bv8>, switched: bool)
    requires Ready(dev, j) && OldSide(dev, j, x, switched)
    ensures Recover(x, j, switched) == dev
  {
    var a := Apply(x, j.metadata, false);
    var b := Apply(a, j.bitmapStage, false);
    OldIsIdentity(dev, j.metadata);
    OldIsIdentity(dev, j.bitmapStage);
    OldIsIdentity(dev, j.headersStage);
    hide TakenFrom, Apply, Committed;
    forall i: nat | i < |dev| ensures Recover(x, j, switched)[i] == dev[i] {
      RestoredByte(dev, j, x, a, b, i);
    }
  }

  lemma RestoredByte(dev: seq<bv8>, j: Journal, x: seq<bv8>, a: seq<bv8>, b: seq<bv8>, i: nat)
    requires |x| == |dev| && i < |dev| && WellFormed(j.metadata, |dev|) && WellFormed(j.bitmapStage, |dev|)
    requires WellFormed(j.headersStage, |dev|)
    requires Apply(dev, j.metadata, false) == dev && Apply(dev, j.bitmapStage, false) == dev
    requires Apply(dev, j.headersStage, false) == dev
    requires a == Apply(x, j.metadata, false) && b == Apply(a, j.bitmapStage, false)
    requires !Covered(j.metadata, i) && !Covered(j.bitmapStage, i) && !Covered(j.headersStage, i) ==> x[i] == dev[i]
    ensures Apply(b, j.headersStage, false)[i] == dev[i]
  {
    hide Apply, WellFormed;
    if Covered(j.headersStage, i) {
      ApplySame(b, dev, j.headersStage, false, i);
    } else {
      ApplyElsewhere(b, j.headersStage, false, i);
      if Covered(j.bitmapStage, i) {
        ApplySame(a, dev, j.bitmapStage, false, i);
      } else {
        ApplyElsewhere(a, j.bitmapStage, false, i);
        ApplySame(x, dev, j.metadata, false, i);
      }
    }
  }

  /** The moved device: new descriptors, final bitmap, final headers. */
  function Moved(dev: seq<bv8>, j: Journal): seq<bv8> {
    Apply(Apply(Apply(dev, j.metadata, true), j.bitmapFinal, true), j.headersFinal, true)
  }

  lemma RollsForward(dev: seq<bv8>, j: Journal, x: seq<bv8>, switched: bool)
    requires Ready(dev, j) && NewSide(dev, j, x, switched)
    ensures Recover(x, j, switched) == Moved(dev, j)
  {
    hide Apply, Committed;
    forall i: nat | i < |dev| ensures Recover(x, j, switched)[i] == Moved(dev, j)[i] {
      FinalByte(dev, j, x, i);
    }
  }

  lemma FinalByte(dev: seq<bv8>, j: Journal, x: seq<bv8>, i: nat)
    requires |x| == |dev| && i < |dev| && WellFormed(j.metadata, |dev|) && WellFormed(j.bitmapFinal, |dev|)
    requires WellFormed(j.headersFinal, |dev|)
    requires !Covered(j.metadata, i) && !Covered(j.bitmapFinal, i) && !Covered(j.headersFinal, i) ==> x[i] == dev[i]
    ensures Moved(x, j)[i] == Moved(dev, j)[i]
  {
    hide Apply, WellFormed;
    var a, b := Apply(x, j.metadata, true), Apply(dev, j.metadata, true);
    var c, d := Apply(a, j.bitmapFinal, true), Apply(b, j.bitmapFinal, true);
    if !Covered(j.headersFinal, i) {
      if !Covered(j.bitmapFinal, i) { ApplySame(x, dev, j.metadata, true, i); }
      ApplySame(a, b, j.bitmapFinal, true, i);
    }
    ApplySame(c, d, j.headersFinal, true, i);
  }

  // ---- Crash states ------------------------------------------------------------------------------

  lemma StagedByte(dev: seq<bv8>, j: Journal, i: nat)
    requires Ready(dev, j) && i < |dev|
    ensures |Staged(dev, j)| == |dev|
    ensures (!Covered(j.bitmapStage, i) && !Covered(j.headersStage, i) ==> Staged(dev, j)[i] == dev[i])
    ensures Covered(j.metadata, i) ==> !Covered(j.bitmapStage, i) && !Covered(j.headersStage, i)
  {
    hide Apply;
    var a := Apply(dev, j.bitmapStage, true);
    if !Covered(j.bitmapStage, i) && !Covered(j.headersStage, i) {
      ApplyElsewhere(dev, j.bitmapStage, true, i);
      ApplyElsewhere(a, j.headersStage, true, i);
    }
  }

  lemma SwitchedByte(dev: seq<bv8>, j: Journal, i: nat)
    requires Ready(dev, j) && i < |dev|
    ensures |Switched(dev, j)| == |dev|
    ensures Switched(dev, j)[i] == if Covered(j.metadata, i) then Apply(dev, j.metadata, true)[i] else Staged(dev, j)[i]
  {
    StagedByte(dev, j, i);
    hide Apply, Staged;
    if Covered(j.metadata, i) {
      ApplySame(Staged(dev, j), dev, j.metadata, true, i);
    } else {
      ApplyElsewhere(Staged(dev, j), j.metadata, true, i);
    }
  }

  lemma FinishedByte(dev: seq<bv8>, j: Journal, i: nat)
    requires Ready(dev, j) && i < |dev|
    ensures |Finished(dev, j)| == |dev|
    ensures !Covered(j.bitmapFinal, i) && !Covered(j.headersFinal, i) ==> Finished(dev, j)[i] == Switched(dev, j)[i]
  {
    hide Apply, Switched;
    SwitchedByte(dev, j, i);
    var a := Apply(Switched(dev, j), j.bitmapFinal, true);
    if !Covered(j.bitmapFinal, i) && !Covered(j.headersFinal, i) {
      ApplyElsewhere(Switched(dev, j), j.bitmapFinal, true, i);
      ApplyElsewhere(a, j.headersFinal, true, i);
    }
  }

  /** Descriptors reading all new are new byte for byte. */
  lemma AllNewBytes(dev: seq<bv8>, ps: seq<Patch>, x: seq<bv8>, i: nat)
    requires WellFormed(ps, |dev|) && |x| == |dev| && AllNew(x, ps) && i < |dev| && Covered(ps, i)
    ensures x[i] == Apply(dev, ps, true)[i]
  {
    var n :| 0 <= n < |ps| && Covers(ps[n], i);
    ApplyAt(dev, ps, true, n, i);
    assert x[ps[n].offset..ps[n].offset + |ps[n].after|] == ps[n].after;
    assert x[i] == ps[n].after[i - ps[n].offset];
  }

  /** A descriptor still holding its old contents is not new. */
  lemma NotAllNew(dev: seq<bv8>, j: Journal, x: seq<bv8>)
    requires Ready(dev, j) && |x| == |dev| && forall i: nat | i < |dev| && Covered(j.metadata, i) :: x[i] == dev[i]
    ensures !AllNew(x, j.metadata)
  {
    if j.metadata != [] {
      var p := j.metadata[0];
      var now, once := x[p.offset..p.offset + |p.before|], dev[p.offset..p.offset + |p.before|];
      forall k | 0 <= k < |p.before| ensures now[k] == once[k] {
        assert Covers(j.metadata[0], p.offset + k);
      }
      assert now == once == p.before;
    }
  }

  lemma BeforeSwitch(dev: seq<bv8>, j: Journal, x: seq<bv8>)
    requires Ready(dev, j) && Torn(dev, Staged(dev, j), x)
    ensures OldSide(dev, j, x, false)
  {
    hide Apply, AllNew, Staged;
    forall i: nat | i < |dev| ensures Covered(j.metadata, i) ==> x[i] == dev[i] { StagedByte(dev, j, i); }
    NotAllNew(dev, j, x);
    hide Ready;
    forall i: nat | i < |dev| && !Covered(j.metadata, i) && !Covered(j.bitmapStage, i) && !Covered(j.headersStage, i)
      ensures x[i] == dev[i]
    {
      StagedByte(dev, j, i);
    }
  }

  lemma DuringSwitch(dev: seq<bv8>, j: Journal, x: seq<bv8>)
    requires Ready(dev, j) && Torn(Staged(dev, j), Switched(dev, j), x)
    ensures OldSide(dev, j, x, false) || NewSide(dev, j, x, false)
  {
    hide Apply, AllNew, Staged, Switched;
    assert |x| == |dev| by { assert |Staged(dev, j)| == |dev| by { StagedSize(dev, j); } }
    forall i: nat | i < |dev|
      ensures Covered(j.metadata, i) ==> x[i] == dev[i] || x[i] == Apply(dev, j.metadata, true)[i]
      ensures !Covered(j.metadata, i) && !Covered(j.bitmapStage, i) && !Covered(j.headersStage, i) ==> x[i] == dev[i]
    {
      StagedByte(dev, j, i);
      SwitchedByte(dev, j, i);
    }
    if AllNew(x, j.metadata) {
      forall i: nat | i < |dev| && Covered(j.metadata, i) ensures x[i] == Apply(dev, j.metadata, true)[i] {
        AllNewBytes(dev, j.metadata, x, i);
      }
    }
  }

  lemma StagedSize(dev: seq<bv8>, j: Journal)
    ensures |Staged(dev, j)| == |dev| && |Switched(dev, j)| == |dev|
  {
  }

  lemma AfterSwitch(dev: seq<bv8>, j: Journal, x: seq<bv8>)
    requires Ready(dev, j) && Torn(Switched(dev, j), Finished(dev, j), x)
    ensures NewSide(dev, j, x, true)
  {
    hide Apply, AllNew, Staged, Switched, Finished;
    assert |x| == |dev| by { StagedSize(dev, j); }
    forall i: nat | i < |dev|
      ensures Covered(j.metadata, i) ==> x[i] == Apply(dev, j.metadata, true)[i]
      ensures !Covered(j.metadata, i) && !Covered(j.bitmapFinal, i) && !Covered(j.headersFinal, i) ==> x[i] == dev[i]
    {
      StagedByte(dev, j, i);
      SwitchedByte(dev, j, i);
      FinishedByte(dev, j, i);
    }
  }

  /** Every crash state lies on one side of the switch. */
  lemma InterruptedSides(dev: seq<bv8>, j: Journal, x: seq<bv8>, switched: bool)
    requires Ready(dev, j) && Interrupted(dev, j, x, switched)
    ensures OldSide(dev, j, x, switched) || NewSide(dev, j, x, switched)
  {
    hide Ready, OldSide, NewSide, Torn, Staged, Switched, Finished;
    if switched {
      AfterSwitch(dev, j, x);
    } else if Torn(dev, Staged(dev, j), x) {
      BeforeSwitch(dev, j, x);
    } else {
      DuringSwitch(dev, j, x);
    }
  }

  /** A cut rollback is still uncommitted, a cut completion still committed. */
  lemma StaysOld(dev: seq<bv8>, j: Journal, x: seq<bv8>, y: seq<bv8>, switched: bool)
    requires Ready(dev, j) && OldSide(dev, j, x, switched) && Torn(x, dev, y)
    ensures OldSide(dev, j, y, switched)
  {
    hide Apply;
    NewOnlyIfNew(dev, j.metadata, x, y);
  }

  lemma NewOnlyIfNew(dev: seq<bv8>, ps: seq<Patch>, x: seq<bv8>, y: seq<bv8>)
    requires WellFormed(ps, |dev|) && Mixed(dev, ps, x) && Torn(x, dev, y)
    ensures AllNew(y, ps) ==> AllNew(x, ps)
  {
    if AllNew(y, ps) {
      forall n | 0 <= n < |ps|
        ensures ps[n].offset + |ps[n].after| <= |x| && x[ps[n].offset..ps[n].offset + |ps[n].after|] == ps[n].after
      {
        StillNew(dev, ps, x, y, n);
      }
    }
  }

  lemma StillNew(dev: seq<bv8>, ps: seq<Patch>, x: seq<bv8>, y: seq<bv8>, n: nat)
    requires WellFormed(ps, |dev|) && Mixed(dev, ps, x) && Torn(x, dev, y) && AllNew(y, ps) && n < |ps|
    ensures ps[n].offset + |ps[n].after| <= |x| && x[ps[n].offset..ps[n].offset + |ps[n].after|] == ps[n].after
  {
    var p := ps[n];
    var now, later := x[p.offset..p.offset + |p.after|], y[p.offset..p.offset + |p.after|];
    assert later == p.after;
    forall k | 0 <= k < |p.after| ensures now[k] == p.after[k] {
      assert y[p.offset + k] == later[k];
      StillNewByte(dev, ps, x, y, n, p.offset + k);
    }
  }

  lemma StillNewByte(dev: seq<bv8>, ps: seq<Patch>, x: seq<bv8>, y: seq<bv8>, n: nat, i: nat)
    requires WellFormed(ps, |dev|) && Mixed(dev, ps, x) && Torn(x, dev, y) && n < |ps| && Covers(ps[n], i)
    requires i < |y| && y[i] == ps[n].after[i - ps[n].offset]
    ensures x[i] == y[i]
  {
    ApplyAt(dev, ps, true, n, i);
    hide Apply, WellFormed;
  }

  lemma StaysNew(dev: seq<bv8>, j: Journal, x: seq<bv8>, y: seq<bv8>, switched: bool)
    requires Ready(dev, j) && NewSide(dev, j, x, switched) && Torn(x, Moved(dev, j), y)
    ensures NewSide(dev, j, y, switched)
  {
    hide Apply, Moved, AllNew;
    forall i: nat | i < |dev|
      ensures Covered(j.metadata, i) ==> y[i] == x[i]
      ensures !Covered(j.metadata, i) && !Covered(j.bitmapFinal, i) && !Covered(j.headersFinal, i) ==> y[i] == dev[i]
    {
      MovedByte(dev, j, i);
    }
    SameAllNew(j.metadata, x, y);
  }

  lemma SameAllNew(ps: seq<Patch>, x: seq<bv8>, y: seq<bv8>)
    requires |x| == |y| && WellFormed(ps, |x|) && forall i: nat | i < |x| && Covered(ps, i) :: y[i] == x[i]
    ensures AllNew(x, ps) ==> AllNew(y, ps)
  {
    if AllNew(x, ps) {
      forall n | 0 <= n < |ps| ensures y[ps[n].offset..ps[n].offset + |ps[n].after|] == ps[n].after {
        var p := ps[n];
        var a, b := x[p.offset..p.offset + |p.after|], y[p.offset..p.offset + |p.after|];
        forall k | 0 <= k < |p.after| ensures a[k] == b[k] { assert Covers(ps[n], p.offset + k); }
        assert a == b;
      }
    }
  }

  lemma MovedByte(dev: seq<bv8>, j: Journal, i: nat)
    requires Ready(dev, j) && i < |dev|
    ensures |Moved(dev, j)| == |dev|
    ensures Covered(j.metadata, i) ==> Moved(dev, j)[i] == Apply(dev, j.metadata, true)[i]
    ensures !Covered(j.metadata, i) && !Covered(j.bitmapFinal, i) && !Covered(j.headersFinal, i) ==>
      Moved(dev, j)[i] == dev[i]
  {
    hide Apply;
    var a := Apply(dev, j.metadata, true);
    var b := Apply(a, j.bitmapFinal, true);
    if !Covered(j.bitmapFinal, i) && !Covered(j.headersFinal, i) {
      ApplyElsewhere(a, j.bitmapFinal, true, i);
      ApplyElsewhere(b, j.headersFinal, true, i);
      if !Covered(j.metadata, i) { ApplyElsewhere(dev, j.metadata, true, i); }
    }
  }

  /** Any number of interrupted recoveries under one journal stage. */
  ghost predicate Attempts(j: Journal, switched: bool, xs: seq<seq<bv8>>) {
    xs != [] && forall i | 0 <= i < |xs| - 1 :: Torn(xs[i], Recover(xs[i], j, switched), xs[i + 1])
  }

  lemma {:induction false} AttemptsStay(dev: seq<bv8>, j: Journal, switched: bool, xs: seq<seq<bv8>>, i: nat)
    requires Ready(dev, j) && Attempts(j, switched, xs) && i < |xs|
    ensures OldSide(dev, j, xs[0], switched) ==> OldSide(dev, j, xs[i], switched)
    ensures NewSide(dev, j, xs[0], switched) ==> NewSide(dev, j, xs[i], switched)
  {
    hide Ready, OldSide, NewSide, Torn, Recover;
    if i > 0 {
      AttemptsStay(dev, j, switched, xs, i - 1);
      if OldSide(dev, j, xs[0], switched) {
        RollsBack(dev, j, xs[i - 1], switched);
        StaysOld(dev, j, xs[i - 1], xs[i], switched);
      }
      if NewSide(dev, j, xs[0], switched) {
        RollsForward(dev, j, xs[i - 1], switched);
        StaysNew(dev, j, xs[i - 1], xs[i], switched);
      }
    }
  }

  /** After a power failure anywhere in the transaction and any number of them in
      recovery, recovery ends with exactly the original or exactly the moved device. */
  lemma TransactionIsAtomic(dev: seq<bv8>, j: Journal, switched: bool, xs: seq<seq<bv8>>, i: nat)
    requires Ready(dev, j) && Attempts(j, switched, xs) && Interrupted(dev, j, xs[0], switched) && i < |xs|
    ensures Recover(xs[i], j, switched) == if Committed(xs[0], j, switched) then Moved(dev, j) else dev
  {
    InterruptedSides(dev, j, xs[0], switched);
    AttemptsStay(dev, j, switched, xs, i);
    if Committed(xs[0], j, switched) {
      RollsForward(dev, j, xs[i], switched);
    } else {
      RollsBack(dev, j, xs[i], switched);
    }
  }

  // ---- Completing and recovering ------------------------------------------------------------------------

  /** An uninterrupted run ends where a completed recovery ends. */
  lemma FinishedIsMoved(dev: seq<bv8>, j: Journal)
    requires Ready(dev, j)
    ensures Finished(dev, j) == Moved(dev, j)
  {
    hide Apply, Ready;
    assert |Switched(dev, j)| == |dev| by { StagedSize(dev, j); }
    forall i: nat | i < |dev| ensures Finished(dev, j)[i] == Moved(dev, j)[i] {
      FinishedByteIsMoved(dev, j, i);
    }
  }

  lemma FinishedByteIsMoved(dev: seq<bv8>, j: Journal, i: nat)
    requires Ready(dev, j) && i < |dev|
    ensures |Finished(dev, j)| == |dev| && Finished(dev, j)[i] == Moved(dev, j)[i]
  {
    StagedByte(dev, j, i);
    SwitchedByte(dev, j, i);
    hide Apply, Staged;
    var a, b := Switched(dev, j), Apply(dev, j.metadata, true);
    assert !Covered(j.bitmapFinal, i) && !Covered(j.headersFinal, i) ==> a[i] == b[i] by {
      if !Covered(j.metadata, i) { ApplyElsewhere(dev, j.metadata, true, i); }
    }
    hide Switched;
    var c, d := Apply(a, j.bitmapFinal, true), Apply(b, j.bitmapFinal, true);
    if !Covered(j.headersFinal, i) { ApplySame(a, b, j.bitmapFinal, true, i); }
    ApplySame(c, d, j.headersFinal, true, i);
  }

  /** recover: compare every descriptor, then complete or roll back. */
  method RecoverVolume(dev: seq<bv8>, j: Journal, switched: bool) returns (r: seq<bv8>)
    requires WellFormed(j.metadata, |dev|)
    ensures r == Recover(dev, j, switched)
  {
    hide Apply;
    var allNew := j.metadata != [];
    for n := 0 to |j.metadata|
      invariant allNew <==> j.metadata != [] && forall k | 0 <= k < n ::
        && j.metadata[k].offset + |j.metadata[k].after| <= |dev|
        && dev[j.metadata[k].offset..j.metadata[k].offset + |j.metadata[k].after|] == j.metadata[k].after
    {
      var p := j.metadata[n];
      if dev[p.offset..p.offset + |p.after|] != p.after { allNew := false; }
    }
    if allNew || switched {
      r := ApplyPatches(dev, j.metadata, true);
      r := ApplyPatches(r, j.bitmapFinal, true);
      r := ApplyPatches(r, j.headersFinal, true);
    } else {
      r := ApplyPatches(dev, j.metadata, false);
      r := ApplyPatches(r, j.bitmapStage, false);
      r := ApplyPatches(r, j.headersStage, false);
    }
  }
}
