/** A relocated volume scans to the renamed objects of the old one, with equal contents. */
module FatMeaning {
  import opened Basics
  import opened ClusterLayout
  import opened FatVolume
  import opened FatScan
  import opened FatJournal
  import opened FatRelocation

  // ---- Renaming scan results -----------------------------------------------------------------

  function ImageSet(m: map<nat, nat>, s: set<nat>): set<nat> {
    set c | c in s :: Image(m, c)
  }

  function RenameContainer(m: map<nat, nat>, container: Container): Container {
    MoveOffset(m, Offset(container, 0)).container
  }

  function RenameRec(m: map<nat, nat>, rec: FileRec): FileRec {
    rec.(at := MoveOffset(m, rec.at), first := Image(m, rec.first), chain := RenameChain(m, rec.chain))
  }

  function RenameRef(m: map<nat, nat>, ref: Ref): Ref {
    Ref(MoveOffset(m, ref.at), Image(m, ref.target))
  }

  function RenameState(m: map<nat, nat>, st: State): State {
    State(seq(|st.files|, i requires 0 <= i < |st.files| => RenameRec(m, st.files[i])),
          seq(|st.refs|, i requires 0 <= i < |st.refs| => RenameRef(m, st.refs[i])),
          ImageSet(m, st.visited), ImageSet(m, st.claimed))
  }

  // ---- The relation between the two volumes ---------------------------------------------------

  ghost predicate Used(v: Vol, c: nat)
    requires Loaded(v)
  {
    2 <= c <= v.max && Fat(v, c) != 0
  }

  ghost predicate UsedContainer(v: Vol, container: Container)
    requires Loaded(v)
  {
    container.InCluster? ==> Used(v, container.cluster)
  }

  ghost predicate SameGeometry(v: Vol, v': Vol) {
    v'.max == v.max && v'.kind == v.kind && v'.clusterSize == v.clusterSize && v'.rootFixed == v.rootFixed
  }

  ghost predicate MapInRange(v: Vol, m: map<nat, nat>) {
    forall c | c in m :: 2 <= c <= v.max && 2 <= m[c] <= v.max
  }

  ghost predicate TableRenamed(v: Vol, v': Vol, m: map<nat, nat>)
    requires Loaded(v) && Loaded(v') && v'.max == v.max
  {
    forall c | Used(v, c) :: 2 <= Image(m, c) <= v.max && Fat(v', Image(m, c)) == NewNext(v.max, m, Fat(v, c))
  }

  ghost predicate CellsRenamed(v: Vol, v': Vol, m: map<nat, nat>, refs: seq<Ref>)
    requires Loaded(v) && Loaded(v') && v'.max == v.max && TableRenamed(v, v', m)
  {
    forall container | UsedContainer(v, container) ::
      && |Area(v', RenameContainer(m, container))| == |Area(v, container)|
      && forall s | 0 <= s < |Area(v, container)| ::
           Area(v', RenameContainer(m, container))[s] ==
             RenamedCell(m, refs, Offset(container, s), Area(v, container)[s])
  }

  /** No link is renamed into the reserved range.  FAT12 and FAT16 volumes can have
      clusters numbered 0xFF0.. and 0xFFF0.., which the scan rejects as link values. */
  ghost predicate LinkSafe(v: Vol, m: map<nat, nat>)
    requires Loaded(v)
  {
    forall c | Used(v, c) && Fat(v, c) in m :: m[Fat(v, c)] < ReservedMin(v.kind)
  }

  ghost predicate Related(v: Vol, v': Vol, m: map<nat, nat>, refs: seq<Ref>) {
    && Loaded(v) && Loaded(v') && SameGeometry(v, v') && MapInRange(v, m) && InjectiveOnUsed(v, m)
    && TableRenamed(v, v', m) && CellsRenamed(v, v', m, refs) && LinkSafe(v, m)
  }

  ghost predicate AllUsed(v: Vol, s: set<nat>)
    requires Loaded(v)
  {
    forall c | c in s :: Used(v, c)
  }

  lemma LinkStaysLegal(v: Vol, v': Vol, m: map<nat, nat>, refs: seq<Ref>, c: nat)
    requires Related(v, v', m, refs) && Used(v, c)
    ensures var next, next' := Fat(v, c), Fat(v', Image(m, c));
            && (IsEoc(v, next) <==> IsEoc(v', next')) && (next' == 0 <==> next == 0)
            && (next' == BadValue(v.kind) <==> next == BadValue(v.kind))
            && (IsReserved(v', next') ==> IsReserved(v, next)) && 2 <= Image(m, c) <= v.max
            && (!IsEoc(v, next) && next != BadValue(v.kind) ==> next' == Image(m, next))
  {
    hide CellsRenamed, InjectiveOnUsed;
  }

  /** One link of a chain that reads successfully. */
  lemma ReadStep(v: Vol, cur: nat, seen: set<nat>)
    requires Loaded(v)
    ensures ReadChain(v, cur, seen).Ok? <==>
            && 2 <= cur <= v.max && cur !in seen
            && (IsEoc(v, Fat(v, cur)) ||
                (Fat(v, cur) != 0 && Fat(v, cur) != BadValue(v.kind) && !IsReserved(v, Fat(v, cur))
                                          && ReadChain(v, Fat(v, cur), seen + {cur}).Ok?))
    ensures ReadChain(v, cur, seen).Ok? ==>
            ReadChain(v, cur, seen).value ==
              if IsEoc(v, Fat(v, cur)) then [cur] else [cur] + ReadChain(v, Fat(v, cur), seen + {cur}).value
  {
  }

  lemma {:induction false} SimChain(v: Vol, v': Vol, m: map<nat, nat>, refs: seq<Ref>, cur: nat, seen: set<nat>)
    requires Related(v, v', m, refs) && AllUsed(v, seen) && ReadChain(v, cur, seen).Ok?
    ensures ReadChain(v', Image(m, cur), ImageSet(m, seen)) == Ok(RenameChain(m, ReadChain(v, cur, seen).value))
    decreases Range(2, v.max + 1) - seen
  {
    RelatedParts(v, v', m, refs);
    hide CellsRenamed, LinkSafe, Related, ReadChain, InjectiveOnUsed, TableRenamed, MapInRange, ImageSet, Loaded,
         RenameChain, Image;
    var next := Fat(v, cur);
    ReadStep(v, cur, seen);
    assert Used(v, cur) by { EocNotFree(v, next); }
    LinkStaysLegal(v, v', m, refs, cur);
    ImageFresh(v, v', m, refs, cur, seen);
    ReadStep(v', Image(m, cur), ImageSet(m, seen));
    if IsEoc(v, next) {
      RenameFirst(m, cur, []);
    } else {
      assert cur in Range(2, v.max + 1) - seen by { assert Between(2, cur, v.max + 1); }
      var rest := ReadChain(v, next, seen + {cur}).value;
      ImageSetAdds(m, seen, cur);
      SimChain(v, v', m, refs, next, seen + {cur});
      RenameFirst(m, cur, rest);
    }
  }

  lemma RenameFirst(m: map<nat, nat>, cur: nat, rest: seq<nat>)
    ensures RenameChain(m, [cur] + rest) == [Image(m, cur)] + RenameChain(m, rest)
    ensures RenameChain(m, [cur]) == [Image(m, cur)]
  {
  }

  lemma EocNotFree(v: Vol, value: nat)
    ensures IsEoc(v, value) ==> value != 0
  {
  }

  lemma RelatedParts(v: Vol, v': Vol, m: map<nat, nat>, refs: seq<Ref>)
    requires Related(v, v', m, refs)
    ensures Loaded(v) && Loaded(v') && SameGeometry(v, v') && MapInRange(v, m) && InjectiveOnUsed(v, m)
    ensures TableRenamed(v, v', m)
  {
  }

  lemma ImageFresh(v: Vol, v': Vol, m: map<nat, nat>, refs: seq<Ref>, c: nat, s: set<nat>)
    requires Related(v, v', m, refs) && AllUsed(v, s) && Used(v, c)
    ensures Image(m, c) in ImageSet(m, s) <==> c in s
  {
    hide CellsRenamed, TableRenamed, LinkSafe;
  }

  lemma ImageSetAdds(m: map<nat, nat>, s: set<nat>, c: nat)
    ensures ImageSet(m, s + {c}) == ImageSet(m, s) + {Image(m, c)}
  {
  }

  // ---- Scanning the two volumes in step ---------------------------------------------------

  ghost predicate StateUsed(v: Vol, st: State)
    requires Loaded(v)
  {
    AllUsed(v, st.visited) && AllUsed(v, st.claimed)
  }

  lemma SimChainOf(v: Vol, v': Vol, m: map<nat, nat>, refs: seq<Ref>, first: nat)
    requires Related(v, v', m, refs) && ChainOf(v, first).Ok?
    ensures ChainOf(v', Image(m, first)) == Ok(RenameChain(m, ChainOf(v, first).value))
    ensures AllUsed(v, Elements(ChainOf(v, first).value)) && (first == 0 <==> Image(m, first) == 0)
  {
    RelatedParts(v, v', m, refs);
    hide CellsRenamed, LinkSafe, Related, InjectiveOnUsed, TableRenamed;
    assert first == 0 ==> Image(m, first) == 0;
    assert RenameChain(m, []) == [];
    if first != 0 {
      assert ImageSet(m, {}) == {};
      SimChain(v, v', m, refs, first, {});
      assert 2 <= first <= v.max by { ReadStep(v, first, {}); }
    }
    ChainUsed(v, ChainOf(v, first).value);
  }

  lemma ChainUsed(v: Vol, chain: seq<nat>)
    requires Loaded(v) && (chain != [] ==> IsChain(v, chain))
    ensures AllUsed(v, Elements(chain))
  {
    forall c | c in Elements(chain) ensures Used(v, c) {
      var k :| 0 <= k < |chain| && chain[k] == c;
      assert Held(v, chain[k]);
    }
  }

  lemma ElementsRenamed(m: map<nat, nat>, chain: seq<nat>)
    ensures Elements(RenameChain(m, chain)) == ImageSet(m, Elements(chain))
  {
    var renamed := RenameChain(m, chain);
    forall c | c in ImageSet(m, Elements(chain)) ensures c in Elements(renamed) {
      var k :| 0 <= k < |chain| && Image(m, chain[k]) == c;
      assert renamed[k] == c;
    }
    forall c | c in Elements(renamed) ensures c in ImageSet(m, Elements(chain)) {
      var k :| 0 <= k < |renamed| && renamed[k] == c;
      assert chain[k] in Elements(chain);
    }
  }

  lemma ImagesDisjoint(v: Vol, v': Vol, m: map<nat, nat>, refs: seq<Ref>, s: set<nat>, t: set<nat>)
    requires Related(v, v', m, refs) && AllUsed(v, s) && AllUsed(v, t)
    ensures ImageSet(m, s) * ImageSet(m, t) == {} <==> s * t == {}
  {
    hide Related;
    forall c | c in s ensures Image(m, c) in ImageSet(m, s) && (Image(m, c) in ImageSet(m, t) <==> c in t) {
      ImageFresh(v, v', m, refs, c, t);
    }
    if s * t != {} {
      var c :| c in s * t;
      assert Image(m, c) in ImageSet(m, s) * ImageSet(m, t);
    } else {
      forall x | x in ImageSet(m, s) ensures x !in ImageSet(m, t) {
        var c :| c in s && Image(m, c) == x;
        assert c !in s * t;
      }
    }
  }

  lemma AppendRec(m: map<nat, nat>, st: State, rec: FileRec, claimed: set<nat>)
    ensures RenameState(m, st.(files := st.files + [rec], claimed := st.claimed + claimed)) ==
            RenameState(m, st).(files := RenameState(m, st).files + [RenameRec(m, rec)],
                                claimed := RenameState(m, st).claimed + ImageSet(m, claimed))
  {
    assert ImageSet(m, st.claimed + claimed) == ImageSet(m, st.claimed) + ImageSet(m, claimed);
  }

  lemma AppendRef(m: map<nat, nat>, st: State, at: Offset, target: nat)
    requires target != 0 ==> Image(m, target) != 0
    requires 0 !in m
    ensures AddRef(RenameState(m, st), MoveOffset(m, at), Image(m, target)) == RenameState(m, AddRef(st, at, target))
  {
  }

  lemma SimRecord(v: Vol, v': Vol, m: map<nat, nat>, refs: seq<Ref>, at: Offset, cell: Cell, path: string, st: State)
    requires Related(v, v', m, refs) && StateUsed(v, st) && cell.info.Named?
    requires Record(v, at, cell, path, st).Ok?
    ensures Record(v', MoveOffset(m, at), cell.(first := Image(m, cell.first)), path, RenameState(m, st)) ==
            Ok(RenameState(m, Record(v, at, cell, path, st).value))
    ensures StateUsed(v, Record(v, at, cell, path, st).value)
    ensures cell.first == 0 <==> Image(m, cell.first) == 0
  {
    RelatedParts(v, v', m, refs);
    hide CellsRenamed, LinkSafe, Related, InjectiveOnUsed, TableRenamed, ChainOf;
    var chain := ChainOf(v, cell.first).value;
    SimChainOf(v, v', m, refs, cell.first);
    ElementsRenamed(m, chain);
    ImagesDisjoint(v, v', m, refs, Elements(chain), st.claimed);
    assert |RenameChain(m, chain)| == |chain|;
    var rec := FileRec(PathJoin(path, cell.info.name), at, cell.first, cell.info.size, cell.info.isDir, chain);
    AppendRec(m, st, rec, Elements(chain));
  }

  lemma SimCell(v: Vol, v': Vol, m: map<nat, nat>, refs: seq<Ref>, container: Container, slot: nat)
    requires Related(v, v', m, refs) && UsedContainer(v, container) && slot < |Area(v, container)|
    ensures var to := RenameContainer(m, container);
            && (to.InCluster? ==> to.cluster <= v.max) && Loaded(v') && slot < |Area(v', to)|
            && Offset(to, slot) == MoveOffset(m, Offset(container, slot))
            && var cell := Area(v, container)[slot];
               Area(v', to)[slot] == RenamedCell(m, refs, Offset(container, slot), cell)
  {
    hide InjectiveOnUsed, LinkSafe, MapInRange;
    assert TableRenamed(v, v', m);
    assert CellsRenamed(v, v', m, refs);
  }

  ghost predicate RefsIn(some: seq<Ref>, refs: seq<Ref>) {
    forall i | 0 <= i < |some| :: some[i] in refs
  }

  lemma RefsInPrefix(some: seq<Ref>, more: seq<Ref>, refs: seq<Ref>)
    requires some <= more && RefsIn(more, refs)
    ensures RefsIn(some, refs)
  {
    forall i | 0 <= i < |some| ensures some[i] in refs {
      assert some[i] == more[i];
    }
  }

  /** A cell whose reference was collected reads renamed on the new volume. */
  lemma SimAddRef(v: Vol, v': Vol, m: map<nat, nat>, refs: seq<Ref>, st: State, at: Offset, cell: Cell)
    requires Related(v, v', m, refs) && RefsIn(AddRef(st, at, cell.first).refs, refs)
    ensures RenamedCell(m, refs, at, cell) == cell.(first := Image(m, cell.first))
    ensures AddRef(RenameState(m, st), MoveOffset(m, at), Image(m, cell.first)) ==
      RenameState(m, AddRef(st, at, cell.first))
  {
    RelatedParts(v, v', m, refs);
    hide CellsRenamed, LinkSafe, Related, InjectiveOnUsed, TableRenamed, RenameState;
    if cell.first != 0 {
      assert AddRef(st, at, cell.first).refs[|st.refs|] == Ref(at, cell.first);
    }
    AppendRef(m, st, at, cell.first);
  }

  lemma {:induction false} SimCells(v: Vol, v': Vol, m: map<nat, nat>, refs: seq<Ref>,
                                    container: Container, slot: nat, path: string, st: State, depth: nat)
    requires Related(v, v', m, refs) && UsedContainer(v, container) && StateUsed(v, st) && depth <= MAX_RECURSION_DEPTH
    requires ScanCells(v, container, slot, path, st, depth).Ok?
    requires RefsIn(ScanCells(v, container, slot, path, st, depth).value.0.refs, refs)
    ensures var r := ScanCells(v, container, slot, path, st, depth).value; var to := RenameContainer(m, container);
            && (to.InCluster? ==> to.cluster <= v.max) && StateUsed(v, r.0)
            && ScanCells(v', to, slot, path, RenameState(m, st), depth) == Ok((RenameState(m, r.0), r.1))
    decreases MAX_RECURSION_DEPTH + 1 - depth, 0, |Area(v, container)| - slot
  {
    RelatedParts(v, v', m, refs);
    SameArea(v, v', m, refs, container);
    hide Related, RenameState, Record, ReadChain, StateUsed, RefsIn, Loaded, Area, RenameContainer, TableRenamed,
         MoveOffset, Image, AddRef;
    var to := RenameContainer(m, container);
    if slot < |Area(v, container)| {
      var cell := Area(v, container)[slot];
      var at := Offset(container, slot);
      SimCell(v, v', m, refs, container, slot);
      if cell.info.EndMark? {
      } else if cell.info.Ignored? {
        SimCells(v, v', m, refs, container, slot + 1, path, st, depth);
      } else {
        var st1 := AddRef(st, at, cell.first);
        RefsInPrefix(st1.refs, ScanCells(v, container, slot, path, st, depth).value.0.refs, refs);
        SimAddRef(v, v', m, refs, st, at, cell);
        assert StateUsed(v, st1) by { AddRefUsed(v, st, at, cell.first); }
        if cell.info.Dot? || cell.info.name == "" {
          SimCells(v, v', m, refs, container, slot + 1, path, st1, depth);
        } else {
          SimNamed(v, v', m, refs, container, slot, path, st, depth);
        }
      }
    }
  }

  lemma AddRefUsed(v: Vol, st: State, at: Offset, first: nat)
    requires Loaded(v) && StateUsed(v, st)
    ensures StateUsed(v, AddRef(st, at, first))
  {
  }

  lemma SameArea(v: Vol, v': Vol, m: map<nat, nat>, refs: seq<Ref>, container: Container)
    requires Related(v, v', m, refs) && UsedContainer(v, container)
    ensures var to := RenameContainer(m, container);
            && (to.InCluster? ==> to.cluster <= v.max)
            && Loaded(v) && Loaded(v') && |Area(v', to)| == |Area(v, container)|
  {
    hide InjectiveOnUsed, LinkSafe, MapInRange;
    assert TableRenamed(v, v', m);
    assert CellsRenamed(v, v', m, refs);
  }

  lemma {:induction false} SimNamed(v: Vol, v': Vol, m: map<nat, nat>, refs: seq<Ref>,
                                    container: Container, slot: nat, path: string, st: State, depth: nat)
    requires Related(v, v', m, refs) && UsedContainer(v, container) && StateUsed(v, st) && depth <= MAX_RECURSION_DEPTH
    requires ScanCells(v, container, slot, path, st, depth).Ok?
    requires RefsIn(ScanCells(v, container, slot, path, st, depth).value.0.refs, refs)
    requires slot < |Area(v, container)|
    requires var info := Area(v, container)[slot].info; info.Named? && info.name != ""
    ensures var r := ScanCells(v, container, slot, path, st, depth).value; var to := RenameContainer(m, container);
            && (to.InCluster? ==> to.cluster <= v.max) && StateUsed(v, r.0)
            && ScanCells(v', to, slot, path, RenameState(m, st), depth) == Ok((RenameState(m, r.0), r.1))
    decreases MAX_RECURSION_DEPTH + 1 - depth, 0, |Area(v, container)| - slot, 0
  {
    RelatedParts(v, v', m, refs);
    SameArea(v, v', m, refs, container);
    hide Related, RenameState, Record, ReadChain, StateUsed, RefsIn, Loaded, Area, RenameContainer, TableRenamed,
         MoveOffset, Image, AddRef, ScanDirectory;
    var cell := Area(v, container)[slot];
    var at := Offset(container, slot);
    var st1 := AddRef(st, at, cell.first);
    var r := ScanCells(v, container, slot, path, st, depth).value.0;
    SimCell(v, v', m, refs, container, slot);
    RefsInPrefix(st1.refs, r.refs, refs);
    SimAddRef(v, v', m, refs, st, at, cell);
    AddRefUsed(v, st, at, cell.first);
    var st2 := Record(v, at, cell, path, st1).value;
    SimRecord(v, v', m, refs, at, cell, path, st1);
    if cell.info.isDir && cell.first != 0 {
      var sub := PathJoin(path, cell.info.name);
      var st3 := ScanDirectory(v, cell.first, sub, st2, depth + 1).value;
      RefsInPrefix(st3.refs, r.refs, refs);
      SimDirectory(v, v', m, refs, cell.first, sub, st2, depth + 1);
      SimCells(v, v', m, refs, container, slot + 1, path, st3, depth);
    } else {
      SimCells(v, v', m, refs, container, slot + 1, path, st2, depth);
    }
  }

  lemma {:induction false} SimDirectory(v: Vol, v': Vol, m: map<nat, nat>, refs: seq<Ref>, first: nat, path: string,
                                        st: State, depth: nat)
    requires Related(v, v', m, refs) && StateUsed(v, st)
    requires ScanDirectory(v, first, path, st, depth).Ok?
    requires RefsIn(ScanDirectory(v, first, path, st, depth).value.refs, refs)
    ensures var r := ScanDirectory(v, first, path, st, depth).value;
            && StateUsed(v, r)
            && ScanDirectory(v', Image(m, first), path, RenameState(m, st), depth) == Ok(RenameState(m, r))
    decreases MAX_RECURSION_DEPTH + 1 - depth, 2, 0
  {
    RelatedParts(v, v', m, refs);
    hide Related, RenameState, ReadChain, StateUsed, RefsIn, Loaded, TableRenamed, ScanUnits;
    assert Image(m, 0) == 0;
    if v.rootFixed && first == 0 && depth == 0 {
      SimUnits(v, v', m, refs, [RootArea], [RootArea], 0, path, st, depth);
    } else {
      var chain := ReadChain(v, first, {}).value;
      SimChainOf(v, v', m, refs, first);
      var st1 := st.(visited := st.visited + {first});
      assert st1.refs == st.refs;
      ChainUsed(v, chain);
      VisitFirst(v, v', m, refs, st, first);
      UnitsRenamed(v, m, chain);
      SimUnits(v, v', m, refs, Units(chain), Units(RenameChain(m, chain)), 0, path, st1, depth);
    }
  }

  lemma VisitFirst(v: Vol, v': Vol, m: map<nat, nat>, refs: seq<Ref>, st: State, first: nat)
    requires Related(v, v', m, refs) && StateUsed(v, st) && ReadChain(v, first, {}).Ok?
    ensures var st1 := st.(visited := st.visited + {first});
            && StateUsed(v, st1)
            && RenameState(m, st1) == RenameState(m, st).(visited := RenameState(m, st).visited + {Image(m, first)})
    ensures first in st.visited <==> Image(m, first) in RenameState(m, st).visited
    ensures 2 <= Image(m, first) <= v.max
  {
    hide CellsRenamed, LinkSafe;
    assert Used(v, first) by { ReadStep(v, first, {}); }
    ImageSetAdds(m, st.visited, first);
    ImageFresh(v, v', m, refs, first, st.visited);
  }

  ghost predicate UnitsRelated(v: Vol, m: map<nat, nat>, units: seq<Container>, units': seq<Container>)
    requires Loaded(v)
  {
    && |units'| == |units|
    && forall k | 0 <= k < |units| :: UsedContainer(v, units[k]) && units'[k] == RenameContainer(m, units[k])
         && (units'[k].InCluster? ==> units'[k].cluster <= v.max)
  }

  lemma UnitsRenamed(v: Vol, m: map<nat, nat>, chain: seq<nat>)
    requires Loaded(v) && AllUsed(v, Elements(chain)) && forall c | Used(v, c) :: Image(m, c) <= v.max
    ensures UnitsRelated(v, m, Units(chain), Units(RenameChain(m, chain)))
  {
    forall k | 0 <= k < |chain| ensures UsedContainer(v, Units(chain)[k]) && Image(m, chain[k]) <= v.max {
      assert chain[k] in Elements(chain);
    }
  }

  lemma {:induction false} SimUnits(v: Vol, v': Vol, m: map<nat, nat>, refs: seq<Ref>,
                                    units: seq<Container>, units': seq<Container>, n: nat, path: string, st: State,
                                    depth: nat)
    requires Related(v, v', m, refs) && StateUsed(v, st) && UnitsRelated(v, m, units, units') && n <= |units|
    requires depth <= MAX_RECURSION_DEPTH
    requires ScanUnits(v, units, n, path, st, depth).Ok?
    requires RefsIn(ScanUnits(v, units, n, path, st, depth).value.refs, refs)
    ensures var r := ScanUnits(v, units, n, path, st, depth).value;
            && StateUsed(v, r)
            && ScanUnits(v', units', n, path, RenameState(m, st), depth) == Ok(RenameState(m, r))
    decreases MAX_RECURSION_DEPTH + 1 - depth, 1, |units| - n
  {
    RelatedParts(v, v', m, refs);
    hide Related, RenameState, StateUsed, RefsIn, Loaded, TableRenamed, RenameContainer, ScanCells;
    if n < |units| {
      var r1 := ScanCells(v, units[n], 0, path, st, depth).value;
      RefsInPrefix(r1.0.refs, ScanUnits(v, units, n, path, st, depth).value.refs, refs);
      SimCells(v, v', m, refs, units[n], 0, path, st, depth);
      if !r1.1 {
        SimUnits(v, v', m, refs, units, units', n + 1, path, r1.0, depth);
      }
    }
  }

  // ---- The relocated volume ---------------------------------------------------------------

  lemma MapRange(v: Vol, pred: seq<nat>, moves: seq<Move>, j: Journal)
    requires Loaded(v) && Transaction(v, pred, moves, j)
    ensures MapInRange(v, MapOf(j))
    ensures forall c | c in MapOf(j) :: Fat(v, c) != 0 && MapOf(j)[c] in Destinations(moves)
  {
    hide Transaction, RelocationMap, Loaded;
    JournalFacts(v, pred, moves, j);
    LegalOf(v, pred, moves, j);
    forall c | c in MapOf(j)
      ensures 2 <= c <= v.max && 2 <= MapOf(j)[c] <= v.max && Fat(v, c) != 0 && MapOf(j)[c] in Destinations(moves)
    {
      var n := MoveAt(moves, c);
      ImageAt(moves, n);
      assert moves[n].source in Sources(moves) && moves[n].destination in Destinations(moves);
    }
  }

  lemma RootRenamed(v: Vol, pred: seq<nat>, moves: seq<Move>, j: Journal)
    requires Loaded(v) && Transaction(v, pred, moves, j) && JournalFits(v, j)
    ensures RootCluster(Complete(v, j)) == Image(MapOf(j), RootCluster(v))
    ensures SameGeometry(v, Complete(v, j))
  {
    hide Transaction, RelocationMap, NewFat, PatchBlock, PatchMap, CopiedFrom;
    JournalFacts(v, pred, moves, j);
    MapRange(v, pred, moves, j);
  }

  lemma RelocationRelated(v: Vol, pred: seq<nat>, moves: seq<Move>, j: Journal)
    requires Loaded(v) && Transaction(v, pred, moves, j) && JournalFits(v, j) && LinkSafe(v, MapOf(j))
    ensures Related(v, Complete(v, j), MapOf(j), ScanFiles(v).value.refs)
  {
    hide Transaction, Complete, RelocationMap, LinkSafe, Loaded, InjectiveOnUsed, RenamedCell, ScanFiles;
    var v', m := Complete(v, j), MapOf(j);
    LegalOf(v, pred, moves, j);
    RootRenamed(v, pred, moves, j);
    MapRange(v, pred, moves, j);
    MapInjective(v, pred, moves, j);
    forall c | Used(v, c) ensures 2 <= Image(m, c) <= v.max && Fat(v', Image(m, c)) == NewNext(v.max, m, Fat(v, c)) {
      EntryRenamed(v, pred, moves, j, c);
    }
    assert TableRenamed(v, v', m);
    RelocationCells(v, pred, moves, j);
  }

  lemma RelocationCells(v: Vol, pred: seq<nat>, moves: seq<Move>, j: Journal)
    requires Loaded(v) && Transaction(v, pred, moves, j) && JournalFits(v, j)
    requires TableRenamed(v, Complete(v, j), MapOf(j))
    ensures CellsRenamed(v, Complete(v, j), MapOf(j), ScanFiles(v).value.refs)
  {
    LegalOf(v, pred, moves, j);
    hide Transaction, Complete, MapOf, Loaded, ScanFiles, Area, RenamedCell, TableRenamed;
    var v', m, refs := Complete(v, j), MapOf(j), ScanFiles(v).value.refs;
    forall container | UsedContainer(v, container)
      ensures |Area(v', RenameContainer(m, container))| == |Area(v, container)|
      ensures forall s | 0 <= s < |Area(v, container)| ::
                Area(v', RenameContainer(m, container))[s] ==
                  RenamedCell(m, refs, Offset(container, s), Area(v, container)[s])
    {
      AreaRenamed(v, pred, moves, j, container);
    }
  }

  /** Every allocated entry of the new table is the image of an allocated one. */
  lemma EntryFrom(v: Vol, pred: seq<nat>, moves: seq<Move>, j: Journal, to: nat) returns (c: nat)
    requires Loaded(v) && Transaction(v, pred, moves, j) && JournalFits(v, j)
    requires 2 <= to <= v.max && Fat(Complete(v, j), to) != 0
    ensures Used(v, c) && Image(MapOf(j), c) == to
  {
    hide Transaction, Complete, RelocationMap, Loaded;
    JournalFacts(v, pred, moves, j);
    LegalOf(v, pred, moves, j);
    NewEntry(v, pred, moves, j, to);
    if to in Destinations(moves) {
      var n :| 0 <= n < |moves| && moves[n].destination == to;
      c := moves[n].source;
      assert moves[n].source in Sources(moves);
      ImageAt(moves, n);
    } else {
      c := to;
      EntryUnmoved(v, pred, moves, j, to);
      MapRange(v, pred, moves, j);
    }
  }

  lemma NothingLostRenamed(v: Vol, pred: seq<nat>, moves: seq<Move>, j: Journal, claimed: set<nat>)
    requires Loaded(v) && Transaction(v, pred, moves, j) && JournalFits(v, j) && LinkSafe(v, MapOf(j))
    requires NothingLost(v, claimed)
    ensures NothingLost(Complete(v, j), ImageSet(MapOf(j), claimed))
  {
    hide Transaction, Complete, RelocationMap, LinkSafe, ScanFiles, Related;
    var v', m := Complete(v, j), MapOf(j);
    LegalOf(v, pred, moves, j);
    var refs := ScanFiles(v).value.refs;
    RelocationRelated(v, pred, moves, j);
    forall to | 2 <= to <= v.max && Fat(v', to) != 0
      ensures Fat(v', to) == BadValue(v.kind) || (!IsReserved(v', Fat(v', to)) && to in ImageSet(m, claimed))
    {
      var c := EntryFrom(v, pred, moves, j, to);
      LinkStaysLegal(v, v', m, refs, c);
    }
  }

  /** Sufficiency: the new volume scans to the renamed records and references. */
  lemma RelocationScans(v: Vol, pred: seq<nat>, moves: seq<Move>, j: Journal)
    requires Loaded(v) && Transaction(v, pred, moves, j) && JournalFits(v, j) && LinkSafe(v, MapOf(j))
    ensures ScanFiles(v).Ok? && ScanFiles(Complete(v, j)) == Ok(RenameState(MapOf(j), ScanFiles(v).value))
    ensures RootChain(v).Ok? && RootChain(Complete(v, j)) == Ok(RenameChain(MapOf(j), RootChain(v).value))
  {
    hide Transaction, Complete, RelocationMap, LinkSafe, Related, ScanDirectory, ReadChain, MapOf, JournalFits,
         NothingLost, RenameState;
    var v', m := Complete(v, j), MapOf(j);
    LegalOf(v, pred, moves, j);
    var st, root := ScanFiles(v).value, RootChain(v).value;
    RelocationRelated(v, pred, moves, j);
    RootRenamed(v, pred, moves, j);
    SimRoot(v, v', m, st.refs);
    NothingLostRenamed(v, pred, moves, j, st.claimed);
    ScanInStep(v, v', m, st);
  }

  /** Two related volumes scan in step from their roots. */
  lemma ScanInStep(v: Vol, v': Vol, m: map<nat, nat>, st: State)
    requires Loaded(v) && ScanFiles(v) == Ok(st) && Related(v, v', m, st.refs) && Loaded(v')
    requires RootCluster(v') == Image(m, RootCluster(v))
    requires RootChain(v').Ok? && RootChain(v') == Ok(RenameChain(m, RootChain(v).value))
    requires AllUsed(v, Elements(RootChain(v).value))
    requires NothingLost(v', ImageSet(m, st.claimed))
    ensures ScanFiles(v') == Ok(RenameState(m, st))
  {
    hide Related, ScanDirectory, ReadChain, NothingLost, RootChain;
    var root := RootChain(v).value;
    var st0 := State([], [], {}, Elements(root));
    assert RenameState(m, st0) == State([], [], {}, Elements(RenameChain(m, root))) by {
      ElementsRenamed(m, root);
      assert ImageSet(m, {}) == {};
    }
    assert RefsIn(st.refs, st.refs);
    SimDirectory(v, v', m, st.refs, RootCluster(v), "", st0, 0);
  }

  lemma SimRoot(v: Vol, v': Vol, m: map<nat, nat>, refs: seq<Ref>)
    requires Related(v, v', m, refs) && RootChain(v).Ok? && RootCluster(v') == Image(m, RootCluster(v))
    ensures RootChain(v') == Ok(RenameChain(m, RootChain(v).value)) && AllUsed(v, Elements(RootChain(v).value))
  {
    RelatedParts(v, v', m, refs);
    hide Related, ReadChain;
    if !v.rootFixed {
      var root := ReadChain(v, RootCluster(v), {}).value;
      assert ImageSet(m, {}) == {};
      SimChain(v, v', m, refs, RootCluster(v), {});
      ChainUsed(v, root);
    } else {
      assert RenameChain(m, []) == [];
    }
  }

  /** Necessity: a link renamed into the reserved range makes the next scan fail. */
  lemma ReservedLinkFails(v: Vol, pred: seq<nat>, moves: seq<Move>, j: Journal)
    requires Loaded(v) && Transaction(v, pred, moves, j) && JournalFits(v, j) && !LinkSafe(v, MapOf(j))
    ensures ScanFiles(Complete(v, j)).Error?
  {
    hide Transaction, Complete, RelocationMap, ScanDirectory, ReadChain, MapOf, JournalFits;
    var v', m := Complete(v, j), MapOf(j);
    var c :| Used(v, c) && Fat(v, c) in m && m[Fat(v, c)] >= ReservedMin(v.kind);
    MapRange(v, pred, moves, j);
    EntryRenamed(v, pred, moves, j, c);
    assert IsReserved(v', Fat(v', Image(m, c)));
    assert forall claimed :: !NothingLost(v', claimed);
  }

  /** Meaning is preserved, with the exact condition: no link lands in the reserved range. */
  lemma RelocationPreservesMeaning(v: Vol, pred: seq<nat>, moves: seq<Move>, j: Journal)
    requires Transaction(v, pred, moves, j)
    ensures Loaded(v) && ScanFiles(v).Ok? && JournalFits(v, j)
    ensures ScanFiles(Complete(v, j)).Ok? <==> LinkSafe(v, MapOf(j))
    ensures LinkSafe(v, MapOf(j)) ==> ScanFiles(Complete(v, j)) == Ok(RenameState(MapOf(j), ScanFiles(v).value))
    ensures LinkSafe(v, MapOf(j)) ==> LayoutOf(Complete(v, j)) == Relocate(LayoutOf(v), moves)
  {
    JournalFacts(v, pred, moves, j);
    LegalOf(v, pred, moves, j);
    hide Transaction, Complete, ScanFiles, LinkSafe, LayoutOf;
    if LinkSafe(v, MapOf(j)) {
      RelocationScans(v, pred, moves, j);
      LayoutRelocated(v, pred, moves, j);
    } else {
      ReservedLinkFails(v, pred, moves, j);
    }
  }

  lemma LayoutRelocated(v: Vol, pred: seq<nat>, moves: seq<Move>, j: Journal)
    requires Loaded(v) && Transaction(v, pred, moves, j) && JournalFits(v, j) && LinkSafe(v, MapOf(j))
    requires ScanFiles(v).Ok? && ScanFiles(Complete(v, j)) == Ok(RenameState(MapOf(j), ScanFiles(v).value))
    requires RootChain(v).Ok? && RootChain(Complete(v, j)) == Ok(RenameChain(MapOf(j), RootChain(v).value))
    ensures LayoutOf(Complete(v, j)) == Relocate(LayoutOf(v), moves)
  {
    hide Transaction, Complete, ScanFiles, RootChain, RelocationMap, LinkSafe;
    JournalFacts(v, pred, moves, j);
    BadUnchanged(v, pred, moves, j);
    var l, l' := LayoutOf(v), LayoutOf(Complete(v, j));
    assert |l'.objs| == |l.objs|;
    forall i | 0 <= i < |l.objs| ensures l'.objs[i] == RenameObj(MapOf(j), l.objs[i]) {}
  }

  lemma BadUnchanged(v: Vol, pred: seq<nat>, moves: seq<Move>, j: Journal)
    requires Loaded(v) && Transaction(v, pred, moves, j) && JournalFits(v, j) && LinkSafe(v, MapOf(j))
    ensures BadClusters(Complete(v, j)) == BadClusters(v)
  {
    hide Transaction, Complete, RelocationMap, LinkSafe, ScanFiles, Related;
    var v', m := Complete(v, j), MapOf(j);
    LegalOf(v, pred, moves, j);
    JournalFacts(v, pred, moves, j);
    var refs := ScanFiles(v).value.refs;
    RelocationRelated(v, pred, moves, j);
    forall c: nat | c in BadClusters(v') ensures c in BadClusters(v) {
      var from := EntryFrom(v, pred, moves, j, c);
      LinkStaysLegal(v, v', m, refs, from);
    }
    forall c: nat | c in BadClusters(v) ensures c in BadClusters(v') {
      LinkStaysLegal(v, v', m, refs, c);
    }
  }

  // ---- Contents -----------------------------------------------------------------------------

  function Contents(v: Vol, chain: seq<nat>): (r: seq<Block>)
    requires Loaded(v) && forall k | 0 <= k < |chain| :: chain[k] <= v.max
    ensures |r| == |chain| && forall k | 0 <= k < |chain| :: r[k] == v.data[chain[k]]
  {
    seq(|chain|, k requires 0 <= k < |chain| => v.data[chain[k]])
  }

  /** No reference points into a regular file: its clusters are not directory clusters. */
  lemma FileNotPatched(v: Vol, i: nat, k: nat, at: Offset, target: nat)
    requires Loaded(v) && ScanFiles(v).Ok? && i < |ScanFiles(v).value.files| && !ScanFiles(v).value.files[i].isDir
    requires k < |ScanFiles(v).value.files[i].chain| && at.container == InCluster(ScanFiles(v).value.files[i].chain[k])
    ensures Ref(at, target) !in ScanFiles(v).value.refs
  {
    hide ScanFiles, Alloc, RootChain, LayoutOf, WellFormed, LayoutWith, RecOk, InDirectory, IsChain;
    ScanIsGood(v);
    var st, root := ScanFiles(v).value, RootChain(v).value;
    forall r | 0 <= r < |st.refs| ensures st.refs[r].at.container != at.container {
      assert RefOk(v, root, st.files, st.refs[r]);
      if st.refs[r].at.container.InCluster? {
        DirectoryElsewhere(v, root, st.files, i, k, st.refs[r].at.container.cluster);
      }
    }
  }

  lemma DirectoryElsewhere(v: Vol, root: seq<nat>, files: seq<FileRec>, i: nat, k: nat, c: nat)
    requires Loaded(v) && WellFormed(LayoutWith(v, root, files)) && i < |files| && !files[i].isDir
    requires k < |files[i].chain|
    requires InDirectory(v, root, files, InCluster(c))
    ensures files[i].chain[k] != c
  {
    var n := if root == [] then 0 else 1;
    var l := LayoutWith(v, root, files);
    assert Owns(l, n + i, k) && l.objs[n + i] == FileObj(files[i]);
    if c in root {
      var p :| 0 <= p < |root| && root[p] == c;
      assert Owns(l, 0, p) && l.objs[0].chain[p] == c;
    } else {
      var d :| 0 <= d < |files| && files[d].isDir && c in files[d].chain;
      var p :| 0 <= p < |files[d].chain| && files[d].chain[p] == c;
      assert Owns(l, n + d, p) && l.objs[n + d] == FileObj(files[d]);
    }
  }

  /** The bytes of every regular file survive the relocation. */
  lemma FileContentsPreserved(v: Vol, pred: seq<nat>, moves: seq<Move>, j: Journal, i: nat)
    requires Transaction(v, pred, moves, j) && LinkSafe(v, MapOf(j))
    requires i < |ScanFiles(v).value.files| && !ScanFiles(v).value.files[i].isDir
    ensures JournalFits(v, j) && ScanFiles(Complete(v, j)).Ok? && i < |ScanFiles(Complete(v, j)).value.files|
    ensures var before, after := ScanFiles(v).value.files[i], ScanFiles(Complete(v, j)).value.files[i];
            && after.path == before.path && after.size == before.size && !after.isDir
            && (forall k | 0 <= k < |before.chain| :: before.chain[k] <= v.max)
            && (forall k | 0 <= k < |after.chain| :: after.chain[k] <= v.max)
            && Contents(Complete(v, j), after.chain) == Contents(v, before.chain)
  {
    hide Transaction, Complete, ScanFiles, LinkSafe, Loaded, MapOf, LayoutOf, Relocate;
    RelocationPreservesMeaning(v, pred, moves, j);
    var v', m, st := Complete(v, j), MapOf(j), ScanFiles(v).value;
    var before, after := st.files[i], ScanFiles(v').value.files[i];
    assert after == RenameRec(m, before);
    FileUsed(v, i);
    SizesKept(v, j);
    forall k | 0 <= k < |before.chain|
      ensures before.chain[k] <= v.max && after.chain[k] <= v.max && v'.data[after.chain[k]] == v.data[before.chain[k]]
    {
      BlockPreserved(v, pred, moves, j, i, k);
    }
    assert |Contents(v', after.chain)| == |Contents(v, before.chain)|;
  }

  lemma SizesKept(v: Vol, j: Journal)
    requires Loaded(v) && JournalFits(v, j)
    ensures Complete(v, j).max == v.max && |Complete(v, j).data| == v.max + 1 == |v.data|
  {
    hide PatchBlock, NewFat, CopiedFrom;
  }

  lemma FileUsed(v: Vol, i: nat)
    requires Loaded(v) && ScanFiles(v).Ok? && i < |ScanFiles(v).value.files|
    ensures forall k | 0 <= k < |ScanFiles(v).value.files[i].chain| :: Used(v, ScanFiles(v).value.files[i].chain[k])
  {
    hide ScanFiles, RootChain, LayoutOf, WellFormed, Alloc, LayoutWith;
    ScanIsGood(v);
    var rec := ScanFiles(v).value.files[i];
    assert RecOk(v, rec, ScanFiles(v).value.refs);
    forall k | 0 <= k < |rec.chain| ensures Used(v, rec.chain[k]) { assert Held(v, rec.chain[k]); }
  }

  lemma BlockPreserved(v: Vol, pred: seq<nat>, moves: seq<Move>, j: Journal, i: nat, k: nat)
    requires Loaded(v) && Transaction(v, pred, moves, j) && JournalFits(v, j) && ScanFiles(v).Ok?
    requires i < |ScanFiles(v).value.files| && !ScanFiles(v).value.files[i].isDir
    requires k < |ScanFiles(v).value.files[i].chain|
    requires Used(v, ScanFiles(v).value.files[i].chain[k])
    ensures var c := ScanFiles(v).value.files[i].chain[k];
            Image(MapOf(j), c) <= v.max && Complete(v, j).data[Image(MapOf(j), c)] == v.data[c]
  {
    hide Transaction, Complete, ScanFiles, MapOf;
    var v', m, st := Complete(v, j), MapOf(j), ScanFiles(v).value;
    var c := st.files[i].chain[k];
    AreaRenamed(v, pred, moves, j, InCluster(c));
    assert Area(v', InCluster(Image(m, c))) == v'.data[Image(m, c)] && Area(v, InCluster(c)) == v.data[c];
    forall s | 0 <= s < |v.data[c]| ensures v'.data[Image(m, c)][s] == v.data[c][s] {
      FileNotPatched(v, i, k, Offset(InCluster(c), s), v.data[c][s].first);
    }
  }
}
