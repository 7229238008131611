/**
 A FAT volume as the engine reads it: allocation table copies, cluster blocks made
 of 32-byte cells, the fixed root area or the root cluster, and the directory scan.
 A cell is any 32 bytes of a block: its first-cluster field and everything else.
 Running out of the volume, a loop or any other inconsistency makes the engine exit.
 */
module FatVolume {
  import opened Basics
  import opened ClusterLayout

  // ---- FAT entry values -----------------------------------------------------------

  datatype FatType = Fat12 | Fat16 | Fat32

  function Mask(t: FatType): nat {
    match t case Fat12 => 0xFFF case Fat16 => 0xFFFF case Fat32 => 0x0FFF_FFFF
  }

  function EocMin(t: FatType): nat {
    match t case Fat12 => 0xFF8 case Fat16 => 0xFFF8 case Fat32 => 0x0FFF_FFF8
  }

  function BadValue(t: FatType): nat {
    match t case Fat12 => 0xFF7 case Fat16 => 0xFFF7 case Fat32 => 0x0FFF_FFF7
  }

  function ReservedMin(t: FatType): nat {
    match t case Fat12 => 0xFF0 case Fat16 => 0xFFF0 case Fat32 => 0x0FFF_FFF0
  }

  // ---- Volume ----------------------------------------------------------------------

  /** What a directory entry holds besides its first cluster; long names are already
      folded into the entry they belong to. */
  datatype Info = EndMark | Ignored | Dot | Named(name: string, size: nat, isDir: bool)

  datatype Cell = Cell(first: nat, info: Info)

  type Block = seq<Cell>

  datatype Container = RootArea | InCluster(cluster: nat)

  datatype Offset = Offset(container: Container, slot: nat)

  /** A directory entry that names a cluster: where it is and what it names. */
  datatype Ref = Ref(at: Offset, target: nat)

  datatype Vol = Vol(kind: FatType, max: nat, clusterSize: nat,
                     fats: seq<seq<nat>>, active: nat, mirroring: bool,
                     data: seq<Block>, cells: nat,
                     rootFixed: bool, rootArea: Block, boots: seq<nat>)

  /** What loading the boot sector and the tables establishes. */
  ghost predicate Loaded(v: Vol) {
    && 2 <= v.max < BadValue(v.kind) && v.clusterSize >= 1
    && v.active < |v.fats| && (forall k | 0 <= k < |v.fats| :: |v.fats[k]| == v.max + 1)
    && |v.data| == v.max + 1 && (forall c | 0 <= c <= v.max :: |v.data[c]| == v.cells)
    && |v.boots| >= 1
  }

  function Fat(v: Vol, c: nat): nat
    requires Loaded(v) && c <= v.max
  {
    v.fats[v.active][c]
  }

  function RootCluster(v: Vol): nat
    requires Loaded(v)
  {
    if v.rootFixed then 0 else v.boots[0]
  }

  predicate IsEoc(v: Vol, value: nat) { value >= EocMin(v.kind) }

  predicate IsReserved(v: Vol,
                       value: nat) { ReservedMin(v.kind) <= value < EocMin(v.kind) && value != BadValue(v.kind) }

  function Area(v: Vol, container: Container): Block
    requires Loaded(v) && (container.InCluster? ==> container.cluster <= v.max)
  {
    match container case RootArea => v.rootArea case InCluster(c) => v.data[c]
  }

  // ---- Chains ------------------------------------------------------------------------

  /** A cluster that belongs to a chain: neither free nor bad. */
  ghost predicate Held(v: Vol, c: nat)
    requires Loaded(v)
  {
    2 <= c <= v.max && Fat(v, c) != 0 && Fat(v, c) != BadValue(v.kind) && !IsReserved(v, Fat(v, c))
  }

  /** `chain` follows the table from its first cluster to an end-of-chain value. */
  ghost predicate IsChain(v: Vol, chain: seq<nat>)
    requires Loaded(v)
  {
    && chain != []
    && (forall k | 0 <= k < |chain| :: Held(v, chain[k]))
    && (forall k | 0 <= k < |chain| - 1 :: Fat(v, chain[k]) == chain[k + 1])
    && IsEoc(v, Fat(v, chain[|chain| - 1]))
  }

  /** fat32_read_chain: `seen` is the set of clusters already visited. */
  function ReadChain(v: Vol, cur: nat, seen: set<nat>): (r: Result<seq<nat>>)
    requires Loaded(v)
    ensures r.Ok? ==> IsChain(v, r.value) && r.value[0] == cur && Distinct(r.value)
    ensures r.Ok? ==> forall k | 0 <= k < |r.value| :: r.value[k] !in seen
    decreases Range(2, v.max + 1) - seen
  {
    if cur < 2 || cur > v.max || cur in seen then Error
    else
      var next := Fat(v, cur);
      if IsEoc(v, next) then Ok([cur])
      else if next == 0 || next == BadValue(v.kind) || IsReserved(v, next) then Error
      else
        assert cur in Range(2, v.max + 1) - seen by { assert Between(2, cur, v.max + 1); }
        match ReadChain(v, next, seen + {cur})
        case Error => Error
        case Ok(rest) => Ok([cur] + rest)
  }

  // ---- Directory scan -----------------------------------------------------------------

  const MAX_RECURSION_DEPTH: nat := 128

  datatype FileRec = FileRec(path: string, at: Offset, first: nat, size: nat, isDir: bool, chain: seq<nat>)

  datatype State = State(files: seq<FileRec>, refs: seq<Ref>, visited: set<nat>, claimed: set<nat>)

  function PathJoin(parent: string, name: string): string {
    if parent != "" && parent[|parent| - 1] != '/' then parent + "/" + name else parent + name
  }

  function ChainOf(v: Vol, first: nat): Result<seq<nat>>
    requires Loaded(v)
  {
    if first == 0 then Ok([]) else ReadChain(v, first, {})
  }

  function ExpectedClusters(v: Vol, size: nat): nat
    requires Loaded(v)
  {
    if size == 0 then 0 else (size + v.clusterSize - 1) / v.clusterSize
  }

  /** Read, check and claim the chain of one named entry. */
  function Record(v: Vol, at: Offset, cell: Cell, path: string, st: State): (r: Result<State>)
    requires Loaded(v) && cell.info.Named?
  {
    match ChainOf(v, cell.first)
    case Error => Error
    case Ok(chain) =>
      if Elements(chain) * st.claimed != {} then Error
      else if !cell.info.isDir && |chain| != ExpectedClusters(v, cell.info.size) then Error
      else
        var rec := FileRec(PathJoin(path, cell.info.name), at, cell.first, cell.info.size, cell.info.isDir, chain);
        Ok(st.(files := st.files + [rec], claimed := st.claimed + Elements(chain)))
  }

  function AddRef(st: State, at: Offset, target: nat): State {
    if target == 0 then st else st.(refs := st.refs + [Ref(at, target)])
  }

  /** Entries of one block from `slot` on; the flag tells whether the end mark was met. */
  function ScanCells(v: Vol, container: Container, slot: nat, path: string, st: State,
                     depth: nat): (r: Result<(State, bool)>)
    requires Loaded(v) && (container.InCluster? ==> container.cluster <= v.max) && depth <= MAX_RECURSION_DEPTH
    ensures r.Ok? ==> st.refs <= r.value.0.refs
    decreases MAX_RECURSION_DEPTH + 1 - depth, 0, |Area(v, container)| - slot
  {
    if slot >= |Area(v, container)| then Ok((st, false))
    else
      var cell := Area(v, container)[slot];
      var at := Offset(container, slot);
      match cell.info
      case EndMark => Ok((st, true))
      case Ignored => ScanCells(v, container, slot + 1, path, st, depth)
      case Dot => ScanCells(v, container, slot + 1, path, AddRef(st, at, cell.first), depth)
      case Named(name, size, isDir) =>
        var st1 := AddRef(st, at, cell.first);
        if name == "" then ScanCells(v, container, slot + 1, path, st1, depth)
        else
          match Record(v, at, cell, path, st1)
          case Error => Error
          case Ok(st2) =>
            if isDir && cell.first != 0 then
              match ScanDirectory(v, cell.first, PathJoin(path, name), st2, depth + 1)
              case Error => Error
              case Ok(st3) => ScanCells(v, container, slot + 1, path, st3, depth)
            else ScanCells(v, container, slot + 1, path, st2, depth)
  }

  function ScanUnits(v: Vol, units: seq<Container>, n: nat, path: string, st: State, depth: nat): (r: Result<State>)
    requires Loaded(v) && depth <= MAX_RECURSION_DEPTH
    requires forall u | u in units :: u.InCluster? ==> u.cluster <= v.max
    ensures r.Ok? ==> st.refs <= r.value.refs
    decreases MAX_RECURSION_DEPTH + 1 - depth, 1, |units| - n
  {
    if n >= |units| then Ok(st)
    else
      match ScanCells(v, units[n], 0, path, st, depth)
      case Error => Error
      case Ok((st1, ended)) => if ended then Ok(st1) else ScanUnits(v, units, n + 1, path, st1, depth)
  }

  function Units(chain: seq<nat>): seq<Container> {
    seq(|chain|, k requires 0 <= k < |chain| => InCluster(chain[k]))
  }

  function ScanDirectory(v: Vol, first: nat, path: string, st: State, depth: nat): (r: Result<State>)
    requires Loaded(v)
    ensures r.Ok? ==> st.refs <= r.value.refs
    decreases MAX_RECURSION_DEPTH + 1 - depth, 2, 0
  {
    if depth > MAX_RECURSION_DEPTH then Error
    else if v.rootFixed && first == 0 && depth == 0 then ScanUnits(v, [RootArea], 0, path, st, depth)
    else if first < 2 || first > v.max || first in st.visited then Error
    else
      match ReadChain(v, first, {})
      case Error => Error
      case Ok(chain) =>
        ScanUnits(v, Units(chain), 0, path, st.(visited := st.visited + {first}), depth)
  }

  function RootChain(v: Vol): Result<seq<nat>>
    requires Loaded(v)
  {
    if v.rootFixed then Ok([]) else ReadChain(v, RootCluster(v), {})
  }

  /** No reserved value, and nothing allocated that no object claims. */
  predicate NothingLost(v: Vol, claimed: set<nat>)
    requires Loaded(v)
  {
    forall c | 2 <= c <= v.max ::
      Fat(v, c) == 0 || Fat(v, c) == BadValue(v.kind) || (!IsReserved(v, Fat(v, c)) && c in claimed)
  }

  /** scan_files. */
  function ScanFiles(v: Vol): (r: Result<State>)
    requires Loaded(v)
  {
    match RootChain(v)
    case Error => Error
    case Ok(root) =>
      match ScanDirectory(v, RootCluster(v), "", State([], [], {}, Elements(root)), 0)
      case Error => Error
      case Ok(st) => if NothingLost(v, st.claimed) then Ok(st) else Error
  }

  // ---- The layout of a scanned volume --------------------------------------------------

  function FileObj(rec: FileRec): Obj {
    Obj(false, rec.isDir, rec.path, rec.chain)
  }

  function ObjsOf(root: seq<nat>, files: seq<FileRec>): seq<Obj> {
    (if root == [] then [] else [Obj(true, true, "<root directory>", root)]) +
    seq(|files|, i requires 0 <= i < |files| => FileObj(files[i]))
  }

  function BadClusters(v: Vol): set<nat>
    requires Loaded(v)
  {
    set c: nat | 2 <= c <= v.max && Fat(v, c) == BadValue(v.kind)
  }

  function LayoutWith(v: Vol, root: seq<nat>, files: seq<FileRec>): Layout
    requires Loaded(v)
  {
    Layout(v.max, BadClusters(v), ObjsOf(root, files))
  }

  function LayoutOf(v: Vol): (l: Layout)
    requires Loaded(v) && ScanFiles(v).Ok?
  {
    LayoutWith(v, RootChain(v).value, ScanFiles(v).value.files)
  }
}
