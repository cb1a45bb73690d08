/** Rebuilding a tree as if every path were what it is spelled: no link is followed, one in the way is an obstacle. The
    pass on a file system is measured against this. */
module Lexical {
  import opened Bytes
  import opened Records
  import opened Validation

  datatype Node =
    | Dir(mode: int)
    | File(content: bytes, mode: int)
    | Link(target: bytes)

  type Path = seq<bytes>

  /** Everything below the staging directory, by path components. */
  type Nodes = map<Path, Node>

  const PRIVATE_DIRECTORY := 0x1c0 // 0700
  const PRIVATE_FILE := 0x180 // 0600

  /** Stands for whatever mode the process gives to a new directory; its owner may pass. */
  const DEFAULT_DIRECTORY := -1

  /** What `os.makedirs` makes of the first `n` components: the mode it is given goes to the last directory only. */
  function NewParent(path: Path, n: nat): Node
  {
    Dir(if n == |path| - 1 then PRIVATE_DIRECTORY else DEFAULT_DIRECTORY)
  }

  /** A directory made on the way to something else. */
  predicate OnTheWay(node: Node)
  {
    node == Dir(PRIVATE_DIRECTORY) || node == Dir(DEFAULT_DIRECTORY)
  }

  /** `os.makedirs` with `exist_ok`: the first `n` components become directories, unless something else is in the
      way. */
  function WithParents(nodes: Nodes, path: Path, n: nat): Option<Nodes>
    requires n <= |path|
  {
    if n == 0 then Some(nodes)
    else
      var above := WithParents(nodes, path, n - 1);
      if above.None? then None
      else if path[..n] !in above.value then Some(above.value[path[..n] := NewParent(path, n)])
      else if above.value[path[..n]].Dir? then above
      else None
  }

  /** `ensure_parent`. */
  function EnsureParent(nodes: Nodes, path: Path): Option<Nodes>
  {
    if path == [] then Some(nodes) else WithParents(nodes, path, |path| - 1)
  }

  function Masked(mode: int, special: bool): int
  {
    mode % (if special then 0x1000 else 0x200)
  }

  /** Bit `k` of a mode. */
  function Bit(mode: int, k: nat): int
    decreases k
  {
    if k == 0 then mode % 2 else Bit(mode / 2, k - 1)
  }

  /** A mode that has the nine permission bits of another one, or with `special` all twelve, and no others. */
  ghost predicate Permits(mode: int, from: int, special: bool)
  {
    var bits := if special then 12 else 9;
    && 0 <= mode < (if special then 4096 else 512)
    && forall k :: 0 <= k < bits ==> Bit(mode, k) == Bit(from, k)
  }

  function PowerOf2(m: nat): (r: nat)
    requires m <= 12
    ensures r > 0
  {
    match m
    case 0 => 1
    case 1 => 2
    case 2 => 4
    case 3 => 8
    case 4 => 0x10
    case 5 => 0x20
    case 6 => 0x40
    case 7 => 0x80
    case 8 => 0x100
    case 9 => 0x200
    case 10 => 0x400
    case 11 => 0x800
    case _ => 0x1000
  }

  lemma Half1(n: int)
    ensures n % 2 / 2 == n / 2 % 1 && n % 2 % 2 == n % 2
  {
    var q, r := n / 2, n % 2;
    assert n / 2 == 1 * q + r / 2;
  }

  lemma Half2(n: int)
    ensures n % 4 / 2 == n / 2 % 2 && n % 4 % 2 == n % 2
  {
    var q, r := n / 4, n % 4;
    assert n / 2 == 2 * q + r / 2;
  }

  lemma Half3(n: int)
    ensures n % 8 / 2 == n / 2 % 4 && n % 8 % 2 == n % 2
  {
    var q, r := n / 8, n % 8;
    assert n / 2 == 4 * q + r / 2;
  }

  lemma Half4(n: int)
    ensures n % 0x10 / 2 == n / 2 % 8 && n % 0x10 % 2 == n % 2
  {
    var q, r := n / 0x10, n % 0x10;
    assert n / 2 == 8 * q + r / 2;
  }

  lemma Half5(n: int)
    ensures n % 0x20 / 2 == n / 2 % 0x10 && n % 0x20 % 2 == n % 2
  {
    var q, r := n / 0x20, n % 0x20;
    assert n / 2 == 0x10 * q + r / 2;
  }

  lemma Half6(n: int)
    ensures n % 0x40 / 2 == n / 2 % 0x20 && n % 0x40 % 2 == n % 2
  {
    var q, r := n / 0x40, n % 0x40;
    assert n / 2 == 0x20 * q + r / 2;
  }

  lemma Half7(n: int)
    ensures n % 0x80 / 2 == n / 2 % 0x40 && n % 0x80 % 2 == n % 2
  {
    var q, r := n / 0x80, n % 0x80;
    assert n / 2 == 0x40 * q + r / 2;
  }

  lemma Half8(n: int)
    ensures n % 0x100 / 2 == n / 2 % 0x80 && n % 0x100 % 2 == n % 2
  {
    var q, r := n / 0x100, n % 0x100;
    assert n / 2 == 0x80 * q + r / 2;
  }

  lemma Half9(n: int)
    ensures n % 0x200 / 2 == n / 2 % 0x100 && n % 0x200 % 2 == n % 2
  {
    var q, r := n / 0x200, n % 0x200;
    assert n / 2 == 0x100 * q + r / 2;
  }

  lemma Half10(n: int)
    ensures n % 0x400 / 2 == n / 2 % 0x200 && n % 0x400 % 2 == n % 2
  {
    var q, r := n / 0x400, n % 0x400;
    assert n / 2 == 0x200 * q + r / 2;
  }

  lemma Half11(n: int)
    ensures n % 0x800 / 2 == n / 2 % 0x400 && n % 0x800 % 2 == n % 2
  {
    var q, r := n / 0x800, n % 0x800;
    assert n / 2 == 0x400 * q + r / 2;
  }

  lemma Half12(n: int)
    ensures n % 0x1000 / 2 == n / 2 % 0x800 && n % 0x1000 % 2 == n % 2
  {
    var q, r := n / 0x1000, n % 0x1000;
    assert n / 2 == 0x800 * q + r / 2;
  }

  lemma Halved(n: int, m: nat)
    requires 0 < m <= 12
    ensures n % PowerOf2(m) / 2 == n / 2 % PowerOf2(m - 1) && n % PowerOf2(m) % 2 == n % 2
  {
    match m
    case 1 => Half1(n);
    case 2 => Half2(n);
    case 3 => Half3(n);
    case 4 => Half4(n);
    case 5 => Half5(n);
    case 6 => Half6(n);
    case 7 => Half7(n);
    case 8 => Half8(n);
    case 9 => Half9(n);
    case 10 => Half10(n);
    case 11 => Half11(n);
    case _ => Half12(n);
  }

  /** The rest by a power of two keeps the bits below. */
  lemma {:induction false} MaskedBit(mode: int, m: nat, k: nat)
    requires k < m <= 12
    ensures Bit(mode % PowerOf2(m), k) == Bit(mode, k)
    decreases k
  {
    hide PowerOf2;
    Halved(mode, m);
    if k > 0 {
      MaskedBit(mode / 2, m - 1, k - 1);
    }
  }

  /** The mask does that, also where the type bits were cut off before. */
  lemma MaskedPermits(mode: int, special: bool)
    ensures Permits(Masked(mode, special), mode, special)
    ensures Permits(Masked(mode % 0x1000, special), mode, special)
  {
    hide Bit;
    forall k | 0 <= k < (if special then 12 else 9)
      ensures Bit(Masked(mode, special), k) == Bit(mode, k)
      ensures Bit(Masked(mode % 0x1000, special), k) == Bit(mode, k)
    {
      MaskedBit(mode, 12, k);
      if !special {
        MaskedBit(mode, 9, k);
        MaskedBit(mode % 0x1000, 9, k);
      }
    }
  }

  /** A rebuilding in progress: the tree, the open file, the open group and the directories whose modes are due. */
  datatype Build = Build(nodes: Nodes, open: Option<Path>, active: Option<int>, directories: seq<(Path, int)>)

  /** What an artifact is when its group begins. */
  function Fresh(a: Artifact): Node
  {
    match a.fileType
    case Directory => Dir(PRIVATE_DIRECTORY)
    case Regular => File([], PRIVATE_FILE)
    case Symlink => Link(if a.target.Some? then a.target.value else [])
  }

  function BuildBegin(b: Build, a: Artifact): Option<Build>
  {
    var parents := EnsureParent(b.nodes, a.components);
    if parents.None? || a.components in parents.value then None
    else
      Some(Build(
             parents.value[a.components := Fresh(a)],
             if a.fileType == Regular then Some(a.components) else b.open,
             Some(a.id),
             if a.fileType == Directory then b.directories + [(a.components, a.mode)] else b.directories))
  }

  function BuildChunk(b: Build, id: int, data: bytes): Option<Build>
  {
    if b.open.Some? && b.active == Some(id) && b.open.value in b.nodes && b.nodes[b.open.value].File? then
      var f := b.nodes[b.open.value];
      Some(b.(nodes := b.nodes[b.open.value := File(f.content + data, f.mode)]))
    else None
  }

  function BuildEnd(b: Build, a: Artifact, special: bool): Option<Build>
  {
    if b.open.None? then Some(b.(active := None))
    else if b.open.value in b.nodes && b.nodes[b.open.value].File? then
      var f := b.nodes[b.open.value];
      Some(b.(nodes := b.nodes[b.open.value := File(f.content, Masked(a.mode, special))], open := None, active := None))
    else None
  }

  /** The artifact with a number; the summary lists them in order of their numbers. */
  function ById(artifacts: seq<Artifact>, id: int): Option<Artifact>
  {
    if 0 <= id < |artifacts| then Some(artifacts[id]) else None
  }

  /** One record of the second pass. */
  function BuildStep(b: Build, r: Record, artifacts: seq<Artifact>, special: bool): Option<Build>
  {
    match r
    case ArtifactBegin(id, _, _, _, _, _, _) =>
      (match ById(artifacts, id) case Some(a) => BuildBegin(b, a) case None => None)
    case ArtifactChunk(id, _, data) => BuildChunk(b, id, data)
    case ArtifactEnd(id, _, _, _) =>
      (match ById(artifacts, id) case Some(a) => BuildEnd(b, a, special) case None => None)
    case _ => Some(b)
  }

  function BuildRun(b: Build, rs: seq<Record>, artifacts: seq<Artifact>, special: bool): Option<Build>
    decreases |rs|
  {
    if rs == [] then Some(b)
    else
      var t := BuildStep(b, rs[0], artifacts, special);
      if t.None? then None else BuildRun(t.value, rs[1..], artifacts, special)
  }

  lemma {:induction false} BuildAppend(b: Build, left: seq<Record>, right: seq<Record>, artifacts: seq<Artifact>,
                                       special: bool)
    ensures BuildRun(b, left + right, artifacts, special) ==
            if BuildRun(b, left, artifacts, special).None? then None
            else BuildRun(BuildRun(b, left, artifacts, special).value, right, artifacts, special)
    decreases |left|
  {
    hide BuildStep;
    if left == [] {
      assert left + right == right;
    } else {
      assert (left + right)[1..] == left[1..] + right;
      var t := BuildStep(b, left[0], artifacts, special);
      if t.Some? {
        BuildAppend(t.value, left[1..], right, artifacts, special);
      }
    }
  }

  lemma BuildOne(b: Build, r: Record, artifacts: seq<Artifact>, special: bool)
    ensures BuildRun(b, [r], artifacts, special) == BuildStep(b, r, artifacts, special)
  {
    hide BuildStep;
    assert [r][1..] == [];
  }

  // Directory modes.

  /** Whether the owner may pass through a directory. */
  predicate Passable(mode: int)
  {
    mode == DEFAULT_DIRECTORY || mode / 0x40 % 2 == 1
  }

  /** A path can be reached while every directory above it lets its owner pass. */
  predicate Reachable(nodes: Nodes, path: Path)
  {
    forall n :: 0 < n < |path| && path[..n] in nodes ==> nodes[path[..n]].Dir? && Passable(nodes[path[..n]].mode)
  }

  /** `chmod` on a directory: it must be there and within reach. */
  function ChangeMode(nodes: Nodes, path: Path, mode: int): Option<Nodes>
  {
    if path in nodes && nodes[path].Dir? && Reachable(nodes, path) then Some(nodes[path := Dir(mode)]) else None
  }

  function ChangeModes(nodes: Nodes, due: seq<(Path, int)>, special: bool): Option<Nodes>
    decreases |due|
  {
    if due == [] then Some(nodes)
    else
      var t := ChangeMode(nodes, due[0].0, Masked(due[0].1, special));
      if t.None? then None else ChangeModes(t.value, due[1..], special)
  }

  /** Deepest first. */
  predicate DeepestFirst(due: seq<(Path, int)>)
  {
    forall i, j :: 0 <= i < j < |due| ==> |due[i].0| >= |due[j].0|
  }

  /** Distinct directories that are there, each still private or not due. */
  ghost predicate DueIn(nodes: Nodes, due: seq<(Path, int)>)
  {
    && (forall i :: 0 <= i < |due| ==> due[i].0 in nodes && nodes[due[i].0].Dir?)
    && (forall i, j :: 0 <= i < j < |due| ==> due[i].0 != due[j].0)
    && (forall i :: 0 <= i < |due| ==> Reachable(nodes, due[i].0))
  }

  /** Deepest first, every mode can be set, whatever the modes are: nothing above a directory has been closed yet. */
  lemma {:induction false} ModesCanBeSet(nodes: Nodes, due: seq<(Path, int)>, special: bool)
    requires DueIn(nodes, due) && DeepestFirst(due)
    ensures var t := ChangeModes(nodes, due, special);
            && t.Some? && t.value.Keys == nodes.Keys
            && (forall i :: 0 <= i < |due| ==> t.value[due[i].0] == Dir(Masked(due[i].1, special)))
            && (forall p :: p in nodes && (forall i :: 0 <= i < |due| ==> due[i].0 != p) ==> t.value[p] == nodes[p])
    decreases |due|
  {
    hide Masked, Passable;
    if due != [] {
      var p, mode := due[0].0, Masked(due[0].1, special);
      var next := nodes[p := Dir(mode)];
      var rest := due[1..];
      forall i | 0 <= i < |rest|
        ensures Reachable(next, rest[i].0)
      {
        assert rest[i] == due[i + 1];
        assert Reachable(nodes, due[i + 1].0);
        forall n | 0 < n < |rest[i].0| && rest[i].0[..n] in next
          ensures next[rest[i].0[..n]].Dir? && Passable(next[rest[i].0[..n]].mode)
        {
          assert |due[i + 1].0[..n]| < |p|;
          assert rest[i].0[..n] != p;
        }
      }
      ModesCanBeSet(next, rest, special);
      forall i | 0 <= i < |due|
        ensures ChangeModes(nodes, due, special).value[due[i].0] == Dir(Masked(due[i].1, special))
      {
        if i > 0 {
          assert rest[i - 1] == due[i];
        } else {
          assert forall j :: 0 <= j < |rest| ==> rest[j].0 != p;
        }
      }
    }
  }

  const EMPTY_STAGE := Build(map[], None, None, [])

  /** The stage after the directory modes were set in some order that goes from the deepest up. */
  ghost predicate ModesSetOn(b: Build, special: bool, result: Option<Nodes>)
  {
    exists due: seq<(Path, int)> ::
      DeepestFirst(due) && multiset(due) == multiset(b.directories) && result == ChangeModes(b.nodes, due, special)
  }

  /** Whatever has something below it is a directory that is there. */
  ghost predicate IsTree(nodes: Nodes)
  {
    forall p, k :: p in nodes && 0 < k < |p| ==> p[..k] in nodes && nodes[p[..k]].Dir?
  }
}
