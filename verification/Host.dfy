/** A file system as the system calls see it: paths are resolved on the way, through links and physically up. */
module Host {
  import opened Bytes
  import opened Lexical
  import opened Records
  import opened Validation
  import Paths

  const DOTS: bytes := [Paths.DOT, Paths.DOT]

  /** How many links a resolution follows at most. */
  const MOST_LINKS := 40

  predicate IsDirectory(fs: Nodes, p: Path)
  {
    p == [] || (p in fs && fs[p].Dir?)
  }

  function Above(p: Path): Path
  {
    if p == [] then [] else p[..|p| - 1]
  }

  predicate Searchable(fs: Nodes, d: Path)
  {
    IsDirectory(fs, d) && (d != [] ==> Passable(fs[d].mode))
  }

  /** Whether the owner may make entries in a directory. */
  predicate Fillable(fs: Nodes, d: Path)
  {
    Searchable(fs, d) && (d != [] ==> fs[d].mode == DEFAULT_DIRECTORY || fs[d].mode / 0x80 % 2 == 1)
  }

  /** Path resolution from the directory `d`: where the rest of a path leads. A link that comes last is followed if
      `last` says so. The entry that comes last need not be there. */
  function Walk(fs: Nodes, d: Path, parts: seq<bytes>, last: bool, links: nat): Option<Path>
    decreases links, |parts|
  {
    if parts == [] then Some(d)
    else if !Searchable(fs, d) then None
    else
      var c, rest := parts[0], parts[1..];
      if c == [] || c == [Paths.DOT] then Walk(fs, d, rest, last, links)
      else if c == DOTS then Walk(fs, Above(d), rest, last, links)
      else if d + [c] !in fs then if rest == [] then Some(d + [c]) else None
      else
        match fs[d + [c]]
        case Dir(_) => Walk(fs, d + [c], rest, last, links)
        case File(_, _) => if rest == [] then Some(d + [c]) else None
        case Link(target) =>
          if rest == [] && !last then Some(d + [c])
          else if links == 0 || target == [] then None
          else Walk(fs, if target[0] == Paths.SEPARATOR then [] else d, Paths.Split(target) + rest, last, links - 1)
  }

  /** Where a path from the root of the stage leads, its last link followed. */
  function Leads(fs: Nodes, root: Path, path: Path): Option<Path>
  {
    Walk(fs, root, path, true, MOST_LINKS)
  }

  predicate LeadsToDirectory(fs: Nodes, root: Path, path: Path)
  {
    var p := Leads(fs, root, path);
    p.Some? && IsDirectory(fs, p.value)
  }

  /** Where a new entry goes: nothing may be there yet, not even a link. */
  function Place(fs: Nodes, root: Path, path: Path): Option<Path>
  {
    var p := Walk(fs, root, path, false, MOST_LINKS);
    if p.Some? && p.value != [] && p.value !in fs && Fillable(fs, Above(p.value)) then p else None
  }

  /** `os.makedirs` with `exist_ok` for the first `n` components: what is there already need only lead to a
      directory. */
  function MakeParents(fs: Nodes, root: Path, path: Path, n: nat): Option<Nodes>
    requires n <= |path|
  {
    if n == 0 then Some(fs)
    else
      var above := MakeParents(fs, root, path, n - 1);
      if above.None? then None
      else
        var p := Place(above.value, root, path[..n]);
        if p.Some? then Some(above.value[p.value := NewParent(path, n)])
        else if LeadsToDirectory(above.value, root, path[..n]) then above
        else None
  }

  /** `ensure_parent`. */
  function ParentsOf(fs: Nodes, root: Path, path: Path): Option<Nodes>
  {
    if path == [] then Some(fs) else MakeParents(fs, root, path, |path| - 1)
  }

  /** The begin record of an artifact on the file system; an open file is known by where it is. */
  function HostBegin(b: Build, a: Artifact, root: Path): Option<Build>
  {
    var parents := ParentsOf(b.nodes, root, a.components);
    if parents.None? then None
    else
      var p := Place(parents.value, root, a.components);
      if p.None? then None
      else
        Some(Build(
               parents.value[p.value := Fresh(a)],
               if a.fileType == Regular then p else b.open,
               Some(a.id),
               if a.fileType == Directory then b.directories + [(a.components, a.mode)] else b.directories))
  }

  /** One record of the second pass: an open file is written to and ended wherever it is. */
  function HostStep(b: Build, r: Record, artifacts: seq<Artifact>, special: bool, root: Path): Option<Build>
  {
    match r
    case ArtifactBegin(id, _, _, _, _, _, _) =>
      (match ById(artifacts, id) case Some(a) => HostBegin(b, a, root) case None => None)
    case _ => BuildStep(b, r, artifacts, special)
  }

  function HostRun(b: Build, rs: seq<Record>, artifacts: seq<Artifact>, special: bool, root: Path): Option<Build>
    decreases |rs|
  {
    if rs == [] then Some(b)
    else
      var t := HostStep(b, rs[0], artifacts, special, root);
      if t.None? then None else HostRun(t.value, rs[1..], artifacts, special, root)
  }

  /** `chmod` on a directory. */
  function HostMode(fs: Nodes, root: Path, path: Path, mode: int): Option<Nodes>
  {
    var p := Walk(fs, root, path, false, MOST_LINKS);
    if p.Some? && p.value in fs && fs[p.value].Dir? then Some(fs[p.value := Dir(mode)]) else None
  }

  function HostModes(fs: Nodes, root: Path, due: seq<(Path, int)>, special: bool): Option<Nodes>
    decreases |due|
  {
    if due == [] then Some(fs)
    else
      var t := HostMode(fs, root, due[0].0, Masked(due[0].1, special));
      if t.None? then None else HostModes(t.value, root, due[1..], special)
  }

  /** The file system after the directory modes were set in some order that goes from the deepest up. */
  ghost predicate HostModesSet(b: Build, special: bool, root: Path, result: Option<Nodes>)
  {
    exists due: seq<(Path, int)> ::
      DeepestFirst(due) && multiset(due) == multiset(b.directories) && result == HostModes(b.nodes, root, due, special)
  }

  /** What is in the stage, by path from its root. */
  function Inside(fs: Nodes, root: Path): Nodes
  {
    RestsAre(fs, root);
    map p | p in Rests(fs, root) :: fs[root + p]
  }

  /** The paths below the root, without it. */
  function Rests(fs: Nodes, root: Path): set<Path>
  {
    set q | q in fs && Paths.Below(q, root) :: q[|root|..]
  }

  lemma RestsAre(fs: Nodes, root: Path)
    ensures forall p :: p in Rests(fs, root) <==> p != [] && root + p in fs
  {
    forall p
      ensures p in Rests(fs, root) <==> p != [] && root + p in fs
    {
      if p in Rests(fs, root) {
        var q :| q in fs && Paths.Below(q, root) && p == q[|root|..];
        assert q == root + p;
      }
      if p != [] && root + p in fs {
        assert Paths.Below(root + p, root) && (root + p)[|root|..] == p;
      }
    }
  }

  /** Nothing outside the stage has changed. */
  ghost predicate Untouched(host: Nodes, fs: Nodes, root: Path)
  {
    forall q :: !Paths.Below(q, root) ==> (q in fs <==> q in host) && (q in fs ==> fs[q] == host[q])
  }

  /** A name that is free for the staging directory. */
  ghost predicate Vacant(host: Nodes, root: Path)
  {
    IsTree(host) && root != [] && root !in host && IsDirectory(host, Above(root))
  }

  /** `tempfile.mkdtemp`. */
  function WithStage(host: Nodes, root: Path): Nodes
  {
    host[root := Dir(PRIVATE_DIRECTORY)]
  }

  /** The second pass begins with an empty staging directory. */
  function StartOn(host: Nodes, root: Path): Build
  {
    Build(WithStage(host, root), None, None, [])
  }
}
