/** The second pass beside the first: over any accepted stream it goes through exactly when the listed places make a
    tree. */
module SecondPass {
  import opened Bytes
  import opened Listing
  import opened Lexical
  import opened Records
  import opened RoundTrip
  import opened Sha256Spec
  import opened StageTree
  import opened Validation
  import Paths
  import Production

  /** How many artifacts have begun. */
  function Begun(s: State): nat
  {
    |s.artifacts| + if s.active.Some? then 1 else 0
  }

  predicate PlaceOf(all: seq<Artifact>, k: nat, p: Path)
    requires k <= |all|
  {
    exists i :: 0 <= i < k && all[i].components == p
  }

  /** A directory nobody listed, above something somebody did. */
  predicate AboveOf(all: seq<Artifact>, k: nat, p: Path)
    requires k <= |all|
  {
    p != [] && exists i :: 0 <= i < k && Paths.Below(all[i].components, p)
  }

  /** No artifact before has anything at or below the place, and those above it are directories. */
  predicate FreeAt(all: seq<Artifact>, k: nat)
    requires k < |all|
  {
    forall i :: 0 <= i < k ==>
      && !Paths.Below(all[i].components, all[k].components)
      && (Paths.Below(all[k].components, all[i].components) ==> all[i].fileType == Directory)
  }

  /** What has something below it is a directory and comes first. */
  predicate Buildable(all: seq<Artifact>)
  {
    forall k :: 0 <= k < |all| ==> FreeAt(all, k)
  }

  /** An artifact on the stage after its group: a directory still private, a link, or a file of the listed size and
      digest. */
  predicate Ended(node: Node, a: Artifact, special: bool)
  {
    match a.fileType
    case Directory => node == Dir(PRIVATE_DIRECTORY)
    case Symlink => node == Link(if a.target.Some? then a.target.value else [])
    case Regular =>
      node.File? && node.mode == Masked(a.mode, special) && |node.content| == a.size
        && Sha256Hex(node.content) == a.sha256
  }

  /** And before its end. */
  predicate Growing(node: Node, a: ActiveArtifact)
  {
    match a.fileType
    case Directory => node == Dir(PRIVATE_DIRECTORY)
    case Symlink => node == Link(if a.target.Some? then a.target.value else [])
    case Regular => node == File(a.hashed, PRIVATE_FILE)
  }

  /** The places of the first `k` artifacts and the directories above them, the latter private, and nothing else. */
  ghost predicate Shape(nodes: Nodes, all: seq<Artifact>, k: nat)
    requires k <= |all|
  {
    && (forall p :: p in nodes <==> PlaceOf(all, k, p) || AboveOf(all, k, p))
    && (forall p :: p in nodes && !PlaceOf(all, k, p) ==> OnTheWay(nodes[p]))
  }

  predicate Kinds(nodes: Nodes, all: seq<Artifact>, k: nat)
    requires k <= |all|
  {
    forall i :: 0 <= i < k ==>
      all[i].components in nodes && (nodes[all[i].components].Dir? <==> all[i].fileType == Directory)
  }

  predicate AllEnded(nodes: Nodes, all: seq<Artifact>, n: nat, special: bool)
    requires n <= |all|
  {
    forall i :: 0 <= i < n ==> all[i].components in nodes && Ended(nodes[all[i].components], all[i], special)
  }

  /** The directories whose modes are due. */
  function DueOf(all: seq<Artifact>, k: nat): seq<(Path, int)>
    requires k <= |all|
  {
    if k == 0 then []
    else DueOf(all, k - 1) + if all[k - 1].fileType == Directory then [(all[k - 1].components, all[k - 1].mode)] else []
  }

  /** What the list will say agrees with what has been seen. */
  predicate Agrees(s: State, all: seq<Artifact>)
  {
    && s.artifacts <= all
    && (s.active.Some? ==> |s.artifacts| < |all| && Becomes(s.active.value, all[|s.artifacts|]))
  }

  /** The stage is where the validator is. */
  ghost predicate Mirrors(s: State, b: Build, all: seq<Artifact>, special: bool)
    requires Agrees(s, all)
  {
    && IsTree(b.nodes) && Shape(b.nodes, all, Begun(s)) && AllEnded(b.nodes, all, |s.artifacts|, special)
    && b.directories == DueOf(all, Begun(s))
    && b.open == (if s.active.Some? && s.active.value.fileType == Regular then Some(s.active.value.components)
                  else None)
    && (s.active.Some? ==>
          && b.active == Some(s.active.value.id)
          && s.active.value.components in b.nodes && Growing(b.nodes[s.active.value.components], s.active.value))
  }

  lemma MirrorKinds(s: State, b: Build, all: seq<Artifact>, special: bool)
    requires Agrees(s, all) && Mirrors(s, b, all, special)
    ensures Kinds(b.nodes, all, Begun(s))
  {
    hide IsTree, Shape, Masked;
  }

  // A place.

  lemma FreePlace(nodes: Nodes, all: seq<Artifact>, k: nat)
    requires k < |all| && Shape(nodes, all, k) && Kinds(nodes, all, k) && FreeAt(all, k)
    requires all[k].components != [] && forall i :: 0 <= i < k ==> all[i].components != all[k].components
    ensures all[k].components !in nodes
    ensures forall j ::
              0 < j < |all[k].components| && all[k].components[..j] in nodes ==> nodes[all[k].components[..j]].Dir?
  {
    var path := all[k].components;
    forall j | 0 < j < |path| && path[..j] in nodes
      ensures nodes[path[..j]].Dir?
    {
      if PlaceOf(all, k, path[..j]) {
        var i :| 0 <= i < k && all[i].components == path[..j];
        assert Paths.Below(path, all[i].components);
      }
    }
  }

  lemma TakenPlace(nodes: Nodes, all: seq<Artifact>, k: nat)
    requires k < |all| && Shape(nodes, all, k) && Kinds(nodes, all, k) && IsTree(nodes)
    requires all[k].components != [] && forall i :: 0 <= i < k ==> all[i].components != []
    requires EnsureParent(nodes, all[k].components).Some?
             && all[k].components !in EnsureParent(nodes, all[k].components).value
    ensures FreeAt(all, k)
  {
    hide IsTree, WithParents;
    var path := all[k].components;
    ParentsKeep(nodes, path, |path| - 1);
    assert path !in nodes && !AboveOf(all, k, path);
    forall i | 0 <= i < k
      ensures !Paths.Below(all[i].components, path)
      ensures Paths.Below(path, all[i].components) ==> all[i].fileType == Directory
    {
      if Paths.Below(path, all[i].components) {
        assert path[..|all[i].components|] == all[i].components;
      }
    }
  }

  lemma AboveNext(all: seq<Artifact>, k: nat, p: Path)
    requires k < |all|
    ensures PlaceOf(all, k + 1, p) <==> PlaceOf(all, k, p) || p == all[k].components
    ensures AboveOf(all, k + 1, p) <==>
            AboveOf(all, k, p) || exists j :: 0 < j <= |all[k].components| - 1 && p == all[k].components[..j]
  {
    var path := all[k].components;
    if p != [] && Paths.Below(path, p) {
      assert p == path[..|p|];
    }
  }

  /** The stage with one more place. */
  lemma ShapeNext(nodes: Nodes, parents: Nodes, all: seq<Artifact>, k: nat, node: Node)
    requires k < |all| && Shape(nodes, all, k) && all[k].components !in nodes && all[k].components != []
    requires forall p ::
               p in parents <==> p in nodes || exists j :: 0 < j < |all[k].components| && p == all[k].components[..j]
    requires forall p :: p in nodes ==> p in parents && parents[p] == nodes[p]
    requires forall p :: p in parents && p !in nodes ==> OnTheWay(parents[p])
    ensures Shape(parents[all[k].components := node], all, k + 1)
    ensures var grown := parents[all[k].components := node];
            forall p :: p in nodes ==> p in grown && grown[p] == nodes[p]
  {
    hide PlaceOf, AboveOf;
    forall p
      ensures PlaceOf(all, k + 1, p) <==> PlaceOf(all, k, p) || p == all[k].components
      ensures AboveOf(all, k + 1, p) <==>
              AboveOf(all, k, p) || exists j :: 0 < j <= |all[k].components| - 1 && p == all[k].components[..j]
    {
      AboveNext(all, k, p);
    }
  }

  /** What the begin record of the next artifact does to the tree. */
  lemma NextBegins(nodes: Nodes, all: seq<Artifact>, k: nat, node: Node)
    requires k < |all| && Shape(nodes, all, k) && Kinds(nodes, all, k) && IsTree(nodes)
    requires all[k].components != []
    requires forall i :: 0 <= i < k ==> all[i].components != all[k].components && all[i].components != []
    ensures var path := all[k].components;
            var parents := EnsureParent(nodes, path);
            && (parents.Some? && path !in parents.value <==> FreeAt(all, k))
            && (FreeAt(all, k) ==>
                  var grown := parents.value[path := node];
                  Shape(grown, all, k + 1) && forall p :: p in nodes ==> p in grown && grown[p] == nodes[p])
  {
    hide IsTree, Kinds, Shape, FreeAt, WithParents;
    var path := all[k].components;
    if FreeAt(all, k) {
      FreePlace(nodes, all, k);
      ParentsMade(nodes, path, |path| - 1);
      ShapeNext(nodes, WithParents(nodes, path, |path| - 1).value, all, k, node);
      NotItsOwnParent(path);
    } else if EnsureParent(nodes, path).Some? && path !in EnsureParent(nodes, path).value {
      TakenPlace(nodes, all, k);
    }
  }

  lemma NotItsOwnParent(path: Path)
    ensures forall j :: 0 < j <= |path| - 1 ==> path[..j] != path
  {
    forall j | 0 < j <= |path| - 1
      ensures path[..j] != path
    {
      assert |path[..j]| == j;
    }
  }

  // One record.

  lemma BeginGoes(b: Build, all: seq<Artifact>, paths: set<Path>, k: nat)
    requires k < |all| && AllListed(all, paths) && b.open.None?
    requires IsTree(b.nodes) && Shape(b.nodes, all, k) && Kinds(b.nodes, all, k)
    ensures BuildBegin(b, all[k]).Some? <==> FreeAt(all, k)
    ensures FreeAt(all, k) ==>
              var t := EnsureParent(b.nodes, all[k].components).value[all[k].components := Fresh(all[k])];
              && IsTree(t) && Shape(t, all, k + 1) && (forall p :: p in b.nodes ==> p in t && t[p] == b.nodes[p])
              && BuildBegin(b, all[k]) ==
                 Some(Build(t, if all[k].fileType == Regular then Some(all[k].components) else None, Some(all[k].id),
                            b.directories + if all[k].fileType == Directory then [(all[k].components, all[k].mode)]
                              else []))
  {
    ListedPlaces(all, paths);
    hide IsTree, Shape, FreeAt, EnsureParent, Kinds, AllListed, Fresh, BuildBegin;
    NextBegins(b.nodes, all, k, Fresh(all[k]));
    if FreeAt(all, k) {
      BeginIs(b, all[k]);
      BeginKeeps(b, all[k]);
    } else {
      BeginFails(b, all[k]);
    }
  }

  lemma BeginFails(b: Build, a: Artifact)
    requires !(EnsureParent(b.nodes, a.components).Some? && a.components !in EnsureParent(b.nodes, a.components).value)
    ensures BuildBegin(b, a).None?
  {
    hide EnsureParent, Fresh;
  }

  lemma EndedStays(nodes: Nodes, t: Nodes, all: seq<Artifact>, n: nat, special: bool)
    requires n <= |all| && AllEnded(nodes, all, n, special) && forall p :: p in nodes ==> p in t && t[p] == nodes[p]
    ensures AllEnded(t, all, n, special)
  {
    hide Ended;
  }

  lemma DueNext(all: seq<Artifact>, k: nat)
    requires k < |all|
    ensures DueOf(all, k + 1) ==
            DueOf(all, k) + if all[k].fileType == Directory then [(all[k].components, all[k].mode)] else []
  {
  }

  /** The begin record of the next artifact on the stage. */
  lemma BeginBuilt(b: Build, all: seq<Artifact>, paths: set<Path>, k: nat, special: bool)
    requires k < |all| && AllListed(all, paths) && b.open.None?
    requires IsTree(b.nodes) && Shape(b.nodes, all, k) && Kinds(b.nodes, all, k) && AllEnded(b.nodes, all, k, special)
    requires b.directories == DueOf(all, k)
    ensures var u := BuildBegin(b, all[k]);
            && (u.Some? <==> FreeAt(all, k))
            && (u.Some? ==> BegunAt(u.value, all, k, special))
  {
    hide IsTree, Shape, FreeAt, EnsureParent, Kinds, AllListed, Fresh, BuildBegin, AllEnded, DueOf;
    BeginGoes(b, all, paths, k);
    if FreeAt(all, k) {
      DueNext(all, k);
      EndedStays(b.nodes, BuildBegin(b, all[k]).value.nodes, all, k, special);
    }
  }

  /** The stage right after artifact `k` has begun. */
  ghost predicate BegunAt(b: Build, all: seq<Artifact>, k: nat, special: bool)
    requires k < |all|
  {
    && IsTree(b.nodes) && Shape(b.nodes, all, k + 1) && AllEnded(b.nodes, all, k, special)
    && b.directories == DueOf(all, k + 1) && b.active == Some(all[k].id)
    && b.open == (if all[k].fileType == Regular then Some(all[k].components) else None)
    && all[k].components in b.nodes && b.nodes[all[k].components] == Fresh(all[k])
  }

  lemma FreshIsGrowing(a: Artifact, r: Record)
    requires r.ArtifactBegin? && Becomes(Opened(r), a)
    ensures Growing(Fresh(a), Opened(r))
  {
    hide Components;
  }

  lemma BeginMirrors(s: State, line: Line, b: Build, all: seq<Artifact>, paths: set<Path>, special: bool)
    requires Step(s, line).Some? && line.record.ArtifactBegin? && AllListed(all, paths)
    requires Agrees(s, all) && Agrees(Step(s, line).value, all) && Mirrors(s, b, all, special)
    ensures var u := BuildStep(b, line.record, all, special);
            && Begun(s) < |all| && Begun(Step(s, line).value) == Begun(s) + 1
            && (u.Some? <==> FreeAt(all, Begun(s)))
            && (u.Some? ==> Mirrors(Step(s, line).value, u.value, all, special))
  {
    BegunState(s, line, all);
    MirrorKinds(s, b, all, special);
    MirrorIdle(s, b, all, special);
    hide Step, IsTree, Shape, FreeAt, BuildBegin, Kinds, AllEnded, AllListed, Opened, DueOf, Agrees, Mirrors, Begun;
    var k := |s.artifacts|;
    BeginBuilt(b, all, paths, k, special);
    if FreeAt(all, k) {
      BegunMirrors(s, line, BuildBegin(b, all[k]).value, all, special);
    }
  }

  lemma BegunState(s: State, line: Line, all: seq<Artifact>)
    requires Step(s, line).Some? && line.record.ArtifactBegin? && Agrees(s, all) && Agrees(Step(s, line).value, all)
    ensures Begun(s) == |s.artifacts| < |all| && Begun(Step(s, line).value) == Begun(s) + 1 && s.active.None?
    ensures line.record.id == |s.artifacts|
    ensures var t := Step(s, line).value; t.artifacts == s.artifacts && t.active == Some(Opened(line.record))
    ensures Becomes(Opened(line.record), all[|s.artifacts|])
  {
    ArtifactStep(s, line);
    hide Step, BeginOk, Opened, Becomes;
  }

  lemma MirrorIdle(s: State, b: Build, all: seq<Artifact>, special: bool)
    requires Agrees(s, all) && Mirrors(s, b, all, special) && s.active.None?
    ensures var k := |s.artifacts|;
            && b.open.None? && IsTree(b.nodes) && Shape(b.nodes, all, k) && AllEnded(b.nodes, all, k, special)
            && b.directories == DueOf(all, k) && Begun(s) == k
  {
    hide IsTree, Shape, AllEnded, DueOf;
  }

  lemma BegunMirrors(s: State, line: Line, u: Build, all: seq<Artifact>, special: bool)
    requires Step(s, line).Some? && line.record.ArtifactBegin? && Agrees(s, all) && Agrees(Step(s, line).value, all)
    requires |s.artifacts| < |all| && BegunAt(u, all, |s.artifacts|, special)
    ensures Mirrors(Step(s, line).value, u, all, special)
  {
    BegunState(s, line, all);
    FreshIsGrowing(all[|s.artifacts|], line.record);
    hide Step, IsTree, Shape, AllEnded, DueOf, Growing, Fresh;
  }

  lemma ListedPlaces(all: seq<Artifact>, paths: set<Path>)
    requires AllListed(all, paths)
    ensures forall i :: 0 <= i < |all| ==> all[i].components != [] && all[i].id == i
    ensures forall i, j :: 0 <= i < j < |all| ==> all[i].components != all[j].components
  {
    assert forall i :: 0 <= i < |all| ==> ListedAt(all[i], i);
  }

  /** A file that is on the stage anyway is written to. */
  lemma ShapeRewritten(nodes: Nodes, all: seq<Artifact>, k: nat, path: Path, file: Node)
    requires k <= |all| && Shape(nodes, all, k) && PlaceOf(all, k, path)
    ensures Shape(nodes[path := file], all, k)
  {
    hide PlaceOf, AboveOf;
  }

  lemma EndedElsewhere(nodes: Nodes, all: seq<Artifact>, n: nat, special: bool, path: Path, file: Node)
    requires n <= |all| && AllEnded(nodes, all, n, special) && forall i :: 0 <= i < n ==> all[i].components != path
    ensures AllEnded(nodes[path := file], all, n, special)
  {
    hide Ended;
  }

  /** The open file on the stage. */
  lemma OpenFile(s: State, b: Build, all: seq<Artifact>, special: bool)
    requires Agrees(s, all) && Listed(s) && Mirrors(s, b, all, special) && s.active.Some?
    ensures var path, n := s.active.value.components, |s.artifacts|;
            && n < |all| && Begun(s) == n + 1 && PlaceOf(all, Begun(s), path)
            && (forall i :: 0 <= i < n ==> all[i].components != path) && all[n].components == path
            && IsTree(b.nodes) && Shape(b.nodes, all, n + 1) && AllEnded(b.nodes, all, n, special)
            && b.directories == DueOf(all, n + 1) && b.active == Some(s.active.value.id)
            && b.open == (if s.active.value.fileType == Regular then Some(path) else None)
            && path in b.nodes && Growing(b.nodes[path], s.active.value)
  {
    hide IsTree, Shape, AllEnded, DueOf, Growing, AllListed, OpenListed;
    assert all[|s.artifacts|].components == s.active.value.components;
  }

  lemma ChunkState(s: State, line: Line)
    requires Step(s, line).Some? && line.record.ArtifactChunk?
    ensures var r, t := line.record, Step(s, line).value;
            && s.active.Some? && s.active.value.fileType == Regular && r.id == s.active.value.id
            && t.artifacts == s.artifacts && t.active.Some?
            && t.active.value == s.active.value.(hashed := s.active.value.hashed + r.data, size := t.active.value.size,
                                                 chunks := t.active.value.chunks,
                                                 shortChunkSeen := t.active.value.shortChunkSeen)
  {
    ArtifactStep(s, line);
    hide Step;
  }

  lemma ChunkMirrors(s: State, line: Line, b: Build, all: seq<Artifact>, special: bool)
    requires Step(s, line).Some? && line.record.ArtifactChunk? && Listed(s)
    requires Agrees(s, all) && Agrees(Step(s, line).value, all) && Mirrors(s, b, all, special)
    ensures var u := BuildStep(b, line.record, all, special);
            && u.Some? && Begun(Step(s, line).value) == Begun(s) && Mirrors(Step(s, line).value, u.value, all, special)
  {
    ChunkState(s, line);
    OpenFile(s, b, all, special);
    hide Step, IsTree, Shape, AllEnded, DueOf, Listed, Agrees, PlaceOf;
    var path, file := s.active.value.components, File(s.active.value.hashed + line.record.data, PRIVATE_FILE);
    ShapeRewritten(b.nodes, all, Begun(s), path, file);
    EndedElsewhere(b.nodes, all, |s.artifacts|, special, path, file);
    Rewritten(b.nodes, path, file);
  }

  lemma EndState(s: State, line: Line, all: seq<Artifact>)
    requires Step(s, line).Some? && line.record.ArtifactEnd? && Listed(s) && Agrees(s, all)
             && Agrees(Step(s, line).value, all)
    ensures var r, t, n := line.record, Step(s, line).value, |s.artifacts|;
            && s.active.Some? && EndOk(s.active.value, r) && r.id == n && t.active.None?
            && n < |all| && |t.artifacts| == n + 1 && all[n] == Closed(s.active.value, r)
            && s.active.value.size == |s.active.value.hashed|
  {
    ArtifactStep(s, line);
    hide Step, Closed, EndOk, AllListed;
    assert Step(s, line).value.artifacts[|s.artifacts|] == Closed(s.active.value, line.record);
    EndIds(s.active.value, line.record);
  }

  lemma EndIds(a: ActiveArtifact, r: Record)
    requires r.ArtifactEnd? && EndOk(a, r)
    ensures r.id == a.id
  {
    hide Content;
  }

  lemma GrownIsEnded(a: ActiveArtifact, r: Record, node: Node, special: bool)
    requires r.ArtifactEnd? && EndOk(a, r) && Growing(node, a) && a.size == |a.hashed|
    ensures Ended(if a.fileType == Regular then File(a.hashed, Masked(a.mode, special)) else node, Closed(a, r),
                  special)
  {
    hide Masked;
  }

  lemma EndedNext(nodes: Nodes, all: seq<Artifact>, n: nat, special: bool)
    requires n < |all| && AllEnded(nodes, all, n, special)
    requires all[n].components in nodes && Ended(nodes[all[n].components], all[n], special)
    ensures AllEnded(nodes, all, n + 1, special)
  {
    hide Ended;
  }

  /** The end of a group: the mode of a file is set. */
  lemma EndBuilt(s: State, r: Record, b: Build, all: seq<Artifact>, special: bool)
    requires Agrees(s, all) && Listed(s) && Mirrors(s, b, all, special) && s.active.Some? && r.ArtifactEnd?
    requires r.id == |s.artifacts| < |all| && EndOk(s.active.value, r) && all[r.id] == Closed(s.active.value, r)
    requires s.active.value.size == |s.active.value.hashed|
    ensures var u := BuildStep(b, r, all, special);
            && u.Some? && u.value.open.None? && u.value.directories == DueOf(all, r.id + 1)
            && IsTree(u.value.nodes) && Shape(u.value.nodes, all, r.id + 1)
               && AllEnded(u.value.nodes, all, r.id + 1, special)
  {
    hide *;
    var a, n := s.active.value, |s.artifacts|;
    OpenFile(s, b, all, special);
    ClosedMode(a, r);
    GrownIsEnded(a, r, b.nodes[a.components], special);
    EndStepIs(b, r, all, special);
    if a.fileType == Regular {
      GrowingFile(b.nodes[a.components], a);
      FileEnds(b, all, n, a.components, a.hashed, special);
    } else {
      EndIs(b, all[n], special);
      EndedNext(b.nodes, all, n, special);
    }
  }

  lemma FileEnds(b: Build, all: seq<Artifact>, n: nat, path: Path, content: bytes, special: bool)
    requires n < |all| && all[n].components == path && b.open == Some(path)
    requires path in b.nodes && b.nodes[path] == File(content, PRIVATE_FILE)
    requires IsTree(b.nodes) && Shape(b.nodes, all, n + 1) && PlaceOf(all, n + 1, path)
    requires AllEnded(b.nodes, all, n, special) && forall i :: 0 <= i < n ==> all[i].components != path
    requires Ended(File(content, Masked(all[n].mode, special)), all[n], special)
    ensures var u := BuildEnd(b, all[n], special);
            && u.Some? && u.value.open.None? && u.value.directories == b.directories
            && IsTree(u.value.nodes) && Shape(u.value.nodes, all, n + 1) && AllEnded(u.value.nodes, all, n + 1, special)
  {
    hide IsTree, Shape, AllEnded, PlaceOf, Ended, Masked, BuildEnd;
    EndIs(b, all[n], special);
    var file := File(content, Masked(all[n].mode, special));
    ShapeRewritten(b.nodes, all, n + 1, path, file);
    EndedElsewhere(b.nodes, all, n, special, path, file);
    Rewritten(b.nodes, path, file);
    EndedNext(b.nodes[path := file], all, n, special);
  }

  lemma GrowingFile(node: Node, a: ActiveArtifact)
    requires Growing(node, a) && a.fileType == Regular
    ensures node == File(a.hashed, PRIVATE_FILE)
  {
  }

  lemma ClosedMode(a: ActiveArtifact, r: Record)
    requires r.ArtifactEnd? && EndOk(a, r)
    ensures Closed(a, r).mode == a.mode && Closed(a, r).components == a.components
  {
    hide EndOk;
  }

  lemma EndMirrors(s: State, line: Line, b: Build, all: seq<Artifact>, special: bool)
    requires Step(s, line).Some? && line.record.ArtifactEnd? && Listed(s)
    requires Agrees(s, all) && Agrees(Step(s, line).value, all) && Mirrors(s, b, all, special)
    ensures var u := BuildStep(b, line.record, all, special);
            && u.Some? && Begun(Step(s, line).value) == Begun(s) && Mirrors(Step(s, line).value, u.value, all, special)
  {
    EndState(s, line, all);
    hide Step, IsTree, Shape, AllEnded, DueOf, Listed, BuildStep, EndOk, Closed;
    EndBuilt(s, line.record, b, all, special);
  }

  lemma OtherMirrors(s: State, line: Line, b: Build, all: seq<Artifact>, special: bool)
    requires Step(s, line).Some? && !OfArtifacts(line.record)
    requires Agrees(s, all) && Agrees(Step(s, line).value, all) && Mirrors(s, b, all, special)
    ensures BuildStep(b, line.record, all, special) == Some(b)
    ensures Begun(Step(s, line).value) == Begun(s) && Mirrors(Step(s, line).value, b, all, special)
  {
    OtherStep(s, line);
    hide Step, IsTree, Shape, AllEnded, DueOf, Growing;
  }

  // All records.

  lemma StepMirrors(s: State, line: Line, b: Build, all: seq<Artifact>, paths: set<Path>, special: bool)
    requires Step(s, line).Some? && Listed(s) && AllListed(all, paths)
    requires Agrees(s, all) && Agrees(Step(s, line).value, all) && Mirrors(s, b, all, special)
    ensures var k, next, u := Begun(s), Begun(Step(s, line).value), BuildStep(b, line.record, all, special);
            && k <= next <= |all| && next <= k + 1
            && (u.Some? <==> forall j :: k <= j < next ==> FreeAt(all, j))
            && (u.Some? ==> Mirrors(Step(s, line).value, u.value, all, special))
  {
    hide Step, Listed, AllListed, Mirrors, BuildStep, FreeAt;
    var r := line.record;
    if r.ArtifactBegin? {
      BeginMirrors(s, line, b, all, paths, special);
    } else if r.ArtifactChunk? {
      ChunkMirrors(s, line, b, all, special);
    } else if r.ArtifactEnd? {
      EndMirrors(s, line, b, all, special);
    } else {
      OtherMirrors(s, line, b, all, special);
    }
  }

  lemma StateAgrees(s: State, lines: seq<Line>)
    requires Run(s, lines).Some? && Run(s, lines).value.active.None?
    ensures Agrees(s, Run(s, lines).value.artifacts)
  {
    hide Run, Becomes;
    ListGrows(s, lines);
  }

  /** The second pass goes through exactly when every place still to come is free, and ends where the validator ends. */
  lemma {:induction false} PassesBeside(s: State, lines: seq<Line>, b: Build, special: bool)
    requires Run(s, lines).Some? && Run(s, lines).value.active.None? && Listed(s)
    requires Agrees(s, Run(s, lines).value.artifacts) && Mirrors(s, b, Run(s, lines).value.artifacts, special)
    ensures var t := Run(s, lines).value;
            var u := BuildRun(b, Production.RecordsOf(lines), t.artifacts, special);
            && Begun(s) <= |t.artifacts| && Agrees(t, t.artifacts)
            && (u.Some? <==> forall j :: Begun(s) <= j < |t.artifacts| ==> FreeAt(t.artifacts, j))
            && (u.Some? ==> Mirrors(t, u.value, t.artifacts, special))
    decreases |lines|
  {
    hide Step, Listed, AllListed, Mirrors, BuildStep, FreeAt, Agrees;
    var t := Run(s, lines).value;
    var rs := Production.RecordsOf(lines);
    RunListed(s, lines);
    ListedAll(t);
    FinallyBegun(t);
    if lines != [] {
      var next := Step(s, lines[0]).value;
      StateAgrees(next, lines[1..]);
      StepListed(s, lines[0]);
      StepMirrors(s, lines[0], b, t.artifacts, t.artifactPaths, special);
      assert rs[0] == lines[0].record && rs[1..] == Production.RecordsOf(lines[1..]);
      var u := BuildStep(b, rs[0], t.artifacts, special);
      if u.Some? {
        PassesBeside(next, lines[1..], u.value, special);
      }
    }
  }

  lemma ListedAll(t: State)
    requires Listed(t)
    ensures AllListed(t.artifacts, t.artifactPaths)
  {
    hide AllListed, OpenListed;
  }

  lemma FinallyBegun(t: State)
    requires t.active.None?
    ensures Begun(t) == |t.artifacts| && Agrees(t, t.artifacts)
  {
  }

  // The whole pass.

  lemma NothingMirrored(all: seq<Artifact>, special: bool)
    ensures Listed(INITIAL_STATE) && Agrees(INITIAL_STATE, all) && Mirrors(INITIAL_STATE, EMPTY_STAGE, all, special)
    ensures Begun(INITIAL_STATE) == 0
  {
  }

  lemma AcceptedRun(lines: seq<Line>)
    requires Accepts(lines)
    ensures Run(INITIAL_STATE, lines).Some? && Run(INITIAL_STATE, lines).value.active.None?
  {
    hide Run;
  }

  /** The stage after a pass over everything: each artifact in its place, directories still private. */
  ghost predicate FullStage(b: Build, all: seq<Artifact>, special: bool)
  {
    IsTree(b.nodes) && Shape(b.nodes, all, |all|) && AllEnded(b.nodes, all, |all|, special)
      && b.directories == DueOf(all, |all|)
  }

  /** Over any accepted stream, whoever wrote it, the second pass goes through exactly when its list is buildable. */
  lemma AcceptedPasses(lines: seq<Line>, special: bool)
    requires Accepts(lines)
    ensures var all := Run(INITIAL_STATE, lines).value.artifacts;
            var b := BuildRun(EMPTY_STAGE, Production.RecordsOf(lines), all, special);
            && (b.Some? <==> Buildable(all))
            && (b.Some? ==> FullStage(b.value, all, special))
  {
    hide Run, Accepts, BuildRun, Production.RecordsOf, Listed, Agrees, FreeAt, IsTree, Shape, AllEnded, DueOf;
    AcceptedRun(lines);
    var t := Run(INITIAL_STATE, lines).value;
    NothingMirrored(t.artifacts, special);
    PassesBeside(INITIAL_STATE, lines, EMPTY_STAGE, special);
    FinallyBegun(t);
  }

  // Directory modes.

  lemma {:induction false} DueOfIs(all: seq<Artifact>, k: nat, d: (Path, int))
    requires k <= |all|
    ensures d in DueOf(all, k) <==>
            exists i :: 0 <= i < k && all[i].fileType == Directory && d == (all[i].components, all[i].mode)
  {
    if k > 0 {
      DueOfIs(all, k - 1, d);
    }
  }

  lemma {:induction false} DueOfDistinct(all: seq<Artifact>, k: nat)
    requires k <= |all| && forall i, j :: 0 <= i < j < |all| ==> all[i].components != all[j].components
    ensures forall i, j :: 0 <= i < j < |DueOf(all, k)| ==> DueOf(all, k)[i].0 != DueOf(all, k)[j].0
  {
    if k > 0 {
      DueOfDistinct(all, k - 1);
      var before := DueOf(all, k - 1);
      forall i | 0 <= i < |before|
        ensures before[i].0 != all[k - 1].components
      {
        DueOfIs(all, k - 1, before[i]);
      }
    }
  }

  lemma PrivateDirectories(nodes: Nodes, all: seq<Artifact>, special: bool, p: Path)
    requires Shape(nodes, all, |all|) && AllEnded(nodes, all, |all|, special) && p in nodes && nodes[p].Dir?
    ensures OnTheWay(nodes[p])
  {
    hide Masked, AboveOf;
    if PlaceOf(all, |all|, p) {
      var i :| 0 <= i < |all| && all[i].components == p;
    }
  }

  lemma AllReachable(nodes: Nodes, all: seq<Artifact>, special: bool, path: Path)
    requires IsTree(nodes) && Shape(nodes, all, |all|) && AllEnded(nodes, all, |all|, special) && path in nodes
    ensures Reachable(nodes, path)
  {
    hide Shape, AllEnded;
    assert Passable(PRIVATE_DIRECTORY) && Passable(DEFAULT_DIRECTORY);
    hide Passable;
    forall k | 0 < k < |path| && path[..k] in nodes
      ensures nodes[path[..k]].Dir? && Passable(nodes[path[..k]].mode)
    {
      PrivateDirectories(nodes, all, special, path[..k]);
    }
  }

  lemma DueThere(b: Build, all: seq<Artifact>, due: seq<(Path, int)>, k: nat, special: bool) returns (i: nat)
    requires FullStage(b, all, special) && multiset(due) == multiset(b.directories) && k < |due|
    ensures i < |all| && all[i].fileType == Directory && due[k] == (all[i].components, all[i].mode)
    ensures due[k].0 in b.nodes && b.nodes[due[k].0].Dir? && Reachable(b.nodes, due[k].0)
  {
    hide IsTree, Shape, Reachable, Masked;
    assert due[k] in multiset(due);
    DueOfIs(all, |all|, due[k]);
    i :| 0 <= i < |all| && all[i].fileType == Directory && due[k] == (all[i].components, all[i].mode);
    AllReachable(b.nodes, all, special, due[k].0);
  }

  lemma DueAll(b: Build, all: seq<Artifact>, paths: set<Path>, due: seq<(Path, int)>, special: bool)
    requires FullStage(b, all, special) && AllListed(all, paths) && multiset(due) == multiset(b.directories)
    ensures DueIn(b.nodes, due)
  {
    ListedPlaces(all, paths);
    DueOfDistinct(all, |all|);
    assert b.directories == DueOf(all, |all|);
    hide AllListed, Complete, Reachable, DueOf;
    forall k | 0 <= k < |due|
      ensures due[k].0 in b.nodes && b.nodes[due[k].0].Dir? && Reachable(b.nodes, due[k].0)
    {
      var i := DueThere(b, all, due, k, special);
    }
    PermutedDistinct(due, b.directories);
  }

  /** An artifact as it is in the end. */
  ghost predicate Restored(node: Node, a: Artifact, special: bool)
  {
    match a.fileType
    case Directory => node.Dir? && Permits(node.mode, a.mode, special)
    case Symlink => node == Link(if a.target.Some? then a.target.value else [])
    case Regular =>
      node.File? && Permits(node.mode, a.mode, special) && |node.content| == a.size
        && Sha256Hex(node.content) == a.sha256
  }

  /** Every listed artifact is restored, the directories above them are there, and nothing else. */
  ghost predicate ListRestored(nodes: Nodes, all: seq<Artifact>, special: bool)
  {
    && (forall p :: p in nodes <==> PlaceOf(all, |all|, p) || AboveOf(all, |all|, p))
    && (forall i :: 0 <= i < |all| ==>
          all[i].components in nodes && Restored(nodes[all[i].components], all[i], special))
    && (forall p :: p in nodes && !PlaceOf(all, |all|, p) ==> OnTheWay(nodes[p]))
  }

  lemma EndedIsRestored(node: Node, a: Artifact, special: bool)
    ensures a.fileType != Directory && Ended(node, a, special) ==> Restored(node, a, special)
    ensures a.fileType == Directory ==> Restored(Dir(Masked(a.mode, special)), a, special)
  {
    hide Permits;
    MaskedPermits(a.mode, special);
  }

  lemma EndedAt(b: Build, all: seq<Artifact>, i: nat, special: bool)
    requires FullStage(b, all, special) && i < |all|
    ensures all[i].components in b.nodes && Ended(b.nodes[all[i].components], all[i], special)
    ensures b.directories == DueOf(all, |all|)
  {
    hide Ended, IsTree, Shape, DueOf;
  }

  lemma PlaceRestored(b: Build, all: seq<Artifact>, paths: set<Path>, due: seq<(Path, int)>, i: nat, t: Nodes,
                      special: bool)
    requires FullStage(b, all, special) && AllListed(all, paths) && multiset(due) == multiset(b.directories)
             && i < |all|
    requires ModesSet(b.nodes, due, special, t)
    ensures all[i].components in t && Restored(t[all[i].components], all[i], special)
  {
    ListedPlaces(all, paths);
    EndedAt(b, all, i, special);
    hide AllListed, IsTree, Shape, Masked, Reachable, Restored, Ended, FullStage, DueOf;
    var a := all[i];
    EndedIsRestored(b.nodes[a.components], a, special);
    if a.fileType == Directory {
      DueOfIs(all, |all|, (a.components, a.mode));
      assert (a.components, a.mode) in multiset(b.directories);
      var k :| 0 <= k < |due| && due[k] == (a.components, a.mode);
    } else {
      forall k | 0 <= k < |due|
        ensures due[k].0 != a.components
      {
        var j := DueThere(b, all, due, k, special);
      }
    }
  }

  lemma NoPlaceStays(b: Build, all: seq<Artifact>, due: seq<(Path, int)>, p: Path, t: Nodes, special: bool)
    requires FullStage(b, all, special) && multiset(due) == multiset(b.directories) && !PlaceOf(all, |all|, p)
    requires ModesSet(b.nodes, due, special, t) && p in t
    ensures OnTheWay(t[p])
  {
    ShapeOf(b, all, special);
    hide FullStage, Reachable, AboveOf, Masked;
    forall k | 0 <= k < |due|
      ensures due[k].0 != p
    {
      var i := DueThere(b, all, due, k, special);
    }
  }

  lemma ModesThere(nodes: Nodes, due: seq<(Path, int)>, special: bool)
    requires DueIn(nodes, due) && DeepestFirst(due)
    ensures var t := ChangeModes(nodes, due, special); t.Some? && ModesSet(nodes, due, special, t.value)
    ensures var t := ChangeModes(nodes, due, special); t.Some? && t.value.Keys == nodes.Keys
  {
    ModesCanBeSet(nodes, due, special);
    hide ChangeModes, DeepestFirst, Reachable, Masked;
  }

  lemma AllRestored(b: Build, all: seq<Artifact>, paths: set<Path>, due: seq<(Path, int)>, t: Nodes, special: bool)
    requires FullStage(b, all, special) && AllListed(all, paths) && multiset(due) == multiset(b.directories)
    requires ModesSet(b.nodes, due, special, t) && t.Keys == b.nodes.Keys
    ensures ListRestored(t, all, special)
  {
    ShapeOf(b, all, special);
    hide FullStage, AllListed, PlaceOf, AboveOf, Restored, ModesSet, DueOf;
    forall i | 0 <= i < |all|
      ensures all[i].components in t && Restored(t[all[i].components], all[i], special)
    {
      PlaceRestored(b, all, paths, due, i, t, special);
    }
    forall p | p in t && !PlaceOf(all, |all|, p)
      ensures OnTheWay(t[p])
    {
      NoPlaceStays(b, all, due, p, t, special);
    }
    SameKeys(b.nodes, t);
  }

  lemma SameKeys(nodes: Nodes, t: Nodes)
    requires t.Keys == nodes.Keys
    ensures forall p :: p in t <==> p in nodes
  {
    assert forall p :: p in t <==> p in t.Keys;
  }

  /** After the modes are set, from the deepest up, exactly what is listed is there. */
  lemma ModesRestore(b: Build, all: seq<Artifact>, paths: set<Path>, due: seq<(Path, int)>, special: bool)
    requires FullStage(b, all, special) && AllListed(all, paths)
    requires DeepestFirst(due) && multiset(due) == multiset(b.directories)
    ensures var t := ChangeModes(b.nodes, due, special); t.Some? && ListRestored(t.value, all, special)
  {
    hide *;
    DueAll(b, all, paths, due, special);
    ModesThere(b.nodes, due, special);
    AllRestored(b, all, paths, due, ChangeModes(b.nodes, due, special).value, special);
  }

  lemma ShapeOf(b: Build, all: seq<Artifact>, special: bool)
    requires FullStage(b, all, special)
    ensures forall p :: p in b.nodes <==> PlaceOf(all, |all|, p) || AboveOf(all, |all|, p)
    ensures forall p :: p in b.nodes && !PlaceOf(all, |all|, p) ==> OnTheWay(b.nodes[p])
  {
    hide PlaceOf, AboveOf, IsTree, AllEnded, DueOf;
  }

  /** So a reassembly that an accepted stream permits restores exactly what the stream lists, if that can be built at
      all. */
  lemma AcceptedRestores(lines: seq<Line>, special: bool, result: Option<Nodes>)
    requires Accepts(lines)
    requires var b := BuildRun(EMPTY_STAGE, Production.RecordsOf(lines), Run(INITIAL_STATE, lines).value.artifacts,
                               special);
             if b.Some? then ModesSetOn(b.value, special, result) else result.None?
    ensures var all := Run(INITIAL_STATE, lines).value.artifacts;
            && (result.Some? <==> Buildable(all))
            && (result.Some? ==> ListRestored(result.value, all, special))
  {
    hide Run, Accepts, BuildRun, Production.RecordsOf, Buildable, FullStage, DeepestFirst, ChangeModes, ListRestored,
      AllListed;
    AcceptedRun(lines);
    AcceptedPasses(lines, special);
    AcceptedListed(lines);
    var t := Run(INITIAL_STATE, lines).value;
    var b := BuildRun(EMPTY_STAGE, Production.RecordsOf(lines), t.artifacts, special);
    if b.Some? {
      var due: seq<(Path, int)> :|
        DeepestFirst(due) && multiset(due) == multiset(b.value.directories)
          && result == ChangeModes(b.value.nodes, due, special);
      ModesRestore(b.value, t.artifacts, t.artifactPaths, due, special);
    }
  }
}
