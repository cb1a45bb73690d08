/** Capture followed by reassembly: the rebuilt tree is the captured one. */
module RoundTrip {
  import opened Artifacts
  import opened Bytes
  import opened Capture
  import opened Discovery
  import opened Lexical
  import opened Records
  import opened Validation
  import Paths
  import Sha256Spec

  /** What a captured candidate is in the staging directory once its group has ended. */
  function Staged(o: Observation, special: bool): Node
    requires Captured(o)
  {
    match o
    case DirectorySeen(_) => Dir(PRIVATE_DIRECTORY)
    case LinkSeen(_, _, _) => Link(ContentOf(o))
    case FileSeen(mode, _, _, _, _, _) => File(ContentOf(o), Masked(mode % 0x1000, special))
  }

  /** What it is in the end: directories have got their modes as well. */
  function Final(o: Observation, special: bool): Node
    requires Captured(o)
  {
    if o.DirectorySeen? then Dir(Masked(o.mode % 0x1000, special)) else Staged(o, special)
  }

  /** What a captured candidate must be again: the kind of thing it was, with its octets and its permissions. */
  ghost predicate Recaptured(node: Node, o: Observation, special: bool)
    requires Captured(o)
  {
    match o
    case DirectorySeen(mode) => node.Dir? && Permits(node.mode, mode, special)
    case LinkSeen(_, size, target) => node == Link(Truncated(target.value, size))
    case FileSeen(mode, _, _, _, readings, _) =>
      node.File? && node.content == Concat(ReadData(readings)) && Permits(node.mode, mode, special)
  }

  lemma FinalIsRecaptured(o: Observation, special: bool)
    requires Captured(o)
    ensures Recaptured(Final(o, special), o, special)
  {
    hide Permits, Concat, ReadData;
    if !o.LinkSeen? {
      MaskedPermits(o.mode, special);
    }
  }

  // One group.

  lemma ChunkBuilds(b: Build, id: nat, data: bytes, path: Path, content: bytes)
    requires b.open == Some(path) && b.active == Some(id) && path in b.nodes
    requires b.nodes[path] == File(content, PRIVATE_FILE)
    ensures BuildChunk(b, id, data) == Some(b.(nodes := b.nodes[path := File(content + data, PRIVATE_FILE)]))
  {
  }

  lemma {:induction false} ChunksBuild(b: Build, id: nat, data: seq<bytes>, path: Path, artifacts: seq<Artifact>,
                                       special: bool)
    requires b.open == Some(path) && b.active == Some(id) && path in b.nodes && b.nodes[path] == File([], PRIVATE_FILE)
    ensures BuildRun(b, ChunkRecords(id, data), artifacts, special) ==
            Some(b.(nodes := b.nodes[path := File(Concat(data), PRIVATE_FILE)]))
    decreases |data|
  {
    hide BuildChunk, Concat;
    NothingJoined();
    if data == [] {
      assert ChunkRecords(id, data) == [];
      assert b.nodes[path := File([], PRIVATE_FILE)] == b.nodes;
    } else {
      var n := |data| - 1;
      var before, last := data[..n], data[n];
      assert data == before + [last];
      ChunksBuild(b, id, before, path, artifacts, special);
      ChunksSnoc(id, before, last);
      ConcatSnoc(before, last);
      var t := BuildRun(b, ChunkRecords(id, before), artifacts, special).value;
      BuildAppend(b, ChunkRecords(id, before), [ArtifactChunk(id, n, last)], artifacts, special);
      BuildOne(t, ArtifactChunk(id, n, last), artifacts, special);
      ChunkBuilds(t, id, last, path, Concat(before));
      assert t.nodes[path := File(Concat(data), PRIVATE_FILE)] == b.nodes[path := File(Concat(data), PRIVATE_FILE)];
      hide BuildRun;
    }
  }

  function DueFor(c: Candidate, o: Observation): seq<(Path, int)>
  {
    if o.DirectorySeen? then [(c.components, o.mode % 0x1000)] else []
  }

  /** The state after a group, given the tree with its parents. */
  function Grouped(b: Build, parents: Nodes, c: Candidate, o: Observation, special: bool): Build
    requires Captured(o)
  {
    Build(parents[c.components := Staged(o, special)], None, None, b.directories + DueFor(c, o))
  }

  /** What is made when the group begins. */
  function Opening(o: Observation, special: bool): Node
    requires Captured(o)
  {
    if o.FileSeen? then File([], PRIVATE_FILE) else Staged(o, special)
  }

  lemma ArtifactFacts(c: Candidate, o: Observation, id: nat, special: bool)
    requires Captured(o)
    ensures var a := ArtifactOf(c, o, id);
            && a.components == c.components && a.id == id && Fresh(a) == Opening(o, special)
            && (a.fileType == Regular <==> o.FileSeen?)
            && (if a.fileType == Directory then [(a.components, a.mode)] else []) == DueFor(c, o)
            && (o.FileSeen? ==> a.mode == o.mode % 0x1000)
    ensures BeginOf(c, o, id).ArtifactBegin? && BeginOf(c, o, id).id == id
    ensures EndOf(o, id).ArtifactEnd? && EndOf(o, id).id == id
  {
    hide PathOf, ReadData, ReadFails, Concat, Masked, Sha256Spec.Sha256Hex;
  }

  lemma BeginIs(b: Build, a: Artifact)
    requires b.open.None? && EnsureParent(b.nodes, a.components).Some?
    requires a.components !in EnsureParent(b.nodes, a.components).value
    ensures BuildBegin(b, a) ==
            Some(Build(EnsureParent(b.nodes, a.components).value[a.components := Fresh(a)],
                       if a.fileType == Regular then Some(a.components) else None, Some(a.id),
                       b.directories + if a.fileType == Directory then [(a.components, a.mode)] else []))
  {
    hide EnsureParent, Fresh;
    assert b.directories + [] == b.directories;
  }

  lemma BeginBuilds(b: Build, c: Candidate, o: Observation, id: nat, artifacts: seq<Artifact>, special: bool)
    requires Captured(o) && b.open.None? && id < |artifacts| && artifacts[id] == ArtifactOf(c, o, id)
    requires EnsureParent(b.nodes, c.components).Some?
    requires c.components !in EnsureParent(b.nodes, c.components).value
    ensures BuildStep(b, BeginOf(c, o, id), artifacts, special) ==
            Some(Build(
                   EnsureParent(b.nodes, c.components).value[c.components := Opening(o, special)],
                   if o.FileSeen? then Some(c.components) else None, Some(id), b.directories + DueFor(c, o)))
  {
    ArtifactFacts(c, o, id, special);
    hide EnsureParent, BuildBegin, ArtifactOf, BeginOf, EndOf, Opening, DueFor, Fresh;
    BeginIs(b, artifacts[id]);
  }

  lemma EndBuilds(b: Build, c: Candidate, o: Observation, id: nat, artifacts: seq<Artifact>, special: bool)
    requires Captured(o) && id < |artifacts| && artifacts[id] == ArtifactOf(c, o, id)
    requires o.FileSeen? ==> b.open == Some(c.components) && c.components in b.nodes
                             && b.nodes[c.components] == File(ContentOf(o), PRIVATE_FILE)
    requires !o.FileSeen? ==> b.open.None?
    ensures BuildStep(b, EndOf(o, id), artifacts, special) ==
            Some(Build(if o.FileSeen? then b.nodes[c.components := Staged(o, special)] else b.nodes, None, None,
                       b.directories))
  {
    ArtifactFacts(c, o, id, special);
    if o.FileSeen? {
      StagedFile(o, special);
    }
    hide ArtifactOf, BeginOf, EndOf, Opening, DueFor, Fresh, ContentOf, Masked, Staged, BuildEnd, BuildStep;
    EndIs(b, artifacts[id], special);
    EndStepIs(b, EndOf(o, id), artifacts, special);
  }

  lemma EndStepIs(b: Build, r: Record, artifacts: seq<Artifact>, special: bool)
    requires r.ArtifactEnd? && 0 <= r.id < |artifacts|
    ensures BuildStep(b, r, artifacts, special) == BuildEnd(b, artifacts[r.id], special)
  {
    hide BuildEnd;
  }

  lemma StagedFile(o: Observation, special: bool)
    requires Captured(o) && o.FileSeen?
    ensures Staged(o, special) == File(ContentOf(o), Masked(o.mode % 0x1000, special))
  {
    hide ContentOf, Masked;
  }

  lemma EndIs(b: Build, a: Artifact, special: bool)
    requires b.open.Some? ==> b.open.value in b.nodes && b.nodes[b.open.value].File?
    ensures BuildEnd(b, a, special) ==
            Some(if b.open.None? then b.(active := None)
                 else b.(nodes := b.nodes[b.open.value := File(b.nodes[b.open.value].content, Masked(a.mode, special))],
                         open := None, active := None))
  {
    hide Masked;
  }

  /** The group of a directory or a link. */
  lemma PairBuilds(b: Build, c: Candidate, o: Observation, id: nat, artifacts: seq<Artifact>, special: bool)
    requires Captured(o) && !o.FileSeen? && b.open.None? && id < |artifacts| && artifacts[id] == ArtifactOf(c, o, id)
    requires EnsureParent(b.nodes, c.components).Some?
    requires c.components !in EnsureParent(b.nodes, c.components).value
    ensures BuildRun(b, GroupRecords(c, o, id), artifacts, special) ==
            Some(Grouped(b, EnsureParent(b.nodes, c.components).value, c, o, special))
  {
    BeginBuilds(b, c, o, id, artifacts, special);
    PairIsGroup(c, o, id);
    OpeningIs(o, special);
    hide BuildRun, BuildStep, EnsureParent, GroupRecords, BeginOf, EndOf, ArtifactOf, Staged, Opening, ContentOf,
      DueFor;
    var b1 := BuildStep(b, BeginOf(c, o, id), artifacts, special).value;
    BuildAppend(b, [BeginOf(c, o, id)], [EndOf(o, id)], artifacts, special);
    BuildOne(b, BeginOf(c, o, id), artifacts, special);
    BuildOne(b1, EndOf(o, id), artifacts, special);
    EndBuilds(b1, c, o, id, artifacts, special);
  }

  lemma OpeningIs(o: Observation, special: bool)
    requires Captured(o)
    ensures Opening(o, special) == if o.FileSeen? then File([], PRIVATE_FILE) else Staged(o, special)
    ensures o.FileSeen? ==> ContentOf(o) == Concat(ChunksOf(o))
  {
    hide Staged, Concat, ReadData;
  }

  /** The group of a file. */
  lemma FileBuilds(b: Build, c: Candidate, o: Observation, id: nat, artifacts: seq<Artifact>, special: bool)
    requires Captured(o) && o.FileSeen? && b.open.None? && id < |artifacts| && artifacts[id] == ArtifactOf(c, o, id)
    requires EnsureParent(b.nodes, c.components).Some?
    requires c.components !in EnsureParent(b.nodes, c.components).value
    ensures BuildRun(b, GroupRecords(c, o, id), artifacts, special) ==
            Some(Grouped(b, EnsureParent(b.nodes, c.components).value, c, o, special))
  {
    var begin, chunks, end := BeginOf(c, o, id), ChunkRecords(id, ChunksOf(o)), EndOf(o, id);
    BeginBuilds(b, c, o, id, artifacts, special);
    GroupParts(c, o, id);
    OpeningIs(o, special);
    hide BuildRun, BuildStep, EnsureParent, GroupRecords, BeginOf, EndOf, ArtifactOf, Staged, Opening, ContentOf,
      DueFor, ChunksOf, Concat, ChunkRecords;
    var parents := EnsureParent(b.nodes, c.components).value;
    var b1 := BuildStep(b, begin, artifacts, special).value;
    BuildAppend(b, [begin], chunks + [end], artifacts, special);
    BuildOne(b, begin, artifacts, special);
    FileTail(b1, parents, c, o, id, artifacts, special);
  }

  /** The chunks and the end of a file. */
  lemma FileTail(b: Build, parents: Nodes, c: Candidate, o: Observation, id: nat, artifacts: seq<Artifact>,
                 special: bool)
    requires Captured(o) && o.FileSeen? && id < |artifacts| && artifacts[id] == ArtifactOf(c, o, id)
    requires b.nodes == parents[c.components := File([], PRIVATE_FILE)]
    requires b.open == Some(c.components) && b.active == Some(id)
    ensures BuildRun(b, ChunkRecords(id, ChunksOf(o)) + [EndOf(o, id)], artifacts, special) ==
            Some(Build(parents[c.components := Staged(o, special)], None, None, b.directories))
  {
    OpeningIs(o, special);
    hide BuildRun, BuildStep, EndOf, ArtifactOf, Staged, Opening, ContentOf, ChunksOf, Concat, ChunkRecords;
    var chunks, end, path := ChunkRecords(id, ChunksOf(o)), EndOf(o, id), c.components;
    ChunksBuild(b, id, ChunksOf(o), path, artifacts, special);
    var b2 := BuildRun(b, chunks, artifacts, special).value;
    BuildAppend(b, chunks, [end], artifacts, special);
    BuildOne(b2, end, artifacts, special);
    Overwritten(parents, path, File([], PRIVATE_FILE), File(ContentOf(o), PRIVATE_FILE));
    Overwritten(parents, path, File(ContentOf(o), PRIVATE_FILE), Staged(o, special));
    EndBuilds(b2, c, o, id, artifacts, special);
  }

  lemma Overwritten(nodes: Nodes, path: Path, first: Node, second: Node)
    ensures nodes[path := first][path := second] == nodes[path := second]
  {
  }

  /** All records of a group. */
  lemma GroupBuilds(b: Build, c: Candidate, o: Observation, id: nat, artifacts: seq<Artifact>, special: bool)
    requires Captured(o) && b.open.None? && id < |artifacts| && artifacts[id] == ArtifactOf(c, o, id)
    requires EnsureParent(b.nodes, c.components).Some?
    requires c.components !in EnsureParent(b.nodes, c.components).value
    ensures BuildRun(b, GroupRecords(c, o, id), artifacts, special) ==
            Some(Grouped(b, EnsureParent(b.nodes, c.components).value, c, o, special))
  {
    hide *;
    if o.FileSeen? {
      FileBuilds(b, c, o, id, artifacts, special);
    } else {
      PairBuilds(b, c, o, id, artifacts, special);
    }
  }

  lemma NothingBuilt(b: Build, artifacts: seq<Artifact>, special: bool)
    ensures BuildRun(b, [], artifacts, special) == Some(b)
  {
  }

  // All groups.

  predicate Occupied(cs: seq<Candidate>, world: World, n: nat, p: Path)
    requires n <= |cs|
  {
    exists i :: 0 <= i < n && Captured(world(cs[i])) && cs[i].components == p
  }

  /** A directory nobody captured, above something somebody did. */
  predicate Implied(cs: seq<Candidate>, world: World, n: nat, p: Path)
    requires n <= |cs|
  {
    p != [] && exists i :: 0 <= i < n && Captured(world(cs[i])) && Paths.Below(cs[i].components, p)
  }

  /** The staging directory holds the first `n` captured candidates and the directories above them, and nothing else. */
  ghost predicate StageHolds(nodes: Nodes, cs: seq<Candidate>, world: World, n: nat, special: bool)
    requires n <= |cs|
  {
    && (forall p :: p in nodes <==> Occupied(cs, world, n, p) || Implied(cs, world, n, p))
    && (forall i :: 0 <= i < n && Captured(world(cs[i])) ==>
          cs[i].components in nodes && nodes[cs[i].components] == Staged(world(cs[i]), special))
    && (forall p :: p in nodes && !Occupied(cs, world, n, p) ==> OnTheWay(nodes[p]))
  }

  /** What holds of any tree: only directories have anything below them. */
  predicate TreeClosed(cs: seq<Candidate>, world: World)
  {
    forall i, j ::
      0 <= i < |cs| && 0 <= j < |cs| && Captured(world(cs[i])) && Captured(world(cs[j]))
      && Paths.Below(cs[j].components, cs[i].components) ==>
        world(cs[i]).DirectorySeen?
  }

  predicate Distinct(cs: seq<Candidate>)
  {
    forall i, j :: 0 <= i < j < |cs| ==> cs[i].components != cs[j].components
  }

  predicate AllNormal(cs: seq<Candidate>, world: World)
  {
    forall i :: 0 <= i < |cs| && Captured(world(cs[i])) ==> Paths.NormalComponents(cs[i].components)
  }

  /** The directories above a path: made where missing, kept where they are. */
  lemma {:induction false} ParentsMade(nodes: Nodes, path: Path, n: nat)
    requires n <= |path| && forall k :: 0 < k <= n && path[..k] in nodes ==> nodes[path[..k]].Dir?
    ensures var t := WithParents(nodes, path, n);
            && t.Some?
            && (forall p :: p in t.value <==> p in nodes || exists k :: 0 < k <= n && p == path[..k])
            && (forall p :: p in nodes ==> p in t.value && t.value[p] == nodes[p])
            && (forall p :: p in t.value && p !in nodes ==> OnTheWay(t.value[p]))
  {
    if n > 0 {
      ParentsMade(nodes, path, n - 1);
      var t := WithParents(nodes, path, n - 1).value;
      var here := path[..n];
      assert forall k :: 0 < k <= n - 1 ==> |path[..k]| < |here|;
      assert here in t <==> here in nodes;
    }
  }

  /** Nothing captured earlier is at the new place or below it, and what is above it is a directory. */
  lemma PlaceIsFree(nodes: Nodes, cs: seq<Candidate>, world: World, n: nat, special: bool)
    requires n < |cs| && Captured(world(cs[n])) && StageHolds(nodes, cs, world, n, special)
    requires StrictlySorted(cs) && Distinct(cs) && AllNormal(cs, world) && TreeClosed(cs, world)
    ensures cs[n].components !in nodes && cs[n].components != []
    ensures forall k :: 0 < k < |cs[n].components| && cs[n].components[..k] in nodes ==>
                          nodes[cs[n].components[..k]].Dir?
  {
    hide StrictlySorted, Paths.NormalComponent, Captured;
    var path := cs[n].components;
    if Implied(cs, world, n, path) {
      var i :| 0 <= i < n && Captured(world(cs[i])) && Paths.Below(cs[i].components, path);
      DirectoriesFirst(cs, n, i);
    }
    forall k | 0 < k < |path| && path[..k] in nodes
      ensures nodes[path[..k]].Dir?
    {
      if Occupied(cs, world, n, path[..k]) {
        var i :| 0 <= i < n && Captured(world(cs[i])) && cs[i].components == path[..k];
        assert Paths.Below(path, cs[i].components);
      }
    }
  }

  lemma NextPlace(nodes: Nodes, parents: Nodes, cs: seq<Candidate>, world: World, n: nat, special: bool)
    requires n < |cs| && Captured(world(cs[n])) && StageHolds(nodes, cs, world, n, special) && Distinct(cs)
    requires cs[n].components !in nodes && cs[n].components != []
    requires forall p ::
               p in parents <==> p in nodes || exists k :: 0 < k <= |cs[n].components| - 1 && p == cs[n].components[..k]
    requires forall p :: p in nodes ==> p in parents && parents[p] == nodes[p]
    requires forall p :: p in parents && p !in nodes ==> OnTheWay(parents[p])
    ensures StageHolds(parents[cs[n].components := Staged(world(cs[n]), special)], cs, world, n + 1, special)
  {
    hide Captured, Staged, Distinct, Occupied, Implied;
    var path := cs[n].components;
    forall p
      ensures Occupied(cs, world, n + 1, p) <==> Occupied(cs, world, n, p) || p == path
      ensures Implied(cs, world, n + 1, p) <==>
              Implied(cs, world, n, p) || exists k :: 0 < k <= |path| - 1 && p == path[..k]
    {
      ImpliedNext(cs, world, n, p);
    }
  }

  lemma ImpliedNext(cs: seq<Candidate>, world: World, n: nat, p: Path)
    requires n < |cs| && Captured(world(cs[n]))
    ensures Occupied(cs, world, n + 1, p) <==> Occupied(cs, world, n, p) || p == cs[n].components
    ensures Implied(cs, world, n + 1, p) <==>
            Implied(cs, world, n, p)
            || exists k :: 0 < k <= |cs[n].components| - 1 && p == cs[n].components[..k]
  {
    hide Captured;
    var path := cs[n].components;
    if p != [] && Paths.Below(path, p) {
      assert p == path[..|p|];
    }
  }

  /** The directories whose modes are due after the first `n` candidates. */
  function Due(cs: seq<Candidate>, world: World, n: nat): seq<(Path, int)>
    requires n <= |cs|
  {
    if n == 0 then []
    else Due(cs, world, n - 1) + if Captured(world(cs[n - 1])) then DueFor(cs[n - 1], world(cs[n - 1])) else []
  }

  lemma {:induction false} ArtifactAt(cs: seq<Candidate>, world: World, n: nat, m: nat)
    requires n < m <= |cs| && Captured(world(cs[n]))
    ensures CapturedCount(cs, world, n) < |ArtifactsOf(cs, world, m)|
    ensures ArtifactsOf(cs, world, m)[CapturedCount(cs, world, n)] ==
            ArtifactOf(cs[n], world(cs[n]), CapturedCount(cs, world, n))
    decreases m
  {
    hide Captured, ArtifactOf;
    if n < m - 1 {
      ArtifactAt(cs, world, n, m - 1);
    }
  }

  /** What a stage with `n` candidates behind it looks like. */
  ghost predicate Built(b: Option<Build>, cs: seq<Candidate>, world: World, n: nat, special: bool)
    requires n <= |cs|
  {
    && b.Some? && b.value.open.None? && StageHolds(b.value.nodes, cs, world, n, special)
    && b.value.directories == Due(cs, world, n)
  }

  /** The order of the export and a tree that is a tree: what the rebuilding relies on. */
  predicate Rebuildable(cs: seq<Candidate>, world: World)
  {
    StrictlySorted(cs) && Distinct(cs) && AllNormal(cs, world) && TreeClosed(cs, world)
  }

  lemma NextBuilt(b: Build, cs: seq<Candidate>, world: World, n: nat, artifacts: seq<Artifact>, special: bool)
    requires n < |cs| && Captured(world(cs[n])) && Built(Some(b), cs, world, n, special) && Rebuildable(cs, world)
    requires artifacts == ArtifactsOf(cs, world, |cs|)
    ensures Built(BuildRun(b, GroupRecords(cs[n], world(cs[n]), CapturedCount(cs, world, n)), artifacts, special),
                  cs, world, n + 1, special)
  {
    hide StageHolds, BuildRun, GroupRecords, ArtifactsOf, CapturedCount, Captured, ArtifactOf, StrictlySorted, Distinct,
      AllNormal, TreeClosed, DueFor, Staged;
    var path := cs[n].components;
    PlaceIsFree(b.nodes, cs, world, n, special);
    ParentsMade(b.nodes, path, |path| - 1);
    hide WithParents;
    ArtifactAt(cs, world, n, |cs|);
    GroupBuilds(b, cs[n], world(cs[n]), CapturedCount(cs, world, n), artifacts, special);
    NextPlace(b.nodes, WithParents(b.nodes, path, |path| - 1).value, cs, world, n, special);
  }

  lemma SkippedHolds(nodes: Nodes, cs: seq<Candidate>, world: World, n: nat, special: bool)
    requires n < |cs| && !Captured(world(cs[n])) && StageHolds(nodes, cs, world, n, special)
    ensures StageHolds(nodes, cs, world, n + 1, special)
  {
    hide Captured, Staged, Occupied, Implied;
    forall p
      ensures Occupied(cs, world, n + 1, p) <==> Occupied(cs, world, n, p)
      ensures Implied(cs, world, n + 1, p) <==> Implied(cs, world, n, p)
    {
      SkippedPlace(cs, world, n, p);
    }
  }

  lemma SkippedPlace(cs: seq<Candidate>, world: World, n: nat, p: Path)
    requires n < |cs| && !Captured(world(cs[n]))
    ensures Occupied(cs, world, n + 1, p) <==> Occupied(cs, world, n, p)
    ensures Implied(cs, world, n + 1, p) <==> Implied(cs, world, n, p)
  {
    hide Captured;
  }

  lemma NothingHeld(cs: seq<Candidate>, world: World, artifacts: seq<Artifact>, special: bool)
    ensures Built(BuildRun(EMPTY_STAGE, GroupsRecords(cs, world, 0), artifacts, special), cs, world, 0, special)
  {
  }

  /** The groups of all candidates rebuild exactly what was captured. */
  lemma {:induction false} GroupsBuild(cs: seq<Candidate>, world: World, n: nat, artifacts: seq<Artifact>,
                                       special: bool)
    requires n <= |cs| && Rebuildable(cs, world) && artifacts == ArtifactsOf(cs, world, |cs|)
    ensures Built(BuildRun(EMPTY_STAGE, GroupsRecords(cs, world, n), artifacts, special), cs, world, n, special)
  {
    hide StageHolds, BuildRun, GroupRecords, ArtifactsOf, CapturedCount, Captured, ArtifactOf, Rebuildable, Built;
    NothingHeld(cs, world, artifacts, special);
    if n > 0 {
      var c, id := cs[n - 1], CapturedCount(cs, world, n - 1);
      var o := world(c);
      GroupsBuild(cs, world, n - 1, artifacts, special);
      var t := BuildRun(EMPTY_STAGE, GroupsRecords(cs, world, n - 1), artifacts, special);
      BuiltSome(t, cs, world, n - 1, special);
      BuildAppend(EMPTY_STAGE, GroupsRecords(cs, world, n - 1), GroupRecords(c, o, id), artifacts, special);
      if Captured(o) {
        NextBuilt(t.value, cs, world, n - 1, artifacts, special);
      } else {
        NoGroup(c, o, id);
        NothingBuilt(t.value, artifacts, special);
        SkippedBuilt(t, cs, world, n - 1, special);
      }
    }
  }

  lemma BuiltSome(t: Option<Build>, cs: seq<Candidate>, world: World, n: nat, special: bool)
    requires n <= |cs| && Built(t, cs, world, n, special)
    ensures t.Some?
  {
  }

  lemma SkippedBuilt(t: Option<Build>, cs: seq<Candidate>, world: World, n: nat, special: bool)
    requires n < |cs| && !Captured(world(cs[n])) && Built(t, cs, world, n, special)
    ensures Built(t, cs, world, n + 1, special)
  {
    hide StageHolds, Captured, DueFor;
    SkippedHolds(t.value.nodes, cs, world, n, special);
    assert Due(cs, world, n) + [] == Due(cs, world, n);
  }

  // Modes.

  lemma {:induction false} DueIs(cs: seq<Candidate>, world: World, n: nat, d: (Path, int))
    requires n <= |cs|
    ensures d in Due(cs, world, n) <==>
            exists i :: 0 <= i < n && Captured(world(cs[i])) && world(cs[i]).DirectorySeen?
                        && d == (cs[i].components, world(cs[i]).mode % 0x1000)
  {
    hide Captured;
    if n > 0 {
      DueIs(cs, world, n - 1, d);
    }
  }

  lemma {:induction false} DueDistinct(cs: seq<Candidate>, world: World, n: nat)
    requires n <= |cs| && Distinct(cs)
    ensures forall i, j :: 0 <= i < j < |Due(cs, world, n)| ==> Due(cs, world, n)[i].0 != Due(cs, world, n)[j].0
  {
    hide Captured;
    if n > 0 {
      DueDistinct(cs, world, n - 1);
      var before := Due(cs, world, n - 1);
      forall i | 0 <= i < |before|
        ensures before[i].0 != cs[n - 1].components
      {
        DueIs(cs, world, n - 1, before[i]);
      }
    }
  }

  lemma AllPassable(nodes: Nodes, cs: seq<Candidate>, world: World, special: bool, path: Path)
    requires StageHolds(nodes, cs, world, |cs|, special) && path in nodes && TreeClosed(cs, world)
    requires AllNormal(cs, world)
    ensures Reachable(nodes, path)
  {
    hide Captured, Paths.NormalComponent;
    assert Passable(PRIVATE_DIRECTORY) && Passable(DEFAULT_DIRECTORY);
    hide Passable;
    forall k | 0 < k < |path| && path[..k] in nodes
      ensures nodes[path[..k]].Dir? && Passable(nodes[path[..k]].mode)
    {
      AboveIsDirectory(nodes, cs, world, special, path, k);
    }
  }

  lemma AboveIsDirectory(nodes: Nodes, cs: seq<Candidate>, world: World, special: bool, path: Path, k: nat)
    requires StageHolds(nodes, cs, world, |cs|, special) && path in nodes && TreeClosed(cs, world)
    requires 0 < k < |path| && path[..k] in nodes
    ensures OnTheWay(nodes[path[..k]])
  {
    hide Captured;
    var above := path[..k];
    if Occupied(cs, world, |cs|, above) {
      var i :| 0 <= i < |cs| && Captured(world(cs[i])) && cs[i].components == above;
      var j := Lower(cs, world, path);
      assert Paths.Below(cs[j].components, cs[i].components) by {
        assert cs[j].components[..k] == cs[j].components[..|path|][..k];
      }
    }
  }

  /** Whatever is in the tree has something captured at or below it. */
  lemma Lower(cs: seq<Candidate>, world: World, path: Path) returns (j: nat)
    requires Occupied(cs, world, |cs|, path) || Implied(cs, world, |cs|, path)
    ensures j < |cs| && Captured(world(cs[j])) && |path| <= |cs[j].components| && cs[j].components[..|path|] == path
  {
    hide Captured;
    if Occupied(cs, world, |cs|, path) {
      j :| 0 <= j < |cs| && Captured(world(cs[j])) && cs[j].components == path;
    } else {
      j :| 0 <= j < |cs| && Captured(world(cs[j])) && Paths.Below(cs[j].components, path);
    }
  }

  /** The rebuilt tree: every captured candidate as it was, the directories above them, and nothing else. */
  ghost predicate TreeRebuilt(nodes: Nodes, cs: seq<Candidate>, world: World, special: bool)
  {
    && (forall p :: p in nodes <==> Occupied(cs, world, |cs|, p) || Implied(cs, world, |cs|, p))
    && (forall i :: 0 <= i < |cs| && Captured(world(cs[i])) ==>
          cs[i].components in nodes && Recaptured(nodes[cs[i].components], world(cs[i]), special))
    && (forall p :: p in nodes && !Occupied(cs, world, |cs|, p) ==> OnTheWay(nodes[p]))
  }

  /** The modes that are due, in any order that goes from the deepest up. */
  lemma DueCanBeSet(b: Build, cs: seq<Candidate>, world: World, due: seq<(Path, int)>, special: bool)
    requires Built(Some(b), cs, world, |cs|, special) && Rebuildable(cs, world)
    requires DeepestFirst(due) && multiset(due) == multiset(b.directories)
    ensures DueIn(b.nodes, due)
  {
    hide StageHolds, Captured, DeepestFirst, StrictlySorted, Reachable;
    DueDistinct(cs, world, |cs|);
    hide Distinct;
    forall i | 0 <= i < |due|
      ensures due[i].0 in b.nodes && b.nodes[due[i].0].Dir? && Reachable(b.nodes, due[i].0)
    {
      assert due[i] in multiset(due);
      assert due[i] in Due(cs, world, |cs|);
      DueIs(cs, world, |cs|, due[i]);
      DueHeld(b.nodes, cs, world, special, due[i]);
    }
    PermutedDistinct(due, b.directories);
  }

  lemma DueHeld(nodes: Nodes, cs: seq<Candidate>, world: World, special: bool, d: (Path, int))
    requires StageHolds(nodes, cs, world, |cs|, special) && TreeClosed(cs, world) && AllNormal(cs, world)
    requires exists i :: 0 <= i < |cs| && Captured(world(cs[i])) && world(cs[i]).DirectorySeen?
                         && d == (cs[i].components, world(cs[i]).mode % 0x1000)
    ensures d.0 in nodes && nodes[d.0] == Dir(PRIVATE_DIRECTORY) && Reachable(nodes, d.0)
  {
    var i :| 0 <= i < |cs| && Captured(world(cs[i])) && world(cs[i]).DirectorySeen?
             && d == (cs[i].components, world(cs[i]).mode % 0x1000);
    assert nodes[cs[i].components] == Staged(world(cs[i]), special);
    hide StageHolds, TreeClosed, AllNormal, Captured, Reachable;
    AllPassable(nodes, cs, world, special, d.0);
  }

  /** A permutation of a list without repeated paths has no repeated paths. */
  lemma PermutedDistinct(a: seq<(Path, int)>, b: seq<(Path, int)>)
    requires multiset(a) == multiset(b)
    requires forall i, j :: 0 <= i < j < |b| ==> b[i].0 != b[j].0
    ensures forall i, j :: 0 <= i < j < |a| ==> a[i].0 != a[j].0
  {
    forall i, j | 0 <= i < j < |a|
      ensures a[i].0 != a[j].0
    {
      if a[i].0 == a[j].0 {
        assert a[i] in multiset(b) && a[j] in multiset(b);
        var k :| 0 <= k < |b| && b[k] == a[i];
        var l :| 0 <= l < |b| && b[l] == a[j];
        assert k == l;
        TwiceIn(a, i, j);
        OnceIn(b, k);
      }
    }
  }

  lemma TwiceIn(a: seq<(Path, int)>, i: nat, j: nat)
    requires i < j < |a| && a[i] == a[j]
    ensures multiset(a)[a[i]] >= 2
  {
    assert a == a[..j] + a[j..];
    assert a[..j][i] == a[i] && a[j..][0] == a[i];
    assert multiset(a) == multiset(a[..j]) + multiset(a[j..]);
    assert a[i] in multiset(a[..j]) && a[i] in multiset(a[j..]);
  }

  lemma OnceIn(b: seq<(Path, int)>, k: nat)
    requires k < |b| && forall i, j :: 0 <= i < j < |b| ==> b[i].0 != b[j].0
    ensures multiset(b)[b[k]] == 1
  {
    var x := b[k];
    assert b == b[..k] + [x] + b[k + 1..];
    assert multiset(b) == multiset(b[..k]) + multiset{x} + multiset(b[k + 1..]);
    assert x !in b[..k] && x !in b[k + 1..];
  }

  /** After the modes are set the tree is the captured one. */
  lemma TreeIsRebuilt(b: Build, cs: seq<Candidate>, world: World, due: seq<(Path, int)>, special: bool)
    requires Built(Some(b), cs, world, |cs|, special) && Rebuildable(cs, world)
    requires DeepestFirst(due) && multiset(due) == multiset(b.directories)
    ensures var t := ChangeModes(b.nodes, due, special); t.Some? && TreeRebuilt(t.value, cs, world, special)
  {
    hide DeepestFirst, StrictlySorted, Reachable, Masked, ChangeModes, Captured, ContentOf, Rebuildable, Occupied,
      Implied, Recaptured, Final;
    DueCanBeSet(b, cs, world, due, special);
    ModesCanBeSet(b.nodes, due, special);
    var t := ChangeModes(b.nodes, due, special).value;
    forall i | 0 <= i < |cs| && Captured(world(cs[i]))
      ensures cs[i].components in t && Recaptured(t[cs[i].components], world(cs[i]), special)
    {
      PlaceFinal(b, cs, world, due, special, i, t);
      FinalIsRecaptured(world(cs[i]), special);
    }
    forall p | p in t && !Occupied(cs, world, |cs|, p)
      ensures OnTheWay(t[p])
    {
      NotDue(b, cs, world, due, p);
    }
  }

  /** Every due mode is set, everything else is as it was. */
  ghost predicate ModesSet(nodes: Nodes, due: seq<(Path, int)>, special: bool, t: Nodes)
  {
    && t.Keys == nodes.Keys
    && (forall k :: 0 <= k < |due| ==> due[k].0 in t && t[due[k].0] == Dir(Masked(due[k].1, special)))
    && (forall p :: p in nodes && (forall k :: 0 <= k < |due| ==> due[k].0 != p) ==> t[p] == nodes[p])
  }

  lemma StagedAt(nodes: Nodes, cs: seq<Candidate>, world: World, i: nat, special: bool)
    requires StageHolds(nodes, cs, world, |cs|, special) && i < |cs| && Captured(world(cs[i]))
    ensures cs[i].components in nodes && nodes[cs[i].components] == Staged(world(cs[i]), special)
    ensures !world(cs[i]).DirectorySeen? ==> Final(world(cs[i]), special) == Staged(world(cs[i]), special)
    ensures world(cs[i]).DirectorySeen? ==>
              Final(world(cs[i]), special) == Dir(Masked(world(cs[i]).mode % 0x1000, special))
  {
    hide Captured, Staged, Masked, Occupied, Implied;
  }

  lemma InDue(b: Build, cs: seq<Candidate>, world: World, due: seq<(Path, int)>, k: nat) returns (i: nat)
    requires b.directories == Due(cs, world, |cs|) && multiset(due) == multiset(b.directories) && k < |due|
    ensures i < |cs| && Captured(world(cs[i])) && world(cs[i]).DirectorySeen?
    ensures due[k] == (cs[i].components, world(cs[i]).mode % 0x1000)
  {
    hide Captured;
    assert due[k] in multiset(due);
    DueIs(cs, world, |cs|, due[k]);
    i :| 0 <= i < |cs| && Captured(world(cs[i])) && world(cs[i]).DirectorySeen?
         && due[k] == (cs[i].components, world(cs[i]).mode % 0x1000);
  }

  lemma NotDue(b: Build, cs: seq<Candidate>, world: World, due: seq<(Path, int)>, p: Path)
    requires b.directories == Due(cs, world, |cs|) && multiset(due) == multiset(b.directories)
    requires !Occupied(cs, world, |cs|, p)
    ensures forall k :: 0 <= k < |due| ==> due[k].0 != p
  {
    hide Captured, Due;
    forall k | 0 <= k < |due|
      ensures due[k].0 != p
    {
      var i := InDue(b, cs, world, due, k);
    }
  }

  lemma PlaceFinal(b: Build, cs: seq<Candidate>, world: World, due: seq<(Path, int)>, special: bool, i: nat,
                   t: Nodes)
    requires Built(Some(b), cs, world, |cs|, special) && Rebuildable(cs, world)
    requires multiset(due) == multiset(b.directories) && i < |cs| && Captured(world(cs[i]))
    requires ModesSet(b.nodes, due, special, t)
    ensures cs[i].components in t && t[cs[i].components] == Final(world(cs[i]), special)
  {
    hide StrictlySorted, Masked, Captured, ContentOf, Due, AllNormal, TreeClosed;
    var c, o := cs[i], world(cs[i]);
    StagedAt(b.nodes, cs, world, i, special);
    hide StageHolds, Staged;
    if o.DirectorySeen? {
      DueIs(cs, world, |cs|, (c.components, o.mode % 0x1000));
      assert (c.components, o.mode % 0x1000) in multiset(b.directories);
      var k :| 0 <= k < |due| && due[k] == (c.components, o.mode % 0x1000);
    } else {
      forall k | 0 <= k < |due|
        ensures due[k].0 != c.components
      {
        var j := InDue(b, cs, world, due, k);
        OneOf(cs, world, i, j);
      }
    }
  }

  lemma OneOf(cs: seq<Candidate>, world: World, i: nat, j: nat)
    requires Distinct(cs) && i < |cs| && j < |cs| && world(cs[i]).DirectorySeen? != world(cs[j]).DirectorySeen?
    ensures cs[i].components != cs[j].components
  {
  }
}
