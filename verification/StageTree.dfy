/** The stage is a file tree at every moment, and what was put there stays; so a second pass that ends has rebuilt a
    tree. */
module StageTree {
  import opened Artifacts
  import opened Bytes
  import opened Capture
  import opened Discovery
  import opened Lexical
  import opened Records
  import opened RoundTrip
  import opened Validation
  import Paths

  /** Nothing goes away, and directories remain directories, other things other things. */
  ghost predicate Keeps(before: Nodes, after: Nodes)
  {
    forall p :: p in before ==> p in after && (after[p].Dir? <==> before[p].Dir?)
  }

  lemma PutNew(nodes: Nodes, path: Path, node: Node)
    requires IsTree(nodes) && path !in nodes
    requires forall k :: 0 < k < |path| ==> path[..k] in nodes && nodes[path[..k]].Dir?
    ensures IsTree(nodes[path := node]) && Keeps(nodes, nodes[path := node])
  {
    var t := nodes[path := node];
    forall p, k | p in t && 0 < k < |p|
      ensures p[..k] in t && t[p[..k]].Dir?
    {
      if p != path {
        assert p[..k] in nodes && p[..k] != path;
      }
    }
  }

  /** Making the directories above a place keeps the tree a tree. */
  lemma {:induction false} ParentsKeep(nodes: Nodes, path: Path, n: nat)
    requires n <= |path| && IsTree(nodes) && WithParents(nodes, path, n).Some?
    ensures var t := WithParents(nodes, path, n).value;
            && IsTree(t) && Keeps(nodes, t)
            && forall k :: 0 < k <= n ==> path[..k] in t && t[path[..k]].Dir?
  {
    hide IsTree;
    if n > 0 {
      ParentsKeep(nodes, path, n - 1);
      var above := WithParents(nodes, path, n - 1).value;
      var here := path[..n];
      if here !in above {
        assert forall k :: 0 < k < n ==> here[..k] == path[..k];
        PutNew(above, here, NewParent(path, n));
      }
    }
  }

  lemma BeginKeeps(b: Build, a: Artifact)
    requires IsTree(b.nodes) && BuildBegin(b, a).Some?
    ensures var t := BuildBegin(b, a).value.nodes;
            && IsTree(t) && Keeps(b.nodes, t)
            && a.components in t && (t[a.components].Dir? <==> Fresh(a).Dir?)
  {
    hide IsTree, WithParents, Fresh;
    var path := a.components;
    if path != [] {
      ParentsKeep(b.nodes, path, |path| - 1);
    }
    PutNew(EnsureParent(b.nodes, path).value, path, Fresh(a));
  }

  lemma Rewritten(nodes: Nodes, path: Path, file: Node)
    requires IsTree(nodes) && path in nodes && nodes[path].File? && file.File?
    ensures IsTree(nodes[path := file]) && Keeps(nodes, nodes[path := file])
  {
  }

  lemma StepKeeps(b: Build, r: Record, artifacts: seq<Artifact>, special: bool)
    requires IsTree(b.nodes) && BuildStep(b, r, artifacts, special).Some?
    ensures var t := BuildStep(b, r, artifacts, special).value.nodes; IsTree(t) && Keeps(b.nodes, t)
  {
    hide IsTree, BuildBegin, Masked;
    match r
    case ArtifactBegin(id, _, _, _, _, _, _) => BeginKeeps(b, artifacts[id]);
    case ArtifactChunk(id, _, data) =>
      var f := b.nodes[b.open.value];
      Rewritten(b.nodes, b.open.value, File(f.content + data, f.mode));
    case ArtifactEnd(id, _, _, _) =>
      if b.open.Some? {
        Rewritten(b.nodes, b.open.value, File(b.nodes[b.open.value].content, Masked(artifacts[id].mode, special)));
      }
    case _ =>
  }

  /** A second pass only ever adds to the tree. */
  lemma {:induction false} RunKeeps(b: Build, rs: seq<Record>, artifacts: seq<Artifact>, special: bool)
    requires IsTree(b.nodes) && BuildRun(b, rs, artifacts, special).Some?
    ensures var t := BuildRun(b, rs, artifacts, special).value.nodes; IsTree(t) && Keeps(b.nodes, t)
    decreases |rs|
  {
    hide IsTree, BuildStep;
    if rs != [] {
      StepKeeps(b, rs[0], artifacts, special);
      RunKeeps(BuildStep(b, rs[0], artifacts, special).value, rs[1..], artifacts, special);
    }
  }

  // The groups of the captured candidates.

  /** Every captured candidate has its place, as a directory exactly if it was seen as one. */
  ghost predicate Placed(nodes: Nodes, cs: seq<Candidate>, world: World, n: nat)
    requires n <= |cs|
  {
    forall i :: 0 <= i < n && Captured(world(cs[i])) ==>
      cs[i].components in nodes && (nodes[cs[i].components].Dir? <==> world(cs[i]).DirectorySeen?)
  }

  lemma GroupFirst(c: Candidate, o: Observation, id: nat)
    requires Captured(o)
    ensures GroupRecords(c, o, id) != [] && GroupRecords(c, o, id)[0] == BeginOf(c, o, id)
  {
    hide BeginOf, EndOf, ChunkRecords;
    if o.FileSeen? {
      GroupParts(c, o, id);
    } else {
      PairIsGroup(c, o, id);
    }
  }

  /** After its begin record an artifact has its place for good. */
  lemma BegunPlaces(b: Build, rs: seq<Record>, artifacts: seq<Artifact>, special: bool)
    requires rs != [] && rs[0].ArtifactBegin? && 0 <= rs[0].id < |artifacts| && IsTree(b.nodes)
    requires BuildRun(b, rs, artifacts, special).Some?
    ensures var a, t := artifacts[rs[0].id], BuildRun(b, rs, artifacts, special).value.nodes;
            && IsTree(t) && Keeps(b.nodes, t)
            && a.components in t && (t[a.components].Dir? <==> Fresh(a).Dir?)
  {
    hide IsTree, BuildBegin, Fresh;
    BeginKeeps(b, artifacts[rs[0].id]);
    RunKeeps(BuildStep(b, rs[0], artifacts, special).value, rs[1..], artifacts, special);
  }

  lemma GroupPlaces(b: Build, c: Candidate, o: Observation, id: nat, artifacts: seq<Artifact>, special: bool)
    requires Captured(o) && id < |artifacts| && artifacts[id] == ArtifactOf(c, o, id) && IsTree(b.nodes)
    requires BuildRun(b, GroupRecords(c, o, id), artifacts, special).Some?
    ensures var t := BuildRun(b, GroupRecords(c, o, id), artifacts, special).value.nodes;
            && IsTree(t) && Keeps(b.nodes, t)
            && c.components in t && (t[c.components].Dir? <==> o.DirectorySeen?)
  {
    GroupFirst(c, o, id);
    ArtifactFacts(c, o, id, special);
    OpeningKind(o, special);
    hide IsTree, BuildRun, GroupRecords, BeginOf, EndOf, ArtifactOf, Opening, Captured, DueFor, Fresh, Keeps;
    BegunPlaces(b, GroupRecords(c, o, id), artifacts, special);
  }

  lemma OpeningKind(o: Observation, special: bool)
    requires Captured(o)
    ensures Opening(o, special).Dir? <==> o.DirectorySeen?
  {
    hide ContentOf, Masked;
  }

  lemma {:induction false} GroupsPlace(cs: seq<Candidate>, world: World, n: nat, artifacts: seq<Artifact>,
                                       special: bool)
    requires n <= |cs| && artifacts == ArtifactsOf(cs, world, |cs|)
    requires BuildRun(EMPTY_STAGE, GroupsRecords(cs, world, n), artifacts, special).Some?
    ensures var t := BuildRun(EMPTY_STAGE, GroupsRecords(cs, world, n), artifacts, special).value.nodes;
            IsTree(t) && Placed(t, cs, world, n)
  {
    hide IsTree, BuildRun, GroupRecords, ArtifactsOf, CapturedCount, Captured, ArtifactOf;
    EmptyTree(cs, world, artifacts, special);
    if n > 0 {
      var c, id := cs[n - 1], CapturedCount(cs, world, n - 1);
      var o := world(c);
      BuildAppend(EMPTY_STAGE, GroupsRecords(cs, world, n - 1), GroupRecords(c, o, id), artifacts, special);
      GroupsPlace(cs, world, n - 1, artifacts, special);
      var t := BuildRun(EMPTY_STAGE, GroupsRecords(cs, world, n - 1), artifacts, special).value;
      if Captured(o) {
        ArtifactAt(cs, world, n - 1, |cs|);
        GroupPlaces(t, c, o, id, artifacts, special);
      } else {
        NoGroup(c, o, id);
        NothingBuilt(t, artifacts, special);
      }
    }
  }

  lemma EmptyTree(cs: seq<Candidate>, world: World, artifacts: seq<Artifact>, special: bool)
    ensures BuildRun(EMPTY_STAGE, GroupsRecords(cs, world, 0), artifacts, special) == Some(EMPTY_STAGE)
    ensures IsTree(EMPTY_STAGE.nodes)
  {
  }

  lemma PlacedIsClosed(nodes: Nodes, cs: seq<Candidate>, world: World)
    requires IsTree(nodes) && Placed(nodes, cs, world, |cs|) && AllNormal(cs, world)
    ensures TreeClosed(cs, world)
  {
    hide Captured, Paths.NormalComponent;
    forall i, j | 0 <= i < |cs| && 0 <= j < |cs| && Captured(world(cs[i])) && Captured(world(cs[j]))
                  && Paths.Below(cs[j].components, cs[i].components)
      ensures world(cs[i]).DirectorySeen?
    {
      assert cs[j].components[..|cs[i].components|] == cs[i].components;
    }
  }

  /** The groups of the captured candidates can be built exactly when what has something captured below it was captured
      as a directory. */
  lemma BuiltIffClosed(cs: seq<Candidate>, world: World, artifacts: seq<Artifact>, special: bool)
    requires StrictlySorted(cs) && Distinct(cs) && AllNormal(cs, world) && artifacts == ArtifactsOf(cs, world, |cs|)
    ensures BuildRun(EMPTY_STAGE, GroupsRecords(cs, world, |cs|), artifacts, special).Some? <==> TreeClosed(cs, world)
  {
    hide StrictlySorted, Distinct, AllNormal, TreeClosed, BuildRun, GroupsRecords, ArtifactsOf, IsTree, Placed;
    if TreeClosed(cs, world) {
      GroupsBuild(cs, world, |cs|, artifacts, special);
      BuiltSome(BuildRun(EMPTY_STAGE, GroupsRecords(cs, world, |cs|), artifacts, special), cs, world, |cs|, special);
    }
    var b := BuildRun(EMPTY_STAGE, GroupsRecords(cs, world, |cs|), artifacts, special);
    if b.Some? {
      GroupsPlace(cs, world, |cs|, artifacts, special);
      PlacedIsClosed(b.value.nodes, cs, world);
    }
  }

  /** Whatever a consumer does about links that are in the way: no tree holds all that was captured unless it is
      closed. */
  lemma RebuiltIsClosed(nodes: Nodes, cs: seq<Candidate>, world: World, special: bool)
    requires IsTree(nodes) && TreeRebuilt(nodes, cs, world, special) && AllNormal(cs, world)
    ensures TreeClosed(cs, world)
  {
    hide Captured, ContentOf, Masked, Paths.NormalComponent, IsTree, AllNormal, TreeClosed, Occupied, Implied;
    PlacedIsClosed(nodes, cs, world);
  }
}
