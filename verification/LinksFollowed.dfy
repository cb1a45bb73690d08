/** When the second pass over an accepted stream goes through a link, and what comes of it when it does not. */
module LinksFollowed {
  import opened Bytes
  import opened Host
  import opened HostStage
  import opened Lexical
  import opened Listing
  import opened Reassembly
  import opened Records
  import opened SecondPass
  import opened Validation
  import Paths
  import Production
  import StageTree

  /** An artifact begins below a link listed before it, and at this moment the link leads to a directory. */
  predicate Meets(h: Build, r: Record, artifacts: seq<Artifact>, root: Path)
  {
    && r.ArtifactBegin? && 0 <= r.id < |artifacts|
    && exists i :: 0 <= i < r.id && BelowOpenLink(h.nodes, artifacts[r.id], artifacts[i], root)
  }

  predicate BelowOpenLink(fs: Nodes, a: Artifact, link: Artifact, root: Path)
  {
    link.fileType == Symlink && Paths.Below(a.components, link.components)
      && LeadsToDirectory(fs, root, link.components)
  }

  /** And that happens at some record the pass reaches. */
  predicate EverMeets(h: Build, rs: seq<Record>, artifacts: seq<Artifact>, special: bool, root: Path)
    decreases |rs|
  {
    rs != []
    && (Meets(h, rs[0], artifacts, root)
        || (HostStep(h, rs[0], artifacts, special, root).Some?
            && EverMeets(HostStep(h, rs[0], artifacts, special, root).value, rs[1..], artifacts, special, root)))
  }

  // Resolution in two parts.

  lemma AboveIsDirectory(fs: Nodes, d: Path)
    requires IsTree(fs) && IsDirectory(fs, d)
    ensures IsDirectory(fs, Above(d))
  {
  }

  /** What comes before the last part of a path that leads somewhere leads to a directory. */
  lemma {:induction false} WalkPrefix(fs: Nodes, d: Path, first: seq<bytes>, rest: seq<bytes>, last: bool, links: nat)
    requires IsTree(fs) && IsDirectory(fs, d) && rest != [] && Walk(fs, d, first + rest, last, links).Some?
    ensures var p := Walk(fs, d, first, true, links); p.Some? && IsDirectory(fs, p.value)
    decreases links, |first|
  {
    hide IsTree, Searchable, Paths.Split;
    var parts := first + rest;
    if first == [] {
    } else {
      var c, more := first[0], first[1..];
      assert parts[0] == c && parts[1..] == more + rest;
      if c == [] || c == [Paths.DOT] {
        WalkPrefix(fs, d, more, rest, last, links);
      } else if c == DOTS {
        AboveIsDirectory(fs, d);
        WalkPrefix(fs, Above(d), more, rest, last, links);
      } else if d + [c] in fs && fs[d + [c]].Dir? {
        WalkPrefix(fs, d + [c], more, rest, last, links);
      } else if d + [c] in fs && fs[d + [c]].Link? {
        var target := fs[d + [c]].target;
        var from := if target[0] == Paths.SEPARATOR then [] else d;
        assert Paths.Split(target) + (more + rest) == Paths.Split(target) + more + rest;
        WalkPrefix(fs, from, Paths.Split(target) + more, rest, last, links - 1);
      }
    }
  }

  lemma LeadsPrefix(fs: Nodes, root: Path, path: Path, m: nat)
    requires IsTree(fs) && IsDirectory(fs, root) && m < |path| && Leads(fs, root, path).Some?
    ensures LeadsToDirectory(fs, root, path[..m])
  {
    hide IsTree, Walk;
    assert path[..m] + path[m..] == path;
    WalkPrefix(fs, root, path[..m], path[m..], true, MOST_LINKS);
  }

  // One artifact.

  /** The stage before artifact `j` begins: the ones before it are in their places. */
  ghost predicate AtBegin(h: Build, b: Build, all: seq<Artifact>, paths: set<Path>, j: nat, special: bool, host: Nodes,
                          root: Path)
  {
    && j < |all| && AllListed(all, paths) && Beside(h, b, host, root) && IsTree(h.nodes)
    && Shape(b.nodes, all, j) && AllEnded(b.nodes, all, j, special)
  }

  lemma LinkListed(h: Build, b: Build, all: seq<Artifact>, paths: set<Path>, j: nat, special: bool, host: Nodes,
                   root: Path, i: nat)
    requires AtBegin(h, b, all, paths, j, special, host, root) && i < j && BelowOpenLink(h.nodes, all[j], all[i], root)
    ensures Through(h.nodes, root, all[j].components)
  {
    ListedPlaces(all, paths);
    hide Leads, IsTree, AllOpen, Shape, AllListed, Holds, Inside;
    var path, n := all[j].components, |all[i].components|;
    assert path[..n] == all[i].components;
    LinkIsThere(h.nodes, b.nodes, host, root, all[i].components);
    assert LeadsElsewhere(h.nodes, root, path[..n]);
  }

  /** The first thing on the way that is no directory. */
  lemma {:induction false} FirstObstacle(nodes: Nodes, path: Path, n: nat) returns (m: nat)
    requires n <= |path|
    ensures m <= n && forall k :: 0 < k <= m ==> path[..k] in nodes && nodes[path[..k]].Dir?
    ensures m < n ==> !(path[..m + 1] in nodes && nodes[path[..m + 1]].Dir?)
  {
    m := 0;
    while m < n && path[..m + 1] in nodes && nodes[path[..m + 1]].Dir?
      invariant m <= n && forall k :: 0 < k <= m ==> path[..k] in nodes && nodes[path[..k]].Dir?
    {
      m := m + 1;
    }
  }

  lemma RootIsDirectory(h: Build, b: Build, host: Nodes, root: Path)
    requires Beside(h, b, host, root)
    ensures IsDirectory(h.nodes, root)
  {
    RootStays(h.nodes, b.nodes, host, root);
  }

  /** Where a path leads elsewhere, a link on the way leads to a directory. */
  lemma ObstacleIsLink(h: Build, b: Build, host: Nodes, root: Path, path: Path, n: nat) returns (m: nat)
    requires Beside(h, b, host, root) && IsTree(h.nodes) && Paths.NormalComponents(path)
    requires 0 < n < |path| && LeadsElsewhere(h.nodes, root, path[..n])
    ensures 0 < m <= n && path[..m] in b.nodes && b.nodes[path[..m]].Link? && LeadsToDirectory(h.nodes, root, path[..m])
  {
    RootIsDirectory(h, b, host, root);
    hide Walk, Holds, IsTree, AllOpen, Paths.NormalComponents;
    var k := FirstObstacle(b.nodes, path, n);
    PrefixNormal(path, n);
    if k == n {
      PrefixLaid(b.nodes, path, n);
      SpelledLeads(h.nodes, b.nodes, host, root, path[..n]);
    } else {
      m := k + 1;
      PrefixNormal(path, m);
      PrefixLaid(b.nodes, path, m);
      if m < n {
        assert path[..n][..m] == path[..m];
        LeadsPrefix(h.nodes, root, path[..n], m);
      }
      if !(path[..m] in b.nodes && b.nodes[path[..m]].Link?) {
        SpelledLeads(h.nodes, b.nodes, host, root, path[..m]);
      }
    }
  }

  lemma ThroughMeets(h: Build, b: Build, all: seq<Artifact>, paths: set<Path>, j: nat, special: bool, host: Nodes,
                     root: Path)
    requires AtBegin(h, b, all, paths, j, special, host, root) && Through(h.nodes, root, all[j].components)
    ensures exists i :: 0 <= i < j && BelowOpenLink(h.nodes, all[j], all[i], root)
  {
    var path := all[j].components;
    assert ListedAt(all[j], j);
    hide LeadsElsewhere, LeadsToDirectory, Beside, IsTree, AllListed, Paths.NormalComponents, AboveOf, Masked;
    var n :| 0 < n < |path| && LeadsElsewhere(h.nodes, root, path[..n]);
    var m := ObstacleIsLink(h, b, host, root, path, n);
    var i :| 0 <= i < j && all[i].components == path[..m];
    assert Ended(b.nodes[all[i].components], all[i], special);
    assert BelowOpenLink(h.nodes, all[j], all[i], root);
  }

  /** At the begin record of an artifact the pass goes through a link exactly when it meets one. */
  lemma ThroughIffMeets(h: Build, b: Build, all: seq<Artifact>, paths: set<Path>, r: Record, special: bool, host: Nodes,
                        root: Path)
    requires r.ArtifactBegin? && r.id >= 0 && AtBegin(h, b, all, paths, r.id, special, host, root)
    ensures GoesThrough(h, r, all, root) <==> Meets(h, r, all, root)
  {
    hide AtBegin, Through, BelowOpenLink;
    AtBeginListed(h, b, all, paths, r.id, special, host, root);
    if Meets(h, r, all, root) {
      var i :| 0 <= i < r.id && BelowOpenLink(h.nodes, all[r.id], all[i], root);
      LinkListed(h, b, all, paths, r.id, special, host, root, i);
    }
    if GoesThrough(h, r, all, root) {
      ThroughMeets(h, b, all, paths, r.id, special, host, root);
    }
  }

  lemma AtBeginListed(h: Build, b: Build, all: seq<Artifact>, paths: set<Path>, j: nat, special: bool, host: Nodes,
                      root: Path)
    requires AtBegin(h, b, all, paths, j, special, host, root)
    ensures j < |all|
  {
  }

  // The whole pass.

  lemma BeginsAt(t: State, line: Line, h: Build, b: Build, all: seq<Artifact>, paths: set<Path>, special: bool,
                 host: Nodes, root: Path)
    requires Step(t, line).Some? && line.record.ArtifactBegin? && AllListed(all, paths)
    requires Agrees(t, all) && Agrees(Step(t, line).value, all) && Mirrors(t, b, all, special)
    requires Beside(h, b, host, root) && IsTree(h.nodes)
    ensures line.record.id >= 0 && AtBegin(h, b, all, paths, line.record.id, special, host, root)
  {
    BegunState(t, line, all);
    MirrorIdle(t, b, all, special);
    hide Step, IsTree, Shape, AllEnded, Beside, AllListed, Mirrors, Agrees;
  }

  lemma NoBegin(h: Build, r: Record, all: seq<Artifact>, root: Path)
    requires !r.ArtifactBegin?
    ensures !GoesThrough(h, r, all, root) && !Meets(h, r, all, root)
  {
  }

  lemma SameHere(t: State, line: Line, h: Build, b: Build, all: seq<Artifact>, paths: set<Path>, special: bool,
                 host: Nodes, root: Path)
    requires Step(t, line).Some? && AllListed(all, paths)
    requires Agrees(t, all) && Agrees(Step(t, line).value, all) && Mirrors(t, b, all, special)
    requires Beside(h, b, host, root) && IsTree(h.nodes)
    ensures GoesThrough(h, line.record, all, root) <==> Meets(h, line.record, all, root)
  {
    hide Step, Agrees, Mirrors, Beside, IsTree, AllListed, AtBegin, GoesThrough, Meets;
    if line.record.ArtifactBegin? {
      BeginsAt(t, line, h, b, all, paths, special, host, root);
      ThroughIffMeets(h, b, all, paths, line.record, special, host, root);
    } else {
      NoBegin(h, line.record, all, root);
    }
  }

  lemma ListedNormal(all: seq<Artifact>, paths: set<Path>)
    requires AllListed(all, paths)
    ensures AllNormal(all)
  {
    hide Paths.NormalComponents;
    assert forall i :: 0 <= i < |all| ==> ListedAt(all[i], i);
  }

  /** From any point at which both passes agree: the pass goes through a link exactly when it meets an open one. */
  lemma {:induction false} RunThroughIffMeets(t: State, lines: seq<Line>, h: Build, b: Build, special: bool,
                                              host: Nodes, root: Path)
    requires Run(t, lines).Some? && Run(t, lines).value.active.None? && Listed(t)
    requires Agrees(t, Run(t, lines).value.artifacts) && Mirrors(t, b, Run(t, lines).value.artifacts, special)
    requires Beside(h, b, host, root) && IsTree(h.nodes)
    ensures var all, rs := Run(t, lines).value.artifacts, Production.RecordsOf(lines);
            EverThrough(h, rs, all, special, root) <==> EverMeets(h, rs, all, special, root)
    decreases |lines|
  {
    hide Step, Listed, AllListed, Mirrors, HostStep, BuildStep, Agrees, Beside, IsTree, GoesThrough, Meets, AllNormal,
      FreeAt;
    var end := Run(t, lines).value;
    var all, rs := end.artifacts, Production.RecordsOf(lines);
    RunListed(t, lines);
    ListedAll(end);
    ListedNormal(all, end.artifactPaths);
    if lines != [] {
      var next := Step(t, lines[0]).value;
      StateAgrees(next, lines[1..]);
      StepListed(t, lines[0]);
      assert rs[0] == lines[0].record && rs[1..] == Production.RecordsOf(lines[1..]);
      SameHere(t, lines[0], h, b, all, end.artifactPaths, special, host, root);
      if !GoesThrough(h, rs[0], all, root) {
        StepMirrors(t, lines[0], b, all, end.artifactPaths, special);
        StepBeside(h, b, rs[0], all, special, host, root);
        if BuildStep(b, rs[0], all, special).Some? {
          HostStepKeeps(h, rs[0], all, special, root);
          RunThroughIffMeets(next, lines[1..], HostStep(h, rs[0], all, special, root).value,
                             BuildStep(b, rs[0], all, special).value, special, host, root);
        }
      }
    }
  }

  /** The second pass over an accepted stream, whoever wrote it, goes through a link if and only if it reaches an
      artifact below a link that is listed before it and then leads to a directory. */
  lemma AcceptedThrough(lines: seq<Line>, special: bool, host: Nodes, root: Path)
    requires Accepts(lines) && Vacant(host, root)
    ensures Run(INITIAL_STATE, lines).Some?
    ensures var all, rs := Run(INITIAL_STATE, lines).value.artifacts, Production.RecordsOf(lines);
            EverThrough(StartOn(host, root), rs, all, special, root)
            <==> EverMeets(StartOn(host, root), rs, all, special, root)
  {
    hide Run, Accepts, Production.RecordsOf, Listed, Agrees, Mirrors, Beside, EverThrough, EverMeets, IsTree, Vacant,
      WithStage;
    AcceptedRun(lines);
    NothingMirrored(Run(INITIAL_STATE, lines).value.artifacts, special);
    Begins(host, root);
    StartIsTree(host, root);
    RunThroughIffMeets(INITIAL_STATE, lines, StartOn(host, root), EMPTY_STAGE, special, host, root);
  }

  // Lists without anything below a link.

  /** What a caller can see from the list: nothing is listed below a link. */
  predicate NothingBelowLinks(all: seq<Artifact>)
  {
    forall i, j ::
      0 <= i < |all| && 0 <= j < |all| && Paths.Below(all[j].components, all[i].components) ==>
        all[i].fileType != Symlink
  }

  lemma {:induction false} NeverMeets(h: Build, rs: seq<Record>, artifacts: seq<Artifact>, special: bool, root: Path)
    requires NothingBelowLinks(artifacts)
    ensures !EverMeets(h, rs, artifacts, special, root)
    decreases |rs|
  {
    hide HostStep, LeadsToDirectory;
    if rs != [] && HostStep(h, rs[0], artifacts, special, root).Some? {
      NeverMeets(HostStep(h, rs[0], artifacts, special, root).value, rs[1..], artifacts, special, root);
    }
  }

  lemma BuildableHasNone(all: seq<Artifact>)
    requires Buildable(all)
    ensures NothingBelowLinks(all)
  {
    forall i, j | 0 <= i < |all| && 0 <= j < |all| && Paths.Below(all[j].components, all[i].components)
      ensures all[i].fileType != Symlink
    {
      assert FreeAt(all, i) && FreeAt(all, j);
    }
  }

  /** Nothing listed below a link: the pass on the file system is the pass by spelling, and it goes through exactly when
      the list can be built. */
  lemma AcceptedOnHost(lines: seq<Line>, special: bool, host: Nodes, root: Path)
    requires Accepts(lines) && Vacant(host, root) && Run(INITIAL_STATE, lines).Some?
    requires NothingBelowLinks(Run(INITIAL_STATE, lines).value.artifacts)
    ensures var all, rs := Run(INITIAL_STATE, lines).value.artifacts, Production.RecordsOf(lines);
            var h, b := HostRun(StartOn(host, root), rs, all, special, root), BuildRun(EMPTY_STAGE, rs, all, special);
            && (h.Some? <==> Buildable(all)) && (b.Some? <==> Buildable(all))
            && (h.Some? ==> Beside(h.value, b.value, host, root) && FullStage(b.value, all, special))
  {
    hide Run, Accepts, Production.RecordsOf, Beside, EverThrough, EverMeets, Vacant, WithStage, HostRun, BuildRun,
      Buildable, NothingBelowLinks, FullStage, AllListed, AllNormal;
    var all, rs := Run(INITIAL_STATE, lines).value.artifacts, Production.RecordsOf(lines);
    AcceptedThrough(lines, special, host, root);
    NeverMeets(StartOn(host, root), rs, all, special, root);
    Begins(host, root);
    AcceptedListed(lines);
    ListedNormal(all, Run(INITIAL_STATE, lines).value.artifactPaths);
    RunBeside(StartOn(host, root), EMPTY_STAGE, rs, all, special, host, root);
    AcceptedPasses(lines, special);
  }

  lemma DueNormal(b: Build, all: seq<Artifact>, due: seq<(Path, int)>, special: bool)
    requires FullStage(b, all, special) && AllNormal(all) && multiset(due) == multiset(b.directories)
    ensures forall k :: 0 <= k < |due| ==> Paths.NormalComponents(due[k].0)
  {
    hide FullStage, Paths.NormalComponents, Reachable;
    forall k | 0 <= k < |due|
      ensures Paths.NormalComponents(due[k].0)
    {
      var i := DueThere(b, all, due, k, special);
    }
  }

  /** The modes of a full stage can be set on the file system, and then what is listed is there. */
  lemma ModesOnHost(h: Build, b: Build, all: seq<Artifact>, paths: set<Path>, due: seq<(Path, int)>, special: bool,
                    host: Nodes, root: Path)
    requires Beside(h, b, host, root) && FullStage(b, all, special) && AllListed(all, paths)
    requires DeepestFirst(due) && multiset(due) == multiset(b.directories)
    ensures var t := HostModes(h.nodes, root, due, special);
            t.Some? && ListRestored(Inside(t.value, root), all, special)
              && Untouched(WithStage(host, root), t.value, root)
  {
    ListedNormal(all, paths);
    DueNormal(b, all, due, special);
    ModesRestore(b, all, paths, due, special);
    hide AllListed, FullStage, ListRestored, HostModes, ChangeModes, DeepestFirst, Inside, Untouched, WithStage,
      AllNormal, IsTree, AllOpen, Paths.NormalComponents;
    ModesBeside(h.nodes, b.nodes, host, root, due, special);
  }

  /** What comes out of a permitted reassembly, if nothing is listed below a link: exactly what is listed, and nothing
      outside has changed; or nothing, if the list cannot be built. */
  lemma RestoredOnHost(lines: seq<Line>, special: bool, host: Nodes, root: Path, result: Option<Nodes>)
    requires Accepts(lines) && Vacant(host, root) && Run(INITIAL_STATE, lines).Some?
    requires NothingBelowLinks(Run(INITIAL_STATE, lines).value.artifacts)
    requires Rebuilt(lines, Run(INITIAL_STATE, lines).value.artifacts, special, host, root, result)
    ensures var all := Run(INITIAL_STATE, lines).value.artifacts;
            && (result.Some? <==> Buildable(all))
            && (result.Some? ==>
                  ListRestored(Inside(result.value, root), all, special)
                  && Untouched(WithStage(host, root), result.value, root))
  {
    hide Run, Accepts, Production.RecordsOf, Beside, Vacant, WithStage, HostRun, BuildRun, Buildable, NothingBelowLinks,
      FullStage, AllListed, ListRestored, Inside, Untouched, HostModes, DeepestFirst;
    AcceptedOnHost(lines, special, host, root);
    AcceptedListed(lines);
    var t := Run(INITIAL_STATE, lines).value;
    var rs := Production.RecordsOf(lines);
    var h := HostRun(StartOn(host, root), rs, t.artifacts, special, root);
    if h.Some? {
      var b := BuildRun(EMPTY_STAGE, rs, t.artifacts, special).value;
      var due: seq<(Path, int)> :|
        DeepestFirst(due) && multiset(due) == multiset(h.value.directories)
          && result == HostModes(h.value.nodes, root, due, special);
      SameDue(h.value, b, host, root);
      ModesOnHost(h.value, b, t.artifacts, t.artifactPaths, due, special, host, root);
    }
  }

  lemma SameDue(h: Build, b: Build, host: Nodes, root: Path)
    requires Beside(h, b, host, root)
    ensures h.directories == b.directories
  {
    hide Holds, IsTree, AllOpen;
  }

  // Any list.

  lemma RestoredHasNone(nodes: Nodes, all: seq<Artifact>, paths: set<Path>, special: bool)
    requires IsTree(nodes) && ListRestored(nodes, all, special) && AllListed(all, paths)
    ensures NothingBelowLinks(all)
  {
    ListedPlaces(all, paths);
    hide IsTree, AllListed, Masked, PlaceOf, AboveOf;
    forall i, j | 0 <= i < |all| && 0 <= j < |all| && Paths.Below(all[j].components, all[i].components)
      ensures all[i].fileType != Symlink
    {
      assert Restored(nodes[all[i].components], all[i], special);
      AboveInTree(nodes, all[j].components, |all[i].components|);
    }
  }

  lemma AboveInTree(nodes: Nodes, p: Path, k: nat)
    requires IsTree(nodes) && p in nodes && 0 < k < |p|
    ensures p[..k] in nodes && nodes[p[..k]].Dir?
  {
  }

  /** Exactly what is listed comes out if and only if the list can be built, whatever links are followed. */
  lemma ListedTreeIff(lines: seq<Line>, special: bool, host: Nodes, root: Path, result: Option<Nodes>)
    requires Accepts(lines) && Vacant(host, root) && Run(INITIAL_STATE, lines).Some?
    requires Rebuilt(lines, Run(INITIAL_STATE, lines).value.artifacts, special, host, root, result)
    ensures var all := Run(INITIAL_STATE, lines).value.artifacts;
            result.Some? && ListRestored(Inside(result.value, root), all, special) <==> Buildable(all)
  {
    hide Run, Accepts, Production.RecordsOf, Vacant, WithStage, HostRun, Buildable, NothingBelowLinks, AllListed,
      ListRestored, Inside, Untouched, HostModesSet, IsTree;
    var t := Run(INITIAL_STATE, lines).value;
    if Buildable(t.artifacts) {
      BuildableHasNone(t.artifacts);
      RestoredOnHost(lines, special, host, root, result);
    }
    if result.Some? && ListRestored(Inside(result.value, root), t.artifacts, special) {
      ResultIsTree(StartOn(host, root), Production.RecordsOf(lines), t.artifacts, special, host, root, result);
      InsideIsTree(result.value, root);
      AcceptedListed(lines);
      RestoredHasNone(Inside(result.value, root), t.artifacts, t.artifactPaths, special);
      RestoredOnHost(lines, special, host, root, result);
    }
  }

  lemma ResultIsTree(start: Build, rs: seq<Record>, artifacts: seq<Artifact>, special: bool, host: Nodes, root: Path,
                     result: Option<Nodes>)
    requires Vacant(host, root) && start == StartOn(host, root) && result.Some?
    requires var h := HostRun(start, rs, artifacts, special, root);
             h.Some? && HostModesSet(h.value, special, root, result)
    ensures IsTree(result.value) && StageTree.Keeps(WithStage(host, root), result.value)
  {
    hide HostRun, IsTree, Vacant, WithStage, HostModes, DeepestFirst;
    StartIsTree(host, root);
    HostRunKeeps(start, rs, artifacts, special, root);
    var h := HostRun(start, rs, artifacts, special, root).value;
    var due: seq<(Path, int)> :|
      DeepestFirst(due) && multiset(due) == multiset(h.directories) && result == HostModes(h.nodes, root, due, special);
    HostModesKeep(h.nodes, root, due, special);
  }

  /** An artifact that begins through a link does not get to the place it is listed for. */
  lemma ThroughMisplaces(h: Build, b: Build, all: seq<Artifact>, paths: set<Path>, j: nat, special: bool, host: Nodes,
                         root: Path)
    requires AtBegin(h, b, all, paths, j, special, host, root) && Through(h.nodes, root, all[j].components)
    requires HostBegin(h, all[j], root).Some?
    ensures root + all[j].components !in HostBegin(h, all[j], root).value.nodes
  {
    var path := all[j].components;
    assert ListedAt(all[j], j);
    HostBeginKeeps(h, all[j], root);
    hide LeadsElsewhere, LeadsToDirectory, Beside, IsTree, AllListed, Paths.NormalComponents, Shape, AllEnded,
      HostBegin;
    var n :| 0 < n < |path| && LeadsElsewhere(h.nodes, root, path[..n]);
    var m := ObstacleIsLink(h, b, host, root, path, n);
    LinkOnHost(h, b, host, root, path[..m]);
    var t := HostBegin(h, all[j], root).value.nodes;
    NothingBelowLink(t, root, path, m);
  }

  lemma NothingBelowLink(nodes: Nodes, root: Path, path: Path, m: nat)
    requires IsTree(nodes) && 0 < m < |path| && root + path[..m] in nodes && !nodes[root + path[..m]].Dir?
    ensures root + path !in nodes
  {
    assert (root + path)[..|root| + m] == root + path[..m];
  }

  lemma LinkOnHost(h: Build, b: Build, host: Nodes, root: Path, path: Path)
    requires Beside(h, b, host, root) && path != [] && path in b.nodes && b.nodes[path].Link?
    ensures root + path in h.nodes && h.nodes[root + path].Link?
  {
    InsideIs(h.nodes, b.nodes, host, root);
    hide Inside, Holds, IsTree, AllOpen;
    InsideAt(h.nodes, root, path);
  }
}
