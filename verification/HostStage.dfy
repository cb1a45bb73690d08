/** As long as no path goes through a link, the pass on a file system does in the stage what the pass by spelling does,
    and nothing outside it. */
module HostStage {
  import opened Bytes
  import opened Host
  import opened Lexical
  import opened Records
  import opened StageTree
  import opened Validation
  import Paths

  /** Directories are still as they were made. */
  ghost predicate AllOpen(nodes: Nodes)
  {
    forall p :: p in nodes && nodes[p].Dir? ==> OnTheWay(nodes[p])
  }

  /** The file system `fs` holds the host as it was, with `nodes` in the stage. */
  ghost predicate Holds(fs: Nodes, nodes: Nodes, host: Nodes, root: Path)
  {
    Inside(fs, root) == nodes && Untouched(WithStage(host, root), fs, root)
  }

  function Under(root: Path, p: Option<Path>): Option<Path>
  {
    if p.None? then None else Some(root + p.value)
  }

  /** Both passes are at the same point. */
  ghost predicate Beside(h: Build, b: Build, host: Nodes, root: Path)
  {
    && Holds(h.nodes, b.nodes, host, root) && IsTree(b.nodes) && AllOpen(b.nodes)
    && h.open == Under(root, b.open) && h.active == b.active && h.directories == b.directories
  }

  /** A path that leads to some directory other than the one it spells. */
  predicate LeadsElsewhere(fs: Nodes, root: Path, path: Path)
  {
    LeadsToDirectory(fs, root, path) && Leads(fs, root, path).value != root + path
  }

  /** The way to a place goes through a link to a directory. */
  predicate Through(fs: Nodes, root: Path, path: Path)
  {
    exists n :: 0 < n < |path| && LeadsElsewhere(fs, root, path[..n])
  }

  // The stage in the file system.

  lemma InsideAt(fs: Nodes, root: Path, p: Path)
    requires p != []
    ensures p in Inside(fs, root) <==> root + p in fs
    ensures p in Inside(fs, root) ==> Inside(fs, root)[p] == fs[root + p]
  {
    RestsAre(fs, root);
    hide Rests;
  }

  lemma NoEmptyInside(fs: Nodes, root: Path)
    ensures [] !in Inside(fs, root)
  {
    RestsAre(fs, root);
    hide Rests;
  }

  lemma InsidePut(fs: Nodes, root: Path, p: Path, node: Node)
    requires p != []
    ensures Inside(fs[root + p := node], root) == Inside(fs, root)[p := node]
  {
    hide Inside;
    var t := fs[root + p := node];
    NoEmptyInside(fs, root);
    NoEmptyInside(t, root);
    forall q: Path
      ensures q in Inside(t, root) <==> q in Inside(fs, root)[p := node]
      ensures q in Inside(t, root) ==> Inside(t, root)[q] == Inside(fs, root)[p := node][q]
    {
      if q != [] {
        InsideAt(fs, root, q);
        InsideAt(t, root, q);
        assert root + q == root + p ==> (root + q)[|root|..] == (root + p)[|root|..];
      }
    }
  }

  lemma PutInside(fs: Nodes, nodes: Nodes, host: Nodes, root: Path, p: Path, node: Node)
    requires Holds(fs, nodes, host, root) && p != []
    ensures Holds(fs[root + p := node], nodes[p := node], host, root)
  {
    hide Inside, WithStage;
    InsidePut(fs, root, p, node);
    assert Paths.Below(root + p, root);
  }

  lemma RootStays(fs: Nodes, nodes: Nodes, host: Nodes, root: Path)
    requires Holds(fs, nodes, host, root)
    ensures root in fs && fs[root] == Dir(PRIVATE_DIRECTORY)
  {
    hide Inside;
  }

  /** At first the stage is empty. */
  lemma Begins(host: Nodes, root: Path)
    requires Vacant(host, root)
    ensures Beside(StartOn(host, root), EMPTY_STAGE, host, root)
  {
    hide Inside;
    var fs := WithStage(host, root);
    NoEmptyInside(fs, root);
    forall q: Path
      ensures q !in Inside(fs, root)
    {
      if q != [] {
        InsideAt(fs, root, q);
        NothingBelow(host, root, q);
      }
    }
    assert Inside(fs, root) == map[];
  }

  lemma NothingBelow(host: Nodes, root: Path, q: Path)
    requires Vacant(host, root) && q != []
    ensures root + q !in WithStage(host, root)
  {
    assert (root + q)[..|root|] == root;
  }

  // Paths that mean what they spell.

  /** Down a row of directories. */
  lemma {:induction false} WalkDown(fs: Nodes, root: Path, path: Path, k: nat, last: bool, links: nat)
    requires Paths.NormalComponents(path) && k < |path|
    requires forall j :: k <= j < |path| ==> Searchable(fs, root + path[..j])
    requires root + path in fs && fs[root + path].Link? ==> !last
    ensures Walk(fs, root + path[..k], path[k..], last, links) == Some(root + path)
    decreases |path| - k
  {
    hide Searchable, Paths.NormalComponents;
    var parts := path[k..];
    NormalAt(path, k);
    assert parts[0] == path[k] && parts[1..] == path[k + 1..];
    assert root + path[..k] + [path[k]] == root + path[..k + 1];
    if k + 1 == |path| {
      assert path[..k + 1] == path;
    } else {
      SearchableIs(fs, root + path[..k + 1]);
      WalkDown(fs, root, path, k + 1, last, links);
    }
  }

  lemma NormalAt(path: Path, k: nat)
    requires Paths.NormalComponents(path) && k < |path|
    ensures path[k] != [] && path[k] != [Paths.DOT] && path[k] != DOTS
  {
    assert Paths.NormalComponent(path[k]);
  }

  lemma SearchableIs(fs: Nodes, p: Path)
    requires Searchable(fs, p) && p != []
    ensures p in fs && fs[p].Dir?
  {
  }

  /** The directories above a place, as spelled. */
  predicate Laid(nodes: Nodes, path: Path)
  {
    forall j :: 0 < j < |path| ==> path[..j] in nodes && nodes[path[..j]].Dir?
  }

  lemma DirectoriesOpen(fs: Nodes, nodes: Nodes, host: Nodes, root: Path, path: Path, j: nat)
    requires Holds(fs, nodes, host, root) && AllOpen(nodes) && Laid(nodes, path) && j < |path|
    ensures Searchable(fs, root + path[..j]) && Fillable(fs, root + path[..j])
  {
    hide Inside, Untouched, WithStage;
    OpenModes();
    hide Passable;
    if j == 0 {
      RootStays(fs, nodes, host, root);
      assert root + path[..0] == root;
    } else {
      InsideAt(fs, root, path[..j]);
    }
  }

  lemma OpenModes()
    ensures Passable(PRIVATE_DIRECTORY) && Passable(DEFAULT_DIRECTORY) && PRIVATE_DIRECTORY / 0x80 % 2 == 1
  {
  }

  lemma SpelledWalk(fs: Nodes, nodes: Nodes, host: Nodes, root: Path, path: Path, last: bool)
    requires Holds(fs, nodes, host, root) && AllOpen(nodes) && Laid(nodes, path) && Paths.NormalComponents(path)
    requires path in nodes && nodes[path].Link? ==> !last
    ensures Walk(fs, root, path, last, MOST_LINKS) == Some(root + path)
    ensures path in nodes <==> root + path in fs
    ensures path in nodes ==> nodes[path] == fs[root + path]
  {
    hide Holds, AllOpen, Laid, Searchable, Fillable, Walk, Inside;
    NotEmpty(path);
    InsideIs(fs, nodes, host, root);
    InsideAt(fs, root, path);
    forall j | 0 <= j < |path|
      ensures Searchable(fs, root + path[..j])
    {
      DirectoriesOpen(fs, nodes, host, root, path, j);
    }
    WalkDown(fs, root, path, 0, last, MOST_LINKS);
    assert root + path[..0] == root && path[0..] == path;
  }

  lemma NotEmpty(path: Path)
    requires Paths.NormalComponents(path)
    ensures path != []
  {
  }

  lemma InsideIs(fs: Nodes, nodes: Nodes, host: Nodes, root: Path)
    requires Holds(fs, nodes, host, root)
    ensures Inside(fs, root) == nodes
  {
    hide Inside;
  }

  /** A new entry goes where it is spelled, if nothing is there. */
  lemma SpelledPlace(fs: Nodes, nodes: Nodes, host: Nodes, root: Path, path: Path)
    requires Holds(fs, nodes, host, root) && AllOpen(nodes) && Laid(nodes, path) && Paths.NormalComponents(path)
    ensures Place(fs, root, path) == if path in nodes then None else Some(root + path)
  {
    hide Holds, AllOpen, Laid, Searchable, Walk, Fillable;
    SpelledWalk(fs, nodes, host, root, path, false);
    NotEmpty(path);
    DirectoriesOpen(fs, nodes, host, root, path, |path| - 1);
    assert (root + path)[..|root + path| - 1] == root + path[..|path| - 1];
  }

  /** What is there and is no link leads to itself. */
  lemma SpelledLeads(fs: Nodes, nodes: Nodes, host: Nodes, root: Path, path: Path)
    requires Holds(fs, nodes, host, root) && AllOpen(nodes) && Laid(nodes, path) && Paths.NormalComponents(path)
    requires path in nodes ==> !nodes[path].Link?
    ensures Leads(fs, root, path) == Some(root + path)
    ensures LeadsToDirectory(fs, root, path) <==> path in nodes && nodes[path].Dir?
  {
    hide Holds, AllOpen, Laid, Walk;
    SpelledWalk(fs, nodes, host, root, path, true);
    NotEmpty(path);
  }

  // Making parents.

  /** What has been made so far of the directories above a place. */
  ghost predicate MadeBeside(h: Option<Nodes>, t: Option<Nodes>, host: Nodes, root: Path)
  {
    && (h.Some? <==> t.Some?)
    && (h.Some? ==> Holds(h.value, t.value, host, root) && IsTree(t.value) && AllOpen(t.value))
  }

  lemma NewParentOpen(nodes: Nodes, path: Path, n: nat)
    requires AllOpen(nodes) && 0 < n <= |path|
    ensures AllOpen(nodes[path[..n] := NewParent(path, n)])
  {
  }

  lemma PrefixNormal(path: Path, n: nat)
    requires Paths.NormalComponents(path) && 0 < n <= |path|
    ensures Paths.NormalComponents(path[..n])
  {
    hide Paths.NormalComponent;
  }

  lemma PrefixLaid(nodes: Nodes, path: Path, n: nat)
    requires n <= |path| && forall j :: 0 < j < n ==> path[..j] in nodes && nodes[path[..j]].Dir?
    ensures Laid(nodes, path[..n])
  {
    assert forall j :: 0 < j < n ==> path[..n][..j] == path[..j];
  }

  /** Making one directory of the way, or finding it. */
  lemma OneParent(fs: Nodes, nodes: Nodes, host: Nodes, root: Path, path: Path, n: nat)
    requires Holds(fs, nodes, host, root) && IsTree(nodes) && AllOpen(nodes) && Paths.NormalComponents(path)
    requires 0 < n <= |path| && Laid(nodes, path[..n]) && !LeadsElsewhere(fs, root, path[..n])
    ensures MadeBeside(
              if Place(fs, root, path[..n]).Some? then Some(fs[Place(fs, root, path[..n]).value := NewParent(path, n)])
              else if LeadsToDirectory(fs, root, path[..n]) then Some(fs) else None,
              if path[..n] !in nodes then Some(nodes[path[..n] := NewParent(path, n)])
              else if nodes[path[..n]].Dir? then Some(nodes) else None, host, root)
    ensures path[..n] in nodes ==> Place(fs, root, path[..n]).None?
  {
    hide Holds, IsTree, AllOpen, Laid, Place, Leads, NewParent, Paths.NormalComponents;
    var here := path[..n];
    PrefixNormal(path, n);
    SpelledPlace(fs, nodes, host, root, here);
    if here !in nodes {
      PutInside(fs, nodes, host, root, here, NewParent(path, n));
      NewParentOpen(nodes, path, n);
      LaidPut(nodes, here, NewParent(path, n));
    } else if nodes[here].Link? {
      LinkIsThere(fs, nodes, host, root, here);
    } else {
      SpelledLeads(fs, nodes, host, root, here);
    }
  }

  lemma LaidPut(nodes: Nodes, path: Path, node: Node)
    requires IsTree(nodes) && path !in nodes && Laid(nodes, path)
    ensures IsTree(nodes[path := node])
  {
    hide IsTree, Keeps;
    PutNew(nodes, path, node);
  }

  /** Where a link is, no directory is. */
  lemma LinkIsThere(fs: Nodes, nodes: Nodes, host: Nodes, root: Path, path: Path)
    requires Holds(fs, nodes, host, root) && path != [] && path in nodes && nodes[path].Link?
    ensures !IsDirectory(fs, root + path)
  {
    InsideIs(fs, nodes, host, root);
    hide Inside, Holds;
    InsideAt(fs, root, path);
  }

  lemma {:induction false} LongerStays(nodes: Nodes, path: Path, n: nat, p: Path)
    requires n <= |path| && WithParents(nodes, path, n).Some? && |p| > n
    ensures p in WithParents(nodes, path, n).value <==> p in nodes
    ensures p in nodes ==> WithParents(nodes, path, n).value[p] == nodes[p]
  {
    hide NewParent;
    if n > 0 {
      LongerStays(nodes, path, n - 1, p);
    }
  }

  /** The directories made so far do not make a link lead elsewhere: where there is a link, none was made. */
  lemma NothingElsewhere(fs: Nodes, nodes: Nodes, h: Nodes, t: Nodes, host: Nodes, root: Path, path: Path, n: nat)
    requires 0 < n < |path| && Paths.NormalComponents(path) && !Through(fs, root, path) && IsTree(nodes)
    requires Holds(h, t, host, root) && AllOpen(t) && Laid(t, path[..n]) && WithParents(nodes, path, n - 1) == Some(t)
    requires n - 1 == 0 || path[..n - 1] in nodes ==> h == fs
    ensures !LeadsElsewhere(h, root, path[..n])
  {
    hide Holds, AllOpen, Laid, Leads, Paths.NormalComponents, WithParents, LeadsElsewhere;
    var here := path[..n];
    PrefixNormal(path, n);
    LongerStays(nodes, path, n - 1, here);
    if here in t && t[here].Link? {
      AboveIsThere(nodes, path, n);
    } else {
      SpelledLeads(h, t, host, root, here);
      NotElsewhere(h, root, here);
    }
  }

  lemma NotElsewhere(fs: Nodes, root: Path, path: Path)
    requires Leads(fs, root, path) == Some(root + path)
    ensures !LeadsElsewhere(fs, root, path)
  {
    hide Leads;
  }

  lemma AboveIsThere(nodes: Nodes, path: Path, n: nat)
    requires IsTree(nodes) && 0 < n <= |path| && path[..n] in nodes
    ensures n - 1 == 0 || path[..n - 1] in nodes
  {
    if n > 1 {
      assert path[..n][..n - 1] == path[..n - 1];
    }
  }

  /** As long as nothing on the way leads elsewhere, both passes make the same directories. */
  lemma {:induction false} ParentsBeside(fs: Nodes, nodes: Nodes, host: Nodes, root: Path, path: Path, n: nat)
    requires Holds(fs, nodes, host, root) && IsTree(nodes) && AllOpen(nodes) && Paths.NormalComponents(path)
    requires n < |path| && !Through(fs, root, path)
    ensures MadeBeside(Host.MakeParents(fs, root, path, n), WithParents(nodes, path, n), host, root)
    ensures WithParents(nodes, path, n).Some? ==>
              forall j :: 0 < j <= n ==>
                path[..j] in WithParents(nodes, path, n).value && WithParents(nodes, path, n).value[path[..j]].Dir?
    ensures WithParents(nodes, path, n).Some? && (n == 0 || path[..n] in nodes) ==>
              Host.MakeParents(fs, root, path, n) == Some(fs) && WithParents(nodes, path, n).value == nodes
  {
    hide Holds, AllOpen, IsTree, Place, LeadsToDirectory, Paths.NormalComponents, LeadsElsewhere;
    if n > 0 {
      ParentsBeside(fs, nodes, host, root, path, n - 1);
      var h, t := Host.MakeParents(fs, root, path, n - 1), WithParents(nodes, path, n - 1);
      if t.Some? {
        PrefixLaid(t.value, path, n);
        NothingElsewhere(fs, nodes, h.value, t.value, host, root, path, n);
        OneParent(h.value, t.value, host, root, path, n);
        LongerStays(nodes, path, n - 1, path[..n]);
        if path[..n] in nodes {
          AboveIsThere(nodes, path, n);
        }
        forall j | 0 < j < n
          ensures path[..j] != path[..n]
        {
          assert |path[..j]| == j;
        }
      }
    }
  }

  // Records.

  lemma FreshOpen(nodes: Nodes, a: Artifact)
    requires AllOpen(nodes)
    ensures AllOpen(nodes[a.components := Fresh(a)])
  {
  }

  lemma BothParents(fs: Nodes, nodes: Nodes, host: Nodes, root: Path, path: Path)
    requires Holds(fs, nodes, host, root) && IsTree(nodes) && AllOpen(nodes) && Paths.NormalComponents(path)
    requires !Through(fs, root, path)
    ensures MadeBeside(ParentsOf(fs, root, path), EnsureParent(nodes, path), host, root)
    ensures EnsureParent(nodes, path).Some? ==> Laid(EnsureParent(nodes, path).value, path)
  {
    hide Holds, IsTree, AllOpen, Through, Host.MakeParents, WithParents, MadeBeside, Paths.NormalComponents;
    NotEmpty(path);
    ParentsBeside(fs, nodes, host, root, path, |path| - 1);
  }

  /** The place of an artifact, after its parents. */
  lemma PutBeside(fs: Nodes, nodes: Nodes, host: Nodes, root: Path, a: Artifact)
    requires Holds(fs, nodes, host, root) && IsTree(nodes) && AllOpen(nodes) && Laid(nodes, a.components)
    requires Paths.NormalComponents(a.components)
    ensures Place(fs, root, a.components) == if a.components in nodes then None else Some(root + a.components)
    ensures a.components !in nodes ==>
              && Holds(fs[root + a.components := Fresh(a)], nodes[a.components := Fresh(a)], host, root)
              && IsTree(nodes[a.components := Fresh(a)]) && AllOpen(nodes[a.components := Fresh(a)])
  {
    hide Holds, IsTree, AllOpen, Laid, Place, Fresh, Paths.NormalComponents;
    SpelledPlace(fs, nodes, host, root, a.components);
    NotEmpty(a.components);
    if a.components !in nodes {
      PutInside(fs, nodes, host, root, a.components, Fresh(a));
      LaidPut(nodes, a.components, Fresh(a));
      FreshOpen(nodes, a);
    }
  }

  lemma BeginBeside(h: Build, b: Build, a: Artifact, host: Nodes, root: Path)
    requires Beside(h, b, host, root) && Paths.NormalComponents(a.components) && !Through(h.nodes, root, a.components)
    ensures HostBegin(h, a, root).Some? <==> BuildBegin(b, a).Some?
    ensures BuildBegin(b, a).Some? ==> Beside(HostBegin(h, a, root).value, BuildBegin(b, a).value, host, root)
  {
    hide Holds, IsTree, AllOpen, Laid, Place, Fresh, Through, ParentsOf, EnsureParent, Paths.NormalComponents;
    BothParents(h.nodes, b.nodes, host, root, a.components);
    if EnsureParent(b.nodes, a.components).Some? {
      PutBeside(ParentsOf(h.nodes, root, a.components).value, EnsureParent(b.nodes, a.components).value, host, root, a);
    }
  }

  /** The open file is the same one. */
  lemma OpenBeside(h: Build, b: Build, host: Nodes, root: Path)
    requires Beside(h, b, host, root) && b.open.Some?
    ensures b.open.value in b.nodes && b.nodes[b.open.value].File? <==>
            root + b.open.value in h.nodes && h.nodes[root + b.open.value].File?
    ensures b.open.value in b.nodes && b.nodes[b.open.value].File? ==>
              b.open.value != [] && h.nodes[root + b.open.value] == b.nodes[b.open.value]
  {
    RootStays(h.nodes, b.nodes, host, root);
    InsideIs(h.nodes, b.nodes, host, root);
    hide Inside, Holds, IsTree, AllOpen;
    NoEmptyInside(h.nodes, root);
    if b.open.value == [] {
      assert root + b.open.value == root;
    } else {
      InsideAt(h.nodes, root, b.open.value);
    }
  }

  lemma WriteBeside(h: Build, b: Build, file: Node, host: Nodes, root: Path)
    requires Beside(h, b, host, root) && b.open.Some? && file.File?
    requires b.open.value in b.nodes && b.nodes[b.open.value].File?
    ensures var p := b.open.value;
            && Holds(h.nodes[root + p := file], b.nodes[p := file], host, root)
            && IsTree(b.nodes[p := file]) && AllOpen(b.nodes[p := file])
  {
    OpenBeside(h, b, host, root);
    hide Holds, IsTree;
    PutInside(h.nodes, b.nodes, host, root, b.open.value, file);
    Rewritten(b.nodes, b.open.value, file);
  }

  lemma ChunkBeside(h: Build, b: Build, id: int, data: bytes, host: Nodes, root: Path)
    requires Beside(h, b, host, root)
    ensures BuildChunk(h, id, data).Some? <==> BuildChunk(b, id, data).Some?
    ensures BuildChunk(b, id, data).Some? ==> Beside(BuildChunk(h, id, data).value, BuildChunk(b, id, data).value, host,
                                                     root)
  {
    hide Holds, IsTree, AllOpen;
    if b.open.Some? {
      OpenBeside(h, b, host, root);
      if BuildChunk(b, id, data).Some? {
        var f := b.nodes[b.open.value];
        WriteBeside(h, b, File(f.content + data, f.mode), host, root);
      }
    }
  }

  lemma EndBeside(h: Build, b: Build, a: Artifact, special: bool, host: Nodes, root: Path)
    requires Beside(h, b, host, root)
    ensures BuildEnd(h, a, special).Some? <==> BuildEnd(b, a, special).Some?
    ensures BuildEnd(b, a, special).Some? ==> Beside(BuildEnd(h, a, special).value, BuildEnd(b, a, special).value, host,
                                                     root)
  {
    hide Holds, IsTree, AllOpen, Masked;
    if b.open.Some? {
      OpenBeside(h, b, host, root);
      if BuildEnd(b, a, special).Some? {
        WriteBeside(h, b, File(b.nodes[b.open.value].content, Masked(a.mode, special)), host, root);
      }
    }
  }

  /** Whether a record makes the pass go through a link. */
  predicate GoesThrough(h: Build, r: Record, artifacts: seq<Artifact>, root: Path)
  {
    r.ArtifactBegin? && 0 <= r.id < |artifacts| && Through(h.nodes, root, artifacts[r.id].components)
  }

  predicate AllNormal(artifacts: seq<Artifact>)
  {
    forall i :: 0 <= i < |artifacts| ==> Paths.NormalComponents(artifacts[i].components)
  }

  /** One record that does not: both passes do the same. */
  lemma StepBeside(h: Build, b: Build, r: Record, artifacts: seq<Artifact>, special: bool, host: Nodes, root: Path)
    requires Beside(h, b, host, root) && AllNormal(artifacts) && !GoesThrough(h, r, artifacts, root)
    ensures HostStep(h, r, artifacts, special, root).Some? <==> BuildStep(b, r, artifacts, special).Some?
    ensures BuildStep(b, r, artifacts, special).Some? ==>
              Beside(HostStep(h, r, artifacts, special, root).value, BuildStep(b, r, artifacts, special).value, host,
                     root)
  {
    hide Beside, HostBegin, BuildBegin, BuildChunk, BuildEnd, Through, Paths.NormalComponents;
    match r
    case ArtifactBegin(id, _, _, _, _, _, _) =>
      if 0 <= id < |artifacts| {
        BeginBeside(h, b, artifacts[id], host, root);
      }
    case ArtifactChunk(id, _, data) => ChunkBeside(h, b, id, data, host, root);
    case ArtifactEnd(id, _, _, _) =>
      if 0 <= id < |artifacts| {
        EndBeside(h, b, artifacts[id], special, host, root);
      }
    case _ =>
  }

  /** Whether the pass goes through a link at any record it reaches. */
  predicate EverThrough(h: Build, rs: seq<Record>, artifacts: seq<Artifact>, special: bool, root: Path)
    decreases |rs|
  {
    rs != []
    && (GoesThrough(h, rs[0], artifacts, root)
        || (HostStep(h, rs[0], artifacts, special, root).Some?
            && EverThrough(HostStep(h, rs[0], artifacts, special, root).value, rs[1..], artifacts, special, root)))
  }

  /** A pass that never goes through a link does what the pass by spelling does. */
  lemma {:induction false} RunBeside(h: Build, b: Build, rs: seq<Record>, artifacts: seq<Artifact>, special: bool,
                                     host: Nodes, root: Path)
    requires Beside(h, b, host, root) && AllNormal(artifacts) && !EverThrough(h, rs, artifacts, special, root)
    ensures HostRun(h, rs, artifacts, special, root).Some? <==> BuildRun(b, rs, artifacts, special).Some?
    ensures BuildRun(b, rs, artifacts, special).Some? ==>
              Beside(HostRun(h, rs, artifacts, special, root).value, BuildRun(b, rs, artifacts, special).value, host,
                     root)
    decreases |rs|
  {
    hide Beside, HostStep, BuildStep, GoesThrough, AllNormal;
    if rs != [] {
      StepBeside(h, b, rs[0], artifacts, special, host, root);
      var t := BuildStep(b, rs[0], artifacts, special);
      if t.Some? {
        RunBeside(HostStep(h, rs[0], artifacts, special, root).value, t.value, rs[1..], artifacts, special, host, root);
      }
    }
  }

  // Directory modes.

  lemma ModeBeside(fs: Nodes, nodes: Nodes, host: Nodes, root: Path, path: Path, mode: int)
    requires Holds(fs, nodes, host, root) && IsTree(nodes) && Paths.NormalComponents(path)
    requires ChangeMode(nodes, path, mode).Some?
    ensures var h, t := HostMode(fs, root, path, mode), ChangeMode(nodes, path, mode);
            h.Some? && Holds(h.value, t.value, host, root) && IsTree(t.value)
  {
    RootStays(fs, nodes, host, root);
    InsideIs(fs, nodes, host, root);
    OpenModes();
    NotEmpty(path);
    hide Inside, Holds, Passable, Walk, Paths.NormalComponents;
    forall j | 0 <= j < |path|
      ensures Searchable(fs, root + path[..j])
    {
      if j == 0 {
        assert root + path[..0] == root;
      } else {
        InsideAt(fs, root, path[..j]);
      }
    }
    InsideAt(fs, root, path);
    WalkDown(fs, root, path, 0, false, MOST_LINKS);
    assert root + path[..0] == root && path[0..] == path;
    PutInside(fs, nodes, host, root, path, Dir(mode));
  }

  /** Whatever modes can be set in the stage can be set on the file system. */
  lemma {:induction false} ModesBeside(fs: Nodes, nodes: Nodes, host: Nodes, root: Path, due: seq<(Path, int)>,
                                       special: bool)
    requires Holds(fs, nodes, host, root) && IsTree(nodes) && ChangeModes(nodes, due, special).Some?
    requires forall k :: 0 <= k < |due| ==> Paths.NormalComponents(due[k].0)
    ensures var h, t := HostModes(fs, root, due, special), ChangeModes(nodes, due, special);
            h.Some? && Holds(h.value, t.value, host, root)
    decreases |due|
  {
    hide Holds, IsTree, HostMode, ChangeMode, Masked, Paths.NormalComponents;
    if due != [] {
      var mode := Masked(due[0].1, special);
      ModeBeside(fs, nodes, host, root, due[0].0, mode);
      ModesBeside(HostMode(fs, root, due[0].0, mode).value, ChangeMode(nodes, due[0].0, mode).value, host, root,
                  due[1..], special);
    }
  }

  // The file system as a whole.

  lemma PlaceKeeps(fs: Nodes, root: Path, path: Path, node: Node)
    requires IsTree(fs) && Place(fs, root, path).Some?
    ensures var t := fs[Place(fs, root, path).value := node]; IsTree(t) && Keeps(fs, t)
  {
    hide Walk, Keeps;
    var p := Place(fs, root, path).value;
    forall k | 0 < k < |p|
      ensures p[..k] in fs && fs[p[..k]].Dir?
    {
      AboveDirectories(fs, p, k);
    }
    PutNew(fs, p, node);
  }

  lemma AboveDirectories(fs: Nodes, p: Path, k: nat)
    requires IsTree(fs) && IsDirectory(fs, Above(p)) && 0 < k < |p|
    ensures p[..k] in fs && fs[p[..k]].Dir?
  {
    assert p[..|p| - 1][..k] == p[..k];
  }

  lemma {:induction false} HostParentsKeep(fs: Nodes, root: Path, path: Path, n: nat)
    requires n <= |path| && IsTree(fs) && Host.MakeParents(fs, root, path, n).Some?
    ensures var t := Host.MakeParents(fs, root, path, n).value; IsTree(t) && Keeps(fs, t)
  {
    hide IsTree, Place, LeadsToDirectory, NewParent;
    if n > 0 {
      HostParentsKeep(fs, root, path, n - 1);
      var above := Host.MakeParents(fs, root, path, n - 1).value;
      if Place(above, root, path[..n]).Some? {
        PlaceKeeps(above, root, path[..n], NewParent(path, n));
      }
    }
  }

  lemma HostBeginKeeps(h: Build, a: Artifact, root: Path)
    requires IsTree(h.nodes) && HostBegin(h, a, root).Some?
    ensures var t := HostBegin(h, a, root).value.nodes; IsTree(t) && Keeps(h.nodes, t)
  {
    hide IsTree, Place, Host.MakeParents, Fresh;
    var path := a.components;
    if path != [] {
      HostParentsKeep(h.nodes, root, path, |path| - 1);
    }
    PlaceKeeps(ParentsOf(h.nodes, root, path).value, root, path, Fresh(a));
  }

  lemma HostStepKeeps(h: Build, r: Record, artifacts: seq<Artifact>, special: bool, root: Path)
    requires IsTree(h.nodes) && HostStep(h, r, artifacts, special, root).Some?
    ensures var t := HostStep(h, r, artifacts, special, root).value.nodes; IsTree(t) && Keeps(h.nodes, t)
  {
    hide IsTree, HostBegin, BuildStep;
    if r.ArtifactBegin? {
      HostBeginKeeps(h, artifacts[r.id], root);
    } else {
      StepKeeps(h, r, artifacts, special);
    }
  }

  /** Through links or not: the file system stays a tree, nothing goes away and directories remain directories. */
  lemma {:induction false} HostRunKeeps(h: Build, rs: seq<Record>, artifacts: seq<Artifact>, special: bool, root: Path)
    requires IsTree(h.nodes) && HostRun(h, rs, artifacts, special, root).Some?
    ensures var t := HostRun(h, rs, artifacts, special, root).value.nodes; IsTree(t) && Keeps(h.nodes, t)
    decreases |rs|
  {
    hide IsTree, HostStep;
    if rs != [] {
      HostStepKeeps(h, rs[0], artifacts, special, root);
      HostRunKeeps(HostStep(h, rs[0], artifacts, special, root).value, rs[1..], artifacts, special, root);
    }
  }

  lemma {:induction false} HostModesKeep(fs: Nodes, root: Path, due: seq<(Path, int)>, special: bool)
    requires IsTree(fs) && HostModes(fs, root, due, special).Some?
    ensures var t := HostModes(fs, root, due, special).value; IsTree(t) && Keeps(fs, t)
    decreases |due|
  {
    hide Walk, Masked;
    if due != [] {
      HostModesKeep(HostMode(fs, root, due[0].0, Masked(due[0].1, special)).value, root, due[1..], special);
    }
  }

  lemma StartIsTree(host: Nodes, root: Path)
    requires Vacant(host, root)
    ensures IsTree(WithStage(host, root))
  {
    hide Keeps;
    forall k | 0 < k < |root|
      ensures root[..k] in host && host[root[..k]].Dir?
    {
      AboveDirectories(host, root, k);
    }
    PutNew(host, root, Dir(PRIVATE_DIRECTORY));
  }

  lemma InsideIsTree(fs: Nodes, root: Path)
    requires IsTree(fs)
    ensures IsTree(Inside(fs, root))
  {
    hide Inside;
    NoEmptyInside(fs, root);
    forall p, k | p in Inside(fs, root) && 0 < k < |p|
      ensures p[..k] in Inside(fs, root) && Inside(fs, root)[p[..k]].Dir?
    {
      InsideAt(fs, root, p);
      InsideAt(fs, root, p[..k]);
      assert (root + p)[..|root| + k] == root + p[..k];
    }
  }
}
