/** The second pass over the groups of an extraction on a file system, candidate by candidate, also below a link. */
module Placing {
  import opened Artifacts
  import opened Bytes
  import opened Capture
  import opened Extraction
  import opened Host
  import opened HostStage
  import opened Lexical
  import opened Production
  import opened Records
  import opened Validation
  import Agreement
  import Delivery
  import EndToEnd
  import Paths
  import RoundTrip
  import Session
  import Sha256Spec

  // The pass over the groups.

  lemma {:induction false} HostAppend(h: Build, left: seq<Record>, right: seq<Record>, artifacts: seq<Artifact>,
                                      special: bool, root: Path)
    ensures HostRun(h, left + right, artifacts, special, root) ==
            if HostRun(h, left, artifacts, special, root).None? then None
            else HostRun(HostRun(h, left, artifacts, special, root).value, right, artifacts, special, root)
    decreases |left|
  {
    hide HostStep;
    if left == [] {
      assert left + right == right;
    } else {
      assert (left + right)[1..] == left[1..] + right;
      var t := HostStep(h, left[0], artifacts, special, root);
      if t.Some? {
        HostAppend(t.value, left[1..], right, artifacts, special, root);
      }
    }
  }

  lemma {:induction false} HostPlain(h: Build, rs: seq<Record>, artifacts: seq<Artifact>, special: bool, root: Path)
    requires forall i :: 0 <= i < |rs| ==> !rs[i].ArtifactBegin? && !rs[i].ArtifactChunk? && !rs[i].ArtifactEnd?
    ensures HostRun(h, rs, artifacts, special, root) == Some(h)
    decreases |rs|
  {
    if rs != [] {
      EndToEnd.PlainBuildStep(h, rs[0], artifacts, special);
      hide BuildStep;
      HostPlain(h, rs[1..], artifacts, special, root);
    }
  }

  lemma DiagnosticsPlain(rs: seq<Record>)
    requires Delivery.AllDiagnostics(rs)
    ensures forall i :: 0 <= i < |rs| ==> !rs[i].ArtifactBegin? && !rs[i].ArtifactChunk? && !rs[i].ArtifactEnd?
  {
  }

  lemma OnlyGroupsPlace(h: Build, header: Record, c: seq<Record>, g: seq<Record>, p: seq<Record>, footer: Record,
                        artifacts: seq<Artifact>, special: bool, root: Path)
    requires header.Header? && footer.Footer? && Delivery.AllPlain(c) && Delivery.AllDiagnostics(p)
    ensures HostRun(h, [header] + (c + (g + p)) + [footer], artifacts, special, root) ==
            HostRun(h, g, artifacts, special, root)
  {
    EndToEnd.AllPlainRecords(c);
    DiagnosticsPlain(p);
    hide HostRun, HostStep, Delivery.AllPlain, Delivery.AllDiagnostics;
    HostAppend(h, [header] + (c + (g + p)), [footer], artifacts, special, root);
    HostAppend(h, [header], c + (g + p), artifacts, special, root);
    HostAppend(h, c, g + p, artifacts, special, root);
    HostAppend(h, g, p, artifacts, special, root);
    HostPlain(h, [header], artifacts, special, root);
    HostPlain(h, c, artifacts, special, root);
    var t := HostRun(h, g, artifacts, special, root);
    if t.Some? {
      HostPlain(t.value, p, artifacts, special, root);
      HostPlain(t.value, [footer], artifacts, special, root);
    }
  }

  /** The pass over the lines of an extraction is the pass over its groups. */
  lemma LinesPlace(h: Build, lines: seq<Line>, counts: map<RecordType, int>, m: ModuleFacts, chunkSize: nat,
                   fault: Option<Session.Fault>, f: Findings, artifacts: seq<Artifact>, special: bool, root: Path)
    requires EndToEnd.Captures(lines, counts, m, chunkSize, fault, f)
    ensures HostRun(h, RecordsOf(lines), artifacts, special, root) ==
            HostRun(h, GroupsRecords(f.candidates, m.world, |f.candidates|), artifacts, special, root)
  {
    hide *;
    var cs := f.candidates;
    EndToEnd.CaptureParts(lines, counts, m, chunkSize, fault, f);
    EndToEnd.AcceptableParts(m, chunkSize, fault, f);
    EndToEnd.PossibleParts(m, chunkSize, fault, f);
    Agreement.WholeParts(m, chunkSize, fault, f);
    EndToEnd.BodyPlain(m, f, chunkSize);
    EndToEnd.ReportsParts(lines, HeaderOf(chunkSize), BodyOf(Some(m), chunkSize, Whole(f)),
                          TotalsOf(Some(m), chunkSize, fault, Whole(f)), ArtifactTotals(Some(m), chunkSize, Whole(f)),
                          counts);
    EndToEnd.RecordsLast(lines);
    EndToEnd.ArtifactParts(cs, m.world, chunkSize);
    EndToEnd.HeaderIs(chunkSize);
    OnlyGroupsPlace(h, HeaderOf(chunkSize), CountedPart(Some(m), f), GroupsRecords(cs, m.world, |cs|),
                    Problems(cs, m.world, |cs|), lines[|lines| - 1].record, artifacts, special, root);
  }

  // Directories and links, each below directories that come before it.

  /** The first `n` candidates are captured directories and links, and all that is above one is a directory before
      it. */
  predicate Rooted(cs: seq<Candidate>, world: World, n: nat)
    requires n <= |cs|
  {
    && (forall i :: 0 <= i < n ==> Captured(world(cs[i])) && !world(cs[i]).FileSeen?)
    && (forall i :: 0 <= i < |cs| ==> Paths.NormalComponents(cs[i].components))
    && (forall i, j :: 0 <= i < j < |cs| ==> cs[i].components != cs[j].components)
    && forall i, k :: 0 <= i < n && 0 < k < |cs[i].components| ==> DirectoryAt(cs, world, i, cs[i].components[..k])
  }

  predicate DirectoryAt(cs: seq<Candidate>, world: World, n: nat, p: Path)
    requires n <= |cs|
  {
    exists j :: 0 <= j < n && cs[j].components == p && world(cs[j]).DirectorySeen?
  }

  /** The stage holds the first `n` candidates and nothing else. */
  ghost predicate HoldsFirst(nodes: Nodes, cs: seq<Candidate>, world: World, n: nat, special: bool)
    requires n <= |cs|
  {
    && (forall p :: p in nodes <==> exists i :: 0 <= i < n && cs[i].components == p)
    && forall i ::
         0 <= i < n && Captured(world(cs[i])) ==> nodes[cs[i].components] == RoundTrip.Staged(world(cs[i]), special)
  }

  lemma AllCounted(cs: seq<Candidate>, world: World, n: nat)
    requires n <= |cs| && forall i :: 0 <= i < n ==> Captured(world(cs[i]))
    ensures CapturedCount(cs, world, n) == n
  {
    hide Captured;
    if n > 0 {
      AllCounted(cs, world, n - 1);
    }
  }

  lemma {:induction false} LaidParents(nodes: Nodes, path: Path, n: nat)
    requires n < |path| && Laid(nodes, path)
    ensures WithParents(nodes, path, n) == Some(nodes)
  {
    hide NewParent;
    if n > 0 {
      LaidParents(nodes, path, n - 1);
    }
  }

  /** Below directories nothing leads elsewhere. */
  lemma LaidNotThrough(fs: Nodes, nodes: Nodes, host: Nodes, root: Path, path: Path)
    requires Holds(fs, nodes, host, root) && AllOpen(nodes) && Laid(nodes, path) && Paths.NormalComponents(path)
    ensures !Through(fs, root, path)
  {
    hide Holds, AllOpen, Leads, Paths.NormalComponents, LeadsElsewhere;
    forall n | 0 < n < |path|
      ensures !LeadsElsewhere(fs, root, path[..n])
    {
      PrefixNormal(path, n);
      PrefixLaid(nodes, path, n);
      SpelledLeads(fs, nodes, host, root, path[..n]);
      NotElsewhere(fs, root, path[..n]);
    }
  }

  lemma LastRecord(h: Build, r: Record, artifacts: seq<Artifact>, special: bool, root: Path)
    requires !r.ArtifactBegin?
    ensures !EverThrough(h, [r], artifacts, special, root)
  {
    hide HostStep;
    assert [r][1..] == [];
  }

  lemma TwoRecords(h: Build, first: Record, second: Record, artifacts: seq<Artifact>, special: bool, root: Path)
    requires !second.ArtifactBegin? && !GoesThrough(h, first, artifacts, root)
    ensures !EverThrough(h, [first] + [second], artifacts, special, root)
  {
    hide HostStep, GoesThrough;
    var rs := [first] + [second];
    assert rs[0] == first && rs[1..] == [second];
    var t := HostStep(h, first, artifacts, special, root);
    if t.Some? {
      LastRecord(t.value, second, artifacts, special, root);
    }
  }

  lemma PairNotThrough(h: Build, c: Candidate, o: Observation, id: nat, artifacts: seq<Artifact>, special: bool,
                       root: Path)
    requires Captured(o) && !o.FileSeen? && id < |artifacts| && artifacts[id].components == c.components
    requires !Through(h.nodes, root, c.components)
    ensures !EverThrough(h, GroupRecords(c, o, id), artifacts, special, root)
  {
    PairIsGroup(c, o, id);
    PairKinds(c, o, id);
    hide Through, EverThrough, GroupRecords, BeginOf, EndOf, Captured;
    TwoRecords(h, BeginOf(c, o, id), EndOf(o, id), artifacts, special, root);
  }

  lemma PairKinds(c: Candidate, o: Observation, id: nat)
    requires Captured(o)
    ensures BeginOf(c, o, id).ArtifactBegin? && BeginOf(c, o, id).id == id
    ensures EndOf(o, id).ArtifactEnd? && EndOf(o, id).id == id
  {
    hide PathOf, ContentOf, Sha256Spec.Sha256Hex;
  }

  lemma PairBySpelling(b: Build, c: Candidate, o: Observation, id: nat, artifacts: seq<Artifact>, special: bool)
    requires b.open.None? && Captured(o) && !o.FileSeen? && id < |artifacts| && artifacts[id] == ArtifactOf(c, o, id)
    requires c.components != [] && Laid(b.nodes, c.components) && c.components !in b.nodes
    ensures var u := BuildRun(b, GroupRecords(c, o, id), artifacts, special);
            && u.Some? && u.value.open.None? && u.value.directories == b.directories + RoundTrip.DueFor(c, o)
            && u.value.nodes == b.nodes[c.components := RoundTrip.Staged(o, special)]
  {
    hide BuildRun, GroupRecords, ArtifactOf, Captured, Laid, RoundTrip.Staged, WithParents, RoundTrip.DueFor;
    LaidParents(b.nodes, c.components, |c.components| - 1);
    RoundTrip.PairBuilds(b, c, o, id, artifacts, special);
  }

  /** One more directory or link. */
  lemma PairPlaced(h: Build, b: Build, c: Candidate, o: Observation, id: nat, artifacts: seq<Artifact>, special: bool,
                   host: Nodes, root: Path)
    requires Beside(h, b, host, root) && b.open.None? && Captured(o) && !o.FileSeen? && AllNormal(artifacts)
    requires id < |artifacts| && artifacts[id] == ArtifactOf(c, o, id) && Paths.NormalComponents(c.components)
    requires Laid(b.nodes, c.components) && c.components !in b.nodes
    ensures var t, u := HostRun(h, GroupRecords(c, o, id), artifacts, special, root),
                        BuildRun(b, GroupRecords(c, o, id), artifacts, special);
            && t.Some? && u.Some? && Beside(t.value, u.value, host, root) && u.value.open.None?
            && u.value.directories == b.directories + RoundTrip.DueFor(c, o)
            && u.value.nodes == b.nodes[c.components := RoundTrip.Staged(o, special)]
  {
    hide *;
    EndToEnd.ArtifactKind(c, o, id);
    BesideHolds(h, b, host, root);
    NotEmpty(c.components);
    LaidNotThrough(h.nodes, b.nodes, host, root, c.components);
    PairNotThrough(h, c, o, id, artifacts, special, root);
    PairBySpelling(b, c, o, id, artifacts, special);
    RunBeside(h, b, GroupRecords(c, o, id), artifacts, special, host, root);
  }

  lemma BesideHolds(h: Build, b: Build, host: Nodes, root: Path)
    requires Beside(h, b, host, root)
    ensures Holds(h.nodes, b.nodes, host, root) && IsTree(b.nodes) && AllOpen(b.nodes)
  {
    hide Holds, IsTree, AllOpen;
  }

  lemma RootedLaid(nodes: Nodes, cs: seq<Candidate>, world: World, n: nat, special: bool)
    requires n < |cs| && HoldsFirst(nodes, cs, world, n, special) && Rooted(cs, world, n + 1)
    ensures Laid(nodes, cs[n].components) && cs[n].components !in nodes
  {
    hide Paths.NormalComponents;
    forall k | 0 < k < |cs[n].components|
      ensures cs[n].components[..k] in nodes && nodes[cs[n].components[..k]].Dir?
    {
      assert DirectoryAt(cs, world, n, cs[n].components[..k]);
    }
  }

  lemma RootedTake(cs: seq<Candidate>, world: World, n: nat)
    requires n < |cs| && Rooted(cs, world, n + 1)
    ensures Rooted(cs, world, n) && Captured(world(cs[n])) && !world(cs[n]).FileSeen?
    ensures forall i :: 0 <= i < n ==> Captured(world(cs[i]))
    ensures Paths.NormalComponents(cs[n].components)
  {
    hide Paths.NormalComponents, Captured;
  }

  lemma ArtifactsNormal(cs: seq<Candidate>, world: World)
    requires Rooted(cs, world, 0)
    ensures AllNormal(ArtifactsOf(cs, world, |cs|))
  {
    hide Paths.NormalComponents, Captured, ArtifactOf, ArtifactsOf;
    var all := ArtifactsOf(cs, world, |cs|);
    forall k | 0 <= k < |all|
      ensures Paths.NormalComponents(all[k].components)
    {
      var i := EndToEnd.OfCandidate(cs, world, |cs|, k);
      EndToEnd.ArtifactKind(cs[i], world(cs[i]), k);
    }
  }

  lemma HoldsNext(nodes: Nodes, cs: seq<Candidate>, world: World, n: nat, special: bool)
    requires n < |cs| && HoldsFirst(nodes, cs, world, n, special) && Captured(world(cs[n]))
    requires forall i, j :: 0 <= i < j < |cs| ==> cs[i].components != cs[j].components
    ensures HoldsFirst(nodes[cs[n].components := RoundTrip.Staged(world(cs[n]), special)], cs, world, n + 1, special)
  {
    hide Captured, RoundTrip.Staged;
  }

  lemma RootedStart(cs: seq<Candidate>, world: World, n: nat)
    requires n <= |cs| && Rooted(cs, world, n)
    ensures Rooted(cs, world, 0)
    ensures forall i, j :: 0 <= i < j < |cs| ==> cs[i].components != cs[j].components
  {
    hide Paths.NormalComponents, Captured;
  }

  /** Up to there the pass puts every candidate where it is spelled. */
  lemma {:induction false} RootedPlaced(cs: seq<Candidate>, world: World, n: nat, special: bool, host: Nodes,
                                        root: Path)
    returns (b: Build)
    requires n <= |cs| && Rooted(cs, world, n) && Vacant(host, root)
    ensures var t := HostRun(StartOn(host, root), GroupsRecords(cs, world, n), ArtifactsOf(cs, world, |cs|), special,
                             root);
            t.Some? && Beside(t.value, b, host, root)
    ensures b.open.None? && HoldsFirst(b.nodes, cs, world, n, special)
    ensures b.directories == RoundTrip.Due(cs, world, n)
  {
    hide RoundTrip.DueFor, HostRun, BuildRun, GroupRecords, ArtifactsOf, ArtifactOf, CapturedCount, Captured, Beside,
      AllNormal, RoundTrip.Staged, Rooted, Laid, Vacant, WithStage, HoldsFirst, Paths.NormalComponents;
    var artifacts := ArtifactsOf(cs, world, |cs|);
    if n == 0 {
      b := EMPTY_STAGE;
      Begins(host, root);
      NothingPlaced(cs, world, artifacts, special, host, root);
    } else {
      var c, o := cs[n - 1], world(cs[n - 1]);
      RootedTake(cs, world, n - 1);
      var before := RootedPlaced(cs, world, n - 1, special, host, root);
      RootedStart(cs, world, n);
      AllCounted(cs, world, n - 1);
      RoundTrip.ArtifactAt(cs, world, n - 1, |cs|);
      ArtifactsNormal(cs, world);
      RootedLaid(before.nodes, cs, world, n - 1, special);
      var h := HostRun(StartOn(host, root), GroupsRecords(cs, world, n - 1), artifacts, special, root).value;
      PairPlaced(h, before, c, o, n - 1, artifacts, special, host, root);
      HostAppend(StartOn(host, root), GroupsRecords(cs, world, n - 1), GroupRecords(c, o, n - 1), artifacts, special,
                 root);
      HoldsNext(before.nodes, cs, world, n - 1, special);
      b := BuildRun(before, GroupRecords(c, o, n - 1), artifacts, special).value;
    }
  }

  lemma NothingPlaced(cs: seq<Candidate>, world: World, artifacts: seq<Artifact>, special: bool, host: Nodes,
                      root: Path)
    ensures HostRun(StartOn(host, root), GroupsRecords(cs, world, 0), artifacts, special, root) ==
            Some(StartOn(host, root))
    ensures HoldsFirst(map[], cs, world, 0, special)
  {
  }

  // A file below a link.

  /** Down a row of directories, and on. */
  lemma {:induction false} WalkInto(fs: Nodes, root: Path, path: Path, k: nat, rest: seq<bytes>, last: bool, links: nat)
    requires Paths.NormalComponents(path) && k <= |path|
    requires forall j :: k <= j <= |path| ==> Searchable(fs, root + path[..j])
    ensures Walk(fs, root + path[..k], path[k..] + rest, last, links) == Walk(fs, root + path, rest, last, links)
    decreases |path| - k
  {
    hide Searchable, Paths.NormalComponents;
    if k == |path| {
      assert path[..k] == path && path[k..] + rest == rest;
    } else {
      var parts := path[k..] + rest;
      NormalAt(path, k);
      assert parts[0] == path[k] && parts[1..] == path[k + 1..] + rest;
      assert root + path[..k] + [path[k]] == root + path[..k + 1];
      SearchableIs(fs, root + path[..k + 1]);
      WalkInto(fs, root, path, k + 1, rest, last, links);
    }
  }

  lemma LinkAt(fs: Nodes, nodes: Nodes, host: Nodes, root: Path, path: Path)
    requires Holds(fs, nodes, host, root) && path in nodes && path != []
    ensures root + path in fs && fs[root + path] == nodes[path]
  {
    InsideIs(fs, nodes, host, root);
    hide Inside, Holds;
    InsideAt(fs, root, path);
  }

  lemma WayOpen(fs: Nodes, nodes: Nodes, host: Nodes, root: Path, d: Path, name: bytes)
    requires Holds(fs, nodes, host, root) && AllOpen(nodes) && Laid(nodes, d + [name])
    ensures forall j :: 0 <= j <= |d| ==> Searchable(fs, root + d[..j])
  {
    hide Holds, AllOpen, Laid, Searchable;
    forall j | 0 <= j <= |d|
      ensures Searchable(fs, root + d[..j])
    {
      DirectoriesOpen(fs, nodes, host, root, d + [name], j);
      assert (d + [name])[..j] == d[..j];
    }
  }

  lemma FollowedHere(fs: Nodes, d: Path, name: bytes, target: bytes, rest: seq<bytes>, last: bool, links: nat)
    requires Searchable(fs, d) && Paths.NormalComponent(name) && d + [name] in fs && fs[d + [name]] == Link(target)
    requires target != [] && target[0] != Paths.SEPARATOR && links > 0 && (rest != [] || last)
    ensures Walk(fs, d, [name] + rest, last, links) == Walk(fs, d, Paths.Split(target) + rest, last, links - 1)
  {
    hide Searchable, Paths.Split;
    var parts := [name] + rest;
    assert parts[0] == name && parts[1..] == rest;
  }

  /** A link at its place, followed. */
  lemma WalkLink(fs: Nodes, nodes: Nodes, host: Nodes, root: Path, d: Path, name: bytes, rest: seq<bytes>, last: bool)
    requires Holds(fs, nodes, host, root) && AllOpen(nodes) && Paths.NormalComponents(d + [name])
    requires Laid(nodes, d + [name]) && d + [name] in nodes && nodes[d + [name]].Link? && (rest != [] || last)
    requires nodes[d + [name]].target != [] && nodes[d + [name]].target[0] != Paths.SEPARATOR
    ensures Walk(fs, root, d + [name] + rest, last, MOST_LINKS) ==
            Walk(fs, root + d, Paths.Split(nodes[d + [name]].target) + rest, last, MOST_LINKS - 1)
  {
    var path := d + [name];
    NormalLast(d, name);
    hide Holds, AllOpen, Laid, Searchable, Paths.NormalComponents, Paths.NormalComponent, Paths.Split, Walk;
    LinkAt(fs, nodes, host, root, path);
    WayOpen(fs, nodes, host, root, d, name);
    assert path[..|d|] == d && d[..|d|] == d && root + d[..0] == root;
    assert d[0..] + ([name] + rest) == path + rest && root + d + [name] == root + path;
    WalkSame(fs, root, d, [name] + rest, last, path);
    FollowedHere(fs, root + d, name, nodes[path].target, rest, last, MOST_LINKS);
  }

  lemma NormalLast(d: Path, name: bytes)
    requires Paths.NormalComponents(d + [name])
    ensures Paths.NormalComponent(name)
  {
    assert (d + [name])[|d|] == name;
  }

  lemma WalkSame(fs: Nodes, root: Path, d: Path, rest: seq<bytes>, last: bool, path: Path)
    requires Paths.NormalComponents(path) && |d| + 1 == |path| && path[..|d|] == d
    requires forall j :: 0 <= j <= |d| ==> Searchable(fs, root + d[..j])
    ensures Walk(fs, root + d[..0], d[0..] + rest, last, MOST_LINKS) == Walk(fs, root + d, rest, last, MOST_LINKS)
  {
    hide Searchable, Walk, Paths.NormalComponents;
    if d == [] {
      assert d[..0] == d && d[0..] + rest == rest;
    } else {
      PrefixNormal(path, |d|);
      WalkInto(fs, root, d, 0, rest, last, MOST_LINKS);
    }
  }

  /** Above something below a link nothing has to be made, if the link leads to a directory. */
  lemma {:induction false} ParentsThere(fs: Nodes, nodes: Nodes, host: Nodes, root: Path, path: Path, n: nat)
    requires Holds(fs, nodes, host, root) && AllOpen(nodes) && n < |path| && Paths.NormalComponents(path)
    requires forall j :: 0 < j < |path| - 1 ==> path[..j] in nodes && nodes[path[..j]].Dir?
    requires path[..|path| - 1] in nodes && LeadsToDirectory(fs, root, path[..|path| - 1])
    ensures Host.MakeParents(fs, root, path, n) == Some(fs)
  {
    hide Holds, AllOpen, Host.Place, LeadsToDirectory, NewParent, Paths.NormalComponents;
    if n > 0 {
      ParentsThere(fs, nodes, host, root, path, n - 1);
      PrefixNormal(path, n);
      PrefixLaid(nodes, path, n);
      SpelledPlace(fs, nodes, host, root, path[..n]);
      if n < |path| - 1 {
        SpelledLeads(fs, nodes, host, root, path[..n]);
      }
    }
  }

  lemma BeginsElsewhere(h: Build, b: Build, a: Artifact, host: Nodes, root: Path, p: Path)
    requires Beside(h, b, host, root) && a.components != [] && Paths.NormalComponents(a.components)
             && a.fileType == Regular
    requires forall j :: 0 < j < |a.components| - 1 ==>
                           a.components[..j] in b.nodes && b.nodes[a.components[..j]].Dir?
    requires a.components[..|a.components| - 1] in b.nodes
    requires LeadsToDirectory(h.nodes, root, a.components[..|a.components| - 1])
    requires Host.Place(h.nodes, root, a.components) == Some(p)
    ensures HostBegin(h, a, root) == Some(Build(h.nodes[p := File([], PRIVATE_FILE)], Some(p), Some(a.id),
                                                h.directories))
  {
    BesideHolds(h, b, host, root);
    hide Beside, Holds, AllOpen, Host.Place, LeadsToDirectory, Host.MakeParents, Paths.NormalComponents;
    ParentsThere(h.nodes, b.nodes, host, root, a.components, |a.components| - 1);
  }

  lemma EmptyFileGroup(c: Candidate, o: Observation, id: nat)
    requires Captured(o) && o.FileSeen? && ChunksOf(o) == []
    ensures GroupRecords(c, o, id) == [BeginOf(c, o, id)] + [EndOf(o, id)]
  {
    GroupParts(c, o, id);
    hide BeginOf, EndOf, GroupRecords, ReadData;
    assert ChunkRecords(id, []) + [EndOf(o, id)] == [EndOf(o, id)];
  }

  lemma HostOne(h: Build, r: Record, artifacts: seq<Artifact>, special: bool, root: Path)
    ensures HostRun(h, [r], artifacts, special, root) == HostStep(h, r, artifacts, special, root)
  {
    hide HostStep;
    assert [r][1..] == [];
  }

  lemma FileEnds(t: Build, p: Path, r: Record, artifacts: seq<Artifact>, special: bool, root: Path)
    requires r.ArtifactEnd? && 0 <= r.id < |artifacts| && t.open == Some(p) && p in t.nodes
             && t.nodes[p] == File([], PRIVATE_FILE)
    ensures var u := HostStep(t, r, artifacts, special, root);
            && u.Some? && u.value.nodes == t.nodes[p := File([], Masked(artifacts[r.id].mode, special))]
            && u.value.directories == t.directories
  {
    hide Masked;
  }

  /** An empty file below a link: it ends up where the way through the link leads. */
  lemma FileBelowLink(h: Build, b: Build, c: Candidate, o: Observation, id: nat, artifacts: seq<Artifact>,
                      special: bool, host: Nodes, root: Path, p: Path)
    requires Beside(h, b, host, root) && c.components != [] && Paths.NormalComponents(c.components)
    requires Captured(o) && o.FileSeen? && ChunksOf(o) == [] && id < |artifacts|
             && artifacts[id] == ArtifactOf(c, o, id)
    requires forall j :: 0 < j < |c.components| - 1 ==>
                           c.components[..j] in b.nodes && b.nodes[c.components[..j]].Dir?
    requires c.components[..|c.components| - 1] in b.nodes
    requires LeadsToDirectory(h.nodes, root, c.components[..|c.components| - 1])
    requires Host.Place(h.nodes, root, c.components) == Some(p)
    ensures var t := HostRun(h, GroupRecords(c, o, id), artifacts, special, root);
            && t.Some? && t.value.nodes == h.nodes[p := File([], Masked(artifacts[id].mode, special))]
            && t.value.directories == h.directories
  {
    hide *;
    FileKind(c, o, id);
    PairKinds(c, o, id);
    EmptyFileGroup(c, o, id);
    BeginsElsewhere(h, b, artifacts[id], host, root, p);
    PairRun(h, BeginOf(c, o, id), EndOf(o, id), artifacts, special, root);
    BeginStepIs(h, BeginOf(c, o, id), artifacts, special, root);
    FileEnds(HostBegin(h, artifacts[id], root).value, p, EndOf(o, id), artifacts, special, root);
  }

  lemma FileKind(c: Candidate, o: Observation, id: nat)
    requires Captured(o) && o.FileSeen?
    ensures var a := ArtifactOf(c, o, id); a.components == c.components && a.id == id && a.fileType == Regular
  {
    hide PathOf, ContentOf, Sha256Spec.Sha256Hex;
  }

  lemma PairRun(h: Build, first: Record, second: Record, artifacts: seq<Artifact>, special: bool, root: Path)
    ensures HostRun(h, [first] + [second], artifacts, special, root) ==
            if HostStep(h, first, artifacts, special, root).None? then None
            else HostStep(HostStep(h, first, artifacts, special, root).value, second, artifacts, special, root)
  {
    hide HostRun, HostStep;
    HostAppend(h, [first], [second], artifacts, special, root);
    HostOne(h, first, artifacts, special, root);
    var t := HostStep(h, first, artifacts, special, root);
    if t.Some? {
      HostOne(t.value, second, artifacts, special, root);
    }
  }

  lemma BeginStepIs(h: Build, r: Record, artifacts: seq<Artifact>, special: bool, root: Path)
    requires r.ArtifactBegin? && 0 <= r.id < |artifacts|
    ensures HostStep(h, r, artifacts, special, root) == HostBegin(h, artifacts[r.id], root)
  {
    hide HostBegin;
  }

  // The modes of directories that are where they are spelled.

  /** Where the modes are due there are directories, and so there are above. */
  ghost predicate DueSpelled(fs: Nodes, root: Path, due: seq<(Path, int)>)
  {
    forall i :: 0 <= i < |due| ==> WaySpelled(fs, root, due[i].0)
  }

  ghost predicate WaySpelled(fs: Nodes, root: Path, p: Path)
  {
    && Paths.NormalComponents(p) && p != [] && root + p in fs && fs[root + p].Dir?
    && forall k :: 0 <= k < |p| ==> Searchable(fs, root + p[..k])
  }

  lemma ModeSet(fs: Nodes, root: Path, p: Path, mode: int)
    requires WaySpelled(fs, root, p)
    ensures HostMode(fs, root, p, mode) == Some(fs[root + p := Dir(mode)])
  {
    var n := |p| - 1;
    var d, name := p[..n], p[n];
    assert p == d + [name];
    assert forall k :: 0 <= k <= n ==> d[..k] == p[..k];
    NormalLast(d, name);
    hide Searchable, Walk, Paths.NormalComponent, Paths.NormalComponents;
    WalkSame(fs, root, d, [name], false, p);
    assert root + d[..0] == root && d[0..] + [name] == p && root + d + [name] == root + p;
    assert Searchable(fs, root + d);
    LastStep(fs, root + d, name);
  }

  lemma LastStep(fs: Nodes, d: Path, name: bytes)
    requires Searchable(fs, d) && Paths.NormalComponent(name) && d + [name] in fs && fs[d + [name]].Dir?
    ensures Walk(fs, d, [name], false, MOST_LINKS) == Some(d + [name])
  {
    hide Searchable;
  }

  /** A mode set deeper down leaves a way open. */
  lemma WayLeft(fs: Nodes, root: Path, p: Path, q: Path, mode: int)
    requires WaySpelled(fs, root, p) && |p| <= |q|
    ensures WaySpelled(fs[root + q := Dir(mode)], root, p)
  {
    hide Passable, Paths.NormalComponents;
    var t := fs[root + q := Dir(mode)];
    forall k | 0 <= k < |p|
      ensures Searchable(t, root + p[..k])
    {
      assert |root + p[..k]| < |root + q|;
      assert Searchable(fs, root + p[..k]);
    }
  }

  /** Deepest first the modes of such directories can all be set, and nothing else changes. */
  lemma {:induction false} ModesSet(fs: Nodes, root: Path, due: seq<(Path, int)>, special: bool)
    requires DeepestFirst(due) && DueSpelled(fs, root, due)
    ensures var t := HostModes(fs, root, due, special);
            && t.Some? && (forall q :: q in t.value <==> q in fs)
            && forall q :: q in fs && !fs[q].Dir? ==> t.value[q] == fs[q]
    decreases |due|
  {
    hide WaySpelled, HostMode, Masked;
    if due != [] {
      var p, mode := due[0].0, Masked(due[0].1, special);
      ModeSet(fs, root, p, mode);
      var next := fs[root + p := Dir(mode)];
      forall i | 0 <= i < |due[1..]|
        ensures WaySpelled(next, root, due[1..][i].0)
      {
        assert WaySpelled(fs, root, due[i + 1].0);
        WayLeft(fs, root, due[i + 1].0, p, mode);
      }
      SpelledHere(fs, root, p);
      ModesSet(next, root, due[1..], special);
    }
  }

  lemma SpelledHere(fs: Nodes, root: Path, p: Path)
    requires WaySpelled(fs, root, p)
    ensures root + p in fs && fs[root + p].Dir?
  {
    hide Searchable, Paths.NormalComponents;
  }

  lemma DirectoryStaged(nodes: Nodes, cs: seq<Candidate>, world: World, n: nat, special: bool, i: nat)
    requires n <= |cs| && HoldsFirst(nodes, cs, world, n, special) && i < n && world(cs[i]).DirectorySeen?
    ensures cs[i].components in nodes && nodes[cs[i].components].Dir?
  {
  }

  lemma DirectoryLaid(nodes: Nodes, cs: seq<Candidate>, world: World, n: nat, special: bool, i: nat)
    requires n <= |cs| && Rooted(cs, world, n) && HoldsFirst(nodes, cs, world, n, special) && i < n
    ensures Paths.NormalComponents(cs[i].components) && Laid(nodes, cs[i].components)
  {
    hide Paths.NormalComponents, HoldsFirst, Captured;
    var p := cs[i].components;
    forall k | 0 < k < |p|
      ensures p[..k] in nodes && nodes[p[..k]].Dir?
    {
      assert DirectoryAt(cs, world, i, p[..k]);
      var j :| 0 <= j < i && cs[j].components == p[..k] && world(cs[j]).DirectorySeen?;
      DirectoryStaged(nodes, cs, world, n, special, j);
    }
  }

  lemma DueInPlace(fs: Nodes, nodes: Nodes, cs: seq<Candidate>, world: World, n: nat, special: bool, host: Nodes,
                   root: Path, d: (Path, int))
    requires n <= |cs| && Rooted(cs, world, n) && HoldsFirst(nodes, cs, world, n, special)
    requires Holds(fs, nodes, host, root) && AllOpen(nodes) && d in RoundTrip.Due(cs, world, n)
    ensures WaySpelled(fs, root, d.0)
  {
    RoundTrip.DueIs(cs, world, n, d);
    hide Holds, AllOpen, Captured, Rooted, HoldsFirst, Laid, Searchable, Paths.NormalComponents, RoundTrip.Due;
    var i :| 0 <= i < n && world(cs[i]).DirectorySeen? && d.0 == cs[i].components;
    DirectoryStaged(nodes, cs, world, n, special, i);
    DirectoryLaid(nodes, cs, world, n, special, i);
    NotEmpty(d.0);
    LinkAt(fs, nodes, host, root, d.0);
    forall k | 0 <= k < |d.0|
      ensures Searchable(fs, root + d.0[..k])
    {
      DirectoriesOpen(fs, nodes, host, root, d.0, k);
    }
  }

  /** A new file takes no way away. */
  lemma WayStays(fs: Nodes, root: Path, p: Path, q: Path, node: Node)
    requires WaySpelled(fs, root, p) && q !in fs && q != []
    ensures WaySpelled(fs[q := node], root, p)
  {
    hide Passable, Paths.NormalComponents;
    forall k | 0 <= k < |p|
      ensures Searchable(fs[q := node], root + p[..k])
    {
      assert Searchable(fs, root + p[..k]);
    }
  }

  lemma DueTogether(h: Build, b: Build, host: Nodes, root: Path)
    requires Beside(h, b, host, root)
    ensures h.directories == b.directories
  {
    hide Holds, IsTree, AllOpen;
  }

  lemma InBag(due: seq<(Path, int)>, directories: seq<(Path, int)>, i: nat)
    requires multiset(due) == multiset(directories) && i < |due|
    ensures due[i] in directories
  {
    assert due[i] in multiset(due);
  }

  /** After the candidates that are where they are spelled, and a file elsewhere, the modes can be set. */
  lemma ModesAfter(h: Build, b: Build, cs: seq<Candidate>, world: World, n: nat, special: bool, host: Nodes, root: Path,
                   t: Build, p: Path, node: Node, result: Option<Nodes>)
    requires n <= |cs| && Rooted(cs, world, n) && HoldsFirst(b.nodes, cs, world, n, special)
    requires Beside(h, b, host, root) && b.directories == RoundTrip.Due(cs, world, n)
    requires p !in h.nodes && p != [] && !node.Dir? && t.nodes == h.nodes[p := node] && t.directories == h.directories
    requires HostModesSet(t, special, root, result)
    ensures result.Some? && (forall q :: q in result.value <==> q in h.nodes || q == p) && result.value[p] == node
  {
    hide Beside, Rooted, HoldsFirst, RoundTrip.Due, DeepestFirst, HostModes, WaySpelled;
    BesideHolds(h, b, host, root);
    DueTogether(h, b, host, root);
    var due: seq<(Path, int)> :|
      DeepestFirst(due) && multiset(due) == multiset(t.directories) && result == HostModes(t.nodes, root, due, special);
    forall i | 0 <= i < |due|
      ensures WaySpelled(t.nodes, root, due[i].0)
    {
      InBag(due, t.directories, i);
      DueInPlace(h.nodes, b.nodes, cs, world, n, special, host, root, due[i]);
      WayStays(h.nodes, root, due[i].0, p, node);
    }
    ModesSet(t.nodes, root, due, special);
  }
}
