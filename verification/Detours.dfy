/** Concrete runs, possible as the code stands, whose streams are accepted and permitted, and whose second pass goes
    through a link: to another directory of the stage, and out of it. */
module Detours {
  import opened Artifacts
  import opened Bytes
  import opened Capture
  import opened Discovery
  import opened Extraction
  import opened Host
  import opened HostStage
  import opened Lexical
  import opened Placing
  import opened Production
  import opened Records
  import opened Validation
  import Agreement
  import ByteValue
  import Codes
  import Configuration
  import Delivery
  import EndToEnd
  import LinkTargets
  import Octets
  import Paths
  import Reassembly
  import RoundTrip
  import Session
  import Success
  import Tool
  import Traversal

  // Runs.

  const A: bytes := [0x61]
  const B: bytes := [0x62]
  const C: bytes := [0x63]
  const X: bytes := [0x78]

  function At(components: Path): Candidate
  {
    Candidate(components, false, RoleText(ModuleData))
  }

  /** A module without configuration files and entries, whose data are a directory with something in it. */
  function Several(children: seq<Path>, world: World): ModuleFacts
  {
    ModuleFacts(false, Configuration.Tree(Configuration.NoMaster, true, [], _ => false), _ => None, [], false,
                _ => Traversal.Visit([], 0, [], 0, Traversal.Utf8Label, [], [], [], SwordKey(0), 1), None,
                true, Found([A], false, true, children, true), world)
  }

  function FindingsOf(children: seq<Path>): Findings
  {
    Findings([], 0, [At([A])] + ChildPlaces([A], children))
  }

  lemma {:induction false} ChildAt(base: Path, children: seq<Path>, i: nat)
    requires i < |children|
    ensures |ChildPlaces(base, children)| == |children| && ChildPlaces(base, children)[i] == At(base + children[i])
    decreases |children|
  {
    var n := |children| - 1;
    if n > 0 {
      ChildAt(base, children[..n], if i < n then i else 0);
    }
  }

  /** What can be captured without a complaint and is accepted. */
  predicate Harmless(c: Candidate, o: Observation)
  {
    Captured(o) && CleanGroup(c, o, 4096) && ProblemsOf(o) == []
  }

  ghost predicate FineRun(m: ModuleFacts, f: Findings)
  {
    && Agreement.Facts(Some(m)) && Possible(true, Some(m), 4096, None, Whole(f))
    && Agreement.Acceptable(Some(m), 4096, None, Whole(f))
    && TotalsOf(Some(m), 4096, None, Whole(f)).diagnostics.error == 0
  }

  lemma {:induction false} NoProblems(cs: seq<Candidate>, world: World, n: nat)
    requires n <= |cs| && forall i :: 0 <= i < n ==> ProblemsOf(world(cs[i])) == []
    ensures Problems(cs, world, n) == []
  {
    hide ProblemsOf;
    if n > 0 {
      NoProblems(cs, world, n - 1);
    }
  }

  lemma SeveralCounted(children: seq<Path>, world: World)
    ensures Success.ErrorFree(CountedPart(Some(Several(children, world)), FindingsOf(children)))
    ensures Delivery.EntriesGranted(CountedPart(Some(Several(children, world)), FindingsOf(children)))
  {
    var m, f := Several(children, world), FindingsOf(children);
    Agreement.EntriesGrantedIs(m, f);
    hide Codes.CodeText, Delivery.EntriesGranted, ChildPlaces;
    assert Configuration.SourceRecords([], m.reread, 0) == [] && Configuration.SettingRecords([]) == [];
    assert DiscoveryProblems(DiskOf(m, f.files)) == [];
  }

  lemma SeveralPossible(children: seq<Path>, world: World)
    requires forall i :: 0 <= i < |children| ==> Paths.NormalComponents(children[i])
    requires StrictlySorted(FindingsOf(children).candidates)
    ensures Agreement.Facts(Some(Several(children, world)))
    ensures Possible(true, Some(Several(children, world)), 4096, None, Whole(FindingsOf(children)))
  {
    hide StrictlySorted, ChildPlaces, RoleText, PathOf;
    var m, f := Several(children, world), FindingsOf(children);
    assert Configuration.FoundFiles(m.tree) == [];
    assert Enumerated(DiskOf(m, f.files)) == f.candidates by {
      assert [] + ([At([A])] + ChildPlaces([A], children)) == f.candidates;
    }
  }

  lemma SeveralClean(children: seq<Path>, world: World)
    requires var cs := FindingsOf(children).candidates;
             && (forall i :: 0 <= i < |cs| ==> Harmless(cs[i], world(cs[i])))
             && forall i, j :: 0 <= i < j < |cs| ==> cs[i].components != cs[j].components
    ensures var cs := FindingsOf(children).candidates;
            CleanGroups(cs, world, |cs|, 4096) && Problems(cs, world, |cs|) == []
  {
    hide CleanGroup, Captured, ProblemsOf, ChildPlaces;
    NoProblems(FindingsOf(children).candidates, world, |FindingsOf(children).candidates|);
  }

  lemma FineIs(children: seq<Path>, world: World)
    requires forall i :: 0 <= i < |children| ==> Paths.NormalComponents(children[i])
    requires var cs := FindingsOf(children).candidates;
             && StrictlySorted(cs) && (forall i :: 0 <= i < |cs| ==> Harmless(cs[i], world(cs[i])))
             && forall i, j :: 0 <= i < j < |cs| ==> cs[i].components != cs[j].components
    ensures FineRun(Several(children, world), FindingsOf(children))
  {
    var m, f := Several(children, world), FindingsOf(children);
    SeveralCounted(children, world);
    SeveralPossible(children, world);
    SeveralClean(children, world);
    Success.ErrorTotal(Session.NO_TOTALS, CountedPart(Some(m), f));
    FineTotals(m, f);
    hide CountedPart, Delivery.EntriesGranted, Possible, Agreement.Facts, CleanGroups, StrictlySorted, TotalsOf,
      FindingsOf, Harmless;
  }

  lemma FineTotals(m: ModuleFacts, f: Findings)
    requires Session.Tally(Session.NO_TOTALS, CountedPart(Some(m), f)).diagnostics.error == 0
    requires Problems(f.candidates, m.world, |f.candidates|) == []
    ensures TotalsOf(Some(m), 4096, None, Whole(f)).diagnostics.error == 0
  {
    hide CountedPart;
  }

  const SOME_DIRECTORY := DirectorySeen(0x41ed)
  const EMPTY_FILE := FileSeen(0x81a4, 0, true, true, [Data([])], true)

  lemma EmptyFileHarmless(c: Candidate)
    requires c.components != [] && !c.trailing
    ensures Harmless(c, EMPTY_FILE) && ChunksOf(EMPTY_FILE) == []
  {
    assert ReadData([Data([])]) == [] && !ReadFails([Data([])]);
    assert Concat([]) == [];
  }

  lemma DirectoryHarmless(c: Candidate)
    requires c.components != []
    ensures Harmless(c, SOME_DIRECTORY)
  {
  }

  lemma LinkHarmless(c: Candidate, target: bytes)
    requires c.components != [] && !c.trailing && 0 !in target
    ensures Harmless(c, LinkSeen(0xa1ff, |target|, Some(target)))
    ensures ContentOf(LinkSeen(0xa1ff, |target|, Some(target))) == target
  {
  }

  // To another directory.

  const INSIDE: seq<Path> := [[B], [C], [C, X]]

  /** A directory `b`, a link `c` to it, and an empty file `c/x`, all in a directory `a`. */
  function InsideWorld(): World
  {
    (c: Candidate) =>
      if c.components == [A, C] then LinkSeen(0xa1ff, |B|, Some(B))
      else if c.components == [A, C, X] then EMPTY_FILE
      else SOME_DIRECTORY
  }

  lemma InsideCandidates()
    ensures FindingsOf(INSIDE).candidates == [At([A]), At([A, B]), At([A, C]), At([A, C, X])]
  {
    hide RoleText;
    ChildAt([A], INSIDE, 0);
    ChildAt([A], INSIDE, 1);
    ChildAt([A], INSIDE, 2);
    assert [A] + [B] == [A, B] && [A] + [C] == [A, C] && [A] + [C, X] == [A, C, X];
  }

  lemma NamesNormal()
    ensures Paths.NormalComponent(A) && Paths.NormalComponent(B) && Paths.NormalComponent(C) && Paths.NormalComponent(X)
    ensures A != B && A != C && A != X && B != C && B != X && C != X
  {
  }

  lemma PathsNormal(p: Path)
    requires p != [] && forall i :: 0 <= i < |p| ==> p[i] == A || p[i] == B || p[i] == C || p[i] == X
    ensures Paths.NormalComponents(p)
  {
    NamesNormal();
    hide Paths.NormalComponent;
  }

  lemma BelowLess(outer: Path, inner: Path)
    requires Paths.NormalComponents(outer) && Paths.NormalComponents(inner) && Paths.Below(inner, outer)
    ensures Less(PathOf(At(outer)), PathOf(At(inner)))
  {
    hide RoleText, Less;
    assert PathOf(At(outer)) == Paths.Join(outer) by { assert Paths.Join(outer) + [] == Paths.Join(outer); }
    assert PathOf(At(inner)) == Paths.Join(inner) by { assert Paths.Join(inner) + [] == Paths.Join(inner); }
    Paths.DirectoryBeforeContents(outer, inner, PathOf(At(outer)), PathOf(At(inner)));
  }

  lemma FirstOfJoin(name: bytes, more: Path)
    requires name != []
    ensures Paths.Join([name] + more) != [] && Paths.Join([name] + more)[0] == name[0]
  {
    if more != [] {
      assert [name] + more != [] && ([name] + more)[0] == name && ([name] + more)[1..] == more;
    }
  }

  /** Names that differ in their first octet decide. */
  lemma SiblingsLess(d: Path, x: bytes, y: bytes, left: Path, right: Path)
    requires d != [] && x != [] && y != [] && x[0] < y[0]
    ensures Less(PathOf(At(d + ([x] + left))), PathOf(At(d + ([y] + right))))
  {
    hide RoleText, Less, Paths.Join;
    Paths.JoinAppend(d, [x] + left);
    Paths.JoinAppend(d, [y] + right);
    FirstOfJoin(x, left);
    FirstOfJoin(y, right);
    var a, b := Paths.Join(d + ([x] + left)), Paths.Join(d + ([y] + right));
    assert a + [] == a && b + [] == b;
    var i := |Paths.Join(d)| + 1;
    assert a[..i] == Paths.Join(d) + [Paths.SEPARATOR] && b[..i] == Paths.Join(d) + [Paths.SEPARATOR];
    LessAt(a, b, i);
  }

  lemma InsideSorted()
    ensures StrictlySorted(FindingsOf(INSIDE).candidates)
  {
    InsideCandidates();
    hide Less, RoleText, PathOf, ChildPlaces;
    PathsNormal([A]);
    PathsNormal([A, B]);
    PathsNormal([A, C]);
    PathsNormal([A, C, X]);
    BelowLess([A], [A, B]);
    BelowLess([A], [A, C]);
    BelowLess([A], [A, C, X]);
    BelowLess([A, C], [A, C, X]);
    SiblingsLess([A], B, C, [], []);
    SiblingsLess([A], B, C, [], [X]);
    assert [A] + ([B] + []) == [A, B] && [A] + ([C] + []) == [A, C] && [A] + ([C] + [X]) == [A, C, X];
  }

  lemma InsideSeen()
    ensures var cs := FindingsOf(INSIDE).candidates;
            && |cs| == 4 && (forall i, j :: 0 <= i < j < 4 ==> cs[i].components != cs[j].components)
            && InsideWorld()(cs[0]) == SOME_DIRECTORY && InsideWorld()(cs[1]) == SOME_DIRECTORY
            && InsideWorld()(cs[2]) == LinkSeen(0xa1ff, |B|, Some(B)) && InsideWorld()(cs[3]) == EMPTY_FILE
  {
    InsideCandidates();
    NamesNormal();
    hide RoleText, ChildPlaces;
    assert [A, B][1] == B && [A, C][1] == C;
  }

  /** Such a module can be extracted, and its stream is accepted. */
  lemma InsideFine()
    ensures FineRun(Several(INSIDE, InsideWorld()), FindingsOf(INSIDE))
  {
    hide StrictlySorted, Harmless, FineRun, Several, RoleText, ChildPlaces, InsideWorld;
    InsideCandidates();
    InsideSeen();
    InsideSorted();
    PathsNormal([B]);
    PathsNormal([C]);
    PathsNormal([C, X]);
    DirectoryHarmless(At([A]));
    DirectoryHarmless(At([A, B]));
    LinkHarmless(At([A, C]), B);
    EmptyFileHarmless(At([A, C, X]));
    FineIs(INSIDE, InsideWorld());
  }

  lemma InsideRooted()
    ensures var cs := FindingsOf(INSIDE).candidates; |cs| == 4 && Rooted(cs, InsideWorld(), 3)
  {
    InsideCandidates();
    InsideSeen();
    hide RoleText, ChildPlaces, InsideWorld, Paths.NormalComponents;
    PathsNormal([A]);
    PathsNormal([A, B]);
    PathsNormal([A, C]);
    PathsNormal([A, C, X]);
    var cs := FindingsOf(INSIDE).candidates;
    forall i, k | 0 <= i < 3 && 0 < k < |cs[i].components|
      ensures DirectoryAt(cs, InsideWorld(), i, cs[i].components[..k])
    {
      assert cs[i].components[..k] == [A];
      assert cs[0].components == [A];
    }
  }

  lemma DirectoryOpen(fs: Nodes, nodes: Nodes, host: Nodes, root: Path, p: Path)
    requires Holds(fs, nodes, host, root) && AllOpen(nodes) && p != [] && p in nodes && nodes[p].Dir?
    ensures Searchable(fs, root + p) && Fillable(fs, root + p) && root + p in fs && fs[root + p].Dir?
  {
    OpenModes();
    hide Holds, Passable;
    LinkAt(fs, nodes, host, root, p);
  }

  lemma NothingAt(fs: Nodes, nodes: Nodes, host: Nodes, root: Path, p: Path)
    requires Holds(fs, nodes, host, root) && p != [] && p !in nodes
    ensures root + p !in fs
  {
    InsideIs(fs, nodes, host, root);
    hide Inside, Holds;
    InsideAt(fs, root, p);
  }

  lemma OneName(name: bytes)
    requires Paths.NormalComponent(name)
    ensures Paths.Split(name) == [name]
  {
    Paths.SplitJoin([name]);
  }

  /** From a directory through another to a new entry. */
  lemma IntoDirectory(fs: Nodes, d: Path, name: bytes, rest: seq<bytes>, last: bool, links: nat)
    requires Searchable(fs, d) && Paths.NormalComponent(name) && d + [name] in fs && fs[d + [name]].Dir?
    ensures Walk(fs, d, [name] + rest, last, links) == Walk(fs, d + [name], rest, last, links)
  {
    hide Searchable;
    var parts := [name] + rest;
    assert parts[0] == name && parts[1..] == rest;
  }

  lemma NewEntry(fs: Nodes, d: Path, name: bytes, links: nat)
    requires Searchable(fs, d) && Paths.NormalComponent(name) && d + [name] !in fs
    ensures Walk(fs, d, [name], false, links) == Some(d + [name])
  {
    hide Searchable;
  }

  lemma Here(fs: Nodes, d: Path, last: bool, links: nat)
    ensures Walk(fs, d, [], last, links) == Some(d)
  {
  }

  /** In the stage with the first three candidates the link leads to the directory, and a new entry below it goes
      there. */
  lemma InsideWays(fs: Nodes, nodes: Nodes, host: Nodes, root: Path)
    requires Holds(fs, nodes, host, root) && AllOpen(nodes)
    requires [A] in nodes && nodes[[A]].Dir? && [A, B] in nodes && nodes[[A, B]].Dir?
    requires [A, C] in nodes && nodes[[A, C]] == Link(B) && [A, B, X] !in nodes
    ensures LeadsToDirectory(fs, root, [A, C]) && Host.Place(fs, root, [A, C, X]) == Some(root + [A, B, X])
  {
    NamesNormal();
    OneName(B);
    PathsNormal([A, C]);
    hide Holds, AllOpen, Walk, Searchable, Paths.NormalComponent, Paths.NormalComponents, Paths.Split;
    assert [A] + [C] == [A, C] && [A, C] + [X] == [A, C, X] && [A, C] + [] == [A, C];
    LaidBelow(nodes, A, C);
    DirectoryOpen(fs, nodes, host, root, [A]);
    DirectoryOpen(fs, nodes, host, root, [A, B]);
    NothingAt(fs, nodes, host, root, [A, B, X]);
    assert root + [A] + [B] == root + [A, B] && root + [A, B] + [X] == root + [A, B, X];
    WalkLink(fs, nodes, host, root, [A], C, [], true);
    WalkLink(fs, nodes, host, root, [A], C, [X], false);
    IntoDirectory(fs, root + [A], B, [], true, MOST_LINKS - 1);
    IntoDirectory(fs, root + [A], B, [X], false, MOST_LINKS - 1);
    Here(fs, root + [A, B], true, MOST_LINKS - 1);
    NewEntry(fs, root + [A, B], X, MOST_LINKS - 1);
    assert (root + [A, B, X])[..|root + [A, B, X]| - 1] == root + [A, B];
  }

  lemma LaidBelow(nodes: Nodes, first: bytes, second: bytes)
    requires [first] in nodes && nodes[[first]].Dir?
    ensures Laid(nodes, [first] + [second])
  {
    forall j | 0 < j < 2
      ensures ([first] + [second])[..j] in nodes && nodes[([first] + [second])[..j]].Dir?
    {
      assert ([first] + [second])[..j] == [first];
    }
  }

  lemma HeldAt(nodes: Nodes, cs: seq<Candidate>, world: World, n: nat, special: bool, i: nat)
    requires n <= |cs| && HoldsFirst(nodes, cs, world, n, special) && i < n && Captured(world(cs[i]))
    ensures cs[i].components in nodes && nodes[cs[i].components] == RoundTrip.Staged(world(cs[i]), special)
  {
    hide Captured, RoundTrip.Staged;
  }

  lemma LinkStaged(target: bytes, special: bool)
    ensures RoundTrip.Staged(LinkSeen(0xa1ff, |target|, Some(target)), special) == Link(target)
    ensures RoundTrip.Staged(SOME_DIRECTORY, special).Dir?
  {
  }

  lemma InsideStage(nodes: Nodes, special: bool)
    requires var cs := FindingsOf(INSIDE).candidates; |cs| == 4 && HoldsFirst(nodes, cs, InsideWorld(), 3, special)
    ensures [A] in nodes && nodes[[A]].Dir? && [A, B] in nodes && nodes[[A, B]].Dir?
    ensures [A, C] in nodes && nodes[[A, C]] == Link(B) && [A, B, X] !in nodes
  {
    var cs := FindingsOf(INSIDE).candidates;
    InsideCandidates();
    InsideSeen();
    LinkStaged(B, special);
    hide RoleText, ChildPlaces, InsideWorld, RoundTrip.Staged;
    HeldAt(nodes, cs, InsideWorld(), 3, special, 0);
    HeldAt(nodes, cs, InsideWorld(), 3, special, 1);
    HeldAt(nodes, cs, InsideWorld(), 3, special, 2);
    assert |[A, B, X]| == 3;
  }

  lemma InsidePass(lines: seq<Line>, counts: map<RecordType, int>, special: bool, host: Nodes, root: Path,
                   result: Option<Nodes>)
    requires EndToEnd.Captures(lines, counts, Several(INSIDE, InsideWorld()), 4096, None, FindingsOf(INSIDE))
    requires Vacant(host, root) && Run(INITIAL_STATE, lines).Some?
    requires Reassembly.Rebuilt(lines, Run(INITIAL_STATE, lines).value.artifacts, special, host, root, result)
    ensures EndsElsewhere(result, root + [A, C, X], root + [A, B, X])
  {
    hide *;
    var m, f := Several(INSIDE, InsideWorld()), FindingsOf(INSIDE);
    CaptureListed(lines, counts, m, 4096, None, f);
    SeveralWorld(INSIDE, InsideWorld());
    var cs, world, artifacts := f.candidates, InsideWorld(), Run(INITIAL_STATE, lines).value.artifacts;
    LinesPlace(StartOn(host, root), lines, counts, m, 4096, None, f, artifacts, special, root);
    InsideRooted();
    var b := RootedPlaced(cs, world, 3, special, host, root);
    var h := HostRun(StartOn(host, root), GroupsRecords(cs, world, 3), ArtifactsOf(cs, world, |cs|), special,
                     root).value;
    ReachedIs(h, b, cs, world, 3, special, host, root);
    InsideEnds(h, b, special, host, root, result);
    RebuiltIs(lines, artifacts, special, host, root, result);
  }

  lemma ReachedIs(h: Build, b: Build, cs: seq<Candidate>, world: World, n: nat, special: bool, host: Nodes, root: Path)
    requires n <= |cs| && Beside(h, b, host, root) && HoldsFirst(b.nodes, cs, world, n, special)
    requires b.directories == RoundTrip.Due(cs, world, n)
    requires HostRun(StartOn(host, root), GroupsRecords(cs, world, n), ArtifactsOf(cs, world, |cs|), special,
                     root).Some?
    requires h == HostRun(StartOn(host, root), GroupsRecords(cs, world, n), ArtifactsOf(cs, world, |cs|), special,
                          root).value
    ensures Reached(h, b, cs, world, n, special, host, root)
  {
    hide RoundTrip.Due, Beside, HoldsFirst, HostRun, GroupsRecords, ArtifactsOf;
  }

  lemma RebuiltIs(lines: seq<Line>, artifacts: seq<Artifact>, special: bool, host: Nodes, root: Path,
                  result: Option<Nodes>)
    requires Reassembly.Rebuilt(lines, artifacts, special, host, root, result)
    ensures var t := HostRun(StartOn(host, root), RecordsOf(lines), artifacts, special, root);
            if t.Some? then HostModesSet(t.value, special, root, result) else result.None?
  {
    hide HostRun, HostModesSet;
  }

  lemma SeveralWorld(children: seq<Path>, world: World)
    ensures Several(children, world).world == world
  {
  }

  lemma CaptureListed(lines: seq<Line>, counts: map<RecordType, int>, m: ModuleFacts, chunkSize: nat,
                      fault: Option<Session.Fault>, f: Findings)
    requires EndToEnd.Captures(lines, counts, m, chunkSize, fault, f)
    ensures Run(INITIAL_STATE, lines).Some?
    ensures Run(INITIAL_STATE, lines).value.artifacts == ArtifactsOf(f.candidates, m.world, |f.candidates|)
  {
    hide *;
    EndToEnd.CaptureParts(lines, counts, m, chunkSize, fault, f);
    EndToEnd.ListedArtifacts(lines, counts, m, chunkSize, fault, f);
  }

  /** What the pass has done after the first `n` candidates. */
  ghost predicate Reached(h: Build, b: Build, cs: seq<Candidate>, world: World, n: nat, special: bool, host: Nodes,
                          root: Path)
    requires n <= |cs|
  {
    && HostRun(StartOn(host, root), GroupsRecords(cs, world, n), ArtifactsOf(cs, world, |cs|), special, root) == Some(h)
    && Beside(h, b, host, root) && HoldsFirst(b.nodes, cs, world, n, special)
    && b.directories == RoundTrip.Due(cs, world, n)
  }

  /** The pass ends, and a file is at `p` and not where it is spelled. */
  ghost predicate EndsElsewhere(result: Option<Nodes>, spelled: Path, p: Path)
  {
    result.Some? && p in result.value && result.value[p].File? && spelled !in result.value
  }

  lemma EndsThere(h: Nodes, result: Option<Nodes>, spelled: Path, p: Path, node: Node)
    requires result.Some? && (forall q :: q in result.value <==> q in h || q == p) && result.value[p] == node
    requires node.File? && spelled !in h && spelled != p
    ensures EndsElsewhere(result, spelled, p)
  {
  }

  lemma NotYetThere(h: Build, b: Build, cs: seq<Candidate>, world: World, n: nat, special: bool, host: Nodes,
                    root: Path)
    requires n < |cs| && Rooted(cs, world, n) && HoldsFirst(b.nodes, cs, world, n, special) && Beside(h, b, host, root)
    requires Paths.NormalComponents(cs[n].components)
    ensures root + cs[n].components !in h.nodes
  {
    BesideHolds(h, b, host, root);
    NotEmpty(cs[n].components);
    hide Beside, Holds, Paths.NormalComponents, Captured;
    NothingAt(h.nodes, b.nodes, host, root, cs[n].components);
  }

  lemma FreePlace(fs: Nodes, root: Path, path: Path, p: Path)
    requires Host.Place(fs, root, path) == Some(p)
    ensures p !in fs && p != []
  {
    hide Walk, Fillable;
  }

  /** The last candidate is an empty file below a link. */
  lemma EndsBelowLink(h: Build, b: Build, cs: seq<Candidate>, world: World, n: nat, special: bool, host: Nodes,
                      root: Path, link: Path, p: Path, result: Option<Nodes>)
    requires n + 1 == |cs| && Rooted(cs, world, n) && Reached(h, b, cs, world, n, special, host, root)
    requires world(cs[n]) == EMPTY_FILE && Paths.NormalComponents(cs[n].components)
    requires |cs[n].components| == |link| + 1 && cs[n].components[..|link|] == link
    requires link in b.nodes && Laid(b.nodes, link) && LeadsToDirectory(h.nodes, root, link)
    requires Host.Place(h.nodes, root, cs[n].components) == Some(p) && p != root + cs[n].components
    ensures var t := HostRun(StartOn(host, root), GroupsRecords(cs, world, n + 1), ArtifactsOf(cs, world, |cs|),
                             special, root);
            t.Some? && (HostModesSet(t.value, special, root, result) ==>
                          EndsElsewhere(result, root + cs[n].components, p))
  {
    hide *;
    EmptyFileFacts();
    LastCounted(cs, world, n);
    ReachedParts(h, b, cs, world, n, special, host, root);
    LinkPrefixes(b.nodes, cs[n].components, link);
    FileBelowLink(h, b, cs[n], EMPTY_FILE, n, ArtifactsOf(cs, world, |cs|), special, host, root, p);
    HostAppend(StartOn(host, root), GroupsRecords(cs, world, n), GroupRecords(cs[n], EMPTY_FILE, n),
               ArtifactsOf(cs, world, |cs|), special, root);
    FreePlace(h.nodes, root, cs[n].components, p);
    NotYetThere(h, b, cs, world, n, special, host, root);
    var t := HostRun(StartOn(host, root), GroupsRecords(cs, world, n + 1), ArtifactsOf(cs, world, |cs|), special,
                     root).value;
    if HostModesSet(t, special, root, result) {
      var node := File([], Masked(ArtifactsOf(cs, world, |cs|)[n].mode, special));
      ModesAfter(h, b, cs, world, n, special, host, root, t, p, node, result);
      EndsThere(h.nodes, result, root + cs[n].components, p, node);
    }
  }

  lemma EmptyFileFacts()
    ensures Captured(EMPTY_FILE) && EMPTY_FILE.FileSeen? && ChunksOf(EMPTY_FILE) == []
  {
    EmptyFileHarmless(At([A]));
  }

  lemma ReachedParts(h: Build, b: Build, cs: seq<Candidate>, world: World, n: nat, special: bool, host: Nodes,
                     root: Path)
    requires n <= |cs| && Reached(h, b, cs, world, n, special, host, root)
    ensures HostRun(StartOn(host, root), GroupsRecords(cs, world, n), ArtifactsOf(cs, world, |cs|), special, root) ==
            Some(h)
    ensures Beside(h, b, host, root) && HoldsFirst(b.nodes, cs, world, n, special)
    ensures b.directories == RoundTrip.Due(cs, world, n)
  {
    hide RoundTrip.Due, Beside, HoldsFirst, HostRun, GroupsRecords, ArtifactsOf;
  }

  lemma LinkPrefixes(nodes: Nodes, path: Path, link: Path)
    requires |path| == |link| + 1 && path[..|link|] == link && Laid(nodes, link)
    ensures path != [] && path[..|path| - 1] == link
    ensures forall j :: 0 < j < |path| - 1 ==> path[..j] in nodes && nodes[path[..j]].Dir?
  {
    forall j | 0 < j < |path| - 1
      ensures path[..j] in nodes && nodes[path[..j]].Dir?
    {
      assert link[..j] == path[..j];
    }
  }

  lemma InsideEnds(h: Build, b: Build, special: bool, host: Nodes, root: Path, result: Option<Nodes>)
    requires var cs, world := FindingsOf(INSIDE).candidates, InsideWorld();
             |cs| == 4 && Rooted(cs, world, 3) && Reached(h, b, cs, world, 3, special, host, root)
    ensures var cs, world := FindingsOf(INSIDE).candidates, InsideWorld();
            var t := HostRun(StartOn(host, root), GroupsRecords(cs, world, 4), ArtifactsOf(cs, world, 4), special,
                             root);
            t.Some? && (HostModesSet(t.value, special, root, result) ==>
                          EndsElsewhere(result, root + [A, C, X], root + [A, B, X]))
  {
    hide *;
    var cs := FindingsOf(INSIDE).candidates;
    InsideLast();
    PathsNormal([A, C, X]);
    ReachedParts(h, b, cs, InsideWorld(), 3, special, host, root);
    BesideHolds(h, b, host, root);
    InsideStage(b.nodes, special);
    LaidBelow(b.nodes, A, C);
    InsideWays(h.nodes, b.nodes, host, root);
    NamesNormal();
    assert (root + [A, B, X])[|root| + 1] == B && (root + [A, C, X])[|root| + 1] == C;
    EndsBelowLink(h, b, cs, InsideWorld(), 3, special, host, root, [A, C], root + [A, B, X], result);
  }

  lemma InsideLast()
    ensures var cs := FindingsOf(INSIDE).candidates;
            |cs| == 4 && cs[3].components == [A, C, X] && InsideWorld()(cs[3]) == EMPTY_FILE
    ensures [A] + [C] == [A, C] && [A, C, X][..2] == [A, C] && |[A, C]| == 2 && |[A, C, X]| == 3
    ensures forall i :: 0 <= i < 3 ==> [A, C, X][i] == A || [A, C, X][i] == C || [A, C, X][i] == X
  {
    InsideCandidates();
    InsideSeen();
  }

  /** The last of candidates that are all captured. */
  lemma LastCounted(cs: seq<Candidate>, world: World, n: nat)
    requires n + 1 == |cs| && Rooted(cs, world, n) && Captured(world(cs[n]))
    ensures n < |ArtifactsOf(cs, world, |cs|)| && ArtifactsOf(cs, world, |cs|)[n] == ArtifactOf(cs[n], world(cs[n]), n)
    ensures GroupsRecords(cs, world, n + 1) == GroupsRecords(cs, world, n) + GroupRecords(cs[n], world(cs[n]), n)
  {
    AllCounted(cs, world, n);
    hide Captured, ArtifactOf, ArtifactsOf, CapturedCount, GroupRecords, Paths.NormalComponents;
    RoundTrip.ArtifactAt(cs, world, n, |cs|);
  }

  // Out of the stage.

  const OUTSIDE: seq<Path> := [[B], [B, B], [B, C], [B, C, X]]

  /** Two directories up, as spelled. */
  const UP: bytes := [Paths.DOT, Paths.DOT, Paths.SEPARATOR, Paths.DOT, Paths.DOT]

  /** Through `b` and two directories up, as spelled. */
  const VIA: bytes := B + [Paths.SEPARATOR] + UP

  /** In a directory `a/b` a link `b` to the top of the tree, a link `c` through it, and an empty file `c/x`. */
  function OutsideWorld(): World
  {
    (c: Candidate) =>
      if c.components == [A, B, B] then LinkSeen(0xa1ff, |UP|, Some(UP))
      else if c.components == [A, B, C] then LinkSeen(0xa1ff, |VIA|, Some(VIA))
      else if c.components == [A, B, C, X] then EMPTY_FILE
      else SOME_DIRECTORY
  }

  lemma OutsideCandidates()
    ensures FindingsOf(OUTSIDE).candidates == [At([A]), At([A, B]), At([A, B, B]), At([A, B, C]), At([A, B, C, X])]
  {
    hide RoleText;
    ChildAt([A], OUTSIDE, 0);
    ChildAt([A], OUTSIDE, 1);
    ChildAt([A], OUTSIDE, 2);
    ChildAt([A], OUTSIDE, 3);
    assert [A] + [B] == [A, B] && [A] + [B, B] == [A, B, B] && [A] + [B, C] == [A, B, C]
           && [A] + [B, C, X] == [A, B, C, X];
  }

  lemma OutsideSorted()
    ensures StrictlySorted(FindingsOf(OUTSIDE).candidates)
  {
    OutsideCandidates();
    hide Less, RoleText, PathOf, ChildPlaces, FindingsOf;
    PathsNormal([A]);
    PathsNormal([A, B]);
    PathsNormal([A, B, B]);
    PathsNormal([A, B, C]);
    PathsNormal([A, B, C, X]);
    BelowLess([A], [A, B]);
    BelowLess([A], [A, B, B]);
    BelowLess([A], [A, B, C]);
    BelowLess([A], [A, B, C, X]);
    BelowLess([A, B], [A, B, B]);
    BelowLess([A, B], [A, B, C]);
    BelowLess([A, B], [A, B, C, X]);
    BelowLess([A, B, C], [A, B, C, X]);
    SiblingsLess([A, B], B, C, [], []);
    SiblingsLess([A, B], B, C, [], [X]);
    assert [A, B] + ([B] + []) == [A, B, B] && [A, B] + ([C] + []) == [A, B, C] && [A, B] + ([C] + [X]) == [A, B, C, X];
  }

  lemma OutsideSeen()
    ensures var cs := FindingsOf(OUTSIDE).candidates;
            && |cs| == 5 && (forall i, j :: 0 <= i < j < 5 ==> cs[i].components != cs[j].components)
            && OutsideWorld()(cs[0]) == SOME_DIRECTORY && OutsideWorld()(cs[1]) == SOME_DIRECTORY
            && OutsideWorld()(cs[2]) == LinkSeen(0xa1ff, |UP|, Some(UP))
            && OutsideWorld()(cs[3]) == LinkSeen(0xa1ff, |VIA|, Some(VIA)) && OutsideWorld()(cs[4]) == EMPTY_FILE
  {
    OutsideCandidates();
    NamesNormal();
    hide RoleText, ChildPlaces;
    assert [A, B, B][2] == B && [A, B, C][2] == C;
  }

  /** Such a module can be extracted, and its stream is accepted. */
  lemma OutsideFine()
    ensures FineRun(Several(OUTSIDE, OutsideWorld()), FindingsOf(OUTSIDE))
  {
    hide StrictlySorted, Harmless, FineRun, Several, RoleText, ChildPlaces, OutsideWorld;
    OutsideCandidates();
    OutsideSeen();
    OutsideSorted();
    PathsNormal([B]);
    PathsNormal([B, B]);
    PathsNormal([B, C]);
    PathsNormal([B, C, X]);
    DirectoryHarmless(At([A]));
    DirectoryHarmless(At([A, B]));
    LinkHarmless(At([A, B, B]), UP);
    LinkHarmless(At([A, B, C]), VIA);
    EmptyFileHarmless(At([A, B, C, X]));
    FineIs(OUTSIDE, OutsideWorld());
  }

  lemma Targets()
    ensures Paths.Split(UP) == [DOTS, DOTS] && Paths.Split(VIA) == [B, DOTS, DOTS]
    ensures UP != [] && UP[0] != Paths.SEPARATOR && VIA != [] && VIA[0] != Paths.SEPARATOR
  {
    Paths.SplitJoin([DOTS, DOTS]);
    Paths.SplitJoin([B, DOTS, DOTS]);
    assert [DOTS, DOTS][1..] == [DOTS] && [B, DOTS, DOTS][1..] == [DOTS, DOTS];
    assert Paths.Join([DOTS, DOTS]) == UP && Paths.Join([B, DOTS, DOTS]) == VIA;
  }

  /** Both links are safe as spelled. */
  lemma OutsideLinksStay()
    ensures var cs := FindingsOf(OUTSIDE).candidates;
            |cs| == 5 && Tool.LinksAllowed(cs, OutsideWorld(), |cs|, true)
  {
    OutsideCandidates();
    OutsideSeen();
    Targets();
    LinkHarmless(At([A, B, B]), UP);
    LinkHarmless(At([A, B, C]), VIA);
    TwoUp();
    hide RoleText, ChildPlaces, OutsideWorld, Reassembly.StaysBelow, FindingsOf;
  }

  lemma TwoUp()
    ensures Reassembly.StaysBelow(2, [DOTS, DOTS]) && Reassembly.StaysBelow(2, [B, DOTS, DOTS])
  {
    var parts := [B, DOTS, DOTS];
    assert [DOTS, DOTS][..1] == [DOTS] && [DOTS, DOTS][..2] == [DOTS, DOTS] && [DOTS][..0] == [];
    assert parts[..1] == [B] && parts[..2] == [B, DOTS] && parts[..3] == parts && [B][..0] == [];
    assert [B, DOTS][..1] == [B];
    assert Reassembly.Descent([]) == 0 && Reassembly.Descent([DOTS]) == -1 && Reassembly.Descent([DOTS, DOTS]) == -2;
    assert Reassembly.Descent([B]) == 1 && Reassembly.Descent([B, DOTS]) == 0 && Reassembly.Descent(parts) == -1;
  }

  lemma InsideLinksStay()
    ensures var cs := FindingsOf(INSIDE).candidates;
            |cs| == 4 && Tool.LinksAllowed(cs, InsideWorld(), |cs|, true)
  {
    InsideCandidates();
    InsideSeen();
    NamesNormal();
    OneName(B);
    LinkHarmless(At([A, C]), B);
    OneDown();
    hide RoleText, ChildPlaces, InsideWorld, Reassembly.StaysBelow, FindingsOf;
  }

  lemma OneDown()
    ensures Reassembly.StaysBelow(1, [B])
  {
    assert [B][..0] == [] && [B][..1] == [B];
    assert Reassembly.Descent([]) == 0 && Reassembly.Descent([B]) == 1;
  }

  lemma OutsideRooted()
    ensures var cs := FindingsOf(OUTSIDE).candidates; |cs| == 5 && Rooted(cs, OutsideWorld(), 4)
  {
    OutsideCandidates();
    OutsideSeen();
    hide RoleText, ChildPlaces, OutsideWorld, Paths.NormalComponents, FindingsOf;
    PathsNormal([A]);
    PathsNormal([A, B]);
    PathsNormal([A, B, B]);
    PathsNormal([A, B, C]);
    PathsNormal([A, B, C, X]);
    var cs := FindingsOf(OUTSIDE).candidates;
    forall i, k | 0 <= i < 4 && 0 < k < |cs[i].components|
      ensures DirectoryAt(cs, OutsideWorld(), i, cs[i].components[..k])
    {
      if k == 1 {
        assert cs[i].components[..k] == [A] && cs[0].components == [A];
      } else {
        assert cs[i].components[..k] == [A, B] && cs[1].components == [A, B];
      }
    }
  }

  lemma UpStep(fs: Nodes, d: Path, rest: seq<bytes>, last: bool, links: nat)
    requires Searchable(fs, d)
    ensures Walk(fs, d, [DOTS] + rest, last, links) == Walk(fs, Above(d), rest, last, links)
  {
    hide Searchable;
    var parts := [DOTS] + rest;
    assert parts[0] == DOTS && parts[1..] == rest;
  }

  /** The places two directories above the stage are as the host has them. */
  lemma OutsideSame(fs: Nodes, nodes: Nodes, host: Nodes, root: Path, q: Path)
    requires Holds(fs, nodes, host, root) && q != root && !Paths.Below(q, root)
    ensures q in fs <==> q in host
    ensures q in fs ==> fs[q] == host[q]
  {
    hide Inside;
  }

  lemma OutsideOpen(fs: Nodes, nodes: Nodes, host: Nodes, root: Path)
    requires Holds(fs, nodes, host, root) && |root| >= 2
    ensures Searchable(host, Above(root)) ==> Searchable(fs, Above(root))
    ensures Fillable(host, Above(Above(root))) ==> Fillable(fs, Above(Above(root)))
    ensures Above(Above(root)) + [X] !in host && Searchable(host, Above(root)) ==> Above(Above(root)) + [X] !in fs
  {
    hide Holds, Passable;
    OutsideSame(fs, nodes, host, root, Above(root));
    OutsideSame(fs, nodes, host, root, Above(Above(root)));
    assert |Above(Above(root)) + [X]| == |root| - 1;
    OutsideSame(fs, nodes, host, root, Above(Above(root)) + [X]);
  }

  lemma RootOpen(fs: Nodes, nodes: Nodes, host: Nodes, root: Path)
    requires Holds(fs, nodes, host, root)
    ensures Searchable(fs, root)
  {
    RootStays(fs, nodes, host, root);
    OpenModes();
    hide Holds, Passable;
  }

  /** Four directories up from a directory two below the top. */
  lemma FourUp(fs: Nodes, nodes: Nodes, host: Nodes, root: Path, rest: seq<bytes>, last: bool, links: nat)
    requires Holds(fs, nodes, host, root) && AllOpen(nodes) && |root| >= 2 && Searchable(host, Above(root))
    requires [A] in nodes && nodes[[A]].Dir? && [A, B] in nodes && nodes[[A, B]].Dir?
    ensures Walk(fs, root + [A, B], [DOTS, DOTS, DOTS, DOTS] + rest, last, links) ==
            Walk(fs, Above(Above(root)), rest, last, links)
  {
    hide Holds, AllOpen, Walk, Searchable;
    DirectoryOpen(fs, nodes, host, root, [A]);
    DirectoryOpen(fs, nodes, host, root, [A, B]);
    RootOpen(fs, nodes, host, root);
    OutsideOpen(fs, nodes, host, root);
    assert Above(root + [A, B]) == root + [A] && Above(root + [A]) == root;
    assert [DOTS, DOTS, DOTS, DOTS] + rest == [DOTS] + ([DOTS] + ([DOTS] + ([DOTS] + rest)));
    UpStep(fs, root + [A, B], [DOTS] + ([DOTS] + ([DOTS] + rest)), last, links);
    UpStep(fs, root + [A], [DOTS] + ([DOTS] + rest), last, links);
    UpStep(fs, root, [DOTS] + rest, last, links);
    UpStep(fs, Above(root), rest, last, links);
  }

  lemma LaidDeeper(nodes: Nodes, first: bytes, second: bytes, third: bytes)
    requires [first] in nodes && nodes[[first]].Dir? && [first, second] in nodes && nodes[[first, second]].Dir?
    ensures Laid(nodes, [first, second] + [third])
  {
    forall j | 0 < j < 3
      ensures ([first, second] + [third])[..j] in nodes && nodes[([first, second] + [third])[..j]].Dir?
    {
      if j == 1 {
        assert ([first, second] + [third])[..j] == [first];
      } else {
        assert ([first, second] + [third])[..j] == [first, second];
      }
    }
  }

  lemma LinksEnough()
    ensures MOST_LINKS > 2
  {
  }

  /** The target of the second link, followed. */
  lemma ViaUp(fs: Nodes, nodes: Nodes, host: Nodes, root: Path, rest: seq<bytes>, last: bool)
    requires Holds(fs, nodes, host, root) && AllOpen(nodes) && |root| >= 2 && Searchable(host, Above(root))
    requires [A] in nodes && nodes[[A]].Dir? && [A, B] in nodes && nodes[[A, B]].Dir? && (rest != [] || last)
    requires [A, B, B] in nodes && nodes[[A, B, B]] == Link(UP) && [A, B, C] in nodes && nodes[[A, B, C]] == Link(VIA)
    ensures Walk(fs, root, [A, B, C] + rest, last, MOST_LINKS) ==
            Walk(fs, Above(Above(root)), rest, last, MOST_LINKS - 2)
  {
    hide *;
    LinksEnough();
    NamesNormal();
    Targets();
    PathsNormal([A, B, C]);
    LaidDeeper(nodes, A, B, C);
    DirectoryOpen(fs, nodes, host, root, [A, B]);
    LinkAt(fs, nodes, host, root, [A, B, B]);
    assert [A, B] + [C] == [A, B, C] && root + [A, B] + [B] == root + [A, B, B];
    WalkLink(fs, nodes, host, root, [A, B], C, rest, last);
    assert [B, DOTS, DOTS] + rest == [B] + ([DOTS, DOTS] + rest);
    FollowedHere(fs, root + [A, B], B, UP, [DOTS, DOTS] + rest, last, MOST_LINKS - 1);
    assert [DOTS, DOTS] + ([DOTS, DOTS] + rest) == [DOTS, DOTS, DOTS, DOTS] + rest;
    FourUp(fs, nodes, host, root, rest, last, MOST_LINKS - 2);
  }

  /** In the stage with the first four candidates the second link leads out, and a new entry below it goes there. */
  lemma OutsideWays(fs: Nodes, nodes: Nodes, host: Nodes, root: Path)
    requires Holds(fs, nodes, host, root) && AllOpen(nodes) && |root| >= 2 && Searchable(host, Above(root))
    requires Fillable(host, Above(Above(root))) && Above(Above(root)) + [X] !in host
    requires [A] in nodes && nodes[[A]].Dir? && [A, B] in nodes && nodes[[A, B]].Dir?
    requires [A, B, B] in nodes && nodes[[A, B, B]] == Link(UP) && [A, B, C] in nodes && nodes[[A, B, C]] == Link(VIA)
    ensures LeadsToDirectory(fs, root, [A, B, C])
    ensures Host.Place(fs, root, [A, B, C, X]) == Some(Above(Above(root)) + [X])
  {
    NamesNormal();
    hide Holds, AllOpen, Walk, Paths.NormalComponent;
    OutsideOpen(fs, nodes, host, root);
    assert [A, B, C] + [] == [A, B, C] && [A, B, C] + [X] == [A, B, C, X];
    ViaUp(fs, nodes, host, root, [], true);
    ViaUp(fs, nodes, host, root, [X], false);
    Here(fs, Above(Above(root)), true, MOST_LINKS - 2);
    NewEntry(fs, Above(Above(root)), X, MOST_LINKS - 2);
    assert (Above(Above(root)) + [X])[..|Above(Above(root)) + [X]| - 1] == Above(Above(root));
  }

  lemma OutsideStage(nodes: Nodes, special: bool)
    requires var cs := FindingsOf(OUTSIDE).candidates; |cs| == 5 && HoldsFirst(nodes, cs, OutsideWorld(), 4, special)
    ensures [A] in nodes && nodes[[A]].Dir? && [A, B] in nodes && nodes[[A, B]].Dir?
    ensures [A, B, B] in nodes && nodes[[A, B, B]] == Link(UP) && [A, B, C] in nodes && nodes[[A, B, C]] == Link(VIA)
  {
    var cs := FindingsOf(OUTSIDE).candidates;
    OutsideCandidates();
    OutsideSeen();
    LinkStaged(UP, special);
    LinkStaged(VIA, special);
    hide RoleText, ChildPlaces, OutsideWorld, RoundTrip.Staged, FindingsOf, HoldsFirst;
    HeldAt(nodes, cs, OutsideWorld(), 4, special, 0);
    HeldAt(nodes, cs, OutsideWorld(), 4, special, 1);
    HeldAt(nodes, cs, OutsideWorld(), 4, special, 2);
    HeldAt(nodes, cs, OutsideWorld(), 4, special, 3);
  }

  lemma OutsideLast()
    ensures var cs := FindingsOf(OUTSIDE).candidates;
            |cs| == 5 && cs[4].components == [A, B, C, X] && OutsideWorld()(cs[4]) == EMPTY_FILE
    ensures [A, B] + [C] == [A, B, C] && [A, B, C, X][..3] == [A, B, C] && |[A, B, C]| == 3 && |[A, B, C, X]| == 4
  {
    OutsideCandidates();
    OutsideSeen();
  }

  /** The places above the staging directory where the last file can go. */
  predicate RoomAbove(host: Nodes, root: Path)
  {
    && |root| >= 2 && Searchable(host, Above(root))
    && Fillable(host, Above(Above(root))) && Above(Above(root)) + [X] !in host
  }

  lemma HigherUp(root: Path)
    ensures Above(Above(root)) + [X] != root + [A, B, C, X]
  {
    assert |Above(Above(root)) + [X]| < |root + [A, B, C, X]|;
  }

  lemma RoomIs(host: Nodes, root: Path)
    requires RoomAbove(host, root)
    ensures |root| >= 2 && Searchable(host, Above(root))
    ensures Fillable(host, Above(Above(root))) && Above(Above(root)) + [X] !in host
  {
    hide Searchable, Fillable;
  }

  lemma OutsideEnds(h: Build, b: Build, special: bool, host: Nodes, root: Path, result: Option<Nodes>)
    requires RoomAbove(host, root)
    requires var cs, world := FindingsOf(OUTSIDE).candidates, OutsideWorld();
             |cs| == 5 && Rooted(cs, world, 4) && Reached(h, b, cs, world, 4, special, host, root)
    ensures var cs, world := FindingsOf(OUTSIDE).candidates, OutsideWorld();
            var t := HostRun(StartOn(host, root), GroupsRecords(cs, world, 5), ArtifactsOf(cs, world, 5), special,
                             root);
            t.Some? && (HostModesSet(t.value, special, root, result) ==>
                          EndsElsewhere(result, root + [A, B, C, X], Above(Above(root)) + [X]))
  {
    hide *;
    var cs := FindingsOf(OUTSIDE).candidates;
    RoomIs(host, root);
    OutsideLast();
    PathsNormal([A, B, C, X]);
    ReachedParts(h, b, cs, OutsideWorld(), 4, special, host, root);
    BesideHolds(h, b, host, root);
    OutsideStage(b.nodes, special);
    LaidDeeper(b.nodes, A, B, C);
    OutsideWays(h.nodes, b.nodes, host, root);
    HigherUp(root);
    EndsBelowLink(h, b, cs, OutsideWorld(), 4, special, host, root, [A, B, C], Above(Above(root)) + [X], result);
  }

  lemma OutsidePass(lines: seq<Line>, counts: map<RecordType, int>, special: bool, host: Nodes, root: Path,
                    result: Option<Nodes>)
    requires EndToEnd.Captures(lines, counts, Several(OUTSIDE, OutsideWorld()), 4096, None, FindingsOf(OUTSIDE))
    requires Vacant(host, root) && RoomAbove(host, root) && Run(INITIAL_STATE, lines).Some?
    requires Reassembly.Rebuilt(lines, Run(INITIAL_STATE, lines).value.artifacts, special, host, root, result)
    ensures EndsElsewhere(result, root + [A, B, C, X], Above(Above(root)) + [X])
  {
    hide *;
    var m, f := Several(OUTSIDE, OutsideWorld()), FindingsOf(OUTSIDE);
    CaptureListed(lines, counts, m, 4096, None, f);
    SeveralWorld(OUTSIDE, OutsideWorld());
    var cs, world, artifacts := f.candidates, OutsideWorld(), Run(INITIAL_STATE, lines).value.artifacts;
    LinesPlace(StartOn(host, root), lines, counts, m, 4096, None, f, artifacts, special, root);
    OutsideRooted();
    var b := RootedPlaced(cs, world, 4, special, host, root);
    var h := HostRun(StartOn(host, root), GroupsRecords(cs, world, 4), ArtifactsOf(cs, world, |cs|), special,
                     root).value;
    ReachedIs(h, b, cs, world, 4, special, host, root);
    OutsideEnds(h, b, special, host, root, result);
    RebuiltIs(lines, artifacts, special, host, root, result);
  }

  // The tool.

  /** What the tool does with octets that are read as the lines of a capture whose links are allowed. */
  lemma ToolRebuilds(stream: bytes, maximum: nat, lines: seq<Line>, counts: map<RecordType, int>, m: ModuleFacts,
                     f: Findings, special: bool, host: Nodes, root: Path, result: Option<Nodes>)
    requires EndToEnd.Captures(lines, counts, m, 4096, None, f) && Octets.StreamFrom(stream, maximum) == Some(lines)
    requires Tool.LinksAllowed(f.candidates, m.world, |f.candidates|, true)
    requires Tool.Reassembles(stream, maximum, false, true, special, host, root, result)
    ensures Run(INITIAL_STATE, lines).Some?
    ensures Reassembly.Rebuilt(lines, Run(INITIAL_STATE, lines).value.artifacts, special, host, root, result)
  {
    hide *;
    EndToEnd.CaptureParts(lines, counts, m, 4096, None, f);
    Tool.CapturePermits(lines, counts, m, 4096, None, f, false, true);
    Tool.ReassemblesLines(stream, maximum, lines, false, true, special, host, root, result);
  }

  /** The tool ends with a tree for these octets, and the file is in the directory the link leads to. */
  lemma InsideDetour(stream: bytes, maximum: nat, lines: seq<Line>, counts: map<RecordType, int>, special: bool,
                     host: Nodes, root: Path, result: Option<Nodes>)
    requires EndToEnd.Captures(lines, counts, Several(INSIDE, InsideWorld()), 4096, None, FindingsOf(INSIDE))
    requires Octets.StreamFrom(stream, maximum) == Some(lines) && Vacant(host, root)
    requires Tool.Reassembles(stream, maximum, false, true, special, host, root, result)
    ensures EndsElsewhere(result, root + [A, C, X], root + [A, B, X])
  {
    hide *;
    SeveralWorld(INSIDE, InsideWorld());
    InsideLinksStay();
    ToolRebuilds(stream, maximum, lines, counts, Several(INSIDE, InsideWorld()), FindingsOf(INSIDE), special, host,
                 root, result);
    InsidePass(lines, counts, special, host, root, result);
  }

  lemma NotInside(root: Path)
    requires |root| >= 2
    ensures !Paths.Below(Above(Above(root)) + [X], root)
  {
  }

  /** The tool ends with a tree for these octets, and the file is outside the staging directory, wherever there is room
      for it. */
  lemma OutsideDetour(stream: bytes, maximum: nat, lines: seq<Line>, counts: map<RecordType, int>, special: bool,
                      host: Nodes, root: Path, result: Option<Nodes>)
    requires EndToEnd.Captures(lines, counts, Several(OUTSIDE, OutsideWorld()), 4096, None, FindingsOf(OUTSIDE))
    requires Octets.StreamFrom(stream, maximum) == Some(lines) && Vacant(host, root) && RoomAbove(host, root)
    requires Tool.Reassembles(stream, maximum, false, true, special, host, root, result)
    ensures EndsElsewhere(result, root + [A, B, C, X], Above(Above(root)) + [X])
    ensures !Paths.Below(Above(Above(root)) + [X], root)
  {
    hide *;
    SeveralWorld(OUTSIDE, OutsideWorld());
    OutsideLinksStay();
    ToolRebuilds(stream, maximum, lines, counts, Several(OUTSIDE, OutsideWorld()), FindingsOf(OUTSIDE), special, host,
                 root, result);
    OutsidePass(lines, counts, special, host, root, result);
    RoomIs(host, root);
    NotInside(root);
  }

  /** There are such hosts. */
  lemma SomeRoom()
    ensures var host: Nodes, root := map[[A] := Dir(PRIVATE_DIRECTORY)], [A, B];
            Vacant(host, root) && RoomAbove(host, root)
  {
    OpenModes();
    NamesNormal();
    var root: Path := [A, B];
    assert Above(root) == [A] && Above(Above(root)) == [] && [] + [X] == [X] && [X][0] == X && [A][0] == A;
  }

  lemma UpLeaves(fs: Nodes, root: Path, d: Path, rest: seq<bytes>, links: nat)
    requires Searchable(fs, d)
    ensures LinkTargets.Leaves(fs, root, d, [DOTS] + rest, links) <==>
            d == root || LinkTargets.Leaves(fs, root, Above(d), rest, links)
  {
    hide Searchable;
    var parts := [DOTS] + rest;
    assert parts[0] == DOTS && parts[1..] == rest;
  }

  lemma ViaLeaves(fs: Nodes, root: Path, d: Path, name: bytes, target: bytes, rest: seq<bytes>, links: nat)
    requires Searchable(fs, d) && Paths.NormalComponent(name) && d + [name] in fs && fs[d + [name]] == Link(target)
    requires target != [] && target[0] != Paths.SEPARATOR && links > 0
    ensures LinkTargets.Leaves(fs, root, d, [name] + rest, links) <==>
            LinkTargets.Leaves(fs, root, d, Paths.Split(target) + rest, links - 1)
  {
    hide Searchable, Paths.Split;
    var parts := [name] + rest;
    assert parts[0] == name && parts[1..] == rest;
  }

  /** The second link is safe as spelled, and leads out. */
  lemma SafeLinkLeaves(fs: Nodes, nodes: Nodes, host: Nodes, root: Path)
    requires Holds(fs, nodes, host, root) && AllOpen(nodes)
    requires [A] in nodes && nodes[[A]].Dir? && [A, B] in nodes && nodes[[A, B]].Dir?
    requires [A, B, B] in nodes && nodes[[A, B, B]] == Link(UP)
    ensures Reassembly.StaysBelow(|[A, B]|, Paths.Split(VIA))
    ensures LinkTargets.Leaves(fs, root, root + [A, B], Paths.Split(VIA), MOST_LINKS - 1)
  {
    NamesNormal();
    Targets();
    TwoUp();
    DirectoryOpen(fs, nodes, host, root, [A]);
    DirectoryOpen(fs, nodes, host, root, [A, B]);
    RootOpen(fs, nodes, host, root);
    LinkAt(fs, nodes, host, root, [A, B, B]);
    hide Holds, AllOpen, LinkTargets.Leaves, Searchable, Paths.NormalComponent, Paths.Split, Reassembly.StaysBelow;
    assert root + [A, B] + [B] == root + [A, B, B] && Above(root + [A, B]) == root + [A] && Above(root + [A]) == root;
    assert [B, DOTS, DOTS] == [B] + [DOTS, DOTS] && |[A, B]| == 2;
    ViaLeaves(fs, root, root + [A, B], B, UP, [DOTS, DOTS], MOST_LINKS - 1);
    assert [DOTS, DOTS] + [DOTS, DOTS] == [DOTS] + ([DOTS] + ([DOTS] + [DOTS]));
    UpLeaves(fs, root, root + [A, B], [DOTS] + ([DOTS] + [DOTS]), MOST_LINKS - 2);
    UpLeaves(fs, root, root + [A], [DOTS] + [DOTS], MOST_LINKS - 2);
    UpLeaves(fs, root, root, [DOTS], MOST_LINKS - 2);
  }
}
