/** From a file tree through the stream and the validator back to a file tree. */
module EndToEnd {
  import opened Agreement
  import opened Artifacts
  import opened Bytes
  import opened Capture
  import opened Delivery
  import opened Discovery
  import opened Extraction
  import opened Production
  import opened Lexical
  import opened Records
  import opened RoundTrip
  import opened Session
  import opened StageTree
  import opened Traversal
  import opened Validation
  import Acceptance
  import Grammar
  import Host
  import HostStage
  import LinksFollowed
  import Paths
  import Reassembly
  import SecondPass
  import Sha256Spec
  import Success

  // The validator's list of artifacts.

  lemma FinalArtifacts(s: State, m: ModuleFacts, f: Findings, chunkSize: nat)
    requires Begun(s, chunkSize) && FilesystemFacts(m) && FilesFrom(m, f.files) && Established(m, f)
    requires ChunkSizeAdmitted(chunkSize) && EntriesGranted(CountedPart(Some(m), f))
    requires CleanGroups(f.candidates, m.world, |f.candidates|, chunkSize)
    ensures var rs := CountedPart(Some(m), f) + ArtifactRecords(f.candidates, m.world, chunkSize);
            && NoFooter(rs) && RunRecords(s, rs).Some?
            && RunRecords(s, rs).value.artifacts == ArtifactsOf(f.candidates, m.world, |f.candidates|)
  {
    hide RunRecords, Begun, CountedPart, Tally, EntriesGranted, FilesFrom, FilesystemFacts, FlowRun, AllPlain, NoFooter,
      Problems, CapturedCount, CleanGroups, Ready, AllLocated, Established, GroupsRecords, Holding, ArtifactsOf;
    var c, cs := CountedPart(Some(m), f), f.candidates;
    var n := |cs|;
    var g, p := GroupsRecords(cs, m.world, n), Problems(cs, m.world, n);
    CountedFlows(s, Some(m), f, chunkSize);
    DiscoveredLocated(m, f);
    AfterCounted(s, c, chunkSize);
    var t := RunRecords(s, c).value;
    GroupsAccepted(t, cs, m.world, n, chunkSize);
    HeldFacts(t, cs, m.world, n, chunkSize);
    ProblemsDiagnostics(cs, m.world, n);
    DiagnosticsRun(Holding(t, cs, m.world, n), p);
    RunRecordsAppend(t, g, p);
    RunRecordsAppend(s, c, g + p);
  }

  /** The footer adds nothing to the list. */
  lemma FooterKeepsArtifacts(s: State, footer: Line)
    requires footer.record.Footer? && Step(s, footer).Some?
    ensures Step(s, footer).value.artifacts == s.artifacts
  {
    hide FooterOk;
  }

  lemma AlikeArtifacts(s: State, t: State)
    requires Alike(s, t)
    ensures s.artifacts == t.artifacts
  {
  }

  lemma AcceptedRuns(lines: seq<Line>)
    requires Accepts(lines)
    ensures Run(INITIAL_STATE, lines).Some?
  {
  }

  /** What the validator remembers of an accepted, numbered stream is what its records lead to. */
  lemma RememberedArtifacts(lines: seq<Line>)
    requires |lines| >= 2 && Grammar.Sequenced(lines) && Accepts(lines) && lines[|lines| - 1].record.Footer?
    requires NoFooter(RecordsOf(lines[..|lines| - 1]))
    ensures Run(INITIAL_STATE, lines).Some?
    ensures RunRecords(INITIAL_STATE, RecordsOf(lines[..|lines| - 1])).Some?
    ensures Run(INITIAL_STATE, lines).value.artifacts ==
            RunRecords(INITIAL_STATE, RecordsOf(lines[..|lines| - 1])).value.artifacts
  {
    hide Step, Run, RunRecords, Accepts, Grammar.Sequenced, RecordsOf, NoFooter, Alike, Acceptance.Framing;
    var n := |lines| - 1;
    var body, footer := lines[..n], lines[n];
    assert lines == body + [footer];
    AcceptedRuns(lines);
    Acceptance.SequencedSnoc(body, footer);
    LinesRun(body);
    Acceptance.RunSnoc(INITIAL_STATE, body, footer);
    var t := Run(INITIAL_STATE, body).value;
    FooterKeepsArtifacts(t, footer);
    AlikeArtifacts(RunRecords(INITIAL_STATE, RecordsOf(body)).value, t);
  }

  // Only artifact records matter to the second pass.

  lemma PlainBuildStep(b: Build, r: Record, artifacts: seq<Artifact>, special: bool)
    requires !r.ArtifactBegin? && !r.ArtifactChunk? && !r.ArtifactEnd?
    ensures BuildStep(b, r, artifacts, special) == Some(b)
  {
  }

  lemma {:induction false} PlainBuild(b: Build, rs: seq<Record>, artifacts: seq<Artifact>, special: bool)
    requires forall i :: 0 <= i < |rs| ==> !rs[i].ArtifactBegin? && !rs[i].ArtifactChunk? && !rs[i].ArtifactEnd?
    ensures BuildRun(b, rs, artifacts, special) == Some(b)
    decreases |rs|
  {
    hide BuildStep;
    if rs != [] {
      PlainBuildStep(b, rs[0], artifacts, special);
      PlainBuild(b, rs[1..], artifacts, special);
    }
  }

  /** The second pass over a whole stream is the second pass over its groups. */
  lemma OnlyGroupsBuild(header: Record, c: seq<Record>, g: seq<Record>, p: seq<Record>, footer: Record,
                        artifacts: seq<Artifact>, special: bool)
    requires header.Header? && footer.Footer? && AllPlain(c) && AllDiagnostics(p)
    ensures BuildRun(EMPTY_STAGE, [header] + (c + (g + p)) + [footer], artifacts, special) ==
            BuildRun(EMPTY_STAGE, g, artifacts, special)
  {
    AllPlainRecords(c);
    hide BuildRun, BuildStep, AllPlain;
    BuildAppend(EMPTY_STAGE, [header] + (c + (g + p)), [footer], artifacts, special);
    BuildAppend(EMPTY_STAGE, [header], c + (g + p), artifacts, special);
    BuildAppend(EMPTY_STAGE, c, g + p, artifacts, special);
    BuildAppend(EMPTY_STAGE, g, p, artifacts, special);
    PlainBuild(EMPTY_STAGE, [header], artifacts, special);
    PlainBuild(EMPTY_STAGE, c, artifacts, special);
    var t := BuildRun(EMPTY_STAGE, g, artifacts, special);
    if t.Some? {
      PlainBuild(t.value, p, artifacts, special);
      PlainBuild(t.value, [footer], artifacts, special);
    }
  }

  lemma AllPlainRecords(c: seq<Record>)
    requires AllPlain(c)
    ensures forall i :: 0 <= i < |c| ==> !c[i].ArtifactBegin? && !c[i].ArtifactChunk? && !c[i].ArtifactEnd?
  {
    forall i | 0 <= i < |c|
      ensures !c[i].ArtifactBegin? && !c[i].ArtifactChunk? && !c[i].ArtifactEnd?
    {
      assert Plain(c[i]);
    }
  }

  // A captured tree can be rebuilt.

  lemma CleanIsOrdered(m: ModuleFacts, f: Findings, chunkSize: nat)
    requires FilesystemFacts(m) && FilesFrom(m, f.files) && Established(m, f)
    requires CleanGroups(f.candidates, m.world, |f.candidates|, chunkSize) && Success.ArtifactsClean(m, f)
    ensures StrictlySorted(f.candidates) && Distinct(f.candidates) && AllNormal(f.candidates, m.world)
  {
    hide FilesystemFacts, FilesFrom, TreeClosed, Captured, StrictlySorted, Enumerated, EndsAt, Sorted, StableOf;
    DiscoveredLocated(m, f);
    var cs := f.candidates;
    EstablishedOrder(m, f);
    forall i | 0 <= i < |cs|
      ensures Captured(m.world(cs[i])) && CleanAt(cs, m.world, i, chunkSize) && Located(cs[i])
    {
      assert CleanAt(cs, m.world, i, chunkSize);
    }
    forall i | 0 <= i < |cs|
      ensures Paths.NormalComponents(cs[i].components)
      ensures forall j :: 0 <= j < i ==> cs[j].components != cs[i].components
    {
      CleanPlace(cs, m.world, i, chunkSize);
    }
  }

  lemma EstablishedOrder(m: ModuleFacts, f: Findings)
    requires Established(m, f)
    ensures StrictlySorted(f.candidates)
  {
    hide StrictlySorted, Enumerated, EndsAt, Sorted;
  }

  lemma CleanPlace(cs: seq<Candidate>, world: World, i: nat, chunkSize: int)
    requires i < |cs| && CleanAt(cs, world, i, chunkSize) && Located(cs[i])
    requires forall j :: 0 <= j <= i ==> Captured(world(cs[j]))
    ensures Paths.NormalComponents(cs[i].components)
    ensures forall j :: 0 <= j < i ==> cs[j].components != cs[i].components
  {
    hide Captured, StableOf, ContentOf, FullExceptLast, Paths.NormalComponents;
  }

  /** By spelling, the second pass over a successful, accepted extraction goes through exactly if what has something
      captured below it was captured as a directory. */
  lemma CaptureBySpelling(lines: seq<Line>, counts: map<RecordType, int>, m: ModuleFacts, chunkSize: nat,
                          fault: Option<Fault>, f: Findings, special: bool)
    requires Captures(lines, counts, m, chunkSize, fault, f)
    ensures Run(INITIAL_STATE, lines).Some? && OrderedCapture(f.candidates, m.world)
    ensures var artifacts := Run(INITIAL_STATE, lines).value.artifacts;
            var b := BuildRun(EMPTY_STAGE, RecordsOf(lines), artifacts, special);
            && artifacts == ArtifactsOf(f.candidates, m.world, |f.candidates|)
            && (b.Some? <==> TreeClosed(f.candidates, m.world))
            && (b.Some? ==>
                  Rebuildable(f.candidates, m.world) && Built(b, f.candidates, m.world, |f.candidates|, special))
  {
    hide *;
    var cs := f.candidates;
    CaptureParts(lines, counts, m, chunkSize, fault, f);
    ListedArtifacts(lines, counts, m, chunkSize, fault, f);
    var artifacts := Run(INITIAL_STATE, lines).value.artifacts;
    AcceptableParts(m, chunkSize, fault, f);
    GroupsOnly(lines, counts, m, chunkSize, fault, f, artifacts, special);
    Success.SuccessMeans(true, Some(m), chunkSize, fault, Whole(f));
    PossibleParts(m, chunkSize, fault, f);
    CleanIsOrdered(m, f, chunkSize);
    OrderedIs(cs, m.world);
    BuiltIffClosed(cs, m.world, artifacts, special);
    if BuildRun(EMPTY_STAGE, RecordsOf(lines), artifacts, special).Some? {
      ClosedIsRebuildable(cs, m.world);
      GroupsBuild(cs, m.world, |cs|, artifacts, special);
    }
  }

  /** Lines that report a successful extraction and are accepted. */
  ghost predicate Captures(lines: seq<Line>, counts: map<RecordType, int>, m: ModuleFacts, chunkSize: nat,
                           fault: Option<Fault>, f: Findings)
  {
    && lines != [] && FilesystemFacts(m) && Possible(true, Some(m), chunkSize, fault, Whole(f))
    && Reports(lines, HeaderOf(chunkSize), BodyOf(Some(m), chunkSize, Whole(f)),
               TotalsOf(Some(m), chunkSize, fault, Whole(f)), ArtifactTotals(Some(m), chunkSize, Whole(f)), counts)
    && Grammar.Sequenced(lines) && Accepts(lines) && Acceptable(Some(m), chunkSize, fault, Whole(f))
    && TotalsOf(Some(m), chunkSize, fault, Whole(f)).diagnostics.error == 0
  }

  lemma CaptureParts(lines: seq<Line>, counts: map<RecordType, int>, m: ModuleFacts, chunkSize: nat,
                     fault: Option<Fault>, f: Findings)
    requires Captures(lines, counts, m, chunkSize, fault, f)
    ensures lines != [] && FilesystemFacts(m) && Possible(true, Some(m), chunkSize, fault, Whole(f))
    ensures Reports(lines, HeaderOf(chunkSize), BodyOf(Some(m), chunkSize, Whole(f)),
                    TotalsOf(Some(m), chunkSize, fault, Whole(f)), ArtifactTotals(Some(m), chunkSize, Whole(f)), counts)
    ensures Grammar.Sequenced(lines) && Accepts(lines) && Acceptable(Some(m), chunkSize, fault, Whole(f))
    ensures TotalsOf(Some(m), chunkSize, fault, Whole(f)).diagnostics.error == 0
  {
    hide FilesystemFacts, Possible, Reports, Acceptable, TotalsOf, BodyOf, HeaderOf, ArtifactTotals, Accepts,
      Grammar.Sequenced;
  }

  predicate OrderedCapture(cs: seq<Candidate>, world: World)
  {
    StrictlySorted(cs) && Distinct(cs) && AllNormal(cs, world)
  }

  lemma OrderedIs(cs: seq<Candidate>, world: World)
    requires StrictlySorted(cs) && Distinct(cs) && AllNormal(cs, world)
    ensures OrderedCapture(cs, world)
  {
    hide StrictlySorted, Distinct, AllNormal;
  }

  /** Nothing is captured below a captured link. */
  predicate LinksBare(cs: seq<Candidate>, world: World)
  {
    forall i, j ::
      0 <= i < |cs| && 0 <= j < |cs| && Captured(world(cs[i])) && Captured(world(cs[j]))
      && Paths.Below(cs[j].components, cs[i].components) ==>
        !world(cs[i]).LinkSeen?
  }

  lemma ClosedIsBare(cs: seq<Candidate>, world: World)
    requires TreeClosed(cs, world)
    ensures LinksBare(cs, world)
  {
    hide Captured;
  }

  /** Every listed artifact is that of a captured candidate. */
  lemma {:induction false} OfCandidate(cs: seq<Candidate>, world: World, n: nat, k: nat) returns (i: nat)
    requires n <= |cs| && k < |ArtifactsOf(cs, world, n)|
    ensures i < n && Captured(world(cs[i])) && ArtifactsOf(cs, world, n)[k] == ArtifactOf(cs[i], world(cs[i]), k)
  {
    hide Captured, ArtifactOf;
    if k < |ArtifactsOf(cs, world, n - 1)| {
      i := OfCandidate(cs, world, n - 1, k);
    } else {
      i := n - 1;
    }
  }

  lemma ArtifactKind(c: Candidate, o: Observation, id: nat)
    requires Captured(o)
    ensures ArtifactOf(c, o, id).components == c.components
    ensures ArtifactOf(c, o, id).fileType == Symlink <==> o.LinkSeen?
  {
    hide PathOf, ContentOf;
  }

  lemma BareIsListed(cs: seq<Candidate>, world: World)
    requires LinksBare(cs, world)
    ensures LinksFollowed.NothingBelowLinks(ArtifactsOf(cs, world, |cs|))
  {
    hide Captured, ArtifactOf, ArtifactsOf;
    var all := ArtifactsOf(cs, world, |cs|);
    forall i, j | 0 <= i < |all| && 0 <= j < |all| && Paths.Below(all[j].components, all[i].components)
      ensures all[i].fileType != Symlink
    {
      var x := OfCandidate(cs, world, |cs|, i);
      var y := OfCandidate(cs, world, |cs|, j);
      ArtifactKind(cs[x], world(cs[x]), i);
      ArtifactKind(cs[y], world(cs[y]), j);
    }
  }

  lemma DueNormal(cs: seq<Candidate>, world: World, b: Build, due: seq<(Path, int)>)
    requires b.directories == Due(cs, world, |cs|) && AllNormal(cs, world) && multiset(due) == multiset(b.directories)
    ensures forall k :: 0 <= k < |due| ==> Paths.NormalComponents(due[k].0)
  {
    hide Captured, Due, Paths.NormalComponents;
    forall k | 0 <= k < |due|
      ensures Paths.NormalComponents(due[k].0)
    {
      var i := InDue(b, cs, world, due, k);
    }
  }

  lemma BuiltDue(b: Build, cs: seq<Candidate>, world: World, special: bool)
    requires Built(Some(b), cs, world, |cs|, special) && Rebuildable(cs, world)
    ensures b.directories == Due(cs, world, |cs|) && AllNormal(cs, world)
  {
    hide StageHolds, AllNormal, Due;
  }

  /** A stage that holds the capture becomes the captured tree. */
  lemma ModesOfCapture(h: Build, b: Build, cs: seq<Candidate>, world: World, due: seq<(Path, int)>, special: bool,
                       host: Nodes, root: Path)
    requires HostStage.Beside(h, b, host, root) && Built(Some(b), cs, world, |cs|, special) && Rebuildable(cs, world)
    requires DeepestFirst(due) && multiset(due) == multiset(b.directories)
    ensures var t := Host.HostModes(h.nodes, root, due, special);
            && t.Some? && TreeRebuilt(Host.Inside(t.value, root), cs, world, special)
            && Host.Untouched(Host.WithStage(host, root), t.value, root)
  {
    BuiltDue(b, cs, world, special);
    DueNormal(cs, world, b, due);
    TreeIsRebuilt(b, cs, world, due, special);
    hide Built, Rebuildable, DeepestFirst, Host.HostModes, ChangeModes, TreeRebuilt, Host.Inside, Host.Untouched,
      Host.WithStage, IsTree, HostStage.AllOpen, Due, AllNormal, Paths.NormalComponents;
    HostStage.ModesBeside(h.nodes, b.nodes, host, root, due, special);
  }

  /** With nothing captured below a captured link the second pass goes through exactly if the capture is a tree, and
      then nothing outside the stage has changed. */
  lemma BareCapture(lines: seq<Line>, counts: map<RecordType, int>, m: ModuleFacts, chunkSize: nat,
                    fault: Option<Fault>, f: Findings, special: bool, host: Nodes, root: Path, result: Option<Nodes>)
    requires Captures(lines, counts, m, chunkSize, fault, f) && LinksBare(f.candidates, m.world)
             && Host.Vacant(host, root)
    requires Run(INITIAL_STATE, lines).Some?
    requires Reassembly.Rebuilt(lines, Run(INITIAL_STATE, lines).value.artifacts, special, host, root, result)
    ensures result.Some? <==> TreeClosed(f.candidates, m.world)
    ensures result.Some? ==>
              && TreeRebuilt(Host.Inside(result.value, root), f.candidates, m.world, special)
              && Host.Untouched(Host.WithStage(host, root), result.value, root)
  {
    hide Captures, LinksBare, Host.Vacant, Run, Accepts, RecordsOf, TreeClosed, TreeRebuilt, Host.Inside,
      Host.Untouched, Host.WithStage, Host.HostRun, BuildRun, Built, Rebuildable, HostStage.Beside,
      LinksFollowed.NothingBelowLinks, ArtifactsOf, Host.HostModes, DeepestFirst, SecondPass.FullStage,
      SecondPass.Buildable, OrderedCapture;
    var cs := f.candidates;
    CaptureBySpelling(lines, counts, m, chunkSize, fault, f, special);
    CaptureParts(lines, counts, m, chunkSize, fault, f);
    BareIsListed(cs, m.world);
    LinksFollowed.AcceptedOnHost(lines, special, host, root);
    var all, rs := Run(INITIAL_STATE, lines).value.artifacts, RecordsOf(lines);
    var h, b := Host.HostRun(Host.StartOn(host, root), rs, all, special, root), BuildRun(EMPTY_STAGE, rs, all, special);
    if h.Some? {
      var due: seq<(Path, int)> :|
        && DeepestFirst(due) && multiset(due) == multiset(h.value.directories)
        && result == Host.HostModes(h.value.nodes, root, due, special);
      LinksFollowed.SameDue(h.value, b.value, host, root);
      SomeOf(b);
      ModesOfCapture(h.value, b.value, cs, m.world, due, special, host, root);
    }
  }

  lemma SomeOf(b: Option<Build>)
    requires b.Some?
    ensures b == Some(b.value)
  {
  }

  /** A successful, accepted extraction is turned back into the captured directories, files and links if and only if
      what has something captured below it was captured as a directory; whatever links are followed otherwise. */
  lemma CaptureThenReassemble(lines: seq<Line>, counts: map<RecordType, int>, m: ModuleFacts, chunkSize: nat,
                              fault: Option<Fault>, f: Findings, special: bool, host: Nodes, root: Path,
                              result: Option<Nodes>)
    requires Captures(lines, counts, m, chunkSize, fault, f) && Host.Vacant(host, root)
    requires Run(INITIAL_STATE, lines).Some?
    requires Reassembly.Rebuilt(lines, Run(INITIAL_STATE, lines).value.artifacts, special, host, root, result)
    ensures result.Some? && TreeRebuilt(Host.Inside(result.value, root), f.candidates, m.world, special) <==>
            TreeClosed(f.candidates, m.world)
    ensures LinksBare(f.candidates, m.world) ==> (result.Some? <==> TreeClosed(f.candidates, m.world))
    ensures result.Some? && LinksBare(f.candidates, m.world)
            ==> Host.Untouched(Host.WithStage(host, root), result.value, root)
  {
    hide Captures, LinksBare, Host.Vacant, Run, RecordsOf, TreeClosed, TreeRebuilt, Host.Inside, Host.Untouched,
      Host.WithStage, Host.HostRun, Host.HostModesSet, IsTree, BuildRun, Built, Rebuildable, ArtifactsOf,
      StrictlySorted, Distinct, AllNormal;
    var cs := f.candidates;
    if LinksBare(cs, m.world) {
      BareCapture(lines, counts, m, chunkSize, fault, f, special, host, root, result);
    }
    if TreeClosed(cs, m.world) {
      ClosedIsBare(cs, m.world);
    }
    if result.Some? && TreeRebuilt(Host.Inside(result.value, root), cs, m.world, special) {
      CaptureBySpelling(lines, counts, m, chunkSize, fault, f, special);
      LinksFollowed.ResultIsTree(Host.StartOn(host, root), RecordsOf(lines), Run(INITIAL_STATE, lines).value.artifacts,
                                 special, host, root, result);
      HostStage.InsideIsTree(result.value, root);
      RebuiltIsClosed(Host.Inside(result.value, root), cs, m.world, special);
    }
  }

  lemma ClosedIsRebuildable(cs: seq<Candidate>, world: World)
    requires StrictlySorted(cs) && Distinct(cs) && AllNormal(cs, world) && TreeClosed(cs, world)
    ensures Rebuildable(cs, world)
  {
    hide StrictlySorted, Distinct, AllNormal, TreeClosed;
  }

  lemma AcceptableParts(m: ModuleFacts, chunkSize: nat, fault: Option<Fault>, f: Findings)
    requires Acceptable(Some(m), chunkSize, fault, Whole(f))
    ensures ChunkSizeAdmitted(chunkSize) && EntriesGranted(CountedPart(Some(m), f))
    ensures CleanGroups(f.candidates, m.world, |f.candidates|, chunkSize)
  {
    hide EntriesGranted, CountedPart, CleanGroups;
  }

  lemma PossibleParts(m: ModuleFacts, chunkSize: nat, fault: Option<Fault>, f: Findings)
    requires Possible(true, Some(m), chunkSize, fault, Whole(f))
    ensures Established(m, f) && FilesFrom(m, f.files)
  {
    hide Established, FilesFrom;
  }

  lemma BodyPlain(m: ModuleFacts, f: Findings, chunkSize: nat)
    requires FilesystemFacts(m) && FilesFrom(m, f.files) && ChunkSizeAdmitted(chunkSize)
    ensures AllPlain(CountedPart(Some(m), f))
    ensures NoFooter([HeaderOf(chunkSize)] + (CountedPart(Some(m), f)
                                              + ArtifactRecords(f.candidates, m.world, chunkSize)))
  {
    HeaderFlows(chunkSize);
    HeaderIs(chunkSize);
    hide FilesystemFacts, FilesFrom, FlowRun, CountedPart, ArtifactRecords, Begun, StepRecord, HeaderOf, NoFooter,
      AllPlain, StartsWell;
    var s := StepRecord(INITIAL_STATE, HeaderOf(chunkSize)).value;
    var c, a := CountedPart(Some(m), f), ArtifactRecords(f.candidates, m.world, chunkSize);
    CountedFlows(s, Some(m), f, chunkSize);
    ArtifactsStart(f.candidates, m.world, chunkSize);
    StartsPlainly(a);
    NoFooterSplit(c, a);
    HeaderPlain(c + a, chunkSize);
  }

  lemma ReportsParts(lines: seq<Line>, header: Record, body: seq<Record>, totals: Totals, artifacts: (nat, nat),
                     counts: map<RecordType, int>)
    requires Reports(lines, header, body, totals, artifacts, counts)
    ensures |lines| >= 2 && RecordsOf(lines[..|lines| - 1]) == [header] + body && lines[|lines| - 1].record.Footer?
  {
    hide RecordsOf, RawOf, Sha256Spec.Sha256Hex;
  }

  /** The validator lists exactly the captured artifacts. */
  lemma ListedArtifacts(lines: seq<Line>, counts: map<RecordType, int>, m: ModuleFacts, chunkSize: nat,
                        fault: Option<Fault>, f: Findings)
    requires lines != [] && FilesystemFacts(m) && Possible(true, Some(m), chunkSize, fault, Whole(f))
    requires Reports(lines, HeaderOf(chunkSize), BodyOf(Some(m), chunkSize, Whole(f)),
                     TotalsOf(Some(m), chunkSize, fault, Whole(f)), ArtifactTotals(Some(m), chunkSize, Whole(f)),
                     counts)
    requires Grammar.Sequenced(lines) && Accepts(lines) && Acceptable(Some(m), chunkSize, fault, Whole(f))
    ensures Run(INITIAL_STATE, lines).Some?
    ensures Run(INITIAL_STATE, lines).value.artifacts == ArtifactsOf(f.candidates, m.world, |f.candidates|)
  {
    HeaderFlows(chunkSize);
    HeaderIs(chunkSize);
    hide *;
    AcceptableParts(m, chunkSize, fault, f);
    PossibleParts(m, chunkSize, fault, f);
    WholeParts(m, chunkSize, fault, f);
    BodyPlain(m, f, chunkSize);
    var body := CountedPart(Some(m), f) + ArtifactRecords(f.candidates, m.world, chunkSize);
    var n := |lines| - 1;
    ReportsParts(lines, HeaderOf(chunkSize), BodyOf(Some(m), chunkSize, Whole(f)),
                 TotalsOf(Some(m), chunkSize, fault, Whole(f)), ArtifactTotals(Some(m), chunkSize, Whole(f)), counts);
    FinalArtifacts(StepRecord(INITIAL_STATE, HeaderOf(chunkSize)).value, m, f, chunkSize);
    RunAfterHeader(body, chunkSize);
    RememberedArtifacts(lines);
  }

  lemma RecordsLast(lines: seq<Line>)
    requires lines != []
    ensures RecordsOf(lines) == RecordsOf(lines[..|lines| - 1]) + [lines[|lines| - 1].record]
  {
  }

  lemma GroupsOnly(lines: seq<Line>, counts: map<RecordType, int>, m: ModuleFacts, chunkSize: nat,
                   fault: Option<Fault>, f: Findings, artifacts: seq<Artifact>, special: bool)
    requires lines != [] && FilesystemFacts(m) && Possible(true, Some(m), chunkSize, fault, Whole(f))
    requires ChunkSizeAdmitted(chunkSize)
    requires Reports(lines, HeaderOf(chunkSize), BodyOf(Some(m), chunkSize, Whole(f)),
                     TotalsOf(Some(m), chunkSize, fault, Whole(f)), ArtifactTotals(Some(m), chunkSize, Whole(f)),
                     counts)
    ensures BuildRun(EMPTY_STAGE, RecordsOf(lines), artifacts, special) ==
            BuildRun(EMPTY_STAGE, GroupsRecords(f.candidates, m.world, |f.candidates|), artifacts, special)
  {
    hide *;
    var cs := f.candidates;
    PossibleParts(m, chunkSize, fault, f);
    WholeParts(m, chunkSize, fault, f);
    BodyPlain(m, f, chunkSize);
    ReportsParts(lines, HeaderOf(chunkSize), BodyOf(Some(m), chunkSize, Whole(f)),
                 TotalsOf(Some(m), chunkSize, fault, Whole(f)), ArtifactTotals(Some(m), chunkSize, Whole(f)), counts);
    RecordsLast(lines);
    ArtifactParts(cs, m.world, chunkSize);
    HeaderIs(chunkSize);
    OnlyGroupsBuild(HeaderOf(chunkSize), CountedPart(Some(m), f), GroupsRecords(cs, m.world, |cs|),
                    Problems(cs, m.world, |cs|), lines[|lines| - 1].record, artifacts, special);
  }

  lemma ArtifactParts(cs: seq<Candidate>, world: World, chunkSize: nat)
    requires ChunkSizeUsable(chunkSize)
    ensures ArtifactRecords(cs, world, chunkSize) == GroupsRecords(cs, world, |cs|) + Problems(cs, world, |cs|)
    ensures AllDiagnostics(Problems(cs, world, |cs|))
  {
    hide GroupsRecords, Problems;
    ProblemsDiagnostics(cs, world, |cs|);
  }

  lemma HeaderIs(chunkSize: nat)
    ensures HeaderOf(chunkSize).Header?
  {
  }
}
