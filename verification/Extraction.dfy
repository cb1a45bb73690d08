/** The two operations of the producer: listing the modules of a root and extracting one module. */
module Extraction {
  import opened Artifacts
  import opened Bytes
  import opened Codes
  import opened Configuration
  import opened Discovery
  import opened Records
  import opened Session
  import opened Sha256Spec
  import opened Traversal
  import Production

  /** What the foreign library and the file system hold ready for the extraction of one module. */
  datatype ModuleFacts = ModuleFacts(
    unknownType: bool,
    tree: Tree,
    reread: Reread,
    settings: seq<(bytes, bytes)>,
    positioned: bool,
    at: Cursor,
    declared: Option<nat>,
    discoverable: bool,
    data: DataPath,
    world: World)

  function TypeNote(m: ModuleFacts): seq<Record>
  {
    if m.unknownType then [Warn(ModuleTypeUnknown)] else []
  }

  function FileNote(files: seq<Candidate>): seq<Record>
  {
    if files == [] then [Warn(ConfigSourceNotFound)] else []
  }

  function ConfigurationRecords(m: ModuleFacts, files: seq<Candidate>): seq<Record>
  {
    FindProblems(m.tree) + FileNote(files) + SourceRecords(files, m.reread, |files|) + SettingRecords(m.settings)
  }

  function WalkOf(m: ModuleFacts, last: nat): seq<Record>
  {
    WalkRecords(m.positioned, m.at, m.declared, last)
  }

  /** The configuration files, as discovery sees them. */
  function Spots(files: seq<Candidate>): seq<Option<seq<bytes>>>
  {
    seq(|files|, i requires 0 <= i < |files| => Some(files[i].components))
  }

  function DiskOf(m: ModuleFacts, files: seq<Candidate>): Disk
  {
    Disk(m.discoverable, Spots(files), m.data)
  }

  /** Everything before the artifacts: module, configuration, entries and what discovery had to complain about. */
  function CountedRecords(m: ModuleFacts, files: seq<Candidate>, last: nat): seq<Record>
  {
    [Module] + TypeNote(m) + ConfigurationRecords(m, files) + WalkOf(m, last)
    + DiscoveryProblems(DiskOf(m, files))
  }

  /** The module record and the note about its type. */
  method EmitModule(e: Emitter, m: ModuleFacts) returns (thrown: bool)
    requires e.Valid() && !e.writer.output.bad
    modifies e, e.writer.Repr
    ensures e.Valid() && Played(old(e.Now()), e.Now(), [Module] + TypeNote(m), true, thrown)
  {
    hide Played, e.Valid, CodeText;
    ghost var start := e.Now();
    thrown := e.Emit(Module);
    if thrown {
      BrokenOffLonger(start, e.Now(), [Module], TypeNote(m), true);
      return;
    }
    ghost var middle := e.Now();
    StillGood(start, middle, [Module], true);
    thrown := Complain(e, if m.unknownType then [Warn(ModuleTypeUnknown)] else []);
    PlayedOn(start, middle, e.Now(), [Module], TypeNote(m), true, thrown);
  }

  method EmitConfiguration(e: Emitter, m: ModuleFacts) returns (thrown: bool, files: seq<Candidate>)
    requires e.Valid() && !e.writer.output.bad
    modifies e, e.writer.Repr
    ensures e.Valid() && Played(old(e.Now()), e.Now(), ConfigurationRecords(m, files), true, thrown)
    ensures !thrown ==> Sorted(files) && multiset(files) == multiset(FoundFiles(m.tree))
    ensures forall c :: c in files ==> c in FoundFiles(m.tree)
  {
    hide Played, e.Valid, CodeText, FindProblems, SourceRecords, SettingRecords, Sorted, FoundFiles;
    ghost var s0 := e.Now();
    thrown, files := FindConfigurationFiles(e, m.tree);
    ghost var p, n, f, c :=
      FindProblems(m.tree), FileNote(files), SourceRecords(files, m.reread, |files|), SettingRecords(m.settings);
    if thrown {
      BrokenOffLonger(s0, e.Now(), p, n, true);
      BrokenOffLonger(s0, e.Now(), p + n, f, true);
      BrokenOffLonger(s0, e.Now(), p + n + f, c, true);
      return;
    }
    ghost var s1 := e.Now();
    StillGood(s0, s1, p, true);
    thrown := Complain(e, if files == [] then [Warn(ConfigSourceNotFound)] else []);
    PlayedOn(s0, s1, e.Now(), p, n, true, thrown);
    if thrown {
      BrokenOffLonger(s0, e.Now(), p + n, f, true);
      BrokenOffLonger(s0, e.Now(), p + n + f, c, true);
      return;
    }
    ghost var s2 := e.Now();
    StillGood(s0, s2, p + n, true);
    thrown := EmitConfigurationSources(e, files, m.reread);
    PlayedOn(s0, s2, e.Now(), p + n, f, true, thrown);
    if thrown {
      BrokenOffLonger(s0, e.Now(), p + n + f, c, true);
      return;
    }
    ghost var s3 := e.Now();
    StillGood(s0, s3, p + n + f, true);
    thrown := EmitInterpretedConfiguration(e, m.settings);
    PlayedOn(s0, s3, e.Now(), p + n + f, c, true, thrown);
  }

  /** The diagnostics of discovery, emitted and counted one by one. */
  method EmitDiagnostics(e: Emitter, problems: seq<Record>) returns (thrown: bool)
    requires e.Valid() && !e.writer.output.bad && forall i :: 0 <= i < |problems| ==> problems[i].Diagnostic?
    modifies e, e.writer.Repr
    ensures e.Valid() && Played(old(e.Now()), e.Now(), problems, true, thrown)
  {
    hide Played, Completed, e.Valid;
    thrown := false;
    ghost var start := e.Now();
    PlayedNothing(start, true);
    for i := 0 to |problems|
      invariant !thrown && e.Valid() && !e.writer.output.bad && Completed(start, e.Now(), problems[..i], true)
    {
      ghost var here := e.Now();
      thrown := e.Diagnose(problems[i].severity, problems[i].code);
      PlayedTake(start, here, e.Now(), problems, i, thrown);
      if thrown {
        return;
      }
    }
    assert problems[..|problems|] == problems;
    CompletedIsPlayed(start, e.Now(), problems, true);
  }

  /** What came out of the body of an extraction. */
  datatype Findings = Findings(files: seq<Candidate>, last: nat, candidates: seq<Candidate>)

  /** The findings that a body that ran to its end must have. */
  ghost predicate Established(m: ModuleFacts, f: Findings)
  {
    && Sorted(f.files) && multiset(f.files) == multiset(FoundFiles(m.tree))
    && (m.positioned ==> EndsAt(m.at, m.declared, f.last))
    && Discovered(Enumerated(DiskOf(m, f.files)), f.candidates)
  }

  /** However far the body came, the files are among those that were found. */
  ghost predicate FilesFrom(m: ModuleFacts, files: seq<Candidate>)
  {
    forall c :: c in files ==> c in FoundFiles(m.tree)
  }

  /** However far the body came, the walk did not go on where it had to end. */
  ghost predicate WalkedTo(m: ModuleFacts, last: nat)
  {
    m.positioned ==> Reaches(m.at, m.declared, last)
  }

  /** Everything before the artifacts. */
  method EmitCounted(e: Emitter, m: ModuleFacts, ghost bound: nat)
    returns (thrown: bool, candidates: seq<Candidate>, clean: bool, ghost f: Findings)
    requires e.Valid() && !e.writer.output.bad && e.totals.entries == 0
    requires m.declared.Some? || Leaves(m.at, m.declared, bound)
    modifies e, e.writer.Repr
    ensures e.Valid() && Played(old(e.Now()), e.Now(), CountedRecords(m, f.files, f.last), true, thrown)
    ensures FilesFrom(m, f.files) && WalkedTo(m, f.last)
    ensures !thrown ==> Established(m, f) && candidates == f.candidates
    ensures !thrown ==> clean == (m.positioned ==> CleanEnd(m.at, m.declared, f.last))
  {
    hide Played, e.Valid, CodeText, ConfigurationRecords, WalkOf, DiscoveryProblems, TypeNote, Sorted, FoundFiles,
      Enumerated, Discovered, EndsAt, Leaves, CleanEnd;
    StartsAnywhere(m);
    candidates, clean, f := [], false, Findings([], 0, []);
    ghost var s0 := e.Now();
    ghost var a := [Module] + TypeNote(m);
    thrown := EmitModule(e, m);
    if thrown {
      Shorter(s0, e.Now(), m, f);
      return;
    }
    ghost var s1 := e.Now();
    StillGood(s0, s1, a, true);
    var files;
    thrown, files := EmitConfiguration(e, m);
    f := f.(files := files);
    PlayedOn(s0, s1, e.Now(), a, ConfigurationRecords(m, files), true, thrown);
    if thrown {
      ShorterYet(s0, e.Now(), m, f);
      return;
    }
    ghost var s2 := e.Now();
    StillGood(s0, s2, a + ConfigurationRecords(m, files), true);
    NoEntriesBefore(s0, s2, m, files);
    ghost var last;
    thrown, clean, last := EmitEntries(e, m.positioned, m.at, m.declared, bound);
    f := f.(last := last);
    WalkIs(m, last);
    PlayedOn(s0, s2, e.Now(), a + ConfigurationRecords(m, files), WalkOf(m, last), true, thrown);
    ghost var problems := DiscoveryProblems(DiskOf(m, files));
    if thrown {
      BrokenOffLonger(s0, e.Now(), a + ConfigurationRecords(m, files) + WalkOf(m, last), problems, true);
      return;
    }
    ghost var s3 := e.Now();
    StillGood(s0, s3, a + ConfigurationRecords(m, files) + WalkOf(m, last), true);
    var diagnostics;
    candidates, diagnostics := DiscoverArtifacts(DiskOf(m, files));
    f := f.(candidates := candidates);
    ProblemsAreDiagnostics(DiskOf(m, files));
    thrown := EmitDiagnostics(e, diagnostics);
    PlayedOn(s0, s3, e.Now(), a + ConfigurationRecords(m, files) + WalkOf(m, last), problems, true, thrown);
  }

  lemma StartsAnywhere(m: ModuleFacts)
    ensures WalkedTo(m, 0)
  {
  }

  lemma {:induction false} FoundNoEntries(entries: seq<Configuration.Entry>)
    ensures forall i :: 0 <= i < |EntriesProblems(entries)| ==> EntriesProblems(entries)[i].Diagnostic?
  {
    hide CodeText;
    if entries != [] {
      FoundNoEntries(entries[1..]);
      hide EntriesFiles;
      var a, b := EntryProblems(entries[0]), StopProblems(entries[0]);
      assert forall i :: 0 <= i < |a| ==> a[i].Diagnostic?;
      assert forall i :: 0 <= i < |b| ==> b[i].Diagnostic?;
    }
  }

  lemma FindDiagnostics(tree: Tree)
    ensures forall i :: 0 <= i < |FindProblems(tree)| ==> FindProblems(tree)[i].Diagnostic?
  {
    hide CodeText, EntriesProblems;
    FoundNoEntries(tree.entries);
  }

  predicate NoEntryIn(rs: seq<Record>)
  {
    forall i :: 0 <= i < |rs| ==> !rs[i].Entry?
  }

  lemma ConfigurationNoEntries(m: ModuleFacts, files: seq<Candidate>)
    ensures NoEntryIn([Module] + TypeNote(m) + ConfigurationRecords(m, files))
  {
    hide CodeText, FindProblems, PathOf, ReadCount;
    FindDiagnostics(m.tree);
    var p, n, f, c :=
      FindProblems(m.tree), FileNote(files), SourceRecords(files, m.reread, |files|), SettingRecords(m.settings);
    assert NoEntryIn(p) && NoEntryIn(n) && NoEntryIn(c) && NoEntryIn([Module] + TypeNote(m));
    assert NoEntryIn(f);
    hide SourceRecords, SettingRecords, FileNote, TypeNote;
    assert NoEntryIn(p + n + f + c);
  }

  lemma NoEntriesBefore(s: Snapshot, t: Snapshot, m: ModuleFacts, files: seq<Candidate>)
    requires Played(s, t, [Module] + TypeNote(m) + ConfigurationRecords(m, files), true, false)
    ensures t.totals.entries == s.totals.entries
  {
    hide ConfigurationRecords, TypeNote, Tally;
    var x := [Module] + TypeNote(m) + ConfigurationRecords(m, files);
    ConfigurationNoEntries(m, files);
    NoEntryTallied(s.totals, x);
  }

  lemma WalkIs(m: ModuleFacts, last: nat)
    ensures WalkOf(m, last) == WalkRecords(m.positioned, m.at, m.declared, last)
  {
  }

  lemma Shorter(s: Snapshot, t: Snapshot, m: ModuleFacts, f: Findings)
    requires Played(s, t, [Module] + TypeNote(m), true, true)
    ensures Played(s, t, CountedRecords(m, f.files, f.last), true, true)
  {
    hide Played, ConfigurationRecords, WalkOf, DiscoveryProblems, TypeNote;
    BrokenOffLonger(s, t, [Module] + TypeNote(m), ConfigurationRecords(m, f.files), true);
    ShorterYet(s, t, m, f);
  }

  lemma ShorterYet(s: Snapshot, t: Snapshot, m: ModuleFacts, f: Findings)
    requires Played(s, t, [Module] + TypeNote(m) + ConfigurationRecords(m, f.files), true, true)
    ensures Played(s, t, CountedRecords(m, f.files, f.last), true, true)
  {
    hide Played, ConfigurationRecords, WalkOf, DiscoveryProblems, TypeNote;
    var x := [Module] + TypeNote(m) + ConfigurationRecords(m, f.files);
    BrokenOffLonger(s, t, x, WalkOf(m, f.last), true);
    BrokenOffLonger(s, t, x + WalkOf(m, f.last), DiscoveryProblems(DiskOf(m, f.files)), true);
  }

  lemma ProblemsAreDiagnostics(disk: Disk)
    ensures forall i :: 0 <= i < |DiscoveryProblems(disk)| ==> DiscoveryProblems(disk)[i].Diagnostic?
  {
    hide CodeText, PrefixPlaces;
    ConfigurationDiagnostics(disk.configurations);
  }

  lemma {:induction false} ConfigurationDiagnostics(files: seq<Option<seq<bytes>>>)
    ensures forall i :: 0 <= i < |ConfigurationProblems(files)| ==> ConfigurationProblems(files)[i].Diagnostic?
  {
    hide CodeText;
    if files != [] {
      ConfigurationDiagnostics(files[..|files| - 1]);
    }
  }

  // Whole operations.

  /** How an extraction went. */
  datatype Course =
    | Refused
    | Whole(f: Findings)
    | BrokenCounted(f: Findings, k: nat)
    | BrokenArtifacts(f: Findings, k: nat)

  /** The part before the artifacts; a module that is not there leaves only a diagnostic. */
  function CountedPart(m: Option<ModuleFacts>, f: Findings): seq<Record>
  {
    if m.None? then [Err(ModuleNotFound)] else CountedRecords(m.value, f.files, f.last)
  }

  function ArtifactPart(m: Option<ModuleFacts>, f: Findings, chunkSize: nat): seq<Record>
  {
    if m.None? then [] else ArtifactRecords(f.candidates, m.value.world, chunkSize)
  }

  function HeaderOf(chunkSize: nat): Record
  {
    Header(Extract, if chunkSize != 0 then Some(chunkSize) else None)
  }

  /** The course fits the facts and the fault. */
  ghost predicate Possible(rootValid: bool, m: Option<ModuleFacts>, chunkSize: nat, fault: Option<Fault>,
                           course: Course)
  {
    match course
    case Refused => !rootValid
    case Whole(f) =>
      && rootValid && (m.Some? ==> Established(m.value, f) && FilesFrom(m.value, f.files))
      && (fault.Some? ==> fault.value.after >= |CountedPart(m, f)| + |ArtifactPart(m, f, chunkSize)|)
    case BrokenCounted(f, k) =>
      && rootValid && (m.Some? ==> FilesFrom(m.value, f.files) && WalkedTo(m.value, f.last))
      && k <= |CountedPart(m, f)| && fault.Some? && fault.value.after == k
      && (k == |CountedPart(m, f)| ==> !fault.value.inside)
    case BrokenArtifacts(f, k) =>
      && rootValid && m.Some? && Established(m.value, f) && FilesFrom(m.value, f.files)
         && k <= |ArtifactPart(m, f, chunkSize)|
      && fault.Some? && fault.value.after == |CountedPart(m, f)| + k
  }

  /** What the guarded part emits before it ends or an exception ends it. */
  function Guarded(m: Option<ModuleFacts>, chunkSize: nat, course: Course): seq<Record>
  {
    match course
    case Refused => []
    case Whole(f) => CountedPart(m, f) + ArtifactPart(m, f, chunkSize)
    case BrokenCounted(f, k) => if k <= |CountedPart(m, f)| then CountedPart(m, f)[..k] else []
    case BrokenArtifacts(f, k) =>
      CountedPart(m, f) + if k <= |ArtifactPart(m, f, chunkSize)| then ArtifactPart(m, f, chunkSize)[..k] else []
  }

  function GuardedTotals(m: Option<ModuleFacts>, chunkSize: nat, fault: Option<Fault>, course: Course): Totals
  {
    match course
    case Refused => NO_TOTALS
    case Whole(f) =>
      var t := Tally(NO_TOTALS, CountedPart(m, f));
      if m.None? then t else Tally(t, ReportedProblems(f.candidates, m.value.world, chunkSize))
    case BrokenCounted(f, k) =>
      if k <= |CountedPart(m, f)| && fault.Some?
      then TotalsAtBreak(NO_TOTALS, CountedPart(m, f), k, fault.value.inside) else NO_TOTALS
    case BrokenArtifacts(f, _) => Tally(NO_TOTALS, CountedPart(m, f))
  }

  predicate Broken(course: Course)
  {
    course.BrokenCounted? || course.BrokenArtifacts?
  }

  /** What is said at the end when something went wrong as a whole. */
  function LastWords(course: Course): seq<Record>
  {
    if course.Refused? then [Err(SwordRootInvalid)]
    else if Broken(course) then [Err(ExtractionException)]
    else []
  }

  /** Everything between header and footer. */
  function BodyOf(m: Option<ModuleFacts>, chunkSize: nat, course: Course): seq<Record>
  {
    Guarded(m, chunkSize, course) + LastWords(course)
  }

  /** The totals the footer reports. */
  function TotalsOf(m: Option<ModuleFacts>, chunkSize: nat, fault: Option<Fault>, course: Course): Totals
  {
    Tally(GuardedTotals(m, chunkSize, fault, course), LastWords(course))
  }

  /** The artifact totals the footer reports: number and octets. */
  function ArtifactTotals(m: Option<ModuleFacts>, chunkSize: nat, course: Course): (nat, nat)
  {
    if course.Whole? && m.Some? && ChunkSizeUsable(chunkSize) then
      var cs := course.f.candidates;
      (CapturedCount(cs, m.value.world, |cs|), CapturedBytes(cs, m.value.world, |cs|))
    else (0, 0)
  }

  /** Between `a` and `b` the guarded part took the given course. */
  ghost predicate Went(a: Snapshot, b: Snapshot, m: Option<ModuleFacts>, chunkSize: nat, thrown: bool,
                       artifacts: nat, size: nat, course: Course)
  {
    && Possible(true, m, chunkSize, a.fault, course) && !course.Refused? && thrown == Broken(course)
    && b.emitted == a.emitted + Guarded(m, chunkSize, course)
    && b.totals == GuardedTotals(m, chunkSize, a.fault, course)
    && (artifacts, size) == ArtifactTotals(m, chunkSize, course)
    && !b.bad
  }

  lemma WentCounted(a: Snapshot, b: Snapshot, m: Option<ModuleFacts>, chunkSize: nat, f: Findings)
    returns (course: Course)
    requires Played(a, b, CountedPart(m, f), true, true) && !b.bad && a.totals == NO_TOTALS
    requires m.Some? ==> FilesFrom(m.value, f.files) && WalkedTo(m.value, f.last)
    ensures Went(a, b, m, chunkSize, true, 0, 0, course)
  {
    hide WalkedTo, CountedPart, ArtifactPart, TotalsAtBreak, FilesFrom, Established;
    var k: nat :| BrokenOff(a, b, CountedPart(m, f), true, k);
    course := BrokenCounted(f, k);
  }

  lemma WentArtifacts(a: Snapshot, b: Snapshot, c: Snapshot, m: ModuleFacts, chunkSize: nat, f: Findings)
    returns (course: Course)
    requires Completed(a, b, CountedPart(Some(m), f), true) && a.totals == NO_TOTALS
    requires Played(b, c, ArtifactPart(Some(m), f, chunkSize), false, true) && !c.bad && Established(m, f)
    requires FilesFrom(m, f.files)
    ensures Went(a, c, Some(m), chunkSize, true, 0, 0, course)
  {
    hide CountedPart, ArtifactPart, TotalsAtBreak, FilesFrom, Established, Tally;
    var k: nat :| BrokenOff(b, c, ArtifactPart(Some(m), f, chunkSize), false, k);
    course := BrokenArtifacts(f, k);
    var p := ArtifactPart(Some(m), f, chunkSize)[..k];
    assert a.emitted + CountedPart(Some(m), f) + p == a.emitted + (CountedPart(Some(m), f) + p);
  }

  lemma WentWhole(a: Snapshot, b: Snapshot, c: Snapshot, d: Snapshot, m: ModuleFacts, chunkSize: nat, f: Findings,
                  result: ArtifactResult)
    requires Completed(a, b, CountedPart(Some(m), f), true) && a.totals == NO_TOTALS && Established(m, f)
    requires FilesFrom(m, f.files)
    requires Played(b, c, ArtifactPart(Some(m), f, chunkSize), false, false)
    requires d == c.(totals := Tally(c.totals, ReportedProblems(f.candidates, m.world, chunkSize)))
    requires (result.artifacts, result.size) == ArtifactTotals(Some(m), chunkSize, Whole(f))
    ensures Went(a, d, Some(m), chunkSize, false, result.artifacts, result.size, Whole(f))
  {
    hide CountedPart, ArtifactPart, TotalsAtBreak, FilesFrom, Established, Tally, ReportedProblems, ArtifactTotals;
    var p := ArtifactPart(Some(m), f, chunkSize);
    assert a.emitted + CountedPart(Some(m), f) + p == a.emitted + (CountedPart(Some(m), f) + p);
  }

  lemma {:induction false} ProblemsDiagnostics(cs: seq<Candidate>, world: World, n: nat)
    requires n <= |cs|
    ensures forall i :: 0 <= i < |Problems(cs, world, n)| ==> Problems(cs, world, n)[i].Diagnostic?
  {
    hide CodeText, ReadFails;
    if n > 0 {
      ProblemsDiagnostics(cs, world, n - 1);
    }
  }

  lemma ReportedDiagnostics(cs: seq<Candidate>, world: World, chunkSize: nat)
    ensures forall i :: 0 <= i < |ReportedProblems(cs, world, chunkSize)| ==>
                          ReportedProblems(cs, world, chunkSize)[i].Diagnostic?
  {
    hide CodeText, Problems;
    ProblemsDiagnostics(cs, world, |cs|);
  }

  lemma Parts(m: ModuleFacts, f: Findings, chunkSize: nat)
    ensures CountedPart(Some(m), f) == CountedRecords(m, f.files, f.last)
    ensures ArtifactPart(Some(m), f, chunkSize) == ArtifactRecords(f.candidates, m.world, chunkSize)
  {
    hide CountedRecords, ArtifactRecords;
  }

  /** The guarded part of an extraction, for a module that was found. */
  method ExtractBody(e: Emitter, m: ModuleFacts, chunkSize: nat, ghost bound: nat)
    returns (thrown: bool, artifacts: nat, size: nat, ghost course: Course)
    requires e.Valid() && !e.writer.output.bad && e.totals == NO_TOTALS
    requires m.declared.Some? || Leaves(m.at, m.declared, bound)
    modifies e, e.writer.Repr
    ensures e.Valid()
    ensures !e.writer.output.bad ==> Went(old(e.Now()), e.Now(), Some(m), chunkSize, thrown, artifacts, size, course)
    ensures e.writer.output.bad ==> thrown
  {
    hide Played, Completed, e.Valid, CountedRecords, ArtifactRecords, ReportedProblems, Established, CapturedCount,
      CapturedBytes, CleanEnd, Went, Tally, CountedPart, ArtifactPart, FilesFrom, WalkedTo;
    artifacts, size := 0, 0;
    ghost var s0 := e.Now();
    var candidates, clean;
    ghost var f;
    thrown, candidates, clean, f := EmitCounted(e, m, bound);
    course := Whole(f);
    Parts(m, f, chunkSize);
    if thrown {
      if !e.writer.output.bad {
        course := WentCounted(s0, e.Now(), Some(m), chunkSize, f);
      }
      return;
    }
    ghost var s1 := e.Now();
    PlayedIsCompleted(s0, s1, CountedRecords(m, f.files, f.last), true);
    var result;
    thrown, result := EmitArtifacts(e, candidates, m.world, chunkSize);
    if thrown {
      if !e.writer.output.bad {
        course := WentArtifacts(s0, s1, e.Now(), m, chunkSize, f);
      }
      return;
    }
    ghost var s2 := e.Now();
    StillGood(s1, s2, ArtifactRecords(candidates, m.world, chunkSize), false);
    artifacts, size := result.artifacts, result.size;
    ReportedDiagnostics(candidates, m.world, chunkSize);
    CountReported(e, result.diagnostics);
    WentWhole(s0, s1, s2, e.Now(), m, chunkSize, f, result);
  }

  /** The diagnostics the capture reported are added to the totals after the fact. */
  method CountReported(e: Emitter, problems: seq<Record>)
    requires e.Valid() && forall i :: 0 <= i < |problems| ==> problems[i].Diagnostic?
    modifies e`totals
    ensures e.Valid() && e.totals == Tally(old(e.totals), problems)
  {
    hide CountDiagnostic;
    assert problems[0..] == problems;
    for i := 0 to |problems|
      invariant Tally(e.totals, problems[i..]) == Tally(old(e.totals), problems)
    {
      assert problems[i..][0] == problems[i] && problems[i..][1..] == problems[i + 1..];
      e.totals := e.totals.(diagnostics := CountDiagnostic(e.totals.diagnostics, problems[i].severity));
    }
    assert problems[|problems|..] == [];
  }

  /** The guarded part when the library does not know the module. */
  method ReportUnknown(e: Emitter) returns (thrown: bool, ghost course: Course)
    requires e.Valid() && !e.writer.output.bad && e.totals == NO_TOTALS
    modifies e, e.writer.Repr
    ensures e.Valid()
    ensures !e.writer.output.bad ==> forall chunkSize ::
            Went(old(e.Now()), e.Now(), None, chunkSize, thrown, 0, 0, course)
    ensures e.writer.output.bad ==> thrown
  {
    hide Played, Completed, e.Valid, CodeText, Went;
    ghost var f := Findings([], 0, []);
    ghost var s0 := e.Now();
    thrown := e.Diagnose(Error, CodeText(ModuleNotFound));
    course := Whole(f);
    if !thrown {
      StillGood(s0, e.Now(), [Err(ModuleNotFound)], true);
    }
    if !e.writer.output.bad {
      course := WentUnknown(s0, e.Now(), f, thrown);
    }
  }

  lemma WentUnknown(a: Snapshot, b: Snapshot, f: Findings, thrown: bool) returns (course: Course)
    requires Played(a, b, [Err(ModuleNotFound)], true, thrown) && !b.bad && a.totals == NO_TOTALS
    ensures forall chunkSize :: Went(a, b, None, chunkSize, thrown, 0, 0, course)
  {
    hide TotalsAtBreak, CodeText, Tally;
    assert CountedPart(None, f) == [Err(ModuleNotFound)];
    if thrown {
      var k: nat :| BrokenOff(a, b, [Err(ModuleNotFound)], true, k);
      course := BrokenCounted(f, k);
    } else {
      course := Whole(f);
      assert [Err(ModuleNotFound)] + [] == [Err(ModuleNotFound)];
    }
  }

  /** How a finished stream looks: header, body and a footer that reports the totals of its course. */
  ghost predicate Reports(lines: seq<Line>, header: Record, body: seq<Record>, totals: Totals, artifacts: (nat, nat),
                          counts: map<RecordType, int>)
  {
    && |lines| >= 2
    && Production.RecordsOf(lines[..|lines| - 1]) == [header] + body
    && var footer := lines[|lines| - 1].record;
       && footer.Footer?
       && footer == Footer(artifacts.1, artifacts.0, counts, totals.diagnostics, totals.entries, footer.streamSha256,
                           totals.diagnostics.error == 0)
       && (|RawOf(lines[..|lines| - 1])| < 0x2000_0000_0000_0000 ==>
             footer.streamSha256 == Sha256Hex(RawOf(lines[..|lines| - 1])))
  }

  /** `extract_module`: it ends with an exception only when the stream failed; otherwise a complete stream was
      written. */
  method ExtractModule(e: Emitter, rootValid: bool, m: Option<ModuleFacts>, chunkSize: nat, ghost bound: nat)
    returns (thrown: bool, success: bool, ghost course: Course)
    requires e.Valid() && e.Now().emitted == [] && e.totals == NO_TOTALS
    requires m.Some? ==> m.value.declared.Some? || Leaves(m.value.at, m.value.declared, bound)
    modifies e, e.writer.Repr
    ensures e.writer.Valid() && thrown == e.writer.output.bad
    ensures thrown ==> e.Valid()
    ensures !thrown ==> Spelled(e.writer.lines, e.render)
    ensures !thrown ==>
              && e.writer.finished
              && Possible(rootValid, m, chunkSize, old(e.fault), course)
              && Reports(e.writer.lines, HeaderOf(chunkSize), BodyOf(m, chunkSize, course),
                         TotalsOf(m, chunkSize, old(e.fault), course), ArtifactTotals(m, chunkSize, course),
                         e.writer.counts)
              && success == (TotalsOf(m, chunkSize, old(e.fault), course).diagnostics.error == 0)
  {
    hide e.Valid, e.writer.Valid, Spelled, Went, Possible, Reports, BodyOf, TotalsOf, ArtifactTotals, CodeText,
      TallyOne, RawOf, Sha256Hex, Production.RecordsOf, Leaves;
    ghost var fault := e.fault;
    course, success := Refused, false;
    ghost var footer;
    thrown := e.Announce(HeaderOf(chunkSize));
    if thrown {
      return;
    }
    ghost var s0 := e.Now();
    if !rootValid {
      thrown := e.Confess(Error, CodeText(SwordRootInvalid));
      if thrown {
        return;
      }
      RefusedReport(s0, e.Now(), m, chunkSize, fault);
      ghost var before := e.writer.lines;
      thrown, footer := e.Close(false, 0, 0);
      if !thrown {
        Reported(before, footer, HeaderOf(chunkSize), BodyOf(m, chunkSize, course), e.totals, (0, 0), e.writer.counts);
      }
      return;
    }
    var caught: bool, artifacts: nat, size: nat := false, 0, 0;
    if m.None? {
      caught, course := ReportUnknown(e);
      if !caught {
        UnknownReport(s0, e.Now(), m, chunkSize, course);
        ghost var before := e.writer.lines;
        thrown, footer := e.Close(false, 0, 0);
        if thrown {
          thrown := e.Confess(Error, CodeText(ExtractionException));
        } else {
          Reported(before, footer, HeaderOf(chunkSize), BodyOf(m, chunkSize, course), e.totals, (0, 0),
                   e.writer.counts);
        }
        return;
      }
    } else {
      caught, artifacts, size, course := ExtractBody(e, m.value, chunkSize, bound);
    }
    ghost var s1 := e.Now();
    if caught {
      thrown := e.Confess(Error, CodeText(ExtractionException));
      if thrown {
        return;
      }
    }
    WentReport(s0, s1, e.Now(), m, chunkSize, caught, artifacts, size, course);
    success := e.totals.diagnostics.error == 0;
    ghost var before := e.writer.lines;
    thrown, footer := e.Close(success, artifacts, size);
    if !thrown {
      Reported(before, footer, HeaderOf(chunkSize), BodyOf(m, chunkSize, course), e.totals, (artifacts, size),
               e.writer.counts);
    }
  }

  lemma Reported(before: seq<Line>, footer: Line, header: Record, body: seq<Record>, totals: Totals,
                 artifacts: (nat, nat), counts: map<RecordType, int>)
    requires Production.RecordsOf(before) == [header] + body
    requires footer.record == Footer(artifacts.1, artifacts.0, counts, totals.diagnostics, totals.entries,
                                     if footer.record.Footer? then footer.record.streamSha256 else [],
                                     totals.diagnostics.error == 0)
    requires |RawOf(before)| < 0x2000_0000_0000_0000 ==> footer.record.streamSha256 == Sha256Hex(RawOf(before))
    ensures Reports(before + [footer], header, body, totals, artifacts, counts)
  {
    hide RawOf, Sha256Hex;
    var lines := before + [footer];
    assert lines[..|lines| - 1] == before;
  }

  lemma RefusedReport(a: Snapshot, b: Snapshot, m: Option<ModuleFacts>, chunkSize: nat, fault: Option<Fault>)
    requires a.emitted == [HeaderOf(chunkSize)] && a.totals == NO_TOTALS
    requires b.emitted == a.emitted + [Err(SwordRootInvalid)] && b.totals == TallyOne(a.totals, Err(SwordRootInvalid))
    ensures b.emitted == [HeaderOf(chunkSize)] + BodyOf(m, chunkSize, Refused)
    ensures b.totals == TotalsOf(m, chunkSize, fault, Refused) && b.totals.diagnostics.error == 1
    ensures Possible(false, m, chunkSize, fault, Refused) && ArtifactTotals(m, chunkSize, Refused) == (0, 0)
  {
    hide CodeText;
    assert BodyOf(m, chunkSize, Refused) == [Err(SwordRootInvalid)];
    TallyOneRecord(NO_TOTALS, Err(SwordRootInvalid));
  }

  lemma UnknownReport(a: Snapshot, b: Snapshot, m: Option<ModuleFacts>, chunkSize: nat, course: Course)
    requires a.emitted == [HeaderOf(chunkSize)] && m.None?
    requires Went(a, b, m, chunkSize, false, 0, 0, course)
    ensures b.emitted == [HeaderOf(chunkSize)] + BodyOf(m, chunkSize, course)
    ensures b.totals == TotalsOf(m, chunkSize, a.fault, course) && b.totals.diagnostics.error == 1
    ensures Possible(true, m, chunkSize, a.fault, course) && ArtifactTotals(m, chunkSize, course) == (0, 0)
  {
    hide CodeText;
    Unbroken(m, chunkSize, a.fault, course);
    TallyOneRecord(NO_TOTALS, Err(ModuleNotFound));
  }

  lemma Unbroken(m: Option<ModuleFacts>, chunkSize: nat, fault: Option<Fault>, course: Course)
    requires !Broken(course) && !course.Refused?
    ensures BodyOf(m, chunkSize, course) == Guarded(m, chunkSize, course)
    ensures TotalsOf(m, chunkSize, fault, course) == GuardedTotals(m, chunkSize, fault, course)
  {
    hide Guarded, GuardedTotals;
    assert Guarded(m, chunkSize, course) + [] == Guarded(m, chunkSize, course);
  }

  lemma WentReport(a: Snapshot, b: Snapshot, c: Snapshot, m: Option<ModuleFacts>, chunkSize: nat, caught: bool,
                   artifacts: nat, size: nat, course: Course)
    requires a.emitted == [HeaderOf(chunkSize)] && Went(a, b, m, chunkSize, caught, artifacts, size, course)
    requires c == if caught then b.(emitted := b.emitted + [Err(ExtractionException)],
                                    totals := TallyOne(b.totals, Err(ExtractionException))) else b
    ensures c.emitted == [HeaderOf(chunkSize)] + BodyOf(m, chunkSize, course)
    ensures c.totals == TotalsOf(m, chunkSize, a.fault, course)
    ensures Possible(true, m, chunkSize, a.fault, course) && ArtifactTotals(m, chunkSize, course) == (artifacts, size)
  {
    hide CodeText, Guarded, GuardedTotals, ArtifactTotals, Possible, TallyOne;
    if caught {
      TallyOneRecord(b.totals, Err(ExtractionException));
      assert a.emitted + Guarded(m, chunkSize, course) + [Err(ExtractionException)] ==
             a.emitted + (Guarded(m, chunkSize, course) + [Err(ExtractionException)]);
    } else {
      Unbroken(m, chunkSize, a.fault, course);
    }
  }

  /** The records of `n` modules. */
  function ModuleRecords(n: nat): (r: seq<Record>)
    ensures |r| == n
  {
    seq(n, _ => Module)
  }

  /** What listing writes between header and footer when it gets through `listed` modules. */
  function ListBody(rootValid: bool, listed: nat, caught: bool): seq<Record>
  {
    if !rootValid then [Err(SwordRootInvalid)]
    else ModuleRecords(listed) + if caught then [Err(SwordDiscoveryException)] else []
  }

  const LIST_HEADER := Header(List, None)

  /** How far a listing may come: through all modules, or to where the fault strikes. */
  predicate ListingPossible(rootValid: bool, modules: nat, fault: Option<Fault>, listed: nat, caught: bool)
  {
    if !rootValid then !caught
    else if caught then listed <= modules && fault.Some? && fault.value.after == listed
    else listed == modules && (fault.Some? ==> fault.value.after >= modules)
  }

  /** The guarded part of a listing. */
  method EmitModules(e: Emitter, modules: nat) returns (thrown: bool, ghost listed: nat)
    requires e.Valid() && !e.writer.output.bad && e.totals == NO_TOTALS
    modifies e, e.writer.Repr
    ensures e.Valid() && (e.writer.output.bad ==> thrown)
    ensures !e.writer.output.bad ==>
              && e.Now().emitted == old(e.Now()).emitted + ModuleRecords(listed) && e.totals == NO_TOTALS
              && ListingPossible(true, modules, old(e.fault), listed, thrown)
  {
    hide Played, Completed, e.Valid, Tally;
    ghost var start := e.Now();
    ghost var all := ModuleRecords(modules);
    PlayedNothing(start, true);
    thrown := e.Foreign();
    if thrown {
      listed := ListingBroken(start, e.Now(), modules, []);
      return;
    }
    PlayedIsCompleted(start, e.Now(), [], true);
    for i := 0 to modules
      invariant !thrown && e.Valid() && !e.writer.output.bad && Completed(start, e.Now(), all[..i], true)
    {
      ghost var here := e.Now();
      thrown := e.Emit(Module);
      PlayedTake(start, here, e.Now(), all, i, thrown);
      if thrown {
        listed := 0;
        if !e.writer.output.bad {
          listed := ListingBroken(start, e.Now(), modules, all);
        }
        return;
      }
    }
    listed := modules;
    assert all[..modules] == all;
    ListingDone(start, e.Now(), modules);
  }

  lemma {:induction false} ModulesUntallied(n: nat)
    ensures Tally(NO_TOTALS, ModuleRecords(n)) == NO_TOTALS
  {
    if n > 0 {
      ModulesUntallied(n - 1);
      assert ModuleRecords(n)[1..] == ModuleRecords(n - 1);
    }
  }

  lemma ListingDone(a: Snapshot, b: Snapshot, modules: nat)
    requires Completed(a, b, ModuleRecords(modules), true) && a.totals == NO_TOTALS
    ensures b.totals == NO_TOTALS && b.emitted == a.emitted + ModuleRecords(modules)
    ensures ListingPossible(true, modules, a.fault, modules, false)
  {
    hide Tally, ModuleRecords;
    ModulesUntallied(modules);
  }

  lemma ListingBroken(a: Snapshot, b: Snapshot, modules: nat, rs: seq<Record>) returns (listed: nat)
    requires Played(a, b, rs, true, true) && !b.bad && a.totals == NO_TOTALS
    requires rs == [] || rs == ModuleRecords(modules)
    ensures b.totals == NO_TOTALS && b.emitted == a.emitted + ModuleRecords(listed)
    ensures ListingPossible(true, modules, a.fault, listed, true)
  {
    hide Tally, TallyOne;
    var k: nat :| BrokenOff(a, b, rs, true, k);
    listed := k;
    assert rs[..k] == ModuleRecords(k);
    ModulesUntallied(k);
  }

  /** `list_modules`. */
  method ListModules(e: Emitter, rootValid: bool, modules: nat)
    returns (thrown: bool, success: bool, ghost listed: nat, ghost caught: bool)
    requires e.Valid() && e.Now().emitted == [] && e.totals == NO_TOTALS
    modifies e, e.writer.Repr
    ensures e.writer.Valid() && thrown == e.writer.output.bad
    ensures thrown ==> e.Valid()
    ensures !thrown ==>
              && e.writer.finished && Spelled(e.writer.lines, e.render)
              && ListingPossible(rootValid, modules, old(e.fault), listed, caught)
              && Reports(e.writer.lines, LIST_HEADER, ListBody(rootValid, listed, caught),
                         Tally(NO_TOTALS, ListBody(rootValid, listed, caught)), (0, 0), e.writer.counts)
              && success == (rootValid && !caught)
  {
    hide e.Valid, e.writer.Valid, Spelled, Reports, CodeText, TallyOne, Tally, RawOf, Sha256Hex, Production.RecordsOf,
      ListBody, ModuleRecords;
    success, listed, caught := false, modules, false;
    ghost var footer;
    thrown := e.Announce(LIST_HEADER);
    if thrown {
      return;
    }
    ghost var s0 := e.Now();
    if !rootValid {
      thrown := e.Confess(Error, CodeText(SwordRootInvalid));
      if thrown {
        return;
      }
      ListTotals(s0, e.Now(), rootValid, listed, caught);
      ghost var before := e.writer.lines;
      thrown, footer := e.Close(false, 0, 0);
      if !thrown {
        Reported(before, footer, LIST_HEADER, ListBody(rootValid, listed, caught), e.totals, (0, 0), e.writer.counts);
      }
      return;
    }
    var broken;
    broken, listed := EmitModules(e, modules);
    caught := broken;
    if broken {
      thrown := e.Confess(Error, CodeText(SwordDiscoveryException));
      if thrown {
        return;
      }
    }
    ListTotals(s0, e.Now(), rootValid, listed, caught);
    success := e.totals.diagnostics.error == 0;
    ghost var before := e.writer.lines;
    thrown, footer := e.Close(success, 0, 0);
    if !thrown {
      Reported(before, footer, LIST_HEADER, ListBody(rootValid, listed, caught), e.totals, (0, 0), e.writer.counts);
    }
  }

  /** The totals of a listing are those of its body. */
  lemma ListTotals(a: Snapshot, b: Snapshot, rootValid: bool, listed: nat, caught: bool)
    requires a.emitted == [LIST_HEADER] && a.totals == NO_TOTALS
    requires !rootValid ==> b.emitted == a.emitted + [Err(SwordRootInvalid)]
                            && b.totals == TallyOne(NO_TOTALS, Err(SwordRootInvalid))
    requires rootValid && !caught ==> b.emitted == a.emitted + ModuleRecords(listed) && b.totals == NO_TOTALS
    requires rootValid && caught ==>
               && b.emitted == a.emitted + ModuleRecords(listed) + [Err(SwordDiscoveryException)]
               && b.totals == TallyOne(NO_TOTALS, Err(SwordDiscoveryException))
    ensures b.emitted == [LIST_HEADER] + ListBody(rootValid, listed, caught)
    ensures b.totals == Tally(NO_TOTALS, ListBody(rootValid, listed, caught))
    ensures b.totals.diagnostics.error == if rootValid && !caught then 0 else 1
  {
    hide CodeText, ModuleRecords, Tally;
    TallyOneRecord(NO_TOTALS, Err(SwordRootInvalid));
    TallyOneRecord(NO_TOTALS, Err(SwordDiscoveryException));
    ModulesUntallied(listed);
    TallyAppend(NO_TOTALS, ModuleRecords(listed), [Err(SwordDiscoveryException)]);
    assert ModuleRecords(listed) + [] == ModuleRecords(listed);
  }
}
