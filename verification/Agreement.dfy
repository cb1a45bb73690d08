/** The main theorem of the protocol: exactly which producer runs the validator accepts. */
module Agreement {
  import opened Artifacts
  import opened Bytes
  import opened Capture
  import opened Codes
  import opened Delivery
  import opened Discovery
  import opened Extraction
  import opened Production
  import opened Records
  import opened Session
  import opened Sha256Spec
  import opened Traversal
  import opened Validation
  import Acceptance
  import Annotation
  import Grammar
  import Utf8
  import Writer

  /** The environment granted what the producer does not check itself: admissible entries, clean captures, and an
      exception, if any, that came neither inside a counted diagnostic nor after the first artifact record. */
  ghost predicate Acceptable(m: Option<ModuleFacts>, chunkSize: nat, fault: Option<Fault>, course: Course)
  {
    ChunkSizeAdmitted(chunkSize)
    && match course
       case Refused => true
       case Whole(f) =>
         m.None? || (EntriesGranted(CountedPart(m, f))
                     && CleanGroups(f.candidates, m.value.world, |f.candidates|, chunkSize))
       case BrokenCounted(f, k) =>
         && k <= |CountedPart(m, f)| && EntriesGranted(CountedPart(m, f)[..k])
         && !(fault.Some? && fault.value.inside && k < |CountedPart(m, f)| && CountedPart(m, f)[k].Diagnostic?)
       case BrokenArtifacts(f, k) => k == 0 && EntriesGranted(CountedPart(m, f))
  }

  lemma ErrPlain(code: Code)
    ensures AllPlain([Err(code)]) && NoFooter([Err(code)]) && EntriesGranted([Err(code)]) && Err(code).Diagnostic?
    ensures Err(code).severity == Error
  {
    hide CodeText;
  }

  lemma GrantedAppend(left: seq<Record>, right: seq<Record>)
    ensures EntriesGranted(left + right) <==> EntriesGranted(left) && EntriesGranted(right)
  {
    hide EntryGranted;
    var whole := left + right;
    assert forall i :: 0 <= i < |left| ==> whole[i] == left[i];
    assert forall i :: 0 <= i < |right| ==> whole[|left| + i] == right[i];
  }

  lemma PlainAppend(left: seq<Record>, right: seq<Record>)
    requires AllPlain(left) && AllPlain(right)
    ensures AllPlain(left + right)
  {
    hide Plain;
  }

  lemma DiagnosticFlows(s: State, r: Record)
    requires r.Diagnostic? && s.header.Some? && s.active.None?
    ensures FlowStep(s, r).Some?
  {
  }

  /** Last words can follow whatever flows. */
  lemma LastWordsFlow(s: State, rs: seq<Record>, code: Code, chunkSize: int)
    requires Begun(s, chunkSize) && AllPlain(rs) && NoFooter(rs) && FlowRun(s, rs).Some?
    ensures AllPlain(rs + [Err(code)]) && NoFooter(rs + [Err(code)]) && FlowRun(s, rs + [Err(code)]).Some?
    ensures EntriesGranted(rs + [Err(code)]) <==> EntriesGranted(rs)
    ensures Tally(NO_TOTALS, rs + [Err(code)]) == TallyOne(Tally(NO_TOTALS, rs), Err(code))
  {
    FlowCounts(s, rs);
    ErrPlain(code);
    hide FlowRun, FlowStep, AllPlain, NoFooter, Tally, TallyOne, EntriesGranted, CodeText;
    FlowAppend(s, rs, [Err(code)]);
    DiagnosticFlows(FlowRun(s, rs).value, Err(code));
    FlowOne(FlowRun(s, rs).value, Err(code));
    PlainAppend(rs, [Err(code)]);
    GrantedAppend(rs, [Err(code)]);
    TallyAppend(NO_TOTALS, rs, [Err(code)]);
    TallyOneRecord(Tally(NO_TOTALS, rs), Err(code));
  }

  lemma ErrorCounted(t: Totals, code: Code)
    requires t.diagnostics.error >= 0
    ensures TallyOne(t, Err(code)).diagnostics.error > 0
  {
    hide CodeText;
  }

  lemma CountDiffers(t: Totals, r: Record, code: Code)
    requires r.Diagnostic?
    ensures TallyOne(TallyOne(t, r), Err(code)) != TallyOne(t, Err(code))
  {
    hide CodeText;
  }

  /** A run that says something at its end after the plain records `rs`, with totals `t` before those words. */
  lemma BrokenAccepted(s: State, rs: seq<Record>, t: Totals, code: Code, footer: Record, chunkSize: int)
    requires Begun(s, chunkSize) && AllPlain(rs) && NoFooter(rs) && FlowRun(s, rs).Some?
    requires t == Tally(NO_TOTALS, rs) || exists r: Record :: r.Diagnostic? && t == TallyOne(Tally(NO_TOTALS, rs), r)
    requires FooterReports(footer, TallyOne(t, Err(code)), (0, 0))
    ensures NoFooter(rs + [Err(code)])
    ensures RunRecords(s, rs + [Err(code)]).Some? && Closes(RunRecords(s, rs + [Err(code)]).value, footer) <==>
            EntriesGranted(rs) && t == Tally(NO_TOTALS, rs)
  {
    hide FlowRun, AllPlain, NoFooter, Tally, TallyOne, EntriesGranted, CodeText, RunRecords, Closes, Begun;
    LastWordsFlow(s, rs, code, chunkSize);
    TallyNatural(NO_TOTALS, rs);
    NaturalCounted(Tally(NO_TOTALS, rs), t);
    ErrorCounted(t, code);
    if t != Tally(NO_TOTALS, rs) {
      var r: Record :| r.Diagnostic? && t == TallyOne(Tally(NO_TOTALS, rs), r);
      CountDiffers(Tally(NO_TOTALS, rs), r, code);
    }
    PlainAccepted(s, rs + [Err(code)], TallyOne(t, Err(code)), footer, chunkSize);
  }

  lemma NaturalCounted(a: Totals, b: Totals)
    requires Natural(a.diagnostics)
    requires b == a || exists r: Record :: r.Diagnostic? && b == TallyOne(a, r)
    ensures b.diagnostics.error >= 0
  {
  }

  /** The file-system facts of a module, if there is one. */
  predicate Facts(m: Option<ModuleFacts>)
  {
    m.Some? ==> FilesystemFacts(m.value)
  }

  lemma CountedFlows(s: State, m: Option<ModuleFacts>, f: Findings, chunkSize: int)
    requires Begun(s, chunkSize) && Facts(m) && (m.Some? ==> FilesFrom(m.value, f.files))
    ensures AllPlain(CountedPart(m, f)) && NoFooter(CountedPart(m, f)) && FlowRun(s, CountedPart(m, f)).Some?
    ensures m.Some? ==> Ready(FlowRun(s, CountedPart(m, f)).value, chunkSize)
  {
    hide FlowRun, AllPlain, NoFooter, FilesFrom, FilesystemFacts, CountedRecords, Begun, CodeText, FlowStep;
    if m.Some? {
      var last := f.last;
      CountedReady(s, m.value, f, chunkSize);
    } else {
      UnknownFlows(s, chunkSize);
    }
  }

  lemma CountedReady(s: State, m: ModuleFacts, f: Findings, chunkSize: int)
    requires Begun(s, chunkSize) && FilesystemFacts(m) && FilesFrom(m, f.files)
    ensures var rs := CountedRecords(m, f.files, f.last);
            AllPlain(rs) && NoFooter(rs) && FlowRun(s, rs).Some? && Ready(FlowRun(s, rs).value, chunkSize)
  {
    CountedLeads(s, m, f.files, f.last, chunkSize);
    hide FlowRun, AllPlain, NoFooter, FilesFrom, FilesystemFacts, CountedRecords, Begun;
  }

  lemma UnknownFlows(s: State, chunkSize: int)
    requires Begun(s, chunkSize)
    ensures AllPlain([Err(ModuleNotFound)]) && NoFooter([Err(ModuleNotFound)])
            && FlowRun(s, [Err(ModuleNotFound)]).Some?
  {
    ErrPlain(ModuleNotFound);
    BegunPlain(s, chunkSize);
    DiagnosticFlows(s, Err(ModuleNotFound));
    hide AllPlain, NoFooter, FlowStep, CodeText, Begun;
    FlowOne(s, Err(ModuleNotFound));
  }

  lemma BegunPlain(s: State, chunkSize: int)
    requires Begun(s, chunkSize)
    ensures s.header.Some? && s.active.None? && Counted(s) == NO_TOTALS
  {
  }

  lemma PlainPrefix(rs: seq<Record>, k: nat)
    requires AllPlain(rs) && k <= |rs|
    ensures AllPlain(rs[..k])
  {
    hide Plain;
  }

  /** An exception before the artifacts. */
  lemma BrokenCountedAccepted(s: State, m: Option<ModuleFacts>, f: Findings, k: nat, inside: bool, footer: Record,
                              chunkSize: int)
    requires Begun(s, chunkSize) && Facts(m) && (m.Some? ==> FilesFrom(m.value, f.files)) && k <= |CountedPart(m, f)|
    requires FooterReports(footer, TallyOne(TotalsAtBreak(NO_TOTALS, CountedPart(m, f), k, inside),
                                            Err(ExtractionException)), (0, 0))
    ensures var rs := CountedPart(m, f)[..k] + [Err(ExtractionException)];
            && NoFooter(rs)
            && (RunRecords(s, rs).Some? && Closes(RunRecords(s, rs).value, footer) <==>
                  && EntriesGranted(CountedPart(m, f)[..k])
                  && !(inside && k < |CountedPart(m, f)| && CountedPart(m, f)[k].Diagnostic?))
  {
    hide FlowRun, AllPlain, NoFooter, FilesFrom, CountedPart, Begun, CodeText, RunRecords, Closes, Tally, TallyOne,
      Facts, EntriesGranted, FooterReports;
    var c := CountedPart(m, f);
    CountedFlows(s, m, f, chunkSize);
    FlowPrefix(s, c, k);
    PlainPrefix(c, k);
    var done := Tally(NO_TOTALS, c[..k]);
    var t := TotalsAtBreak(NO_TOTALS, c, k, inside);
    if k < |c| && c[k].Diagnostic? {
      CountedTwice(done, c[k]);
    }
    BrokenAccepted(s, c[..k], t, ExtractionException, footer, chunkSize);
  }

  lemma CountedTwice(t: Totals, r: Record)
    requires r.Diagnostic?
    ensures TallyOne(t, r) != t
  {
  }

  // An exception among the artifacts.

  predicate Artifactual(r: Record)
  {
    r.ArtifactBegin? || r.ArtifactChunk? || r.ArtifactEnd? || r.Diagnostic?
  }

  predicate AllArtifactual(rs: seq<Record>)
  {
    forall i :: 0 <= i < |rs| ==> Artifactual(rs[i])
  }

  /** Everything a footer would have to account for. */
  function Weight(s: State): int
  {
    s.diagnostics.info + s.diagnostics.warning + s.diagnostics.error + |s.artifacts|
    + if s.active.Some? then 1 else 0
  }

  lemma WeightStep(s: State, r: Record)
    requires Artifactual(r) && s.header.Some? && StepRecord(s, r).Some?
    ensures var t := StepRecord(s, r).value;
            && t.header.Some? && Weight(t) >= Weight(s)
            && (r.ArtifactBegin? || r.Diagnostic? ==> Weight(t) == Weight(s) + 1)
  {
    Acceptance.Dispatch(s, r);
    hide StepRecord, BeginOk, Components, Opened, ChunkOk, Absorb, EndOk, Closed;
  }

  lemma {:induction false} WeightRun(s: State, rs: seq<Record>)
    requires AllArtifactual(rs) && NoFooter(rs) && s.header.Some? && RunRecords(s, rs).Some?
    ensures var t := RunRecords(s, rs).value;
            && t.header.Some? && Weight(t) >= Weight(s)
            && (rs != [] && (rs[0].ArtifactBegin? || rs[0].Diagnostic?) ==> Weight(t) > Weight(s))
    decreases |rs|
  {
    hide StepRecord, Weight;
    if rs != [] {
      assert Artifactual(rs[0]);
      WeightStep(s, rs[0]);
      WeightRun(StepRecord(s, rs[0]).value, rs[1..]);
    }
  }

  predicate StartsWell(rs: seq<Record>)
  {
    AllArtifactual(rs) && NoFooter(rs) && (rs != [] ==> rs[0].ArtifactBegin? || rs[0].Diagnostic?)
  }

  lemma StartsThen(left: seq<Record>, right: seq<Record>)
    requires StartsWell(left) && StartsWell(right)
    ensures StartsWell(left + right)
  {
    hide Artifactual;
    NoFooterSplit(left, right);
  }

  lemma GroupStarts(c: Candidate, o: Observation, id: nat)
    ensures StartsWell(GroupRecords(c, o, id))
  {
    hide BeginOf, EndOf, PathOf, ChunksOf, ContentOf, Captured, ChunkRecords;
    if Captured(o) {
      BracketKinds(c, o, id);
      BracketsStart(BeginOf(c, o, id), ChunkRecords(id, ChunksOf(o)), EndOf(o, id));
    }
  }

  lemma BracketKinds(c: Candidate, o: Observation, id: nat)
    requires Captured(o)
    ensures BeginOf(c, o, id).ArtifactBegin? && EndOf(o, id).ArtifactEnd?
    ensures forall i :: 0 <= i < |ChunksOf(o)| ==> ChunkRecords(id, ChunksOf(o))[i].ArtifactChunk?
  {
    hide PathOf, ChunksOf, ContentOf, StableOf;
  }

  lemma BracketsStart(begin: Record, chunks: seq<Record>, end: Record)
    requires begin.ArtifactBegin? && end.ArtifactEnd? && forall i :: 0 <= i < |chunks| ==> chunks[i].ArtifactChunk?
    ensures StartsWell([begin] + (chunks + [end]))
  {
  }

  lemma {:induction false} GroupsStart(cs: seq<Candidate>, world: World, n: nat)
    requires n <= |cs|
    ensures StartsWell(GroupsRecords(cs, world, n))
  {
    hide GroupRecords, StartsWell, CapturedCount;
    NothingStarts();
    if n > 0 {
      GroupsStart(cs, world, n - 1);
      GroupStarts(cs[n - 1], world(cs[n - 1]), CapturedCount(cs, world, n - 1));
      StartsThen(GroupsRecords(cs, world, n - 1),
                 GroupRecords(cs[n - 1], world(cs[n - 1]), CapturedCount(cs, world, n - 1)));
    }
  }

  lemma NothingStarts()
    ensures StartsWell([])
  {
  }

  lemma ArtifactsStart(cs: seq<Candidate>, world: World, chunkSize: nat)
    ensures StartsWell(ArtifactRecords(cs, world, chunkSize))
  {
    hide GroupsRecords, Problems;
    NothingStarts();
    GroupsStart(cs, world, |cs|);
    ProblemsDiagnostics(cs, world, |cs|);
    assert StartsWell(Problems(cs, world, |cs|));
    hide StartsWell;
    StartsThen(GroupsRecords(cs, world, |cs|), Problems(cs, world, |cs|));
  }

  /** After the plain part the state holds its totals, no artifacts and no open group. */
  lemma AfterCounted(s: State, rs: seq<Record>, chunkSize: int)
    requires Begun(s, chunkSize) && AllPlain(rs) && NoFooter(rs) && FlowRun(s, rs).Some? && EntriesGranted(rs)
    ensures var t := RunRecords(s, rs);
            && t == FlowRun(s, rs) && Counted(t.value) == Tally(NO_TOTALS, rs)
            && t.value.header.Some? && t.value.active.None? && t.value.artifacts == [] && t.value.artifactPaths == {}
  {
    FlowIs(s, rs);
    FlowCounts(s, rs);
    hide FlowRun, AllPlain, NoFooter, EntriesGranted, RunRecords, Tally;
  }

  lemma NotGranted(s: State, rs: seq<Record>, more: seq<Record>)
    requires NoFooter(rs) && NoFooter(more) && !EntriesGranted(rs)
    ensures NoFooter(rs + more) && RunRecords(s, rs + more).None?
  {
    hide FlowRun, NoFooter, EntriesGranted, RunRecords;
    FlowIs(s, rs);
    RunRecordsAppend(s, rs, more);
  }

  lemma WeightClosed(t: State, u: State, footer: Record, code: Code)
    requires t.active.None? && t.artifacts == [] && Natural(t.diagnostics) && Weight(u) > Weight(t) + 1
    requires FooterReports(footer, TallyOne(Counted(t), Err(code)), (0, 0))
    ensures !Closes(u, footer)
  {
    hide CodeText;
  }

  /** Once an artifact record is out, an exception leaves a stream the validator refuses. */
  lemma BrokenArtifactsRefused(s: State, c: seq<Record>, a: seq<Record>, k: nat, footer: Record, chunkSize: int)
    requires Begun(s, chunkSize) && AllPlain(c) && NoFooter(c) && FlowRun(s, c).Some?
    requires StartsWell(a) && 0 < k <= |a|
    requires FooterReports(footer, TallyOne(Tally(NO_TOTALS, c), Err(ExtractionException)), (0, 0))
    ensures var rs := c + a[..k] + [Err(ExtractionException)];
            NoFooter(rs) && !(RunRecords(s, rs).Some? && Closes(RunRecords(s, rs).value, footer))
  {
    hide FlowRun, AllPlain, NoFooter, EntriesGranted, RunRecords, Tally, TallyOne, Closes, CodeText, Weight, StepRecord,
      StartsWell, Begun, AllArtifactual;
    var e := Err(ExtractionException);
    ErrPlain(ExtractionException);
    TakeStarts(a, k);
    RunRecordsAppend(s, c, a[..k]);
    RunRecordsSnoc(s, c + a[..k], e);
    if EntriesGranted(c) {
      AfterCounted(s, c, chunkSize);
      var t := RunRecords(s, c).value;
      TallyNatural(NO_TOTALS, c);
      if RunRecords(t, a[..k]).Some? {
        WeightRun(t, a[..k]);
        var w := RunRecords(t, a[..k]).value;
        if StepRecord(w, e).Some? {
          WeightStep(w, e);
          WeightClosed(t, StepRecord(w, e).value, footer, ExtractionException);
        }
      }
    } else {
      NotGranted(s, c, a[..k]);
    }
  }

  lemma TakeStarts(a: seq<Record>, k: nat)
    requires StartsWell(a) && 0 < k <= |a|
    ensures AllArtifactual(a[..k]) && NoFooter(a[..k]) && (a[..k][0].ArtifactBegin? || a[..k][0].Diagnostic?)
  {
    hide Artifactual;
  }

  // A run to the end.

  lemma {:induction false} DiagnosticsRun(s: State, rs: seq<Record>)
    requires AllDiagnostics(rs) && s.header.Some? && s.active.None?
    ensures NoFooter(rs)
    ensures RunRecords(s, rs) == Some(s.(diagnostics := Tally(Counted(s), rs).diagnostics))
    decreases |rs|
  {
    hide StepRecord, TallyOne;
    if rs != [] {
      DiagnosticRun(s, rs[0]);
      DiagnosticsRun(StepRecord(s, rs[0]).value, rs[1..]);
    }
  }

  lemma DiagnosticRun(s: State, r: Record)
    requires r.Diagnostic? && s.header.Some? && s.active.None?
    ensures var t := StepRecord(s, r);
            && t.Some? && t.value == s.(diagnostics := TallyOne(Counted(s), r).diagnostics)
            && Counted(t.value) == TallyOne(Counted(s), r)
  {
  }

  lemma {:induction false} CapturedTotal(cs: seq<Candidate>, world: World, n: nat)
    requires n <= |cs|
    ensures TotalSize(ArtifactsOf(cs, world, n)) == CapturedBytes(cs, world, n)
  {
    hide Captured, CapturedCount;
    if n > 0 {
      CapturedTotal(cs, world, n - 1);
      var before := ArtifactsOf(cs, world, n - 1);
      var c := cs[n - 1];
      if Captured(world(c)) {
        var last := ArtifactOf(c, world(c), CapturedCount(cs, world, n - 1));
        SizeOf(c, world(c), CapturedCount(cs, world, n - 1));
        hide ArtifactOf;
        assert ArtifactsOf(cs, world, n) == before + [last];
        assert (before + [last])[..|before|] == before;
      } else {
        assert before + [] == before;
      }
    }
  }

  lemma SizeOf(c: Candidate, o: Observation, id: nat)
    requires Captured(o)
    ensures ArtifactOf(c, o, id).size == |ContentOf(o)|
  {
    hide ContentOf;
  }

  lemma HeldFacts(s: State, cs: seq<Candidate>, world: World, n: nat, chunkSize: int)
    requires n <= |cs| && Ready(s, chunkSize)
    ensures var t := Holding(s, cs, world, n);
            && t.header == s.header && t.active.None? && t.command == Extract && t.moduleCount == 1
            && Counted(t) == Counted(s) && t.artifacts == ArtifactsOf(cs, world, n)
  {
    hide ArtifactsOf, CapturedPaths, CapturedCount;
  }

  /** The artifact records of a run to the end. */
  lemma ArtifactsAccepted(t: State, cs: seq<Candidate>, world: World, chunkSize: nat, footer: Record)
    requires Ready(t, chunkSize) && t.artifacts == [] && t.artifactPaths == {} && AllLocated(cs)
    requires ChunkSizeUsable(chunkSize) && Natural(t.diagnostics)
    requires FooterReports(footer, Tally(Counted(t), Problems(cs, world, |cs|)),
                           (CapturedCount(cs, world, |cs|), CapturedBytes(cs, world, |cs|)))
    ensures var rs := ArtifactRecords(cs, world, chunkSize);
            && NoFooter(rs)
            && (RunRecords(t, rs).Some? && Closes(RunRecords(t, rs).value, footer) <==>
                  CleanGroups(cs, world, |cs|, chunkSize))
  {
    hide RunRecords, Problems, GroupsRecords, CapturedCount, CapturedBytes, CleanGroups, AllLocated, ArtifactsOf, Tally,
      Holding, TotalSize, NoFooter;
    var n := |cs|;
    var g, p := GroupsRecords(cs, world, n), Problems(cs, world, n);
    GroupsAccepted(t, cs, world, n, chunkSize);
    ProblemsDiagnostics(cs, world, n);
    HeldFacts(t, cs, world, n, chunkSize);
    CapturedTotal(cs, world, n);
    DiagnosticsRun(Holding(t, cs, world, n), p);
    TallyNatural(Counted(t), p);
    RunRecordsAppend(t, g, p);
    EntriesKept(Counted(t), p);
  }

  lemma {:induction false} EntriesKept(t: Totals, rs: seq<Record>)
    requires AllDiagnostics(rs)
    ensures Tally(t, rs).entries == t.entries
    decreases |rs|
  {
    if rs != [] {
      EntriesKept(TallyOne(t, rs[0]), rs[1..]);
    }
  }

  // Every course.

  lemma RefusedAgrees(s: State, m: Option<ModuleFacts>, chunkSize: nat, fault: Option<Fault>, footer: Record)
    requires Begun(s, chunkSize)
    requires FooterReports(footer, TotalsOf(m, chunkSize, fault, Refused), (0, 0))
    ensures var rs := BodyOf(m, chunkSize, Refused);
            NoFooter(rs) && RunRecords(s, rs).Some? && Closes(RunRecords(s, rs).value, footer)
  {
    hide RunRecords, Closes, CodeText, Begun, TallyOne, FlowRun, FooterReports;
    NothingBefore(s);
    TallyOneRecord(NO_TOTALS, Err(SwordRootInvalid));
    assert BodyOf(m, chunkSize, Refused) == [] + [Err(SwordRootInvalid)];
    BrokenAccepted(s, [], NO_TOTALS, SwordRootInvalid, footer, chunkSize);
    NothingGranted();
  }

  lemma NothingBefore(s: State)
    ensures AllPlain([]) && NoFooter([]) && FlowRun(s, []) == Some(s) && Tally(NO_TOTALS, []) == NO_TOTALS
  {
  }

  lemma UnknownAgrees(s: State, chunkSize: nat, fault: Option<Fault>, f: Findings, footer: Record)
    requires Begun(s, chunkSize)
    requires FooterReports(footer, TotalsOf(None, chunkSize, fault, Whole(f)), (0, 0))
    ensures var rs := BodyOf(None, chunkSize, Whole(f));
            NoFooter(rs) && RunRecords(s, rs).Some? && Closes(RunRecords(s, rs).value, footer)
  {
    hide RunRecords, Closes, CodeText, Begun, TallyOne, FlowRun, FooterReports, EntriesGranted;
    NothingBefore(s);
    TallyOneRecord(NO_TOTALS, Err(ModuleNotFound));
    UnknownBody(chunkSize, fault, f);
    BrokenAccepted(s, [], NO_TOTALS, ModuleNotFound, footer, chunkSize);
    NothingGranted();
  }

  lemma UnknownBody(chunkSize: nat, fault: Option<Fault>, f: Findings)
    ensures BodyOf(None, chunkSize, Whole(f)) == [] + [Err(ModuleNotFound)]
    ensures TotalsOf(None, chunkSize, fault, Whole(f)) == Tally(NO_TOTALS, [Err(ModuleNotFound)])
  {
    hide CodeText, TallyOne;
  }

  lemma BrokenCountedAgrees(s: State, m: Option<ModuleFacts>, chunkSize: nat, fault: Option<Fault>, f: Findings, k: nat,
                            footer: Record)
    requires Begun(s, chunkSize) && Facts(m) && Possible(true, m, chunkSize, fault, BrokenCounted(f, k))
    requires ChunkSizeAdmitted(chunkSize)
    requires FooterReports(footer, TotalsOf(m, chunkSize, fault, BrokenCounted(f, k)), (0, 0))
    ensures var rs := BodyOf(m, chunkSize, BrokenCounted(f, k));
            && NoFooter(rs)
            && (RunRecords(s, rs).Some? && Closes(RunRecords(s, rs).value, footer) <==>
                  Acceptable(m, chunkSize, fault, BrokenCounted(f, k)))
  {
    hide RunRecords, Closes, CodeText, Begun, TallyOne, FooterReports, CountedPart, Tally, EntriesGranted, FilesFrom,
      Facts;
    TallyOneRecord(GuardedTotals(m, chunkSize, fault, BrokenCounted(f, k)), Err(ExtractionException));
    BrokenCountedAccepted(s, m, f, k, fault.value.inside, footer, chunkSize);
  }

  lemma BrokenArtifactsAgrees(s: State, m: ModuleFacts, chunkSize: nat, fault: Option<Fault>, f: Findings, k: nat,
                              footer: Record)
    requires Begun(s, chunkSize) && FilesystemFacts(m) && FilesFrom(m, f.files)
    requires k <= |ArtifactPart(Some(m), f, chunkSize)| && ChunkSizeAdmitted(chunkSize)
    requires FooterReports(footer, TotalsOf(Some(m), chunkSize, fault, BrokenArtifacts(f, k)), (0, 0))
    ensures var rs := BodyOf(Some(m), chunkSize, BrokenArtifacts(f, k));
            && NoFooter(rs)
            && (RunRecords(s, rs).Some? && Closes(RunRecords(s, rs).value, footer) <==>
                  Acceptable(Some(m), chunkSize, fault, BrokenArtifacts(f, k)))
  {
    hide RunRecords, Closes, CodeText, Begun, TallyOne, FooterReports, CountedPart, Tally, EntriesGranted, FilesFrom,
      FilesystemFacts, ArtifactRecords, StartsWell, FlowRun, AllPlain, NoFooter;
    var c := CountedPart(Some(m), f);
    CountedFlows(s, Some(m), f, chunkSize);
    ArtifactsStart(f.candidates, m.world, chunkSize);
    TallyOneRecord(Tally(NO_TOTALS, c), Err(ExtractionException));
    var a := ArtifactPart(Some(m), f, chunkSize);
    if k == 0 {
      assert c + a[..k] == c;
      BrokenAccepted(s, c, Tally(NO_TOTALS, c), ExtractionException, footer, chunkSize);
    } else {
      BrokenArtifactsRefused(s, c, a, k, footer, chunkSize);
    }
  }

  lemma WholeAgrees(s: State, m: ModuleFacts, chunkSize: nat, fault: Option<Fault>, f: Findings, footer: Record)
    requires Begun(s, chunkSize) && FilesystemFacts(m) && FilesFrom(m, f.files) && Established(m, f)
    requires ChunkSizeAdmitted(chunkSize)
    requires FooterReports(footer, TotalsOf(Some(m), chunkSize, fault, Whole(f)),
                           ArtifactTotals(Some(m), chunkSize, Whole(f)))
    ensures var rs := BodyOf(Some(m), chunkSize, Whole(f));
            && NoFooter(rs)
            && (RunRecords(s, rs).Some? && Closes(RunRecords(s, rs).value, footer) <==>
                  Acceptable(Some(m), chunkSize, fault, Whole(f)))
  {
    hide RunRecords, Closes, CodeText, Begun, TallyOne, CountedPart, Tally, EntriesGranted, FilesFrom, FilesystemFacts,
      ArtifactRecords, FlowRun, AllPlain, NoFooter, Problems, CapturedCount, CapturedBytes, CleanGroups, Ready,
      AllLocated, Established;
    var c, cs := CountedPart(Some(m), f), f.candidates;
    var a := ArtifactRecords(cs, m.world, chunkSize);
    CountedFlows(s, Some(m), f, chunkSize);
    DiscoveredLocated(m, f);
    ArtifactsStart(cs, m.world, chunkSize);
    StartsPlainly(a);
    TallyNatural(NO_TOTALS, c);
    WholeParts(m, chunkSize, fault, f);
    RunRecordsAppend(s, c, a);
    if EntriesGranted(c) {
      AfterCounted(s, c, chunkSize);
      var t := RunRecords(s, c).value;
      ArtifactsAccepted(t, cs, m.world, chunkSize, footer);
    } else {
      NotGranted(s, c, a);
    }
  }

  lemma StartsPlainly(a: seq<Record>)
    requires StartsWell(a)
    ensures NoFooter(a)
  {
  }

  lemma WholeParts(m: ModuleFacts, chunkSize: nat, fault: Option<Fault>, f: Findings)
    requires ChunkSizeAdmitted(chunkSize)
    ensures ChunkSizeUsable(chunkSize)
    ensures BodyOf(Some(m), chunkSize, Whole(f)) ==
            CountedPart(Some(m), f) + ArtifactRecords(f.candidates, m.world, chunkSize)
    ensures TotalsOf(Some(m), chunkSize, fault, Whole(f)) ==
            Tally(Tally(NO_TOTALS, CountedPart(Some(m), f)), Problems(f.candidates, m.world, |f.candidates|))
  {
    hide CountedPart, ArtifactRecords, Problems, TallyOne;
    var b := CountedPart(Some(m), f) + ArtifactRecords(f.candidates, m.world, chunkSize);
    assert b + [] == b;
  }

  /** Whatever course a run took, its records are accepted exactly when the course is acceptable. */
  lemma RecordsAgree(rootValid: bool, m: Option<ModuleFacts>, chunkSize: nat, fault: Option<Fault>, course: Course,
                     footer: Record)
    requires Facts(m) && Possible(rootValid, m, chunkSize, fault, course)
    requires FooterReports(footer, TotalsOf(m, chunkSize, fault, course), ArtifactTotals(m, chunkSize, course))
    ensures var rs := [HeaderOf(chunkSize)] + BodyOf(m, chunkSize, course);
            && NoFooter(rs)
            && (RunRecords(INITIAL_STATE, rs).Some? && Closes(RunRecords(INITIAL_STATE, rs).value, footer) <==>
                  Acceptable(m, chunkSize, fault, course))
  {
    hide RunRecords, Closes, FooterReports, CodeText, Begun, StepRecord, BodyOf, TotalsOf, ArtifactRecords, Facts,
      FilesystemFacts, FilesFrom, Established, CountedPart, ArtifactPart, EntriesGranted, CleanGroups, NoFooter;
    HeaderFlows(chunkSize);
    BodyIsPlain(rootValid, m, chunkSize, fault, course);
    RunAfterHeader(BodyOf(m, chunkSize, course), chunkSize);
    if ChunkSizeAdmitted(chunkSize) {
      var s := StepRecord(INITIAL_STATE, HeaderOf(chunkSize)).value;
      if m.Some? {
        FactsOf(m);
      }
      match course {
        case Refused =>
          RefusedAgrees(s, m, chunkSize, fault, footer);
        case Whole(f) =>
          if m.None? {
            UnknownAgrees(s, chunkSize, fault, f, footer);
          } else {
            WholeAgrees(s, m.value, chunkSize, fault, f, footer);
          }
        case BrokenCounted(f, k) =>
          BrokenCountedAgrees(s, m, chunkSize, fault, f, k, footer);
        case BrokenArtifacts(f, k) =>
          BrokenArtifactsAgrees(s, m.value, chunkSize, fault, f, k, footer);
      }
    }
  }

  lemma CountedPlain(m: Option<ModuleFacts>, f: Findings)
    requires Facts(m) && (m.Some? ==> FilesFrom(m.value, f.files))
    ensures NoFooter(CountedPart(m, f))
  {
    HeaderFlows(MINIMUM_CHUNK_SIZE);
    hide FlowRun, CountedPart, FilesFrom, Facts, Begun, StepRecord;
    CountedFlows(StepRecord(INITIAL_STATE, HeaderOf(MINIMUM_CHUNK_SIZE)).value, m, f, MINIMUM_CHUNK_SIZE);
  }

  lemma LastWordsPlain(course: Course)
    ensures NoFooter(LastWords(course))
  {
    hide CodeText;
  }

  lemma NoFooterTake(rs: seq<Record>, k: nat)
    requires NoFooter(rs) && k <= |rs|
    ensures NoFooter(rs[..k])
  {
  }

  lemma BodyIsPlain(rootValid: bool, m: Option<ModuleFacts>, chunkSize: nat, fault: Option<Fault>, course: Course)
    requires Facts(m) && Possible(rootValid, m, chunkSize, fault, course)
    ensures NoFooter(BodyOf(m, chunkSize, course))
  {
    hide NoFooter, CodeText, CountedPart, FilesFrom, Facts, ArtifactRecords, Established, LastWords, StartsWell;
    LastWordsPlain(course);
    NothingPlain();
    if !course.Refused? {
      CountedPlain(m, course.f);
      var a := ArtifactPart(m, course.f, chunkSize);
      if m.Some? {
        ArtifactsStart(course.f.candidates, m.value.world, chunkSize);
        StartsPlainly(a);
      }
      match course {
        case Whole(f) =>
          NoFooterSplit(CountedPart(m, f), a);
        case BrokenCounted(f, k) =>
          NoFooterTake(CountedPart(m, f), k);
        case BrokenArtifacts(f, k) =>
          NoFooterTake(a, k);
          NoFooterSplit(CountedPart(m, f), a[..k]);
      }
    }
    NoFooterSplit(Guarded(m, chunkSize, course), LastWords(course));
  }

  lemma NothingPlain()
    ensures NoFooter([])
  {
  }

  lemma FactsOf(m: Option<ModuleFacts>)
    requires Facts(m) && m.Some?
    ensures FilesystemFacts(m.value)
  {
  }

  // Granted entries, in terms of what the library answered.

  /** The scope numbers are in range, and a foreign converter produced well-formed text. */
  predicate VisitGranted(v: Visit)
  {
    ScopeOk(v.scope) && (v.encoding.Converted? && v.encoding.text.Some? ==> Utf8.Valid(v.encoding.text.value))
  }

  /** The rest of an entry the producer gets right by itself. */
  lemma EntryGrantedIs(v: Visit, ordinal: nat)
    ensures EntryOk(EntryOf(v, ordinal).entry) <==> VisitGranted(v)
  {
    Annotation.SegmentsReconstruct(v.raw);
    hide Annotation.Segments, Annotation.RawParts, Concat, Utf8.Valid, ScopeOk;
  }

  predicate AllOk(es: seq<EntryData>)
  {
    forall i :: 0 <= i < |es| ==> EntryOk(es[i])
  }

  lemma AllOkAppend(left: seq<EntryData>, right: seq<EntryData>)
    ensures AllOk(left + right) <==> AllOk(left) && AllOk(right)
  {
    hide EntryOk;
    var whole := left + right;
    assert forall i :: 0 <= i < |left| ==> whole[i] == left[i];
    assert forall i :: 0 <= i < |right| ==> whole[|left| + i] == right[i];
  }

  lemma GrantedOne(r: Record)
    ensures EntryGranted(r) <==> AllOk(EntryIn(r))
  {
    hide EntryOk;
    if r.Entry? {
      assert EntryIn(r)[0] == r.entry;
    }
  }

  lemma {:induction false} GrantedAmong(rs: seq<Record>)
    ensures EntriesGranted(rs) <==> AllOk(EntriesIn(rs))
  {
    hide EntryOk, EntriesGranted, EntryGranted, EntryIn;
    if rs == [] {
      NothingGranted();
    } else {
      GrantedCons(rs);
      GrantedOne(rs[0]);
      GrantedAmong(rs[1..]);
      AllOkAppend(EntryIn(rs[0]), EntriesIn(rs[1..]));
    }
  }

  lemma CountedEntries(m: ModuleFacts, f: Findings)
    ensures EntriesIn(CountedRecords(m, f.files, f.last)) == EntriesOf(m.at, WalkEntryCount(m, f.last))
  {
    hide EntriesIn, ConfigurationRecords, WalkOf, DiscoveryProblems, TypeNote, EntriesOf, CodeText, Visited, NoEntryIn;
    var a := [Module] + TypeNote(m) + ConfigurationRecords(m, f.files);
    var w, d := WalkOf(m, f.last), DiscoveryProblems(DiskOf(m, f.files));
    ConfigurationNoEntries(m, f.files);
    NoEntriesAmong(a);
    ProblemsAreDiagnostics(DiskOf(m, f.files));
    NoEntriesIn(d);
    EntriesAppend(a, w);
    EntriesAppend(a + w, d);
    WalkIs(m, f.last);
    if m.positioned {
      WalkEntries(m.at, m.declared, f.last);
    } else {
      UnpositionedEntries(m, f.last);
    }
    var e := EntriesIn(w);
    assert [] + e + [] == e;
  }

  lemma NoEntriesAmong(rs: seq<Record>)
    requires NoEntryIn(rs)
    ensures EntriesIn(rs) == []
  {
    NoEntriesIn(rs);
  }

  lemma UnpositionedEntries(m: ModuleFacts, last: nat)
    requires !m.positioned
    ensures EntriesIn(WalkOf(m, last)) == EntriesOf(m.at, 0)
  {
    hide CodeText;
    NoEntriesIn([Warn(ModuleEmpty)]);
  }

  /** The entries of an extraction are granted exactly when every visited position was. */
  lemma EntriesGrantedIs(m: ModuleFacts, f: Findings)
    ensures EntriesGranted(CountedPart(Some(m), f)) <==>
            forall k: nat :: k < WalkEntryCount(m, f.last) ==> VisitGranted(m.at(k))
  {
    var n := WalkEntryCount(m, f.last);
    GrantedAmong(CountedPart(Some(m), f));
    CountedEntries(m, f);
    hide EntriesGranted, EntryOk, CountedRecords, VisitGranted, EntryOf, EntriesIn, WalkEntryCount;
    forall k: nat | k < n
      ensures EntryOk(EntriesOf(m.at, n)[k]) <==> VisitGranted(m.at(k))
    {
      EntryGrantedIs(m.at(k), k);
    }
  }

  /** How many entries are out after `k` records of the counted part. */
  function EntriesOut(m: ModuleFacts, f: Findings, k: nat): nat
    requires k <= |CountedPart(Some(m), f)|
  {
    |EntriesIn(CountedPart(Some(m), f)[..k])|
  }

  lemma EntriesTake(m: ModuleFacts, f: Findings, k: nat)
    requires k <= |CountedPart(Some(m), f)|
    ensures EntriesOut(m, f, k) <= WalkEntryCount(m, f.last)
    ensures EntriesIn(CountedPart(Some(m), f)[..k]) == EntriesOf(m.at, EntriesOut(m, f, k))
  {
    hide EntryOf, WalkEntryCount, EntriesIn, CountedRecords;
    var c, n := CountedPart(Some(m), f), WalkEntryCount(m, f.last);
    assert c == c[..k] + c[k..];
    EntriesAppend(c[..k], c[k..]);
    CountedEntries(m, f);
    var before := EntriesIn(c[..k]);
    assert forall i :: 0 <= i < |before| ==> before[i] == EntriesOf(m.at, n)[i];
  }

  /** And those that are out when an exception comes are granted exactly when the positions they were read from were. */
  lemma EntriesGrantedSoFar(m: ModuleFacts, f: Findings, k: nat)
    requires k <= |CountedPart(Some(m), f)|
    ensures EntriesGranted(CountedPart(Some(m), f)[..k]) <==>
            forall i: nat :: i < EntriesOut(m, f, k) ==> VisitGranted(m.at(i))
  {
    var n := EntriesOut(m, f, k);
    GrantedAmong(CountedPart(Some(m), f)[..k]);
    EntriesTake(m, f, k);
    hide EntriesGranted, EntryOk, CountedPart, VisitGranted, EntryOf, EntriesIn, EntriesOut;
    forall i: nat | i < n
      ensures EntryOk(EntriesOf(m.at, n)[i]) <==> VisitGranted(m.at(i))
    {
      EntryGrantedIs(m.at(i), i);
    }
  }

  // The theorems.

  /** A writer that finished kept its books. */
  lemma Books(w: Writer.NdjsonWriter)
    requires w.Valid() && w.finished
    ensures w.lines != [] && Grammar.Sequenced(w.lines)
    ensures Grammar.CountsAgree(w.counts, w.lines[..|w.lines| - 1])
  {
    hide Grammar.CountsAgree;
  }

  lemma ReportedFooter(lines: seq<Line>, header: Record, body: seq<Record>, totals: Totals, artifacts: (nat, nat),
                       counts: map<RecordType, int>)
    requires Reports(lines, header, body, totals, artifacts, counts) && NoFooter([header] + body)
    requires Grammar.Sequenced(lines) && Grammar.CountsAgree(counts, lines[..|lines| - 1])
    requires |RawOf(lines[..|lines| - 1])| < 0x2000_0000_0000_0000
    ensures FooterReports(lines[|lines| - 1].record, totals, artifacts)
    ensures Accepts(lines) <==>
            RunRecords(INITIAL_STATE, [header] + body).Some?
            && Closes(RunRecords(INITIAL_STATE, [header] + body).value, lines[|lines| - 1].record)
  {
    hide Accepts, RunRecords, Closes, Grammar.CountsAgree, RawOf, Sha256Hex, Grammar.Sequenced;
    var n := |lines| - 1;
    assert lines == lines[..n] + [lines[n]];
    AcceptsRecords(lines[..n], lines[n]);
  }

  /** The agreement of the two sides: a stream that an extraction finished writing is accepted by the validator exactly
      when the course of the run was acceptable. */
  lemma ExtractionAgrees(w: Writer.NdjsonWriter, rootValid: bool, m: Option<ModuleFacts>, chunkSize: nat,
                         fault: Option<Fault>, course: Course)
    requires w.Valid() && w.finished && Facts(m) && Possible(rootValid, m, chunkSize, fault, course)
    requires Reports(w.lines, HeaderOf(chunkSize), BodyOf(m, chunkSize, course), TotalsOf(m, chunkSize, fault, course),
                     ArtifactTotals(m, chunkSize, course), w.counts)
    requires |RawOf(w.lines[..|w.lines| - 1])| < 0x2000_0000_0000_0000
    ensures Accepts(w.lines) <==> Acceptable(m, chunkSize, fault, course)
  {
    hide *;
    Books(w);
    LinesAgree(w.lines, w.counts, rootValid, m, chunkSize, fault, course);
  }

  lemma LinesAgree(lines: seq<Line>, counts: map<RecordType, int>, rootValid: bool, m: Option<ModuleFacts>,
                   chunkSize: nat, fault: Option<Fault>, course: Course)
    requires lines != [] && Facts(m) && Possible(rootValid, m, chunkSize, fault, course)
    requires Reports(lines, HeaderOf(chunkSize), BodyOf(m, chunkSize, course), TotalsOf(m, chunkSize, fault, course),
                     ArtifactTotals(m, chunkSize, course), counts)
    requires Grammar.Sequenced(lines) && Grammar.CountsAgree(counts, lines[..|lines| - 1])
    requires |RawOf(lines[..|lines| - 1])| < 0x2000_0000_0000_0000
    ensures Accepts(lines) <==> Acceptable(m, chunkSize, fault, course)
  {
    hide Accepts, RunRecords, Closes, Grammar.CountsAgree, RawOf, Grammar.Sequenced, Reports, Acceptable, Possible,
      BodyOf, TotalsOf, ArtifactTotals, Facts, HeaderOf, FooterReports;
    BodyIsPlain(rootValid, m, chunkSize, fault, course);
    HeaderPlain(BodyOf(m, chunkSize, course), chunkSize);
    ReportedFooter(lines, HeaderOf(chunkSize), BodyOf(m, chunkSize, course), TotalsOf(m, chunkSize, fault, course),
                   ArtifactTotals(m, chunkSize, course), counts);
    RecordsAgree(rootValid, m, chunkSize, fault, course, lines[|lines| - 1].record);
  }

  lemma HeaderPlain(body: seq<Record>, chunkSize: nat)
    requires NoFooter(body)
    ensures NoFooter([HeaderOf(chunkSize)] + body)
  {
    assert NoFooter([HeaderOf(chunkSize)]);
    NoFooterSplit([HeaderOf(chunkSize)], body);
  }

  // Listings.

  lemma ListHeaderFlows()
    ensures StepRecord(INITIAL_STATE, LIST_HEADER).Some?
    ensures var s := StepRecord(INITIAL_STATE, LIST_HEADER).value;
            && s.header.Some? && s.command == List && s.phase == 0 && s.active.None? && s.artifacts == []
            && Counted(s) == NO_TOTALS
  {
  }

  predicate Listing(s: State)
  {
    s.header.Some? && s.command == List && s.phase <= 1 && s.active.None? && s.artifacts == [] && s.entryCount == 0
  }

  lemma ModuleListed(s: State)
    requires Listing(s)
    ensures StepRecord(s, Module).Some? && Listing(StepRecord(s, Module).value)
    ensures Counted(StepRecord(s, Module).value) == Counted(s)
  {
  }

  lemma {:induction false} ModulesListed(s: State, n: nat)
    requires Listing(s)
    ensures NoFooter(ModuleRecords(n))
    ensures var t := RunRecords(s, ModuleRecords(n));
            t.Some? && Listing(t.value) && Counted(t.value) == Counted(s)
    decreases n
  {
    hide StepRecord, Listing, Counted;
    if n > 0 {
      ModuleListed(s);
      ModulesListed(StepRecord(s, Module).value, n - 1);
      assert ModuleRecords(n)[1..] == ModuleRecords(n - 1);
    }
  }

  lemma ListClosed(s: State, footer: Record)
    requires Listing(s) && FooterReports(footer, Counted(s), (0, 0)) && Natural(s.diagnostics)
    ensures Closes(s, footer)
  {
  }

  lemma ListBodyRuns(rootValid: bool, listed: nat, caught: bool)
    ensures var rs := [LIST_HEADER] + ListBody(rootValid, listed, caught);
            && NoFooter(rs)
            && var t := RunRecords(INITIAL_STATE, rs);
               t.Some? && Listing(t.value) && Counted(t.value) == Tally(NO_TOTALS, ListBody(rootValid, listed, caught))
  {
    ListHeaderFlows();
    var s := StepRecord(INITIAL_STATE, LIST_HEADER).value;
    var body := ListBody(rootValid, listed, caught);
    var modules := if rootValid then ModuleRecords(listed) else [];
    var words := if !rootValid then [Err(SwordRootInvalid)] else if caught then [Err(SwordDiscoveryException)] else [];
    hide StepRecord, RunRecords, CodeText, Tally, TallyOne, ModuleRecords;
    ErrPlain(SwordRootInvalid);
    ErrPlain(SwordDiscoveryException);
    ModulesListed(s, listed);
    NothingListed(s);
    assert body == modules + words;
    assert NoFooter([LIST_HEADER]);
    RunOneRecord(INITIAL_STATE, LIST_HEADER);
    var t := RunRecords(s, modules).value;
    DiagnosticsRun(t, words);
    RunRecordsAppend(s, modules, words);
    RunRecordsAppend(INITIAL_STATE, [LIST_HEADER], body);
    ModulesUntallied(listed);
    TallyAppend(NO_TOTALS, modules, words);
    EntriesKept(Counted(t), words);
  }

  lemma NothingListed(s: State)
    ensures NoFooter([]) && RunRecords(s, []) == Some(s) && Tally(NO_TOTALS, []) == NO_TOTALS
  {
  }

  /** Every stream a listing finished writing is accepted. */
  lemma ListingAgrees(w: Writer.NdjsonWriter, rootValid: bool, listed: nat, caught: bool)
    requires w.Valid() && w.finished
    requires Reports(w.lines, LIST_HEADER, ListBody(rootValid, listed, caught),
                     Tally(NO_TOTALS, ListBody(rootValid, listed, caught)), (0, 0), w.counts)
    requires |RawOf(w.lines[..|w.lines| - 1])| < 0x2000_0000_0000_0000
    ensures Accepts(w.lines)
  {
    hide *;
    Books(w);
    ListLinesAgree(w.lines, w.counts, rootValid, listed, caught);
  }

  lemma ListLinesAgree(lines: seq<Line>, counts: map<RecordType, int>, rootValid: bool, listed: nat, caught: bool)
    requires lines != [] && Grammar.Sequenced(lines) && Grammar.CountsAgree(counts, lines[..|lines| - 1])
    requires Reports(lines, LIST_HEADER, ListBody(rootValid, listed, caught),
                     Tally(NO_TOTALS, ListBody(rootValid, listed, caught)), (0, 0), counts)
    requires |RawOf(lines[..|lines| - 1])| < 0x2000_0000_0000_0000
    ensures Accepts(lines)
  {
    hide *;
    var body := ListBody(rootValid, listed, caught);
    var n := |lines| - 1;
    ListBodyRuns(rootValid, listed, caught);
    var t := RunRecords(INITIAL_STATE, [LIST_HEADER] + body).value;
    ReportedFooter(lines, LIST_HEADER, body, Tally(NO_TOTALS, body), (0, 0), counts);
    TallyNatural(NO_TOTALS, body) by { NoTotalsNatural(); }
    CountedDiagnostics(t);
    ListClosed(t, lines[n].record);
  }

  lemma NoTotalsNatural()
    ensures Natural(NO_TOTALS.diagnostics)
  {
  }

  lemma CountedDiagnostics(s: State)
    ensures Counted(s).diagnostics == s.diagnostics
  {
  }
}
