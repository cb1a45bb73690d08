/** The two sides together: when the validator accepts what the producer writes. */
module Delivery {
  import opened Artifacts
  import opened Bytes
  import opened Capture
  import opened Codes
  import opened Configuration
  import opened Discovery
  import opened Extraction
  import opened Production
  import opened Records
  import opened Session
  import opened Sha256Spec
  import opened Traversal
  import opened Validation
  import Paths

  // The record handlers without the checks on the inside of entries.

  function FlowStep(s: State, r: Record): Option<State>
    requires !r.Footer?
  {
    if r.Entry? then
      if s.header.Some? && Admitted(s, 4) && r.entry.ordinal == s.entryCount then
        Some(s.(phase := 4, entryCount := s.entryCount + 1))
      else None
    else StepRecord(s, r)
  }

  predicate EntryGranted(r: Record)
  {
    r.Entry? ==> EntryOk(r.entry)
  }

  predicate EntriesGranted(rs: seq<Record>)
  {
    forall i :: 0 <= i < |rs| ==> EntryGranted(rs[i])
  }

  lemma FlowStepIs(s: State, r: Record)
    requires !r.Footer?
    ensures StepRecord(s, r) == if FlowStep(s, r).Some? && EntryGranted(r) then FlowStep(s, r) else None
  {
    if r.Entry? {
      EntryStep(s, r);
    }
    hide StepRecord, EntryOk;
  }

  lemma EntryStep(s: State, r: Record)
    requires r.Entry?
    ensures StepRecord(s, r) == if s.header.None? then None else StepEntry(s, r)
  {
    hide EntryOk;
  }

  function FlowRun(s: State, rs: seq<Record>): Option<State>
    requires NoFooter(rs)
    decreases |rs|
  {
    if rs == [] then Some(s)
    else
      var t := FlowStep(s, rs[0]);
      if t.None? then None else FlowRun(t.value, rs[1..])
  }

  lemma {:induction false} FlowAppend(s: State, left: seq<Record>, right: seq<Record>)
    requires NoFooter(left) && NoFooter(right)
    ensures NoFooter(left + right)
    ensures FlowRun(s, left + right) ==
            if FlowRun(s, left).None? then None else FlowRun(FlowRun(s, left).value, right)
    decreases |left|
  {
    hide FlowStep;
    if left == [] {
      assert left + right == right;
    } else {
      assert (left + right)[1..] == left[1..] + right;
      var t := FlowStep(s, left[0]);
      if t.Some? {
        FlowAppend(t.value, left[1..], right);
      }
    }
  }

  lemma FlowOne(s: State, r: Record)
    requires !r.Footer?
    ensures FlowRun(s, [r]) == FlowStep(s, r)
  {
    hide FlowStep;
    assert [r][1..] == [];
  }

  lemma GrantedCons(rs: seq<Record>)
    requires rs != []
    ensures EntriesGranted(rs) <==> EntryGranted(rs[0]) && EntriesGranted(rs[1..])
  {
    hide EntryGranted;
    assert forall i :: 1 <= i < |rs| ==> rs[i] == rs[1..][i - 1];
  }

  /** A run goes through exactly when its flow does and every entry is granted. */
  lemma {:induction false} FlowIs(s: State, rs: seq<Record>)
    requires NoFooter(rs)
    ensures RunRecords(s, rs) == if FlowRun(s, rs).Some? && EntriesGranted(rs) then FlowRun(s, rs) else None
    decreases |rs|
  {
    hide FlowStep, StepRecord, EntryGranted, EntriesGranted;
    if rs == [] {
      NothingGranted();
    } else {
      FlowStepIs(s, rs[0]);
      GrantedCons(rs);
      if FlowStep(s, rs[0]).Some? {
        FlowIs(FlowStep(s, rs[0]).value, rs[1..]);
      }
    }
  }

  lemma NothingGranted()
    ensures EntriesGranted([])
  {
  }

  /** Parts of a flow that goes through go through. */
  lemma FlowPrefix(s: State, rs: seq<Record>, k: nat)
    requires NoFooter(rs) && k <= |rs| && FlowRun(s, rs).Some?
    ensures NoFooter(rs[..k]) && FlowRun(s, rs[..k]).Some?
  {
    hide FlowRun;
    assert rs == rs[..k] + rs[k..];
    NoFooterSplit(rs[..k], rs[k..]);
    FlowAppend(s, rs[..k], rs[k..]);
  }

  // What a flow without artifact groups adds up to.

  /** A record outside artifact groups, between header and footer. */
  predicate Plain(r: Record)
  {
    !r.Footer? && !r.Header? && !r.ArtifactBegin? && !r.ArtifactChunk? && !r.ArtifactEnd?
  }

  predicate AllPlain(rs: seq<Record>)
  {
    forall i :: 0 <= i < |rs| ==> Plain(rs[i])
  }

  /** The totals of a state. */
  function Counted(s: State): Totals { Totals(s.diagnostics, s.entryCount) }

  /** What records outside artifact groups leave alone. */
  predicate Untouched(s: State, t: State)
  {
    && t.header == s.header && t.command == s.command && t.active == s.active && t.artifacts == s.artifacts
    && t.artifactPaths == s.artifactPaths && t.chunkSize == s.chunkSize && t.footer == s.footer
  }

  lemma FlowStepCounts(s: State, r: Record)
    requires Plain(r) && FlowStep(s, r).Some?
    ensures var t := FlowStep(s, r).value;
            Counted(t) == TallyOne(Counted(s), r) && Untouched(s, t)
  {
    hide EntryOk;
  }

  lemma {:induction false} FlowCounts(s: State, rs: seq<Record>)
    requires AllPlain(rs) && NoFooter(rs) && FlowRun(s, rs).Some?
    ensures Counted(FlowRun(s, rs).value) == Tally(Counted(s), rs) && Untouched(s, FlowRun(s, rs).value)
    decreases |rs|
  {
    hide FlowStep, TallyOne, Counted, Plain;
    if rs != [] {
      assert Plain(rs[0]);
      PlainNoFooter(rs);
      FlowStepCounts(s, rs[0]);
      FlowCounts(FlowStep(s, rs[0]).value, rs[1..]);
    }
  }

  lemma PlainNoFooter(rs: seq<Record>)
    requires AllPlain(rs)
    ensures NoFooter(rs) && (rs != [] ==> AllPlain(rs[1..]))
  {
    assert forall i :: 0 <= i < |rs| ==> Plain(rs[i]);
  }

  // The flow of everything before the artifacts.

  /** Where a flow stands: at most in section `p`, with so many sources, settings and entries behind it. */
  predicate Progress(s: State, chunkSize: int, p: nat, sources: nat, settings: nat, entries: nat)
  {
    && Ready(s, chunkSize) && s.phase <= p && s.artifacts == [] && s.artifactPaths == {}
    && s.configSourceOrdinal == sources && s.configEntryOrdinal == settings && s.entryCount == entries
  }

  /** `rs` leads from progress to progress. */
  ghost predicate Leads(rs: seq<Record>, s: State, chunkSize: int, p: nat, sources: nat, settings: nat, entries: nat)
  {
    AllPlain(rs) && NoFooter(rs) && FlowRun(s, rs).Some?
    && Progress(FlowRun(s, rs).value, chunkSize, p, sources, settings, entries)
  }

  lemma LeadsOn(left: seq<Record>, right: seq<Record>, s: State, chunkSize: int,
                p: nat, sources: nat, settings: nat, entries: nat)
    requires AllPlain(left) && NoFooter(left) && FlowRun(s, left).Some?
    requires Leads(right, FlowRun(s, left).value, chunkSize, p, sources, settings, entries)
    ensures Leads(left + right, s, chunkSize, p, sources, settings, entries)
  {
    hide FlowRun, Progress, Plain;
    FlowAppend(s, left, right);
    assert forall i :: 0 <= i < |left| ==> Plain(left[i]);
    assert forall i :: 0 <= i < |right| ==> Plain(right[i]);
  }

  lemma LeadsNowhere(s: State, chunkSize: int, p: nat, sources: nat, settings: nat, entries: nat)
    requires Progress(s, chunkSize, p, sources, settings, entries)
    ensures Leads([], s, chunkSize, p, sources, settings, entries)
  {
  }

  predicate AllDiagnostics(rs: seq<Record>)
  {
    forall i :: 0 <= i < |rs| ==> rs[i].Diagnostic?
  }

  lemma DiagnosticStep(s: State, r: Record, chunkSize: int, p: nat, sources: nat, settings: nat, entries: nat)
    requires r.Diagnostic? && Progress(s, chunkSize, p, sources, settings, entries)
    ensures FlowStep(s, r).Some? && Progress(FlowStep(s, r).value, chunkSize, p, sources, settings, entries)
  {
  }

  /** Diagnostics are welcome anywhere outside a group. */
  lemma {:induction false} DiagnosticsLead(rs: seq<Record>, s: State, chunkSize: int,
                                           p: nat, sources: nat, settings: nat, entries: nat)
    requires AllDiagnostics(rs) && Progress(s, chunkSize, p, sources, settings, entries)
    ensures Leads(rs, s, chunkSize, p, sources, settings, entries)
    decreases |rs|
  {
    hide FlowStep, Progress;
    LeadsNowhere(s, chunkSize, p, sources, settings, entries);
    if rs != [] {
      DiagnosticStep(s, rs[0], chunkSize, p, sources, settings, entries);
      DiagnosticsLead(rs[1..], FlowStep(s, rs[0]).value, chunkSize, p, sources, settings, entries);
      FlowOne(s, rs[0]);
      hide FlowRun;
      LeadsOn([rs[0]], rs[1..], s, chunkSize, p, sources, settings, entries);
      assert rs == [rs[0]] + rs[1..];
    }
  }

  lemma OneLeads(r: Record, s: State, chunkSize: int, p: nat, sources: nat, settings: nat, entries: nat)
    requires Plain(r) && FlowStep(s, r).Some?
    requires Progress(FlowStep(s, r).value, chunkSize, p, sources, settings, entries)
    ensures Leads([r], s, chunkSize, p, sources, settings, entries)
  {
    hide FlowStep, Progress;
    FlowOne(s, r);
  }

  lemma LeadsProgress(rs: seq<Record>, s: State, chunkSize: int, p: nat, sources: nat, settings: nat, entries: nat)
    requires Leads(rs, s, chunkSize, p, sources, settings, entries)
    ensures AllPlain(rs) && NoFooter(rs) && FlowRun(s, rs).Some?
    ensures Progress(FlowRun(s, rs).value, chunkSize, p, sources, settings, entries)
  {
  }

  /** Files from a directory scan: located, not the root and spelled without a final separator. */
  predicate FilesLocated(files: seq<Candidate>)
  {
    forall i :: 0 <= i < |files| ==> Located(files[i]) && files[i].components != [] && !files[i].trailing
  }

  lemma SourceStep(s: State, files: seq<Candidate>, reread: Reread, i: nat, chunkSize: int)
    requires FilesLocated(files) && i < |files|
    requires Progress(s, chunkSize, 2, ReadCount(files, reread, i), 0, 0)
    ensures var r := SourceRecord(files, reread, i);
            && Plain(r) && FlowStep(s, r).Some?
            && Progress(FlowStep(s, r).value, chunkSize, 2, ReadCount(files, reread, i + 1), 0, 0)
  {
    PathAccepted(files[i], false);
    hide PathOf, Paths.RelativePath, Located, CodeText;
  }

  lemma {:induction false} SourcesLead(s: State, files: seq<Candidate>, reread: Reread, n: nat, chunkSize: int)
    requires FilesLocated(files) && n <= |files| && Progress(s, chunkSize, 2, 0, 0, 0)
    ensures Leads(SourceRecords(files, reread, n), s, chunkSize, 2, ReadCount(files, reread, n), 0, 0)
  {
    hide FlowStep, FlowRun, Progress, Leads, SourceRecord, FilesLocated;
    NoSources(files, reread);
    LeadsNowhere(s, chunkSize, 2, 0, 0, 0);
    if n > 0 {
      var before := SourceRecords(files, reread, n - 1);
      var r := SourceRecord(files, reread, n - 1);
      SourcesLead(s, files, reread, n - 1, chunkSize);
      LeadsProgress(before, s, chunkSize, 2, ReadCount(files, reread, n - 1), 0, 0);
      var t := FlowRun(s, before).value;
      SourceStep(t, files, reread, n - 1, chunkSize);
      OneLeads(r, t, chunkSize, 2, ReadCount(files, reread, n), 0, 0);
      LeadsOn(before, [r], s, chunkSize, 2, ReadCount(files, reread, n), 0, 0);
      assert SourceRecords(files, reread, n) == before + [r];
    }
  }

  lemma NoSources(files: seq<Candidate>, reread: Reread)
    ensures SourceRecords(files, reread, 0) == [] && ReadCount(files, reread, 0) == 0
  {
  }

  lemma SettingStep(s: State, name: bytes, value: bytes, i: nat, sources: nat, chunkSize: int)
    requires Progress(s, chunkSize, 3, sources, i, 0)
    ensures FlowStep(s, ConfigEntry(i, name, value)).Some?
    ensures Progress(FlowStep(s, ConfigEntry(i, name, value)).value, chunkSize, 3, sources, i + 1, 0)
  {
  }

  lemma {:induction false} SettingsLead(s: State, settings: seq<(bytes, bytes)>, sources: nat, chunkSize: int)
    requires Progress(s, chunkSize, 3, sources, 0, 0)
    ensures Leads(SettingRecords(settings), s, chunkSize, 3, sources, |settings|, 0)
    decreases |settings|
  {
    hide FlowStep, FlowRun, Progress, Leads;
    LeadsNowhere(s, chunkSize, 3, sources, 0, 0);
    if settings != [] {
      var n := |settings| - 1;
      var before := SettingRecords(settings[..n]);
      var r := ConfigEntry(n, settings[n].0, settings[n].1);
      SettingsLead(s, settings[..n], sources, chunkSize);
      LeadsProgress(before, s, chunkSize, 3, sources, n, 0);
      var t := FlowRun(s, before).value;
      SettingStep(t, settings[n].0, settings[n].1, n, sources, chunkSize);
      OneLeads(r, t, chunkSize, 3, sources, n + 1, 0);
      LeadsOn(before, [r], s, chunkSize, 3, sources, n + 1, 0);
      assert SettingRecords(settings) == before + [r];
    } else {
      assert SettingRecords(settings) == [];
    }
  }

  lemma EntryFlows(s: State, v: Visit, k: nat, sources: nat, settings: nat, chunkSize: int)
    requires Progress(s, chunkSize, 4, sources, settings, k)
    ensures Plain(EntryOf(v, k)) && FlowStep(s, EntryOf(v, k)).Some?
    ensures Progress(FlowStep(s, EntryOf(v, k)).value, chunkSize, 4, sources, settings, k + 1)
  {
    hide Normalized, NormalizedStripped, StepRecord;
  }

  lemma VisitLeads(s: State, v: Visit, k: nat, sources: nat, settings: nat, chunkSize: int)
    requires Progress(s, chunkSize, 4, sources, settings, k)
    ensures Leads(VisitRecords(v, k), s, chunkSize, 4, sources, settings, k + 1)
  {
    hide FlowStep, FlowRun, Progress, Leads, Complaints, EntryOf;
    ComplaintsAreDiagnostics(v);
    DiagnosticsLead(Complaints(v), s, chunkSize, 4, sources, settings, k);
    LeadsProgress(Complaints(v), s, chunkSize, 4, sources, settings, k);
    var t := FlowRun(s, Complaints(v)).value;
    EntryFlows(t, v, k, sources, settings, chunkSize);
    OneLeads(EntryOf(v, k), t, chunkSize, 4, sources, settings, k + 1);
    LeadsOn(Complaints(v), [EntryOf(v, k)], s, chunkSize, 4, sources, settings, k + 1);
  }

  lemma {:induction false} VisitsLead(s: State, at: Cursor, n: nat, sources: nat, settings: nat, chunkSize: int)
    requires Progress(s, chunkSize, 4, sources, settings, 0)
    ensures Leads(VisitsRecords(at, n), s, chunkSize, 4, sources, settings, n)
  {
    NoVisits(NO_TOTALS, at);
    hide FlowStep, FlowRun, Progress, Leads, VisitRecords, Tally;
    LeadsNowhere(s, chunkSize, 4, sources, settings, 0);
    if n > 0 {
      var before, more := VisitsRecords(at, n - 1), VisitRecords(at(n - 1), n - 1);
      VisitsLead(s, at, n - 1, sources, settings, chunkSize);
      LeadsProgress(before, s, chunkSize, 4, sources, settings, n - 1);
      VisitLeads(FlowRun(s, before).value, at(n - 1), n - 1, sources, settings, chunkSize);
      LeadsOn(before, more, s, chunkSize, 4, sources, settings, n);
      VisitsSnoc(at, n - 1);
    }
  }

  /** What the last visit leaves. */
  lemma LastVisitLeads(s: State, at: Cursor, declared: Option<nat>, last: nat, sources: nat, settings: nat,
                       chunkSize: int)
    requires Progress(s, chunkSize, 4, sources, settings, last)
    ensures Leads(LastVisit(at, declared, last), s, chunkSize, 4, sources, settings, Visited(at, declared, last))
  {
    hide FlowStep, FlowRun, Progress, Leads, VisitRecords, CodeText;
    var n := Visited(at, declared, last);
    if n == last {
      DiagnosticsLead(LastVisit(at, declared, last), s, chunkSize, 4, sources, settings, last);
    } else {
      var visit, ending := VisitRecords(at(last), last), EndingRecords(Ending(at, declared, last));
      VisitLeads(s, at(last), last, sources, settings, chunkSize);
      LeadsProgress(visit, s, chunkSize, 4, sources, settings, n);
      DiagnosticsLead(ending, FlowRun(s, visit).value, chunkSize, 4, sources, settings, n);
      LeadsOn(visit, ending, s, chunkSize, 4, sources, settings, n);
    }
  }

  /** The number of entries of a walk. */
  function WalkEntryCount(m: ModuleFacts, last: nat): nat
  {
    if m.positioned then Visited(m.at, m.declared, last) else 0
  }

  lemma WalkLeads(s: State, m: ModuleFacts, last: nat, sources: nat, settings: nat, chunkSize: int)
    requires Progress(s, chunkSize, 4, sources, settings, 0)
    ensures Leads(WalkOf(m, last), s, chunkSize, 4, sources, settings, WalkEntryCount(m, last))
  {
    WalkIs(m, last);
    hide FlowStep, FlowRun, Progress, Leads, VisitsRecords, LastVisit, CodeText, WalkOf, Visited;
    if m.positioned {
      var before := VisitsRecords(m.at, last);
      VisitsLead(s, m.at, last, sources, settings, chunkSize);
      LeadsProgress(before, s, chunkSize, 4, sources, settings, last);
      LastVisitLeads(FlowRun(s, before).value, m.at, m.declared, last, sources, settings, chunkSize);
      LeadsOn(before, LastVisit(m.at, m.declared, last), s, chunkSize, 4, sources, settings, WalkEntryCount(m, last));
    } else {
      DiagnosticsLead([Warn(ModuleEmpty)], s, chunkSize, 4, sources, settings, 0);
    }
  }

  // Places from directory entries.

  /** Names below `mods.d` are names of directory entries. */
  predicate TreeLocated(tree: Tree)
  {
    forall i :: 0 <= i < |tree.entries| ==> Paths.NormalComponents(tree.entries[i].components)
  }

  predicate Anywhere(components: seq<bytes>)
  {
    components == [] || Paths.NormalComponents(components)
  }

  /** So are the names below and beside the data path. */
  predicate DataLocated(data: DataPath)
  {
    match data
    case Found(components, _, _, children, _) =>
      Anywhere(components) && forall i :: 0 <= i < |children| ==> Paths.NormalComponents(children[i])
    case Absent(parent, _, names, _) =>
      Anywhere(parent) && forall i :: 0 <= i < |names| ==> Paths.NormalComponent(names[i])
    case _ => true
  }

  /** What holds of every file system. */
  predicate FilesystemFacts(m: ModuleFacts)
  {
    TreeLocated(m.tree) && DataLocated(m.data)
  }

  lemma MasterLocated()
    ensures Paths.NormalComponents(MasterPlace().components)
  {
    var name := MASTER_NAME;
    assert name[0] == 0x6d && name[1] == 0x6f && name[2] == 0x64;
    assert forall i :: 0 <= i < |name| ==> name[i] != Paths.SEPARATOR && name[i] != Paths.NUL;
  }

  lemma {:induction false} EntriesLocated(entries: seq<Configuration.Entry>, defines: bytes -> bool, c: Candidate)
    requires forall i :: 0 <= i < |entries| ==> Paths.NormalComponents(entries[i].components)
    requires c in EntriesFiles(entries, defines)
    ensures Paths.NormalComponents(c.components) && !c.trailing
  {
    hide Paths.NormalComponents, RoleText;
    if c !in EntryFiles(entries[0], defines) {
      EntriesLocated(entries[1..], defines, c);
    }
  }

  lemma FoundLocated(tree: Tree, c: Candidate)
    requires TreeLocated(tree) && c in FoundFiles(tree)
    ensures Paths.NormalComponents(c.components) && !c.trailing
  {
    MasterLocated();
    hide Paths.NormalComponents, RoleText, EntriesFiles;
    if tree.master.NoMaster? || c != MasterPlace() {
      EntriesLocated(tree.entries, tree.defines, c);
    }
  }

  lemma FilesFromLocated(m: ModuleFacts, files: seq<Candidate>)
    requires FilesFrom(m, files) && TreeLocated(m.tree)
    ensures FilesLocated(files)
  {
    hide TreeLocated, FoundFiles;
    forall i | 0 <= i < |files|
      ensures Located(files[i]) && files[i].components != [] && !files[i].trailing
    {
      assert files[i] in files;
      FoundLocated(m.tree, files[i]);
    }
  }

  lemma JoinedLocated(base: seq<bytes>, more: seq<bytes>)
    requires Anywhere(base) && Paths.NormalComponents(more)
    ensures Paths.NormalComponents(base + more)
  {
    hide Paths.NormalComponent;
  }

  lemma {:induction false} PrefixedLocated(parent: seq<bytes>, prefix: bytes, names: seq<bytes>, c: Candidate)
    requires Anywhere(parent) && forall i :: 0 <= i < |names| ==> Paths.NormalComponent(names[i])
    requires c in PrefixPlaces(parent, prefix, names)
    ensures Located(c)
  {
    hide Paths.NormalComponent, RoleText;
    var n := |names| - 1;
    if c in PrefixPlaces(parent, prefix, names[..n]) {
      PrefixedLocated(parent, prefix, names[..n], c);
    } else {
      JoinedLocated(parent, [names[n]]);
    }
  }

  lemma EnumeratedLocated(m: ModuleFacts, files: seq<Candidate>, c: Candidate)
    requires FilesystemFacts(m) && FilesFrom(m, files) && c in Enumerated(DiskOf(m, files))
    ensures Located(c)
  {
    hide Paths.NormalComponent, RoleText, ConfigurationPlaces, ChildPlaces, PrefixPlaces, TreeLocated;
    FilesFromLocated(m, files);
    if c in ConfigurationPlaces(Spots(files)) {
      ConfigurationsPlain(Spots(files), c);
      var i :| 0 <= i < |Spots(files)| && Spots(files)[i] == Some(c.components);
      assert Located(files[i]);
    } else {
      match m.data {
        case Found(components, _, isDirectory, children, _) =>
          if isDirectory && c in ChildPlaces(components, children) {
            ChildrenPlain(components, children, c);
            var k :| 0 <= k < |children| && c.components == components + children[k];
            JoinedLocated(components, children[k]);
          }
        case Absent(parent, prefix, names, _) =>
          PrefixedLocated(parent, prefix, names, c);
        case _ =>
      }
    }
  }

  lemma DiscoveredLocated(m: ModuleFacts, f: Findings)
    requires FilesystemFacts(m) && FilesFrom(m, f.files) && Established(m, f)
    ensures AllLocated(f.candidates)
  {
    hide FilesystemFacts, FilesFrom, Enumerated, Located, StrictlySorted, EndsAt, Sorted;
    forall i | 0 <= i < |f.candidates|
      ensures Located(f.candidates[i])
    {
      assert f.candidates[i] in f.candidates;
      EnumeratedLocated(m, f.files, f.candidates[i]);
    }
  }

  // The state after the header.

  predicate Begun(s: State, chunkSize: int)
  {
    && s.header.Some? && s.command == Extract && s.moduleCount == 0 && s.phase == 0 && s.active.None?
    && s.chunkSize == Some(chunkSize) && s.artifacts == [] && s.artifactPaths == {}
    && s.configSourceOrdinal == 0 && s.configEntryOrdinal == 0 && Counted(s) == NO_TOTALS
  }

  predicate ChunkSizeAdmitted(chunkSize: nat)
  {
    MINIMUM_CHUNK_SIZE <= chunkSize <= MAXIMUM_CHUNK_SIZE
  }

  lemma HeaderFlows(chunkSize: nat)
    ensures StepRecord(INITIAL_STATE, HeaderOf(chunkSize)).Some? <==> ChunkSizeAdmitted(chunkSize)
    ensures ChunkSizeAdmitted(chunkSize) ==>
              Begun(StepRecord(INITIAL_STATE, HeaderOf(chunkSize)).value, chunkSize)
  {
  }

  lemma ModuleLeads(s: State, chunkSize: int)
    requires Begun(s, chunkSize)
    ensures Leads([Module], s, chunkSize, 1, 0, 0, 0)
  {
    ModuleFlows(s, chunkSize);
    hide FlowStep, Begun, Progress;
    OneLeads(Module, s, chunkSize, 1, 0, 0, 0);
  }

  lemma ModuleFlows(s: State, chunkSize: int)
    requires Begun(s, chunkSize)
    ensures FlowStep(s, Module).Some? && Progress(FlowStep(s, Module).value, chunkSize, 1, 0, 0, 0)
  {
  }

  /** A later section is no obstacle. */
  lemma ProgressLater(s: State, chunkSize: int, p: nat, q: nat, sources: nat, settings: nat, entries: nat)
    requires Progress(s, chunkSize, p, sources, settings, entries) && p <= q
    ensures Progress(s, chunkSize, q, sources, settings, entries)
  {
  }

  /** Diagnostics at the end of a part. */
  lemma LeadsMore(left: seq<Record>, more: seq<Record>, s: State, chunkSize: int,
                  p: nat, sources: nat, settings: nat, entries: nat)
    requires Leads(left, s, chunkSize, p, sources, settings, entries) && AllDiagnostics(more)
    ensures Leads(left + more, s, chunkSize, p, sources, settings, entries)
  {
    hide FlowRun, Progress, Leads;
    LeadsProgress(left, s, chunkSize, p, sources, settings, entries);
    DiagnosticsLead(more, FlowRun(s, left).value, chunkSize, p, sources, settings, entries);
    LeadsOn(left, more, s, chunkSize, p, sources, settings, entries);
  }

  lemma ConfigurationLeads(s: State, m: ModuleFacts, files: seq<Candidate>, chunkSize: int)
    requires Progress(s, chunkSize, 1, 0, 0, 0) && FilesLocated(files)
    ensures Leads(ConfigurationRecords(m, files), s, chunkSize, 3, ReadCount(files, m.reread, |files|), |m.settings|, 0)
  {
    hide FlowRun, FlowStep, Progress, Leads, FindProblems, SourceRecords, SettingRecords, ReadCount, FilesLocated,
      CodeText;
    var p, n, f, c :=
      FindProblems(m.tree), FileNote(files), SourceRecords(files, m.reread, |files|), SettingRecords(m.settings);
    var k := ReadCount(files, m.reread, |files|);
    FindDiagnostics(m.tree);
    ProgressLater(s, chunkSize, 1, 2, 0, 0, 0);
    DiagnosticsLead(p, s, chunkSize, 2, 0, 0, 0);
    LeadsMore(p, n, s, chunkSize, 2, 0, 0, 0);
    LeadsProgress(p + n, s, chunkSize, 2, 0, 0, 0);
    SourcesLead(FlowRun(s, p + n).value, files, m.reread, |files|, chunkSize);
    LeadsOn(p + n, f, s, chunkSize, 2, k, 0, 0);
    LeadsProgress(p + n + f, s, chunkSize, 2, k, 0, 0);
    var t := FlowRun(s, p + n + f).value;
    ProgressLater(t, chunkSize, 2, 3, k, 0, 0);
    SettingsLead(t, m.settings, k, chunkSize);
    LeadsOn(p + n + f, c, s, chunkSize, 3, k, |m.settings|, 0);
  }

  /** Everything before the artifacts flows, whatever the environment did. */
  lemma CountedLeads(s: State, m: ModuleFacts, files: seq<Candidate>, last: nat, chunkSize: int)
    requires Begun(s, chunkSize) && FilesystemFacts(m) && FilesFrom(m, files)
    ensures Leads(CountedRecords(m, files, last), s, chunkSize, 4, ReadCount(files, m.reread, |files|), |m.settings|,
                  WalkEntryCount(m, last))
  {
    hide FlowRun, FlowStep, Progress, Leads, ReadCount, CodeText, Begun, ConfigurationRecords, WalkOf,
      DiscoveryProblems, FilesFrom, FilesystemFacts, WalkEntryCount;
    LocatedFacts(m, files);
    var a, c, w, d :=
      [Module] + TypeNote(m), ConfigurationRecords(m, files), WalkOf(m, last), DiscoveryProblems(DiskOf(m, files));
    var k, n := ReadCount(files, m.reread, |files|), |m.settings|;
    ModuleLeads(s, chunkSize);
    LeadsMore([Module], TypeNote(m), s, chunkSize, 1, 0, 0, 0);
    LeadsProgress(a, s, chunkSize, 1, 0, 0, 0);
    ConfigurationLeads(FlowRun(s, a).value, m, files, chunkSize);
    LeadsOn(a, c, s, chunkSize, 3, k, n, 0);
    LeadsProgress(a + c, s, chunkSize, 3, k, n, 0);
    var t := FlowRun(s, a + c).value;
    ProgressLater(t, chunkSize, 3, 4, k, n, 0);
    WalkLeads(t, m, last, k, n, chunkSize);
    LeadsOn(a + c, w, s, chunkSize, 4, k, n, WalkEntryCount(m, last));
    ProblemsAreDiagnostics(DiskOf(m, files));
    LeadsMore(a + c + w, d, s, chunkSize, 4, k, n, WalkEntryCount(m, last));
  }

  lemma LocatedFacts(m: ModuleFacts, files: seq<Candidate>)
    requires FilesystemFacts(m) && FilesFrom(m, files)
    ensures FilesLocated(files)
  {
    FilesFromLocated(m, files);
  }

  // Closing a stream that carries no artifacts.

  lemma {:induction false} TallyNatural(t: Totals, rs: seq<Record>)
    requires Natural(t.diagnostics)
    ensures Natural(Tally(t, rs).diagnostics)
    decreases |rs|
  {
    if rs != [] {
      TallyNatural(TallyOne(t, rs[0]), rs[1..]);
    }
  }

  /** A footer that reports the given totals and counts errors alone against success. */
  predicate FooterReports(footer: Record, totals: Totals, artifacts: (nat, nat))
  {
    && footer.Footer? && footer.entries == totals.entries && footer.diagnostics == totals.diagnostics
    && footer.artifacts == artifacts.0 && footer.artifactBytes == artifacts.1
    && footer.success == (totals.diagnostics.error == 0)
  }

  /** A failed run without artifacts is accepted exactly when its entries are granted and its totals are right. */
  lemma PlainAccepted(s: State, rs: seq<Record>, totals: Totals, footer: Record, chunkSize: int)
    requires Begun(s, chunkSize) && AllPlain(rs) && NoFooter(rs) && FlowRun(s, rs).Some?
    requires FooterReports(footer, totals, (0, 0)) && totals.diagnostics.error > 0
    ensures RunRecords(s, rs).Some? && Closes(RunRecords(s, rs).value, footer) <==>
            EntriesGranted(rs) && totals == Tally(NO_TOTALS, rs)
  {
    FlowIs(s, rs);
    FlowCounts(s, rs);
    TallyNatural(NO_TOTALS, rs);
    hide RunRecords, FlowRun, Tally, EntriesGranted, AllPlain, NoFooter;
  }

  lemma RunAfterHeader(rs: seq<Record>, chunkSize: nat)
    requires NoFooter(rs)
    ensures NoFooter([HeaderOf(chunkSize)] + rs)
    ensures RunRecords(INITIAL_STATE, [HeaderOf(chunkSize)] + rs) ==
            if ChunkSizeAdmitted(chunkSize)
            then RunRecords(StepRecord(INITIAL_STATE, HeaderOf(chunkSize)).value, rs) else None
  {
    HeaderFlows(chunkSize);
    hide StepRecord, RunRecords, ChunkSizeAdmitted, Begun;
    RunRecordsAppend(INITIAL_STATE, [HeaderOf(chunkSize)], rs);
    RunOneRecord(INITIAL_STATE, HeaderOf(chunkSize));
  }
}
