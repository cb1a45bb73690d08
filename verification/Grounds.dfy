/** Why a diagnostic is in the stream: for every severity and code, what must have happened, and nothing else. */
module Grounds {
  import opened Artifacts
  import opened Bytes
  import opened Codes
  import opened Discovery
  import opened Extraction
  import opened JsonText
  import opened Records
  import opened Traversal
  import C = Configuration
  import Utf8

  predicate Says(d: Record, severity: Severity, code: string)
  {
    d == Diagnostic(severity, Text(code))
  }

  // How the codes are spelled.

  lemma EntryCode0()
    ensures CodeText(EntryLengthUnsupported) == Text("entry.length.unsupported")
    ensures CodeText(EntryEncodingUnavailable) == Text("entry.encoding.unavailable")
    ensures CodeText(EntryEncodingEmbeddedNul) == Text("entry.encoding.embedded_nul")
  {
    hide Text;
  }

  lemma EntryCode1()
    ensures CodeText(EntryNormalizedStrippedInvalidUtf8) == Text("entry.normalized_stripped.invalid_utf8")
  {
    hide Text;
  }

  lemma EntryCodes()
    ensures CodeText(EntryLengthUnsupported) == Text("entry.length.unsupported")
    ensures CodeText(EntryEncodingUnavailable) == Text("entry.encoding.unavailable")
    ensures CodeText(EntryEncodingEmbeddedNul) == Text("entry.encoding.embedded_nul")
    ensures CodeText(EntryNormalizedStrippedInvalidUtf8) == Text("entry.normalized_stripped.invalid_utf8")
  {
    hide *;
    EntryCode0();
    EntryCode1();
  }

  lemma WalkCode0()
    ensures CodeText(ModuleEmpty) == Text("module.empty")
    ensures CodeText(ModuleNavigationStalled) == Text("module.navigation.stalled")
    ensures CodeText(EntryReadFailed) == Text("entry.read.failed")
  {
    hide Text;
  }

  lemma WalkCode1()
    ensures CodeText(ModuleEntryCountMismatch) == Text("module.entry_count.mismatch")
    ensures CodeText(ModuleNavigationFailed) == Text("module.navigation.failed")
  {
    hide Text;
  }

  lemma WalkCodes()
    ensures CodeText(ModuleEmpty) == Text("module.empty")
    ensures CodeText(ModuleNavigationStalled) == Text("module.navigation.stalled")
    ensures CodeText(EntryReadFailed) == Text("entry.read.failed")
    ensures CodeText(ModuleEntryCountMismatch) == Text("module.entry_count.mismatch")
    ensures CodeText(ModuleNavigationFailed) == Text("module.navigation.failed")
  {
    hide *;
    WalkCode0();
    WalkCode1();
  }

  lemma ConfigurationCode0()
    ensures CodeText(ConfigStatFailed) == Text("config.stat.failed")
    ensures CodeText(ConfigReadFailed) == Text("config.read.failed")
    ensures CodeText(ConfigSymlinkRefused) == Text("config.symlink.refused")
  {
    hide Text;
  }

  lemma ConfigurationCode1()
    ensures CodeText(ConfigEnumerationFailed) == Text("config.enumeration.failed")
    ensures CodeText(ConfigDirectoryUnreadable) == Text("config.directory.unreadable")
    ensures CodeText(ConfigSourceNotFound) == Text("config.source.not_found")
  {
    hide Text;
  }

  lemma ConfigurationCodes()
    ensures CodeText(ConfigStatFailed) == Text("config.stat.failed")
    ensures CodeText(ConfigReadFailed) == Text("config.read.failed")
    ensures CodeText(ConfigSymlinkRefused) == Text("config.symlink.refused")
    ensures CodeText(ConfigEnumerationFailed) == Text("config.enumeration.failed")
    ensures CodeText(ConfigDirectoryUnreadable) == Text("config.directory.unreadable")
    ensures CodeText(ConfigSourceNotFound) == Text("config.source.not_found")
  {
    hide *;
    ConfigurationCode0();
    ConfigurationCode1();
  }

  lemma DiscoveryCode0()
    ensures CodeText(ArtifactDatapathMissing) == Text("artifact.datapath.missing")
    ensures CodeText(ArtifactDatapathEscape) == Text("artifact.datapath.escape")
    ensures CodeText(ArtifactEnumerationFailed) == Text("artifact.enumeration.failed")
  {
    hide Text;
  }

  lemma DiscoveryCode1()
    ensures CodeText(ArtifactDatapathUnresolved) == Text("artifact.datapath.unresolved")
    ensures CodeText(ArtifactRootInvalid) == Text("artifact.root.invalid")
    ensures CodeText(ArtifactConfigEscape) == Text("artifact.config.escape")
  {
    hide Text;
  }

  lemma DiscoveryCodes()
    ensures CodeText(ArtifactDatapathMissing) == Text("artifact.datapath.missing")
    ensures CodeText(ArtifactDatapathEscape) == Text("artifact.datapath.escape")
    ensures CodeText(ArtifactEnumerationFailed) == Text("artifact.enumeration.failed")
    ensures CodeText(ArtifactDatapathUnresolved) == Text("artifact.datapath.unresolved")
    ensures CodeText(ArtifactRootInvalid) == Text("artifact.root.invalid")
    ensures CodeText(ArtifactConfigEscape) == Text("artifact.config.escape")
  {
    hide *;
    DiscoveryCode0();
    DiscoveryCode1();
  }

  lemma CaptureCode0()
    ensures CodeText(ArtifactStatFailed) == Text("artifact.stat.failed")
    ensures CodeText(ArtifactSymlinkReadFailed) == Text("artifact.symlink.read_failed")
    ensures CodeText(ArtifactOpenFailed) == Text("artifact.open.failed")
  {
    hide Text;
  }

  lemma CaptureCode1()
    ensures CodeText(ArtifactChangedBeforeRead) == Text("artifact.changed_before_read")
    ensures CodeText(ArtifactReadFailed) == Text("artifact.read.failed")
    ensures CodeText(ArtifactChangedDuringRead) == Text("artifact.changed_during_read")
  {
    hide Text;
  }

  lemma CaptureCode2()
    ensures CodeText(ArtifactTypeUnsupported) == Text("artifact.type.unsupported")
  {
    hide Text;
  }

  lemma CaptureCodes()
    ensures CodeText(ArtifactStatFailed) == Text("artifact.stat.failed")
    ensures CodeText(ArtifactSymlinkReadFailed) == Text("artifact.symlink.read_failed")
    ensures CodeText(ArtifactOpenFailed) == Text("artifact.open.failed")
    ensures CodeText(ArtifactChangedBeforeRead) == Text("artifact.changed_before_read")
    ensures CodeText(ArtifactReadFailed) == Text("artifact.read.failed")
    ensures CodeText(ArtifactChangedDuringRead) == Text("artifact.changed_during_read")
    ensures CodeText(ArtifactTypeUnsupported) == Text("artifact.type.unsupported")
  {
    hide *;
    CaptureCode0();
    CaptureCode1();
    CaptureCode2();
  }

  lemma OtherCode0()
    ensures CodeText(ModuleTypeUnknown) == Text("module.type.unknown")
    ensures CodeText(SwordRootInvalid) == Text("sword.root.invalid")
    ensures CodeText(ModuleNotFound) == Text("module.not_found")
  {
    hide Text;
  }

  lemma OtherCode1()
    ensures CodeText(ExtractionException) == Text("extraction.exception")
  {
    hide Text;
  }

  lemma OtherCodes()
    ensures CodeText(ModuleTypeUnknown) == Text("module.type.unknown")
    ensures CodeText(SwordRootInvalid) == Text("sword.root.invalid")
    ensures CodeText(ModuleNotFound) == Text("module.not_found")
    ensures CodeText(ExtractionException) == Text("extraction.exception")
  {
    hide *;
    OtherCode0();
    OtherCode1();
  }

  // Entries.

  /** The text of a position, if it has one. */
  predicate Reads(v: Visit, text: bytes)
  {
    match v.encoding
    case Utf8Label => text == v.raw && Utf8.Valid(text)
    case Converted(converted) => converted == Some(text)
  }

  predicate Long(b: bytes) { |b| > 0x7fff_ffff }

  /** What a position that was read gives rise to. */
  ghost predicate Said(v: Visit, d: Record)
  {
    || (Says(d, Error, "entry.length.unsupported") && Long(v.raw))
    || (Says(d, Warning, "entry.encoding.unavailable") && forall text :: !Reads(v, text))
    || (exists text :: Reads(v, text) && SaidOfText(v, text, d))
  }

  predicate SaidOfText(v: Visit, text: bytes, d: Record)
  {
    || (Says(d, Warning, "entry.encoding.embedded_nul") && 0 in text)
    || (Says(d, Error, "entry.length.unsupported") && 0 !in text && Long(text))
    || (Says(d, Warning, "entry.normalized_stripped.invalid_utf8") && 0 !in text && !Long(text)
        && !Utf8.Valid(v.normalizedStripped))
  }

  lemma ReadsIs(v: Visit, text: bytes)
    ensures Reads(v, text) <==> Normalized(v) == Some(text)
  {
    hide Utf8.Valid;
  }

  lemma VisitSays(v: Visit, ordinal: nat, d: Record)
    requires d.Diagnostic?
    ensures d in VisitRecords(v, ordinal) <==> Said(v, d)
  {
    EntryCodes();
    hide Text, CodeText, Utf8.Valid, Reads, Normalized, EntryOf;
    if Normalized(v).Some? {
      var text := Normalized(v).value;
      ReadsIs(v, text);
      forall other | Reads(v, other)
        ensures other == text
      {
        ReadsIs(v, other);
      }
    } else {
      forall text
        ensures !Reads(v, text)
      {
        ReadsIs(v, text);
      }
    }
    EntryIsNone(v, ordinal);
  }

  lemma EntryIsNone(v: Visit, ordinal: nat)
    ensures EntryOf(v, ordinal).Entry?
  {
  }

  // The walk.

  predicate StandsStill(at: Cursor, declared: Option<nat>, k: nat)
  {
    declared == None && k > 0 && at(k).key == at(k - 1).key && at(k).index == at(k - 1).index
  }

  predicate CountReached(declared: Option<nat>, k: nat)
  {
    declared.Some? && declared.value <= k + 1
  }

  /** What the last position gives rise to, besides what it gives rise to as a position that was read. */
  predicate SaidLast(at: Cursor, declared: Option<nat>, last: nat, d: Record)
  {
    if StandsStill(at, declared, last) then Says(d, Error, "module.navigation.stalled")
    else if at(last).readError != 0 then Says(d, Error, "entry.read.failed")
    else
      && !CountReached(declared, last)
      && if at(last).next == 1 then declared.Some? && Says(d, Error, "module.entry_count.mismatch")
         else Says(d, Error, "module.navigation.failed")
  }

  /** A position whose entry is in the stream. */
  predicate WasRead(at: Cursor, declared: Option<nat>, last: nat, k: nat)
  {
    k < last || (k == last && !StandsStill(at, declared, last) && at(last).readError == 0)
  }

  ghost predicate SaidOnWalk(positioned: bool, at: Cursor, declared: Option<nat>, last: nat, d: Record)
  {
    if !positioned then Says(d, Warning, "module.empty")
    else
      || (exists k: nat :: WasRead(at, declared, last, k) && Said(at(k), d))
      || SaidLast(at, declared, last, d)
  }

  lemma {:induction false} VisitsSay(at: Cursor, n: nat, d: Record)
    requires d.Diagnostic?
    ensures d in VisitsRecords(at, n) <==> exists k: nat :: k < n && Said(at(k), d)
  {
    hide VisitRecords, Said;
    if n > 0 {
      VisitsSay(at, n - 1, d);
      VisitSays(at(n - 1), n - 1, d);
    }
  }

  lemma LastSays(at: Cursor, declared: Option<nat>, last: nat, d: Record)
    requires d.Diagnostic?
    ensures d in LastVisit(at, declared, last) <==>
            || (WasRead(at, declared, last, last) && Said(at(last), d))
            || SaidLast(at, declared, last, d)
  {
    WalkCodes();
    hide Text, CodeText, VisitRecords, Said;
    VisitSays(at(last), last, d);
  }

  lemma WalkSays(positioned: bool, at: Cursor, declared: Option<nat>, last: nat, d: Record)
    requires d.Diagnostic?
    ensures d in WalkRecords(positioned, at, declared, last) <==> SaidOnWalk(positioned, at, declared, last, d)
  {
    WalkCodes();
    hide Text, CodeText, VisitsRecords, LastVisit, Said, SaidLast;
    VisitsSay(at, last, d);
    LastSays(at, declared, last, d);
  }

  // Configuration.

  predicate SaidOfEntry(entry: C.Entry, d: Record)
  {
    || (Says(d, Error, "config.stat.failed") && entry.status == C.StatusUnknown)
    || (Says(d, Error, "config.read.failed") && entry.status == C.PlainFile(None))
    || (Says(d, Error, "config.symlink.refused") && entry.status == C.Link)
    || (Says(d, Error, "config.enumeration.failed") && entry.stops && entry.status != C.StatusUnknown)
  }

  /** The enumeration comes to entry `i`. */
  predicate ComesTo(entries: seq<C.Entry>, i: nat)
  {
    i < |entries| && forall j :: 0 <= j < i ==> !entries[j].stops
  }

  predicate SaidOfEntries(entries: seq<C.Entry>, d: Record)
  {
    exists i :: 0 <= i < |entries| && ComesTo(entries, i) && SaidOfEntry(entries[i], d)
  }

  predicate SaidOfTree(tree: C.Tree, d: Record)
  {
    match tree.master
    case MasterFile(content) => content == None && Says(d, Error, "config.read.failed")
    case MasterLink => Says(d, Error, "config.symlink.refused")
    case NoMaster =>
      if tree.readable then SaidOfEntries(tree.entries, d) else Says(d, Error, "config.directory.unreadable")
  }

  lemma {:induction false} EntriesSay(entries: seq<C.Entry>, d: Record)
    ensures d in C.EntriesProblems(entries) <==> SaidOfEntries(entries, d)
  {
    if entries != [] {
      var rest := entries[1..];
      EntriesSay(rest, d);
      EntrySays(entries[0], d);
      forall i: nat | i < |rest|
        ensures rest[i] == entries[i + 1]
        ensures ComesTo(entries, i + 1) <==> !entries[0].stops && ComesTo(rest, i)
      {
        ComesLater(entries, i);
      }
      hide C.EntryProblems, C.StopProblems, SaidOfEntry;
      if SaidOfEntries(entries, d) {
        var i :| 0 <= i < |entries| && ComesTo(entries, i) && SaidOfEntry(entries[i], d);
        assert i > 0 ==> rest[i - 1] == entries[i];
      }
    }
  }

  lemma EntrySays(entry: C.Entry, d: Record)
    ensures d in C.EntryProblems(entry) + C.StopProblems(entry) <==> SaidOfEntry(entry, d)
  {
    ConfigurationCodes();
    hide Text, CodeText;
  }

  lemma ComesLater(entries: seq<C.Entry>, i: nat)
    requires i + 1 < |entries|
    ensures ComesTo(entries, i + 1) <==> !entries[0].stops && ComesTo(entries[1..], i)
  {
    var rest := entries[1..];
    if ComesTo(entries, i + 1) {
      assert !entries[0].stops;
      assert forall j :: 0 <= j < i ==> rest[j] == entries[j + 1];
    }
    if !entries[0].stops && ComesTo(rest, i) {
      assert forall j :: 0 < j < i + 1 ==> entries[j] == rest[j - 1];
    }
  }

  lemma TreeSays(tree: C.Tree, d: Record)
    ensures d in C.FindProblems(tree) <==> SaidOfTree(tree, d)
  {
    ConfigurationCodes();
    hide Text, CodeText, SaidOfEntries, C.EntriesProblems;
    EntriesSay(tree.entries, d);
  }

  ghost predicate SaidOfConfiguration(m: ModuleFacts, files: seq<Candidate>, d: Record)
  {
    || SaidOfTree(m.tree, d)
    || (Says(d, Warning, "config.source.not_found") && files == [])
    || (Says(d, Error, "config.read.failed") && exists i :: 0 <= i < |files| && m.reread(files[i]) == None)
  }

  lemma SourcesSay(files: seq<Candidate>, reread: C.Reread, d: Record)
    requires d.Diagnostic?
    ensures d in C.SourceRecords(files, reread, |files|) <==>
            Says(d, Error, "config.read.failed") && exists i :: 0 <= i < |files| && reread(files[i]) == None
  {
    ConfigurationCodes();
    hide Text, CodeText, PathOf, C.ReadCount;
    var all := C.SourceRecords(files, reread, |files|);
    if d in all {
      var i :| 0 <= i < |all| && all[i] == d;
      assert all[i] == C.SourceRecord(files, reread, i);
    }
    if Says(d, Error, "config.read.failed") && exists i :: 0 <= i < |files| && reread(files[i]) == None {
      var i :| 0 <= i < |files| && reread(files[i]) == None;
      assert all[i] == C.SourceRecord(files, reread, i);
    }
  }

  lemma ConfigurationSays(m: ModuleFacts, files: seq<Candidate>, d: Record)
    requires d.Diagnostic?
    ensures d in ConfigurationRecords(m, files) <==> SaidOfConfiguration(m, files, d)
  {
    ConfigurationCodes();
    hide Text, CodeText, SaidOfTree, C.FindProblems, C.SourceRecords;
    TreeSays(m.tree, d);
    SourcesSay(files, m.reread, d);
    assert forall i :: 0 <= i < |C.SettingRecords(m.settings)| ==> C.SettingRecords(m.settings)[i].ConfigEntry?;
  }

  // Discovery.

  predicate SaidOfData(data: DataPath, d: Record)
  {
    match data
    case Missing => Says(d, Error, "artifact.datapath.missing")
    case Escaping => Says(d, Error, "artifact.datapath.escape")
    case Found(_, _, isDirectory, _, complete) =>
      isDirectory && !complete && Says(d, Error, "artifact.enumeration.failed")
    case Absent(_, prefix, names, complete) =>
      (complete ==> forall k :: 0 <= k < |names| ==> !(prefix <= names[k]))
      && Says(d, Error, "artifact.datapath.unresolved")
  }

  predicate SaidOnDiscovery(disk: Disk, d: Record)
  {
    if !disk.rootValid then Says(d, Error, "artifact.root.invalid")
    else
      || (Says(d, Error, "artifact.config.escape") && None in disk.configurations)
      || SaidOfData(disk.data, d)
  }

  lemma {:induction false} EscapesSay(files: seq<Option<seq<bytes>>>, d: Record)
    ensures d in ConfigurationProblems(files) <==> Says(d, Error, "artifact.config.escape") && None in files
  {
    DiscoveryCodes();
    hide Text, CodeText;
    if files != [] {
      EscapesSay(files[..|files| - 1], d);
      assert files == files[..|files| - 1] + [files[|files| - 1]];
    }
  }

  lemma {:induction false} NoPrefixed(parent: seq<bytes>, prefix: bytes, names: seq<bytes>)
    ensures PrefixPlaces(parent, prefix, names) == [] <==> forall k :: 0 <= k < |names| ==> !(prefix <= names[k])
  {
    hide RoleText;
    if names != [] {
      var n := |names| - 1;
      NoPrefixed(parent, prefix, names[..n]);
      assert forall k :: 0 <= k < n ==> names[..n][k] == names[k];
    }
  }

  lemma DiscoverySays(disk: Disk, d: Record)
    ensures d in DiscoveryProblems(disk) <==> SaidOnDiscovery(disk, d)
  {
    DiscoveryCodes();
    hide Text, CodeText, ConfigurationProblems, PrefixPlaces;
    EscapesSay(disk.configurations, d);
    if disk.data.Absent? {
      NoPrefixed(disk.data.parent, disk.data.prefix, disk.data.names);
    }
  }

  // Capture.

  /** The readings end with a failure, and not with the end of the file. */
  predicate Fails(readings: seq<Read>)
  {
    exists i :: 0 <= i < |readings| && readings[i] == Failed && NotOver(readings, i)
  }

  /** Before reading `i` nothing failed, and the end was not reached. */
  predicate NotOver(readings: seq<Read>, i: nat)
  {
    forall j :: 0 <= j < i && j < |readings| ==> readings[j] != Failed && readings[j] != Data([])
  }

  predicate SaidOnCapture(o: Observation, d: Record)
  {
    match o
    case StatFailed => Says(d, Error, "artifact.stat.failed")
    case DirectorySeen(_) => false
    case LinkSeen(_, _, target) => target == None && Says(d, Error, "artifact.symlink.read_failed")
    case FileSeen(_, _, opens, same, readings, stable) =>
      if !opens then Says(d, Error, "artifact.open.failed")
      else if !same then Says(d, Error, "artifact.changed_before_read")
      else
        || (Fails(readings) && Says(d, Error, "artifact.read.failed"))
        || (!stable && Says(d, Error, "artifact.changed_during_read"))
    case OtherSeen(_) => Says(d, Error, "artifact.type.unsupported")
  }

  lemma {:induction false} FailsIs(readings: seq<Read>)
    ensures ReadFails(readings) <==> Fails(readings)
  {
    if readings != [] {
      var rest := readings[1..];
      FailsIs(rest);
      forall i: nat | i < |rest|
        ensures rest[i] == readings[i + 1]
        ensures NotOver(readings, i + 1) <==> readings[0] != Failed && readings[0] != Data([]) && NotOver(rest, i)
      {
        OverLater(readings, i);
      }
      assert NotOver(readings, 0);
      if Fails(readings) {
        var i :| 0 <= i < |readings| && readings[i] == Failed && NotOver(readings, i);
        assert i > 0 ==> rest[i - 1] == readings[i];
      }
    }
  }

  lemma OverLater(readings: seq<Read>, i: nat)
    requires i + 1 < |readings|
    ensures NotOver(readings, i + 1) <==>
            readings[0] != Failed && readings[0] != Data([]) && NotOver(readings[1..], i)
  {
    var rest := readings[1..];
    if NotOver(readings, i + 1) {
      assert readings[0] != Failed && readings[0] != Data([]);
      assert forall j :: 0 <= j < i ==> rest[j] == readings[j + 1];
    }
    if readings[0] != Failed && readings[0] != Data([]) && NotOver(rest, i) {
      assert forall j :: 0 < j < i + 1 ==> readings[j] == rest[j - 1];
    }
  }

  lemma OutcomeSays(o: Observation, d: Record)
    ensures d in ProblemsOf(o) <==> SaidOnCapture(o, d)
  {
    CaptureCodes();
    hide Text, CodeText, ReadFails, Fails;
    if o.FileSeen? {
      FailsIs(o.readings);
    }
  }

  lemma {:induction false} ProblemsSay(cs: seq<Candidate>, world: World, n: nat, d: Record)
    requires n <= |cs|
    ensures d in Problems(cs, world, n) <==> exists i :: 0 <= i < n && SaidOnCapture(world(cs[i]), d)
  {
    hide ProblemsOf, SaidOnCapture;
    if n > 0 {
      ProblemsSay(cs, world, n - 1, d);
      OutcomeSays(world(cs[n - 1]), d);
    }
  }

  lemma {:induction false} GroupsSayNothing(cs: seq<Candidate>, world: World, n: nat, d: Record)
    requires n <= |cs| && d.Diagnostic?
    ensures d !in GroupsRecords(cs, world, n)
  {
    hide GroupRecords;
    if n > 0 {
      GroupsSayNothing(cs, world, n - 1, d);
      GroupSaysNothing(cs[n - 1], world(cs[n - 1]), CapturedCount(cs, world, n - 1), d);
    }
  }

  lemma GroupSaysNothing(c: Candidate, o: Observation, id: nat, d: Record)
    requires d.Diagnostic?
    ensures d !in GroupRecords(c, o, id)
  {
    hide PathOf, ContentOf, ReadData, StableOf;
    var chunks := ChunkRecords(id, ChunksOf(o));
    assert forall i :: 0 <= i < |chunks| ==> chunks[i].ArtifactChunk?;
  }

  // Whole extractions.

  ghost predicate SaidOfArtifacts(m: ModuleFacts, f: Findings, chunkSize: nat, d: Record)
  {
    0 < chunkSize <= 0x7fff_ffff_ffff_ffff
    && exists i :: 0 <= i < |f.candidates| && SaidOnCapture(m.world(f.candidates[i]), d)
  }

  /** Everything that can be said in the course of an undisturbed extraction, and when it is said. */
  ghost predicate SaidOnTheWay(m: ModuleFacts, f: Findings, chunkSize: nat, d: Record)
  {
    || (m.unknownType && Says(d, Warning, "module.type.unknown"))
    || SaidOfConfiguration(m, f.files, d)
    || SaidOnWalk(m.positioned, m.at, m.declared, f.last, d)
    || SaidOnDiscovery(DiskOf(m, f.files), d)
    || SaidOfArtifacts(m, f, chunkSize, d)
  }

  lemma ArtifactsSay(m: ModuleFacts, f: Findings, chunkSize: nat, d: Record)
    requires d.Diagnostic?
    ensures d in ArtifactRecords(f.candidates, m.world, chunkSize) <==> SaidOfArtifacts(m, f, chunkSize, d)
  {
    hide SaidOnCapture, Problems, GroupsRecords;
    ProblemsSay(f.candidates, m.world, |f.candidates|, d);
    GroupsSayNothing(f.candidates, m.world, |f.candidates|, d);
  }

  lemma CountedSays(m: ModuleFacts, f: Findings, d: Record)
    requires d.Diagnostic?
    ensures d in CountedRecords(m, f.files, f.last) <==>
            || (m.unknownType && Says(d, Warning, "module.type.unknown"))
            || SaidOfConfiguration(m, f.files, d)
            || SaidOnWalk(m.positioned, m.at, m.declared, f.last, d)
            || SaidOnDiscovery(DiskOf(m, f.files), d)
  {
    OtherCodes();
    hide Text, CodeText;
    hide ConfigurationRecords, WalkRecords, DiscoveryProblems, SaidOfConfiguration, SaidOnWalk, SaidOnDiscovery, DiskOf;
    ConfigurationSays(m, f.files, d);
    WalkSays(m.positioned, m.at, m.declared, f.last, d);
    DiscoverySays(DiskOf(m, f.files), d);
  }

  /** A diagnostic is in the stream of an extraction that ran to its end exactly if there were grounds for it. */
  lemma DiagnosticIff(m: ModuleFacts, f: Findings, chunkSize: nat, d: Record)
    requires d.Diagnostic?
    ensures d in BodyOf(Some(m), chunkSize, Whole(f)) <==> SaidOnTheWay(m, f, chunkSize, d)
  {
    hide CountedRecords, ArtifactRecords, SaidOfConfiguration, SaidOnWalk, SaidOnDiscovery, SaidOfArtifacts, DiskOf;
    CountedSays(m, f, d);
    ArtifactsSay(m, f, chunkSize, d);
  }

  /** Without a root, without the module, and after an exception it is said that and nothing else is added. */
  lemma DiagnosticOtherwise(m: Option<ModuleFacts>, f: Findings, k: nat, chunkSize: nat)
    ensures BodyOf(m, chunkSize, Refused) == [Diagnostic(Error, Text("sword.root.invalid"))]
    ensures BodyOf(None, chunkSize, Whole(f)) == [Diagnostic(Error, Text("module.not_found"))]
    ensures k <= |CountedPart(m, f)| ==>
              BodyOf(m, chunkSize, BrokenCounted(f, k)) ==
              CountedPart(m, f)[..k] + [Diagnostic(Error, Text("extraction.exception"))]
    ensures k <= |ArtifactPart(m, f, chunkSize)| ==>
              BodyOf(m, chunkSize, BrokenArtifacts(f, k)) ==
              CountedPart(m, f) + ArtifactPart(m, f, chunkSize)[..k]
              + [Diagnostic(Error, Text("extraction.exception"))]
  {
    OtherCodes();
    hide Text, CodeText, CountedRecords, ArtifactRecords;
  }
}
