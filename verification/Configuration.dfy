/** Configuration capture: the files that define a module, their octets, and the interpreted settings. */
module Configuration {
  import opened Artifacts
  import opened Bytes
  import opened Codes
  import opened Discovery
  import opened JsonText
  import opened Records
  import opened Session
  import opened Traversal

  /** The file `mods.conf` at the root. */
  datatype Master = NoMaster | MasterFile(content: Option<bytes>) | MasterLink

  datatype Status = StatusUnknown | PlainFile(content: Option<bytes>) | Link | SomethingElse

  /** One entry below `mods.d`, and whether the enumeration fails after it. */
  datatype Entry = Entry(components: seq<bytes>, status: Status, stops: bool)

  /** What the file system shows of the configuration; `defines` tells whether a text defines the module. */
  datatype Tree = Tree(master: Master, readable: bool, entries: seq<Entry>, defines: bytes -> bool)

  const MASTER_NAME := Text("mods.conf")

  function MasterPlace(): Candidate
  {
    Place([MASTER_NAME], Role.Configuration)
  }

  function EntryFiles(entry: Entry, defines: bytes -> bool): seq<Candidate>
  {
    if entry.status.PlainFile? && entry.status.content.Some? && defines(entry.status.content.value)
    then [Place(entry.components, Role.Configuration)] else []
  }

  function EntryProblems(entry: Entry): seq<Record>
  {
    match entry.status
    case StatusUnknown => [Failure(ConfigStatFailed)]
    case PlainFile(content) => if content.None? then [Failure(ConfigReadFailed)] else []
    case Link => [Failure(ConfigSymlinkRefused)]
    case SomethingElse => []
  }

  /** A failed status check moves on without looking whether moving on failed. */
  function StopProblems(entry: Entry): seq<Record>
  {
    if entry.stops && !entry.status.StatusUnknown? then [Failure(ConfigEnumerationFailed)] else []
  }

  function EntriesFiles(entries: seq<Entry>, defines: bytes -> bool): seq<Candidate>
  {
    if entries == [] then []
    else EntryFiles(entries[0], defines) + if entries[0].stops then [] else EntriesFiles(entries[1..], defines)
  }

  function EntriesProblems(entries: seq<Entry>): seq<Record>
  {
    if entries == [] then []
    else
      EntryProblems(entries[0])
      + (StopProblems(entries[0]) + if entries[0].stops then [] else EntriesProblems(entries[1..]))
  }

  /** The defining files in the order in which they are found. */
  function FoundFiles(tree: Tree): seq<Candidate>
  {
    match tree.master
    case MasterFile(content) => if content.Some? && tree.defines(content.value) then [MasterPlace()] else []
    case MasterLink => []
    case NoMaster => if tree.readable then EntriesFiles(tree.entries, tree.defines) else []
  }

  /** The enumeration comes to entry `i`, and its file can be read and defines the module. */
  predicate Defining(entries: seq<Entry>, defines: bytes -> bool, i: nat)
    requires i < |entries|
  {
    && (forall j :: 0 <= j < i ==> !entries[j].stops)
    && entries[i].status.PlainFile? && entries[i].status.content.Some? && defines(entries[i].status.content.value)
  }

  predicate IsDefining(entries: seq<Entry>, defines: bytes -> bool, c: Candidate)
  {
    !c.trailing && c.role == Text("configuration")
    && exists i :: 0 <= i < |entries| && entries[i].components == c.components && Defining(entries, defines, i)
  }

  /** The file at the root, where it is one that defines the module; without such a file, those below `mods.d`. */
  predicate DefinesModule(tree: Tree, c: Candidate)
  {
    match tree.master
    case MasterFile(content) =>
      && content.Some? && tree.defines(content.value)
      && c.components == [Text("mods.conf")] && !c.trailing && c.role == Text("configuration")
    case MasterLink => false
    case NoMaster => tree.readable && IsDefining(tree.entries, tree.defines, c)
  }

  lemma {:induction false} EntriesIff(entries: seq<Entry>, defines: bytes -> bool, c: Candidate)
    ensures c in EntriesFiles(entries, defines) <==> IsDefining(entries, defines, c)
  {
    if entries != [] {
      var rest := entries[1..];
      EntriesIff(rest, defines, c);
      EntryIff(entries[0], defines, c);
      forall i: nat | i < |rest|
        ensures rest[i] == entries[i + 1]
        ensures Defining(entries, defines, i + 1) <==> !entries[0].stops && Defining(rest, defines, i)
      {
        DefiningLater(entries, defines, i);
      }
      hide EntryFiles;
      if IsDefining(entries, defines, c) {
        var i :| 0 <= i < |entries| && entries[i].components == c.components && Defining(entries, defines, i);
        assert i > 0 ==> rest[i - 1] == entries[i];
      }
    }
  }

  lemma EntryIff(entry: Entry, defines: bytes -> bool, c: Candidate)
    ensures c in EntryFiles(entry, defines) <==>
            && !c.trailing && c.role == Text("configuration") && c.components == entry.components
            && entry.status.PlainFile? && entry.status.content.Some? && defines(entry.status.content.value)
  {
  }

  lemma DefiningLater(entries: seq<Entry>, defines: bytes -> bool, i: nat)
    requires i + 1 < |entries|
    ensures Defining(entries, defines, i + 1) <==> !entries[0].stops && Defining(entries[1..], defines, i)
  {
    var rest := entries[1..];
    if Defining(entries, defines, i + 1) {
      assert forall j :: 0 <= j < i ==> rest[j] == entries[j + 1];
      assert !entries[0].stops;
    }
    if !entries[0].stops && Defining(rest, defines, i) {
      assert forall j :: 0 < j < i + 1 ==> entries[j] == rest[j - 1];
    }
  }

  /** Every captured file defines the module, and every defining file that is come across is captured. */
  lemma FoundIff(tree: Tree, c: Candidate)
    ensures c in FoundFiles(tree) <==> DefinesModule(tree, c)
  {
    hide EntriesFiles, IsDefining;
    if tree.master.NoMaster? {
      EntriesIff(tree.entries, tree.defines, c);
    }
  }

  function FindProblems(tree: Tree): seq<Record>
  {
    match tree.master
    case MasterFile(content) => if content.None? then [Failure(ConfigReadFailed)] else []
    case MasterLink => [Failure(ConfigSymlinkRefused)]
    case NoMaster => if tree.readable then EntriesProblems(tree.entries) else [Failure(ConfigDirectoryUnreadable)]
  }

  method ScanEntry(e: Emitter, entry: Entry, defines: bytes -> bool) returns (thrown: bool, files: seq<Candidate>)
    requires e.Valid() && !e.writer.output.bad
    modifies e, e.writer.Repr
    ensures e.Valid() && Played(old(e.Now()), e.Now(), EntryProblems(entry) + StopProblems(entry), true, thrown)
    ensures files == EntryFiles(entry, defines)
  {
    hide Played, e.Valid, CodeText, RoleText;
    files := [];
    ghost var start := e.Now();
    thrown := Complain(e, EntryProblems(entry));
    if entry.status.PlainFile? && entry.status.content.Some? && defines(entry.status.content.value) {
      files := [Place(entry.components, Role.Configuration)];
    }
    if thrown {
      BrokenOffLonger(start, e.Now(), EntryProblems(entry), StopProblems(entry), true);
      return;
    }
    ghost var middle := e.Now();
    StillGood(start, middle, EntryProblems(entry), true);
    thrown := Complain(e, StopProblems(entry));
    PlayedOn(start, middle, e.Now(), EntryProblems(entry), StopProblems(entry), true, thrown);
  }

  /** The enumeration of `mods.d`. */
  method ScanEntries(e: Emitter, entries: seq<Entry>, defines: bytes -> bool)
    returns (thrown: bool, files: seq<Candidate>)
    requires e.Valid() && !e.writer.output.bad
    modifies e, e.writer.Repr
    ensures e.Valid() && Played(old(e.Now()), e.Now(), EntriesProblems(entries), true, thrown)
    ensures !thrown ==> files == EntriesFiles(entries, defines)
  {
    hide Played, Completed, e.Valid, CodeText, RoleText, EntryProblems, StopProblems, EntryFiles, EntriesProblems,
      EntriesFiles;
    thrown, files := false, [];
    ghost var start := e.Now();
    ghost var done: seq<Record> := [];
    PlayedNothing(start, true);
    assert entries[0..] == entries;
    var i := 0;
    while i < |entries|
      invariant i <= |entries| && !thrown && e.Valid() && !e.writer.output.bad
      invariant Completed(start, e.Now(), done, true)
      invariant EntriesProblems(entries) == done + EntriesProblems(entries[i..])
      invariant EntriesFiles(entries, defines) == files + EntriesFiles(entries[i..], defines)
    {
      ghost var here := e.Now();
      ghost var problems := EntryProblems(entries[i]) + StopProblems(entries[i]);
      ghost var rest := if entries[i].stops then [] else EntriesProblems(entries[i + 1..]);
      EntriesStep(entries, i, defines, done, files);
      var found;
      thrown, found := ScanEntry(e, entries[i], defines);
      files := files + found;
      PlayedThen(start, here, e.Now(), done, problems, true, thrown);
      done := done + problems;
      if thrown {
        BrokenOffLonger(start, e.Now(), done, rest, true);
        return;
      }
      PlayedIsCompleted(start, e.Now(), done, true);
      if entries[i].stops {
        assert done + rest == done;
        CompletedIsPlayed(start, e.Now(), done, true);
        return;
      }
      i := i + 1;
    }
    NoEntries(entries[i..], defines);
    assert done + [] == done && files + [] == files;
    CompletedIsPlayed(start, e.Now(), done, true);
  }

  lemma NoEntries(entries: seq<Entry>, defines: bytes -> bool)
    requires entries == []
    ensures EntriesProblems(entries) == [] && EntriesFiles(entries, defines) == []
  {
  }

  /** One turn of the enumeration. */
  lemma EntriesStep(entries: seq<Entry>, i: nat, defines: bytes -> bool, done: seq<Record>, files: seq<Candidate>)
    requires i < |entries|
    ensures var entry, rest := entries[i], entries[i + 1..];
            && done + EntriesProblems(entries[i..]) ==
               done + (EntryProblems(entry) + StopProblems(entry)) + (if entry.stops then [] else EntriesProblems(rest))
            && files + EntriesFiles(entries[i..], defines) ==
               files + EntryFiles(entry, defines) + (if entry.stops then [] else EntriesFiles(rest, defines))
  {
    hide EntryProblems, StopProblems, EntryFiles;
    assert entries[i..][0] == entries[i] && entries[i..][1..] == entries[i + 1..];
    var a, b := EntryProblems(entries[i]), StopProblems(entries[i]);
    var c := if entries[i].stops then [] else EntriesProblems(entries[i + 1..]);
    Regroup(a, b, c);
    Regroup(done, a + b, c);
    var f := if entries[i].stops then [] else EntriesFiles(entries[i + 1..], defines);
    assert files + (EntryFiles(entries[i], defines) + f) == files + EntryFiles(entries[i], defines) + f;
  }

  lemma Regroup(a: seq<Record>, b: seq<Record>, c: seq<Record>)
    ensures a + (b + c) == a + b + c
  {
  }

  /** `find_configuration_files`: the defining files, sorted by path, with a diagnostic for whatever got in the way. */
  method FindConfigurationFiles(e: Emitter, tree: Tree) returns (thrown: bool, files: seq<Candidate>)
    requires e.Valid() && !e.writer.output.bad
    modifies e, e.writer.Repr
    ensures e.Valid() && Played(old(e.Now()), e.Now(), FindProblems(tree), true, thrown)
    ensures !thrown ==> Sorted(files) && multiset(files) == multiset(FoundFiles(tree))
    ensures forall c :: c in files ==> c in FoundFiles(tree)
  {
    hide Played, e.Valid, CodeText, Sorted, RoleText, EntriesFiles, EntriesProblems;
    thrown, files := false, [];
    NothingSorted();
    OneSorted(MasterPlace());
    ghost var start := e.Now();
    match tree.master {
      case MasterFile(content) =>
        thrown := Complain(e, if content.None? then [Failure(ConfigReadFailed)] else []);
        if content.Some? && tree.defines(content.value) {
          files := [MasterPlace()];
        }
      case MasterLink =>
        thrown := Complain(e, [Failure(ConfigSymlinkRefused)]);
      case NoMaster =>
        if !tree.readable {
          thrown := Complain(e, [Failure(ConfigDirectoryUnreadable)]);
          return;
        }
        var found;
        thrown, found := ScanEntries(e, tree.entries, tree.defines);
        if !thrown {
          files := Sort(found);
          forall c | c in files
            ensures c in found
          {
            assert c in multiset(files);
          }
        }
    }
  }

  lemma OneSorted(c: Candidate)
    ensures Sorted([c])
  {
  }

  // The octets of the files.

  type Reread = Candidate -> Option<bytes>

  /** How many of the first `n` files could be read again. */
  function ReadCount(files: seq<Candidate>, reread: Reread, n: nat): nat
    requires n <= |files|
  {
    if n == 0 then 0
    else ReadCount(files, reread, n - 1) + if reread(files[n - 1]).Some? then 1 else 0
  }

  function SourceRecord(files: seq<Candidate>, reread: Reread, i: nat): Record
    requires i < |files|
  {
    match reread(files[i])
    case Some(raw) => ConfigSource(ReadCount(files, reread, i), PathOf(files[i]), raw)
    case None => Failure(ConfigReadFailed)
  }

  function SourceRecords(files: seq<Candidate>, reread: Reread, n: nat): (r: seq<Record>)
    requires n <= |files|
    ensures |r| == n
  {
    seq(n, i requires 0 <= i < n => SourceRecord(files, reread, i))
  }

  method EmitConfigurationSources(e: Emitter, files: seq<Candidate>, reread: Reread) returns (thrown: bool)
    requires e.Valid() && !e.writer.output.bad
    modifies e, e.writer.Repr
    ensures e.Valid() && Played(old(e.Now()), e.Now(), SourceRecords(files, reread, |files|), true, thrown)
  {
    hide Played, Completed, e.Valid, CodeText, PathOf, SourceRecord;
    thrown := false;
    ghost var start := e.Now();
    ghost var all := SourceRecords(files, reread, |files|);
    PlayedNothing(start, true);
    var ordinal := 0;
    for i := 0 to |files|
      invariant !thrown && e.Valid() && !e.writer.output.bad
      invariant ordinal == ReadCount(files, reread, i)
      invariant Completed(start, e.Now(), all[..i], true)
    {
      ghost var here := e.Now();
      SourceRecordIs(files, reread, i);
      match reread(files[i]) {
        case None =>
          thrown := e.Diagnose(Error, CodeText(ConfigReadFailed));
        case Some(raw) =>
          thrown := e.Emit(ConfigSource(ordinal, PathOf(files[i]), raw));
          ordinal := ordinal + 1;
      }
      PlayedTake(start, here, e.Now(), all, i, thrown);
      if thrown {
        return;
      }
    }
    assert all[..|files|] == all;
    CompletedIsPlayed(start, e.Now(), all, true);
  }

  lemma SourceRecordIs(files: seq<Candidate>, reread: Reread, i: nat)
    requires i < |files|
    ensures SourceRecord(files, reread, i) ==
            match reread(files[i])
            case Some(raw) => ConfigSource(ReadCount(files, reread, i), PathOf(files[i]), raw)
            case None => Failure(ConfigReadFailed)
  {
  }

  /** The interpreted settings, in the order of the library's map. */
  function SettingRecords(settings: seq<(bytes, bytes)>): (r: seq<Record>)
    ensures |r| == |settings|
  {
    seq(|settings|, i requires 0 <= i < |settings| => ConfigEntry(i, settings[i].0, settings[i].1))
  }

  method EmitInterpretedConfiguration(e: Emitter, settings: seq<(bytes, bytes)>) returns (thrown: bool)
    requires e.Valid() && !e.writer.output.bad
    modifies e, e.writer.Repr
    ensures e.Valid() && Played(old(e.Now()), e.Now(), SettingRecords(settings), true, thrown)
  {
    hide Played, Completed, e.Valid;
    thrown := false;
    ghost var start := e.Now();
    ghost var all := SettingRecords(settings);
    PlayedNothing(start, true);
    var ordinal := 0;
    for i := 0 to |settings|
      invariant !thrown && e.Valid() && !e.writer.output.bad && ordinal == i
      invariant Completed(start, e.Now(), all[..i], true)
    {
      ghost var here := e.Now();
      thrown := e.Emit(ConfigEntry(ordinal, settings[i].0, settings[i].1));
      ordinal := ordinal + 1;
      PlayedTake(start, here, e.Now(), all, i, thrown);
      if thrown {
        return;
      }
    }
    assert all[..|settings|] == all;
    CompletedIsPlayed(start, e.Now(), all, true);
  }
}
