/** Every record of every run can be printed: its texts are UTF-8 and its optional members are where they belong. */
module Printables {
  import opened Artifacts
  import opened Bytes
  import opened Codes
  import opened Configuration
  import opened Discovery
  import opened Extraction
  import opened JsonText
  import opened RecordCodec
  import opened Records
  import opened Sha256Spec
  import opened Traversal
  import Annotation
  import ByteValue
  import JsonLines
  import RecordText
  import Session
  import Utf8

  predicate AllPrintable(rs: seq<Record>)
  {
    forall i :: 0 <= i < |rs| ==> Printable(rs[i])
  }

  lemma PrintableAppend(left: seq<Record>, right: seq<Record>)
    requires AllPrintable(left) && AllPrintable(right)
    ensures AllPrintable(left + right)
  {
    hide Printable;
  }

  lemma PrintableTake(rs: seq<Record>, k: nat)
    requires AllPrintable(rs) && k <= |rs|
    ensures AllPrintable(rs[..k])
  {
    hide Printable;
  }

  // Diagnostics.

  lemma CodePrintable(severity: Severity, c: Code)
    ensures Printable(Diagnostic(severity, CodeText(c)))
  {
    hide CodeName, Utf8.Valid;
    RecordText.NamePrinted(CodeName(c));
  }

  lemma CodesPrintable()
    ensures forall severity: Severity, c: Code :: Printable(Diagnostic(severity, CodeText(c)))
  {
    hide Printable, CodeText;
    forall severity: Severity, c: Code
      ensures Printable(Diagnostic(severity, CodeText(c)))
    {
      CodePrintable(severity, c);
    }
  }

  lemma {:induction false} EntriesProblemsPrintable(entries: seq<Configuration.Entry>)
    ensures AllPrintable(EntriesProblems(entries))
  {
    hide Printable, CodeText;
    CodesPrintable();
    if entries != [] {
      EntriesProblemsPrintable(entries[1..]);
      assert AllPrintable(EntryProblems(entries[0])) && AllPrintable(StopProblems(entries[0]));
    }
  }

  lemma FindProblemsPrintable(tree: Tree)
    ensures AllPrintable(FindProblems(tree))
  {
    hide Printable, CodeText, EntriesProblems;
    CodesPrintable();
    EntriesProblemsPrintable(tree.entries);
  }

  lemma {:induction false} ConfigurationProblemsPrintable(files: seq<Option<seq<bytes>>>)
    ensures AllPrintable(ConfigurationProblems(files))
  {
    hide Printable, CodeText;
    CodesPrintable();
    if files != [] {
      ConfigurationProblemsPrintable(files[..|files| - 1]);
    }
  }

  lemma DiscoveryProblemsPrintable(disk: Disk)
    ensures AllPrintable(DiscoveryProblems(disk))
  {
    hide Printable, CodeText, ConfigurationProblems, PrefixPlaces;
    CodesPrintable();
    ConfigurationProblemsPrintable(disk.configurations);
    assert AllPrintable(DataProblems(disk.data));
  }

  lemma ProblemsOfPrintable(o: Observation)
    ensures AllPrintable(ProblemsOf(o))
  {
    hide Printable, CodeText, ReadFails;
    CodesPrintable();
  }

  lemma {:induction false} ProblemsPrintable(cs: seq<Candidate>, world: World, n: nat)
    requires n <= |cs|
    ensures AllPrintable(Problems(cs, world, n))
  {
    hide Printable, ProblemsOf;
    if n > 0 {
      ProblemsPrintable(cs, world, n - 1);
      ProblemsOfPrintable(world(cs[n - 1]));
      PrintableAppend(Problems(cs, world, n - 1), ProblemsOf(world(cs[n - 1])));
    }
  }

  // Configuration and entries.

  lemma ConfigurationPrintable(m: ModuleFacts, files: seq<Candidate>)
    ensures AllPrintable(ConfigurationRecords(m, files))
  {
    hide CodeText, FindProblems, PathOf, ReadCount, Utf8.Valid;
    CodesPrintable();
    FindProblemsPrintable(m.tree);
    var p, n, f, c :=
      FindProblems(m.tree), FileNote(files), SourceRecords(files, m.reread, |files|), SettingRecords(m.settings);
    assert AllPrintable(n) && AllPrintable(f) && AllPrintable(c);
    hide SourceRecords, SettingRecords, FileNote;
    PrintableAppend(p, n);
    PrintableAppend(p + n, f);
    PrintableAppend(p + n + f, c);
  }

  lemma VisitPrintable(v: Visit, ordinal: nat)
    ensures AllPrintable(VisitRecords(v, ordinal))
  {
    hide CodeText, Normalized, Strippable, Utf8.Valid, NormalizedStripped, Annotation.Segments;
    CodesPrintable();
    assert AllPrintable(LengthComplaint(v.raw)) && AllPrintable(EncodingComplaint(v))
           && AllPrintable(StripComplaint(v));
    assert AllPrintable([EntryOf(v, ordinal)]);
  }

  lemma {:induction false} VisitsPrintable(at: Cursor, n: nat)
    ensures AllPrintable(VisitsRecords(at, n))
  {
    hide Printable, VisitRecords;
    if n > 0 {
      VisitsPrintable(at, n - 1);
      VisitPrintable(at(n - 1), n - 1);
    }
  }

  lemma LastVisitPrintable(at: Cursor, declared: Option<nat>, k: nat)
    ensures AllPrintable(LastVisit(at, declared, k))
  {
    hide Printable, VisitRecords, CodeText;
    CodesPrintable();
    VisitPrintable(at(k), k);
  }

  lemma WalkPrintable(m: ModuleFacts, last: nat)
    ensures AllPrintable(WalkOf(m, last))
  {
    hide Printable, VisitsRecords, LastVisit, CodeText;
    CodesPrintable();
    VisitsPrintable(m.at, last);
    LastVisitPrintable(m.at, m.declared, last);
  }

  lemma CountedPrintable(m: Option<ModuleFacts>, f: Findings)
    ensures AllPrintable(CountedPart(m, f))
  {
    hide CodeText, ConfigurationRecords, WalkOf, DiscoveryProblems, Utf8.Valid;
    CodesPrintable();
    if m.Some? {
      var note := [Module] + TypeNote(m.value);
      assert AllPrintable(note);
      hide Printable;
      ConfigurationPrintable(m.value, f.files);
      WalkPrintable(m.value, f.last);
      DiscoveryProblemsPrintable(DiskOf(m.value, f.files));
      PrintableAppend(note, ConfigurationRecords(m.value, f.files));
      PrintableAppend(note + ConfigurationRecords(m.value, f.files), WalkOf(m.value, f.last));
      PrintableAppend(note + ConfigurationRecords(m.value, f.files) + WalkOf(m.value, f.last),
                      DiscoveryProblems(DiskOf(m.value, f.files)));
    }
  }

  // Artifacts.

  predicate Named(c: Candidate)
  {
    Utf8.Valid(c.role)
  }

  lemma PlaceNamed(components: seq<bytes>, trailing: bool, role: Role)
    ensures Named(Candidate(components, trailing, RoleText(role)))
  {
    hide Utf8.Valid, Text;
    RecordText.NamePrinted("configuration");
    RecordText.NamePrinted("module_data");
    RecordText.NamePrinted("module_data_prefix");
  }

  predicate AllNamed(cs: seq<Candidate>)
  {
    forall i :: 0 <= i < |cs| ==> Named(cs[i])
  }

  lemma {:induction false} ConfigurationPlacesNamed(files: seq<Option<seq<bytes>>>)
    ensures AllNamed(ConfigurationPlaces(files))
  {
    hide Named, RoleText;
    if files != [] {
      ConfigurationPlacesNamed(files[..|files| - 1]);
      if files[|files| - 1].Some? {
        PlaceNamed(files[|files| - 1].value, false, Role.Configuration);
      }
    }
  }

  lemma {:induction false} ChildPlacesNamed(base: seq<bytes>, children: seq<seq<bytes>>)
    ensures AllNamed(ChildPlaces(base, children))
  {
    hide Named, RoleText;
    if children != [] {
      ChildPlacesNamed(base, children[..|children| - 1]);
      PlaceNamed(base + children[|children| - 1], false, ModuleData);
    }
  }

  lemma {:induction false} PrefixPlacesNamed(parent: seq<bytes>, prefix: bytes, names: seq<bytes>)
    ensures AllNamed(PrefixPlaces(parent, prefix, names))
  {
    hide Named, RoleText;
    if names != [] {
      PrefixPlacesNamed(parent, prefix, names[..|names| - 1]);
      PlaceNamed(parent + [names[|names| - 1]], false, ModuleDataPrefix);
    }
  }

  lemma EnumeratedNamed(disk: Disk)
    ensures AllNamed(Enumerated(disk))
  {
    hide Named, RoleText, ConfigurationPlaces, ChildPlaces, PrefixPlaces;
    ConfigurationPlacesNamed(disk.configurations);
    match disk.data {
      case Found(components, trailing, isDirectory, children, _) =>
        PlaceNamed(components, trailing, ModuleData);
        ChildPlacesNamed(components, children);
      case Absent(parent, prefix, names, _) =>
        PrefixPlacesNamed(parent, prefix, names);
      case _ =>
    }
  }

  lemma CandidatesNamed(m: ModuleFacts, f: Findings)
    requires Established(m, f)
    ensures AllNamed(f.candidates)
  {
    hide Named, Enumerated, StrictlySorted, EndsAt, Sorted;
    EnumeratedNamed(DiskOf(m, f.files));
    forall i | 0 <= i < |f.candidates|
      ensures Named(f.candidates[i])
    {
      assert f.candidates[i] in f.candidates;
    }
  }

  lemma GroupPrintable(c: Candidate, o: Observation, id: nat)
    requires Named(c)
    ensures AllPrintable(GroupRecords(c, o, id))
  {
    hide Sha256Hex, ReadData, ReadFails, PathOf, Truncated, Concat, Utf8.Valid;
    if Captured(o) {
      DigestPrintable(ContentOf(o));
      assert Printable(BeginOf(c, o, id)) && Printable(EndOf(o, id));
      assert AllPrintable(ChunkRecords(id, ChunksOf(o)));
    }
  }

  lemma DigestPrintable(b: bytes)
    ensures Utf8.Valid(Sha256Hex(b))
  {
    hide Sha256Hex, Utf8.Valid;
    ByteValue.DigestAscii(b);
    JsonLines.AsciiValid(Sha256Hex(b));
  }

  lemma {:induction false} GroupsPrintable(cs: seq<Candidate>, world: World, n: nat)
    requires n <= |cs| && AllNamed(cs)
    ensures AllPrintable(GroupsRecords(cs, world, n))
  {
    hide Printable, GroupRecords, Named;
    if n > 0 {
      GroupsPrintable(cs, world, n - 1);
      GroupPrintable(cs[n - 1], world(cs[n - 1]), CapturedCount(cs, world, n - 1));
    }
  }

  lemma ArtifactsPrintable(m: ModuleFacts, f: Findings, chunkSize: nat)
    requires Established(m, f)
    ensures AllPrintable(ArtifactPart(Some(m), f, chunkSize))
  {
    hide Printable, GroupsRecords, Problems, Established, Named;
    CandidatesNamed(m, f);
    GroupsPrintable(f.candidates, m.world, |f.candidates|);
    ProblemsPrintable(f.candidates, m.world, |f.candidates|);
    PrintableAppend(GroupsRecords(f.candidates, m.world, |f.candidates|),
                    Problems(f.candidates, m.world, |f.candidates|));
  }

  // Whole runs.

  lemma HeadersPrintable(chunkSize: nat)
    ensures Printable(HeaderOf(chunkSize)) && Printable(LIST_HEADER)
  {
  }

  lemma GuardedPrintable(rootValid: bool, m: Option<ModuleFacts>, chunkSize: nat, fault: Option<Session.Fault>,
                         course: Course)
    requires Possible(rootValid, m, chunkSize, fault, course)
    ensures AllPrintable(Guarded(m, chunkSize, course))
  {
    hide Printable, CountedPart, ArtifactPart, Established, FilesFrom;
    match course {
      case Refused =>
      case Whole(f) =>
        CountedPrintable(m, f);
        if m.Some? {
          ArtifactsPrintable(m.value, f, chunkSize);
          PrintableAppend(CountedPart(m, f), ArtifactPart(m, f, chunkSize));
        } else {
          NoArtifacts(f, chunkSize);
          assert CountedPart(m, f) + [] == CountedPart(m, f);
        }
      case BrokenCounted(f, k) =>
        CountedPrintable(m, f);
        PrintableTake(CountedPart(m, f), k);
      case BrokenArtifacts(f, k) =>
        CountedPrintable(m, f);
        ArtifactsPrintable(m.value, f, chunkSize);
        PrintableTake(ArtifactPart(m, f, chunkSize), k);
        PrintableAppend(CountedPart(m, f), ArtifactPart(m, f, chunkSize)[..k]);
    }
  }

  lemma NoArtifacts(f: Findings, chunkSize: nat)
    ensures ArtifactPart(None, f, chunkSize) == []
  {
  }

  lemma LastWordsPrintable(course: Course)
    ensures AllPrintable(LastWords(course))
  {
    hide Printable, CodeText;
    CodesPrintable();
  }

  /** Everything an extraction can write, whatever its course. */
  lemma ExtractionPrintable(rootValid: bool, m: Option<ModuleFacts>, chunkSize: nat, fault: Option<Session.Fault>,
                            course: Course)
    requires Possible(rootValid, m, chunkSize, fault, course)
    ensures AllPrintable([HeaderOf(chunkSize)] + BodyOf(m, chunkSize, course))
  {
    hide Printable, Guarded, Possible, CodeText, HeaderOf, LastWords;
    GuardedPrintable(rootValid, m, chunkSize, fault, course);
    LastWordsPrintable(course);
    HeadersPrintable(chunkSize);
    PrintableAppend(Guarded(m, chunkSize, course), LastWords(course));
    PrintableAppend([HeaderOf(chunkSize)], BodyOf(m, chunkSize, course));
  }

  /** And everything a listing can write. */
  lemma ListingPrintable(rootValid: bool, listed: nat, caught: bool)
    ensures AllPrintable([LIST_HEADER] + ListBody(rootValid, listed, caught))
  {
    hide CodeText, Utf8.Valid;
    CodesPrintable();
    assert AllPrintable(ModuleRecords(listed));
  }
}
