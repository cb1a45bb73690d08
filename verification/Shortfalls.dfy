/** Concrete runs of the producer, possible as the code stands, that end in a complete stream the validator turns
    away. */
module Shortfalls {
  import opened Agreement
  import opened Artifacts
  import opened Bytes
  import opened Capture
  import opened Codes
  import opened Configuration
  import opened Delivery
  import opened Discovery
  import opened Extraction
  import opened Records
  import opened Session
  import opened Traversal
  import opened Validation
  import Acceptance
  import Paths
  import Utf8

  const NAME: bytes := [0x61]

  /** A module without configuration files and entries, whose data path is one place. */
  function Single(components: seq<bytes>, isDirectory: bool, seen: Observation): ModuleFacts
  {
    ModuleFacts(false, Tree(NoMaster, true, [], _ => false), _ => None, [], false,
                _ => Visit([], 0, [], 0, Utf8Label, [], [], [], SwordKey(0), 1), None,
                true, Found(components, false, isDirectory, [], true), _ => seen)
  }

  function Only(components: seq<bytes>): Candidate
  {
    Candidate(components, false, RoleText(ModuleData))
  }

  function FindingsFor(components: seq<bytes>): Findings
  {
    Findings([], 0, [Only(components)])
  }

  lemma NameNormal()
    ensures Paths.NormalComponents([NAME])
  {
  }

  lemma SingleEnumerated(components: seq<bytes>, isDirectory: bool, seen: Observation)
    ensures Enumerated(DiskOf(Single(components, isDirectory, seen), [])) == [Only(components)]
  {
    var disk := DiskOf(Single(components, isDirectory, seen), []);
    assert disk.configurations == [];
    assert DataPlaces(disk.data) == [Only(components)];
  }

  /** Such a module can be extracted, and discovery finds the one place. */
  lemma SinglePossible(components: seq<bytes>, isDirectory: bool, seen: Observation, chunkSize: nat)
    requires components == [] || Paths.NormalComponents(components)
    ensures var m, f := Single(components, isDirectory, seen), FindingsFor(components);
            && Facts(Some(m)) && Established(m, f) && FilesFrom(m, f.files)
            && Possible(true, Some(m), chunkSize, None, Whole(f))
  {
    hide PathOf, Enumerated, CodeText, RoleText;
    var m, f := Single(components, isDirectory, seen), FindingsFor(components);
    SingleEnumerated(components, isDirectory, seen);
    assert Discovered([Only(components)], f.candidates) by {
      assert f.candidates[0] == Only(components);
    }
    assert FoundFiles(m.tree) == [];
  }

  /** A read that returns fewer octets than asked for before the end of a stable file: the chunk after it is refused. */
  lemma ShortRead()
    ensures var seen := FileSeen(0x81a4, 2, true, true, [Data([1]), Data([2]), Data([])], true);
            var m, f := Single([NAME], false, seen), FindingsFor([NAME]);
            && Facts(Some(m)) && Possible(true, Some(m), 4096, None, Whole(f))
            && !Acceptable(Some(m), 4096, None, Whole(f))
  {
    hide Possible, Facts, EntriesGranted, CountedPart, PathOf, RoleText;
    var readings := [Data([1]), Data([2]), Data([])];
    var seen := FileSeen(0x81a4, 2, true, true, readings, true);
    NameNormal();
    SinglePossible([NAME], false, seen, 4096);
    assert readings[1..] == [Data([2]), Data([])] && readings[1..][1..] == [Data([])];
    assert ReadData([Data([])]) == [];
    assert ReadData(readings) == [[1], [2]];
    var f := FindingsFor([NAME]);
    assert f.candidates[0] == Only([NAME]);
    assert |ReadData(readings)[0]| == 1;
    assert !FullExceptLast(ReadData(readings), 4096);
    assert !CleanAt(f.candidates, Single([NAME], false, seen).world, 0, 4096);
  }

  /** A file that reports another size than it has, although it does not change while it is read. */
  lemma MisreportedSize()
    ensures var seen := FileSeen(0x8124, 0, true, true, [Data([1]), Data([])], true);
            var m, f := Single([NAME], false, seen), FindingsFor([NAME]);
            && Facts(Some(m)) && Possible(true, Some(m), 4096, None, Whole(f))
            && !Acceptable(Some(m), 4096, None, Whole(f))
  {
    hide Possible, Facts, EntriesGranted, CountedPart, PathOf, RoleText;
    var readings := [Data([1]), Data([])];
    var seen := FileSeen(0x8124, 0, true, true, readings, true);
    NameNormal();
    SinglePossible([NAME], false, seen, 4096);
    assert readings[1..] == [Data([])];
    assert ReadData([Data([])]) == [] && !ReadFails([Data([])]);
    assert ReadData(readings) == [[1]] && !ReadFails(readings);
    assert Concat([[1]]) == [1] by { assert [[1]][1..] == []; }
    var f := FindingsFor([NAME]);
    assert f.candidates[0] == Only([NAME]);
    assert !CleanAt(f.candidates, Single([NAME], false, seen).world, 0, 4096);
  }

  /** A data path that is the root: its relative path is a single dot. */
  lemma RootAsCandidate()
    ensures var m, f := Single([], true, DirectorySeen(0x41ed)), FindingsFor([]);
            && Facts(Some(m)) && Possible(true, Some(m), 4096, None, Whole(f))
            && !Acceptable(Some(m), 4096, None, Whole(f))
  {
    hide Possible, Facts, EntriesGranted, CountedPart, PathOf, RoleText;
    SinglePossible([], true, DirectorySeen(0x41ed), 4096);
    var f := FindingsFor([]);
    assert f.candidates[0] == Only([]);
    assert !CleanAt(f.candidates, Single([], true, DirectorySeen(0x41ed)).world, 0, 4096);
  }

  lemma OneGroup(m: ModuleFacts, f: Findings)
    requires m == Single([NAME], true, DirectorySeen(0x41ed)) && f == FindingsFor([NAME])
    ensures |ArtifactPart(Some(m), f, 4096)| >= 1
  {
    hide CodeText, RoleText, BeginOf, EndOf;
    assert f.candidates[0] == Only([NAME]);
    assert |GroupRecords(Only([NAME]), m.world(Only([NAME])), 0)| == 2;
    assert |GroupsRecords(f.candidates, m.world, 1)| >= 2;
  }

  /** An exception after the first artifact record: the footer's artifact totals are never assigned. */
  lemma ExceptionAmongArtifacts()
    ensures var m, f := Single([NAME], true, DirectorySeen(0x41ed)), FindingsFor([NAME]);
            var fault := Some(Fault(|CountedPart(Some(m), f)| + 1, false));
            && Facts(Some(m)) && Possible(true, Some(m), 4096, fault, BrokenArtifacts(f, 1))
            && !Acceptable(Some(m), 4096, fault, BrokenArtifacts(f, 1))
  {
    hide Established, FilesFrom, Facts, EntriesGranted, CountedPart, RoleText, PathOf, ArtifactPart, CleanGroups,
      Single, FindingsFor, CodeText;
    NameNormal();
    SinglePossible([NAME], true, DirectorySeen(0x41ed), 4096);
    OneGroup(Single([NAME], true, DirectorySeen(0x41ed)), FindingsFor([NAME]));
  }

  /** An exception inside `emit_diagnostic`, which counts before it writes: the footer counts one too many. */
  lemma ExceptionInsideDiagnostic(f: Findings)
    ensures var fault := Some(Fault(0, true));
            && Facts(None) && Possible(true, None, 4096, fault, BrokenCounted(f, 0))
            && !Acceptable(None, 4096, fault, BrokenCounted(f, 0))
  {
    hide CodeText;
  }

  /** A module with one entry, whose key reports a negative index. */
  function NegativeIndexed(): ModuleFacts
  {
    Single([NAME], true, DirectorySeen(0x41ed)).(
      positioned := true, declared := Some(1), at := _ => Visit([], -1, [], 0, Utf8Label, [], [], [], SwordKey(-1), 1))
  }

  lemma NegativeIndexPossible()
    ensures var m, f := NegativeIndexed(), FindingsFor([NAME]);
            Facts(Some(m)) && Possible(true, Some(m), 4096, None, Whole(f)) && EndsAt(m.at, m.declared, f.last)
  {
    hide PathOf, Enumerated, RoleText;
    NameNormal();
    var m, f := NegativeIndexed(), FindingsFor([NAME]);
    SinglePossible([NAME], true, DirectorySeen(0x41ed), 4096);
    assert DiskOf(m, f.files) == DiskOf(Single([NAME], true, DirectorySeen(0x41ed)), f.files);
    assert EndsAt(m.at, m.declared, 0);
  }

  /** An index the validator does not admit: the entry is refused. */
  lemma NegativeIndex()
    ensures var m, f := NegativeIndexed(), FindingsFor([NAME]);
            && Facts(Some(m)) && Possible(true, Some(m), 4096, None, Whole(f))
            && !Acceptable(Some(m), 4096, None, Whole(f))
  {
    hide Facts, Possible, CountedPart, EntriesGranted, CleanGroups, EndsAt, FindingsFor;
    var m, f := NegativeIndexed(), FindingsFor([NAME]);
    NegativeIndexPossible();
    EntriesGrantedIs(m, f);
    assert !VisitGranted(m.at(0));
    assert WalkEntryCount(m, f.last) > 0 by { FindingsLast(); }
  }

  lemma FindingsLast()
    ensures FindingsFor([NAME]).last == 0
  {
  }

  /** A module with one entry, which a foreign converter turns into what is no UTF-8. */
  function BadlyConverted(): ModuleFacts
  {
    Single([NAME], true, DirectorySeen(0x41ed)).(
      positioned := true, declared := Some(1),
      at := _ => Visit([], 0, [], 0, Converted(Some([0xff])), [], [], [], SwordKey(0), 1))
  }

  lemma BadlyConvertedPossible()
    ensures var m, f := BadlyConverted(), FindingsFor([NAME]);
            Facts(Some(m)) && Possible(true, Some(m), 4096, None, Whole(f)) && EndsAt(m.at, m.declared, f.last)
  {
    hide PathOf, Enumerated, RoleText;
    NameNormal();
    var m, f := BadlyConverted(), FindingsFor([NAME]);
    SinglePossible([NAME], true, DirectorySeen(0x41ed), 4096);
    assert DiskOf(m, f.files) == DiskOf(Single([NAME], true, DirectorySeen(0x41ed)), f.files);
    assert EndsAt(m.at, m.declared, 0);
  }

  /** Text of a foreign converter that is not well-formed: the entry is refused. */
  lemma IllFormedConversion()
    ensures var m, f := BadlyConverted(), FindingsFor([NAME]);
            && Facts(Some(m)) && Possible(true, Some(m), 4096, None, Whole(f))
            && !Acceptable(Some(m), 4096, None, Whole(f))
  {
    LoneOctet();
    hide Facts, Possible, CountedPart, EntriesGranted, CleanGroups, EndsAt, FindingsFor, Utf8.Valid;
    var m, f := BadlyConverted(), FindingsFor([NAME]);
    BadlyConvertedPossible();
    EntriesGrantedIs(m, f);
    assert !VisitGranted(m.at(0));
    assert WalkEntryCount(m, f.last) > 0 by { FindingsLast(); }
  }

  lemma LoneOctet()
    ensures !Utf8.Valid([0xff])
  {
  }

  /** A link whose target holds a NUL. */
  lemma NulInTarget()
    ensures var seen := LinkSeen(0xa1ff, 1, Some([0]));
            var m, f := Single([NAME], false, seen), FindingsFor([NAME]);
            && Facts(Some(m)) && Possible(true, Some(m), 4096, None, Whole(f))
            && !Acceptable(Some(m), 4096, None, Whole(f))
  {
    hide Possible, Facts, EntriesGranted, CountedPart, PathOf, RoleText;
    var seen := LinkSeen(0xa1ff, 1, Some([0]));
    NameNormal();
    SinglePossible([NAME], false, seen, 4096);
    var f := FindingsFor([NAME]);
    assert f.candidates[0] == Only([NAME]);
    assert 0 in ContentOf(seen) by { assert ContentOf(seen) == [0]; }
    assert !CleanAt(f.candidates, Single([NAME], false, seen).world, 0, 4096);
  }

  /** A chunk size that the validator does not admit, on the smallest of runs; the library takes it, the program and the
      C interface do not. */
  lemma UselessChunkSize(f: Findings)
    ensures Facts(None) && Possible(true, None, 1, None, Whole(f)) && !Acceptable(None, 1, None, Whole(f))
  {
  }

  // An exception in the middle of an emit.

  lemma {:induction false} RunCounts(s: State, lines: seq<Line>, i: nat)
    requires Run(s, lines).Some? && i < |lines|
    ensures lines[i].sequence == s.sequence + i
    decreases |lines|
  {
    hide StepRecord, StepFooter;
    if i > 0 {
      RunCounts(Step(s, lines[0]).value, lines[1..], i - 1);
    }
  }

  /** An allocation that fails after a record is written and hashed, but before it is tallied and the number goes on:
      the next record has the same number, or there is none. Whatever follows, the stream is refused. */
  lemma RepeatedNumberRefused(lines: seq<Line>, half: Line, rest: seq<Line>)
    requires half.sequence == |lines| && !half.record.Footer?
    requires rest != [] ==> rest[0].sequence == |lines|
    ensures !Accepts(lines + [half] + rest)
  {
    hide Run, Complete;
    var all := lines + [half] + rest;
    if Accepts(all) {
      if rest == [] {
        assert all[|all| - 1] == half;
        LastIsFooter(all);
      } else {
        assert all[|lines| + 1] == rest[0];
        RunCounts(INITIAL_STATE, all, |lines| + 1);
      }
    }
  }

  lemma LastIsFooter(lines: seq<Line>)
    requires Accepts(lines)
    ensures lines != [] && lines[|lines| - 1].record.Footer?
  {
    hide Accepts;
    var d := Acceptance.AcceptedShape(lines);
  }
}
