/** What a footer that reports success stands for. */
module Success {
  import opened Artifacts
  import opened Bytes
  import opened Codes
  import opened Configuration
  import opened Delivery
  import opened Discovery
  import opened Extraction
  import opened Records
  import opened Session
  import opened Traversal

  predicate IsError(r: Record)
  {
    r.Diagnostic? && r.severity == Error
  }

  predicate ErrorFree(rs: seq<Record>)
  {
    forall i :: 0 <= i < |rs| ==> !IsError(rs[i])
  }

  predicate AllErrors(rs: seq<Record>)
  {
    forall i :: 0 <= i < |rs| ==> IsError(rs[i])
  }

  /** The error total stays put exactly when there is no error. */
  lemma {:induction false} ErrorTotal(t: Totals, rs: seq<Record>)
    ensures Tally(t, rs).diagnostics.error >= t.diagnostics.error
    ensures Tally(t, rs).diagnostics.error == t.diagnostics.error <==> ErrorFree(rs)
    decreases |rs|
  {
    if rs != [] {
      ErrorTotal(TallyOne(t, rs[0]), rs[1..]);
      assert forall i :: 1 <= i < |rs| ==> rs[i] == rs[1..][i - 1];
      assert ErrorFree(rs) <==> !IsError(rs[0]) && ErrorFree(rs[1..]);
    }
  }

  lemma ErrorFreeAppend(left: seq<Record>, right: seq<Record>)
    ensures ErrorFree(left + right) <==> ErrorFree(left) && ErrorFree(right)
  {
    hide IsError;
    var whole := left + right;
    assert forall i :: 0 <= i < |left| ==> whole[i] == left[i];
    assert forall i :: 0 <= i < |right| ==> whole[|left| + i] == right[i];
  }

  lemma NoErrors(rs: seq<Record>)
    requires AllErrors(rs)
    ensures ErrorFree(rs) <==> rs == []
  {
    if rs != [] {
      assert IsError(rs[0]);
    }
  }

  lemma FirstError(rs: seq<Record>)
    ensures rs != [] && IsError(rs[0]) ==> !ErrorFree(rs)
  {
  }

  lemma {:induction false} EntriesErrors(entries: seq<Configuration.Entry>)
    ensures AllErrors(EntriesProblems(entries))
  {
    hide CodeText;
    if entries != [] {
      EntriesErrors(entries[1..]);
      hide EntriesFiles;
      assert AllErrors(EntryProblems(entries[0]));
      assert AllErrors(StopProblems(entries[0]));
    }
  }

  lemma FindErrors(tree: Tree)
    ensures AllErrors(FindProblems(tree))
  {
    hide CodeText, EntriesProblems;
    EntriesErrors(tree.entries);
  }

  lemma {:induction false} ConfigurationErrors(files: seq<Option<seq<bytes>>>)
    ensures AllErrors(ConfigurationProblems(files))
  {
    hide CodeText;
    if files != [] {
      ConfigurationErrors(files[..|files| - 1]);
    }
  }

  lemma DiscoveryErrors(disk: Disk)
    ensures AllErrors(DiscoveryProblems(disk))
  {
    hide CodeText, PrefixPlaces, ConfigurationProblems;
    ConfigurationErrors(disk.configurations);
  }

  lemma ErrorsAppend(left: seq<Record>, right: seq<Record>)
    requires AllErrors(left) && AllErrors(right)
    ensures AllErrors(left + right)
  {
    hide IsError;
  }

  lemma {:induction false} ProblemsErrors(cs: seq<Candidate>, world: World, n: nat)
    requires n <= |cs|
    ensures AllErrors(Problems(cs, world, n))
    ensures Problems(cs, world, n) == [] <==> forall i :: 0 <= i < n ==> ProblemsOf(world(cs[i])) == []
  {
    hide ProblemsOf, AllErrors;
    NoErrorsAtAll();
    if n > 0 {
      ProblemsErrors(cs, world, n - 1);
      OwnErrors(world(cs[n - 1]));
      ErrorsAppend(Problems(cs, world, n - 1), ProblemsOf(world(cs[n - 1])));
    }
  }

  lemma NoErrorsAtAll()
    ensures AllErrors([])
  {
  }

  lemma OwnErrors(o: Observation)
    ensures AllErrors(ProblemsOf(o))
  {
    hide CodeText, ReadFails;
  }

  /** A candidate that leaves no problem was captured and, if it is a file, was read completely and stably. */
  lemma UnproblematicIs(o: Observation)
    ensures ProblemsOf(o) == [] <==> Captured(o) && (o.FileSeen? ==> StableOf(o) == Some(true))
  {
    hide CodeText, ReadFails;
  }

  /** A walk without errors came to a clean end. */
  lemma WalkClean(m: ModuleFacts, last: nat)
    requires ErrorFree(WalkOf(m, last)) && m.positioned
    ensures CleanEnd(m.at, m.declared, last)
  {
    WalkIs(m, last);
    hide WalkOf, VisitsRecords, VisitRecords, CodeText;
    ErrorFreeAppend(VisitsRecords(m.at, last), LastVisit(m.at, m.declared, last));
    var end := LastVisit(m.at, m.declared, last);
    var ending := EndingRecords(Ending(m.at, m.declared, last));
    FirstError(end);
    FirstError(ending);
    ErrorFreeAppend(VisitRecords(m.at(last), last), ending);
  }

  lemma SourcesRead(files: seq<Candidate>, reread: Reread)
    requires ErrorFree(SourceRecords(files, reread, |files|))
    ensures forall i :: 0 <= i < |files| ==> reread(files[i]).Some?
  {
    hide CodeText, PathOf, ReadCount;
    forall i | 0 <= i < |files|
      ensures reread(files[i]).Some?
    {
      assert !IsError(SourceRecords(files, reread, |files|)[i]);
    }
  }

  /** Everything before the artifacts went well. */
  predicate CountedClean(m: ModuleFacts, f: Findings)
  {
    && FindProblems(m.tree) == []
    && (forall i :: 0 <= i < |f.files| ==> m.reread(f.files[i]).Some?)
    && (m.positioned ==> CleanEnd(m.at, m.declared, f.last))
    && DiscoveryProblems(DiskOf(m, f.files)) == []
  }

  lemma ConfigurationClean(m: ModuleFacts, files: seq<Candidate>)
    requires ErrorFree(ConfigurationRecords(m, files))
    ensures FindProblems(m.tree) == [] && forall i :: 0 <= i < |files| ==> m.reread(files[i]).Some?
  {
    hide ErrorFree, CodeText, FindProblems, SourceRecords, SettingRecords, FileNote, AllErrors;
    var p, n, f, c :=
      FindProblems(m.tree), FileNote(files), SourceRecords(files, m.reread, |files|), SettingRecords(m.settings);
    ErrorFreeAppend(p + n + f, c);
    ErrorFreeAppend(p + n, f);
    ErrorFreeAppend(p, n);
    FindErrors(m.tree);
    NoErrors(p);
    SourcesRead(files, m.reread);
  }

  lemma CountedIsClean(m: ModuleFacts, f: Findings)
    requires ErrorFree(CountedRecords(m, f.files, f.last))
    ensures CountedClean(m, f)
  {
    hide ErrorFree, CodeText, FindProblems, ConfigurationRecords, WalkOf, DiscoveryProblems, TypeNote, AllErrors,
      CleanEnd;
    var a, c := [Module] + TypeNote(m), ConfigurationRecords(m, f.files);
    var w, d := WalkOf(m, f.last), DiscoveryProblems(DiskOf(m, f.files));
    ErrorFreeAppend(a + c + w, d);
    ErrorFreeAppend(a + c, w);
    ErrorFreeAppend(a, c);
    ConfigurationClean(m, f.files);
    DiscoveryErrors(DiskOf(m, f.files));
    NoErrors(d);
    if m.positioned {
      WalkClean(m, f.last);
    }
  }

  /** Every place that was discovered is in the stream, every file of them complete and stable. */
  predicate ArtifactsClean(m: ModuleFacts, f: Findings)
  {
    forall i :: 0 <= i < |f.candidates| ==>
      var o := m.world(f.candidates[i]);
      Captured(o) && (o.FileSeen? ==> StableOf(o) == Some(true))
  }

  /** A footer reports success only when configuration, traversal, discovery and capture all succeeded: although the
      operation drops their result flags, every failure of theirs has been counted as an error. */
  lemma SuccessMeans(rootValid: bool, m: Option<ModuleFacts>, chunkSize: nat, fault: Option<Fault>, course: Course)
    requires Possible(rootValid, m, chunkSize, fault, course)
    requires TotalsOf(m, chunkSize, fault, course).diagnostics.error == 0
    ensures course.Whole? && m.Some?
    ensures CountedClean(m.value, course.f) && ArtifactsClean(m.value, course.f)
    ensures ChunkSizeUsable(chunkSize)
  {
    hide Tally, CodeText, CountedPart, Established, FilesFrom, ArtifactPart, ErrorFree, ReportedProblems, CountedClean,
      ArtifactsClean;
    ErrorTotal(GuardedTotals(m, chunkSize, fault, course), LastWords(course));
    WordsAreErrors(course);
    GuardedNatural(m, chunkSize, fault, course);
    if course.Whole? {
      var c := CountedPart(m, course.f);
      ErrorTotal(NO_TOTALS, c);
      if m.Some? {
        var p := ReportedProblems(course.f.candidates, m.value.world, chunkSize);
        ErrorTotal(Tally(NO_TOTALS, c), p);
        Parts(m.value, course.f, chunkSize);
        CountedIsClean(m.value, course.f);
        ReportedClean(m.value, course.f, chunkSize);
      } else {
        UnknownIsError(course.f);
      }
    }
  }

  lemma WordsAreErrors(course: Course)
    ensures ErrorFree(LastWords(course)) <==> course.Whole?
  {
    hide CodeText;
    if !course.Whole? {
      assert IsError(LastWords(course)[0]);
    }
  }

  lemma UnknownIsError(f: Findings)
    ensures !ErrorFree(CountedPart(None, f))
  {
    hide CodeText;
    assert IsError(CountedPart(None, f)[0]);
  }

  lemma ReportedClean(m: ModuleFacts, f: Findings, chunkSize: nat)
    requires ErrorFree(ReportedProblems(f.candidates, m.world, chunkSize))
    ensures ChunkSizeUsable(chunkSize) && ArtifactsClean(m, f)
  {
    hide CodeText, Problems, Captured, StableOf, AllErrors;
    var p := ReportedProblems(f.candidates, m.world, chunkSize);
    ProblemsErrors(f.candidates, m.world, |f.candidates|);
    FirstError(p);
    if ChunkSizeUsable(chunkSize) {
      NoErrors(p);
      forall i | 0 <= i < |f.candidates|
        ensures var o := m.world(f.candidates[i]); Captured(o) && (o.FileSeen? ==> StableOf(o) == Some(true))
      {
        UnproblematicIs(m.world(f.candidates[i]));
      }
    }
  }

  /** Error totals start at zero and only grow. */
  lemma GuardedNatural(m: Option<ModuleFacts>, chunkSize: nat, fault: Option<Fault>, course: Course)
    ensures GuardedTotals(m, chunkSize, fault, course).diagnostics.error >= 0
  {
    hide Tally, CountedPart, ReportedProblems, ErrorFree;
    match course {
      case Refused =>
      case Whole(f) =>
        ErrorTotal(NO_TOTALS, CountedPart(m, f));
        if m.Some? {
          ErrorTotal(Tally(NO_TOTALS, CountedPart(m, f)), ReportedProblems(f.candidates, m.value.world, chunkSize));
        }
      case BrokenCounted(f, k) =>
        if k <= |CountedPart(m, f)| {
          ErrorTotal(NO_TOTALS, CountedPart(m, f)[..k]);
        }
      case BrokenArtifacts(f, _) =>
        ErrorTotal(NO_TOTALS, CountedPart(m, f));
    }
  }
}
