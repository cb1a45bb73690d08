/** Artifact capture: one bracketed group of records per readable candidate, diagnostics at the end. */
module Artifacts {
  import opened Bytes
  import opened Codes
  import opened Records
  import opened Session
  import opened Sha256Spec
  import Paths

  /** A path under the root: its components, whether it is spelled with a final separator, and its role. */
  datatype Candidate = Candidate(components: seq<bytes>, trailing: bool, role: bytes)

  /** The relative path as it is spelled; the root itself is a single dot. */
  function PathOf(c: Candidate): bytes
  {
    if c.components == [] then [Paths.DOT]
    else Paths.Join(c.components) + if c.trailing then [Paths.SEPARATOR] else []
  }

  /** What one call of read(2) gives: some octets, an interruption or a failure; no octets mean the end. */
  datatype Read = Data(data: bytes) | Interrupted | Failed

  /** What the file system shows of one candidate. */
  datatype Observation =
    | StatFailed
    | DirectorySeen(mode: nat)
    | LinkSeen(mode: nat, size: nat, target: Option<bytes>)
    | FileSeen(mode: nat, size: nat, opens: bool, same: bool, readings: seq<Read>, stable: bool)
    | OtherSeen(mode: nat)

  type World = Candidate -> Observation

  /** What the read loop collects before it ends. */
  function ReadData(readings: seq<Read>): seq<bytes>
  {
    if readings == [] then []
    else
      match readings[0]
      case Data(data) => if data == [] then [] else [data] + ReadData(readings[1..])
      case Interrupted => ReadData(readings[1..])
      case Failed => []
  }

  predicate ReadFails(readings: seq<Read>)
  {
    readings != []
    && match readings[0]
       case Data(data) => data != [] && ReadFails(readings[1..])
       case Interrupted => ReadFails(readings[1..])
       case Failed => true
  }

  function ChunkRecords(id: nat, data: seq<bytes>): (r: seq<Record>)
    ensures |r| == |data|
  {
    seq(|data|, i requires 0 <= i < |data| => ArtifactChunk(id, i, data[i]))
  }

  /** readlink(2) cuts a target that has grown since it was measured. */
  function Truncated(target: bytes, size: nat): bytes
  {
    if |target| <= size + 1 then target else target[..size + 1]
  }

  /** A candidate that makes it into the stream. */
  predicate Captured(o: Observation)
  {
    match o
    case DirectorySeen(_) => true
    case LinkSeen(_, _, target) => target.Some?
    case FileSeen(_, _, opens, same, _, _) => opens && same
    case _ => false
  }

  function BeginOf(c: Candidate, o: Observation, id: nat): Record
    requires Captured(o)
  {
    match o
    case DirectorySeen(mode) => ArtifactBegin(id, Directory, mode % 0x1000, PathOf(c), c.role, None, None)
    case LinkSeen(mode, size, target) =>
      ArtifactBegin(id, Symlink, mode % 0x1000, PathOf(c), c.role, Some(Truncated(target.value, size)), None)
    case FileSeen(mode, size, _, _, _, _) =>
      ArtifactBegin(id, Regular, mode % 0x1000, PathOf(c), c.role, None, Some(size))
  }

  /** The chunks of a captured candidate. */
  function ChunksOf(o: Observation): seq<bytes>
  {
    if o.FileSeen? then ReadData(o.readings) else []
  }

  /** The octets a captured candidate stands for. */
  function ContentOf(o: Observation): bytes
    requires Captured(o)
  {
    match o
    case DirectorySeen(_) => []
    case LinkSeen(_, size, target) => Truncated(target.value, size)
    case FileSeen(_, _, _, _, readings, _) => Concat(ReadData(readings))
  }

  function StableOf(o: Observation): Option<bool>
  {
    if o.FileSeen? then Some(o.stable && !ReadFails(o.readings)) else None
  }

  function EndOf(o: Observation, id: nat): Record
    requires Captured(o)
  {
    ArtifactEnd(id, Sha256Hex(ContentOf(o)), |ContentOf(o)|, StableOf(o))
  }

  /** The bracketed group of one candidate. */
  function GroupRecords(c: Candidate, o: Observation, id: nat): seq<Record>
  {
    if !Captured(o) then []
    else [BeginOf(c, o, id)] + (ChunkRecords(id, ChunksOf(o)) + [EndOf(o, id)])
  }

  function Failure(code: Code): Record { Diagnostic(Error, CodeText(code)) }

  /** The diagnostics one candidate leaves behind. */
  function ProblemsOf(o: Observation): seq<Record>
  {
    match o
    case StatFailed => [Failure(ArtifactStatFailed)]
    case DirectorySeen(_) => []
    case LinkSeen(_, _, target) => if target.Some? then [] else [Failure(ArtifactSymlinkReadFailed)]
    case FileSeen(_, _, opens, same, readings, stable) =>
      if !opens then [Failure(ArtifactOpenFailed)]
      else if !same then [Failure(ArtifactChangedBeforeRead)]
      else
        (if ReadFails(readings) then [Failure(ArtifactReadFailed)] else [])
        + (if stable then [] else [Failure(ArtifactChangedDuringRead)])
    case OtherSeen(_) => [Failure(ArtifactTypeUnsupported)]
  }

  // The first `n` candidates.

  function CapturedCount(cs: seq<Candidate>, world: World, n: nat): nat
    requires n <= |cs|
  {
    if n == 0 then 0
    else CapturedCount(cs, world, n - 1) + if Captured(world(cs[n - 1])) then 1 else 0
  }

  function GroupsRecords(cs: seq<Candidate>, world: World, n: nat): seq<Record>
    requires n <= |cs|
  {
    if n == 0 then []
    else
      GroupsRecords(cs, world, n - 1)
      + GroupRecords(cs[n - 1], world(cs[n - 1]), CapturedCount(cs, world, n - 1))
  }

  function CapturedBytes(cs: seq<Candidate>, world: World, n: nat): nat
    requires n <= |cs|
  {
    if n == 0 then 0
    else
      CapturedBytes(cs, world, n - 1)
      + if Captured(world(cs[n - 1])) then |ContentOf(world(cs[n - 1]))| else 0
  }

  function Problems(cs: seq<Candidate>, world: World, n: nat): seq<Record>
    requires n <= |cs|
  {
    if n == 0 then [] else Problems(cs, world, n - 1) + ProblemsOf(world(cs[n - 1]))
  }

  lemma {:induction false} ProblemsDiagnose(cs: seq<Candidate>, world: World, n: nat)
    requires n <= |cs|
    ensures forall i :: 0 <= i < |Problems(cs, world, n)| ==> Problems(cs, world, n)[i].Diagnostic?
  {
    if n > 0 {
      ProblemsDiagnose(cs, world, n - 1);
    }
  }

  const MAXIMUM_READ := 0x7fff_ffff_ffff_ffff

  predicate ChunkSizeUsable(chunkSize: nat)
  {
    0 < chunkSize <= MAXIMUM_READ
  }

  /** Everything `emit_artifacts` writes. */
  function ArtifactRecords(cs: seq<Candidate>, world: World, chunkSize: nat): seq<Record>
  {
    if !ChunkSizeUsable(chunkSize) then []
    else GroupsRecords(cs, world, |cs|) + Problems(cs, world, |cs|)
  }

  /** The diagnostics it reports to its caller; without a usable chunk size it reports one it has not written. */
  function ReportedProblems(cs: seq<Candidate>, world: World, chunkSize: nat): seq<Record>
  {
    if !ChunkSizeUsable(chunkSize) then [Failure(ArtifactChunkSizeInvalid)] else Problems(cs, world, |cs|)
  }

  datatype ArtifactResult = ArtifactResult(artifacts: nat, size: nat, diagnostics: seq<Record>, success: bool)

  /** The read loop of one regular file. */
  method EmitChunks(e: Emitter, readings: seq<Read>, id: nat) returns (thrown: bool, hashed: bytes, failed: bool)
    requires e.Valid() && !e.writer.output.bad
    modifies e`fault, e.writer.Repr
    ensures e.Valid() && e.totals == old(e.totals)
    ensures Played(old(e.Now()), e.Now(), ChunkRecords(id, ReadData(readings)), false, thrown)
    ensures !thrown ==> hashed == Concat(ReadData(readings)) && failed == ReadFails(readings)
  {
    hide Played, Completed, e.Valid, Concat, ReadData, ReadFails;
    ghost var start := e.Now();
    PlayedNothing(start, false);
    hashed, failed, thrown := [], false, false;
    var index := 0;
    ghost var data := [];
    assert Concat(data) == [] by { NothingJoined(); }
    assert readings[0..] == readings;
    for j := 0 to |readings|
      invariant e.Valid() && !e.writer.output.bad && e.totals == old(e.totals) && !failed && !thrown
      invariant ReadData(readings) == data + ReadData(readings[j..])
      invariant ReadFails(readings) == ReadFails(readings[j..])
      invariant index == |data| && hashed == Concat(data)
      invariant Completed(start, e.Now(), ChunkRecords(id, data), false)
    {
      ReadStep(readings, j);
      match readings[j] {
        case Interrupted =>
        case Failed =>
          failed := true;
          assert data + [] == data;
          break;
        case Data(chunk) =>
          if chunk == [] {
            assert data + [] == data;
            break;
          }
          ghost var here := e.Now();
          hashed := hashed + chunk;
          thrown := e.Write(ArtifactChunk(id, index, chunk));
          ChunksMore(id, data, chunk, ReadData(readings[j + 1..]));
          PlayedThen(start, here, e.Now(), ChunkRecords(id, data), [ArtifactChunk(id, index, chunk)], false, thrown);
          if thrown {
            BrokenOffLonger(start, e.Now(), ChunkRecords(id, data + [chunk]),
                            ChunkRecords(id, ReadData(readings))[|data| + 1..], false);
            return;
          }
          ConcatSnoc(data, chunk);
          assert data + ([chunk] + ReadData(readings[j + 1..])) == data + [chunk] + ReadData(readings[j + 1..]);
          data := data + [chunk];
          index := index + 1;
          PlayedIsCompleted(start, e.Now(), ChunkRecords(id, data), false);
      }
    }
    assert ReadData(readings) == data && ReadFails(readings) == failed by {
      if !failed {
        NothingRead(readings[|readings|..]);
        assert data + [] == data;
      }
    }
    CompletedIsPlayed(start, e.Now(), ChunkRecords(id, data), false);
  }

  lemma NothingRead(readings: seq<Read>)
    requires readings == []
    ensures ReadData(readings) == [] && !ReadFails(readings)
  {
  }

  /** One turn of the read loop. */
  lemma ReadStep(readings: seq<Read>, j: nat)
    requires j < |readings|
    ensures ReadData(readings[j..]) ==
            match readings[j]
            case Data(data) => if data == [] then [] else [data] + ReadData(readings[j + 1..])
            case Interrupted => ReadData(readings[j + 1..])
            case Failed => []
    ensures ReadFails(readings[j..]) ==
            match readings[j]
            case Data(data) => data != [] && ReadFails(readings[j + 1..])
            case Interrupted => ReadFails(readings[j + 1..])
            case Failed => true
  {
    assert readings[j..][0] == readings[j] && readings[j..][1..] == readings[j + 1..];
  }

  lemma NothingJoined()
    ensures Concat([]) == []
  {
  }

  lemma ChunksMore(id: nat, data: seq<bytes>, chunk: bytes, rest: seq<bytes>)
    ensures ChunkRecords(id, data + [chunk]) == ChunkRecords(id, data) + [ArtifactChunk(id, |data|, chunk)]
    ensures var all := ChunkRecords(id, data + ([chunk] + rest));
            all == ChunkRecords(id, data + [chunk]) + all[|data| + 1..]
  {
  }

  /** A group without chunks. */
  method EmitPair(e: Emitter, begin: Record, end: Record) returns (thrown: bool)
    requires e.Valid() && !e.writer.output.bad && !begin.Footer? && !end.Footer?
    modifies e`fault, e.writer.Repr
    ensures e.Valid() && e.totals == old(e.totals)
    ensures Played(old(e.Now()), e.Now(), [begin] + [end], false, thrown)
  {
    hide Played, e.Valid;
    ghost var start := e.Now();
    thrown := e.Write(begin);
    if thrown {
      BrokenOffLonger(start, e.Now(), [begin], [end], false);
      return;
    }
    ghost var middle := e.Now();
    StillGood(start, middle, [begin], false);
    thrown := e.Write(end);
    PlayedOn(start, middle, e.Now(), [begin], [end], false, thrown);
  }

  lemma PairIsGroup(c: Candidate, o: Observation, id: nat)
    requires Captured(o) && !o.FileSeen?
    ensures GroupRecords(c, o, id) == [BeginOf(c, o, id)] + [EndOf(o, id)]
  {
    hide BeginOf, EndOf;
    assert ChunkRecords(id, ChunksOf(o)) + [EndOf(o, id)] == [EndOf(o, id)];
  }

  /** A regular file that could be opened unchanged. */
  method EmitFile(e: Emitter, c: Candidate, o: Observation, id: nat)
    returns (thrown: bool, size: nat, problems: seq<Record>)
    requires e.Valid() && !e.writer.output.bad && o.FileSeen? && Captured(o)
    modifies e`fault, e.writer.Repr
    ensures e.Valid() && e.totals == old(e.totals)
    ensures Played(old(e.Now()), e.Now(), GroupRecords(c, o, id), false, thrown)
    ensures !thrown ==> size == |ContentOf(o)| && problems == ProblemsOf(o)
  {
    hide Played, e.Valid, PathOf, Sha256Hex, CodeText, ReadData, ReadFails, Concat;
    size, problems := 0, [];
    ghost var begin, chunks, end := BeginOf(c, o, id), ChunkRecords(id, ReadData(o.readings)), EndOf(o, id);
    ghost var s0 := e.Now();
    thrown := e.Write(ArtifactBegin(id, Regular, o.mode % 0x1000, PathOf(c), c.role, None, Some(o.size)));
    if thrown {
      BrokenOffLonger(s0, e.Now(), [begin], chunks + [end], false);
      return;
    }
    ghost var s1 := e.Now();
    StillGood(s0, s1, [begin], false);
    var hashed, failed;
    thrown, hashed, failed := EmitChunks(e, o.readings, id);
    if thrown {
      BrokenOffLonger(s1, e.Now(), chunks, [end], false);
      PlayedOn(s0, s1, e.Now(), [begin], chunks + [end], false, true);
      return;
    }
    ghost var s2 := e.Now();
    StillGood(s1, s2, chunks, false);
    if failed {
      problems := problems + [Failure(ArtifactReadFailed)];
    }
    if !o.stable {
      problems := problems + [Failure(ArtifactChangedDuringRead)];
    }
    size := |hashed|;
    thrown := e.Write(ArtifactEnd(id, Sha256Hex(hashed), size, Some(o.stable && !failed)));
    PlayedOn(s1, s2, e.Now(), chunks, [end], false, thrown);
    PlayedOn(s0, s1, e.Now(), [begin], chunks + [end], false, thrown);
  }

  /** One candidate: captured, or skipped with a diagnostic for later. */
  method EmitCandidate(e: Emitter, c: Candidate, o: Observation, id: nat)
    returns (thrown: bool, captured: bool, size: nat, problems: seq<Record>)
    requires e.Valid() && !e.writer.output.bad
    modifies e`fault, e.writer.Repr
    ensures e.Valid() && e.totals == old(e.totals)
    ensures Played(old(e.Now()), e.Now(), GroupRecords(c, o, id), false, thrown)
    ensures !thrown ==> captured == Captured(o) && problems == ProblemsOf(o)
    ensures !thrown && captured ==> size == |ContentOf(o)|
  {
    hide Played, e.Valid, PathOf, Sha256Hex, CodeText, ReadData, ReadFails, Concat, GroupRecords;
    thrown, captured, size, problems := false, false, 0, [];
    Skipped(c, o, id, e.Now());
    match o {
      case StatFailed =>
        problems := [Failure(ArtifactStatFailed)];
      case DirectorySeen(mode) =>
        captured := true;
        PairIsGroup(c, o, id);
        thrown := EmitPair(e, ArtifactBegin(id, Directory, mode % 0x1000, PathOf(c), c.role, None, None),
                           ArtifactEnd(id, Sha256Hex([]), 0, None));
      case LinkSeen(mode, linkSize, target) =>
        if target.None? {
          problems := [Failure(ArtifactSymlinkReadFailed)];
        } else {
          captured := true;
          PairIsGroup(c, o, id);
          var t := Truncated(target.value, linkSize);
          size := |t|;
          thrown := EmitPair(e, ArtifactBegin(id, Symlink, mode % 0x1000, PathOf(c), c.role, Some(t), None),
                             ArtifactEnd(id, Sha256Hex(t), |t|, None));
        }
      case FileSeen(_, _, opens, same, _, _) =>
        if !opens {
          problems := [Failure(ArtifactOpenFailed)];
        } else if !same {
          problems := [Failure(ArtifactChangedBeforeRead)];
        } else {
          captured := true;
          thrown, size, problems := EmitFile(e, c, o, id);
        }
      case OtherSeen(_) =>
        problems := [Failure(ArtifactTypeUnsupported)];
    }
  }

  lemma Skipped(c: Candidate, o: Observation, id: nat, s: Snapshot)
    requires !s.bad
    ensures !Captured(o) ==> Played(s, s, GroupRecords(c, o, id), false, false)
  {
    hide BeginOf, EndOf;
    PlayedNothing(s, false);
  }

  /** The loop over the candidates, then the diagnostics that were put off until no group is open. */
  method EmitArtifacts(e: Emitter, cs: seq<Candidate>, world: World, chunkSize: nat)
    returns (thrown: bool, result: ArtifactResult)
    requires e.Valid() && !e.writer.output.bad
    modifies e`fault, e.writer.Repr
    ensures e.Valid() && e.totals == old(e.totals)
    ensures Played(old(e.Now()), e.Now(), ArtifactRecords(cs, world, chunkSize), false, thrown)
    ensures !thrown ==>
              && result.diagnostics == ReportedProblems(cs, world, chunkSize)
              && result.success == (result.diagnostics == [])
              && result.artifacts == (if ChunkSizeUsable(chunkSize) then CapturedCount(cs, world, |cs|) else 0)
              && result.size == (if ChunkSizeUsable(chunkSize) then CapturedBytes(cs, world, |cs|) else 0)
  {
    hide Played, Completed, e.Valid, CodeText, GroupRecords, ProblemsOf, ContentOf, Captured;
    ghost var start := e.Now();
    PlayedNothing(start, false);
    result := ArtifactResult(0, 0, [], true);
    if chunkSize == 0 || chunkSize > MAXIMUM_READ {
      CompletedIsPlayed(start, start, [], false);
      return false, ArtifactResult(0, 0, [Failure(ArtifactChunkSizeInvalid)], false);
    }
    var artifactId := 0;
    for i := 0 to |cs|
      invariant e.Valid() && !e.writer.output.bad && e.totals == old(e.totals)
      invariant artifactId == CapturedCount(cs, world, i)
      invariant result == ArtifactResult(artifactId, CapturedBytes(cs, world, i), Problems(cs, world, i),
                                         Problems(cs, world, i) == [])
      invariant Completed(start, e.Now(), GroupsRecords(cs, world, i), false)
    {
      ghost var here := e.Now();
      ghost var group := GroupRecords(cs[i], world(cs[i]), artifactId);
      var captured, size, problems;
      thrown, captured, size, problems := EmitCandidate(e, cs[i], world(cs[i]), artifactId);
      PlayedThen(start, here, e.Now(), GroupsRecords(cs, world, i), group, false, thrown);
      if thrown {
        GroupAbandoned(start, e.Now(), cs, world, i, chunkSize);
        return;
      }
      PlayedIsCompleted(start, e.Now(), GroupsRecords(cs, world, i + 1), false);
      result := result.(diagnostics := result.diagnostics + problems, success := result.success && problems == []);
      if captured {
        artifactId := artifactId + 1;
        result := result.(artifacts := result.artifacts + 1, size := result.size + size);
      }
    }
    ghost var middle := e.Now();
    ProblemsDiagnose(cs, world, |cs|);
    thrown := EmitProblems(e, result.diagnostics);
    PlayedThen(start, middle, e.Now(), GroupsRecords(cs, world, |cs|), result.diagnostics, false, thrown);
  }

  method EmitProblems(e: Emitter, problems: seq<Record>) returns (thrown: bool)
    requires e.Valid() && !e.writer.output.bad && forall i :: 0 <= i < |problems| ==> problems[i].Diagnostic?
    modifies e`fault, e.writer.Repr
    ensures e.Valid() && e.totals == old(e.totals)
    ensures Played(old(e.Now()), e.Now(), problems, false, thrown)
  {
    hide Played, Completed, e.Valid;
    thrown := false;
    ghost var start := e.Now();
    PlayedNothing(start, false);
    for i := 0 to |problems|
      invariant e.Valid() && !e.writer.output.bad && e.totals == old(e.totals) && !thrown
      invariant Completed(start, e.Now(), problems[..i], false)
    {
      ghost var here := e.Now();
      thrown := e.Write(problems[i]);
      assert problems[..i + 1] == problems[..i] + [problems[i]];
      PlayedThen(start, here, e.Now(), problems[..i], [problems[i]], false, thrown);
      if thrown {
        BrokenOffLonger(start, e.Now(), problems[..i + 1], problems[i + 1..], false);
        assert problems == problems[..i + 1] + problems[i + 1..];
        return;
      }
      PlayedIsCompleted(start, e.Now(), problems[..i + 1], false);
    }
    assert problems[..|problems|] == problems;
    CompletedIsPlayed(start, e.Now(), problems, false);
  }

  lemma {:induction false} GroupsPrefix(cs: seq<Candidate>, world: World, i: nat, n: nat)
    requires i <= n <= |cs|
    ensures GroupsRecords(cs, world, i) <= GroupsRecords(cs, world, n)
  {
    hide GroupRecords;
    if i < n {
      GroupsPrefix(cs, world, i, n - 1);
    }
  }

  lemma GroupsSnoc(cs: seq<Candidate>, world: World, i: nat)
    requires i < |cs|
    ensures GroupsRecords(cs, world, i + 1) ==
            GroupsRecords(cs, world, i) + GroupRecords(cs[i], world(cs[i]), CapturedCount(cs, world, i))
  {
    hide GroupRecords, CapturedCount;
  }

  lemma SplitAt(all: seq<Record>, done: seq<Record>, more: seq<Record>)
    requires done <= all
    ensures done + (all[|done|..] + more) == all + more
  {
  }

  /** An exception during a group breaks off the capture. */
  lemma GroupAbandoned(a: Snapshot, b: Snapshot, cs: seq<Candidate>, world: World, i: nat, chunkSize: nat)
    requires i < |cs| && ChunkSizeUsable(chunkSize)
    requires Played(a, b, GroupsRecords(cs, world, i) + GroupRecords(cs[i], world(cs[i]), CapturedCount(cs, world, i)),
                    false, true)
    ensures Played(a, b, ArtifactRecords(cs, world, chunkSize), false, true)
  {
    hide Played, GroupRecords, Problems, CapturedCount, GroupsRecords;
    GroupsSnoc(cs, world, i);
    GroupsPrefix(cs, world, i + 1, |cs|);
    var done, all := GroupsRecords(cs, world, i + 1), GroupsRecords(cs, world, |cs|);
    SplitAt(all, done, Problems(cs, world, |cs|));
    BrokenOffLonger(a, b, done, all[|done|..] + Problems(cs, world, |cs|), false);
  }
}
