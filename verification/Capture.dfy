/** When the validator takes the records of a captured candidate, and what it remembers of it. */
module Capture {
  import opened Artifacts
  import opened Bytes
  import opened Records
  import opened Sha256Spec
  import opened Validation
  import Acceptance
  import Paths
  import Production

  /** Candidates come from directory entries: their components are normal, except that the root has none. */
  predicate Located(c: Candidate)
  {
    c.components == [] || Paths.NormalComponents(c.components)
  }

  /** Every chunk is full but the last, which is not empty. */
  predicate FullExceptLast(data: seq<bytes>, chunkSize: int)
  {
    forall i :: 0 <= i < |data| ==> 0 < |data[i]| <= chunkSize && (i < |data| - 1 ==> |data[i]| == chunkSize)
  }

  /** The path is not the root, and only a directory is spelled with a final separator. */
  predicate CleanPath(c: Candidate, o: Observation)
  {
    c.components != [] && (c.trailing ==> o.DirectorySeen?)
  }

  /** What the environment must grant for one captured candidate. */
  predicate CleanGroup(c: Candidate, o: Observation, chunkSize: int)
    requires Captured(o)
  {
    && CleanPath(c, o)
    && (o.LinkSeen? ==> 0 !in ContentOf(o))
    && (o.FileSeen? ==>
          && FullExceptLast(ReadData(o.readings), chunkSize)
          && (StableOf(o) == Some(true) ==> |ContentOf(o)| == o.size))
  }

  /** The artifact the validator remembers. */
  function ArtifactOf(c: Candidate, o: Observation, id: nat): Artifact
    requires Captured(o)
  {
    var b := BeginOf(c, o, id);
    Artifact(id, b.path, c.components, b.fileType, b.mode, b.target, |ContentOf(o)|, Sha256Hex(ContentOf(o)))
  }

  /** The path check refuses the root and a final separator on anything but a directory. */
  lemma PathAccepted(c: Candidate, directory: bool)
    requires Located(c)
    ensures Paths.RelativePath(PathOf(c), directory) ==
            if c.components != [] && (c.trailing ==> directory) then Some(c.components) else None
  {
    var path := PathOf(c);
    if c.components == [] {
      RootPath(directory);
    } else {
      Paths.RelativePathIs(path, directory, c.components);
      Paths.JoinFacts(c.components);
      assert Paths.Join(c.components) + [] == Paths.Join(c.components);
      if c.trailing && !directory && Paths.RelativePath(path, directory).Some? {
        var other := Paths.RelativePath(path, directory).value;
        Paths.RelativePathIs(path, directory, other);
        Paths.JoinFacts(other);
      }
    }
  }

  lemma RootPath(directory: bool)
    ensures Paths.RelativePath([Paths.DOT], directory).None?
  {
    var path := [Paths.DOT];
    var rest := Paths.Split(path[1..]);
    assert rest == [[]];
    assert Paths.Split(path)[0] == [Paths.DOT] + rest[0];
    assert [Paths.DOT] in Paths.Split(path) by { assert Paths.Split(path)[0] == [Paths.DOT]; }
  }

  /** A state in which artifact groups can come. */
  predicate Ready(s: State, chunkSize: int)
  {
    && s.header.Some? && s.command == Extract && s.moduleCount == 1 && s.phase <= 5 && s.active.None?
    && s.chunkSize == Some(chunkSize)
  }

  lemma BeginAccepted(s: State, c: Candidate, o: Observation, id: nat, chunkSize: int)
    requires Ready(s, chunkSize) && Located(c) && Captured(o) && id == |s.artifacts|
    ensures var r := BeginOf(c, o, id);
            && (StepRecord(s, r).Some? <==>
                  CleanPath(c, o) && (o.LinkSeen? ==> 0 !in ContentOf(o)) && c.components !in s.artifactPaths)
            && (StepRecord(s, r).Some? ==>
                  && BeginOk(r) && Components(r) == c.components
                  && StepRecord(s, r).value ==
                     s.(phase := 5, artifactPaths := s.artifactPaths + {c.components}, active := Some(Opened(r))))
  {
    var r := BeginOf(c, o, id);
    PathAccepted(c, r.fileType == Directory);
    Acceptance.Dispatch(s, r);
    hide PathOf, Paths.RelativePath, StepRecord, Opened, ReadData, ReadFails, Concat;
  }

  /** The open group after some chunks. */
  function After(begin: Record, data: seq<bytes>, chunkSize: int): ActiveArtifact
    requires begin.ArtifactBegin?
  {
    Opened(begin).(hashed := Concat(data), size := |Concat(data)|, chunks := |data|,
                   shortChunkSeen := data != [] && |data[|data| - 1]| < chunkSize)
  }

  lemma NoChunksYet(begin: Record, chunkSize: int)
    requires begin.ArtifactBegin?
    ensures After(begin, [], chunkSize) == Opened(begin)
  {
    hide Components;
  }

  lemma FullSnoc(data: seq<bytes>, chunk: bytes, chunkSize: int)
    ensures FullExceptLast(data + [chunk], chunkSize) <==>
            && FullExceptLast(data, chunkSize) && 0 < |chunk| <= chunkSize
            && !(data != [] && |data[|data| - 1]| < chunkSize)
  {
    var more := data + [chunk];
    assert forall i :: 0 <= i < |data| ==> more[i] == data[i];
    assert more[|data|] == chunk;
    if FullExceptLast(more, chunkSize) {
      assert 0 < |more[|data|]| <= chunkSize;
    }
  }

  /** One chunk against what came before it. */
  lemma ChunkAccepted(s: State, begin: Record, data: seq<bytes>, chunk: bytes, chunkSize: int)
    requires begin.ArtifactBegin? && begin.fileType == Regular && begin.id >= 0
    requires s.header.Some? && s.phase == 5 && s.chunkSize == Some(chunkSize)
    requires s.active == Some(After(begin, data, chunkSize)) && FullExceptLast(data, chunkSize)
    ensures var r := ArtifactChunk(begin.id, |data|, chunk);
            && (StepRecord(s, r).Some? <==> FullExceptLast(data + [chunk], chunkSize))
            && (StepRecord(s, r).Some? ==>
                  StepRecord(s, r).value == s.(active := Some(After(begin, data + [chunk], chunkSize))))
  {
    var r := ArtifactChunk(begin.id, |data|, chunk);
    Acceptance.Dispatch(s, r);
    FullSnoc(data, chunk, chunkSize);
    ConcatSnoc(data, chunk);
    hide StepRecord, FullExceptLast, Concat, Components;
  }

  lemma ChunksSnoc(id: nat, data: seq<bytes>, chunk: bytes)
    ensures ChunkRecords(id, data + [chunk]) == ChunkRecords(id, data) + [ArtifactChunk(id, |data|, chunk)]
    ensures forall i :: 0 <= i < |data| ==> !ChunkRecords(id, data)[i].Footer?
  {
  }

  /** The chunks of a group are taken exactly when all but the last are full. */
  lemma {:induction false} ChunksAccepted(s: State, begin: Record, data: seq<bytes>, chunkSize: int)
    requires begin.ArtifactBegin? && begin.fileType == Regular && begin.id >= 0
    requires s.header.Some? && s.phase == 5 && s.chunkSize == Some(chunkSize) && s.active == Some(Opened(begin))
    ensures Production.NoFooter(ChunkRecords(begin.id, data))
    ensures var t := Production.RunRecords(s, ChunkRecords(begin.id, data));
            && (t.Some? <==> FullExceptLast(data, chunkSize))
            && (t.Some? ==> t.value == s.(active := Some(After(begin, data, chunkSize))))
    decreases |data|
  {
    hide StepRecord, Concat, Components, Opened, After, Production.RunRecords;
    NoChunksYet(begin, chunkSize);
    NothingRuns(s);
    if data == [] {
      assert ChunkRecords(begin.id, data) == [];
      hide ChunkRecords;
    } else {
      var n := |data| - 1;
      var before, chunk := data[..n], data[n];
      assert data == before + [chunk];
      ChunksAccepted(s, begin, before, chunkSize);
      ChunksSnoc(begin.id, before, chunk);
      FullSnoc(before, chunk, chunkSize);
      Production.RunRecordsSnoc(s, ChunkRecords(begin.id, before), ArtifactChunk(begin.id, n, chunk));
      var t := Production.RunRecords(s, ChunkRecords(begin.id, before));
      if t.Some? {
        ChunkAccepted(t.value, begin, before, chunk, chunkSize);
      }
    }
  }

  lemma NothingRuns(s: State)
    ensures Production.RunRecords(s, []) == Some(s)
  {
  }

  /** What the end of a group must say, given that it says what the producer says. */
  predicate EndGranted(o: Observation)
    requires Captured(o)
  {
    o.FileSeen? && StableOf(o) == Some(true) ==> |ContentOf(o)| == o.size
  }

  lemma EndOfFile(c: Candidate, o: Observation, id: nat, chunkSize: int)
    requires Captured(o) && o.FileSeen? && Components(BeginOf(c, o, id)) == c.components
    ensures var a, r := After(BeginOf(c, o, id), ChunksOf(o), chunkSize), EndOf(o, id);
            && (EndOk(a, r) <==> EndGranted(o))
            && (EndOk(a, r) ==> Closed(a, r) == ArtifactOf(c, o, id))
  {
    hide Sha256Hex, PathOf, Components, ReadData, ReadFails, Concat;
  }

  lemma EndOfOther(c: Candidate, o: Observation, id: nat, chunkSize: int)
    requires Captured(o) && !o.FileSeen? && Components(BeginOf(c, o, id)) == c.components
    ensures var a, r := After(BeginOf(c, o, id), ChunksOf(o), chunkSize), EndOf(o, id);
            && EndOk(a, r) && EndGranted(o) && Closed(a, r) == ArtifactOf(c, o, id)
  {
    hide Sha256Hex, PathOf, Components, ReadData, ReadFails, Concat, Truncated;
  }

  lemma EndAccepted(s: State, c: Candidate, o: Observation, id: nat, chunkSize: int)
    requires Captured(o) && s.header.Some? && s.phase == 5 && Components(BeginOf(c, o, id)) == c.components
    requires s.active == Some(After(BeginOf(c, o, id), ChunksOf(o), chunkSize))
    ensures var r := EndOf(o, id);
            && (StepRecord(s, r).Some? <==> EndGranted(o))
            && (StepRecord(s, r).Some? ==>
                  StepRecord(s, r).value ==
                  s.(artifacts := s.artifacts + [ArtifactOf(c, o, id)], active := None))
  {
    EndStepIs(s, After(BeginOf(c, o, id), ChunksOf(o), chunkSize), EndOf(o, id));
    if o.FileSeen? {
      EndOfFile(c, o, id, chunkSize);
    } else {
      EndOfOther(c, o, id, chunkSize);
    }
    hide StepRecord, Sha256Hex, PathOf, Components, ContentOf, After, ArtifactOf, EndOk, Closed, BeginOf, StableOf,
      EndGranted, ChunksOf;
  }

  lemma EndStepIs(s: State, a: ActiveArtifact, r: Record)
    requires s.header.Some? && s.phase == 5 && s.active == Some(a) && r.ArtifactEnd?
    ensures StepRecord(s, r) ==
            if EndOk(a, r) then Some(s.(artifacts := s.artifacts + [Closed(a, r)], active := None)) else None
  {
    Acceptance.Dispatch(s, r);
    hide StepRecord, EndOk, Closed;
  }

  /** All records of a captured candidate. */
  lemma GroupAccepted(s: State, c: Candidate, o: Observation, id: nat, chunkSize: int)
    requires Ready(s, chunkSize) && Located(c) && Captured(o) && id == |s.artifacts|
    ensures Production.NoFooter(GroupRecords(c, o, id))
    ensures var t := Production.RunRecords(s, GroupRecords(c, o, id));
            && (t.Some? <==> CleanGroup(c, o, chunkSize) && c.components !in s.artifactPaths)
            && (t.Some? ==>
                  t.value == s.(phase := 5, artifacts := s.artifacts + [ArtifactOf(c, o, id)],
                                artifactPaths := s.artifactPaths + {c.components}))
  {
    var begin, chunks, end := BeginOf(c, o, id), ChunkRecords(id, ChunksOf(o)), EndOf(o, id);
    GroupParts(c, o, id);
    BeginAccepted(s, c, o, id, chunkSize);
    hide StepRecord, Production.RunRecords, Sha256Hex, PathOf, Components, ContentOf, After, ArtifactOf, BeginOf,
      ChunkRecords, Opened, ChunksOf, EndOf, StableOf, BeginOk, CleanPath, FullExceptLast, GroupRecords;
    Production.RunRecordsAppend(s, [begin], chunks + [end]);
    Production.RunOneRecord(s, begin);
    Production.RunRecordsAppend(s, [begin], chunks);
    if StepRecord(s, begin).Some? {
      var s1 := StepRecord(s, begin).value;
      Production.RunRecordsSnoc(s1, chunks, end);
      ChunksRun(s1, c, o, id, chunkSize);
      if Production.RunRecords(s1, chunks).Some? {
        EndAccepted(Production.RunRecords(s1, chunks).value, c, o, id, chunkSize);
      }
    }
    CleanGroupIs(c, o, chunkSize);
  }

  lemma GroupParts(c: Candidate, o: Observation, id: nat)
    requires Captured(o)
    ensures GroupRecords(c, o, id) == [BeginOf(c, o, id)] + (ChunkRecords(id, ChunksOf(o)) + [EndOf(o, id)])
    ensures Production.NoFooter([BeginOf(c, o, id)]) && Production.NoFooter(ChunkRecords(id, ChunksOf(o)))
    ensures !EndOf(o, id).Footer? && Production.NoFooter(ChunkRecords(id, ChunksOf(o)) + [EndOf(o, id)])
  {
    hide Sha256Hex, PathOf, ContentOf, ReadData, ReadFails;
  }

  /** The chunks of any captured candidate: none, unless it is a file. */
  lemma ChunksRun(s: State, c: Candidate, o: Observation, id: nat, chunkSize: int)
    requires Captured(o) && s.header.Some? && s.phase == 5 && s.chunkSize == Some(chunkSize)
    requires s.active == Some(Opened(BeginOf(c, o, id)))
    ensures Production.NoFooter(ChunkRecords(id, ChunksOf(o)))
    ensures var t := Production.RunRecords(s, ChunkRecords(id, ChunksOf(o)));
            && (t.Some? <==> (o.FileSeen? ==> FullExceptLast(ChunksOf(o), chunkSize)))
            && (t.Some? ==> t.value == s.(active := Some(After(BeginOf(c, o, id), ChunksOf(o), chunkSize))))
  {
    hide StepRecord, PathOf, Components, Opened, After, FullExceptLast, ReadData, Production.RunRecords;
    if o.FileSeen? {
      ChunksAccepted(s, BeginOf(c, o, id), ChunksOf(o), chunkSize);
    } else {
      NoChunksYet(BeginOf(c, o, id), chunkSize);
      NothingRuns(s);
      assert ChunkRecords(id, ChunksOf(o)) == [];
    }
  }

  lemma CleanGroupIs(c: Candidate, o: Observation, chunkSize: int)
    requires Captured(o)
    ensures CleanGroup(c, o, chunkSize) <==>
            && CleanPath(c, o) && (o.LinkSeen? ==> 0 !in ContentOf(o))
            && (o.FileSeen? ==> FullExceptLast(ChunksOf(o), chunkSize)) && EndGranted(o)
  {
    hide ContentOf, FullExceptLast, StableOf, CleanPath;
  }

  // All candidates.

  predicate CleanAt(cs: seq<Candidate>, world: World, i: nat, chunkSize: int)
    requires i < |cs|
  {
    Captured(world(cs[i])) ==>
      && CleanGroup(cs[i], world(cs[i]), chunkSize)
      && forall j :: 0 <= j < i && Captured(world(cs[j])) ==> cs[j].components != cs[i].components
  }

  /** Every captured candidate is clean, and no two of them are the same place. */
  predicate CleanGroups(cs: seq<Candidate>, world: World, n: nat, chunkSize: int)
    requires n <= |cs|
  {
    forall i :: 0 <= i < n ==> CleanAt(cs, world, i, chunkSize)
  }

  function ArtifactsOf(cs: seq<Candidate>, world: World, n: nat): (r: seq<Artifact>)
    requires n <= |cs|
    ensures |r| == CapturedCount(cs, world, n)
  {
    if n == 0 then []
    else
      var c := cs[n - 1];
      ArtifactsOf(cs, world, n - 1)
      + if Captured(world(c)) then [ArtifactOf(c, world(c), CapturedCount(cs, world, n - 1))] else []
  }

  function CapturedPaths(cs: seq<Candidate>, world: World, n: nat): set<seq<bytes>>
    requires n <= |cs|
  {
    set i | 0 <= i < n && Captured(world(cs[i])) :: cs[i].components
  }

  /** The state after the groups of the first `n` candidates. */
  function Holding(s: State, cs: seq<Candidate>, world: World, n: nat): State
    requires n <= |cs|
  {
    s.(phase := if CapturedCount(cs, world, n) > 0 then 5 else s.phase,
       artifacts := ArtifactsOf(cs, world, n),
       artifactPaths := CapturedPaths(cs, world, n))
  }

  predicate AllLocated(cs: seq<Candidate>)
  {
    forall i :: 0 <= i < |cs| ==> Located(cs[i])
  }

  lemma HoldingNext(s: State, cs: seq<Candidate>, world: World, n: nat, chunkSize: int)
    requires n < |cs| && Ready(s, chunkSize)
    ensures Ready(Holding(s, cs, world, n), chunkSize)
    ensures !Captured(world(cs[n])) ==> Holding(s, cs, world, n + 1) == Holding(s, cs, world, n)
    ensures Captured(world(cs[n])) ==>
              var t := Holding(s, cs, world, n);
              Holding(s, cs, world, n + 1) ==
              t.(phase := 5,
                 artifacts := t.artifacts + [ArtifactOf(cs[n], world(cs[n]), CapturedCount(cs, world, n))],
                 artifactPaths := t.artifactPaths + {cs[n].components})
  {
    hide Captured, ArtifactOf;
    assert Captured(world(cs[n])) ==>
        CapturedPaths(cs, world, n + 1) == CapturedPaths(cs, world, n) + {cs[n].components};
    assert !Captured(world(cs[n])) ==> CapturedPaths(cs, world, n + 1) == CapturedPaths(cs, world, n);
  }

  lemma CleanNext(cs: seq<Candidate>, world: World, n: nat, chunkSize: int)
    requires n < |cs|
    ensures CleanGroups(cs, world, n + 1, chunkSize)
            <==> CleanGroups(cs, world, n, chunkSize) && CleanAt(cs, world, n, chunkSize)
    ensures CleanAt(cs, world, n, chunkSize) <==>
            (Captured(world(cs[n])) ==>
               CleanGroup(cs[n], world(cs[n]), chunkSize) && cs[n].components !in CapturedPaths(cs, world, n))
  {
    hide Captured, CleanGroup;
  }

  lemma NothingCaptured(s: State, cs: seq<Candidate>, world: World, chunkSize: int)
    requires s.artifacts == [] && s.artifactPaths == {}
    ensures GroupsRecords(cs, world, 0) == [] && CleanGroups(cs, world, 0, chunkSize)
    ensures Holding(s, cs, world, 0) == s
  {
  }

  /** The groups are taken exactly when all captured candidates are clean; the state then holds exactly their
      artifacts. */
  lemma {:induction false} GroupsAccepted(s: State, cs: seq<Candidate>, world: World, n: nat, chunkSize: int)
    requires n <= |cs| && Ready(s, chunkSize) && s.artifacts == [] && s.artifactPaths == {} && AllLocated(cs)
    ensures Production.NoFooter(GroupsRecords(cs, world, n))
    ensures var t := Production.RunRecords(s, GroupsRecords(cs, world, n));
            && (t.Some? <==> CleanGroups(cs, world, n, chunkSize))
            && (t.Some? ==> t.value == Holding(s, cs, world, n))
  {
    hide GroupRecords, Captured, CleanGroup, ArtifactOf, Production.RunRecords, Holding, CleanAt, CleanGroups, Ready,
      Located;
    NothingRuns(s);
    if n == 0 {
      NothingCaptured(s, cs, world, chunkSize);
    } else {
      var c := cs[n - 1];
      var o, id := world(c), CapturedCount(cs, world, n - 1);
      var before := GroupsRecords(cs, world, n - 1);
      GroupsAccepted(s, cs, world, n - 1, chunkSize);
      CleanNext(cs, world, n - 1, chunkSize);
      HoldingNext(s, cs, world, n - 1, chunkSize);
      var held := Holding(s, cs, world, n - 1);
      HeldCount(s, cs, world, n - 1);
      if Captured(o) {
        GroupAccepted(held, c, o, id, chunkSize);
      } else {
        NoGroup(c, o, id);
        NothingRuns(held);
      }
      Production.RunRecordsAppend(s, before, GroupRecords(c, o, id));
    }
  }

  lemma HeldCount(s: State, cs: seq<Candidate>, world: World, n: nat)
    requires n <= |cs|
    ensures |Holding(s, cs, world, n).artifacts| == CapturedCount(cs, world, n)
    ensures Holding(s, cs, world, n).artifactPaths == CapturedPaths(cs, world, n)
  {
    hide CapturedPaths;
  }

  lemma NoGroup(c: Candidate, o: Observation, id: nat)
    requires !Captured(o)
    ensures GroupRecords(c, o, id) == [] && Production.NoFooter([])
  {
  }
}
