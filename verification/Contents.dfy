/** What the records of an extraction say about configuration and artifacts, read off the facts themselves. */
module Contents {
  import opened Artifacts
  import opened Bytes
  import opened Extraction
  import opened Grounds
  import opened Records
  import opened Sha256Spec
  import C = Configuration
  import Discovery
  import Paths
  import Traversal

  /** The path of a place: its components between separators, a final one where it is spelled, or a single dot. */
  predicate Located(path: bytes, c: Candidate)
  {
    if c.components == [] then path == [0x2e]
    else path == if c.trailing then Paths.Join(c.components) + [0x2f] else Paths.Join(c.components)
  }

  // Artifacts.

  predicate LowTwelve(mode: nat, low: int)
  {
    0 <= low < 4096 && (mode - low) % 4096 == 0
  }

  /** The target that was read, or as much of it as had been measured and one octet more. */
  predicate AsRead(target: bytes, measured: nat, said: bytes)
  {
    said <= target && |said| == if |target| < measured + 1 then |target| else measured + 1
  }

  predicate TellsBegin(c: Candidate, o: Observation, r: Record)
  {
    r.ArtifactBegin? && r.role == c.role && Located(r.path, c)
    && match o
       case DirectorySeen(mode) =>
         r.fileType == Directory && LowTwelve(mode, r.mode) && r.target == None && r.sizeExpected == None
       case LinkSeen(mode, size, Some(target)) =>
         && r.fileType == Symlink && LowTwelve(mode, r.mode) && r.sizeExpected == None
         && r.target.Some? && AsRead(target, size, r.target.value)
       case FileSeen(mode, size, _, _, _, _) =>
         r.fileType == Regular && LowTwelve(mode, r.mode) && r.target == None && r.sizeExpected == Some(size)
       case _ => false
  }

  /** Reading `i` brought octets, and nothing before it ended the file. */
  predicate Brings(readings: seq<Read>, i: nat)
  {
    i < |readings| && readings[i].Data? && readings[i].data != [] && NotOver(readings, i)
  }

  function Brought(readings: seq<Read>, n: nat): nat
    requires n <= |readings|
  {
    if n == 0 then 0 else Brought(readings, n - 1) + if Brings(readings, n - 1) then 1 else 0
  }

  /** These are the octet strings that the readings brought, in their order. */
  predicate Follows(readings: seq<Read>, data: seq<bytes>)
  {
    && |data| == Brought(readings, |readings|)
    && forall i :: 0 <= i < |readings| && Brings(readings, i) ==>
                     Brought(readings, i) < |data| && data[Brought(readings, i)] == readings[i].data
  }

  predicate TellsChunks(o: Observation, id: nat, chunks: seq<Record>, data: seq<bytes>)
  {
    && (if o.FileSeen? then Follows(o.readings, data) else data == [])
    && |chunks| == |data| && forall k :: 0 <= k < |chunks| ==> chunks[k] == ArtifactChunk(id, k, data[k])
  }

  predicate TellsEnd(o: Observation, id: nat, content: bytes, r: Record)
  {
    && r.ArtifactEnd? && r.id == id && r.size == |content| && r.sha256 == Sha256Hex(content)
    && r.stable == if o.FileSeen? then Some(o.stable && !Fails(o.readings)) else None
  }

  /** A target that was read is the content of a link; octets that were read are that of a file. */
  function Content(o: Observation, begin: Record, data: seq<bytes>): bytes
    requires begin.ArtifactBegin?
  {
    if o.LinkSeen? && begin.target.Some? then begin.target.value else Concat(data)
  }

  /** A group: what it begins with, the octets that were read, and what it ends with. */
  predicate TellsAll(c: Candidate, o: Observation, id: nat, group: seq<Record>, data: seq<bytes>)
  {
    && |group| >= 2 && TellsBegin(c, o, group[0]) && group[0].id == id
    && TellsChunks(o, id, group[1..|group| - 1], data)
    && TellsEnd(o, id, Content(o, group[0], data), group[|group| - 1])
  }

  ghost predicate TellsGroup(c: Candidate, o: Observation, id: nat, group: seq<Record>)
  {
    exists data: seq<bytes> :: TellsAll(c, o, id, group, data)
  }

  lemma PathLocated(c: Candidate)
    ensures Located(PathOf(c), c)
  {
    hide Paths.Join;
    if c.components != [] {
      assert Paths.Join(c.components) + [] == Paths.Join(c.components);
    }
  }

  lemma BeginTells(c: Candidate, o: Observation, id: nat)
    requires Captured(o)
    ensures TellsBegin(c, o, BeginOf(c, o, id)) && BeginOf(c, o, id).id == id
  {
    PathLocated(c);
    hide PathOf, Located;
  }

  /** The readings without the first, counted from there. */
  lemma {:induction false} BroughtLater(readings: seq<Read>, n: nat)
    requires readings != [] && n < |readings|
    ensures readings[0] == Interrupted ==> Brought(readings, n + 1) == Brought(readings[1..], n)
    ensures readings[0].Data? && readings[0].data != [] ==> Brought(readings, n + 1) == 1 + Brought(readings[1..], n)
    ensures readings[0] == Failed || readings[0] == Data([]) ==> Brought(readings, n + 1) == 0
  {
    if n == 0 {
      assert Brought(readings, 0) == 0;
    } else {
      BroughtLater(readings, n - 1);
      OverLater(readings, n - 1);
    }
  }

  /** One more reading in front of those that follow. */
  lemma FollowsLater(readings: seq<Read>, i: nat)
    requires readings != [] && i < |readings| && Brings(readings, i) && Follows(readings[1..], ReadData(readings[1..]))
    ensures Brought(readings, i) < |ReadData(readings)|
    ensures ReadData(readings)[Brought(readings, i)] == readings[i].data
  {
    if i > 0 {
      hide Brought;
      assert readings[0] != Failed && readings[0] != Data([]);
      OverLater(readings, i - 1);
      BroughtLater(readings, i - 1);
      assert Brings(readings[1..], i - 1);
    }
  }

  lemma {:induction false} DataFollows(readings: seq<Read>)
    ensures Follows(readings, ReadData(readings))
  {
    if readings != [] {
      DataFollows(readings[1..]);
      forall i | 0 <= i < |readings| && Brings(readings, i)
        ensures Brought(readings, i) < |ReadData(readings)|
        ensures ReadData(readings)[Brought(readings, i)] == readings[i].data
      {
        FollowsLater(readings, i);
      }
      hide Brings, Brought;
      BroughtLater(readings, |readings| - 1);
    }
  }

  lemma ChunksTell(o: Observation, id: nat)
    ensures TellsChunks(o, id, ChunkRecords(id, ChunksOf(o)), ChunksOf(o))
  {
    hide Follows, ReadData;
    if o.FileSeen? {
      DataFollows(o.readings);
    }
  }

  lemma EndTells(c: Candidate, o: Observation, id: nat)
    requires Captured(o)
    ensures TellsEnd(o, id, Content(o, BeginOf(c, o, id), ChunksOf(o)), EndOf(o, id))
  {
    hide Sha256Hex, PathOf, ReadData, Fails, ReadFails;
    if o.FileSeen? {
      FailsIs(o.readings);
    }
    NothingRead(o);
  }

  lemma GroupTells(c: Candidate, o: Observation, id: nat)
    requires Captured(o)
    ensures TellsGroup(c, o, id, GroupRecords(c, o, id))
  {
    hide TellsBegin, TellsChunks, TellsEnd, BeginOf, EndOf, ChunksOf, Content;
    var group, chunks := GroupRecords(c, o, id), ChunkRecords(id, ChunksOf(o));
    BeginTells(c, o, id);
    ChunksTell(o, id);
    EndTells(c, o, id);
    assert group[1..|group| - 1] == chunks;
    assert group[0] == BeginOf(c, o, id) && group[|group| - 1] == EndOf(o, id);
    assert TellsAll(c, o, id, group, ChunksOf(o));
  }

  lemma NothingRead(o: Observation)
    ensures !o.FileSeen? ==> Concat(ChunksOf(o)) == []
  {
  }

  /** The groups stand one after the other, one for every captured candidate, numbered from zero. */
  ghost predicate TellsGroups(cs: seq<Candidate>, world: World, records: seq<Record>, id: nat)
    decreases |cs|
  {
    if cs == [] then records == [] && id == 0
    else
      var c := cs[|cs| - 1];
      if Captured(world(c)) then
        id > 0 && exists n :: 0 <= n <= |records|
                              && TellsGroup(c, world(c), id - 1, records[n..])
                              && TellsGroups(cs[..|cs| - 1], world, records[..n], id - 1)
      else TellsGroups(cs[..|cs| - 1], world, records, id)
  }

  lemma {:induction false} GroupsTell(cs: seq<Candidate>, world: World, n: nat)
    requires n <= |cs|
    ensures TellsGroups(cs[..n], world, GroupsRecords(cs, world, n), CapturedCount(cs, world, n))
  {
    hide TellsGroup, GroupRecords, Captured;
    if n > 0 {
      var c, id, before := cs[n - 1], CapturedCount(cs, world, n - 1), GroupsRecords(cs, world, n - 1);
      GroupsTell(cs, world, n - 1);
      assert cs[..n][..n - 1] == cs[..n - 1];
      if Captured(world(c)) {
        GroupTells(c, world(c), id);
        var all := before + GroupRecords(c, world(c), id);
        assert all[|before|..] == GroupRecords(c, world(c), id) && all[..|before|] == before;
      } else {
        NoGroup(c, world(c), id);
        assert before + [] == before;
      }
    }
  }

  lemma NoGroup(c: Candidate, o: Observation, id: nat)
    requires !Captured(o)
    ensures GroupRecords(c, o, id) == []
  {
  }

  // Configuration.

  /** How many of the first `n` files could be read again. */
  function Readable(files: seq<Candidate>, reread: C.Reread, n: nat): nat
    requires n <= |files|
  {
    if n == 0 then 0 else Readable(files, reread, n - 1) + if reread(files[n - 1]) == None then 0 else 1
  }

  /** A file that could be read again, with its octets, numbered in the order of the paths. */
  predicate TellsSource(files: seq<Candidate>, reread: C.Reread, r: Record)
  {
    r.ConfigSource?
    && exists i :: 0 <= i < |files| && Located(r.path, files[i]) && reread(files[i]) == Some(r.raw)
                   && r.ordinal == Readable(files, reread, i)
  }

  predicate TellsSetting(settings: seq<(bytes, bytes)>, r: Record)
  {
    r.ConfigEntry? && 0 <= r.ordinal < |settings| && settings[r.ordinal] == (r.name, r.value)
  }

  lemma LocatedOnce(c: Candidate, a: bytes, b: bytes)
    requires Located(a, c) && Located(b, c)
    ensures a == b
  {
  }

  lemma {:induction false} ReadableIs(files: seq<Candidate>, reread: C.Reread, n: nat)
    requires n <= |files|
    ensures C.ReadCount(files, reread, n) == Readable(files, reread, n)
  {
    if n > 0 {
      ReadableIs(files, reread, n - 1);
    }
  }

  lemma SourceIff(files: seq<Candidate>, reread: C.Reread, r: Record)
    requires r.ConfigSource?
    ensures r in C.SourceRecords(files, reread, |files|) <==> TellsSource(files, reread, r)
  {
    hide PathOf, Located;
    var all := C.SourceRecords(files, reread, |files|);
    forall i | 0 <= i < |files|
      ensures all[i] == C.SourceRecord(files, reread, i) && Located(PathOf(files[i]), files[i])
      ensures C.ReadCount(files, reread, i) == Readable(files, reread, i)
    {
      ReadableIs(files, reread, i);
      PathLocated(files[i]);
    }
    if TellsSource(files, reread, r) {
      var i :| 0 <= i < |files| && Located(r.path, files[i]) && reread(files[i]) == Some(r.raw)
               && r.ordinal == Readable(files, reread, i);
      LocatedOnce(files[i], r.path, PathOf(files[i]));
      assert all[i] == r;
    }
  }

  lemma SettingIff(settings: seq<(bytes, bytes)>, r: Record)
    requires r.ConfigEntry?
    ensures r in C.SettingRecords(settings) <==> TellsSetting(settings, r)
  {
    var all := C.SettingRecords(settings);
    if TellsSetting(settings, r) {
      assert all[r.ordinal] == r;
    }
  }

  // Whole extractions.

  predicate Plain(r: Record)
  {
    r.ConfigSource? || r.ConfigEntry?
  }

  lemma {:induction false} ArtifactsArePlain(cs: seq<Candidate>, world: World, n: nat, r: Record)
    requires n <= |cs| && Plain(r)
    ensures r !in GroupsRecords(cs, world, n)
  {
    hide GroupRecords;
    if n > 0 {
      ArtifactsArePlain(cs, world, n - 1, r);
      GroupIsArtifact(cs[n - 1], world(cs[n - 1]), CapturedCount(cs, world, n - 1), r);
    }
  }

  lemma GroupIsArtifact(c: Candidate, o: Observation, id: nat, r: Record)
    requires Plain(r)
    ensures r !in GroupRecords(c, o, id)
  {
    hide PathOf, ContentOf, ReadData, StableOf;
    var chunks := ChunkRecords(id, ChunksOf(o));
    assert forall i :: 0 <= i < |chunks| ==> chunks[i].ArtifactChunk?;
  }

  /** No other part of an extraction holds records of the configuration. */
  lemma ConfigurationOnly(m: ModuleFacts, f: Findings, chunkSize: nat, r: Record)
    requires Plain(r)
    ensures r in BodyOf(Some(m), chunkSize, Whole(f)) <==>
            r in C.SourceRecords(f.files, m.reread, |f.files|) || r in C.SettingRecords(m.settings)
  {
    var cs := f.candidates;
    ArtifactsArePlain(cs, m.world, |cs|, r);
    ProblemsDiagnose(cs, m.world, |cs|);
    FindDiagnostics(m.tree);
    ProblemsAreDiagnostics(DiskOf(m, f.files));
    WalkIsPlain(m, f.last, r);
    hide GroupsRecords, Problems, C.FindProblems, Discovery.DiscoveryProblems, WalkOf, C.SourceRecords,
      C.SettingRecords, DiskOf;
  }

  lemma {:induction false} VisitsArePlain(at: Traversal.Cursor, n: nat, r: Record)
    requires Plain(r)
    ensures r !in Traversal.VisitsRecords(at, n)
  {
    hide Traversal.VisitRecords;
    if n > 0 {
      VisitsArePlain(at, n - 1, r);
      VisitIsPlain(at(n - 1), n - 1, r);
    }
  }

  lemma VisitIsPlain(v: Traversal.Visit, ordinal: nat, r: Record)
    requires Plain(r)
    ensures r !in Traversal.VisitRecords(v, ordinal)
  {
    hide Traversal.Normalized, Traversal.Strippable;
  }

  lemma WalkIsPlain(m: ModuleFacts, last: nat, r: Record)
    requires Plain(r)
    ensures r !in WalkOf(m, last)
  {
    hide Traversal.VisitsRecords, Traversal.VisitRecords, Traversal.Stalled;
    VisitsArePlain(m.at, last, r);
    VisitIsPlain(m.at(last), last, r);
  }

  /** In an extraction that ran to its end: the defining files and the settings, once each, and no others. */
  lemma ConfigurationIff(m: ModuleFacts, f: Findings, chunkSize: nat, r: Record)
    requires Plain(r)
    ensures r in BodyOf(Some(m), chunkSize, Whole(f)) <==>
            TellsSource(f.files, m.reread, r) || TellsSetting(m.settings, r)
  {
    hide BodyOf, C.SourceRecords, C.SettingRecords, TellsSource, TellsSetting;
    ConfigurationOnly(m, f, chunkSize, r);
    if r.ConfigSource? {
      SourceIff(f.files, m.reread, r);
      NoSetting(m.settings, r);
    } else {
      SettingIff(m.settings, r);
      NoSource(f.files, m.reread, r);
    }
  }

  lemma NoSetting(settings: seq<(bytes, bytes)>, r: Record)
    requires r.ConfigSource?
    ensures r !in C.SettingRecords(settings) && !TellsSetting(settings, r)
  {
    var all := C.SettingRecords(settings);
    assert forall i :: 0 <= i < |all| ==> all[i].ConfigEntry?;
  }

  lemma NoSource(files: seq<Candidate>, reread: C.Reread, r: Record)
    requires r.ConfigEntry?
    ensures r !in C.SourceRecords(files, reread, |files|) && !TellsSource(files, reread, r)
  {
    hide PathOf, C.ReadCount;
    var all := C.SourceRecords(files, reread, |files|);
    assert forall i :: 0 <= i < |all| ==> all[i] == C.SourceRecord(files, reread, i);
  }

  /** The groups of an extraction that ran to its end tell of every captured candidate. */
  lemma ArtifactsTell(m: ModuleFacts, f: Findings, chunkSize: nat)
    requires 0 < chunkSize <= 0x7fff_ffff_ffff_ffff
    ensures exists groups: seq<Record>, problems: seq<Record> ::
              && BodyOf(Some(m), chunkSize, Whole(f)) == CountedPart(Some(m), f) + (groups + problems)
              && TellsGroups(f.candidates, m.world, groups, CapturedCount(f.candidates, m.world, |f.candidates|))
              && forall i :: 0 <= i < |problems| ==> problems[i].Diagnostic?
  {
    var cs := f.candidates;
    GroupsTell(cs, m.world, |cs|);
    ProblemsDiagnose(cs, m.world, |cs|);
    assert cs[..|cs|] == cs;
    var groups, problems := GroupsRecords(cs, m.world, |cs|), Problems(cs, m.world, |cs|);
    hide CountedPart, GroupsRecords, Problems, TellsGroups;
    assert BodyOf(Some(m), chunkSize, Whole(f)) == CountedPart(Some(m), f) + (groups + problems);
  }
}
