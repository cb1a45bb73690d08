/** The validator accepts exactly the valid documents. */
module Acceptance {
  import opened Bytes
  import opened Records
  import opened Sha256Spec
  import opened Validation
  import opened Grammar
  import Annotation
  import Paths
  import Utf8

  /** The part of a group that has been read before its end. */
  datatype Open = Open(begin: Line, chunks: seq<Line>)

  function OpenLines(open: Option<Open>): seq<Line>
  {
    if open.None? then [] else [open.value.begin] + open.value.chunks
  }

  predicate OpenShape(open: Option<Open>)
  {
    open.Some? ==>
      open.value.begin.record.ArtifactBegin?
      && forall i :: 0 <= i < |open.value.chunks| ==> open.value.chunks[i].record.ArtifactChunk?
  }

  /** The validator's view of an open group. */
  function ActiveOf(open: Open, chunkSize: int): ActiveArtifact
    requires OpenShape(Some(open))
    decreases |open.chunks|
  {
    if open.chunks == [] then Opened(open.begin.record)
    else
      var n := |open.chunks| - 1;
      Absorb(ActiveOf(Open(open.begin, open.chunks[..n]), chunkSize), chunkSize, open.chunks[n].record.data)
  }

  /** The last section reached. */
  function Phase(items: seq<Item>): nat
  {
    if items == [] then 0
    else
      var before, last := Phase(items[..|items| - 1]), Section(items[|items| - 1]);
      if last > before then last else before
  }

  lemma {:induction false} PhaseIs(items: seq<Item>, section: nat)
    ensures Phase(items) <= section <==> NothingAfterSection(items, section)
  {
    hide Section;
    if items != [] {
      var n := |items| - 1;
      PhaseIs(items[..n], section);
      assert forall i :: 0 <= i < n ==> items[..n][i] == items[i];
    }
  }

  // The simulation relation, in two halves.

  /** What the validator keeps about the lines as lines. */
  ghost predicate Framing(s: State, lines: seq<Line>)
  {
    s.sequence == |lines| && Sequenced(lines) && s.hashed == RawOf(lines)
    && CountsAgree(s.counts, lines) && s.footer.None?
  }

  /** What the validator keeps about the records. */
  ghost predicate Holds(s: State, h: Record, items: seq<Item>, open: Option<Open>)
  {
    && h.Header? && HeaderOk(h.command, h.chunkSize) && Shaped(items) && OpenShape(open)
    && s.header == Some(h) && s.command == h.command
    && (h.command == Extract ==> s.chunkSize == h.chunkSize)
    && (open.Some? ==> h.command == Extract)
    && s.phase == (if open.Some? then 5 else Phase(items))
    && s.moduleCount == Count(items, ModuleType)
    && s.configSourceOrdinal == Count(items, ConfigSourceType)
    && s.configEntryOrdinal == Count(items, ConfigEntryType)
    && s.entryCount == Count(items, EntryType)
    && s.diagnostics == Diagnostics(items)
    && s.artifacts == Artifacts(items)
    && s.artifactPaths == ArtifactPaths(Artifacts(items))
                          + (if open.Some? then {Components(open.value.begin.record)} else {})
    && s.active == (if open.Some? then Some(ActiveOf(open.value, h.chunkSize.value)) else None)
  }

  ghost predicate At(s: State, h: Line, items: seq<Item>, open: Option<Open>)
  {
    Holds(s, h.record, items, open) && Framing(s, BodyLines(h, items) + OpenLines(open))
  }

  // Framing.

  lemma CountsSnoc(counts: map<RecordType, int>, lines: seq<Line>, line: Line)
    requires CountsAgree(counts, lines)
    ensures CountsAgree(Increment(counts, TypeOf(line.record)), lines + [line])
  {
    hide TypeOf;
    assert (lines + [line])[..|lines|] == lines;
  }

  lemma FramingStep(s: State, lines: seq<Line>, line: Line)
    requires Framing(s, lines) && !line.record.Footer?
    ensures Step(s, line).Some? <==> line.sequence == |lines| && StepRecord(s, line.record).Some?
    ensures Step(s, line).Some? ==> Framing(Step(s, line).value, lines + [line])
  {
    hide CountsAgree, Increment, TypeOf, RawOf;
    CountsSnoc(s.counts, lines, line);
    RawOfSnoc(lines, line);
    if Step(s, line).Some? {
      RecordKeepsFraming(s, line.record);
    }
  }

  lemma RecordKeepsFraming(s: State, r: Record)
    requires !r.Footer? && StepRecord(s, r).Some?
    ensures StepRecord(s, r).value.footer == s.footer
  {
  }

  /** The framing fields do not matter to the other half. */
  lemma HoldsAfterStep(s: State, line: Line, h: Record, items: seq<Item>, open: Option<Open>)
    requires !line.record.Footer? && Step(s, line).Some?
    requires Holds(StepRecord(s, line.record).value, h, items, open)
    ensures Holds(Step(s, line).value, h, items, open)
  {
    hide StepRecord, Artifacts, Count, Diagnostics, Phase, ActiveOf;
  }

  // One record.

  lemma TextIs(b: bytes)
    ensures Utf8.Valid(b) <==> IsText(b)
  {
    hide Utf8.Valid;
    if Utf8.Valid(b) {
      var text := Utf8.ValidIsEncoded(b);
    }
    if IsText(b) {
      var text: seq<Utf8.scalar> :| Utf8.EncodeAll(text) == b;
      Utf8.EncodedIsValid(text);
    }
  }

  lemma RelativeIs(path: bytes)
    ensures Paths.RelativePath(path, false).Some? <==> IsRelative(path)
  {
    hide Paths.RelativePath, Paths.NormalComponents, Paths.Join;
    if Paths.RelativePath(path, false).Some? {
      Paths.RelativePathIs(path, false, Paths.RelativePath(path, false).value);
      assert Spells(path, Paths.RelativePath(path, false).value, false);
    }
    if IsRelative(path) {
      var components :| Spells(path, components, false);
      Paths.RelativePathIs(path, false, components);
    }
  }

  /** What the validator checks of a header, an entry and an artifact_begin is what the grammar asks of them. */
  lemma HeaderIs(command: Command, chunkSize: Option<int>)
    ensures HeaderOk(command, chunkSize) <==> HeaderStands(command, chunkSize)
  {
  }

  lemma EntryIs(e: EntryData)
    ensures EntryOk(e) <==> EntryStands(e)
  {
    hide Utf8.Valid, IsText, Concat, Annotation.RawParts;
    if e.normalizedRaw.Some? {
      TextIs(e.normalizedRaw.value);
    }
    if e.normalizedStripped.Some? {
      TextIs(e.normalizedStripped.value);
    }
  }

  lemma BeginIs(r: Record)
    requires r.ArtifactBegin?
    ensures BeginOk(r) <==> BeginStands(r)
  {
    hide Paths.RelativePath, Paths.NormalComponents, Paths.Join;
    var found := Paths.RelativePath(r.path, r.fileType == Directory);
    Paths.RelativePathIs(r.path, r.fileType == Directory, Components(r));
    assert found.Some? ==> found == Some(Components(r));
  }

  /** The sizes of the artifacts are those of what the groups hold. */
  lemma {:induction false} SizesAre(items: seq<Item>)
    requires Shaped(items)
    ensures TotalSize(Artifacts(items)) == Octets(items)
  {
    hide GroupContent, Sha256Hex, Components, ItemShape;
    if items != [] {
      var n := |items| - 1;
      SizesAre(items[..n]);
      if items[n].Group? {
        var artifacts := Artifacts(items[..n]);
        assert (artifacts + [GroupArtifact(items[n])])[..|artifacts|] == artifacts;
      }
    }
  }

  lemma DiagnosticsSnoc(items: seq<Item>, item: Item)
    ensures Diagnostics(items + [item]) ==
            if item.Single? && item.line.record.Diagnostic?
            then CountDiagnostic(Diagnostics(items), item.line.record.severity) else Diagnostics(items)
  {
    assert (items + [item])[..|items|] == items;
  }

  lemma ItemsSnoc(items: seq<Item>, item: Item)
    requires Shaped(items) && ItemShape(item)
    ensures Shaped(items + [item])
    ensures forall t :: Count(items + [item], t) ==
                        Count(items, t) + if item.Single? && TypeOf(item.line.record) == t then 1 else 0
    ensures Diagnostics(items + [item]) ==
            if item.Single? && item.line.record.Diagnostic?
            then CountDiagnostic(Diagnostics(items), item.line.record.severity) else Diagnostics(items)
    ensures Artifacts(items + [item]) == Artifacts(items) + if item.Group? then [GroupArtifact(item)] else []
    ensures Phase(items + [item]) == if Section(item) > Phase(items) then Section(item) else Phase(items)
    ensures ItemsLines(items + [item]) == ItemsLines(items) + ItemLines(item)
  {
    DiagnosticsSnoc(items, item);
    hide TypeOf, Section, GroupArtifact, ItemShape, CountDiagnostic, ItemLines, Diagnostics;
    assert (items + [item])[..|items|] == items;
  }

  /** `_validate_record` dispatches on the record type. */
  lemma Dispatch(s: State, r: Record)
    requires s.header.Some? && !r.Footer? && !r.Header?
    ensures StepRecord(s, r) ==
            match r
            case Module => StepModule(s)
            case ConfigSource(_, _, _) => StepConfigSource(s, r)
            case ConfigEntry(_, _, _) => StepConfigEntry(s, r)
            case Entry(_) => StepEntry(s, r)
            case ArtifactBegin(_, _, _, _, _, _, _) => StepBegin(s, r)
            case ArtifactChunk(_, _, _) => StepChunk(s, r)
            case ArtifactEnd(_, _, _, _) => StepEnd(s, r)
            case Diagnostic(_, _) => StepDiagnostic(s, r)
  {
  }

  lemma SingleAccepts(s: State, h: Record, items: seq<Item>, line: Line)
    requires Holds(s, h, items, None) && ItemShape(Single(line))
    ensures StepRecord(s, line.record).Some? <==> ItemOk(h, items, Single(line))
  {
    Dispatch(s, line.record);
    PhaseIs(items, 1);
    PhaseIs(items, 2);
    PhaseIs(items, 3);
    PhaseIs(items, 4);
    if line.record.Entry? {
      EntryIs(line.record.entry);
    } else if line.record.ConfigSource? {
      RelativeIs(line.record.path);
    }
    hide StepRecord, EntryOk, EntryStands, IsRelative, Paths.RelativePath, Count, Diagnostics, Artifacts, Phase,
      NothingAfterSection, HeaderOk, Shaped, ArtifactPaths, CountDiagnostic;
  }

  lemma SingleHolds(s: State, h: Record, items: seq<Item>, line: Line)
    requires Holds(s, h, items, None) && ItemShape(Single(line)) && StepRecord(s, line.record).Some?
    ensures Holds(StepRecord(s, line.record).value, h, items + [Single(line)], None)
  {
    Dispatch(s, line.record);
    ItemsSnoc(items, Single(line));
    hide StepRecord, EntryOk, Paths.RelativePath, Count, Diagnostics, Artifacts, Phase, NothingAfterSection, HeaderOk,
      Shaped, ArtifactPaths, CountDiagnostic;
  }

  lemma SingleStep(s: State, h: Record, items: seq<Item>, line: Line)
    requires Holds(s, h, items, None) && ItemShape(Single(line))
    ensures StepRecord(s, line.record).Some? <==> ItemOk(h, items, Single(line))
    ensures StepRecord(s, line.record).Some? ==>
              Holds(StepRecord(s, line.record).value, h, items + [Single(line)], None)
  {
    SingleAccepts(s, h, items, line);
    if StepRecord(s, line.record).Some? {
      SingleHolds(s, h, items, line);
    }
    hide StepRecord, Holds;
    assert ItemOk(h, items, Single(line)) <==> StepRecord(s, line.record).Some?;
  }

  lemma BeginStep(s: State, h: Record, items: seq<Item>, line: Line)
    requires Holds(s, h, items, None) && line.record.ArtifactBegin?
    ensures StepRecord(s, line.record).Some? <==>
              InExtract(h, items, 5) && BeginOk(line.record) && line.record.id == |Artifacts(items)|
              && Components(line.record) !in ArtifactPaths(Artifacts(items))
    ensures StepRecord(s, line.record).Some? ==>
              Holds(StepRecord(s, line.record).value, h, items, Some(Open(line, [])))
  {
    hide BeginOk, Components, Count, Diagnostics, Artifacts, ArtifactPaths, Phase, NothingAfterSection, HeaderOk,
      Shaped;
    PhaseIs(items, 5);
    assert Shaped(items);
  }

  /** The chunks read so far: what the group grammar asks of them, should no more follow. */
  predicate ChunksOk(open: Open, chunkSize: int)
    requires OpenShape(Some(open))
  {
    && (open.begin.record.fileType != Regular ==> open.chunks == [])
    && forall i :: 0 <= i < |open.chunks| ==>
         ChunkInPlace(open.chunks[i].record, open.begin.record.id, i, |open.chunks|, chunkSize)
  }

  /** What the validator knows of an open group is what its lines say. */
  lemma {:induction false} ActiveIs(open: Open, chunkSize: int)
    requires OpenShape(Some(open)) && ChunksOk(open, chunkSize)
    ensures var a := ActiveOf(open, chunkSize);
            && a.hashed == Concat(Datas(open.chunks)) && a.size == |a.hashed|
            && a.chunks == |open.chunks|
            && a.shortChunkSeen == (open.chunks != [] && |open.chunks[|open.chunks| - 1].record.data| < chunkSize)
            && a == Opened(open.begin.record).(hashed := a.hashed, size := a.size, chunks := a.chunks,
                                               shortChunkSeen := a.shortChunkSeen)
    decreases |open.chunks|
  {
    hide Opened, Concat;
    if open.chunks == [] {
      NothingHashed(open);
    } else {
      var n := |open.chunks| - 1;
      var shorter := Open(open.begin, open.chunks[..n]);
      forall i | 0 <= i < n
        ensures ChunkInPlace(shorter.chunks[i].record, open.begin.record.id, i, n, chunkSize)
      {
        assert ChunkInPlace(open.chunks[i].record, open.begin.record.id, i, n + 1, chunkSize);
      }
      ActiveIs(shorter, chunkSize);
      ConcatSnoc(Datas(shorter.chunks), open.chunks[n].record.data);
      assert Datas(open.chunks) == Datas(shorter.chunks) + [open.chunks[n].record.data];
    }
  }

  lemma NothingHashed(open: Open)
    requires OpenShape(Some(open)) && open.chunks == []
    ensures Concat(Datas(open.chunks)) == []
    ensures var a := Opened(open.begin.record); a.hashed == [] && a.size == 0 && a.chunks == 0 && !a.shortChunkSeen
  {
  }

  function More(open: Open, line: Line): Open { Open(open.begin, open.chunks + [line]) }

  /** One more chunk is accepted exactly when the longer list still fits the grammar. */
  lemma ChunkOkIs(open: Open, line: Line, chunkSize: int)
    requires OpenShape(Some(open)) && ChunksOk(open, chunkSize) && line.record.ArtifactChunk?
    ensures ChunkOk(ActiveOf(open, chunkSize), Some(chunkSize), line.record) <==> ChunksOk(More(open, line), chunkSize)
  {
    hide ActiveOf;
    ActiveIs(open, chunkSize);
    var n := |open.chunks|;
    var more := More(open, line);
    var id := open.begin.record.id;
    assert more.chunks[n] == line;
    assert forall i :: 0 <= i < n ==> more.chunks[i] == open.chunks[i];
    if ChunksOk(more, chunkSize) {
      assert ChunkInPlace(more.chunks[n].record, id, n, n + 1, chunkSize);
      if n > 0 {
        assert ChunkInPlace(more.chunks[n - 1].record, id, n - 1, n + 1, chunkSize);
      }
    }
    if ChunkOk(ActiveOf(open, chunkSize), Some(chunkSize), line.record) {
      forall i | 0 <= i < n + 1
        ensures ChunkInPlace(more.chunks[i].record, id, i, n + 1, chunkSize)
      {
        if i < n {
          assert ChunkInPlace(open.chunks[i].record, id, i, n, chunkSize);
        }
      }
    }
  }

  lemma ChunkStep(s: State, h: Record, items: seq<Item>, open: Open, line: Line)
    requires Holds(s, h, items, Some(open)) && ChunksOk(open, h.chunkSize.value) && line.record.ArtifactChunk?
    ensures StepRecord(s, line.record).Some? <==> ChunksOk(More(open, line), h.chunkSize.value)
    ensures StepRecord(s, line.record).Some? ==>
              Holds(StepRecord(s, line.record).value, h, items, Some(More(open, line)))
  {
    Dispatch(s, line.record);
    ChunkOkIs(open, line, h.chunkSize.value);
    hide StepRecord, HeaderOk, ChunkOk, ChunksOk, Components, Count, Diagnostics, Artifacts, ArtifactPaths, Phase,
      Shaped, Absorb;
    var more := More(open, line);
    assert more.chunks[..|open.chunks|] == open.chunks;
    assert OpenShape(Some(more));
    assert ActiveOf(more, h.chunkSize.value) ==
           Absorb(ActiveOf(open, h.chunkSize.value), h.chunkSize.value, line.record.data);
  }

  /** The end of a group against the octets the group carries. */
  predicate EndInPlace(g: Item)
    requires g.Group? && ItemShape(g)
  {
    var b, e := g.begin.record, g.end.record;
    && e.id == b.id && e.size == |GroupContent(g)| && e.sha256 == Sha256Hex(GroupContent(g))
    && (b.fileType == Regular ==>
          e.stable.Some? && (e.stable.value ==> b.sizeExpected == Some(|GroupContent(g)|)))
  }

  lemma EndOkIs(open: Open, line: Line, chunkSize: int)
    requires OpenShape(Some(open)) && ChunksOk(open, chunkSize) && line.record.ArtifactEnd?
    requires BeginOk(open.begin.record)
    ensures var a, g := ActiveOf(open, chunkSize), Group(open.begin, open.chunks, line);
            && (EndOk(a, line.record) <==> EndInPlace(g))
            && (EndOk(a, line.record) ==> Closed(a, line.record) == GroupArtifact(g))
  {
    hide ActiveOf, ChunksOk, Components, Concat, Sha256Hex;
    ActiveIs(open, chunkSize);
  }

  lemma EndAccepts(s: State, h: Record, items: seq<Item>, open: Open, line: Line)
    requires Holds(s, h, items, Some(open)) && ChunksOk(open, h.chunkSize.value) && line.record.ArtifactEnd?
    requires BeginOk(open.begin.record)
    ensures StepRecord(s, line.record).Some? <==> EndInPlace(Group(open.begin, open.chunks, line))
    ensures StepRecord(s, line.record).Some? ==>
              StepRecord(s, line.record).value ==
              s.(artifacts := s.artifacts + [GroupArtifact(Group(open.begin, open.chunks, line))], active := None)
  {
    HoldsOpen(s, h, items, open);
    Dispatch(s, line.record);
    EndOkIs(open, line, h.chunkSize.value);
    hide Holds, StepRecord, EndOk, Closed, EndInPlace, ChunksOk, BeginOk, GroupContent, GroupArtifact, Sha256Hex,
      ActiveOf;
  }

  lemma HoldsOpen(s: State, h: Record, items: seq<Item>, open: Open)
    requires Holds(s, h, items, Some(open))
    ensures s.phase == 5 && s.header.Some?
    ensures OpenShape(Some(open)) && h.Header? && h.chunkSize.Some?
    ensures s.active == Some(ActiveOf(open, h.chunkSize.value))
  {
    hide Count, Diagnostics, Artifacts, ArtifactPaths, Components, Phase, ActiveOf;
  }

  lemma EndHolds(s: State, h: Record, items: seq<Item>, open: Open, g: Item)
    requires Holds(s, h, items, Some(open)) && g.Group? && ItemShape(g) && g.begin == open.begin
    ensures Holds(s.(artifacts := s.artifacts + [GroupArtifact(g)], active := None), h, items + [g], None)
  {
    hide Sha256Hex, TotalSize, Concat;
    ItemsSnoc(items, g);
    PathsSnoc(Artifacts(items), g);
    SectionsEnd(items);
    hide GroupContent, Diagnostics, ItemShape, Components, Count, Artifacts, Phase, ActiveOf, GroupArtifact,
      ArtifactPaths, HeaderOk, TypeOf, OpenShape, Shaped;
    assert Shaped(items + [g]);
    assert OpenShape(None) by { OpenShapeOfNone(); }
  }

  lemma OpenShapeOfNone()
    ensures OpenShape(None)
  {
  }

  lemma EndStep(s: State, h: Record, items: seq<Item>, open: Open, line: Line)
    requires Holds(s, h, items, Some(open)) && ChunksOk(open, h.chunkSize.value) && line.record.ArtifactEnd?
    requires BeginOk(open.begin.record)
    ensures var g := Group(open.begin, open.chunks, line);
            && (StepRecord(s, line.record).Some? <==> EndInPlace(g))
            && (StepRecord(s, line.record).Some? ==>
                  Holds(StepRecord(s, line.record).value, h, items + [g], None))
  {
    EndAccepts(s, h, items, open, line);
    EndHolds(s, h, items, open, Group(open.begin, open.chunks, line));
    hide Holds, StepRecord, EndInPlace, GroupArtifact;
  }

  lemma PathsSnoc(artifacts: seq<Artifact>, g: Item)
    requires g.Group? && ItemShape(g)
    ensures ArtifactPaths(artifacts + [GroupArtifact(g)]) == ArtifactPaths(artifacts) + {Components(g.begin.record)}
  {
    hide Components, GroupContent, Sha256Hex;
    var last := GroupArtifact(g);
    assert last.components == Components(g.begin.record);
    forall c | c in ArtifactPaths(artifacts) + {Components(g.begin.record)}
      ensures c in ArtifactPaths(artifacts + [last])
    {
      if c == last.components {
        assert last in artifacts + [last];
      } else {
        var a :| a in artifacts && a.components == c;
        assert a in artifacts + [last];
      }
    }
  }

  lemma {:induction false} SectionsEnd(items: seq<Item>)
    ensures Phase(items) <= 5
  {
    hide Phase;
    PhaseIs(items, 5);
  }

  // One line.

  function Lines(h: Line, items: seq<Item>, open: Option<Open>): seq<Line>
  {
    BodyLines(h, items) + OpenLines(open)
  }

  lemma AtSingle(s: State, h: Line, items: seq<Item>, line: Line)
    requires At(s, h, items, None) && ItemShape(Single(line))
    ensures Step(s, line).Some? <==>
              line.sequence == |BodyLines(h, items)| && ItemOk(h.record, items, Single(line))
    ensures Step(s, line).Some? ==> At(Step(s, line).value, h, items + [Single(line)], None)
  {
    hide Holds, Framing, Step, StepRecord, ItemOk, ItemsLines, HeaderOk;
    AtFacts(s, h, items, None);
    assert Lines(h, items, None) == BodyLines(h, items);
    FramingStep(s, BodyLines(h, items), line);
    SingleStep(s, h.record, items, line);
    ItemsSnoc(items, Single(line));
    if Step(s, line).Some? {
      HoldsAfterStep(s, line, h.record, items + [Single(line)], None);
      assert Lines(h, items + [Single(line)], None) == BodyLines(h, items) + [line];
    }
  }

  lemma AtFacts(s: State, h: Line, items: seq<Item>, open: Option<Open>)
    requires At(s, h, items, open)
    ensures h.record.Header? && Shaped(items) && OpenShape(open) && s.footer.None? && s.header.Some?
    ensures Sequenced(Lines(h, items, open))
    ensures open.Some? ==> h.record.command == Extract && h.record.chunkSize.Some?
  {
    hide Artifacts, Count, Diagnostics, Phase, ActiveOf, ArtifactPaths, CountsAgree, RawOf, Components;
  }

  lemma AtBegin(s: State, h: Line, items: seq<Item>, line: Line)
    requires At(s, h, items, None) && line.record.ArtifactBegin?
    ensures h.record.Header? && Shaped(items)
    ensures Step(s, line).Some? <==>
              line.sequence == |BodyLines(h, items)|
              && InExtract(h.record, items, 5) && BeginOk(line.record) && line.record.id == |Artifacts(items)|
              && Components(line.record) !in ArtifactPaths(Artifacts(items))
    ensures Step(s, line).Some? ==> At(Step(s, line).value, h, items, Some(Open(line, [])))
  {
    hide Holds, Framing, Step, StepRecord, ItemsLines, BeginOk, Components, ArtifactPaths, Artifacts, InExtract;
    AtFacts(s, h, items, None);
    assert Lines(h, items, None) == BodyLines(h, items);
    FramingStep(s, BodyLines(h, items), line);
    BeginStep(s, h.record, items, line);
    if Step(s, line).Some? {
      HoldsAfterStep(s, line, h.record, items, Some(Open(line, [])));
      assert Lines(h, items, Some(Open(line, []))) == BodyLines(h, items) + [line];
    }
  }

  lemma AtChunk(s: State, h: Line, items: seq<Item>, open: Open, line: Line)
    requires At(s, h, items, Some(open)) && line.record.ArtifactChunk?
    requires h.record.Header? && h.record.chunkSize.Some? && OpenShape(Some(open))
    requires ChunksOk(open, h.record.chunkSize.value)
    ensures Step(s, line).Some? <==>
              line.sequence == |Lines(h, items, Some(open))| && ChunksOk(More(open, line), h.record.chunkSize.value)
    ensures Step(s, line).Some? ==> At(Step(s, line).value, h, items, Some(More(open, line)))
  {
    hide Holds, Framing, Step, StepRecord, ItemsLines, ChunksOk;
    var lines := Lines(h, items, Some(open));
    FramingStep(s, lines, line);
    ChunkStep(s, h.record, items, open, line);
    if Step(s, line).Some? {
      HoldsAfterStep(s, line, h.record, items, Some(More(open, line)));
      assert Lines(h, items, Some(More(open, line))) == lines + [line];
    }
  }

  lemma AtEnd(s: State, h: Line, items: seq<Item>, open: Open, line: Line)
    requires At(s, h, items, Some(open)) && line.record.ArtifactEnd?
    requires h.record.Header? && h.record.chunkSize.Some? && OpenShape(Some(open))
    requires ChunksOk(open, h.record.chunkSize.value) && BeginOk(open.begin.record)
    ensures var g := Group(open.begin, open.chunks, line);
            && (Step(s, line).Some? <==> line.sequence == |Lines(h, items, Some(open))| && EndInPlace(g))
            && (Step(s, line).Some? ==> At(Step(s, line).value, h, items + [g], None))
  {
    hide Holds, Framing, Step, StepRecord, ChunksOk, BeginOk, EndInPlace;
    AtFacts(s, h, items, Some(open));
    var g := Group(open.begin, open.chunks, line);
    var lines := Lines(h, items, Some(open));
    FramingStep(s, lines, line);
    EndStep(s, h.record, items, open, line);
    LinesSnoc(h, items, g);
    hide ItemsLines, Lines, GroupContent, Sha256Hex;
    if Step(s, line).Some? {
      HoldsAfterStep(s, line, h.record, items + [g], None);
    }
  }

  lemma ItemsLinesSnoc(items: seq<Item>, item: Item)
    ensures ItemsLines(items + [item]) == ItemsLines(items) + ItemLines(item)
  {
    hide ItemLines;
    assert (items + [item])[..|items|] == items;
  }

  lemma Associates(a: seq<Line>, b: seq<Line>, c: seq<Line>)
    ensures a + (b + c) == a + b + c
  {
  }

  lemma LinesSnoc(h: Line, items: seq<Item>, item: Item)
    ensures Lines(h, items + [item], None) == Lines(h, items, None) + ItemLines(item)
    ensures item.Group? ==>
              Lines(h, items, Some(Open(item.begin, item.chunks))) + [item.end] == Lines(h, items + [item], None)
  {
    NoOpenLines(h, items);
    NoOpenLines(h, items + [item]);
    ItemsLinesSnoc(items, item);
    hide ItemLines, ItemsLines, Lines;
    Associates([h], ItemsLines(items), ItemLines(item));
    if item.Group? {
      GroupLines(item);
      WholeGroup(h, items, Open(item.begin, item.chunks));
      Associates(Lines(h, items, None), [item.begin] + item.chunks, [item.end]);
      Associates(Lines(h, items, None), [item.begin], item.chunks);
    }
  }

  lemma GroupLines(item: Item)
    requires item.Group?
    ensures ItemLines(item) == [item.begin] + item.chunks + [item.end]
  {
  }

  // A whole item.

  lemma RunSnoc(s: State, lines: seq<Line>, line: Line)
    ensures Run(s, lines + [line]) ==
            if Run(s, lines).None? then None else Step(Run(s, lines).value, line)
  {
    hide Step;
    RunAppend(s, lines, [line]);
  }

  lemma SequencedSnoc(lines: seq<Line>, line: Line)
    ensures Sequenced(lines + [line]) <==> Sequenced(lines) && line.sequence == |lines|
  {
    assert (lines + [line])[|lines|] == line;
    assert forall i :: 0 <= i < |lines| ==> (lines + [line])[i] == lines[i];
  }

  lemma SequencedPrefix(lines: seq<Line>, more: seq<Line>)
    requires Sequenced(lines + more)
    ensures Sequenced(lines)
  {
    assert forall i :: 0 <= i < |lines| ==> (lines + more)[i] == lines[i];
  }

  lemma ChunksOkShorter(open: Open, line: Line, chunkSize: int)
    requires OpenShape(Some(More(open, line))) && ChunksOk(More(open, line), chunkSize)
    ensures OpenShape(Some(open)) && ChunksOk(open, chunkSize)
  {
    var more := More(open, line);
    forall i | 0 <= i < |open.chunks|
      ensures open.chunks[i].record.ArtifactChunk?
      ensures ChunkInPlace(open.chunks[i].record, open.begin.record.id, i, |open.chunks|, chunkSize)
    {
      assert more.chunks[i] == open.chunks[i];
      assert ChunkInPlace(more.chunks[i].record, open.begin.record.id, i, |more.chunks|, chunkSize);
    }
  }

  /** The chunk lines of a group run through exactly when they are in place and in sequence. */
  lemma {:induction false} ChunksRun(s: State, h: Line, items: seq<Item>, open: Open)
    requires At(s, h, items, Some(Open(open.begin, []))) && OpenShape(Some(open))
    requires h.record.Header? && h.record.chunkSize.Some?
    requires open.begin.record.fileType == Regular || open.chunks == []
    ensures Run(s, open.chunks).Some? <==>
              ChunksOk(open, h.record.chunkSize.value) && Sequenced(Lines(h, items, Some(open)))
    ensures Run(s, open.chunks).Some? ==> At(Run(s, open.chunks).value, h, items, Some(open))
    decreases |open.chunks|
  {
    hide At, Step;
    if open.chunks == [] {
      AtFacts(s, h, items, Some(open));
    } else {
      hide ChunksOk, Sequenced, Run;
      var n := |open.chunks| - 1;
      var line := open.chunks[n];
      var shorter := Open(open.begin, open.chunks[..n]);
      assert open.chunks == shorter.chunks + [line];
      assert More(shorter, line) == open;
      ChunksRun(s, h, items, shorter);
      RunSnoc(s, shorter.chunks, line);
      assert Lines(h, items, Some(open)) == Lines(h, items, Some(shorter)) + [line];
      SequencedSnoc(Lines(h, items, Some(shorter)), line);
      if Run(s, shorter.chunks).Some? {
        AtChunk(Run(s, shorter.chunks).value, h, items, shorter, line);
      } else if ChunksOk(open, h.record.chunkSize.value) {
        ChunksOkShorter(shorter, line, h.record.chunkSize.value);
      }
    }
  }

  /** A whole group: three parts, one condition. */
  lemma GroupOkIs(g: Item, chunkSize: int)
    requires g.Group? && ItemShape(g)
    ensures OpenShape(Some(Open(g.begin, g.chunks)))
    ensures GroupOk(g, chunkSize) <==>
              BeginOk(g.begin.record) && ChunksOk(Open(g.begin, g.chunks), chunkSize) && EndInPlace(g)
  {
    BeginIs(g.begin.record);
    hide BeginOk, BeginStands, ChunkInPlace, GroupContent, Sha256Hex;
  }

  lemma RunOne(s: State, line: Line)
    ensures Run(s, [line]) == Step(s, line)
  {
    hide Step;
    assert [line][1..] == [];
  }

  /** Brackets cannot hold chunks of anything but a regular file. */
  lemma NoChunks(s: State, h: Line, items: seq<Item>, open: Open)
    requires At(s, h, items, Some(Open(open.begin, []))) && OpenShape(Some(open))
    requires h.record.Header? && h.record.chunkSize.Some?
    requires open.begin.record.fileType != Regular && open.chunks != []
    ensures Run(s, open.chunks).None?
  {
    hide At, Step;
    var first := Open(open.begin, []);
    AtFacts(s, h, items, Some(first));
    NoChunk(open.begin, open.chunks[0], h.record.chunkSize.value);
    AtChunk(s, h, items, first, open.chunks[0]);
  }

  lemma NoChunk(begin: Line, chunk: Line, chunkSize: int)
    requires begin.record.ArtifactBegin? && begin.record.fileType != Regular && chunk.record.ArtifactChunk?
    ensures ChunksOk(Open(begin, []), chunkSize) && !ChunksOk(More(Open(begin, []), chunk), chunkSize)
  {
  }

  lemma GroupRun(s: State, h: Line, items: seq<Item>, g: Item)
    requires At(s, h, items, None) && g.Group? && ItemShape(g)
    ensures h.record.Header? && Shaped(items)
    ensures Run(s, ItemLines(g)).Some? <==>
              ItemOk(h.record, items, g) && Sequenced(Lines(h, items + [g], None))
    ensures Run(s, ItemLines(g)).Some? ==> At(Run(s, ItemLines(g)).value, h, items + [g], None)
  {
    AtFacts(s, h, items, None);
    var open := Open(g.begin, g.chunks);
    var lines := Lines(h, items, None);
    RunAppend(s, [g.begin], g.chunks);
    RunOne(s, g.begin);
    RunSnoc(s, [g.begin] + g.chunks, g.end);
    AtBegin(s, h, items, g.begin);
    LinesSnoc(h, items, g);
    SequencedSnoc(lines, g.begin);
    SequencedSnoc(Lines(h, items, Some(open)), g.end);
    GroupSequence(h, items, open);
    hide At, Step, Run, Sequenced, Lines, BeginOk, Components, Artifacts, ArtifactPaths, InExtract, GroupOk, ChunksOk,
      EndInPlace;
    if h.record.chunkSize.Some? {
      GroupOkIs(g, h.record.chunkSize.value);
    }
    assert Lines(h, items, None) == BodyLines(h, items) by { NoOpenLines(h, items); }
    if Step(s, g.begin).Some? {
      var s1 := Step(s, g.begin).value;
      AtFacts(s1, h, items, Some(Open(g.begin, [])));
      if g.begin.record.fileType != Regular && g.chunks != [] {
        NoChunks(s1, h, items, open);
        assert !ChunksOk(open, h.record.chunkSize.value) by { OnlyRegular(open, h.record.chunkSize.value); }
      } else {
        ChunksRun(s1, h, items, open);
        if Run(s1, g.chunks).Some? {
          AtEnd(Run(s1, g.chunks).value, h, items, open, g.end);
        }
      }
    }
  }

  lemma OnlyRegular(open: Open, chunkSize: int)
    requires OpenShape(Some(open)) && open.begin.record.fileType != Regular && open.chunks != []
    ensures !ChunksOk(open, chunkSize)
  {
  }

  lemma NoOpenLines(h: Line, items: seq<Item>)
    ensures Lines(h, items, None) == BodyLines(h, items)
  {
  }

  /** A longer run of lines in sequence has its parts in sequence. */
  lemma GroupSequence(h: Line, items: seq<Item>, open: Open)
    ensures Lines(h, items, Some(open)) == Lines(h, items, None) + [open.begin] + open.chunks
    ensures Sequenced(Lines(h, items, Some(open))) ==> Sequenced(Lines(h, items, None) + [open.begin])
    ensures Sequenced(Lines(h, items, Some(open))) ==> Sequenced(Lines(h, items, None))
  {
    var before, whole := Lines(h, items, None), Lines(h, items, Some(open));
    WholeGroup(h, items, open);
    hide Lines, Sequenced;
    if Sequenced(whole) {
      SequencedPrefix(before + [open.begin], open.chunks);
      SequencedPrefix(before, [open.begin]);
    }
  }

  lemma WholeGroup(h: Line, items: seq<Item>, open: Open)
    ensures Lines(h, items, Some(open)) == Lines(h, items, None) + [open.begin] + open.chunks
  {
    hide ItemsLines;
  }

  lemma ItemRun(s: State, h: Line, items: seq<Item>, item: Item)
    requires At(s, h, items, None) && ItemShape(item)
    ensures h.record.Header? && Shaped(items)
    ensures Run(s, ItemLines(item)).Some? <==>
              ItemOk(h.record, items, item) && Sequenced(BodyLines(h, items + [item]))
    ensures Run(s, ItemLines(item)).Some? ==> At(Run(s, ItemLines(item)).value, h, items + [item], None)
  {
    AtFacts(s, h, items, None);
    NoOpenLines(h, items);
    NoOpenLines(h, items + [item]);
    if item.Group? {
      GroupRun(s, h, items, item);
    } else {
      LinesSnoc(h, items, item);
      hide At, Step, Run, Sequenced, Lines, BodyLines;
      RunOne(s, item.line);
      AtSingle(s, h, items, item.line);
      SequencedSnoc(BodyLines(h, items), item.line);
      SingleLine(item);
    }
  }

  lemma SingleLine(item: Item)
    requires item.Single?
    ensures ItemLines(item) == [item.line] && item == Single(item.line)
  {
  }

  // A whole document.

  lemma FirstLine(h: Line)
    ensures Step(INITIAL_STATE, h).Some? <==>
              h.sequence == 0 && h.record.Header? && HeaderOk(h.record.command, h.record.chunkSize)
    ensures Step(INITIAL_STATE, h).Some? ==> At(Step(INITIAL_STATE, h).value, h, [], None)
  {
    NoFooterYet(h.record);
    if Step(INITIAL_STATE, h).Some? {
      HeaderHolds(h.record);
      assert RawOf([]) == [] by { hide RawOf; NothingRead(); }
      assert Framing(INITIAL_STATE, []);
      FramingStep(INITIAL_STATE, [], h);
      hide StepRecord, Holds;
      HoldsAfterStep(INITIAL_STATE, h, h.record, [], None);
      assert Lines(h, [], None) == [] + [h];
    }
  }

  lemma NothingRead()
    ensures RawOf([]) == [] && CountsAgree(map[], [])
  {
  }

  lemma NoFooterYet(r: Record)
    ensures r.Footer? ==> StepFooter(INITIAL_STATE, r).None?
  {
  }

  lemma HeaderHolds(r: Record)
    requires !r.Footer? && StepRecord(INITIAL_STATE, r).Some?
    ensures Holds(StepRecord(INITIAL_STATE, r).value, r, [], None)
  {
    hide StepModule, StepConfigSource, StepConfigEntry, StepEntry, StepBegin, StepChunk, StepEnd, StepDiagnostic,
      HeaderOk;
    assert ArtifactPaths([]) == {};
  }

  lemma ItemsOkSnoc(h: Record, items: seq<Item>, item: Item)
    requires h.Header? && Shaped(items) && ItemShape(item)
    ensures Shaped(items + [item])
    ensures ItemsOk(h, items + [item]) <==> ItemsOk(h, items) && ItemOk(h, items, item)
  {
    hide ItemOk, ItemShape;
    var longer := items + [item];
    assert longer[..|items|] == items && longer[|items|] == item;
    assert forall i :: 0 <= i < |items| ==> longer[..i] == items[..i] && longer[i] == items[i];
  }

  /** Header and items run through exactly when they are in order and in sequence. */
  lemma {:induction false} BodyRun(h: Line, items: seq<Item>)
    requires h.record.Header? && Shaped(items)
    ensures Run(INITIAL_STATE, BodyLines(h, items)).Some? <==>
              HeaderOk(h.record.command, h.record.chunkSize) && ItemsOk(h.record, items)
              && Sequenced(BodyLines(h, items))
    ensures Run(INITIAL_STATE, BodyLines(h, items)).Some? ==>
              At(Run(INITIAL_STATE, BodyLines(h, items)).value, h, items, None)
    decreases |items|
  {
    hide At, Step, HeaderOk;
    if items == [] {
      assert BodyLines(h, items) == [h];
      RunOne(INITIAL_STATE, h);
      FirstLine(h);
    } else {
      var n := |items| - 1;
      var before, item := items[..n], items[n];
      assert items == before + [item];
      hide Run, Sequenced, ItemsOk, ItemOk;
      BodyRun(h, before);
      ItemsOkSnoc(h.record, before, item);
      LinesSnoc(h, before, item);
      NoOpenLines(h, before);
      NoOpenLines(h, items);
      hide Lines, BodyLines, Shaped, ItemShape;
      RunAppend(INITIAL_STATE, BodyLines(h, before), ItemLines(item));
      if Run(INITIAL_STATE, BodyLines(h, before)).Some? {
        ItemRun(Run(INITIAL_STATE, BodyLines(h, before)).value, h, before, item);
      } else if Sequenced(BodyLines(h, items)) {
        SequencedPrefix(BodyLines(h, before), ItemLines(item));
      }
    }
  }

  lemma {:induction false} NoFooterCounted(lines: seq<Line>)
    requires forall i :: 0 <= i < |lines| ==> !lines[i].record.Footer?
    ensures TypeCount(lines, FooterType) == 0
  {
    if lines != [] {
      NoFooterCounted(lines[..|lines| - 1]);
    }
  }

  lemma {:induction false} NoFooterInItems(items: seq<Item>)
    requires Shaped(items)
    ensures forall i :: 0 <= i < |ItemsLines(items)| ==> !ItemsLines(items)[i].record.Footer?
  {
    if items != [] {
      var n := |items| - 1;
      NoFooterInItems(items[..n]);
      NoFooterInItem(items[n]);
      hide ItemLines, ItemShape;
    }
  }

  lemma NoFooterInItem(item: Item)
    requires ItemShape(item)
    ensures forall i :: 0 <= i < |ItemLines(item)| ==> !ItemLines(item)[i].record.Footer?
  {
  }

  /** Exact counts are unique. */
  lemma CountsUnique(counts: map<RecordType, int>, other: map<RecordType, int>, lines: seq<Line>)
    requires CountsAgree(counts, lines) && TypeCount(lines, FooterType) == 0
    ensures CountsAgree(other, lines) <==> other == counts
    ensures forall k :: k in counts ==> k != FooterType && counts[k] >= 0
  {
    hide TypeCount;
    if CountsAgree(other, lines) {
      assert forall t :: t in other <==> t in counts;
    }
  }

  lemma HoldsTotals(s: State, h: Record, items: seq<Item>)
    requires Holds(s, h, items, None)
    ensures Shaped(items) && h.Header?
    ensures s.entryCount == Count(items, EntryType) && s.moduleCount == Count(items, ModuleType)
    ensures s.artifacts == Artifacts(items) && s.diagnostics == Diagnostics(items)
    ensures s.command == h.command && s.active.None? && s.header.Some?
  {
    hide Count, Artifacts, Diagnostics, Phase, ArtifactPaths;
  }

  /** The state's totals are the items' totals, so the footer check is the footer grammar. */
  lemma FooterIs(s: State, h: Line, items: seq<Item>, footer: Record)
    requires At(s, h, items, None) && footer.Footer?
    ensures h.record.Header? && Shaped(items)
    ensures FooterOk(s, footer) && (s.command == Extract && footer.success ==> s.moduleCount == 1) <==>
            FooterAgrees(footer, h, items)
  {
    hide At, ItemsLines, BodyLines, TypeCount, CountsAgree, RawOf, Count, Diagnostics, Artifacts, Sha256Hex, TotalSize,
      Shaped;
    TotalsAt(s, h, items);
    SizesAre(items);
    assert Diagnostics(items).error == Severe(items, Error) by { ErrorsAre(items); }
    FooterCountsIs(s, h, items, footer);
    assert FooterOk(s, footer) <==>
           && footer.streamSha256 == Sha256Hex(s.hashed)
           && footer.counts == s.counts
           && footer.entries == s.entryCount && footer.artifacts == |s.artifacts|
           && footer.artifactBytes == TotalSize(s.artifacts) && footer.diagnostics == s.diagnostics
           && footer.success == (s.diagnostics.error == 0);
  }

  lemma ErrorsAre(items: seq<Item>)
    ensures Diagnostics(items).error == Severe(items, Error)
  {
  }

  lemma TotalsAt(s: State, h: Line, items: seq<Item>)
    requires At(s, h, items, None)
    ensures h.record.Header? && Shaped(items) && s.command == h.record.command
    ensures s.entryCount == Count(items, EntryType) && s.moduleCount == Count(items, ModuleType)
    ensures s.artifacts == Artifacts(items) && s.diagnostics == Diagnostics(items)
    ensures s.diagnostics.info >= 0 && s.diagnostics.warning >= 0 && s.diagnostics.error >= 0
    ensures s.hashed == RawOf(BodyLines(h, items))
  {
    HoldsTotals(s, h.record, items);
    FramingTotals(s, h, items);
    DiagnosticsNatural(items);
    hide Holds, Framing, BodyLines, RawOf, Count, Diagnostics, Artifacts, Shaped;
  }

  lemma FooterCountsIs(s: State, h: Line, items: seq<Item>, footer: Record)
    requires At(s, h, items, None) && footer.Footer?
    ensures CountsAgree(footer.counts, BodyLines(h, items)) <==> footer.counts == s.counts
    ensures forall k :: k in s.counts ==> k != FooterType && s.counts[k] >= 0
  {
    AtFacts(s, h, items, None);
    FramingTotals(s, h, items);
    hide At, ItemsLines;
    NoFooterInItems(items);
    NoFooterCounted(BodyLines(h, items));
    CountsUnique(s.counts, footer.counts, BodyLines(h, items));
  }

  lemma FramingTotals(s: State, h: Line, items: seq<Item>)
    requires At(s, h, items, None)
    ensures CountsAgree(s.counts, BodyLines(h, items)) && s.hashed == RawOf(BodyLines(h, items))
  {
    NoOpenLines(h, items);
    hide Holds, CountsAgree, RawOf, BodyLines, Sequenced;
  }

  lemma DiagnosticsNatural(items: seq<Item>)
    ensures Diagnostics(items).info >= 0 && Diagnostics(items).warning >= 0 && Diagnostics(items).error >= 0
  {
  }

  lemma ListIsBare(s: State, h: Line, items: seq<Item>)
    requires At(s, h, items, None) && h.record.Header? && Shaped(items)
    requires ItemsOk(h.record, items) && h.record.command == List
    ensures s.entryCount == 0 && s.artifacts == []
  {
    hide Holds, Framing;
    HoldsTotals(s, h.record, items);
    NothingInList(h.record, items);
  }

  lemma {:induction false} NothingInList(h: Record, items: seq<Item>)
    requires h.Header? && h.command == List && Shaped(items) && ItemsOk(h, items)
    ensures Count(items, EntryType) == 0 && Artifacts(items) == []
  {
    if items != [] {
      var n := |items| - 1;
      assert items == items[..n] + [items[n]];
      ItemsOkSnoc(h, items[..n], items[n]);
      hide ItemsOk, GroupOk, EntryOk;
      NothingInList(h, items[..n]);
    }
  }

  lemma LastLine(s: State, h: Line, items: seq<Item>, footer: Line)
    requires At(s, h, items, None) && footer.record.Footer? && h.record.Header? && Shaped(items)
    requires ItemsOk(h.record, items)
    ensures Step(s, footer).Some? && Complete(Step(s, footer).value) <==>
            footer.sequence == |BodyLines(h, items)| && FooterAgrees(footer.record, h, items)
  {
    FooterIs(s, h, items, footer.record);
    NoOpenLines(h, items);
    HoldsTotals(s, h.record, items);
    if h.record.command == List {
      ListIsBare(s, h, items);
    }
    hide Holds, FooterAgrees, FooterOk, ItemsOk, BodyLines, Lines, CountsAgree, Sequenced, RawOf;
    assert s.sequence == |BodyLines(h, items)| && s.footer.None?;
  }

  /** For every document in the right shape: the validator accepts its lines exactly when it is valid. */
  lemma AcceptsIffValid(d: Document)
    requires Shape(d)
    ensures Accepts(DocumentLines(d)) <==> Valid(d)
  {
    var h, items, footer := d.header, d.items, d.footer;
    var body := BodyLines(h, items);
    BodyRun(h, items);
    RunSnoc(INITIAL_STATE, body, footer);
    SequencedSnoc(body, footer);
    HeaderIs(h.record.command, h.record.chunkSize);
    hide BodyLines, Run, Step, HeaderOk, HeaderStands, ItemsOk, Sequenced, FooterAgrees, At, Complete;
    assert DocumentLines(d) == body + [footer];
    if Run(INITIAL_STATE, body).Some? {
      LastLine(Run(INITIAL_STATE, body).value, h, items, footer);
    }
  }

  // Every accepted stream has the shape of a document.

  /** Outside a group nothing but items can start. */
  lemma OutsideGroup(s: State, h: Line, items: seq<Item>, line: Line)
    requires At(s, h, items, None) && !line.record.Footer? && Step(s, line).Some?
    ensures ItemShape(Single(line)) || line.record.ArtifactBegin?
  {
    AtFacts(s, h, items, None);
    HoldsTotals(s, h.record, items);
    hide At, Holds, Framing, EndOk, ChunkOk;
    if line.record.Header? {
      HeaderOnce(s, line.record);
    } else {
      Dispatch(s, line.record);
    }
  }

  lemma HeaderOnce(s: State, r: Record)
    requires r.Header? && s.header.Some?
    ensures StepRecord(s, r).None?
  {
  }

  /** Inside a group nothing but its chunks and its end can follow. */
  lemma InsideGroup(s: State, h: Line, items: seq<Item>, open: Open, line: Line)
    requires At(s, h, items, Some(open)) && !line.record.Footer? && Step(s, line).Some?
    ensures line.record.ArtifactChunk? || line.record.ArtifactEnd?
  {
    HoldsOpen(s, h.record, items, open);
    hide At, Holds, Framing, EndOk, ChunkOk, BeginOk, EntryOk, ActiveOf, Components;
    if line.record.Header? {
      HeaderOnce(s, line.record);
    } else {
      Dispatch(s, line.record);
    }
  }

  lemma FooterIsLast(s: State, line: Line)
    requires Step(s, line).Some?
    ensures s.footer.None?
    ensures Step(s, line).value.footer.None? <==> !line.record.Footer?
  {
    if !line.record.Footer? {
      RecordKeepsFraming(s, line.record);
      hide StepRecord;
    } else {
      hide FooterOk;
    }
  }

  /** Where the validator stands after a prefix is where the prefix stands in a document. */
  lemma {:induction false} PrefixShape(lines: seq<Line>)
    returns (h: Line, items: seq<Item>, open: Option<Open>)
    requires lines != [] && Run(INITIAL_STATE, lines).Some? && Run(INITIAL_STATE, lines).value.footer.None?
    ensures lines == Lines(h, items, open)
    ensures At(Run(INITIAL_STATE, lines).value, h, items, open)
    ensures open.Some? ==> h.record.Header? && h.record.chunkSize.Some? && OpenShape(open)
                           && ChunksOk(open.value, h.record.chunkSize.value) && BeginOk(open.value.begin.record)
    decreases |lines|
  {
    hide At, Step, ChunksOk, BeginOk, EndInPlace, ItemOk;
    var n := |lines| - 1;
    var line := lines[n];
    assert lines == lines[..n] + [line];
    RunSnoc(INITIAL_STATE, lines[..n], line);
    if n == 0 {
      RunOne(INITIAL_STATE, line);
      FooterIsLast(INITIAL_STATE, line);
      FirstLine(line);
      h, items, open := line, [], None;
      assert lines == Lines(line, [], None);
    } else {
      hide Run, Lines, InExtract, Components, Artifacts, ArtifactPaths, ItemShape;
      var s := Run(INITIAL_STATE, lines[..n]).value;
      FooterIsLast(s, line);
      h, items, open := PrefixShape(lines[..n]);
      AtFacts(s, h, items, open);
      if open.None? {
        OutsideGroup(s, h, items, line);
        NoOpenLines(h, items);
        if line.record.ArtifactBegin? {
          AtBegin(s, h, items, line);
          open := Some(Open(line, []));
          OpenedGroup(h, items, line);
        } else {
          AtSingle(s, h, items, line);
          LinesSnoc(h, items, Single(line));
          SingleLine(Single(line));
          items := items + [Single(line)];
        }
      } else {
        InsideGroup(s, h, items, open.value, line);
        if line.record.ArtifactChunk? {
          AtChunk(s, h, items, open.value, line);
          LongerGroup(h, items, open.value, line);
          open := Some(More(open.value, line));
        } else {
          AtEnd(s, h, items, open.value, line);
          LinesSnoc(h, items, Group(open.value.begin, open.value.chunks, line));
          items := items + [Group(open.value.begin, open.value.chunks, line)];
          open := None;
        }
      }
      AtFacts(Run(INITIAL_STATE, lines).value, h, items, open);
    }
  }

  lemma OpenedGroup(h: Line, items: seq<Item>, line: Line)
    requires line.record.ArtifactBegin?
    ensures Lines(h, items, Some(Open(line, []))) == Lines(h, items, None) + [line]
    ensures forall chunkSize :: ChunksOk(Open(line, []), chunkSize)
  {
    hide ItemsLines;
  }

  lemma LongerGroup(h: Line, items: seq<Item>, open: Open, line: Line)
    ensures Lines(h, items, Some(More(open, line))) == Lines(h, items, Some(open)) + [line]
  {
    hide ItemsLines;
  }

  /** The lines of an accepted stream, arranged as a document. */
  lemma AcceptedShape(lines: seq<Line>) returns (d: Document)
    requires Accepts(lines)
    ensures Shape(d) && DocumentLines(d) == lines
  {
    var n := |lines| - 1;
    var footer := lines[n];
    assert lines == lines[..n] + [footer];
    RunSnoc(INITIAL_STATE, lines[..n], footer);
    hide Run, Step;
    var s := Run(INITIAL_STATE, lines[..n]).value;
    FooterIsLast(s, footer);
    assert n > 0 by {
      if n == 0 {
        hide Complete;
        OneLine(lines);
      }
    }
    var h, items, open := PrefixShape(lines[..n]);
    AtFacts(s, h, items, open);
    hide At, Accepts;
    if open.Some? {
      NotInGroup(s, h, items, open.value, footer);
    }
    NoOpenLines(h, items);
    d := Document(h, items, footer);
  }

  lemma OneLine(lines: seq<Line>)
    requires |lines| == 1
    ensures !Accepts(lines)
  {
    hide StepRecord;
    RunOne(INITIAL_STATE, lines[0]);
    assert lines == [lines[0]];
    NoFooterYet(lines[0].record);
    if Step(INITIAL_STATE, lines[0]).Some? {
      FooterIsLast(INITIAL_STATE, lines[0]);
    }
  }

  lemma NotInGroup(s: State, h: Line, items: seq<Item>, open: Open, footer: Line)
    requires At(s, h, items, Some(open)) && footer.record.Footer?
    ensures Step(s, footer).None?
  {
    HoldsOpen(s, h.record, items, open);
    hide At, Holds, Framing, FooterOk, ActiveOf;
  }

  /** The main result: the validator accepts a stream exactly when the stream is a valid document. */
  lemma AcceptsIffGrammatical(lines: seq<Line>)
    ensures Accepts(lines) <==> exists d: Document :: Shape(d) && DocumentLines(d) == lines && Valid(d)
  {
    hide Accepts, Valid, DocumentLines;
    if Accepts(lines) {
      var d := AcceptedShape(lines);
      AcceptsIffValid(d);
    }
    if exists d: Document :: Shape(d) && DocumentLines(d) == lines && Valid(d) {
      var d: Document :| Shape(d) && DocumentLines(d) == lines && Valid(d);
      AcceptsIffValid(d);
    }
  }
}
