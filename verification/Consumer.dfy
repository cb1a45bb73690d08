/** The mutable validator: one field per attribute, one method per record type, one loop over the lines. */
module Consumer {
  import opened Bytes
  import opened Records
  import opened Sha256Spec
  import opened Validation
  import Annotation
  import Paths
  import Utf8

  /** What `validate` returns when it does not fail. */
  datatype Summary = Summary(
    command: Command,
    records: nat,
    modules: nat,
    entries: nat,
    artifacts: seq<Artifact>,
    artifactBytes: nat,
    diagnostics: DiagnosticCounts,
    success: bool,
    streamSha256: bytes)

  /** The summary of a state in which a complete stream ends. */
  function SummaryOf(s: State): Summary
    requires s.footer.Some? && s.footer.value.Footer?
  {
    Summary(s.command, s.sequence, s.moduleCount, s.entryCount, s.artifacts, TotalSize(s.artifacts),
            s.diagnostics, s.footer.value.success, s.footer.value.streamSha256)
  }

  /** An artifact group being read; the chunk checks update it in place. */
  class OpenArtifact {
    const id: int
    const path: bytes
    const components: seq<bytes>
    const fileType: FileType
    const mode: int
    const target: Option<bytes>
    const sizeExpected: Option<int>
    var hashed: bytes
    var size: nat
    var chunks: nat
    var shortChunkSeen: bool

    function Value(): ActiveArtifact
      reads this
    {
      ActiveArtifact(id, path, components, fileType, mode, target, sizeExpected, hashed, size, chunks, shortChunkSeen)
    }

    constructor (id: int, path: bytes, components: seq<bytes>, fileType: FileType, mode: int,
                 target: Option<bytes>, sizeExpected: Option<int>)
      ensures Value() ==
              ActiveArtifact(id, path, components, fileType, mode, target, sizeExpected, [], 0, 0, false)
    {
      this.id, this.path, this.components, this.fileType, this.mode := id, path, components, fileType, mode;
      this.target, this.sizeExpected := target, sizeExpected;
      hashed, size, chunks, shortChunkSeen := [], 0, 0, false;
    }
  }

  class Validator {
    var sequence: nat
    var counts: map<RecordType, int>
    var hashed: bytes
    var header: Option<Record>
    var footer: Option<Record>
    var command: Command
    var phase: nat
    var moduleCount: nat
    var entryCount: nat
    var configSourceOrdinal: nat
    var configEntryOrdinal: nat
    var diagnostics: DiagnosticCounts
    var artifacts: seq<Artifact>
    var active: OpenArtifact?
    var artifactPaths: set<seq<bytes>>
    var chunkSize: Option<int>

    function Value(): State
      reads this, active
    {
      State(sequence, counts, hashed, header, footer, command, phase, moduleCount, entryCount,
            configSourceOrdinal, configEntryOrdinal, diagnostics, artifacts,
            if active == null then None else Some(active.Value()), artifactPaths, chunkSize)
    }

    constructor ()
      ensures Value() == INITIAL_STATE && active == null
    {
      sequence, counts, hashed, header, footer := 0, map[], [], None, None;
      command, phase, moduleCount, entryCount := List, 0, 0, 0;
      configSourceOrdinal, configEntryOrdinal := 0, 0;
      diagnostics, artifacts, active, artifactPaths, chunkSize := DiagnosticCounts(0, 0, 0), [], null, {}, None;
    }

    /** Sections may repeat but never go back. */
    method Advance(target: nat) returns (ok: bool)
      modifies this`phase
      ensures ok <==> old(phase) <= target
      ensures ok ==> phase == target
    {
      if target < phase {
        return false;
      }
      phase := target;
      return true;
    }

    method ExtractOnly() returns (ok: bool)
      ensures ok <==> command == Extract && moduleCount == 1
    {
      return command == Extract && moduleCount == 1;
    }

    method ValidateHeader(r: Record) returns (ok: bool)
      requires r.Header?
      modifies this
      ensures ok <==> StepHeader(old(Value()), r).Some?
      ensures ok ==> Value() == StepHeader(old(Value()), r).value
      ensures active == old(active)
    {
      if header.Some? || sequence != 0 {
        return false;
      }
      command := r.command;
      if command == Extract {
        if r.chunkSize.None?
           || !(MINIMUM_CHUNK_SIZE <= r.chunkSize.value <= MAXIMUM_CHUNK_SIZE) {
          return false;
        }
        chunkSize := r.chunkSize;
      }
      header := Some(r);
      return true;
    }

    method ValidateModule() returns (ok: bool)
      modifies this
      ensures ok <==> StepModule(old(Value())).Some?
      ensures ok ==> Value() == StepModule(old(Value())).value
      ensures active == old(active)
    {
      ok := Advance(1);
      if !ok || (command == Extract && moduleCount != 0) {
        return false;
      }
      moduleCount := moduleCount + 1;
    }

    method ValidateConfigSource(r: Record) returns (ok: bool)
      requires r.ConfigSource?
      modifies this
      ensures ok <==> StepConfigSource(old(Value()), r).Some?
      ensures ok ==> Value() == StepConfigSource(old(Value()), r).value
      ensures active == old(active)
    {
      hide Paths.RelativePath;
      ok := ExtractOnly();
      if !ok { return; }
      ok := Advance(2);
      if !ok || r.ordinal != configSourceOrdinal || Paths.RelativePath(r.path, false).None? {
        return false;
      }
      configSourceOrdinal := configSourceOrdinal + 1;
    }

    method ValidateConfigEntry(r: Record) returns (ok: bool)
      requires r.ConfigEntry?
      modifies this
      ensures ok <==> StepConfigEntry(old(Value()), r).Some?
      ensures ok ==> Value() == StepConfigEntry(old(Value()), r).value
      ensures active == old(active)
    {
      ok := ExtractOnly();
      if !ok { return; }
      ok := Advance(3);
      if !ok || r.ordinal != configEntryOrdinal {
        return false;
      }
      configEntryOrdinal := configEntryOrdinal + 1;
    }

    /** Joins the segments and compares them with the raw octets of the entry. */
    static method Reconstructs(segments: seq<Annotation.Segment>, raw: bytes) returns (same: bool)
      ensures same <==> Concat(Annotation.RawParts(segments)) == raw
    {
      hide Concat;
      var reconstructed: bytes := [];
      ghost var parts := Annotation.RawParts(segments);
      ConcatPrefix(parts, 0);
      for i := 0 to |segments|
        invariant reconstructed == Concat(parts[..i])
      {
        ConcatPrefix(parts, i + 1);
        reconstructed := reconstructed + segments[i].raw;
      }
      assert parts[..|segments|] == parts;
      same := reconstructed == raw;
    }

    static method EntryIsOk(e: EntryData) returns (ok: bool)
      ensures ok <==> EntryOk(e)
    {
      hide Concat, ScopeOk;
      if e.normalizedRaw.Some? {
        ok := Utf8.IsValidUtf8(e.normalizedRaw.value);
        if !ok { return; }
      }
      if e.normalizedStripped.Some? {
        ok := Utf8.IsValidUtf8(e.normalizedStripped.value);
        if !ok || e.normalizedRaw.None? { return false; }
      }
      ok := Reconstructs(e.segments, e.raw);
      ok := ok && ScopeOk(e.scope);
    }

    method ValidateEntry(r: Record) returns (ok: bool)
      requires r.Entry?
      modifies this
      ensures ok <==> StepEntry(old(Value()), r).Some?
      ensures ok ==> Value() == StepEntry(old(Value()), r).value
      ensures active == old(active)
    {
      hide EntryOk;
      ok := ExtractOnly();
      if !ok { return; }
      ok := Advance(4);
      if !ok || r.entry.ordinal != entryCount { return false; }
      ok := EntryIsOk(r.entry);
      if ok {
        entryCount := entryCount + 1;
      }
    }

    method ValidateArtifactBegin(r: Record) returns (ok: bool)
      requires r.ArtifactBegin?
      modifies this
      ensures ok <==> StepBegin(old(Value()), r).Some?
      ensures ok ==> Value() == StepBegin(old(Value()), r).value
      ensures active == old(active) || fresh(active)
    {
      hide Paths.RelativePath;
      ok := ExtractOnly();
      if !ok { return; }
      ok := Advance(5);
      if !ok || active != null || r.id != |artifacts| || !(0 <= r.mode <= MAXIMUM_MODE) { return false; }
      var components := Paths.RelativePath(r.path, r.fileType == Directory);
      if components.None? || components.value in artifactPaths { return false; }
      artifactPaths := artifactPaths + {components.value};
      var target, sizeExpected := None, None;
      if r.fileType == Regular {
        if r.sizeExpected.None? || r.sizeExpected.value < 0 { return false; }
        sizeExpected := r.sizeExpected;
      } else if r.fileType == Symlink {
        if r.target.None? || 0 in r.target.value { return false; }
        target := r.target;
      }
      active := new OpenArtifact(r.id, r.path, components.value, r.fileType, r.mode, target, sizeExpected);
    }

    method ValidateArtifactChunk(r: Record) returns (ok: bool)
      requires r.ArtifactChunk?
      modifies this, active
      ensures ok <==> StepChunk(old(Value()), r).Some?
      ensures ok ==> Value() == StepChunk(old(Value()), r).value
      ensures active == old(active)
    {
      ok := Advance(5);
      if !ok || active == null || active.fileType != Regular { return false; }
      if r.id != active.id || r.index != active.chunks || chunkSize.None? { return false; }
      if r.data == [] || |r.data| > chunkSize.value || active.shortChunkSeen { return false; }
      if |r.data| < chunkSize.value {
        active.shortChunkSeen := true;
      }
      active.hashed := active.hashed + r.data;
      active.size := active.size + |r.data|;
      active.chunks := active.chunks + 1;
    }

    method ValidateArtifactEnd(r: Record) returns (ok: bool)
      requires r.ArtifactEnd?
      modifies this
      ensures ok <==> StepEnd(old(Value()), r).Some?
      ensures ok ==> Value() == StepEnd(old(Value()), r).value
      ensures active == null || active == old(active)
    {
      hide Sha256Hex;
      ok := Advance(5);
      if !ok || active == null || r.id != active.id { return false; }
      var actualSize, actualHash;
      match active.fileType {
        case Symlink =>
          var target: bytes := if active.target.Some? then active.target.value else [];
          actualSize, actualHash := |target|, Sha256Hex(target);
        case Directory =>
          actualSize, actualHash := 0, Sha256Hex([]);
        case Regular =>
          actualSize, actualHash := active.size, Sha256Hex(active.hashed);
          if r.stable.None? || (r.stable.value && active.sizeExpected != Some(actualSize)) { return false; }
      }
      if r.size != actualSize || r.sha256 != actualHash { return false; }
      artifacts := artifacts + [Artifact(active.id, active.path, active.components, active.fileType, active.mode,
                                         active.target, actualSize, actualHash)];
      active := null;
    }

    method ValidateDiagnostic(r: Record) returns (ok: bool)
      requires r.Diagnostic?
      modifies this`diagnostics
      ensures ok <==> StepDiagnostic(old(Value()), r).Some?
      ensures ok ==> Value() == StepDiagnostic(old(Value()), r).value
    {
      if active != null { return false; }
      diagnostics := CountDiagnostic(diagnostics, r.severity);
      return true;
    }

    /** Dispatch on the record type. */
    method ValidateRecord(r: Record) returns (ok: bool)
      requires !r.Footer?
      modifies this, active
      ensures ok <==> StepRecord(old(Value()), r).Some?
      ensures ok ==> Value() == StepRecord(old(Value()), r).value
      ensures active == null || active == old(active) || fresh(active)
    {
      hide StepHeader, StepModule, StepConfigSource, StepConfigEntry, StepEntry, StepBegin, StepChunk, StepEnd,
        StepDiagnostic;
      if header.None? && !r.Header? { return false; }
      ghost var before := active;
      match r {
        case Header(_, _) => ok := ValidateHeader(r);
        case Module => ok := ValidateModule();
        case ConfigSource(_, _, _) => ok := ValidateConfigSource(r);
        case ConfigEntry(_, _, _) => ok := ValidateConfigEntry(r);
        case Entry(_) => ok := ValidateEntry(r);
        case ArtifactBegin(_, _, _, _, _, _, _) => ok := ValidateArtifactBegin(r);
        case ArtifactChunk(_, _, _) => ok := ValidateArtifactChunk(r);
        case ArtifactEnd(_, _, _, _) => ok := ValidateArtifactEnd(r);
        case Diagnostic(_, _) => ok := ValidateDiagnostic(r);
      }
    }

    method ValidateFooter(r: Record) returns (ok: bool)
      requires r.Footer?
      modifies this`footer
      ensures ok <==> StepFooter(old(Value()), r).Some?
      ensures ok ==> Value() == StepFooter(old(Value()), r).value
    {
      hide Sha256Hex, TotalSize;
      if header.None? || footer.Some? || active != null { return false; }
      if r.streamSha256 != Sha256Hex(hashed) { return false; }
      if !(forall k :: k in r.counts ==> k != FooterType && r.counts[k] >= 0) || r.counts != counts { return false; }
      if r.entries != entryCount || r.artifacts != |artifacts| || r.artifactBytes != TotalSize(artifacts) {
        return false;
      }
      if r.diagnostics.info < 0 || r.diagnostics.warning < 0 || r.diagnostics.error < 0
         || r.diagnostics != diagnostics || r.success != (diagnostics.error == 0) {
        return false;
      }
      footer := Some(r);
      return true;
    }

    /** The body of the loop of `Validate`: one line. */
    method ValidateLine(line: Line) returns (ok: bool)
      modifies this, active
      ensures ok <==> Step(old(Value()), line).Some?
      ensures ok ==> Value() == Step(old(Value()), line).value
      ensures active == null || active == old(active) || fresh(active)
    {
      hide StepRecord, StepFooter, Increment;
      ghost var before := Value();
      if line.sequence != sequence { return false; }
      if line.record.Footer? {
        ok := ValidateFooter(line.record);
        if !ok { return; }
      } else {
        if footer.Some? { return false; }
        ok := ValidateRecord(line.record);
        if !ok { return; }
        RecordKeepsFrame(before, line.record);
        counts := Increment(counts, TypeOf(line.record));
        hashed := hashed + line.raw;
      }
      sequence := sequence + 1;
    }

    /** Reads a whole stream: it returns a summary exactly when the stream is accepted. */
    method Validate(lines: seq<Line>) returns (summary: Option<Summary>)
      requires Value() == INITIAL_STATE && active == null
      modifies this
      ensures summary.Some? <==> Accepts(lines)
      ensures summary.Some? ==> summary == Some(SummaryOf(Run(INITIAL_STATE, lines).value))
    {
      hide Step, Run, TotalSize;
      EmptyRun(Value());
      for i := 0 to |lines|
        invariant active == null || fresh(active)
        invariant Run(INITIAL_STATE, lines[..i]) == Some(Value())
      {
        PrefixRun(INITIAL_STATE, lines, i);
        var ok := ValidateLine(lines[i]);
        if !ok {
          PrefixRun(INITIAL_STATE, lines, i);
          return None;
        }
      }
      assert lines[..|lines|] == lines;
      if lines == [] || footer.None? || active != null || header.None? || !footer.value.Footer? {
        return None;
      }
      var success := footer.value.success;
      if (command == Extract && success && moduleCount != 1)
        || (command == List && (entryCount != 0 || artifacts != [])) {
        return None;
      }
      return Some(Summary(command, sequence, moduleCount, entryCount, artifacts, TotalSize(artifacts), diagnostics,
                          success, footer.value.streamSha256));
    }
  }

  lemma EmptyRun(s: State)
    ensures Run(s, []) == Some(s)
  {
  }

  /** A record handler leaves the framing fields to the loop. */
  lemma RecordKeepsFrame(s: State, r: Record)
    requires !r.Footer? && StepRecord(s, r).Some?
    ensures var t := StepRecord(s, r).value;
            t.counts == s.counts && t.hashed == s.hashed && t.sequence == s.sequence
  {
    hide EntryOk, BeginOk, EndOk, ChunkOk, HeaderOk, Closed, Opened, Absorb, Components;
  }

  /** The run of a prefix goes on with the next line; once it fails, the whole run has failed. */
  lemma PrefixRun(s: State, lines: seq<Line>, i: nat)
    requires i < |lines| && Run(s, lines[..i]).Some?
    ensures Run(s, lines[..i + 1]) == Step(Run(s, lines[..i]).value, lines[i])
    ensures Step(Run(s, lines[..i]).value, lines[i]).None? ==> Run(s, lines).None?
  {
    hide Step;
    assert lines[..i + 1] == lines[..i] + [lines[i]];
    assert lines == lines[..i] + ([lines[i]] + lines[i + 1..]);
    RunAppend(s, lines[..i], [lines[i]]);
    RunAppend(s, lines[..i], [lines[i]] + lines[i + 1..]);
    assert ([lines[i]] + lines[i + 1..])[0] == lines[i];
  }
}
