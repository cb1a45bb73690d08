/** The consumer's validator: its transition function and the mutable class that carries it out. */
module Validation {
  import opened Bytes
  import opened Records
  import opened Sha256Spec
  import Annotation
  import Paths
  import Utf8

  /** A completed artifact group. */
  datatype Artifact = Artifact(
    id: int,
    path: bytes,
    components: seq<bytes>,
    fileType: FileType,
    mode: int,
    target: Option<bytes>,
    size: nat,
    sha256: bytes)

  /** An artifact group whose end has not been seen; `hashed` is what its hash has absorbed. */
  datatype ActiveArtifact = ActiveArtifact(
    id: int,
    path: bytes,
    components: seq<bytes>,
    fileType: FileType,
    mode: int,
    target: Option<bytes>,
    sizeExpected: Option<int>,
    hashed: bytes,
    size: nat,
    chunks: nat,
    shortChunkSeen: bool)

  datatype State = State(
    sequence: nat,
    counts: map<RecordType, int>,
    hashed: bytes,
    header: Option<Record>,
    footer: Option<Record>,
    command: Command,
    phase: nat,
    moduleCount: nat,
    entryCount: nat,
    configSourceOrdinal: nat,
    configEntryOrdinal: nat,
    diagnostics: DiagnosticCounts,
    artifacts: seq<Artifact>,
    active: Option<ActiveArtifact>,
    artifactPaths: set<seq<bytes>>,
    chunkSize: Option<int>)

  const INITIAL_STATE: State := State(
    0, map[], [], None, None, List, 0, 0, 0, 0, 0, DiagnosticCounts(0, 0, 0), [], None, {}, None)

  function TotalSize(artifacts: seq<Artifact>): nat
  {
    if artifacts == [] then 0 else TotalSize(artifacts[..|artifacts| - 1]) + artifacts[|artifacts| - 1].size
  }

  predicate ScopeOk(scope: Scope)
  {
    match scope
    case SwordKey(index) => index >= 0
    case VerseKey(index, testament, book, chapter, verse, suffix) =>
      index >= 0 && testament >= 0 && book >= 0 && chapter >= 0 && verse >= 0 && 0 <= suffix <= 255
  }

  /** The checks on an entry that do not depend on what came before it. */
  predicate EntryOk(e: EntryData)
  {
    && (e.normalizedRaw.Some? ==> Utf8.Valid(e.normalizedRaw.value))
    && (e.normalizedStripped.Some? ==> Utf8.Valid(e.normalizedStripped.value) && e.normalizedRaw.Some?)
    && Concat(Annotation.RawParts(e.segments)) == e.raw
    && ScopeOk(e.scope)
  }

  predicate HeaderOk(command: Command, chunkSize: Option<int>)
  {
    command == Extract ==>
      chunkSize.Some? && MINIMUM_CHUNK_SIZE <= chunkSize.value <= MAXIMUM_CHUNK_SIZE
  }

  /** The checks on an artifact_begin record that do not depend on what came before it. */
  predicate BeginOk(r: Record)
    requires r.ArtifactBegin?
  {
    && 0 <= r.mode <= MAXIMUM_MODE
    && Paths.RelativePath(r.path, r.fileType == Directory).Some?
    && (r.fileType == Regular ==> r.sizeExpected.Some? && r.sizeExpected.value >= 0)
    && (r.fileType == Symlink ==> r.target.Some? && 0 !in r.target.value)
  }

  /** The path components of an artifact; none when the path is refused. */
  function Components(r: Record): seq<bytes>
    requires r.ArtifactBegin?
  {
    match Paths.RelativePath(r.path, r.fileType == Directory)
    case Some(components) => components
    case None => []
  }

  /** `_extract_only` followed by `_advance`. */
  predicate Admitted(s: State, target: nat)
  {
    s.command == Extract && s.moduleCount == 1 && s.phase <= target
  }

  function StepModule(s: State): Option<State>
  {
    if s.phase <= 1 && (s.command == Extract ==> s.moduleCount == 0) then
      Some(s.(phase := 1, moduleCount := s.moduleCount + 1))
    else None
  }

  function StepConfigSource(s: State, r: Record): Option<State>
    requires r.ConfigSource?
  {
    if Admitted(s, 2) && r.ordinal == s.configSourceOrdinal && Paths.RelativePath(r.path, false).Some? then
      Some(s.(phase := 2, configSourceOrdinal := s.configSourceOrdinal + 1))
    else None
  }

  function StepConfigEntry(s: State, r: Record): Option<State>
    requires r.ConfigEntry?
  {
    if Admitted(s, 3) && r.ordinal == s.configEntryOrdinal then
      Some(s.(phase := 3, configEntryOrdinal := s.configEntryOrdinal + 1))
    else None
  }

  function StepEntry(s: State, r: Record): Option<State>
    requires r.Entry?
  {
    if Admitted(s, 4) && r.entry.ordinal == s.entryCount && EntryOk(r.entry) then
      Some(s.(phase := 4, entryCount := s.entryCount + 1))
    else None
  }

  function Opened(r: Record): ActiveArtifact
    requires r.ArtifactBegin?
  {
    ActiveArtifact(r.id, r.path, Components(r), r.fileType, r.mode,
                   if r.fileType == Symlink then r.target else None,
                   if r.fileType == Regular then r.sizeExpected else None,
                   [], 0, 0, false)
  }

  function StepBegin(s: State, r: Record): Option<State>
    requires r.ArtifactBegin?
  {
    if Admitted(s, 5) && s.active.None? && r.id == |s.artifacts| && BeginOk(r)
       && Components(r) !in s.artifactPaths then
      Some(s.(phase := 5, artifactPaths := s.artifactPaths + {Components(r)}, active := Some(Opened(r))))
    else None
  }

  /** The chunk checks against the open group. */
  predicate ChunkOk(a: ActiveArtifact, chunkSize: Option<int>, r: Record)
    requires r.ArtifactChunk?
  {
    && a.fileType == Regular && r.id == a.id && r.index == a.chunks
    && chunkSize.Some? && r.data != [] && |r.data| <= chunkSize.value && !a.shortChunkSeen
  }

  function Absorb(a: ActiveArtifact, chunkSize: int, data: bytes): ActiveArtifact
  {
    a.(hashed := a.hashed + data, size := a.size + |data|, chunks := a.chunks + 1,
       shortChunkSeen := a.shortChunkSeen || |data| < chunkSize)
  }

  function StepChunk(s: State, r: Record): Option<State>
    requires r.ArtifactChunk?
  {
    if s.phase <= 5 && s.active.Some? && ChunkOk(s.active.value, s.chunkSize, r) then
      Some(s.(phase := 5, active := Some(Absorb(s.active.value, s.chunkSize.value, r.data))))
    else None
  }

  /** The octets an artifact group stands for. */
  function Content(a: ActiveArtifact): bytes
  {
    match a.fileType
    case Symlink => if a.target.Some? then a.target.value else []
    case Directory => []
    case Regular => a.hashed
  }

  predicate EndOk(a: ActiveArtifact, r: Record)
    requires r.ArtifactEnd?
  {
    && r.id == a.id
    && r.size == (if a.fileType == Regular then a.size else |Content(a)|)
    && r.sha256 == Sha256Hex(Content(a))
    && (a.fileType == Regular ==>
          r.stable.Some? && (r.stable.value ==> a.sizeExpected == Some(a.size)))
  }

  function Closed(a: ActiveArtifact, r: Record): Artifact
    requires r.ArtifactEnd? && EndOk(a, r)
  {
    Artifact(a.id, a.path, a.components, a.fileType, a.mode, a.target, r.size, r.sha256)
  }

  function StepEnd(s: State, r: Record): Option<State>
    requires r.ArtifactEnd?
  {
    if s.phase <= 5 && s.active.Some? && EndOk(s.active.value, r) then
      Some(s.(phase := 5, artifacts := s.artifacts + [Closed(s.active.value, r)], active := None))
    else None
  }

  function StepDiagnostic(s: State, r: Record): Option<State>
    requires r.Diagnostic?
  {
    if s.active.None? then Some(s.(diagnostics := CountDiagnostic(s.diagnostics, r.severity))) else None
  }

  function StepHeader(s: State, r: Record): Option<State>
    requires r.Header?
  {
    if s.header.None? && s.sequence == 0 && HeaderOk(r.command, r.chunkSize) then
      Some(s.(header := Some(r), command := r.command,
              chunkSize := if r.command == Extract then r.chunkSize else s.chunkSize))
    else None
  }

  /** `_validate_record`. */
  function StepRecord(s: State, r: Record): Option<State>
    requires !r.Footer?
  {
    if s.header.None? && !r.Header? then None
    else
      match r
      case Header(_, _) => StepHeader(s, r)
      case Module => StepModule(s)
      case ConfigSource(_, _, _) => StepConfigSource(s, r)
      case ConfigEntry(_, _, _) => StepConfigEntry(s, r)
      case Entry(_) => StepEntry(s, r)
      case ArtifactBegin(_, _, _, _, _, _, _) => StepBegin(s, r)
      case ArtifactChunk(_, _, _) => StepChunk(s, r)
      case ArtifactEnd(_, _, _, _) => StepEnd(s, r)
      case Diagnostic(_, _) => StepDiagnostic(s, r)
  }

  /** The footer's totals against what was observed. */
  predicate FooterOk(s: State, r: Record)
    requires r.Footer?
  {
    && r.streamSha256 == Sha256Hex(s.hashed)
    && (forall k :: k in r.counts ==> k != FooterType && r.counts[k] >= 0)
    && r.counts == s.counts
    && r.entries == s.entryCount
    && r.artifacts == |s.artifacts|
    && r.artifactBytes == TotalSize(s.artifacts)
    && r.diagnostics == s.diagnostics
    && r.diagnostics.info >= 0 && r.diagnostics.warning >= 0 && r.diagnostics.error >= 0
    && r.success == (s.diagnostics.error == 0)
  }

  function StepFooter(s: State, r: Record): Option<State>
    requires r.Footer?
  {
    if s.header.Some? && s.footer.None? && s.active.None? && FooterOk(s, r) then
      Some(s.(footer := Some(r)))
    else None
  }

  function Increment(counts: map<RecordType, int>, k: RecordType): map<RecordType, int>
  {
    counts[k := (if k in counts then counts[k] else 0) + 1]
  }

  /** One line: the body of the loop of `validate`. */
  function Step(s: State, line: Line): Option<State>
  {
    if line.sequence != s.sequence then None
    else if line.record.Footer? then
      var t := StepFooter(s, line.record);
      if t.None? then None else Some(t.value.(sequence := s.sequence + 1))
    else if s.footer.Some? then None
    else
      var t := StepRecord(s, line.record);
      if t.None? then None
      else Some(t.value.(counts := Increment(s.counts, TypeOf(line.record)),
                         hashed := s.hashed + line.raw,
                         sequence := s.sequence + 1))
  }

  function Run(s: State, lines: seq<Line>): Option<State>
    decreases |lines|
  {
    if lines == [] then Some(s)
    else
      var t := Step(s, lines[0]);
      if t.None? then None else Run(t.value, lines[1..])
  }

  lemma {:induction false} RunAppend(s: State, left: seq<Line>, right: seq<Line>)
    ensures Run(s, left + right) ==
            if Run(s, left).None? then None else Run(Run(s, left).value, right)
    decreases |left|
  {
    if left == [] {
      assert left + right == right;
    } else {
      assert (left + right)[1..] == left[1..] + right;
      var t := Step(s, left[0]);
      if t.Some? {
        RunAppend(t.value, left[1..], right);
      }
    }
  }

  /** The checks after the last line. */
  predicate Complete(s: State)
  {
    && s.footer.Some? && s.footer.value.Footer? && s.active.None? && s.header.Some?
    && (s.command == Extract && s.footer.value.success ==> s.moduleCount == 1)
    && (s.command == List ==> s.entryCount == 0 && s.artifacts == [])
  }

  /** `validate` returns a summary instead of failing. */
  predicate Accepts(lines: seq<Line>)
  {
    lines != [] && Run(INITIAL_STATE, lines).Some? && Complete(Run(INITIAL_STATE, lines).value)
  }
}
