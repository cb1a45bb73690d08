/** The records of the export stream, after JSON parsing and with byte values decoded. */
module Records {
  import opened Bytes
  import Annotation

  datatype Command = List | Extract

  datatype FileType = Regular | Directory | Symlink

  datatype Severity = Info | Warning | Error

  datatype RecordType =
    | HeaderType
    | ModuleType
    | ConfigSourceType
    | ConfigEntryType
    | EntryType
    | ArtifactBeginType
    | ArtifactChunkType
    | ArtifactEndType
    | DiagnosticType
    | FooterType

  /** The key position of an entry. */
  datatype Scope =
    | SwordKey(index: int)
    | VerseKey(index: int, testament: int, book: int, chapter: int, verse: int, suffix: int)

  datatype Projections = Projections(rendered: bytes, stripped: bytes)

  datatype EntryData = EntryData(
    ordinal: int,
    key: bytes,
    raw: bytes,
    segments: seq<Annotation.Segment>,
    normalizedRaw: Option<bytes>,
    normalizedStripped: Option<bytes>,
    projections: Option<Projections>,
    scope: Scope)

  datatype DiagnosticCounts = DiagnosticCounts(info: int, warning: int, error: int)

  datatype Record =
    | Header(command: Command, chunkSize: Option<int>)
    | Module
    | ConfigSource(ordinal: int, path: bytes, raw: bytes)
    | ConfigEntry(ordinal: int, name: bytes, value: bytes)
    | Entry(entry: EntryData)
    | ArtifactBegin(id: int, fileType: FileType, mode: int, path: bytes, role: bytes,
                    target: Option<bytes>, sizeExpected: Option<int>)
    | ArtifactChunk(id: int, index: int, data: bytes)
    | ArtifactEnd(id: int, sha256: bytes, size: int, stable: Option<bool>)
    | Diagnostic(severity: Severity, code: bytes)
    | Footer(artifactBytes: int, artifacts: int, counts: map<RecordType, int>,
             diagnostics: DiagnosticCounts, entries: int, streamSha256: bytes, success: bool)

  function TypeOf(r: Record): RecordType
  {
    match r
    case Header(_, _) => HeaderType
    case Module => ModuleType
    case ConfigSource(_, _, _) => ConfigSourceType
    case ConfigEntry(_, _, _) => ConfigEntryType
    case Entry(_) => EntryType
    case ArtifactBegin(_, _, _, _, _, _, _) => ArtifactBeginType
    case ArtifactChunk(_, _, _) => ArtifactChunkType
    case ArtifactEnd(_, _, _, _) => ArtifactEndType
    case Diagnostic(_, _) => DiagnosticType
    case Footer(_, _, _, _, _, _, _) => FooterType
  }

  /** One line of the stream: its exact octets and what they parse to. */
  datatype Line = Line(raw: bytes, sequence: int, record: Record)

  const MINIMUM_CHUNK_SIZE := 4096
  const MAXIMUM_CHUNK_SIZE := 16777216
  const MAXIMUM_MODE := 0x0fff

  /** How many diagnostics of each severity there are after one more. */
  function CountDiagnostic(counts: DiagnosticCounts, severity: Severity): DiagnosticCounts
  {
    match severity
    case Info => counts.(info := counts.info + 1)
    case Warning => counts.(warning := counts.warning + 1)
    case Error => counts.(error := counts.error + 1)
  }

  predicate Natural(d: DiagnosticCounts)
  {
    d.info >= 0 && d.warning >= 0 && d.error >= 0
  }

  function RawLines(lines: seq<Line>): (r: seq<bytes>)
    ensures |r| == |lines|
  {
    seq(|lines|, i requires 0 <= i < |lines| => lines[i].raw)
  }

  /** The octets of consecutive lines. */
  function RawOf(lines: seq<Line>): bytes
  {
    Concat(RawLines(lines))
  }

  lemma RawOfSnoc(lines: seq<Line>, last: Line)
    ensures RawOf(lines + [last]) == RawOf(lines) + last.raw
  {
    assert RawLines(lines + [last]) == RawLines(lines) + [last.raw];
    ConcatSnoc(RawLines(lines), last.raw);
  }
}
