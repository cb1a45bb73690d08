/** The stream grammar: what a valid document is, without any mention of the validator's state. */
module Grammar {
  import opened Bytes
  import opened Records
  import opened Sha256Spec
  import opened Validation
  import Annotation
  import Paths
  import Utf8

  /** A record of its own, or a bracketed artifact group. */
  datatype Item =
    | Single(line: Line)
    | Group(begin: Line, chunks: seq<Line>, end: Line)

  datatype Document = Document(header: Line, items: seq<Item>, footer: Line)

  function ItemLines(item: Item): seq<Line>
  {
    match item
    case Single(line) => [line]
    case Group(begin, chunks, end) => [begin] + chunks + [end]
  }

  function ItemsLines(items: seq<Item>): seq<Line>
  {
    if items == [] then [] else ItemsLines(items[..|items| - 1]) + ItemLines(items[|items| - 1])
  }

  /** Everything the footer's totals and digest cover. */
  function BodyLines(header: Line, items: seq<Item>): seq<Line>
  {
    [header] + ItemsLines(items)
  }

  function DocumentLines(d: Document): seq<Line>
  {
    BodyLines(d.header, d.items) + [d.footer]
  }

  predicate ItemShape(item: Item)
  {
    match item
    case Single(line) =>
      line.record.Module? || line.record.ConfigSource? || line.record.ConfigEntry?
      || line.record.Entry? || line.record.Diagnostic?
    case Group(begin, chunks, end) =>
      begin.record.ArtifactBegin? && end.record.ArtifactEnd?
      && forall i :: 0 <= i < |chunks| ==> chunks[i].record.ArtifactChunk?
  }

  predicate Shaped(items: seq<Item>)
  {
    forall i :: 0 <= i < |items| ==> ItemShape(items[i])
  }

  /** Header, items and footer in the right places. */
  predicate Shape(d: Document)
  {
    d.header.record.Header? && d.footer.record.Footer? && Shaped(d.items)
  }

  // What a record must be on its own.

  ghost predicate IsText(b: bytes)
  {
    exists text: seq<Utf8.scalar> :: Utf8.EncodeAll(text) == b
  }

  /** The path is that of the components; that of a directory may end in a separator. */
  predicate Spells(path: bytes, components: seq<bytes>, directory: bool)
  {
    Paths.NormalComponents(components)
    && (path == Paths.Join(components) || (directory && path == Paths.Join(components) + [0x2f]))
  }

  ghost predicate IsRelative(path: bytes)
  {
    exists components :: Spells(path, components, false)
  }

  /** An extraction announces chunks of 4 KiB to 16 MiB. */
  predicate HeaderStands(command: Command, chunkSize: Option<int>)
  {
    command == List || (chunkSize.Some? && 4096 <= chunkSize.value <= 16 * 1024 * 1024)
  }

  /** Texts are UTF-8, the segments are the raw octets, and nothing in the scope is negative. */
  ghost predicate EntryStands(e: EntryData)
  {
    && (e.normalizedRaw.Some? ==> IsText(e.normalizedRaw.value))
    && (e.normalizedStripped.Some? ==> e.normalizedRaw.Some? && IsText(e.normalizedStripped.value))
    && Concat(Annotation.RawParts(e.segments)) == e.raw
    && match e.scope
       case SwordKey(index) => index >= 0
       case VerseKey(index, testament, book, chapter, verse, suffix) =>
         index >= 0 && testament >= 0 && book >= 0 && chapter >= 0 && verse >= 0 && 0 <= suffix < 256
  }

  /** Twelve mode bits, a place, the size a file is expected to have, and the target of a link, without NUL. */
  predicate BeginStands(r: Record)
    requires r.ArtifactBegin?
  {
    && 0 <= r.mode < 0x1000
    && Spells(r.path, Components(r), r.fileType == Directory)
    && match r.fileType
       case Regular => r.sizeExpected.Some? && r.sizeExpected.value >= 0
       case Directory => true
       case Symlink => r.target.Some? && forall i :: 0 <= i < |r.target.value| ==> r.target.value[i] != 0
  }

  // What the items before an item amount to.

  /** The section an item belongs to; diagnostics belong to none. */
  function Section(item: Item): nat
  {
    match item
    case Single(line) =>
      (match line.record
       case Module => 1
       case ConfigSource(_, _, _) => 2
       case ConfigEntry(_, _, _) => 3
       case Entry(_) => 4
       case _ => 0)
    case Group(_, _, _) => 5
  }

  predicate NothingAfterSection(items: seq<Item>, section: nat)
  {
    forall i :: 0 <= i < |items| ==> Section(items[i]) <= section
  }

  /** The number of single items of one record type. */
  function Count(items: seq<Item>, t: RecordType): nat
  {
    if items == [] then 0
    else
      var last := items[|items| - 1];
      Count(items[..|items| - 1], t) + if last.Single? && TypeOf(last.line.record) == t then 1 else 0
  }

  /** The number of diagnostics of one severity. */
  function Severe(items: seq<Item>, severity: Severity): nat
  {
    if items == [] then 0
    else
      var last := items[|items| - 1];
      Severe(items[..|items| - 1], severity)
      + if last.Single? && last.line.record.Diagnostic? && last.line.record.severity == severity then 1 else 0
  }

  function Diagnostics(items: seq<Item>): (r: DiagnosticCounts)
    ensures r.info >= 0 && r.warning >= 0 && r.error >= 0
  {
    DiagnosticCounts(Severe(items, Info), Severe(items, Warning), Severe(items, Error))
  }

  function Datas(chunks: seq<Line>): (r: seq<bytes>)
    requires forall i :: 0 <= i < |chunks| ==> chunks[i].record.ArtifactChunk?
    ensures |r| == |chunks|
  {
    seq(|chunks|, i requires 0 <= i < |chunks| => chunks[i].record.data)
  }

  /** The octets a group carries. */
  function GroupContent(g: Item): bytes
    requires g.Group? && ItemShape(g)
  {
    match g.begin.record.fileType
    case Regular => Concat(Datas(g.chunks))
    case Directory => []
    case Symlink => if g.begin.record.target.Some? then g.begin.record.target.value else []
  }

  /** The artifact a group describes. */
  function GroupArtifact(g: Item): Artifact
    requires g.Group? && ItemShape(g)
  {
    var b, content := g.begin.record, GroupContent(g);
    Artifact(b.id, b.path, Components(b), b.fileType, b.mode,
             if b.fileType == Symlink then b.target else None, |content|, Sha256Hex(content))
  }

  function Artifacts(items: seq<Item>): seq<Artifact>
    requires Shaped(items)
  {
    if items == [] then []
    else
      var before, last := Artifacts(items[..|items| - 1]), items[|items| - 1];
      if last.Group? then before + [GroupArtifact(last)] else before
  }

  /** The octets of all groups. */
  function Octets(items: seq<Item>): nat
    requires Shaped(items)
  {
    if items == [] then 0
    else
      Octets(items[..|items| - 1])
      + if items[|items| - 1].Group? then |GroupContent(items[|items| - 1])| else 0
  }

  function ArtifactPaths(artifacts: seq<Artifact>): set<seq<bytes>>
  {
    set a | a in artifacts :: a.components
  }

  /** Chunk `i` of `n`: numbered, tagged, nonempty and full unless it is the last one. */
  predicate ChunkInPlace(r: Record, id: int, i: int, n: int, chunkSize: int)
    requires r.ArtifactChunk?
  {
    r.id == id && r.index == i && 0 < |r.data| <= chunkSize && (i < n - 1 ==> |r.data| == chunkSize)
  }

  /** A group on its own: brackets, chunk discipline, digest and size of its content. */
  predicate GroupOk(g: Item, chunkSize: int)
    requires g.Group? && ItemShape(g)
  {
    var b, e := g.begin.record, g.end.record;
    && BeginStands(b)
    && (b.fileType != Regular ==> g.chunks == [])
    && (forall i :: 0 <= i < |g.chunks| ==> ChunkInPlace(g.chunks[i].record, b.id, i, |g.chunks|, chunkSize))
    && e.id == b.id
    && e.size == |GroupContent(g)|
    && e.sha256 == Sha256Hex(GroupContent(g))
    && (b.fileType == Regular ==>
          e.stable.Some? && (e.stable.value ==> b.sizeExpected == Some(|GroupContent(g)|)))
  }

  /** What an item must be, given the items before it. */
  ghost predicate ItemOk(header: Record, before: seq<Item>, item: Item)
    requires header.Header? && ItemShape(item) && Shaped(before)
  {
    match item
    case Single(line) =>
      (match line.record
       case Module => NothingAfterSection(before, 1) && (header.command == Extract ==> Count(before, ModuleType) == 0)
       case ConfigSource(ordinal, path, _) =>
         InExtract(header, before, 2) && ordinal == Count(before, ConfigSourceType)
         && IsRelative(path)
       case ConfigEntry(ordinal, _, _) => InExtract(header, before, 3) && ordinal == Count(before, ConfigEntryType)
       case Entry(e) => InExtract(header, before, 4) && e.ordinal == Count(before, EntryType) && EntryStands(e)
       case _ => true)
    case Group(begin, chunks, end) =>
      InExtract(header, before, 5)
      && header.chunkSize.Some? && GroupOk(item, header.chunkSize.value)
      && begin.record.id == |Artifacts(before)|
      && Components(begin.record) !in ArtifactPaths(Artifacts(before))
  }

  predicate InExtract(header: Record, before: seq<Item>, section: nat)
    requires header.Header?
  {
    header.command == Extract && Count(before, ModuleType) == 1 && NothingAfterSection(before, section)
  }

  ghost predicate ItemsOk(header: Record, items: seq<Item>)
    requires header.Header? && Shaped(items)
  {
    forall i :: 0 <= i < |items| ==> ItemOk(header, items[..i], items[i])
  }

  predicate Sequenced(lines: seq<Line>)
  {
    forall i :: 0 <= i < |lines| ==> lines[i].sequence == i
  }

  function TypeCount(lines: seq<Line>, t: RecordType): nat
  {
    if lines == [] then 0
    else TypeCount(lines[..|lines| - 1], t) + if TypeOf(lines[|lines| - 1].record) == t then 1 else 0
  }

  /** One count for every record type that occurs, and no other. */
  ghost predicate CountsAgree(counts: map<RecordType, int>, lines: seq<Line>)
  {
    forall t: RecordType ::
      (t in counts <==> TypeCount(lines, t) > 0) && (t in counts ==> counts[t] == TypeCount(lines, t))
  }

  /** Totals, digest and verdict of the footer against the body. */
  ghost predicate FooterAgrees(footer: Record, header: Line, items: seq<Item>)
    requires footer.Footer? && header.record.Header? && Shaped(items)
  {
    && footer.streamSha256 == Sha256Hex(RawOf(BodyLines(header, items)))
    && CountsAgree(footer.counts, BodyLines(header, items))
    && footer.entries == Count(items, EntryType)
    && footer.artifacts == |Artifacts(items)|
    && footer.artifactBytes == Octets(items)
    && footer.diagnostics == Diagnostics(items)
    && footer.success == (Severe(items, Error) == 0)
    && (header.record.command == Extract && footer.success ==> Count(items, ModuleType) == 1)
  }

  /** A valid document. */
  ghost predicate Valid(d: Document)
    requires Shape(d)
  {
    && HeaderStands(d.header.record.command, d.header.record.chunkSize)
    && ItemsOk(d.header.record, d.items)
    && Sequenced(DocumentLines(d))
    && FooterAgrees(d.footer.record, d.header, d.items)
  }
}
