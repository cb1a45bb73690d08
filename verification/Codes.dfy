/** The diagnostic codes of the producer. */
module Codes {
  import opened Bytes
  import opened JsonText

  datatype Code =
    | ArtifactChangedBeforeRead
    | ArtifactChangedDuringRead
    | ArtifactChunkSizeInvalid
    | ArtifactConfigEscape
    | ArtifactDatapathEscape
    | ArtifactDatapathMissing
    | ArtifactDatapathUnresolved
    | ArtifactEnumerationFailed
    | ArtifactOpenFailed
    | ArtifactReadFailed
    | ArtifactRootInvalid
    | ArtifactStatFailed
    | ArtifactSymlinkReadFailed
    | ArtifactTypeUnsupported
    | ConfigDirectoryUnreadable
    | ConfigEnumerationFailed
    | ConfigReadFailed
    | ConfigSourceNotFound
    | ConfigStatFailed
    | ConfigSymlinkRefused
    | EntryEncodingEmbeddedNul
    | EntryEncodingUnavailable
    | EntryLengthUnsupported
    | EntryNormalizedStrippedInvalidUtf8
    | EntryReadFailed
    | ExtractionException
    | ModuleEmpty
    | ModuleEntryCountMismatch
    | ModuleNavigationFailed
    | ModuleNavigationStalled
    | ModuleNotFound
    | ModuleTypeUnknown
    | SwordDiscoveryException
    | SwordRootInvalid

  function CodeName(c: Code): string
  {
    match c
    case ArtifactChangedBeforeRead => "artifact.changed_before_read"
    case ArtifactChangedDuringRead => "artifact.changed_during_read"
    case ArtifactChunkSizeInvalid => "artifact.chunk_size.invalid"
    case ArtifactConfigEscape => "artifact.config.escape"
    case ArtifactDatapathEscape => "artifact.datapath.escape"
    case ArtifactDatapathMissing => "artifact.datapath.missing"
    case ArtifactDatapathUnresolved => "artifact.datapath.unresolved"
    case ArtifactEnumerationFailed => "artifact.enumeration.failed"
    case ArtifactOpenFailed => "artifact.open.failed"
    case ArtifactReadFailed => "artifact.read.failed"
    case ArtifactRootInvalid => "artifact.root.invalid"
    case ArtifactStatFailed => "artifact.stat.failed"
    case ArtifactSymlinkReadFailed => "artifact.symlink.read_failed"
    case ArtifactTypeUnsupported => "artifact.type.unsupported"
    case ConfigDirectoryUnreadable => "config.directory.unreadable"
    case ConfigEnumerationFailed => "config.enumeration.failed"
    case ConfigReadFailed => "config.read.failed"
    case ConfigSourceNotFound => "config.source.not_found"
    case ConfigStatFailed => "config.stat.failed"
    case ConfigSymlinkRefused => "config.symlink.refused"
    case EntryEncodingEmbeddedNul => "entry.encoding.embedded_nul"
    case EntryEncodingUnavailable => "entry.encoding.unavailable"
    case EntryLengthUnsupported => "entry.length.unsupported"
    case EntryNormalizedStrippedInvalidUtf8 => "entry.normalized_stripped.invalid_utf8"
    case EntryReadFailed => "entry.read.failed"
    case ExtractionException => "extraction.exception"
    case ModuleEmpty => "module.empty"
    case ModuleEntryCountMismatch => "module.entry_count.mismatch"
    case ModuleNavigationFailed => "module.navigation.failed"
    case ModuleNavigationStalled => "module.navigation.stalled"
    case ModuleNotFound => "module.not_found"
    case ModuleTypeUnknown => "module.type.unknown"
    case SwordDiscoveryException => "sword.discovery.exception"
    case SwordRootInvalid => "sword.root.invalid"
  }

  function CodeText(c: Code): bytes
  {
    Text(CodeName(c))
  }
}
