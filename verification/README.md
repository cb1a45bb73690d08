# A verified model of the lossless export stream

getBibleSword exports a CrossWire SWORD module as a stream of numbered, hashed NDJSON records: a C++ producer writes the
stream, an independent Python consumer validates it and rebuilds the module's files from it. This project models both
sides in Dafny, as the code has them, and proves how they fit together.

The layers, each a few modules:

| layer | modules | what is proved |
|---|---|---|
| octets and codecs | Bytes, Sha256Spec, Sha256Stream, Sha256Constants, Sha256Vectors, Base64, Utf8, JsonText, JsonLines, ByteValue, Quotes, Annotation, Paths | each loop computes the function its standard defines, encoding is undone by decoding, and what these functions compute is pinned by statements that do not use them |
| JSON | JsonParse, JsonObjects, JsonGrammar, JsonTokens, JsonDerived, JsonTheorem | the parser reads exactly the texts of the RFC's grammar in which no object repeats a name |
| output path | CallbackStream, Writer, Reading, Readback, RecordLimit | what the callback gets is a prefix of what was written; the writer's books are right in every state; the written octets read back as the emitted records |
| record codec | RecordText, RecordCodec, RecordDetail, RecordReading, RecordTrip, RecordLines, DetailShape, Embedding, FooterTrip, Printables, Schema | every record a run can write is printable with whatever details, passes every check of shape, and reading its line gives the record back; every line keeps to the published schema, and says under which name what |
| consumer | Validation, Consumer, Grammar, Acceptance | the class with its mutable fields accepts exactly the documents of a declarative grammar |
| producer | Session, Codes, Traversal, Configuration, Discovery, Artifacts, Extraction, Grounds, Contents | what each step emits, counts and reports, for every answer of the file system and of the library, and with an exception striking between records or inside a diagnostic; for every diagnostic code when it is in the stream |
| agreement | Production, Delivery, Capture, Agreement, Octets, Shortfalls, Success | a finished stream is accepted if and only if the course of the run was acceptable, over records and over octets; what a footer that reports success stands for |
| reassembly | Host, Reassembly, LinkTargets, Lexical, StageTree, Listing, SecondPass, RoundTrip, HostStage, LinksFollowed, Placing, Detours, EndToEnd, WholeTrip, Tool | on a file system with links: when the second pass goes through one, and where it then writes; that any accepted stream restores exactly what it lists if and only if that can be built; a successful, accepted extraction is turned back into exactly the captured tree, from its octets alone |
| C interface | CApi, Concurrency | the status says truly what happened; one operation at a time; no deadlock |

Code that changes state in place is a class or a method with loops here too, proved against a function; what is then
proved about that function holds of the code's form as well. Specification functions follow FIPS 180-4 (SHA-256), RFC 4648
(Base64), RFC 3629 (UTF-8) and RFC 8259 (JSON).

## The main results

1. `CApi.RunStreamingOperation` with `Octets.DeliveredOctetsAgree`: whatever the library, the file system and the callback
   do, a streaming call either reports truly why its output was cut off, or its callback has taken a complete stream. The
   octets of that stream pass the validator (`Octets.ValidateStream`) if and only if no line exceeds the limit and, for an
   extraction, the run was acceptable.
2. `Tool.ReassembleStream` with `Tool.OctetsReassemble`: when such a call reports success and its run was acceptable, the
   tool, given the octets, ends with exactly the captured directories, files and links, with masked modes, and besides
   them only the directories above them, if and only if there is no output yet, links are asked for and are safe as spelled
   wherever there are any, and nothing was captured below what was no directory. `Tool.StreamRestored` is the same for any
   octets, whoever wrote them: exactly what is listed comes out if and only if the stream is accepted, what it asks for is
   allowed and its list can be built. Both hold whatever links are followed on the way. If nothing is captured, or listed,
   below a link, there is no third outcome: otherwise nothing comes out, and nothing outside the staging directory changes.
   `Tool.StreamThrough` says when links are followed: exactly when the pass reaches an artifact below a link that is listed
   before it and leads to a directory at that moment; `Detours` shows that this happens, and how far it leads.
3. `Acceptance.AcceptsIffGrammatical` with `Consumer.Validator.Validate`: the validator returns a summary if and only if
   the lines are those of a valid document. The grammar knows nothing of phases, counters or open groups, and says itself
   what a header, an entry and an artifact_begin must be. `Octets.AcceptedKeepSchema`: every line of an accepted stream
   keeps to schema/v1/contract.schema.json; so does every line of a finished stream, accepted or not
   (`Octets.DeliveredOctetsAgree`).
4. `Extraction.ExtractModule` with `Agreement.LinesAgree`: the same agreement over records, for every course a run can
   take, with an exception striking between any two records of the guarded part or inside a counted diagnostic. What an
   undisturbed extraction says is also stated without the functions the methods are proved against: of each entry
   (`Traversal.WalkTells`), of configuration and artifacts (`Contents.ConfigurationIff`, `Contents.ArtifactsTell`), and for
   each diagnostic code exactly when it is there (`Grounds.DiagnosticIff`). `CApi.UndisturbedListing`: a listing that
   nothing disturbs has one record for each module and succeeds.
5. `Success.SuccessMeans`: `success: true` implies that configuration, traversal, discovery and capture all succeeded and
   that every file is complete and stable, although the code drops the result flags.
6. `Sha256Stream.HashInPieces`, `Utf8.IsValidUtf8`, `Base64.AcceptedIsImage`, `ByteValue.ByteValueRoundTrip`,
   `Embedding.FullLineRead`, `FooterTrip.FooterLineRead`: the codecs, up to whole record lines. That SHA-256 is SHA-256 is
   said by `Sha256Constants.ConstantsAreRoots`, which derives every constant from its prime, and by the literal digests of
   `Sha256Vectors`; that Base64 keeps the bits, by `Base64.EncodeKeepsBits`.
7. `JsonTheorem.ParsedIffDerived`: a text parses to a value if and only if the grammar of RFC 8259 derives the value from
   it and no object in it repeats a name, at whatever depth. `Octets.RepeatedNameRefused`: no stream with a line that
   repeats one is accepted.
8. `Annotation.SegmentsIff`: the segmentation of markup is the only one in which every segment is what its characters
   make it; what a quote is, is said by the quotation marks alone (`Quotes`).
9. `CApi.StatusNamesRefusal` and the state machine of `Concurrency`: the status is faithful over whole runs, an internal
   error exactly when no answer was a refusal and no complete stream was written; one operation at a time, no deadlock,
   every call returns.

## Where the code falls short of its documentation

The documentation says that a failed extraction still closes with a valid stream (docs/architecture.md:56-57,
docs/c-api-v1.md:204). `Agreement.Acceptable` is the exact condition; `Shortfalls` holds a concrete run for each way to miss
it that is listed here:

- an exception after the first artifact record skips the assignment of the footer's artifact totals
  (src/sword_extractor.cpp:804-807), so the footer contradicts the stream;
- an exception inside `emit_diagnostic` comes after the counter has been raised (src/sword_extractor.cpp:73-83), so the
  footer counts a diagnostic that is not there;
- a `read` that returns fewer octets than asked for before the end of a file makes a short chunk in the middle, which the
  validator refuses (tools/getbiblesword_v1.py:687-690);
- a file that reports another size than it has, without changing, is marked stable with a size the validator refuses
  (tools/getbiblesword_v1.py:718-719);
- a data path that is the root itself is exported under the path `.`, which the validator refuses
  (tools/getbiblesword_v1.py:206-210);
- the library may report an index or scope numbers outside the validator's ranges (tools/getbiblesword_v1.py:578-607);
- a foreign converter may give text that is no UTF-8 (tools/getbiblesword_v1.py:506-517);
- a link whose target holds a NUL is refused (tools/getbiblesword_v1.py:646-657);
- the library takes chunk sizes the validator refuses (tools/getbiblesword_v1.py:409-416), though the program and the C
  interface do not.

Nor is a reconstructed link never followed (docs/threat-model.md:31-32, docs/validator-v1.md:48-49): `os.makedirs` goes
through a link that leads to a directory (tools/getbiblesword_v1.py:838-840), and `O_NOFOLLOW` guards the last component
only (910-925). When a pass does so is `LinksFollowed.AcceptedThrough`. In `Detours.InsideDetour` a file comes to lie in
another directory of the tree than the stream says, in `Detours.OutsideDetour` outside the staging directory; both streams
come from possible runs, are accepted, and have links the tool permits, and the tool ends as if all were well. The check of
link targets (843-861) looks at their spelling. Followed, a permitted link leaves the restored tree exactly if its target
goes up from the top of the tree after it has run through another link (`LinkTargets.PermittedLeavesIff`; one that does is
`Detours.SafeLinkLeaves`). If in every target all `..` come before the first name, none does
(`LinkTargets.PermittedClimbersStay`).

An allocation that fails inside a single `emit`, after the record is hashed and before its number goes on
(src/ndjson_writer.cpp:28-30), is not part of the runs; what it leads to is `Shortfalls.RepeatedNumberRefused`.

Two more differences do not concern acceptance. A dictionary that declares no entries still has one position visited
(`Traversal.EmptyDictionaryWalk`). And the producer allows chunks of 16 MiB, but a chunk line may then exceed the
validator's default limit (`RecordLimit.LargestChunksDoNot`); `RecordLimit.FitsIff` is the exact bound and
`RecordLimit.ChunksFitDefault` shows that chunks of up to 8 MiB always fit.

## Reading the model

- `Records.Line` is one line of the stream: its octets, its number and the record it stands for. On the producer's side
  the record is what was emitted; on the consumer's side it is what `RecordReading.LineFrom` reads from the octets; that
  both are the same is `Octets.StreamRead`. `Grammar.Document` is a stream as a value: a header, items (single records or
  bracketed artifact groups) and a footer.
- `Session.Fault` is one exception from foreign code (the library, or memory exhaustion) that may strike between any two
  records of the guarded part of an operation, also inside a counted diagnostic, and is caught there. Failures of the
  output stream are modelled separately and completely: any write may be refused. `CallbackStream.OutputStream.memory` is
  the number of writes that memory suffices for, if not for all; after that an exception escapes.
- `Session.Played(a, b, rs, counted, thrown)` says that the records `rs` have been emitted between two states, all of them,
  or up to the point where an exception broke them off.
- `Session.Rendering` is what the producer prints of the record at each position of a stream. `Octets.Expressive` says that
  it prints the members that carry the record (`RecordCodec.PartsOf`) and, at each position anew, some detail
  (`RecordDetail.Detail`): versions, the description of a module, entry attributes and the names in a scope, message and
  context of a diagnostic. Equal records may be printed with different details.
- `Extraction.Course` is the course of a run: refused, whole, or broken off before or among the artifacts.
- `Host` is the file system of the consumer: absolute paths, each with a directory, a file or a link. Every path is resolved
  from the staging directory through links, at most 40 of them, and physically up, with the search permission each
  directory has at that moment; an open file is known by the place it was opened at. `Host.HostRun` is the second pass on
  it, `Host.Inside` what is below the staging directory afterwards, `Host.Untouched` that nothing else has changed.
- `Lexical` is what the pass would be if every path led where it is spelled and a link in the way were an obstacle. It is
  not the behaviour of the code but the reference: `HostStage.RunBeside` proves both the same as long as no link is gone
  through, and the modules StageTree, SecondPass and RoundTrip are about it.
- `Artifacts.Observation` is what the file system shows of one candidate, with every result of `lstat`, `open`, `fstat`,
  `read` and `readlink`.

## Model

| member | source | states |
|---|---|---|
| `Acceptance.AcceptsIffGrammatical` | tools/getbiblesword_v1.py:280-348 | the validator accepts a sequence of lines if and only if some valid document has exactly these lines |
| `Acceptance.AcceptsIffValid` | tools/getbiblesword_v1.py:280-348 | for every document in the right shape: its lines are accepted if and only if ordinals, ids, sections, groups, tallies, byte sums, digest and verdict are as the grammar demands |
| `Acceptance.BodyRun` | tools/getbiblesword_v1.py:350-377 | header and items run through exactly when each item is in order and numbered in sequence, and the state then holds exactly what the items say |
| `Acceptance.GroupRun` | tools/getbiblesword_v1.py:617-735 | a bracketed group is taken exactly when begin, chunks and end agree on id, indices, sizes and digest, and leaves one artifact behind |
| `Acceptance.FooterIs` | tools/getbiblesword_v1.py:748-809 | the footer check against the running totals is the footer clause of the grammar over the items |
| `Acceptance.AcceptedShape` | tools/getbiblesword_v1.py:280-348 | any accepted stream can be arranged as one document: no other order of lines gets through |
| `Consumer.Validator.Validate` | tools/getbiblesword_v1.py:280-348 | reading a whole stream returns a summary if and only if the stream is accepted, and the summary lists the totals of the run |
| `Consumer.Validator.ValidateLine` | tools/getbiblesword_v1.py:299-324 | one line as read: number, footer or record handler, tally and hash; fails exactly when the specification step does |
| `Consumer.Validator.ValidateRecord` | tools/getbiblesword_v1.py:350-372 | dispatch on the type; every handler computes the specification step on the fields |
| `Consumer.Validator.Advance` | tools/getbiblesword_v1.py:374-377 | sections may repeat but never go back |
| `Consumer.Validator.ValidateHeader` | tools/getbiblesword_v1.py:379-416 | one header, first; an extract header needs a chunk size in range |
| `Consumer.Validator.ValidateModule` | tools/getbiblesword_v1.py:418-445 | at most one module in an extract stream |
| `Consumer.Validator.ValidateConfigSource` | tools/getbiblesword_v1.py:453-466 | consecutive ordinals and a normalised relative path |
| `Consumer.Validator.ValidateConfigEntry` | tools/getbiblesword_v1.py:468-480 | consecutive ordinals |
| `Consumer.Validator.ValidateEntry` | tools/getbiblesword_v1.py:482-547 | consecutive ordinals; texts that are UTF-8; segments that join to the raw octets; scope numbers in range |
| `Consumer.Validator.Reconstructs` | tools/getbiblesword_v1.py:524-544 | joining the segments in a loop and comparing decides whether they are the raw octets |
| `Consumer.Validator.ValidateArtifactBegin` | tools/getbiblesword_v1.py:617-667 | opens a group when none is open, the id is the next one, the path is normalised and new, and the fields fit the file type |
| `Consumer.Validator.ValidateArtifactChunk` | tools/getbiblesword_v1.py:669-693 | a chunk of the open file, in order, not empty, not too long, and only the last may be short; it is hashed and counted |
| `Consumer.Validator.ValidateArtifactEnd` | tools/getbiblesword_v1.py:695-735 | closes the open group when size and digest are those of its octets, and of a stable file also the expected size |
| `Consumer.Validator.ValidateDiagnostic` | tools/getbiblesword_v1.py:737-746 | anywhere but inside a group; tallied by severity |
| `Consumer.Validator.ValidateFooter` | tools/getbiblesword_v1.py:748-809 | digest, tallies, totals and verdict all equal those of the lines before |
| `Octets.DeliveredOctetsAgree` | src/c_api.cpp:78-141 | when a call returns with a complete stream, the octets its callback took pass the validator if and only if no line is too long and an extraction was acceptable |
| `Octets.ExtractionOctetsAgree` | src/sword_extractor.cpp:748-829 | the octets of a finished extraction pass the validator if and only if the run was acceptable and no line is too long |
| `Octets.ListingOctetsAgree` | src/sword_extractor.cpp:723-746 | the octets of a finished listing pass the validator if and only if no line is too long |
| `Octets.ValidateStream` | tools/getbiblesword_v1.py:280-348 | framing, parsing and validation of a stream of octets return a summary if and only if the octets are accepted |
| `Octets.AcceptedIsJson` | tools/getbiblesword_v1.py:65-79 | every line of an accepted stream is one JSON object, and no object in it repeats a name |
| `Octets.RepeatedNameRefused` | tools/getbiblesword_v1.py:65-72 | a stream is refused if an object on one of its lines, at whatever depth, repeats a name |
| `Octets.AcceptedKeepSchema` | schema/v1/contract.schema.json:1-159 | every line of an accepted stream keeps to the published schema |
| `Octets.SpelledKeepSchema` | schema/v1/contract.schema.json:1-159 | so does every line of a finished stream, and its members say what its record says |
| `Schema.LineTells` | tools/getbiblesword_v1.py:350-746 | the record that is read from a line says what the members of the expected names say, and the line keeps to the schema |
| `Schema.DecodedIs` | tools/getbiblesword_v1.py:134-169 | an object that decodes is a byte value by the schema |
| `Octets.StreamRead` | tools/getbiblesword_v1.py:280-298 | a stream of legible lines is read as exactly these lines with their records, unless one is too long |
| `Octets.SpelledLegible` | src/ndjson_writer.cpp:13-63 | every line of a finished stream, the footer included, says what its record says |
| `Octets.PlainIsExpressive` | src/ndjson_writer.cpp:13-31 | renderings as the other results suppose them exist: the one whose details say nothing is one |
| `Octets.DetailReserved` | src/ndjson_writer.cpp:13-19 | whatever the details, no member is called like the two the writer adds |
| `Octets.ReadStream` | tools/getbiblesword_v1.py:280-298 | framing and reading every line give the lines of the stream, or nothing where one is not readable |
| `Tool.OctetsReassemble` | tools/getbiblesword_v1.py:1001-1043 | for the octets of a successful, acceptable extraction the tool ends with exactly the captured tree if and only if there is no output yet, links are allowed and safe as spelled and what was captured is a tree, whatever links are followed; with nothing captured below a link it ends with nothing otherwise, and nothing outside changes |
| `Tool.StreamRestored` | tools/getbiblesword_v1.py:1001-1043 | for any octets: exactly what is listed comes out if and only if the stream is accepted, permitted and buildable, whatever links are followed; with nothing listed below a link nothing comes out otherwise, and nothing outside changes |
| `Tool.ReassembleStream` | tools/getbiblesword_v1.py:1001-1043 | validation, the checks, the second pass over the same octets on the file system and the modes: what comes out is what the specification of both passes says |
| `Tool.PermittedIs` | tools/getbiblesword_v1.py:882-894 | a stream that reports a successful extraction permits reassembly exactly when there is no output yet and its links are allowed and safe as spelled |
| `Tool.CapturedLinks` | tools/getbiblesword_v1.py:889-894 | the listed links are allowed and safe as spelled exactly when the captured ones are |
| `Tool.StreamThrough` | tools/getbiblesword_v1.py:838-925 | for any octets that are accepted and permitted: the pass goes through a link exactly when it reaches an artifact below a link that is listed before it and leads to a directory at that moment |
| `LinksFollowed.AcceptedThrough` | tools/getbiblesword_v1.py:838-925 | the second pass over any accepted stream goes through a link if and only if it reaches an artifact below a link that is listed before it and leads to a directory at that moment |
| `LinksFollowed.RunThroughIffMeets` | tools/getbiblesword_v1.py:904-942 | the same from any point up to which the pass did what is spelled |
| `LinksFollowed.ThroughIffMeets` | tools/getbiblesword_v1.py:838-840 | the same for one artifact: the way to its place is another than the spelled one exactly if a link listed before is above it and leads to a directory |
| `LinksFollowed.AcceptedOnHost` | tools/getbiblesword_v1.py:904-942 | with nothing listed below a link: the pass goes through if and only if in the list what has something below it is a directory and comes first; then every artifact is in its place with the listed size and digest, and nothing else is there or has changed |
| `LinksFollowed.RestoredOnHost` | tools/getbiblesword_v1.py:904-945 | and with the modes set: exactly what is listed is restored |
| `LinksFollowed.ListedTreeIff` | tools/getbiblesword_v1.py:904-945 | for any list: exactly what is listed comes out if and only if the list can be built, whatever links are followed |
| `LinksFollowed.ThroughMisplaces` | tools/getbiblesword_v1.py:838-925 | an artifact that is begun through a link is not at its own place: that is left empty |
| `HostStage.RunBeside` | tools/getbiblesword_v1.py:904-942 | as long as no link is gone through, the pass does in the stage what the spelling says, fails exactly when that does, and changes nothing else |
| `HostStage.ParentsBeside` | tools/getbiblesword_v1.py:838-840 | `os.makedirs` does in the stage what the spelling says unless the way goes through a link |
| `HostStage.HostRunKeeps` | tools/getbiblesword_v1.py:904-942 | whatever links are followed, the file system is a tree at every moment, and what was there stays |
| `HostStage.ModesBeside` | tools/getbiblesword_v1.py:943-945 | modes that can be set by spelling can be set on the file system, with the same effect |
| `LinkTargets.PermittedLeavesIff` | tools/getbiblesword_v1.py:843-861 | a permitted link of the restored tree, followed, leaves the tree if and only if its target goes up from the top after it has run through another listed link |
| `LinkTargets.PermittedStays` | tools/getbiblesword_v1.py:843-861 | in all other cases what the link leads to, if anything, is in the tree |
| `LinkTargets.PermittedClimbersStay` | tools/getbiblesword_v1.py:843-861 | if in every listed target all ways up come before the first name, no permitted link leaves the tree |
| `Detours.InsideFine` | src/sword_extractor.cpp:748-829 | a module with a file below a link to a directory next to it can be extracted, and its stream is accepted |
| `Detours.InsideDetour` | tools/getbiblesword_v1.py:838-925 | given its octets, the tool ends with a tree in which the file is in the directory the link leads to, and not where it is listed |
| `Detours.OutsideFine` | src/sword_extractor.cpp:748-829 | so can a module with a file below a link that leads out through another link |
| `Detours.OutsideLinksStay` | tools/getbiblesword_v1.py:843-861 | its links are safe as spelled |
| `Detours.OutsideDetour` | tools/getbiblesword_v1.py:838-925 | given its octets, the tool ends with a tree, and the file is outside the staging directory, wherever there is room for it |
| `Detours.SafeLinkLeaves` | tools/getbiblesword_v1.py:843-861 | the second of its links is safe as spelled and leaves the tree |
| `Listing.AcceptedListed` | tools/getbiblesword_v1.py:617-735 | the list of an accepted stream numbers its artifacts, has each place once, normalised, and every link with its target |
| `Listing.ListGrows` | tools/getbiblesword_v1.py:722-735 | artifacts are only ever added, and an open group becomes the next one |
| `StageTree.RebuiltIsClosed` | tools/getbiblesword_v1.py:904-942 | no file tree holds everything captured unless what has something captured below it was captured as a directory |
| `WholeTrip.OctetsRebuildTree` | tools/getbiblesword_v1.py:873-956 | when a call reports success, its octets are read as an accepted stream whose second pass leaves exactly the captured tree if and only if nothing was captured below what was no directory; with nothing captured below a link it ends with nothing otherwise, and nothing outside changes |
| `WholeTrip.SuccessfulExtraction` | src/c_api.cpp:107-125 | a call that reports success ran to its end on a known module without an error |
| `RecordLines.LineRead` | src/ndjson_writer.cpp:13-31 | a printed record, with whatever further members of the right shape, is one line, and the validator reads that record from it |
| `Embedding.FullLineRead` | src/ndjson_writer.cpp:13-31 | whatever details the producer prints with a record, it is one line, and the validator reads that record from it |
| `Embedding.FullShaped` | tools/getbiblesword_v1.py:350-746 | whatever details the producer prints with a record, they pass every check of shape |
| `Embedding.FullEmbedded` | tools/getbiblesword_v1.py:172-181 | nothing at any depth of a printed line looks like a byte value without being one |
| `DetailShape.ModuleShaped` | tools/getbiblesword_v1.py:418-445 | the printed description of a module has a known classification, its envelopes and its codes |
| `DetailShape.AttributesShaped` | tools/getbiblesword_v1.py:549-576 | printed entry attributes are lists of lists of named values |
| `DetailShape.ScopeShaped` | tools/getbiblesword_v1.py:578-615 | a printed scope has the names and the introduction its kind asks for |
| `DetailShape.FullDistinct` | src/sword_extractor.cpp:103-225 | no two members of a line have one name, whatever the context of a diagnostic is |
| `RecordDetail.DetailPrinted` | src/sword_extractor.cpp:103-225 | every detail is printed as the JSON values it stands for |
| `FooterTrip.FooterLineRead` | src/ndjson_writer.cpp:33-63 | the printed footer is one line, and the validator reads that footer from it |
| `FooterTrip.AllCountsRead` | tools/getbiblesword_v1.py:772-781 | the printed tallies are read as the tallies |
| `FooterTrip.SeveritiesRead` | tools/getbiblesword_v1.py:791-803 | the printed diagnostic totals are read as the totals, with no severity missing or added |
| `RecordTrip.RecordRead` | tools/getbiblesword_v1.py:350-746 | the printed members of any printable record are read as the record |
| `RecordTrip.HeaderRead` | tools/getbiblesword_v1.py:379-416 | a printed header is read with its command and chunk size |
| `RecordTrip.EntryRead` | tools/getbiblesword_v1.py:482-547 | a printed entry is read with its texts, segments, projections and scope |
| `RecordTrip.SegmentsRead` | tools/getbiblesword_v1.py:524-542 | printed segments are read as the segments |
| `RecordTrip.ScopeRead` | tools/getbiblesword_v1.py:578-610 | a printed scope of either kind is read as the scope |
| `RecordTrip.BeginRead` | tools/getbiblesword_v1.py:628-657 | a printed artifact_begin is read with target and expected size where its file type has them |
| `RecordTrip.EndRead` | tools/getbiblesword_v1.py:700-717 | a printed artifact_end is read with its stability where it has one |
| `RecordTrip.ChunkRead` | tools/getbiblesword_v1.py:674-682 | a printed chunk is read as the chunk |
| `RecordTrip.DiagnosticRead` | tools/getbiblesword_v1.py:740-746 | a printed diagnostic is read with code and severity |
| `RecordCodec.RecordPrinted` | src/sword_extractor.cpp:659-671 | every member of a printable record is printed as the JSON value it stands for |
| `RecordText.AnnotationSegmentsJson` | src/annotation.cpp:83-100 | the printing loop over the segments is the text of their array |
| `RecordText.SegmentPrinted` | src/annotation.cpp:94-96 | a printed segment stands for its interpretation, kind and raw octets |
| `RecordText.SignedPrinted` | src/sword_extractor.cpp:505-518 | a signed number is printed as the number it is |
| `Printables.ExtractionPrintable` | src/sword_extractor.cpp:748-829 | whatever course an extraction takes, every record it writes can be printed |
| `Printables.ListingPrintable` | src/sword_extractor.cpp:723-746 | so can every record a listing writes |
| `RecordLimit.ChunkFieldsAre` | src/artifact.cpp:314-318 | the members whose length is computed are those that carry a chunk record |
| `Agreement.ExtractionAgrees` | src/sword_extractor.cpp:748-829 | a stream that `extract_module` finished is accepted if and only if the course of the run was acceptable |
| `Agreement.LinesAgree` | src/sword_extractor.cpp:748-829 | the same for any numbered lines with right tallies that report the course |
| `Agreement.RecordsAgree` | src/sword_extractor.cpp:748-829 | the same over records: body and footer of each possible course against the state machine of the validator |
| `Agreement.ListingAgrees` | src/sword_extractor.cpp:723-746 | every stream that `list_modules` finished is accepted, also after an exception while listing |
| `Agreement.BrokenArtifactsRefused` | src/sword_extractor.cpp:804-824 | once an artifact record is out, an exception leaves a footer the validator refuses, wherever it strikes |
| `Agreement.BrokenCountedAccepted` | src/sword_extractor.cpp:773-824 | an exception before the artifacts leaves an accepted stream exactly when it did not strike inside a counted diagnostic and the entries so far were admissible |
| `Agreement.ArtifactsAccepted` | src/artifact.cpp:199-356 | the artifact records of a whole run are taken exactly when every captured candidate is clean, with equal totals on both sides |
| `Agreement.EntryGrantedIs` | src/sword_extractor.cpp:659-671 | the entry record the producer builds is admissible exactly when scope numbers are in range and a foreign converter gave UTF-8: all else it gets right by itself |
| `Agreement.EntriesGrantedIs` | src/sword_extractor.cpp:536-703 | the entries of an extraction are admissible exactly when every visited position was |
| `Agreement.EntriesGrantedSoFar` | src/sword_extractor.cpp:773-824 | the entries that are out when an exception comes are admissible exactly when the positions they were read from were |
| `Shortfalls.RepeatedNumberRefused` | src/ndjson_writer.cpp:27-30 | an exception after a record is hashed and before its number goes on: whatever follows, the stream is refused |
| `Shortfalls.IllFormedConversion` | src/source_encoding.cpp:20-91 | a possible run with an entry that a foreign converter made ill-formed is not acceptable |
| `Shortfalls.NulInTarget` | src/artifact.cpp:235-262 | a possible run with a link whose target holds a NUL is not acceptable |
| `Shortfalls.UselessChunkSize` | src/artifact.cpp:199-209 | a possible run with a chunk size out of range is not acceptable |
| `Shortfalls.ShortRead` | src/artifact.cpp:293-321 | a possible run with a short read in the middle of a file is not acceptable |
| `Shortfalls.MisreportedSize` | src/artifact.cpp:323-336 | a possible run with a stable file of another size than reported is not acceptable |
| `Shortfalls.RootAsCandidate` | src/artifact.cpp:139-144 | a possible run whose data path is the root is not acceptable |
| `Shortfalls.NegativeIndex` | src/sword_extractor.cpp:659-671 | a possible run with an entry whose key reports a negative index is not acceptable |
| `Shortfalls.ExceptionAmongArtifacts` | src/sword_extractor.cpp:804-807 | a possible run with an exception after the first artifact record is not acceptable |
| `Shortfalls.ExceptionInsideDiagnostic` | src/sword_extractor.cpp:66-84 | a possible run with an exception inside a counted diagnostic is not acceptable |
| `Success.SuccessMeans` | src/sword_extractor.cpp:791-828 | no error was counted only if the run was whole and configuration, traversal, discovery and capture succeeded, every file complete and stable |
| `Success.WalkClean` | src/sword_extractor.cpp:571-702 | a walk without an error diagnostic came to a clean end |
| `EndToEnd.CaptureThenReassemble` | tools/getbiblesword_v1.py:873-956 | a successful, accepted extraction: the second pass and the modes leave exactly the captured tree if and only if nothing was captured below what was no directory, whatever links are followed; with nothing captured below a link there is a result only then, and nothing outside changes |
| `EndToEnd.ListedArtifacts` | tools/getbiblesword_v1.py:722-734 | the validator lists exactly the captured artifacts, in order |
| `EndToEnd.OnlyGroupsBuild` | tools/getbiblesword_v1.py:906-942 | records other than artifact records leave the stage alone |
| `RoundTrip.GroupsBuild` | tools/getbiblesword_v1.py:907-942 | by spelling: after the groups of any number of candidates the stage holds exactly those captured so far and the directories above them |
| `RoundTrip.PlaceIsFree` | tools/getbiblesword_v1.py:838-917 | by spelling: in bytewise order nothing made earlier is at or below a new place, so `makedirs(exist_ok=False)` never meets a directory made as a parent |
| `RoundTrip.ParentsMade` | tools/getbiblesword_v1.py:838-840 | by spelling: the directories above a path are made where missing, only the last of them private, and kept where they are |
| `RoundTrip.TreeIsRebuilt` | tools/getbiblesword_v1.py:943-945 | by spelling: after the modes are set every captured place is as it was captured, and what else is there are directories made on the way |
| `RoundTrip.DueCanBeSet` | tools/getbiblesword_v1.py:943-945 | by spelling: the directories whose modes are due are all there, once each |
| `Reassembly.Reassemble` | tools/getbiblesword_v1.py:873-956 | the whole pass: refuses what it must refuse, otherwise does on the file system what the second pass specifies and sets the modes deepest first |
| `Reassembly.Stage.Take` | tools/getbiblesword_v1.py:907-942 | one line of the second pass computes the specification step on the file system, or fails exactly when that does |
| `Reassembly.Stage.Begin` | tools/getbiblesword_v1.py:910-925 | a place is made only where nothing is, wherever its path leads; the last component is not followed |
| `Reassembly.Stage.MakeParents` | tools/getbiblesword_v1.py:838-840 | `os.makedirs` with `exist_ok`: what is there already need only lead to a directory, and is gone through then |
| `Reassembly.Stage.WriteAll` | tools/getbiblesword_v1.py:864-870 | partial writes are continued until every octet is written, or the system takes nothing |
| `Reassembly.Stage.SetModes` | tools/getbiblesword_v1.py:943-945 | the loop over the directories is the specified change of modes |
| `Reassembly.SortByDepth` | tools/getbiblesword_v1.py:944 | the due directories, deepest first, none lost |
| `Lexical.MaskedPermits` | tools/getbiblesword_v1.py:938-945 | a mode is set bit by bit: the nine permission bits always, the three others only when asked for, and no further bit |
| `RoundTrip.FinalIsRecaptured` | tools/getbiblesword_v1.py:938-945 | what is restored is what was captured, with the mode stated by its bits |
| `Lexical.ModesCanBeSet` | tools/getbiblesword_v1.py:943-945 | by spelling: deepest first, every mode can be set whatever the modes are, and nothing else changes |
| `Reassembly.SafeSymlinkTarget` | tools/getbiblesword_v1.py:843-861 | the climbing loop accepts exactly the targets that are safe as spelled |
| `Reassembly.ClimbIs` | tools/getbiblesword_v1.py:850-861 | climbing succeeds exactly when no prefix of the target leaves the root |
| `Capture.GroupsAccepted` | src/artifact.cpp:214-350 | the groups of all candidates are taken exactly when each captured one is clean and no place comes twice; ids stay consecutive after skipped candidates |
| `Capture.GroupAccepted` | src/artifact.cpp:225-337 | the records of one captured candidate are taken exactly when it is clean and new, and leave its artifact behind |
| `Capture.ChunksAccepted` | tools/getbiblesword_v1.py:669-693 | the chunks of a file are taken exactly when all but the last are full |
| `Capture.EndAccepted` | tools/getbiblesword_v1.py:695-735 | the end of a group is taken exactly when a stable file had the size it reported |
| `Capture.PathAccepted` | tools/getbiblesword_v1.py:192-211 | the path of a candidate passes exactly when it is not the root and only a directory has a final separator |
| `Artifacts.EmitArtifacts` | src/artifact.cpp:199-356 | the loop emits the groups of the captured candidates and then the deferred diagnostics, and reports exactly those, with count, size and flag; also when broken off |
| `Artifacts.EmitCandidate` | src/artifact.cpp:214-350 | one candidate: captured as one group, or skipped with the diagnostic of its failure |
| `Artifacts.EmitFile` | src/artifact.cpp:264-337 | an opened file: begin, chunks, end with digest, size and stability, and the diagnostics of its failures |
| `Artifacts.EmitChunks` | src/artifact.cpp:289-321 | the read loop emits one chunk per read until end or failure, goes on after interruptions, and hashes what it emitted |
| `Discovery.DiscoverArtifacts` | src/artifact.cpp:109-197 | every enumerated place, each path once, strictly increasing bytewise, and nothing else; a diagnostic for every failure |
| `Discovery.EnumeratedIff` | src/artifact.cpp:123-188 | which places are enumerated, and under which role each: configuration files, the data path and what is below it, or the files beside it whose names begin with its name |
| `Discovery.Sort` | src/artifact.cpp:190-192 | sorted by path, no candidate lost or added |
| `Discovery.Unique` | src/artifact.cpp:193-195 | strictly sorted, and no path lost |
| `Discovery.DirectoriesFirst` | src/artifact.cpp:190-195 | in that order every directory comes before everything below it, however either is spelled |
| `Discovery.OnePlaceTwice` | src/artifact.cpp:193-195 | two candidates at one place differ in a final separator |
| `Discovery.DiscoveredDistinct` | src/artifact.cpp:123-195 | when the file system is consistent about the data path no place is discovered twice |
| `Paths.DirectoryBeforeContents` | src/artifact.cpp:190-192 | bytewise order of paths puts a directory before its contents, with or without final separators |
| `Paths.RelativePathIs` | tools/getbiblesword_v1.py:192-211 | the path check passes exactly for the spellings of normalised relative paths, and returns their components |
| `Extraction.ExtractModule` | src/sword_extractor.cpp:748-829 | ends with an exception only when the stream failed, refused or out of memory; otherwise the stream is complete, follows a possible course, and its footer reports the totals of that course |
| `Extraction.ExtractBody` | src/sword_extractor.cpp:773-820 | the guarded part: which records are out, counted and totalled, whether it ran to its end or an exception ended it |
| `Extraction.EmitCounted` | src/sword_extractor.cpp:773-803 | module, configuration, entries and discovery diagnostics, in order |
| `Extraction.CountReported` | src/sword_extractor.cpp:808-816 | the diagnostics of the capture are added to the totals after the fact |
| `Extraction.ReportUnknown` | src/sword_extractor.cpp:764-771 | an unknown module leaves one error and no module record |
| `Extraction.ListModules` | src/sword_extractor.cpp:723-746 | ends with an exception only when the stream failed; otherwise one record for every module and success, or, exactly where an exception strikes, the records before it and a failure |
| `Configuration.FindConfigurationFiles` | src/sword_extractor.cpp:317-403 | the defining files, sorted by path, none lost, with a diagnostic for whatever got in the way |
| `Configuration.FoundIff` | src/sword_extractor.cpp:324-397 | every captured configuration file defines the module, and every readable defining file the search comes across is captured |
| `Configuration.ScanEntries` | src/sword_extractor.cpp:359-397 | the enumeration goes on after entries it cannot inspect and stops at one it cannot pass |
| `Configuration.EmitConfigurationSources` | src/sword_extractor.cpp:405-427 | consecutive ordinals over the files that could be read again |
| `Configuration.EmitInterpretedConfiguration` | src/sword_extractor.cpp:429-439 | consecutive ordinals over the settings, in their order |
| `Traversal.EmitEntries` | src/sword_extractor.cpp:536-703 | the walk terminates where it should, emits exactly the records of the visited positions and reports whether it ended cleanly |
| `Traversal.EmitVisit` | src/sword_extractor.cpp:591-672 | the records of one position: complaints in order, then the entry |
| `Traversal.DictionaryWalk` | src/sword_extractor.cpp:554-576 | a declared count n >= 1: clean exactly when the first n positions could be read one after the other |
| `Traversal.EmptyDictionaryWalk` | src/sword_extractor.cpp:674-676 | a declared count of zero does not keep the walk from visiting one position |
| `Traversal.PlainWalk` | src/sword_extractor.cpp:571-702 | no declared count: clean exactly when it ran to the end of the module and no two consecutive positions had equal key and index |
| `Traversal.WalkEntries` | src/sword_extractor.cpp:659-672 | the entries are the cursor's own positions from the first one on, with ordinals 0, 1, 2, ... |
| `Traversal.WalkTells` | src/sword_extractor.cpp:626-671 | what entry k says: ordinal k, and the key, octets and scope the library gave at position k; both projections exactly for addressable text, each under its own name; segments that join to the octets; the normalised text and its strip projection by cases |
| `Traversal.TallyVisits` | src/sword_extractor.cpp:672 | as many entries are totalled as positions were visited |
| `Traversal.Decode` | src/source_encoding.cpp:20-91 | text labelled UTF-8 is passed through exactly when it is well-formed, otherwise there is a complaint |
| `Traversal.StripNormalized` | src/sword_extractor.cpp:631-657 | a strip projection only of text without NUL, only of addressable length and only if it is UTF-8, with the complaint otherwise |
| `Traversal.SwordLength` | src/sword_extractor.cpp:521-534 | text longer than the library can address is complained about |
| `Grounds.DiagnosticIff` | src/sword_extractor.cpp:748-829 | for each severity and code: it is in the stream of an extraction that ran to its end if and only if what it reports has happened |
| `Grounds.DiagnosticOtherwise` | src/sword_extractor.cpp:757-824 | without a root, without the module and after an exception exactly that is said, and nothing after it |
| `Grounds.VisitSays` | src/sword_extractor.cpp:521-657 | which complaints a position gives rise to |
| `Grounds.WalkSays` | src/sword_extractor.cpp:536-702 | which diagnostics a walk leaves: those of the positions that were read, and how it ended |
| `Grounds.TreeSays` | src/sword_extractor.cpp:317-403 | which diagnostics the search for configuration files leaves |
| `Grounds.DiscoverySays` | src/artifact.cpp:109-188 | which diagnostics discovery leaves |
| `Grounds.ProblemsSay` | src/artifact.cpp:199-350 | which diagnostics the capture leaves, by what the file system showed of each candidate |
| `Contents.ConfigurationIff` | src/sword_extractor.cpp:405-439 | which records of the configuration there are: every defining file that could be read again with its path and octets, every setting in its order, and no others |
| `Contents.ArtifactsTell` | src/artifact.cpp:199-356 | the groups of an extraction follow one another, one for each captured candidate, numbered from zero |
| `Contents.GroupTells` | src/artifact.cpp:214-337 | a group has the path, role, mode, target and size of its candidate, one chunk for each reading that brought octets, and ends with their digest and size and with whether it was stable |
| `Session.Emitter.Put` | src/ndjson_writer.cpp:13-31 | one record is out, or an exception from the stream or from foreign code left everything else as it was |
| `Session.Emitter.Diagnose` | src/sword_extractor.cpp:66-84 | a diagnostic is counted before it is emitted, so an exception inside leaves it counted |
| `Session.Emitter.Emit` | src/sword_extractor.cpp:659-672 | an entry is counted after it has been emitted |
| `Session.Emitter.Close` | src/sword_extractor.cpp:826-828 | the footer carries the totals, the tallies and the digest of all lines before it |
| `Session.PlayedThen` | src/sword_extractor.cpp:761-824 | parts of a run compose: whatever the second part does, the whole does |
| `Delivery.CountedLeads` | src/sword_extractor.cpp:773-803 | whatever the environment did, the records before the artifacts come in an order the validator takes |
| `Delivery.PlainAccepted` | src/sword_extractor.cpp:821-828 | a failed run without artifacts is accepted exactly when its entries are admissible and its totals are right |
| `Delivery.FlowIs` | tools/getbiblesword_v1.py:350-377 | a run goes through exactly when its order is right and every entry is admissible |
| `Production.LinesRun` | tools/getbiblesword_v1.py:280-324 | a numbered stream runs through exactly when its records do, and to the same state |
| `Production.AcceptsRecords` | tools/getbiblesword_v1.py:280-348 | acceptance of a stream whose writer kept its books depends on its records only |
| `Writer.NdjsonWriter.Emit` | src/ndjson_writer.cpp:13-31 | throws exactly when finished, when a reserved name is used or when the stream fails; otherwise exactly one line is added |
| `Writer.NdjsonWriter.Append` | src/ndjson_writer.cpp:24-30 | write, hash, count and number in step |
| `Writer.NdjsonWriter.Finish` | src/ndjson_writer.cpp:33-63 | one footer with the digest and the tallies of everything before it, delivered completely; nothing after it |
| `Writer.Recorded` | src/ndjson_writer.cpp:24-30 | the books stay right over one more record: output, digest input, tallies and number |
| `Writer.Ended` | src/ndjson_writer.cpp:56-62 | the footer is numbered but neither hashed nor counted |
| `Writer.CountsJson` | src/ndjson_writer.cpp:38-47 | the tallies in the order of their names |
| `JsonText.ObjectJson` | src/ndjson_writer.cpp:73-85 | the printing loop over the map is the object text in name order |
| `JsonText.SortedNamesFacts` | src/ndjson_writer.cpp:73-85 | every name once, strictly increasing |
| `JsonText.JsonEscape` | src/byte_value.cpp:62-85 | the escaping loop is section 7 of RFC 8259 |
| `JsonText.EscapeFacts` | src/byte_value.cpp:62-85 | no octet becomes more than six, and none is left as a raw control character |
| `JsonTokens.EscapeSpells` | src/byte_value.cpp:62-85 | an escaped string is a spelling of its octets by the grammar of RFC 8259 |
| `JsonTokens.EscapeIsShortest` | src/byte_value.cpp:62-85 | no octet can be spelled with fewer characters |
| `JsonTheorem.ParsedIffDerived` | tools/getbiblesword_v1.py:65-79 | a text parses to a value if and only if the grammar of RFC 8259 derives the value from it and no object in it, at whatever depth, repeats a name |
| `JsonTheorem.DerivedOnce` | tools/getbiblesword_v1.py:65-79 | no text stands for two values |
| `JsonObjects.ParsedUnambiguous` | tools/getbiblesword_v1.py:65-72 | in what the parser returns no object, at whatever depth, has two members of one name |
| `JsonParse.StringParsed` | src/byte_value.cpp:62-89 | parsing an escaped string gives its octets back |
| `JsonParse.ObjectRenders` | src/ndjson_writer.cpp:73-85 | a printed object parses to its members, once each, wherever it stands |
| `JsonLines.ObjectPrinted` | src/ndjson_writer.cpp:73-85 | a printed map of printed values is UTF-8 without control characters and stands for the same map |
| `JsonLines.EscapeValid` | src/byte_value.cpp:62-85 | escaping keeps UTF-8 well-formed |
| `JsonLines.SplitTerminated` | src/ndjson_writer.cpp:23 | splitting on LF undoes terminating with LF, as no printed value holds one |
| `JsonLines.StreamReadsBack` | tools/getbiblesword_v1.py:280-298 | printed lines read back as exactly the values they stand for |
| `Reading.ReadLines` | tools/getbiblesword_v1.py:280-294 | the reading loop succeeds exactly when every line is terminated, not blank and within the limit, and returns the lines |
| `Reading.ReadRecords` | tools/getbiblesword_v1.py:280-298 | reading and parsing succeed exactly when, besides, every line is one JSON object |
| `Readback.WrittenStreamReads` | src/ndjson_writer.cpp:13-63 | for arbitrary printed fields: the consumer reads exactly these fields, numbers and types back if and only if no line exceeds its limit |
| `Readback.LinePrinted` | src/ndjson_writer.cpp:21-23 | a record line is one printed object with the fields, the number and the type |
| `Readback.FinishedLine` | src/ndjson_writer.cpp:49-55 | the footer line is one printed object with tallies, digest, verdict, number and type |
| `Readback.CountsPrinted` | src/ndjson_writer.cpp:38-47 | the printed tallies parse to one member per type that occurs |
| `Readback.CountsObjectHas` | src/ndjson_writer.cpp:38-47 | each type that occurs is there with its count, and no other |
| `RecordLimit.EnvelopeLength` | src/byte_value.cpp:91-101 | the exact length of a printed envelope |
| `RecordLimit.ChunkLineLength` | src/artifact.cpp:314-318 | the exact length of a chunk line |
| `RecordLimit.FitsIff` | tools/getbiblesword_v1.py:283-290 | chunks up to a size all fit a limit exactly when the stated bound does |
| `RecordLimit.ZerosAreWorst` | src/byte_value.cpp:62-101 | no chunk makes a longer line than NUL octets do |
| `RecordLimit.ChunksFitDefault` | tools/getbiblesword_v1.py:49 | chunk lines of up to 8 MiB of data always pass the default limit |
| `RecordLimit.LargestChunksDoNot` | tools/getbiblesword_v1.py:49 | a chunk line of 16 MiB of NUL octets does not |
| `ByteValue.ByteValueJson` | src/byte_value.cpp:91-101 | the printed envelope is the specified object text |
| `ByteValue.HexOf` | src/sha256.cpp:168-172 | the one-shot digest is SHA-256 in hexadecimal |
| `ByteValue.EnvelopePrinted` | src/byte_value.cpp:91-101 | an envelope is well-formed JSON text and stands for its members |
| `ByteValue.DecodesIffEnvelope` | tools/getbiblesword_v1.py:134-169 | the consumer decodes an object to `b` exactly when it has the producer's members for `b` and no others but the text |
| `ByteValue.ParsedDecodesIffEnvelope` | tools/getbiblesword_v1.py:65-72 | the same, without further conditions, for every object in a text that was parsed, at whatever depth |
| `ByteValue.ByteValueRoundTrip` | tools/getbiblesword_v1.py:134-169 | printing, parsing and decoding give the octets back; the text member is there exactly for well-formed UTF-8 and unescapes to the octets |
| `Base64.Base64Encode` | src/base64.cpp:16-48 | the loop with its shifts and masks is the encoding of section 4 of RFC 4648 |
| `Base64.SymbolIs` | src/base64.cpp:11-12 | the alphabet, character by character |
| `Base64.EncodeKeepsBits` | src/base64.cpp:16-48 | each group of four characters holds the bits of three octets, six in each, and padding stands exactly where all bits lie behind the end |
| `Base64.DecodeEncode` | tools/getbiblesword_v1.py:144-150 | decoding undoes encoding, strictly and canonically |
| `Base64.AcceptedIsImage` | tools/getbiblesword_v1.py:144-150 | the accepted texts are exactly the encodings, each of one octet string only |
| `Base64.AcceptedIsCanonical` | tools/getbiblesword_v1.py:144-150 | a text is accepted exactly when length, alphabet, padding and unused bits are canonical |
| `Base64.EncodeLength` | src/base64.cpp:16-48 | four characters for every three octets or part thereof |
| `Utf8.IsValidUtf8` | src/byte_value.cpp:14-60 | accepts exactly the octet strings that encode a sequence of Unicode scalar values |
| `Utf8.ValidIffEncoded` | src/byte_value.cpp:14-60 | overlong forms, surrogates, values above 0x10FFFF and truncation are all excluded, and nothing else |
| `Utf8.EncodingIsUnique` | src/byte_value.cpp:14-60 | no octet string encodes two texts |
| `Sha256Stream.HashInPieces` | src/sha256.cpp:37-65 | any cutting of a message into updates gives its SHA-256 digest, and digests taken on the way disturb nothing |
| `Sha256Constants.ConstantsAreRoots` | src/sha256.cpp:13-25 | each round constant is the first 32 bits of the fraction of the cube root of its prime |
| `Sha256Constants.InitialHashIsRoots` | src/sha256.cpp:33-35 | each word of the initial hash value is that of the square root of its prime |
| `Sha256Vectors.AbcDigest` | tests/test_main.cpp:30-35 | the digest of `abc`, computed round by round |
| `Sha256Vectors.TwoBlocksDigest` | src/sha256.cpp:72-151 | the digest of a message whose padding takes a second block, computed round by round |
| `Sha256Spec.LengthIsBigEndian` | src/sha256.cpp:126-151 | the last eight octets of the padding are the length in bits, most significant first |
| `Sha256Stream.Sha256.Update` | src/sha256.cpp:37-65 | absorbs the data; how it is cut leaves no trace in the state |
| `Sha256Stream.Sha256.Transform` | src/sha256.cpp:72-124 | one block is compressed as section 6.2.2 of FIPS 180-4 has it |
| `Sha256Stream.FillSchedule` | src/sha256.cpp:73-87 | the word array is the message schedule |
| `Sha256Stream.Sha256.Finalize` | src/sha256.cpp:126-151 | padding in the buffer is the padding of section 5.1.1, and the result is the digest |
| `Sha256Stream.Sha256.Digest` | src/sha256.cpp:153-156 | the digest so far, without an effect on the object |
| `Sha256Stream.Sha256.HexDigest` | src/sha256.cpp:158-166 | the digest in lower-case hexadecimal |
| `Sha256Spec.FoldSplit` | src/sha256.cpp:56-59 | whole blocks can be folded piecewise |
| `Annotation.SegmentAnnotations` | src/annotation.cpp:54-81 | terminates, and its segments put end to end are the input |
| `Annotation.SegmentsReconstruct` | src/annotation.cpp:54-81 | nothing is lost in any octet string |
| `Annotation.SegmentsAreStable` | src/annotation.cpp:54-81 | each segment is not empty, has the shape of its kind, and is segmented into itself with the same kind |
| `Annotation.SegmentsIff` | src/annotation.cpp:54-81 | a segmentation is the computed one if and only if every segment is what the characters in front make it: markup to the first `>` outside quotes, an entity to its `;`, text to the next `<` or `&` |
| `Annotation.QuoteIff` | src/annotation.cpp:12-27 | the mark that is open before a character is the one that the marks before it leave open |
| `Annotation.MarkupEnd` | src/annotation.cpp:12-27 | the quote-aware scan finds the specified end |
| `Annotation.MarkupSizeIs` | src/annotation.cpp:12-27 | markup ends at the first `>` outside quotes, or is a lone `<` when there is none |
| `Annotation.EntityEnd` | src/annotation.cpp:29-41 | the scan finds the specified end of an entity |
| `CallbackStream.CallbackStreambuf.FlushPending` | src/callback_streambuf.cpp:36-65 | the put area is handed over in one span, or the refusal is remembered and the callback is not called again |
| `CallbackStream.CallbackStreambuf.Overflow` | src/callback_streambuf.cpp:21-30 | room is made and the character that did not fit is stored |
| `CallbackStream.CallbackStreambuf.Sync` | src/callback_streambuf.cpp:32-34 | a successful synchronisation means the callback has taken everything |
| `CallbackStream.AcceptedIsPrefix` | src/callback_streambuf.cpp:21-65 | at all times the accepted octets are a prefix of the written ones, in spans of 1 to 65536 octets, and a refused span is the last |
| `CallbackStream.OutputStream.Write` | src/ndjson_writer.cpp:24-27 | throws unless every octet was taken, and then stays failed; without a refusal nothing is written in part |
| `CApi.RunStreamingOperation` | src/c_api.cpp:78-141 | bad arguments and nested calls are turned away without a call of the callback; otherwise the status is faithful, an internal error exactly when no answer was a refusal and no complete stream was written, and unless one of these ended it the lines are those of a finished operation; the flag is as before |
| `CApi.StatusIsVerdict` | src/c_api.cpp:107-125 | once a complete stream was written: the call reports success exactly if a listing had a valid root and no exception, or an extraction counted no error |
| `CApi.UndisturbedListing` | src/sword_extractor.cpp:732-745 | without an exception a listing on a valid root succeeds, and its stream has exactly one record for each module |
| `CApi.UndisturbedExtraction` | src/sword_extractor.cpp:748-829 | without an exception an extraction is refused for its root or runs to its end |
| `CApi.InternalErrorIs` | src/c_api.cpp:112-141 | where no answer was a refusal, the status is an internal error exactly when no complete stream was written, that is, when no line is a footer |
| `CApi.StatusNamesRefusal` | src/c_api.cpp:61-76 | cancelled or write failed exactly when the first answer that was not to continue was of that kind |
| `CApi.ErrorStorage.Set` | src/c_api.cpp:43-59 | the message is cut to the capacity and always terminated |
| `Concurrency.ReachableInvariant` | src/c_api.cpp:22-37 | in every reachable state of every interleaving flag, mutex and call stacks agree |
| `Concurrency.MutualExclusion` | src/c_api.cpp:102-103 | at most one operation runs, and a flag is up only while its thread holds the mutex |
| `Concurrency.NestedCallRejected` | src/c_api.cpp:92-98 | a nested call is turned away and leaves mutex, flags and the outer operation as they are |
| `Concurrency.NoDeadlock` | src/c_api.cpp:78-141 | as long as a call is under way, one of them can go on |
| `Concurrency.EveryActionIsProgress` | src/c_api.cpp:78-141 | every action but a new call brings the calls under way closer to their end |
| `Concurrency.ComesToRest` | src/c_api.cpp:78-141 | left to themselves the calls under way all return within a bounded number of actions |

## Left out

- CrossWire SWORD: the library is an abstract cursor that answers with key, index, raw octets, projections and error codes; its settings and its module list are given sequences. A walk without a declared count is assumed to leave the loop at some position.
- Which classification and which names of directions, encodings and markups a module gets (src/sword_extractor.cpp:122-210): settled by reading one branch each; any of them is printed. The printing loops over entry attributes (src/sword_extractor.cpp:441-472) are given as the text they print.
- ICU decoding in src/source_encoding.cpp: a foreign converter gives some text or none; only the pass-through of UTF-8 is modelled.
- `defines_module` and `read_file` (src/sword_extractor.cpp:241-315): an arbitrary predicate on file contents, and a read that succeeds or fails.
- Consumer.Validator.ValidateLine: takes the line as it is read; the checks of shape, and the second look at the envelopes inside a record, are those of `RecordReading.LineFrom`, which `Octets.ValidateStream` applies to the line before. Which of two complaints about one line comes first is not modelled.
- Consumer.Validator.ValidateHeader: the two version texts are checked by `RecordReading.HeaderShape`.
- Consumer.Validator.ValidateModule: classification, envelopes and codes are checked by `RecordReading.ModuleShape`.
- Consumer.Validator.ValidateEntry: attributes, book names and introduction are checked by `RecordReading.AttributesShape` and `RecordReading.ScopeShape`.
- Consumer.Validator.ValidateDiagnostic: the message is checked by `RecordReading.Shaped`.
- RecordTrip.DiagnosticRead: message and context of a diagnostic are details, which are checked and not kept, as in the code.
- Octets.ValidateStream: refuses a lone surrogate escape, which Python's JSON parser would take, and a `contract_version` of `true` or `1.0`, which Python takes for the number 1; and it takes integers of any length, where newer versions of Python stop at 4300 digits. The producer writes none of these.
- Standard libraries on the consumer's side: `hashlib`, `base64` and `json` are replaced by the functions of the standards.
- Integer widths: counters and sizes are unbounded, except for the 64-bit message length of SHA-256 and the digit bound in `RecordLimit`. Shifts and masks of the UTF-8 and Base64 code are divisions and remainders; the word arithmetic of SHA-256 is on 32-bit words.
- SHA-256 of messages of 2^61 octets or more: FIPS 180-4 does not admit them, and no digest is claimed.
- Exceptions: at most one that is caught in a run, and only between records or inside a counted diagnostic; an allocation that fails inside a single `emit` after the record was hashed (src/ndjson_writer.cpp:28-30) is not part of the runs (see `Shortfalls.RepeatedNumberRefused`). One that escapes is where memory for a write gives out. An exception thrown by the callback is the answer `Fail`.
- `std::sort` is an insertion sort; which of two candidates with one path survives, and so which role it carries, is left open, as it is in C++. Path equality is equality of spelling.
- Discovery.DiscoveredDistinct: assumes what any tree has, that what is enumerated below a directory lies below it and that a data path spelled with a final separator is not also a configuration file.
- Reassembly.Reassemble: the rename into place, `fsync` and the clean-up after a failure are left out; the result is the file system before the rename, or nothing. The clean-up removes the staging directory only, not what was written elsewhere through a link.
- `Host`: the path above the staging directory is its physical one; permissions are the search and write bits of the owner, without access lists or full disks; `chmod` with `follow_symlinks=False` is taken to be supported for directories.
- The mode the process gives to new directories is one unknown value that lets their owner pass (`Lexical.DEFAULT_DIRECTORY`).
- Argument checks of the C interface beyond those of `run_streaming_operation` (src/c_api.cpp:143-152, 185-240), status message texts and the command line with its atomic output file.
- `Concurrency` is a state machine beside the class of `CApi`; a callback is one action that may contain calls of its thread, and it is assumed to return.
- Docs promise a valid stream after every failure; the exact condition is stated instead, as explained above.
