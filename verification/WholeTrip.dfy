/** From a file tree through a streaming call, its octets and the validator, to the same file tree. */
module WholeTrip {
  import opened Artifacts
  import opened Bytes
  import opened CApi
  import opened Extraction
  import opened Octets
  import opened Production
  import opened Lexical
  import opened Records
  import opened RoundTrip
  import opened Session
  import opened Validation
  import Agreement
  import CallbackStream
  import Delivery
  import EndToEnd
  import Grammar
  import Host
  import Printables
  import Reassembly
  import Success

  /** What a successful extraction through the C interface comes to. */
  lemma SuccessfulExtraction(op: Operation, render: Rendering, fault: Option<Fault>, lines: seq<Line>, outcome: Outcome,
                             answers: nat -> CallbackStream.Answer, spans: seq<bytes>, failure: CallbackStream.Failure)
    requires op.ExtractModule? && Comes(op, render, fault, lines, outcome)
             && Faithful(Ok, answers, spans, failure, lines)
    ensures outcome.Extracted? && outcome.course.Whole? && op.m.Some? && op.rootValid && lines != []
    ensures TotalsOf(op.m, op.chunkSize, fault, outcome.course).diagnostics.error == 0
  {
    hide Spelled, Grammar.CountsAgree, Grammar.Sequenced, HeaderOf, BodyOf, TotalsOf, ArtifactTotals, RawOf, RecordsOf,
      CallbackStream.Accepted, CallbackStream.Orderly, Possible;
    Success.SuccessMeans(op.rootValid, op.m, op.chunkSize, fault, outcome.course);
    RootWasValid(op.rootValid, op.m, op.chunkSize, fault, outcome.course);
  }

  lemma RootWasValid(rootValid: bool, m: Option<ModuleFacts>, chunkSize: nat, fault: Option<Fault>, course: Course)
    requires Possible(rootValid, m, chunkSize, fault, course) && course.Whole?
    ensures rootValid
  {
    hide Established, FilesFrom;
  }

  /** What is captured above another captured place was captured as a directory. */
  predicate Undisturbed(op: Operation, outcome: Outcome)
  {
    op.ExtractModule? && op.m.Some? && outcome.Extracted? && outcome.course.Whole? ==>
      TreeClosed(outcome.course.f.candidates, op.m.value.world)
  }

  /** Nothing is captured below a captured link. */
  predicate Linkless(op: Operation, outcome: Outcome)
  {
    op.ExtractModule? && op.m.Some? && outcome.Extracted? && outcome.course.Whole? ==>
      EndToEnd.LinksBare(outcome.course.f.candidates, op.m.value.world)
  }

  /** The stage holds what the operation captured. */
  ghost predicate IsCapturedTree(op: Operation, outcome: Outcome, special: bool, root: Path, result: Option<Nodes>)
  {
    && op.ExtractModule? && op.m.Some? && outcome.Extracted? && outcome.course.Whole?
    && result.Some?
    && TreeRebuilt(Host.Inside(result.value, root), outcome.course.f.candidates, op.m.value.world, special)
  }

  /** The second pass over a stream of octets that is accepted, and the modes of its directories. */
  ghost predicate OctetsRebuilt(stream: bytes, maximum: nat, special: bool, host: Nodes, root: Path,
                                result: Option<Nodes>)
  {
    && AcceptsOctets(stream, maximum) && Run(INITIAL_STATE, StreamFrom(stream, maximum).value).Some?
    && Reassembly.Rebuilt(StreamFrom(stream, maximum).value,
                          Run(INITIAL_STATE, StreamFrom(stream, maximum).value).value.artifacts, special, host, root,
                          result)
  }

  /** An extraction through the C interface that reports success, with an acceptable run and lines that fit. */
  ghost predicate SuccessfulCall(op: Operation, render: Rendering, fault: Option<Fault>, lines: seq<Line>,
                                 outcome: Outcome, answers: nat -> CallbackStream.Answer, spans: seq<bytes>,
                                 failure: CallbackStream.Failure, maximum: nat)
  {
    && op.ExtractModule?
    && Comes(op, render, fault, lines, outcome) && Given(op, render, lines)
    && Passes(op, fault, lines, outcome, maximum) && Faithful(Ok, answers, spans, failure, lines)
  }

  /** When the call reports success, its lines fit and the run was acceptable, then the octets its callback has taken
      are enough to rebuild exactly the captured directories, files and links, unless something was captured below what
      was no directory. Unless that was a link nothing comes out then, and in no other case has anything else
      changed. */
  lemma OctetsRebuildTree(op: Operation, render: Rendering, fault: Option<Fault>, lines: seq<Line>, outcome: Outcome,
                          answers: nat -> CallbackStream.Answer, spans: seq<bytes>, failure: CallbackStream.Failure,
                          maximum: nat, special: bool, host: Nodes, root: Path, result: Option<Nodes>)
    requires SuccessfulCall(op, render, fault, lines, outcome, answers, spans, failure, maximum)
             && Host.Vacant(host, root)
    requires OctetsRebuilt(CallbackStream.Accepted(spans, failure), maximum, special, host, root, result)
    ensures IsCapturedTree(op, outcome, special, root, result) <==> Undisturbed(op, outcome)
    ensures Linkless(op, outcome) ==> (result.Some? <==> Undisturbed(op, outcome))
    ensures Linkless(op, outcome) ==> NothingElse(host, root, result)
  {
    hide *;
    ReadLines(op, render, fault, lines, outcome, answers, spans, failure, maximum);
    CaptureOf(op, fault, lines, outcome);
    RebuiltLines(CallbackStream.Accepted(spans, failure), maximum, lines, special, host, root, result);
    EndToEnd.CaptureThenReassemble(lines, outcome.counts, op.m.value, op.chunkSize, fault, outcome.course.f, special,
                                   host, root, result);
    TreeParts(op, outcome, special, host, root, result);
  }

  /** The lines report the capture of a whole course. */
  ghost predicate CapturedBy(op: Operation, fault: Option<Fault>, lines: seq<Line>, outcome: Outcome)
  {
    && op.ExtractModule? && op.m.Some? && outcome.Extracted? && outcome.course.Whole?
    && EndToEnd.Captures(lines, outcome.counts, op.m.value, op.chunkSize, fault, outcome.course.f)
  }

  lemma CaptureOf(op: Operation, fault: Option<Fault>, lines: seq<Line>, outcome: Outcome)
    requires CapturedBy(op, fault, lines, outcome)
    ensures op.ExtractModule? && op.m.Some? && outcome.Extracted? && outcome.course.Whole?
    ensures EndToEnd.Captures(lines, outcome.counts, op.m.value, op.chunkSize, fault, outcome.course.f)
  {
    hide EndToEnd.Captures;
  }

  lemma CapturedIs(op: Operation, fault: Option<Fault>, lines: seq<Line>, outcome: Outcome)
    requires op.ExtractModule? && op.m.Some? && outcome.Extracted? && outcome.course.Whole?
    requires EndToEnd.Captures(lines, outcome.counts, op.m.value, op.chunkSize, fault, outcome.course.f)
    ensures CapturedBy(op, fault, lines, outcome)
  {
    hide EndToEnd.Captures;
  }

  /** If there is a result, nothing outside the stage has changed. */
  ghost predicate NothingElse(host: Nodes, root: Path, result: Option<Nodes>)
  {
    result.Some? ==> Host.Untouched(Host.WithStage(host, root), result.value, root)
  }

  /** What the octets of a successful call are read as: lines that report the capture. */
  lemma ReadLines(op: Operation, render: Rendering, fault: Option<Fault>, lines: seq<Line>, outcome: Outcome,
                  answers: nat -> CallbackStream.Answer, spans: seq<bytes>, failure: CallbackStream.Failure,
                  maximum: nat)
    requires SuccessfulCall(op, render, fault, lines, outcome, answers, spans, failure, maximum)
    ensures StreamFrom(CallbackStream.Accepted(spans, failure), maximum) == Some(lines)
    ensures CapturedBy(op, fault, lines, outcome)
  {
    hide *;
    CallParts(op, render, fault, lines, outcome, answers, spans, failure, maximum);
    SuccessfulExtraction(op, render, fault, lines, outcome, answers, spans, failure);
    TakenIs(Ok, answers, spans, failure, lines);
    ExtractionComes(op, render, fault, lines, outcome);
    ExtractionPasses(op, fault, lines, outcome, maximum);
    ReadBack(op, render, fault, lines, outcome, maximum);
    WithFacts(op);
    IsCapture(lines, outcome.counts, op.m.value, op.chunkSize, fault, outcome.course.f);
    CapturedIs(op, fault, lines, outcome);
  }

  lemma IsCapture(lines: seq<Line>, counts: map<RecordType, int>, m: ModuleFacts, chunkSize: nat, fault: Option<Fault>,
                  f: Findings)
    requires lines != [] && Delivery.FilesystemFacts(m) && Possible(true, Some(m), chunkSize, fault, Whole(f))
    requires Reports(lines, HeaderOf(chunkSize), BodyOf(Some(m), chunkSize, Whole(f)),
                     TotalsOf(Some(m), chunkSize, fault, Whole(f)), ArtifactTotals(Some(m), chunkSize, Whole(f)),
                     counts)
    requires Grammar.Sequenced(lines) && Accepts(lines) && Agreement.Acceptable(Some(m), chunkSize, fault, Whole(f))
    requires TotalsOf(Some(m), chunkSize, fault, Whole(f)).diagnostics.error == 0
    ensures EndToEnd.Captures(lines, counts, m, chunkSize, fault, f)
  {
    hide Delivery.FilesystemFacts, Possible, Reports, Agreement.Acceptable, TotalsOf, BodyOf, HeaderOf, ArtifactTotals,
      Accepts, Grammar.Sequenced;
  }

  lemma RebuiltLines(stream: bytes, maximum: nat, lines: seq<Line>, special: bool, host: Nodes, root: Path,
                     result: Option<Nodes>)
    requires OctetsRebuilt(stream, maximum, special, host, root, result) && StreamFrom(stream, maximum) == Some(lines)
    ensures Run(INITIAL_STATE, lines).Some?
    ensures Reassembly.Rebuilt(lines, Run(INITIAL_STATE, lines).value.artifacts, special, host, root, result)
  {
    hide AcceptsOctets, StreamFrom, Run, Reassembly.Rebuilt;
  }

  lemma TreeParts(op: Operation, outcome: Outcome, special: bool, host: Nodes, root: Path, result: Option<Nodes>)
    requires op.ExtractModule? && op.m.Some? && outcome.Extracted? && outcome.course.Whole?
    ensures Undisturbed(op, outcome) <==> TreeClosed(outcome.course.f.candidates, op.m.value.world)
    ensures Linkless(op, outcome) <==> EndToEnd.LinksBare(outcome.course.f.candidates, op.m.value.world)
    ensures IsCapturedTree(op, outcome, special, root, result) <==>
            result.Some?
            && TreeRebuilt(Host.Inside(result.value, root), outcome.course.f.candidates, op.m.value.world, special)
    ensures NothingElse(host, root, result) <==>
            (result.Some? ==> Host.Untouched(Host.WithStage(host, root), result.value, root))
  {
    hide TreeClosed, EndToEnd.LinksBare, TreeRebuilt, Host.Inside, Host.Untouched, Host.WithStage;
  }

  lemma CallParts(op: Operation, render: Rendering, fault: Option<Fault>, lines: seq<Line>, outcome: Outcome,
                  answers: nat -> CallbackStream.Answer, spans: seq<bytes>, failure: CallbackStream.Failure,
                  maximum: nat)
    requires SuccessfulCall(op, render, fault, lines, outcome, answers, spans, failure, maximum)
    ensures op.ExtractModule? && Comes(op, render, fault, lines, outcome) && Given(op, render, lines)
    ensures Passes(op, fault, lines, outcome, maximum) && Faithful(Ok, answers, spans, failure, lines)
  {
    hide Comes, Given, Passes, Faithful;
  }

  lemma WithFacts(op: Operation)
    requires op.ExtractModule? && op.m.Some? && Agreement.Facts(op.m)
    ensures Delivery.FilesystemFacts(op.m.value)
  {
  }

  /** The octets are read as exactly the lines that were written, and these are accepted. */
  lemma ReadBack(op: Operation, render: Rendering, fault: Option<Fault>, lines: seq<Line>, outcome: Outcome,
                 maximum: nat)
    requires op.ExtractModule? && Comes(op, render, fault, lines, outcome) && Given(op, render, lines)
    requires Passes(op, fault, lines, outcome, maximum)
    ensures StreamFrom(RawOf(lines), maximum) == Some(lines) && Accepts(lines)
  {
    hide *;
    ExtractionOctetsAgree(op, render, fault, lines, outcome, maximum);
    ExtractionRead(op, render, fault, lines, outcome, maximum);
    AcceptedLines(RawOf(lines), maximum, lines);
  }

  lemma AcceptedLines(stream: bytes, maximum: nat, lines: seq<Line>)
    requires AcceptsOctets(stream, maximum) && StreamFrom(stream, maximum) == Some(lines)
    ensures Accepts(lines)
  {
    hide StreamFrom, Accepts;
  }

  lemma ExtractionRead(op: Operation, render: Rendering, fault: Option<Fault>, lines: seq<Line>, outcome: Outcome,
                       maximum: nat)
    requires op.ExtractModule? && Comes(op, render, fault, lines, outcome) && Given(op, render, lines)
    requires Passes(op, fault, lines, outcome, maximum)
    ensures StreamFrom(RawOf(lines), maximum) == Some(lines)
  {
    hide *;
    ExtractionComes(op, render, fault, lines, outcome);
    ExtractionPasses(op, fault, lines, outcome, maximum);
    Printables.ExtractionPrintable(op.rootValid, op.m, op.chunkSize, fault, outcome.course);
    TotalsNatural(op.rootValid, op.m, op.chunkSize, fault, outcome.course);
    OctetsAgree(lines, render, HeaderOf(op.chunkSize), BodyOf(op.m, op.chunkSize, outcome.course),
                TotalsOf(op.m, op.chunkSize, fault, outcome.course),
                ArtifactTotals(op.m, op.chunkSize, outcome.course), outcome.counts, maximum);
  }
}
