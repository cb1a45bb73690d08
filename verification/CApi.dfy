/** The C interface around the two operations: one status that tells what really happened. */
module CApi {
  import opened Bytes
  import opened CallbackStream
  import opened JsonText
  import opened Records
  import Codes
  import Extraction
  import Grammar
  import Production
  import Session
  import Traversal
  import Writer

  datatype Status = Ok | InvalidArgument | ExtractionFailed | WriteFailure | Cancellation | InternalError

  const MESSAGE_CAPACITY := 512

  /** The caller's optional error storage; one that is too small is never touched. */
  class ErrorStorage {
    const fits: bool
    var status: Status
    var message: bytes

    constructor (fits: bool)
      ensures this.fits == fits
    {
      this.fits, status, message := fits, Ok, [0];
    }

    ghost predicate Terminated()
      reads this
    {
      1 <= |message| <= MESSAGE_CAPACITY && message[|message| - 1] == 0
    }

    /** Writes the status and as much of the message as fits, always terminated. */
    method Set(status: Status, text: bytes)
      modifies this
      ensures fits ==> this.status == status && Terminated()
      ensures fits ==> message == (if |text| < MESSAGE_CAPACITY then text else text[..MESSAGE_CAPACITY - 1]) + [0]
      ensures !fits ==> this.status == old(this.status) && message == old(message)
    {
      if !fits {
        return;
      }
      this.status := status;
      var length := if |text| < MESSAGE_CAPACITY - 1 then |text| else MESSAGE_CAPACITY - 1;
      message := text[..length] + [0];
      assert |text| == length ==> text[..length] == text;
    }
  }

  /** The calling thread's re-entry flag. */
  class Thread {
    var active: bool
  }

  /** What the caller asks for, together with what the environment has in store for it. */
  datatype Operation =
    | ListModules(rootValid: bool, modules: nat)
    | ExtractModule(rootValid: bool, m: Option<Extraction.ModuleFacts>, chunkSize: nat)

  /** The operation comes to an end. */
  predicate Bounded(op: Operation, bound: nat)
  {
    op.ExtractModule? && op.m.Some? ==>
      op.m.value.declared.Some? || Traversal.Leaves(op.m.value.at, op.m.value.declared, bound)
  }

  function FailureStatus(failure: Failure): Status
  {
    match failure
    case NoFailure => Ok
    case Cancelled => Cancellation
    case WriteFailed => WriteFailure
  }

  function FailureMessage(failure: Failure): string
  {
    if failure == Cancelled then "The output callback cancelled the operation." else "The output callback failed."
  }

  /** Answers of the callback up to the first that is not to continue. */
  ghost predicate FirstRefusal(answers: nat -> Answer, i: nat, answer: Answer)
  {
    answers(i) == answer && answer != Continue && forall j: nat :: j < i ==> answers(j) == Continue
  }

  /** The last line of a complete stream says whether the operation succeeded. */
  ghost predicate CompleteStream(lines: seq<Line>, success: bool)
  {
    && |lines| >= 2 && lines[|lines| - 1].record.Footer? && lines[|lines| - 1].record.success == success
  }

  /** How a finished operation went. */
  datatype Outcome =
    | Unfinished
    | Listed(listed: nat, caught: bool, counts: map<RecordType, int>)
    | Extracted(course: Extraction.Course, counts: map<RecordType, int>)

  /** Numbers and tallies of a finished stream are right. */
  ghost predicate Kept(lines: seq<Line>, counts: map<RecordType, int>)
  {
    lines != [] && Grammar.Sequenced(lines) && Grammar.CountsAgree(counts, lines[..|lines| - 1])
  }

  /** The lines are those of a finished operation. */
  ghost predicate Comes(op: Operation, render: Session.Rendering, fault: Option<Session.Fault>, lines: seq<Line>,
                        outcome: Outcome)
  {
    match op
    case ListModules(rootValid, modules) =>
      && outcome.Listed? && Kept(lines, outcome.counts) && Session.Spelled(lines, render)
      && Extraction.Reports(lines, Extraction.LIST_HEADER,
                            Extraction.ListBody(rootValid, outcome.listed, outcome.caught),
                            Session.Tally(Session.NO_TOTALS,
                                          Extraction.ListBody(rootValid, outcome.listed, outcome.caught)),
                            (0, 0), outcome.counts)
      && Extraction.ListingPossible(rootValid, modules, fault, outcome.listed, outcome.caught)
    case ExtractModule(rootValid, m, chunkSize) =>
      && outcome.Extracted? && Kept(lines, outcome.counts) && Session.Spelled(lines, render)
      && Extraction.Possible(rootValid, m, chunkSize, fault, outcome.course)
      && Extraction.Reports(lines, Extraction.HeaderOf(chunkSize), Extraction.BodyOf(m, chunkSize, outcome.course),
                            Extraction.TotalsOf(m, chunkSize, fault, outcome.course),
                            Extraction.ArtifactTotals(m, chunkSize, outcome.course), outcome.counts)
  }

  /** What the returned status means for the octets the callback has taken. */
  ghost predicate Faithful(status: Status, answers: nat -> Answer, spans: seq<bytes>, failure: Failure,
                           lines: seq<Line>)
  {
    && Orderly(answers, spans, failure)
    && (status == Ok || status == ExtractionFailed ==>
          failure == NoFailure && Accepted(spans, failure) == RawOf(lines) && CompleteStream(lines, status == Ok))
    && (status == Cancellation <==> failure == Cancelled)
    && (status == WriteFailure <==> failure == WriteFailed)
    && (status == InternalError ==> failure == NoFailure && Session.Footless(lines))
    && (failure == NoFailure ==> Accepted(spans, failure) <= RawOf(lines))
    && status != InvalidArgument
  }

  /** Runs one of the two operations on a writer over the callback. */
  method Perform(e: Session.Emitter, op: Operation, ghost bound: nat)
    returns (thrown: bool, success: bool, ghost outcome: Outcome)
    requires e.Valid() && e.Now().emitted == [] && e.totals == Session.NO_TOTALS && Bounded(op, bound)
    modifies e, e.writer.Repr
    ensures e.writer.Valid() && thrown == e.writer.output.bad
    ensures thrown ==> Session.Footless(e.writer.lines)
    ensures !thrown ==> CompleteStream(e.writer.lines, success)
    ensures !thrown ==> Comes(op, e.render, old(e.fault), e.writer.lines, outcome)
  {
    hide e.Valid, e.writer.Valid, Session.Spelled, Extraction.Reports, Extraction.Possible, Kept;
    outcome := Unfinished;
    match op {
      case ListModules(rootValid, modules) =>
        ghost var listed, caught;
        thrown, success, listed, caught := Extraction.ListModules(e, rootValid, modules);
        if thrown {
          NoFooterYet(e);
        } else {
          ListComplete(e.writer.lines, rootValid, listed, caught, e.writer.counts);
          WriterKept(e.writer);
          outcome := Listed(listed, caught, e.writer.counts);
        }
      case ExtractModule(rootValid, m, chunkSize) =>
        ghost var course;
        ghost var fault := e.fault;
        thrown, success, course := Extraction.ExtractModule(e, rootValid, m, chunkSize, bound);
        if thrown {
          NoFooterYet(e);
        } else {
          ReportedComplete(e.writer.lines, Extraction.HeaderOf(chunkSize), Extraction.BodyOf(m, chunkSize, course),
                           Extraction.TotalsOf(m, chunkSize, fault, course),
                           Extraction.ArtifactTotals(m, chunkSize, course), e.writer.counts);
          WriterKept(e.writer);
          outcome := Extracted(course, e.writer.counts);
        }
    }
  }

  /** An operation that an exception ended has not written its footer. */
  lemma NoFooterYet(e: Session.Emitter)
    requires e.Valid()
    ensures Session.Footless(e.writer.lines)
  {
  }

  lemma WriterKept(w: Writer.NdjsonWriter)
    requires w.Valid() && w.finished
    ensures Kept(w.lines, w.counts)
  {
    hide Grammar.CountsAgree, RawOf;
  }

  lemma ReportedComplete(lines: seq<Line>, header: Record, body: seq<Record>, totals: Session.Totals,
                         artifacts: (nat, nat), counts: map<RecordType, int>)
    requires Extraction.Reports(lines, header, body, totals, artifacts, counts)
    ensures CompleteStream(lines, totals.diagnostics.error == 0)
  {
    hide RawOf, Production.RecordsOf;
  }

  lemma ListComplete(lines: seq<Line>, rootValid: bool, listed: nat, caught: bool, counts: map<RecordType, int>)
    requires Extraction.Reports(lines, Extraction.LIST_HEADER, Extraction.ListBody(rootValid, listed, caught),
                                Session.Tally(Session.NO_TOTALS, Extraction.ListBody(rootValid, listed, caught)),
                                (0, 0), counts)
    ensures CompleteStream(lines, rootValid && !caught)
  {
    hide Extraction.Reports, CompleteStream, Session.TallyOne;
    ListErrors(rootValid, listed, caught);
    ReportedComplete(lines, Extraction.LIST_HEADER, Extraction.ListBody(rootValid, listed, caught),
                     Session.Tally(Session.NO_TOTALS, Extraction.ListBody(rootValid, listed, caught)), (0, 0), counts);
  }

  lemma ListErrors(rootValid: bool, listed: nat, caught: bool)
    ensures Session.Tally(Session.NO_TOTALS, Extraction.ListBody(rootValid, listed, caught)).diagnostics.error ==
            if rootValid && !caught then 0 else 1
  {
    hide Extraction.ModuleRecords, Session.Tally;
    Session.TallyOneRecord(Session.NO_TOTALS, Traversal.Err(Codes.SwordRootInvalid));
    Session.TallyOneRecord(Session.NO_TOTALS, Traversal.Err(Codes.SwordDiscoveryException));
    Extraction.ModulesUntallied(listed);
    Session.TallyAppend(Session.NO_TOTALS, Extraction.ModuleRecords(listed),
                        [Traversal.Err(Codes.SwordDiscoveryException)]);
    assert Extraction.ModuleRecords(listed) + [] == Extraction.ModuleRecords(listed);
  }

  /** `run_streaming_operation`. A null callback is `None`; `operation` runs under the flag of the calling thread. */
  method RunStreamingOperation(thread: Thread, callback: Callback?, error: ErrorStorage?, op: Operation,
                               render: Session.Rendering, fault: Option<Session.Fault>, memory: Option<nat>,
                               ghost bound: nat)
    returns (status: Status, ghost lines: seq<Line>, ghost failure: Failure, ghost outcome: Outcome)
    requires Session.Reserved(render) && Bounded(op, bound)
    requires callback != null ==> callback.spans == []
    modifies thread, callback, error
    ensures thread.active == old(thread.active)
    ensures (error != null && !error.fits) || callback == null || old(thread.active) <==> status == InvalidArgument
    ensures status == InvalidArgument && callback != null ==> callback.spans == old(callback.spans)
    ensures status != InvalidArgument ==> Faithful(status, callback.answers, callback.spans, failure, lines)
    ensures status != InvalidArgument && failure == NoFailure ==> (status == InternalError <==> Session.Footless(lines))
    ensures status == InternalError ==> memory.Some?
    ensures status != InvalidArgument && memory.None? && (forall i: nat :: callback.answers(i) == Continue) ==>
              status == Ok || status == ExtractionFailed
    ensures status == Ok || status == ExtractionFailed ==> Comes(op, render, fault, lines, outcome)
    ensures error != null && error.fits ==> error.status == status && error.Terminated()
  {
    hide Comes, Orderly, RawOf, CompleteStream, Accepted;
    lines, failure, outcome := [], NoFailure, Unfinished;
    if error != null && !error.fits {
      return InvalidArgument, lines, failure, outcome;
    }
    Report(error, Ok, []);
    if callback == null {
      Report(error, InvalidArgument, Text("The output callback is required."));
      return InvalidArgument, lines, failure, outcome;
    }
    if thread.active {
      Report(error, InvalidArgument, Text("A streaming C ABI call cannot be re-entered from its callback."));
      return InvalidArgument, lines, failure, outcome;
    }
    thread.active := true;
    status, lines, failure, outcome := Stream(callback, error, op, render, fault, memory, bound);
    thread.active := false;
    if failure == NoFailure {
      InternalErrorIs(status, callback.answers, callback.spans, failure, lines);
    }
    NeverRefused(status, callback.answers, callback.spans, failure, lines);
  }

  /** A callback that always goes on refuses nothing. */
  lemma NeverRefused(status: Status, answers: nat -> Answer, spans: seq<bytes>, failure: Failure, lines: seq<Line>)
    requires Faithful(status, answers, spans, failure, lines) && status != InvalidArgument
    ensures (forall i: nat :: answers(i) == Continue) ==> status == Ok || status == ExtractionFailed ||
                                                          status == InternalError
  {
    hide RawOf, CompleteStream, Accepted;
  }

  method Report(error: ErrorStorage?, status: Status, text: bytes)
    requires error != null ==> error.fits
    modifies error
    ensures error != null ==> error.status == status && error.Terminated()
  {
    if error != null {
      error.Set(status, text);
    }
  }

  /** A writer over the callback. */
  method Open(callback: Callback, render: Session.Rendering, fault: Option<Session.Fault>, memory: Option<nat>)
    returns (e: Session.Emitter)
    requires Session.Reserved(render) && callback.spans == []
    ensures e.Valid() && fresh(e) && fresh(e.writer.Repr - {callback}) && fresh(e.writer.output.buf)
    ensures e.Now().emitted == [] && e.totals == Session.NO_TOTALS && e.writer.output.buf.callback == callback
    ensures e.render == render && e.fault == fault && e.writer.output.memory == memory
  {
    hide RawOf, Orderly, Accepted, Session.Reserved, Session.RenderedBy, Production.RecordsOf;
    var buffer := new CallbackStreambuf(callback);
    hide buffer.Valid;
    var output := new OutputStream(buffer, memory);
    hide output.Valid;
    var writer := new Writer.NdjsonWriter(output);
    NothingWritten();
    Session.NothingRendered(render);
    WriterRepr(writer);
    e := new Session.Emitter(writer, render, fault);
  }

  lemma WriterRepr(w: Writer.NdjsonWriter)
    requires w.Valid()
    ensures w.Repr == {w, w.output, w.output.buf, w.output.buf.buffer, w.output.buf.callback, w.hash, w.hash.state,
                       w.hash.buffer}
  {
  }

  /** The operation and the final flush. An exception escapes where the stream fails, and nowhere else. */
  method Deliver(e: Session.Emitter, op: Operation, ghost bound: nat)
    returns (escaped: bool, success: bool, failure: Failure, ghost lines: seq<Line>, ghost outcome: Outcome)
    requires e.Valid() && e.Now().emitted == [] && e.totals == Session.NO_TOTALS && Bounded(op, bound)
    modifies e, e.writer.Repr
    ensures var callback := e.writer.output.buf.callback;
            && Orderly(callback.answers, callback.spans, failure)
            && (failure == NoFailure ==> Accepted(callback.spans, failure) <= RawOf(lines))
            && (escaped && failure == NoFailure ==> e.writer.output.memory.Some? && Session.Footless(lines))
            && (!escaped ==>
                  && failure == NoFailure && Accepted(callback.spans, failure) == RawOf(lines)
                  && CompleteStream(lines, success)
                  && Comes(op, e.render, old(e.fault), lines, outcome))
  {
    hide Comes, RawOf, CompleteStream, Orderly, Accepted, Session.Reserved, Bounded, e.Valid, e.writer.Valid;
    WriterRepr(e.writer) by { EmitterWriter(e); }
    escaped, success, outcome := Perform(e, op, bound);
    lines := e.writer.lines;
    WriterFacts(e.writer);
    if !escaped {
      escaped := e.writer.output.Flush();
    }
    failure := e.writer.output.buf.failure;
    StreamFacts(e.writer.output);
  }

  lemma StreamFacts(output: OutputStream)
    requires output.Valid()
    ensures Accepted(output.buf.callback.spans, output.buf.failure) <= output.buf.written
    ensures Orderly(output.buf.callback.answers, output.buf.callback.spans, output.buf.failure)
    ensures output.bad && output.buf.failure == NoFailure ==> output.memory.Some?
    ensures !output.bad ==> output.buf.failure == NoFailure
  {
    hide Orderly, Accepted;
    AcceptedIsPrefix(output.buf);
  }

  lemma EmitterWriter(e: Session.Emitter)
    requires e.Valid()
    ensures e.writer.Valid()
  {
  }

  /** The status of a call whose operation ran. */
  function StatusOf(escaped: bool, failure: Failure, success: bool): Status
  {
    if failure != NoFailure then FailureStatus(failure)
    else if escaped then InternalError
    else if success then Ok
    else ExtractionFailed
  }

  lemma IsFaithful(answers: nat -> Answer, spans: seq<bytes>, failure: Failure, lines: seq<Line>, escaped: bool,
                   success: bool)
    requires Orderly(answers, spans, failure) && (failure == NoFailure ==> Accepted(spans, failure) <= RawOf(lines))
    requires escaped && failure == NoFailure ==> Session.Footless(lines)
    requires !escaped ==>
               failure == NoFailure && Accepted(spans, failure) == RawOf(lines) && CompleteStream(lines, success)
    ensures Faithful(StatusOf(escaped, failure, success), answers, spans, failure, lines)
  {
    hide RawOf, CompleteStream, Orderly, Accepted;
  }

  /** The guarded part: operation and flush, and the status whether or not an exception ended them. */
  method Stream(callback: Callback, error: ErrorStorage?, op: Operation, render: Session.Rendering,
                fault: Option<Session.Fault>, memory: Option<nat>, ghost bound: nat)
    returns (status: Status, ghost lines: seq<Line>, ghost failure: Failure, ghost outcome: Outcome)
    requires Session.Reserved(render) && Bounded(op, bound) && callback.spans == []
    requires error != null ==> error.fits && error.status == Ok && error.Terminated()
    modifies callback, error
    ensures Faithful(status, callback.answers, callback.spans, failure, lines)
    ensures status == InternalError ==> memory.Some? && Session.Footless(lines)
    ensures status == Ok || status == ExtractionFailed ==> Comes(op, render, fault, lines, outcome)
    ensures error != null ==> error.status == status && error.Terminated()
  {
    hide Comes, RawOf, CompleteStream, Orderly, Accepted, Session.Reserved, Bounded, Faithful, Text;
    var e := Open(callback, render, fault, memory);
    var success, ended, thrown;
    thrown, success, ended, lines, outcome := Deliver(e, op, bound);
    failure := ended;
    IsFaithful(callback.answers, callback.spans, failure, lines, thrown, success);
    status := FailureStatus(ended);
    if status != Ok {
      Report(error, status, Text(FailureMessage(ended)));
      return;
    }
    if thrown {
      status := InternalError;
      Report(error, status, Text("std::bad_alloc"));
      return;
    }
    if !success {
      status := ExtractionFailed;
      Report(error, status, Text("The operation completed with a failed NDJSON footer."));
    }
  }

  lemma NothingWritten()
    ensures Production.RecordsOf([]) == []
  {
  }

  lemma WriterFacts(w: Writer.NdjsonWriter)
    requires w.Valid()
    ensures w.output.Valid() && (w.output.buf.failure == NoFailure ==> w.output.buf.written == RawOf(w.lines))
  {
    hide RawOf;
  }

  /** Where no answer was a refusal, there is an internal error exactly if no complete stream was written. */
  lemma InternalErrorIs(status: Status, answers: nat -> Answer, spans: seq<bytes>, failure: Failure, lines: seq<Line>)
    requires Faithful(status, answers, spans, failure, lines) && failure == NoFailure
    ensures status == InternalError <==> !CompleteStream(lines, true) && !CompleteStream(lines, false)
    ensures status == InternalError <==> Session.Footless(lines)
  {
    hide RawOf, Orderly, Accepted;
    if status == InternalError && lines != [] {
      assert !lines[|lines| - 1].record.Footer?;
    }
  }

  /** Whether the operation that came about succeeded. */
  predicate Succeeded(op: Operation, fault: Option<Session.Fault>, outcome: Outcome)
  {
    match op
    case ListModules(rootValid, _) => rootValid && outcome.Listed? && !outcome.caught
    case ExtractModule(_, m, chunkSize) =>
      outcome.Extracted? && Extraction.TotalsOf(m, chunkSize, fault, outcome.course).diagnostics.error == 0
  }

  lemma OneVerdict(lines: seq<Line>, first: bool, second: bool)
    requires CompleteStream(lines, first) && CompleteStream(lines, second)
    ensures first == second
  {
  }

  /** Once a complete stream was written, the status is that of the operation. */
  lemma StatusIsVerdict(op: Operation, render: Session.Rendering, fault: Option<Session.Fault>, lines: seq<Line>,
                        outcome: Outcome, status: Status)
    requires Comes(op, render, fault, lines, outcome) && (status == Ok || status == ExtractionFailed)
    requires CompleteStream(lines, status == Ok)
    ensures status == Ok <==> Succeeded(op, fault, outcome)
  {
    hide Extraction.Reports, CompleteStream, Session.Spelled, Kept, Extraction.Possible, Extraction.ListBody,
      Extraction.TotalsOf, Extraction.BodyOf, Extraction.ArtifactTotals, Session.Tally;
    match op {
      case ListModules(rootValid, _) =>
        ListComplete(lines, rootValid, outcome.listed, outcome.caught, outcome.counts);
        OneVerdict(lines, status == Ok, rootValid && !outcome.caught);
      case ExtractModule(rootValid, m, chunkSize) =>
        var totals := Extraction.TotalsOf(m, chunkSize, fault, outcome.course);
        ReportedComplete(lines, Extraction.HeaderOf(chunkSize), Extraction.BodyOf(m, chunkSize, outcome.course), totals,
                         Extraction.ArtifactTotals(m, chunkSize, outcome.course), outcome.counts);
        OneVerdict(lines, status == Ok, totals.diagnostics.error == 0);
    }
  }

  /** The lines of a listing on a valid root: one record for each of the first `n` modules, and the verdict. */
  ghost predicate ListsModules(lines: seq<Line>, n: nat, success: bool)
  {
    && |lines| == n + 2 && lines[0].record == Extraction.LIST_HEADER
    && (forall i :: 0 < i <= n ==> lines[i].record == Module)
    && lines[n + 1].record.Footer? && lines[n + 1].record.success == success
  }

  /** Without an exception a listing on a valid root succeeds and has one record for each module. */
  lemma UndisturbedListing(modules: nat, render: Session.Rendering, lines: seq<Line>, outcome: Outcome, status: Status)
    requires Comes(ListModules(true, modules), render, None, lines, outcome)
    requires (status == Ok || status == ExtractionFailed) && CompleteStream(lines, status == Ok)
    ensures status == Ok && ListsModules(lines, modules, true)
  {
    StatusIsVerdict(ListModules(true, modules), render, None, lines, outcome, status);
    hide *;
    ListedParts(modules, render, lines, outcome);
    BodyIsListed(lines, modules, outcome.counts);
    CompleteIs(lines, true);
    ListsAll(lines, modules);
  }

  lemma ListedParts(modules: nat, render: Session.Rendering, lines: seq<Line>, outcome: Outcome)
    requires Comes(ListModules(true, modules), render, None, lines, outcome)
    ensures outcome.Listed? && Succeeded(ListModules(true, modules), None, outcome)
    ensures var body := Extraction.ListBody(true, modules, false);
            Extraction.Reports(lines, Extraction.LIST_HEADER, body, Session.Tally(Session.NO_TOTALS, body), (0, 0),
                               outcome.counts)
  {
    hide Session.Spelled, Kept, Extraction.Reports, Extraction.ListBody, Session.Tally;
  }

  lemma ListsAll(lines: seq<Line>, n: nat)
    requires |lines| == n + 2 && lines[0].record == Extraction.LIST_HEADER
    requires forall i :: 0 < i <= n ==> lines[i].record == Module
    requires lines[n + 1].record.Footer? && lines[n + 1].record.success
    ensures ListsModules(lines, n, true)
  {
  }

  lemma CompleteIs(lines: seq<Line>, success: bool)
    requires CompleteStream(lines, success)
    ensures |lines| >= 2 && lines[|lines| - 1].record.Footer? && lines[|lines| - 1].record.success == success
  {
  }

  lemma BodyIsListed(lines: seq<Line>, modules: nat, counts: map<RecordType, int>)
    requires var body := Extraction.ListBody(true, modules, false);
             Extraction.Reports(lines, Extraction.LIST_HEADER, body, Session.Tally(Session.NO_TOTALS, body), (0, 0),
                                counts)
    ensures |lines| == modules + 2 && lines[0].record == Extraction.LIST_HEADER
    ensures forall i :: 0 < i <= modules ==> lines[i].record == Module
  {
    hide RawOf, Session.Tally;
    var rs := Production.RecordsOf(lines[..|lines| - 1]);
    assert Extraction.ListBody(true, modules, false) == Extraction.ModuleRecords(modules);
    assert forall i :: 0 <= i < |lines| - 1 ==> rs[i] == lines[i].record;
  }

  /** Without an exception an extraction is refused for its root or runs to its end. */
  lemma UndisturbedExtraction(op: Operation, render: Session.Rendering, lines: seq<Line>, outcome: Outcome)
    requires op.ExtractModule? && Comes(op, render, None, lines, outcome)
    ensures outcome.Extracted? && if op.rootValid then outcome.course.Whole? else outcome.course.Refused?
  {
    hide Session.Spelled, Kept, Extraction.Reports, Extraction.Established, Extraction.CountedPart,
      Extraction.ArtifactPart;
  }

  /** The status names the first answer of the callback that was not to continue, and there is one exactly then. */
  lemma StatusNamesRefusal(status: Status, answers: nat -> Answer, spans: seq<bytes>, failure: Failure,
                           lines: seq<Line>)
    requires Faithful(status, answers, spans, failure, lines)
    ensures status == Cancellation <==> exists i :: 0 <= i < |spans| && FirstRefusal(answers, i, Cancel)
    ensures status == WriteFailure <==> exists i :: 0 <= i < |spans| && FirstRefusal(answers, i, Fail)
  {
    hide RawOf, CompleteStream, Accepted;
    if failure != NoFailure {
      var last := |spans| - 1;
      assert FirstRefusal(answers, last, answers(last));
      forall i, answer | 0 <= i < |spans| && FirstRefusal(answers, i, answer)
        ensures i == last
      {
      }
    } else {
      forall i, answer | 0 <= i < |spans|
        ensures !FirstRefusal(answers, i, answer)
      {
      }
    }
  }
}
