/** The command line tool on a stream of octets: validation first, then reassembly. */
module Tool {
  import opened Artifacts
  import opened Bytes
  import opened CApi
  import opened Extraction
  import opened Host
  import opened Lexical
  import opened Octets
  import opened Production
  import opened Reassembly
  import opened Records
  import opened RoundTrip
  import opened Session
  import opened Validation
  import opened WholeTrip
  import Acceptance
  import CallbackStream
  import Consumer
  import Capture
  import EndToEnd
  import HostStage
  import LinksFollowed
  import Listing
  import Paths
  import SecondPass

  /** The stream is accepted, and what it asks for is allowed. */
  predicate Admissible(stream: bytes, maximum: nat, outputExists: bool, allowSymlinks: bool)
  {
    && AcceptsOctets(stream, maximum)
    && Permitted(Consumer.SummaryOf(Run(INITIAL_STATE, StreamFrom(stream, maximum).value).value), outputExists,
                 allowSymlinks)
  }

  /** The artifacts that an accepted stream lists. */
  function ListOf(stream: bytes, maximum: nat): seq<Artifact>
  {
    if AcceptsOctets(stream, maximum) then Run(INITIAL_STATE, StreamFrom(stream, maximum).value).value.artifacts else []
  }

  /** What comes out when the writes go through: the second pass over an admissible stream, and the modes of its
      directories. */
  ghost predicate Reassembles(stream: bytes, maximum: nat, outputExists: bool, allowSymlinks: bool, special: bool,
                              host: Nodes, root: Path, result: Option<Nodes>)
  {
    if Admissible(stream, maximum, outputExists, allowSymlinks)
    then Rebuilt(StreamFrom(stream, maximum).value, ListOf(stream, maximum), special, host, root, result)
    else result.None?
  }

  lemma AcceptedStream(stream: bytes, maximum: nat)
    requires AcceptsOctets(stream, maximum)
    ensures StreamFrom(stream, maximum).Some? && Accepts(StreamFrom(stream, maximum).value)
    ensures Run(INITIAL_STATE, StreamFrom(stream, maximum).value).Some?
    ensures var t := Run(INITIAL_STATE, StreamFrom(stream, maximum).value).value;
            t.footer.Some? && t.footer.value.Footer? && ListOf(stream, maximum) == t.artifacts
  {
    hide StreamFrom, Run;
  }

  /** `main` with the command `reassemble`, on a host where `root` names the staging directory. */
  method ReassembleStream(stream: bytes, maximum: nat, outputExists: bool, allowSymlinks: bool, special: bool,
                          host: Nodes, root: Path, taken: nat -> nat)
    returns (result: Option<Nodes>)
    requires maximum >= 1024
    ensures result.Some? ==> Reassembles(stream, maximum, outputExists, allowSymlinks, special, host, root, result)
    ensures (forall n :: taken(n) > 0) ==>
              Reassembles(stream, maximum, outputExists, allowSymlinks, special, host, root, result)
  {
    hide StreamFrom, AcceptsOctets, Run, Permitted, Rebuilt, ListOf, WellListed;
    var summary := ValidateStream(stream, maximum);
    if summary.None? {
      return None;
    }
    AcceptedStream(stream, maximum);
    Listing.AcceptedListed(StreamFrom(stream, maximum).value);
    var lines := ReadStream(stream, maximum);
    assert summary.value.artifacts == ListOf(stream, maximum);
    result := Reassemble(summary.value, lines.value, outputExists, allowSymlinks, special, host, root, taken);
  }

  /** The tool on any stream at all: what is listed is restored exactly when the stream is accepted, what it asks for is
      allowed and its list can be built. If nothing is listed below a link, nothing comes out otherwise, and nothing
      outside the staging directory changes. */
  lemma StreamRestored(stream: bytes, maximum: nat, outputExists: bool, allowSymlinks: bool, special: bool, host: Nodes,
                       root: Path, result: Option<Nodes>)
    requires Reassembles(stream, maximum, outputExists, allowSymlinks, special, host, root, result)
             && Vacant(host, root)
    ensures result.Some? && SecondPass.ListRestored(Inside(result.value, root), ListOf(stream, maximum), special) <==>
            Admissible(stream, maximum, outputExists, allowSymlinks) && SecondPass.Buildable(ListOf(stream, maximum))
    ensures LinksFollowed.NothingBelowLinks(ListOf(stream, maximum)) ==>
              && (result.Some? <==>
                    Admissible(stream, maximum, outputExists, allowSymlinks)
                      && SecondPass.Buildable(ListOf(stream, maximum)))
              && NothingElse(host, root, result)
  {
    hide StreamFrom, AcceptsOctets, Run, Permitted, Rebuilt, ListOf, SecondPass.Buildable, SecondPass.ListRestored,
      Accepts, Vacant, Inside, Untouched, WithStage, LinksFollowed.NothingBelowLinks;
    if Admissible(stream, maximum, outputExists, allowSymlinks) {
      AcceptedStream(stream, maximum);
      var lines := StreamFrom(stream, maximum).value;
      LinksFollowed.ListedTreeIff(lines, special, host, root, result);
      if LinksFollowed.NothingBelowLinks(ListOf(stream, maximum)) {
        LinksFollowed.RestoredOnHost(lines, special, host, root, result);
      }
    }
  }

  /** The pass of the tool over an admissible stream goes through a link exactly when it reaches something below a link
      that is listed before and then leads to a directory. */
  lemma StreamThrough(stream: bytes, maximum: nat, outputExists: bool, allowSymlinks: bool, special: bool, host: Nodes,
                      root: Path)
    requires Admissible(stream, maximum, outputExists, allowSymlinks) && Vacant(host, root)
    ensures StreamFrom(stream, maximum).Some?
    ensures var rs, all := RecordsOf(StreamFrom(stream, maximum).value), ListOf(stream, maximum);
            HostStage.EverThrough(StartOn(host, root), rs, all, special, root) <==>
            LinksFollowed.EverMeets(StartOn(host, root), rs, all, special, root)
  {
    hide StreamFrom, AcceptsOctets, Run, Permitted, ListOf, RecordsOf, Vacant, WithStage, HostStage.EverThrough,
      LinksFollowed.EverMeets, Accepts;
    AcceptedStream(stream, maximum);
    LinksFollowed.AcceptedThrough(StreamFrom(stream, maximum).value, special, host, root);
  }

  // A stream the producer wrote.

  /** A captured link that says nothing outside the tree. */
  predicate LinkStays(c: Candidate, o: Observation)
    requires Captured(o)
  {
    var target := ContentOf(o);
    && c.components != [] && target != [] && target[0] != Paths.SEPARATOR
    && StaysBelow(|c.components| - 1, Paths.Split(target))
  }

  /** Links were asked for, and stay inside; or there are none. */
  predicate LinksAllowed(cs: seq<Candidate>, world: World, n: nat, allowSymlinks: bool)
    requires n <= |cs|
  {
    forall i :: 0 <= i < n && Captured(world(cs[i])) && world(cs[i]).LinkSeen? ==>
      allowSymlinks && LinkStays(cs[i], world(cs[i]))
  }

  predicate ListAllows(artifacts: seq<Artifact>, allowSymlinks: bool)
  {
    forall i :: 0 <= i < |artifacts| && artifacts[i].fileType == Symlink ==> allowSymlinks && SafeLink(artifacts[i])
  }

  lemma LinkIsSafe(c: Candidate, o: Observation, id: nat)
    requires Captured(o)
    ensures var a := Capture.ArtifactOf(c, o, id);
            (a.fileType == Symlink <==> o.LinkSeen?) && (o.LinkSeen? ==> (SafeLink(a) <==> LinkStays(c, o)))
  {
    hide StaysBelow, PathOf;
  }

  lemma ListSnoc(artifacts: seq<Artifact>, a: Artifact, allowSymlinks: bool)
    ensures ListAllows(artifacts + [a], allowSymlinks) <==>
            ListAllows(artifacts, allowSymlinks) && (a.fileType == Symlink ==> allowSymlinks && SafeLink(a))
  {
    hide SafeLink;
    var more := artifacts + [a];
    assert more[|artifacts|] == a && forall i :: 0 <= i < |artifacts| ==> more[i] == artifacts[i];
  }

  lemma {:induction false} CapturedLinks(cs: seq<Candidate>, world: World, n: nat, allowSymlinks: bool)
    requires n <= |cs|
    ensures ListAllows(Capture.ArtifactsOf(cs, world, n), allowSymlinks) <==> LinksAllowed(cs, world, n, allowSymlinks)
  {
    hide Captured, SafeLink, LinkStays, Capture.ArtifactOf, ListAllows;
    NoLinks(allowSymlinks);
    if n > 0 {
      var before := Capture.ArtifactsOf(cs, world, n - 1);
      assert before + [] == before;
      CapturedLinks(cs, world, n - 1, allowSymlinks);
      var c := cs[n - 1];
      if Captured(world(c)) {
        var id := CapturedCount(cs, world, n - 1);
        LinkIsSafe(c, world(c), id);
        ListSnoc(before, Capture.ArtifactOf(c, world(c), id), allowSymlinks);
      }
    }
  }

  lemma NoLinks(allowSymlinks: bool)
    ensures ListAllows([], allowSymlinks)
  {
  }

  lemma CommandStep(s: State, line: Line)
    requires Step(s, line).Some?
    ensures Step(s, line).value.header.Some?
    ensures s.header.Some? ==> Step(s, line).value.command == s.command
    ensures s.header.None? ==> line.record.Header? && Step(s, line).value.command == line.record.command
  {
    hide FooterOk, EntryOk, HeaderOk, BeginOk, ChunkOk, EndOk, Components, Paths.RelativePath;
  }

  lemma {:induction false} CommandStays(s: State, lines: seq<Line>)
    requires Run(s, lines).Some? && s.header.Some?
    ensures Run(s, lines).value.command == s.command
    decreases |lines|
  {
    hide Step;
    if lines != [] {
      CommandStep(s, lines[0]);
      CommandStays(Step(s, lines[0]).value, lines[1..]);
    }
  }

  lemma CommandIsFirst(lines: seq<Line>)
    requires lines != [] && Run(INITIAL_STATE, lines).Some?
    ensures lines[0].record.Header? && Run(INITIAL_STATE, lines).value.command == lines[0].record.command
  {
    hide Step;
    CommandStep(INITIAL_STATE, lines[0]);
    CommandStays(Step(INITIAL_STATE, lines[0]).value, lines[1..]);
  }

  lemma FooterStep(s: State, line: Line)
    requires Step(s, line).Some? && line.record.Footer?
    ensures Step(s, line).value.footer == Some(line.record)
  {
    hide FooterOk;
  }

  lemma FooterIsLast(lines: seq<Line>)
    requires lines != [] && Run(INITIAL_STATE, lines).Some? && lines[|lines| - 1].record.Footer?
    ensures Run(INITIAL_STATE, lines).value.footer == Some(lines[|lines| - 1].record)
  {
    hide Step, Run;
    var n := |lines| - 1;
    assert lines == lines[..n] + [lines[n]];
    Acceptance.RunSnoc(INITIAL_STATE, lines[..n], lines[n]);
    FooterStep(Run(INITIAL_STATE, lines[..n]).value, lines[n]);
  }

  /** A stream that reports a successful extraction permits whatever its links permit. */
  lemma PermittedIs(lines: seq<Line>, outputExists: bool, allowSymlinks: bool)
    requires Accepts(lines) && lines[0].record.Header? && lines[0].record.command == Extract
    requires lines[|lines| - 1].record.Footer? && lines[|lines| - 1].record.success
    ensures Run(INITIAL_STATE, lines).Some?
    ensures var t := Run(INITIAL_STATE, lines).value;
            && t.footer.Some? && t.footer.value.Footer?
            && (Permitted(Consumer.SummaryOf(t), outputExists, allowSymlinks) <==>
                  !outputExists && ListAllows(t.artifacts, allowSymlinks))
  {
    hide Run, SafeLink, TotalSize;
    CommandIsFirst(lines);
    FooterIsLast(lines);
    PermissionsAre(Run(INITIAL_STATE, lines).value.artifacts, allowSymlinks);
  }

  lemma PermissionsAre(artifacts: seq<Artifact>, allowSymlinks: bool)
    ensures (HasLinks(artifacts) ==> allowSymlinks) && LinksSafe(artifacts) <==> ListAllows(artifacts, allowSymlinks)
  {
    hide SafeLink;
  }

  /** What a reported extraction begins and ends with. */
  lemma ReportedEnds(lines: seq<Line>, chunkSize: nat, body: seq<Record>, totals: Totals, artifacts: (nat, nat),
                     counts: map<RecordType, int>)
    requires Reports(lines, HeaderOf(chunkSize), body, totals, artifacts, counts) && totals.diagnostics.error == 0
    ensures |lines| >= 2 && lines[0].record.Header? && lines[0].record.command == Extract
    ensures lines[|lines| - 1].record.Footer? && lines[|lines| - 1].record.success
  {
    assert RecordsOf(lines[..|lines| - 1])[0] == lines[0].record;
    hide RawOf;
  }

  /** What the tool is given for a captured tree. */
  predicate TreeAllowed(op: Operation, outcome: Outcome, outputExists: bool, allowSymlinks: bool)
  {
    && op.ExtractModule? && op.m.Some? && outcome.Extracted? && outcome.course.Whole? && !outputExists
    && LinksAllowed(outcome.course.f.candidates, op.m.value.world, |outcome.course.f.candidates|, allowSymlinks)
  }

  /** The outcome in terms of the lines that are read. */
  lemma ReassemblesLines(stream: bytes, maximum: nat, lines: seq<Line>, outputExists: bool, allowSymlinks: bool,
                         special: bool, host: Nodes, root: Path, result: Option<Nodes>)
    requires StreamFrom(stream, maximum) == Some(lines) && Accepts(lines)
    requires Reassembles(stream, maximum, outputExists, allowSymlinks, special, host, root, result)
    ensures Run(INITIAL_STATE, lines).Some?
    ensures var t := Run(INITIAL_STATE, lines).value;
            && t.footer.Some? && t.footer.value.Footer?
            && if Permitted(Consumer.SummaryOf(t), outputExists, allowSymlinks)
               then Rebuilt(lines, t.artifacts, special, host, root, result) else result.None?
  {
    hide StreamFrom, Run, Permitted, Rebuilt;
  }

  /** What a captured tree permits is up to its links. */
  lemma CapturePermits(lines: seq<Line>, counts: map<RecordType, int>, m: ModuleFacts, chunkSize: nat,
                       fault: Option<Fault>, f: Findings, outputExists: bool, allowSymlinks: bool)
    requires EndToEnd.Captures(lines, counts, m, chunkSize, fault, f)
    ensures Run(INITIAL_STATE, lines).Some?
    ensures var t := Run(INITIAL_STATE, lines).value;
            && t.footer.Some? && t.footer.value.Footer?
            && (Permitted(Consumer.SummaryOf(t), outputExists, allowSymlinks) <==>
                  !outputExists && LinksAllowed(f.candidates, m.world, |f.candidates|, allowSymlinks))
  {
    hide *;
    EndToEnd.CaptureParts(lines, counts, m, chunkSize, fault, f);
    ReportedEnds(lines, chunkSize, BodyOf(Some(m), chunkSize, Whole(f)), TotalsOf(Some(m), chunkSize, fault, Whole(f)),
                 ArtifactTotals(Some(m), chunkSize, Whole(f)), counts);
    EndToEnd.ListedArtifacts(lines, counts, m, chunkSize, fault, f);
    PermittedIs(lines, outputExists, allowSymlinks);
    CapturedLinks(f.candidates, m.world, |f.candidates|, allowSymlinks);
  }

  ghost predicate CaptureInside(cs: seq<Candidate>, world: World, special: bool, root: Path, result: Option<Nodes>)
  {
    result.Some? && TreeRebuilt(Inside(result.value, root), cs, world, special)
  }

  lemma InsideIs(cs: seq<Candidate>, world: World, special: bool, host: Nodes, root: Path, result: Option<Nodes>)
    ensures CaptureInside(cs, world, special, root, result) <==>
            result.Some? && TreeRebuilt(Inside(result.value, root), cs, world, special)
    ensures NothingElse(host, root, result) <==>
            (result.Some? ==> Untouched(WithStage(host, root), result.value, root))
  {
    hide TreeRebuilt, Inside, Untouched, WithStage;
  }

  lemma ToolOnLines(lines: seq<Line>, counts: map<RecordType, int>, m: ModuleFacts, chunkSize: nat,
                    fault: Option<Fault>, f: Findings, stream: bytes, maximum: nat, outputExists: bool,
                    allowSymlinks: bool, special: bool, host: Nodes, root: Path, result: Option<Nodes>)
    requires EndToEnd.Captures(lines, counts, m, chunkSize, fault, f) && StreamFrom(stream, maximum) == Some(lines)
    requires Reassembles(stream, maximum, outputExists, allowSymlinks, special, host, root, result)
             && Vacant(host, root)
    ensures var allowed := !outputExists && LinksAllowed(f.candidates, m.world, |f.candidates|, allowSymlinks);
            && (CaptureInside(f.candidates, m.world, special, root, result)
                <==> allowed && TreeClosed(f.candidates, m.world))
            && (EndToEnd.LinksBare(f.candidates, m.world) ==>
                  (result.Some? <==> allowed && TreeClosed(f.candidates, m.world)) && NothingElse(host, root, result))
  {
    hide *;
    InsideIs(f.candidates, m.world, special, host, root, result);
    EndToEnd.CaptureParts(lines, counts, m, chunkSize, fault, f);
    CapturePermits(lines, counts, m, chunkSize, fault, f, outputExists, allowSymlinks);
    ReassemblesLines(stream, maximum, lines, outputExists, allowSymlinks, special, host, root, result);
    if Permitted(Consumer.SummaryOf(Run(INITIAL_STATE, lines).value), outputExists, allowSymlinks) {
      EndToEnd.CaptureThenReassemble(lines, counts, m, chunkSize, fault, f, special, host, root, result);
    }
  }

  /** The whole way: when a call that extracts a module reports success, its run was acceptable and its lines fit, then
      the tool, given the octets the callback has taken, ends with exactly the captured tree if and only if there is no
      output yet, links are asked for and safe as spelled wherever there are any, and nothing was captured below what
      was no directory. If nothing was captured below a link, it ends with nothing in any other case, and nothing
      outside the staging directory changes. */
  lemma OctetsReassemble(op: Operation, render: Rendering, fault: Option<Fault>, lines: seq<Line>, outcome: Outcome,
                         answers: nat -> CallbackStream.Answer, spans: seq<bytes>, failure: CallbackStream.Failure,
                         maximum: nat, outputExists: bool, allowSymlinks: bool, special: bool, host: Nodes, root: Path,
                         result: Option<Nodes>)
    requires SuccessfulCall(op, render, fault, lines, outcome, answers, spans, failure, maximum) && Vacant(host, root)
    requires Reassembles(CallbackStream.Accepted(spans, failure), maximum, outputExists, allowSymlinks, special, host,
                         root, result)
    ensures IsCapturedTree(op, outcome, special, root, result) <==>
            TreeAllowed(op, outcome, outputExists, allowSymlinks) && Undisturbed(op, outcome)
    ensures Linkless(op, outcome) ==>
              && (result.Some? <==> TreeAllowed(op, outcome, outputExists, allowSymlinks) && Undisturbed(op, outcome))
              && NothingElse(host, root, result)
  {
    hide *;
    ReadLines(op, render, fault, lines, outcome, answers, spans, failure, maximum);
    CaptureOf(op, fault, lines, outcome);
    ToolOnLines(lines, outcome.counts, op.m.value, op.chunkSize, fault, outcome.course.f,
                CallbackStream.Accepted(spans, failure), maximum, outputExists, allowSymlinks, special, host, root,
                result);
    InsideIs(outcome.course.f.candidates, op.m.value.world, special, host, root, result);
    TreeParts(op, outcome, special, host, root, result);
    AllowedParts(op, outcome, outputExists, allowSymlinks);
  }

  lemma AllowedParts(op: Operation, outcome: Outcome, outputExists: bool, allowSymlinks: bool)
    requires op.ExtractModule? && op.m.Some? && outcome.Extracted? && outcome.course.Whole?
    ensures TreeAllowed(op, outcome, outputExists, allowSymlinks) <==>
            !outputExists
            && LinksAllowed(outcome.course.f.candidates, op.m.value.world, |outcome.course.f.candidates|, allowSymlinks)
  {
    hide LinksAllowed;
  }
}
