/** The validator run on records alone: all a numbered, hashed and counted stream leaves to decide. */
module Production {
  import opened Bytes
  import opened Records
  import opened Sha256Spec
  import opened Validation
  import Acceptance
  import Grammar

  function RecordsOf(lines: seq<Line>): (r: seq<Record>)
    ensures |r| == |lines|
  {
    seq(|lines|, i requires 0 <= i < |lines| => lines[i].record)
  }

  predicate NoFooter(records: seq<Record>)
  {
    forall i :: 0 <= i < |records| ==> !records[i].Footer?
  }

  lemma NoFooterSplit(left: seq<Record>, right: seq<Record>)
    ensures NoFooter(left + right) <==> NoFooter(left) && NoFooter(right)
  {
    var whole := left + right;
    if NoFooter(whole) {
      assert forall i :: 0 <= i < |left| ==> whole[i] == left[i];
      assert forall i :: 0 <= i < |right| ==> whole[|left| + i] == right[i];
    }
  }

  /** The record handlers in sequence, without the loop around them. */
  function RunRecords(s: State, records: seq<Record>): Option<State>
    requires NoFooter(records)
    decreases |records|
  {
    if records == [] then Some(s)
    else
      var t := StepRecord(s, records[0]);
      if t.None? then None else RunRecords(t.value, records[1..])
  }

  lemma {:induction false} RunRecordsAppend(s: State, left: seq<Record>, right: seq<Record>)
    requires NoFooter(left) && NoFooter(right)
    ensures NoFooter(left + right)
    ensures RunRecords(s, left + right) ==
            if RunRecords(s, left).None? then None else RunRecords(RunRecords(s, left).value, right)
    decreases |left|
  {
    hide StepRecord;
    if left == [] {
      assert left + right == right;
    } else {
      assert (left + right)[1..] == left[1..] + right;
      var t := StepRecord(s, left[0]);
      if t.Some? {
        RunRecordsAppend(t.value, left[1..], right);
      }
    }
  }

  lemma RunOneRecord(s: State, r: Record)
    requires !r.Footer?
    ensures RunRecords(s, [r]) == StepRecord(s, r)
  {
    hide StepRecord;
    assert [r][1..] == [];
  }

  lemma RunRecordsSnoc(s: State, records: seq<Record>, r: Record)
    requires NoFooter(records) && !r.Footer?
    ensures NoFooter(records + [r])
    ensures RunRecords(s, records + [r]) ==
            if RunRecords(s, records).None? then None else StepRecord(RunRecords(s, records).value, r)
  {
    hide StepRecord;
    RunRecordsAppend(s, records, [r]);
    if RunRecords(s, records).Some? {
      RunOneRecord(RunRecords(s, records).value, r);
    }
  }

  /** Two states that differ in what the loop of the validator keeps, if at all. */
  predicate Alike(s: State, t: State)
  {
    && t == s.(sequence := t.sequence, counts := t.counts, hashed := t.hashed)
    && (s.header.None? ==> s.sequence == t.sequence == 0)
  }

  /** The record handlers do not look at what the loop keeps. */
  lemma AlikeStep(s: State, t: State, r: Record)
    requires Alike(s, t) && !r.Footer?
    ensures StepRecord(s, r).Some? <==> StepRecord(t, r).Some?
    ensures StepRecord(s, r).Some? ==>
              && Alike(StepRecord(s, r).value, StepRecord(t, r).value)
              && StepRecord(s, r).value.header.Some?
              && StepRecord(s, r).value.sequence == s.sequence
  {
    hide EntryOk, BeginOk, EndOk, ChunkOk, HeaderOk, Closed, Opened, Absorb, Components;
  }

  /** A numbered stream runs through exactly when its records do, and to the same state. */
  lemma {:induction false} LinesRun(lines: seq<Line>)
    requires Grammar.Sequenced(lines) && NoFooter(RecordsOf(lines))
    ensures Run(INITIAL_STATE, lines).Some? <==> RunRecords(INITIAL_STATE, RecordsOf(lines)).Some?
    ensures Run(INITIAL_STATE, lines).Some? ==>
              && Alike(RunRecords(INITIAL_STATE, RecordsOf(lines)).value, Run(INITIAL_STATE, lines).value)
              && Acceptance.Framing(Run(INITIAL_STATE, lines).value, lines)
              && (lines != [] ==> Run(INITIAL_STATE, lines).value.header.Some?)
    decreases |lines|
  {
    if lines == [] {
      Acceptance.NothingRead();
      NothingRun();
      hide RawOf, Grammar.CountsAgree;
    } else {
      hide Step, StepRecord, Run, RunRecords, Alike, Acceptance.Framing;
      var n := |lines| - 1;
      var before, line := lines[..n], lines[n];
      assert lines == before + [line];
      assert RecordsOf(lines) == RecordsOf(before) + [line.record];
      NoFooterSplit(RecordsOf(before), [line.record]);
      assert !line.record.Footer? by { assert ![line.record][0].Footer?; }
      Acceptance.SequencedSnoc(before, line);
      LinesRun(before);
      Acceptance.RunSnoc(INITIAL_STATE, before, line);
      RunRecordsSnoc(INITIAL_STATE, RecordsOf(before), line.record);
      if Run(INITIAL_STATE, before).Some? {
        LineStep(RunRecords(INITIAL_STATE, RecordsOf(before)).value, Run(INITIAL_STATE, before).value, before, line);
      }
    }
  }

  lemma NothingRun()
    ensures Run(INITIAL_STATE, []) == Some(INITIAL_STATE) && RunRecords(INITIAL_STATE, []) == Some(INITIAL_STATE)
    ensures Alike(INITIAL_STATE, INITIAL_STATE)
  {
  }

  lemma LineStep(s: State, t: State, before: seq<Line>, line: Line)
    requires Alike(s, t) && Acceptance.Framing(t, before) && !line.record.Footer? && line.sequence == |before|
    ensures Step(t, line).Some? <==> StepRecord(s, line.record).Some?
    ensures Step(t, line).Some? ==>
              && Alike(StepRecord(s, line.record).value, Step(t, line).value)
              && Acceptance.Framing(Step(t, line).value, before + [line])
              && Step(t, line).value.header.Some?
  {
    AlikeStep(s, t, line.record);
    Acceptance.FramingStep(t, before, line);
    hide StepRecord, Acceptance.Framing;
  }

  /** What a footer with the right tallies and digest still has to get right. */
  predicate Closes(s: State, r: Record)
    requires r.Footer?
  {
    && s.active.None?
    && r.entries == s.entryCount
    && r.artifacts == |s.artifacts|
    && r.artifactBytes == TotalSize(s.artifacts)
    && r.diagnostics == s.diagnostics
    && r.diagnostics.info >= 0 && r.diagnostics.warning >= 0 && r.diagnostics.error >= 0
    && r.success == (s.diagnostics.error == 0)
    && (s.command == Extract && r.success ==> s.moduleCount == 1)
    && (s.command == List ==> s.entryCount == 0 && s.artifacts == [])
  }

  lemma {:induction false} NoFooterLines(lines: seq<Line>)
    requires NoFooter(RecordsOf(lines))
    ensures Grammar.TypeCount(lines, FooterType) == 0
  {
    forall i | 0 <= i < |lines|
      ensures !lines[i].record.Footer?
    {
      assert !RecordsOf(lines)[i].Footer?;
    }
    Acceptance.NoFooterCounted(lines);
  }

  /** The footer step on a stream whose footer has the right tallies and digest. */
  lemma FooterStep(s: State, t: State, body: seq<Line>, footer: Line)
    requires Alike(s, t) && Acceptance.Framing(t, body) && t.header.Some? && NoFooter(RecordsOf(body))
    requires footer.sequence == |body| && footer.record.Footer?
    requires Grammar.CountsAgree(footer.record.counts, body) && footer.record.streamSha256 == Sha256Hex(RawOf(body))
    ensures Step(t, footer).Some? && Complete(Step(t, footer).value) <==> Closes(s, footer.record)
  {
    hide Sha256Hex, RawOf, TotalSize, Grammar.TypeCount;
    NoFooterLines(body);
    Acceptance.CountsUnique(t.counts, footer.record.counts, body);
    hide Grammar.CountsAgree, RecordsOf, NoFooter;
  }

  /** Acceptance of a well-kept stream depends on its records only. */
  lemma AcceptsRecords(body: seq<Line>, footer: Line)
    requires body != [] && Grammar.Sequenced(body + [footer]) && footer.record.Footer? && NoFooter(RecordsOf(body))
    requires Grammar.CountsAgree(footer.record.counts, body) && footer.record.streamSha256 == Sha256Hex(RawOf(body))
    ensures Accepts(body + [footer]) <==>
            RunRecords(INITIAL_STATE, RecordsOf(body)).Some?
            && Closes(RunRecords(INITIAL_STATE, RecordsOf(body)).value, footer.record)
  {
    hide Step, StepRecord, Run, RunRecords, Alike, Acceptance.Framing, Closes, Complete, Sha256Hex, RawOf,
      Grammar.CountsAgree, RecordsOf, NoFooter;
    Acceptance.SequencedSnoc(body, footer);
    LinesRun(body);
    Acceptance.RunSnoc(INITIAL_STATE, body, footer);
    if Run(INITIAL_STATE, body).Some? {
      FooterStep(RunRecords(INITIAL_STATE, RecordsOf(body)).value, Run(INITIAL_STATE, body).value, body, footer);
    }
  }
}
