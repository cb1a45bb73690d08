/** One producer run: the writer, the totals the footer will report, and at most one foreign exception. */
module Session {
  import opened Bytes
  import opened Records
  import opened JsonText
  import opened CallbackStream
  import opened Sha256Spec
  import opened Writer
  import Production

  /** An exception of the foreign library, the file system or the allocator that is caught: after how many more records
      it comes, and whether it strikes inside the emission of a diagnostic that has already been counted. It comes
      between records; what one between a record's hash and its number does is the matter of
      `Shortfalls.RepeatedNumberRefused`. */
  datatype Fault = Fault(after: nat, inside: bool)

  /** The totals a run keeps beside the stream. */
  datatype Totals = Totals(diagnostics: DiagnosticCounts, entries: nat)

  const NO_TOTALS := Totals(DiagnosticCounts(0, 0, 0), 0)

  function TallyOne(t: Totals, r: Record): Totals
  {
    match r
    case Diagnostic(severity, _) => t.(diagnostics := CountDiagnostic(t.diagnostics, severity))
    case Entry(_) => t.(entries := t.entries + 1)
    case _ => t
  }

  /** The totals after the records `rs`. */
  function Tally(t: Totals, rs: seq<Record>): Totals
    decreases |rs|
  {
    if rs == [] then t else Tally(TallyOne(t, rs[0]), rs[1..])
  }

  lemma {:induction false} TallyAppend(t: Totals, left: seq<Record>, right: seq<Record>)
    ensures Tally(t, left + right) == Tally(Tally(t, left), right)
    decreases |left|
  {
    hide TallyOne;
    if left == [] {
      assert left + right == right;
    } else {
      assert (left + right)[1..] == left[1..] + right;
      TallyAppend(TallyOne(t, left[0]), left[1..], right);
    }
  }

  lemma TallyOneRecord(t: Totals, r: Record)
    ensures Tally(t, [r]) == TallyOne(t, r)
  {
    hide TallyOne;
    assert [r][1..] == [];
  }

  /** What a run looks like from outside at one moment. */
  datatype Snapshot = Snapshot(emitted: seq<Record>, totals: Totals, fault: Option<Fault>, bad: bool)

  function Later(fault: Option<Fault>, n: nat): Option<Fault>
  {
    if fault.Some? && fault.value.after >= n then Some(Fault(fault.value.after - n, fault.value.inside)) else None
  }

  /** The totals when the record after the first `k` was interrupted: a diagnostic may have been counted already. */
  function TotalsAtBreak(t: Totals, rs: seq<Record>, k: nat, inside: bool): Totals
    requires k <= |rs|
  {
    var done := Tally(t, rs[..k]);
    if inside && k < |rs| && rs[k].Diagnostic? then TallyOne(done, rs[k]) else done
  }

  /** Between `a` and `b` exactly the records `rs` were emitted and, if `counted`, totalled. */
  predicate Completed(a: Snapshot, b: Snapshot, rs: seq<Record>, counted: bool)
  {
    && b.emitted == a.emitted + rs
    && b.totals == (if counted then Tally(a.totals, rs) else a.totals)
    && !b.bad
    && (a.fault.Some? ==> a.fault.value.after >= |rs|)
    && b.fault == Later(a.fault, |rs|)
  }

  /** The fault of `a` struck when `k` of the records had been emitted. */
  predicate Struck(a: Snapshot, b: Snapshot, rs: seq<Record>, counted: bool, k: nat)
    requires k <= |rs|
  {
    && a.fault.Some? && a.fault.value.after == k && b.fault.None?
    && (k == |rs| ==> !a.fault.value.inside)
    && b.totals == (if counted then TotalsAtBreak(a.totals, rs, k, a.fault.value.inside) else a.totals)
  }

  /** Between `a` and `b` the emission of `rs` was broken off after `k` records, by the stream or by the fault. */
  predicate BrokenOff(a: Snapshot, b: Snapshot, rs: seq<Record>, counted: bool, k: nat)
  {
    k <= |rs| && b.emitted == a.emitted + rs[..k] && (b.bad || Struck(a, b, rs, counted, k))
  }

  ghost predicate Played(a: Snapshot, b: Snapshot, rs: seq<Record>, counted: bool, thrown: bool)
  {
    if thrown then exists k: nat :: BrokenOff(a, b, rs, counted, k) else Completed(a, b, rs, counted)
  }

  lemma PlayedNothing(a: Snapshot, counted: bool)
    requires !a.bad
    ensures Completed(a, a, [], counted)
  {
    assert a.emitted + [] == a.emitted;
  }

  /** Completed parts compose; whatever the second part does, the whole does. */
  lemma PlayedThen(a: Snapshot, b: Snapshot, c: Snapshot, first: seq<Record>, second: seq<Record>, counted: bool,
                   thrown: bool)
    requires Completed(a, b, first, counted) && Played(b, c, second, counted, thrown)
    ensures Played(a, c, first + second, counted, thrown)
  {
    hide Tally, TallyOne;
    TallyAppend(a.totals, first, second);
    assert a.emitted + first + second == a.emitted + (first + second);
    if thrown {
      var k: nat :| BrokenOff(b, c, second, counted, k);
      BrokenOffLater(a, b, c, first, second, counted, k);
    }
  }

  lemma BrokenOffLater(a: Snapshot, b: Snapshot, c: Snapshot, first: seq<Record>, second: seq<Record>, counted: bool,
                       k: nat)
    requires Completed(a, b, first, counted) && BrokenOff(b, c, second, counted, k)
    ensures BrokenOff(a, c, first + second, counted, |first| + k)
  {
    hide Tally, TallyOne;
    var n := |first| + k;
    assert (first + second)[..n] == first + second[..k];
    assert a.emitted + first + second[..k] == a.emitted + (first + second[..k]);
    TallyAppend(a.totals, first, second[..k]);
    assert k < |second| ==> (first + second)[n] == second[k];
  }

  lemma PlayedOn(a: Snapshot, b: Snapshot, c: Snapshot, first: seq<Record>, second: seq<Record>, counted: bool,
                 thrown: bool)
    requires Played(a, b, first, counted, false) && Played(b, c, second, counted, thrown)
    ensures Played(a, c, first + second, counted, thrown) && !b.bad
  {
    assert Completed(a, b, first, counted);
    hide Played;
    PlayedThen(a, b, c, first, second, counted, thrown);
  }

  lemma CompletedIsPlayed(a: Snapshot, b: Snapshot, rs: seq<Record>, counted: bool)
    requires Completed(a, b, rs, counted)
    ensures Played(a, b, rs, counted, false)
  {
  }

  lemma PlayedIsCompleted(a: Snapshot, b: Snapshot, rs: seq<Record>, counted: bool)
    requires Played(a, b, rs, counted, false)
    ensures Completed(a, b, rs, counted) && !b.bad
  {
  }

  lemma StillGood(a: Snapshot, b: Snapshot, rs: seq<Record>, counted: bool)
    requires Played(a, b, rs, counted, false)
    ensures !b.bad
  {
  }

  /** A broken-off part breaks off every longer part. */
  lemma BrokenOffLonger(a: Snapshot, b: Snapshot, first: seq<Record>, second: seq<Record>, counted: bool)
    requires Played(a, b, first, counted, true)
    ensures Played(a, b, first + second, counted, true)
  {
    hide Tally, TallyOne;
    var k: nat :| BrokenOff(a, b, first, counted, k);
    assert (first + second)[..k] == first[..k];
    assert BrokenOff(a, b, first + second, counted, k);
  }

  /** One more record of a list that is emitted in order. */
  lemma PlayedTake(a: Snapshot, b: Snapshot, c: Snapshot, all: seq<Record>, i: nat, thrown: bool)
    requires i < |all| && Completed(a, b, all[..i], true) && Played(b, c, [all[i]], true, thrown)
    ensures thrown ==> Played(a, c, all, true, true)
    ensures !thrown ==> Completed(a, c, all[..i + 1], true) && !c.bad
  {
    hide Completed, Played;
    PlayedThen(a, b, c, all[..i], [all[i]], true, thrown);
    assert all[..i + 1] == all[..i] + [all[i]];
    if thrown {
      BrokenOffLonger(a, c, all[..i + 1], all[i + 1..], true);
      assert all == all[..i + 1] + all[i + 1..];
    } else {
      PlayedIsCompleted(a, c, all[..i + 1], true);
    }
  }

  /** The members printed on each line, by its number and its record: two lines with the same record may differ in
      whatever the record does not carry. The writer's own two members are not among them. */
  type Rendering = (nat, Record) -> JsonFields

  ghost predicate Reserved(render: Rendering)
  {
    forall i, r :: SEQUENCE !in render(i, r) && TYPE !in render(i, r)
  }

  /** `footer_fields`. */
  function FooterFields(artifactBytes: nat, artifacts: nat, t: Totals): JsonFields
  {
    map[Text("artifact_bytes") := Decimal(artifactBytes),
        Text("artifacts") := Decimal(artifacts),
        Text("diagnostics") := ObjectText(map[Text("error") := Decimal(Magnitude(t.diagnostics.error)),
                                              Text("info") := Decimal(Magnitude(t.diagnostics.info)),
                                              Text("warning") := Decimal(Magnitude(t.diagnostics.warning))]),
        Text("entries") := Decimal(t.entries)]
  }

  /** Every line is the printed rendering of its record, which is no footer. */
  ghost predicate RenderedBy(lines: seq<Line>, render: Rendering)
  {
    forall i :: 0 <= i < |lines| ==>
      && !lines[i].record.Footer?
      && lines[i].raw == LineText(TypeOf(lines[i].record), i, render(i, lines[i].record))
  }

  /** No footer has been written. */
  predicate Footless(lines: seq<Line>)
  {
    forall i :: 0 <= i < |lines| ==> !lines[i].record.Footer?
  }

  lemma RenderedSnoc(lines: seq<Line>, render: Rendering, line: Line)
    requires RenderedBy(lines, render) && !line.record.Footer?
    requires line.raw == LineText(TypeOf(line.record), |lines|, render(|lines|, line.record))
    ensures RenderedBy(lines + [line], render)
  {
    hide LineText, TypeOf;
  }

  lemma NothingRendered(render: Rendering)
    ensures RenderedBy([], render)
  {
  }

  /** The text of a footer that reports what its record says. */
  function FooterLine(f: Record, sequence: nat): bytes
    requires f.Footer? && f.artifactBytes >= 0 && f.artifacts >= 0 && f.entries >= 0
  {
    FooterText(f.counts, sequence, f.streamSha256, f.success,
               FooterFields(f.artifactBytes, f.artifacts, Totals(f.diagnostics, f.entries)))
  }

  /** A finished stream, down to its octets: rendered records and a footer. */
  ghost predicate Spelled(lines: seq<Line>, render: Rendering)
  {
    && lines != [] && RenderedBy(lines[..|lines| - 1], render)
    && var f := lines[|lines| - 1].record;
       f.Footer? && f.artifactBytes >= 0 && f.artifacts >= 0 && f.entries >= 0
       && lines[|lines| - 1].raw == FooterLine(f, |lines| - 1)
  }

  lemma SpelledOut(lines: seq<Line>, render: Rendering, footer: Line)
    requires RenderedBy(lines, render) && footer.record.Footer?
    requires footer.record.artifactBytes >= 0 && footer.record.artifacts >= 0 && footer.record.entries >= 0
    requires footer.raw == FooterLine(footer.record, |lines|)
    ensures Spelled(lines + [footer], render)
  {
    hide FooterLine, RenderedBy;
    assert (lines + [footer])[..|lines|] == lines;
  }

  lemma SequenceIs(writer: NdjsonWriter)
    requires writer.Valid()
    ensures writer.sequence == |writer.lines|
  {
  }

  lemma NotReserved(render: Rendering, i: nat, r: Record)
    requires Reserved(render)
    ensures SEQUENCE !in render(i, r) && TYPE !in render(i, r)
  {
  }

  lemma RecordsSnoc(lines: seq<Line>, line: Line)
    ensures Production.RecordsOf(lines + [line]) == Production.RecordsOf(lines) + [line.record]
  {
  }

  class Emitter {
    const writer: NdjsonWriter
    const render: Rendering
    var totals: Totals
    var fault: Option<Fault>

    ghost function Now(): Snapshot
      reads this, writer, writer.output
    {
      Snapshot(Production.RecordsOf(writer.lines), totals, fault, writer.output.bad)
    }

    ghost predicate Valid()
      reads this, writer, writer.output, writer.output.buf, writer.output.buf.buffer, writer.output.buf.callback
      reads writer.hash, writer.hash.state, writer.hash.buffer
    {
      writer.Valid() && this !in writer.Repr && Reserved(render) && !writer.finished && RenderedBy(writer.lines, render)
    }

    constructor (writer: NdjsonWriter, render: Rendering, fault: Option<Fault>)
      requires writer.Valid() && !writer.finished && Reserved(render) && RenderedBy(writer.lines, render)
      ensures Valid() && this.writer == writer && this.render == render
      ensures Now() == Snapshot(Production.RecordsOf(writer.lines), NO_TOTALS, fault, writer.output.bad)
    {
      this.writer, this.render, this.totals, this.fault := writer, render, NO_TOTALS, fault;
    }

    /** A place where foreign code may throw although nothing is emitted. */
    method Foreign() returns (thrown: bool)
      requires Valid() && !writer.output.bad
      modifies this`fault
      ensures Valid() && Played(old(Now()), Now(), [], true, thrown) && Played(old(Now()), Now(), [], false, thrown)
    {
      thrown := fault == Some(Fault(0, false));
      ghost var before := Now();
      if thrown {
        fault := None;
      }
      NothingPlayed(before, Now(), thrown);
    }

    /** Emits one record, unless a pending fault strikes first. */
    method Put(record: Record) returns (thrown: bool)
      requires Valid() && !record.Footer?
      modifies this`fault, writer.Repr
      ensures Valid() && totals == old(totals)
      ensures var a, b := old(Now()), Now();
              if thrown then
                b.emitted == a.emitted && (b.bad || (a.fault.Some? && a.fault.value.after == 0 && b.fault.None?))
              else
                && b.emitted == a.emitted + [record] && !b.bad && b.fault == Later(a.fault, 1)
                && (a.fault.Some? ==> a.fault.value.after >= 1)
    {
      hide Reserved, LineText, TypeOf, Production.RecordsOf, writer.Valid, RenderedBy;
      if fault.Some? && fault.value.after == 0 {
        fault := None;
        return true;
      }
      NotReserved(render, writer.sequence, record);
      ghost var line := Line(LineText(TypeOf(record), writer.sequence, render(writer.sequence, record)),
                             writer.sequence, record);
      SequenceIs(writer);
      RecordsSnoc(writer.lines, line);
      RenderedSnoc(writer.lines, render, line);
      thrown := writer.Emit(TypeOf(record), render(writer.sequence, record), record);
      if !thrown {
        fault := Later(fault, 1);
      }
    }

    /** Emits one record where no foreign exception is awaited: outside the guarded part of an operation. */
    method Announce(record: Record) returns (thrown: bool)
      requires Valid() && !record.Footer?
      modifies writer.Repr
      ensures Valid() && writer.Valid() && thrown == writer.output.bad && (old(writer.output.bad) ==> thrown)
      ensures Now() == old(Now()).(emitted := if thrown then old(Now()).emitted else old(Now()).emitted + [record],
                                   bad := thrown)
    {
      hide Reserved, LineText, TypeOf, Production.RecordsOf, writer.Valid, RenderedBy;
      NotReserved(render, writer.sequence, record);
      ghost var line := Line(LineText(TypeOf(record), writer.sequence, render(writer.sequence, record)),
                             writer.sequence, record);
      SequenceIs(writer);
      RecordsSnoc(writer.lines, line);
      RenderedSnoc(writer.lines, render, line);
      thrown := writer.Emit(TypeOf(record), render(writer.sequence, record), record);
    }

    /** Counts and emits a diagnostic where no foreign exception is awaited. */
    method Confess(severity: Severity, code: bytes) returns (thrown: bool)
      requires Valid()
      modifies this`totals, writer.Repr
      ensures Valid() && writer.Valid() && thrown == writer.output.bad && (old(writer.output.bad) ==> thrown)
      ensures !thrown ==>
                Now() == old(Now()).(emitted := old(Now()).emitted + [Diagnostic(severity, code)],
                                     totals := TallyOne(old(Now()).totals, Diagnostic(severity, code)), bad := false)
    {
      hide Reserved, Production.RecordsOf, writer.Valid, CountDiagnostic;
      totals := totals.(diagnostics := CountDiagnostic(totals.diagnostics, severity));
      thrown := Announce(Diagnostic(severity, code));
    }

    /** Ends the stream with the totals of the run. */
    method Close(success: bool, artifacts: nat, artifactBytes: nat) returns (thrown: bool, ghost footer: Line)
      requires Valid()
      modifies writer.Repr
      ensures writer.Valid() && thrown == writer.output.bad && totals == old(totals)
      ensures thrown ==> Valid()
      ensures !thrown ==> Spelled(writer.lines, render)
      ensures !thrown ==>
                && writer.finished && writer.lines == old(writer.lines) + [footer]
                && footer.record == Footer(artifactBytes, artifacts, writer.counts, totals.diagnostics, totals.entries,
                                           footer.record.streamSha256, success)
                && footer.sequence == |old(writer.lines)|
                && (|RawOf(old(writer.lines))| < 0x2000_0000_0000_0000 ==>
                      footer.record.streamSha256 == Sha256Hex(RawOf(old(writer.lines))))
    {
      hide writer.Valid, RawOf, Sha256Hex, FooterText, Accepted, Spelled, RenderedBy;
      ghost var sequence := writer.sequence;
      SequenceIs(writer);
      ghost var record;
      var fields := FooterFields(artifactBytes, artifacts, totals);
      thrown, record := writer.Finish(success, fields, artifactBytes, artifacts, totals.diagnostics, totals.entries);
      footer := Line(FooterText(writer.counts, sequence, record.streamSha256, success, fields), sequence, record);
      SpelledOut(old(writer.lines), render, footer);
    }

    /** Emits one record that no total counts; a pending fault strikes first. */
    method Write(record: Record) returns (thrown: bool)
      requires Valid() && !record.Footer?
      modifies this`fault, writer.Repr
      ensures Valid() && totals == old(totals)
      ensures Played(old(Now()), Now(), [record], false, thrown)
    {
      hide Played, Reserved, Production.RecordsOf, writer.Valid;
      ghost var before := Now();
      thrown := Put(record);
      OnePlayed(before, Now(), record, thrown);
    }

    /** Emits one record of the extraction proper; entries are totalled once they are out. */
    method Emit(record: Record) returns (thrown: bool)
      requires Valid() && !record.Footer? && !record.Diagnostic?
      modifies this, writer.Repr
      ensures Valid() && Played(old(Now()), Now(), [record], true, thrown)
    {
      hide Played, Reserved, Production.RecordsOf, writer.Valid;
      ghost var before := Now();
      thrown := Put(record);
      if !thrown && record.Entry? {
        totals := totals.(entries := totals.entries + 1);
      }
      OneCounted(before, Now(), record, thrown);
    }

    /** Counts a diagnostic, then emits it. */
    method Diagnose(severity: Severity, code: bytes) returns (thrown: bool)
      requires Valid()
      modifies this, writer.Repr
      ensures Valid() && Played(old(Now()), Now(), [Diagnostic(severity, code)], true, thrown)
    {
      hide Played, Reserved, Production.RecordsOf, writer.Valid, CountDiagnostic;
      ghost var before := Now();
      var record := Diagnostic(severity, code);
      if fault == Some(Fault(0, false)) {
        fault := None;
        OneCounted(before, Now(), record, true);
        return true;
      }
      totals := totals.(diagnostics := CountDiagnostic(totals.diagnostics, severity));
      thrown := Put(record);
      OneCounted(before, Now(), record, thrown);
    }
  }

  /** One totalled record: a diagnostic is counted before, an entry after it has been emitted. */
  lemma OneCounted(a: Snapshot, b: Snapshot, record: Record, thrown: bool)
    requires if thrown then
               && b.emitted == a.emitted
               && (b.bad || (&& a.fault.Some? && a.fault.value.after == 0 && b.fault.None?
                             && b.totals == if a.fault.value.inside && record.Diagnostic?
                                            then TallyOne(a.totals, record) else a.totals))
             else b.emitted == a.emitted + [record] && !b.bad && b.fault == Later(a.fault, 1)
                  && (a.fault.Some? ==> a.fault.value.after >= 1) && b.totals == TallyOne(a.totals, record)
    ensures Played(a, b, [record], true, thrown)
  {
    hide TallyOne;
    assert a.emitted + [record][..0] == a.emitted;
    TallyOneRecord(a.totals, record);
    if thrown {
      assert [record][..0] == [];
      assert BrokenOff(a, b, [record], true, 0);
    }
  }

  lemma NothingPlayed(a: Snapshot, b: Snapshot, thrown: bool)
    requires !a.bad
    requires if thrown then a.fault == Some(Fault(0, false)) && b == a.(fault := None)
             else b == a && a.fault != Some(Fault(0, false))
    ensures Played(a, b, [], true, thrown) && Played(a, b, [], false, thrown)
  {
    assert a.emitted + [] == a.emitted;
    if thrown {
      assert BrokenOff(a, b, [], true, 0) && BrokenOff(a, b, [], false, 0);
    }
  }

  /** One record that is not totalled: emitted, struck or refused by the stream. */
  lemma OnePlayed(a: Snapshot, b: Snapshot, record: Record, thrown: bool)
    requires b.totals == a.totals
    requires if thrown
             then b.emitted == a.emitted && (b.bad || (a.fault.Some? && a.fault.value.after == 0 && b.fault.None?))
             else b.emitted == a.emitted + [record] && !b.bad && b.fault == Later(a.fault, 1)
                  && (a.fault.Some? ==> a.fault.value.after >= 1)
    ensures Played(a, b, [record], false, thrown)
  {
    assert a.emitted + [record][..0] == a.emitted;
    if thrown {
      assert BrokenOff(a, b, [record], false, 0);
    }
  }
}
