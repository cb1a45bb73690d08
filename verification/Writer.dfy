/** The record writer: numbers, prints, hashes and counts records, and ends the stream with one footer. */
module Writer {
  import opened Bytes
  import opened Records
  import opened Sha256Spec
  import opened JsonText
  import opened CallbackStream
  import Acceptance
  import Grammar
  import Sha256Stream
  import Validation

  const SEQUENCE := Text("sequence")
  const TYPE := Text("type")

  function TypeName(t: RecordType): bytes
  {
    match t
    case HeaderType => Text("header")
    case ModuleType => Text("module")
    case ConfigSourceType => Text("config_source")
    case ConfigEntryType => Text("config_entry")
    case EntryType => Text("entry")
    case ArtifactBeginType => Text("artifact_begin")
    case ArtifactChunkType => Text("artifact_chunk")
    case ArtifactEndType => Text("artifact_end")
    case DiagnosticType => Text("diagnostic")
    case FooterType => Text("footer")
  }

  /** One printed record with its line feed. */
  function LineText(t: RecordType, sequence: nat, fields: JsonFields): bytes
  {
    ObjectText(fields[SEQUENCE := Decimal(sequence)][TYPE := JsonString(TypeName(t))]) + [LF]
  }

  /** The record types in the bytewise order of their names. */
  function TypeAt(i: nat): RecordType
    requires i < 10
  {
    match i
    case 0 => ArtifactBeginType
    case 1 => ArtifactChunkType
    case 2 => ArtifactEndType
    case 3 => ConfigEntryType
    case 4 => ConfigSourceType
    case 5 => DiagnosticType
    case 6 => EntryType
    case 7 => FooterType
    case 8 => HeaderType
    case _ => ModuleType
  }

  function Magnitude(n: int): nat { if n < 0 then 0 else n }

  /** The printed tallies of the first `n` record types, those that occur. */
  function CountTexts(counts: map<RecordType, int>, n: nat): seq<bytes>
    requires n <= 10
  {
    if n == 0 then []
    else
      var t := TypeAt(n - 1);
      CountTexts(counts, n - 1)
      + if t in counts then [MemberText(TypeName(t), Decimal(Magnitude(counts[t])))] else []
  }

  function CountsText(counts: map<RecordType, int>): bytes
  {
    [OPEN_BRACE] + Commas(CountTexts(counts, 10)) + [CLOSE_BRACE]
  }

  lemma NoCounts(counts: map<RecordType, int>)
    ensures CountTexts(counts, 0) == []
  {
  }

  lemma CountTextsStep(counts: map<RecordType, int>, n: nat)
    requires n < 10
    ensures var before, t := CountTexts(counts, n), TypeAt(n);
            if t in counts then
              && CountTexts(counts, n + 1) != []
              && [OPEN_BRACE] + Commas(CountTexts(counts, n + 1)) ==
                 [OPEN_BRACE] + Commas(before) + (if before == [] then [] else [COMMA])
                 + MemberText(TypeName(t), Decimal(Magnitude(counts[t])))
            else CountTexts(counts, n + 1) == before
  {
    hide TypeAt, TypeName, MemberText, Commas, Decimal;
    var before, t := CountTexts(counts, n), TypeAt(n);
    if t in counts {
      CommasSnoc(before, MemberText(TypeName(t), Decimal(Magnitude(counts[t]))));
    } else {
      assert before + [] == before;
    }
  }

  method CountsJson(counts: map<RecordType, int>) returns (output: bytes)
    ensures output == CountsText(counts)
  {
    hide TypeAt, TypeName, MemberText, Commas, Decimal, CountTexts;
    output := [OPEN_BRACE];
    assert CountTexts(counts, 0) == [] by { NoCounts(counts); }
    NoCommas();
    var first := true;
    for n := 0 to 10
      invariant first == (CountTexts(counts, n) == [])
      invariant output == [OPEN_BRACE] + Commas(CountTexts(counts, n))
    {
      var t := TypeAt(n);
      CountTextsStep(counts, n);
      if t in counts {
        if !first {
          output := output + [COMMA];
        }
        first := false;
        output := output + MemberText(TypeName(t), Decimal(Magnitude(counts[t])));
      }
    }
    output := output + [CLOSE_BRACE];
  }

  const COUNTS := Text("counts")
  const STREAM_SHA256 := Text("stream_sha256")
  const SUCCESS := Text("success")

  /** A member is added unless its name is taken. */
  function Emplace(fields: JsonFields, name: bytes, value: bytes): JsonFields
  {
    if name in fields then fields else fields[name := value]
  }

  /** The footer line. */
  function FooterText(counts: map<RecordType, int>, sequence: nat, digest: bytes, success: bool,
                      fields: JsonFields): bytes
  {
    var a := Emplace(fields, COUNTS, CountsText(counts));
    var b := Emplace(a, SEQUENCE, Decimal(sequence));
    var c := Emplace(b, STREAM_SHA256, JsonString(digest));
    var d := Emplace(c, SUCCESS, if success then Text("true") else Text("false"));
    var e := Emplace(d, TYPE, JsonString(TypeName(FooterType)));
    ObjectText(e) + [LF]
  }

  /** The lines the footer accounts for. */
  function Body(lines: seq<Line>, finished: bool): seq<Line>
  {
    if finished && lines != [] then lines[..|lines| - 1] else lines
  }

  /** What the writer's fields say about the lines it has written. */
  ghost predicate AccountsFor(lines: seq<Line>, finished: bool, sequence: nat, counts: map<RecordType, int>,
                              hashed: bytes)
  {
    && Grammar.Sequenced(lines) && sequence == |lines|
    && hashed == RawOf(Body(lines, finished))
    && Grammar.CountsAgree(counts, Body(lines, finished))
    && (finished ==> lines != [] && lines[|lines| - 1].record.Footer?)
  }

  lemma NothingYet()
    ensures AccountsFor([], false, 0, map[], []) && RawOf([]) == []
  {
  }

  /** One more record. */
  lemma Recorded(lines: seq<Line>, sequence: nat, counts: map<RecordType, int>, hashed: bytes, line: Line)
    requires AccountsFor(lines, false, sequence, counts, hashed) && line.sequence == sequence
    ensures AccountsFor(lines + [line], false, sequence + 1,
                        Validation.Increment(counts, TypeOf(line.record)), hashed + line.raw)
    ensures RawOf(lines + [line]) == RawOf(lines) + line.raw
  {
    hide RawOf, TypeOf, Grammar.CountsAgree, Validation.Increment;
    RawOfSnoc(lines, line);
    Acceptance.CountsSnoc(counts, lines, line);
    Acceptance.SequencedSnoc(lines, line);
  }

  /** The footer: it is numbered like any line, but neither hashed nor counted. */
  lemma Ended(lines: seq<Line>, sequence: nat, counts: map<RecordType, int>, hashed: bytes, line: Line)
    requires AccountsFor(lines, false, sequence, counts, hashed) && line.sequence == sequence && line.record.Footer?
    ensures AccountsFor(lines + [line], true, sequence + 1, counts, hashed)
    ensures RawOf(lines + [line]) == RawOf(lines) + line.raw
  {
    hide RawOf, Grammar.CountsAgree;
    RawOfSnoc(lines, line);
    Acceptance.SequencedSnoc(lines, line);
    assert (lines + [line])[..|lines|] == lines;
  }

  lemma LineTextIs(kind: RecordType, sequence: nat, fields: JsonFields, text: bytes)
    requires text == ObjectText(fields[SEQUENCE := Decimal(sequence)][TYPE := JsonString(TypeName(kind))])
    ensures text + [LF] == LineText(kind, sequence, fields)
  {
  }

  class NdjsonWriter {
    const output: OutputStream
    const hash: Sha256Stream.Sha256
    var sequence: nat
    var counts: map<RecordType, int>
    var finished: bool
    /** The lines written completely, with the records they stand for. */
    ghost var lines: seq<Line>

    ghost const Repr: set<object>

    /** The hash does not share objects with the stream. */
    ghost predicate Separate()
    {
      && Repr == {this, output, output.buf, output.buf.buffer, output.buf.callback, hash, hash.state, hash.buffer}
      && hash.Repr == {hash, hash.state, hash.buffer}
      && output.Repr() !! hash.Repr && this !in output.Repr() + hash.Repr
    }

    ghost predicate Valid()
      reads this, hash, hash.state, hash.buffer, output, output.buf, output.buf.buffer, output.buf.callback
    {
      && Separate() && output.Valid() && hash.Valid()
      && AccountsFor(lines, finished, sequence, counts, hash.message)
      && (output.buf.failure == NoFailure ==> output.buf.written == RawOf(lines))
    }

    constructor (output: OutputStream)
      requires output.Valid() && !output.bad && output.buf.written == []
      ensures Valid() && lines == [] && !finished && this.output == output && fresh(Repr - output.Repr())
    {
      NothingYet();
      var h := new Sha256Stream.Sha256();
      this.output, hash := output, h;
      sequence, counts, finished, lines := 0, map[], false, [];
      Repr := {this, output, output.buf, output.buf.buffer, output.buf.callback, h, h.state, h.buffer};
    }

    /** Writes one record; everything but the stream stays as it was when that throws. */
    method Emit(kind: RecordType, fields: JsonFields, ghost record: Record) returns (thrown: bool)
      requires Valid() && TypeOf(record) == kind
      modifies Repr
      ensures Valid() && finished == old(finished)
      ensures thrown <==> old(finished) || SEQUENCE in fields || TYPE in fields || output.bad
      ensures lines == if thrown then old(lines)
                       else old(lines) + [Line(LineText(kind, old(sequence), fields), old(sequence), record)]
      ensures old(output.bad) ==> output.bad && output.buf.callback.spans == old(output.buf.callback.spans)
                                  && output.buf.failure == old(output.buf.failure)
      ensures old(finished) ==> output.bad == old(output.bad) && output.buf.written == old(output.buf.written)
    {
      hide RawOf, LineText, output.Valid, hash.Valid, AccountsFor, ObjectText;
      if finished {
        return true;
      }
      if SEQUENCE in fields || TYPE in fields {
        return true;
      }
      var text := ObjectJson(fields[SEQUENCE := Decimal(sequence)][TYPE := JsonString(TypeName(kind))]);
      LineTextIs(kind, sequence, fields, text);
      thrown := Append(kind, text + [LF], record);
    }

    /** The second half of an emit: write, hash, count. */
    method Append(kind: RecordType, line: bytes, ghost record: Record) returns (thrown: bool)
      requires Valid() && TypeOf(record) == kind && !finished
      modifies Repr
      ensures Valid() && !finished && thrown == output.bad
      ensures lines == if thrown then old(lines) else old(lines) + [Line(line, old(sequence), record)]
      ensures old(output.bad) ==> output.bad && output.buf.callback.spans == old(output.buf.callback.spans)
                                  && output.buf.failure == old(output.buf.failure)
    {
      hide RawOf, output.Valid, hash.Valid, AccountsFor, TypeOf;
      thrown := output.Write(line);
      if thrown {
        return;
      }
      ghost var written := Line(line, sequence, record);
      Recorded(lines, sequence, counts, hash.message, written);
      hash.Update(line);
      counts := Validation.Increment(counts, kind);
      lines := lines + [written];
      sequence := sequence + 1;
    }

    /** Writes the footer: digest and tallies of all the lines before it. */
    method Finish(success: bool, fields: JsonFields, ghost artifactBytes: int, ghost artifacts: int,
                  ghost diagnostics: DiagnosticCounts, ghost entries: int)
      returns (thrown: bool, ghost footer: Record)
      requires Valid()
      modifies Repr
      ensures Valid()
      ensures thrown <==> old(finished) || output.bad
      ensures footer.Footer? && footer == Footer(artifactBytes, artifacts, counts, diagnostics, entries,
                                                 footer.streamSha256, success)
      ensures |RawOf(old(lines))| < 0x2000_0000_0000_0000 && !old(finished) ==>
                footer.streamSha256 == Sha256Hex(RawOf(old(lines)))
      ensures counts == old(counts)
      ensures thrown ==> lines == old(lines) && finished == old(finished)
      ensures !thrown ==>
                && finished
                && lines == old(lines) + [Line(FooterText(counts, old(sequence), footer.streamSha256, success, fields),
                                               old(sequence), footer)]
      ensures !thrown ==> Accepted(output.buf.callback.spans, output.buf.failure) == RawOf(lines)
      ensures old(output.bad) ==> output.bad && output.buf.callback.spans == old(output.buf.callback.spans)
                                  && output.buf.failure == old(output.buf.failure)
    {
      hide RawOf, output.Valid, hash.Valid, AccountsFor, Accepted, CountsText, Emplace, JsonString, Decimal, Sha256Hex,
        ObjectText;
      footer := Footer(artifactBytes, artifacts, counts, diagnostics, entries, [], success);
      if finished {
        return true, footer;
      }
      BodyBefore(lines, sequence, counts, hash.message);
      var digest := hash.HexDigest();
      footer := footer.(streamSha256 := digest);
      var tallies := CountsJson(counts);
      var all := Emplace(fields, COUNTS, tallies);
      all := Emplace(all, SEQUENCE, Decimal(sequence));
      all := Emplace(all, STREAM_SHA256, JsonString(digest));
      all := Emplace(all, SUCCESS, if success then Text("true") else Text("false"));
      all := Emplace(all, TYPE, JsonString(TypeName(FooterType)));
      var text := ObjectJson(all);
      thrown := WriteFooter(text + [LF], footer);
    }

    /** The second half of a finish: write and flush. */
    method WriteFooter(line: bytes, ghost footer: Record) returns (thrown: bool)
      requires Valid() && !finished && footer.Footer?
      modifies Repr
      ensures Valid() && thrown == output.bad && counts == old(counts)
      ensures thrown ==> lines == old(lines) && !finished
      ensures !thrown ==> finished && lines == old(lines) + [Line(line, old(sequence), footer)]
      ensures !thrown ==> Accepted(output.buf.callback.spans, output.buf.failure) == RawOf(lines)
      ensures old(output.bad) ==> output.bad && output.buf.callback.spans == old(output.buf.callback.spans)
                                  && output.buf.failure == old(output.buf.failure)
    {
      hide RawOf, output.Valid, hash.Valid, AccountsFor, Accepted;
      thrown := output.Write(line);
      if thrown {
        return;
      }
      thrown := output.Flush();
      if thrown {
        return;
      }
      ghost var written := Line(line, sequence, footer);
      Ended(lines, sequence, counts, hash.message, written);
      lines := lines + [written];
      sequence := sequence + 1;
      finished := true;
    }
  }

  lemma BodyBefore(lines: seq<Line>, sequence: nat, counts: map<RecordType, int>, hashed: bytes)
    requires AccountsFor(lines, false, sequence, counts, hashed)
    ensures hashed == RawOf(lines)
  {
  }
}
