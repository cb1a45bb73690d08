/** The footer line, read back. */
module FooterTrip {
  import opened Bytes
  import opened Records
  import opened JsonText
  import opened JsonParse
  import opened JsonLines
  import opened ByteValue
  import opened RecordText
  import opened RecordReading
  import opened RecordTrip
  import opened RecordLines
  import opened Writer
  import Readback
  import Session
  import Utf8

  // The diagnostic totals.

  function SeverityParts(d: DiagnosticCounts): seq<Part>
  {
    [NumberPart("error", d.error), NumberPart("info", d.info), NumberPart("warning", d.warning)]
  }

  function SeveritiesPart(d: DiagnosticCounts): Part
  {
    Part("diagnostics", ObjectText(PartFields(SeverityParts(d))), ObjectOf(PartValues(SeverityParts(d))))
  }

  lemma SeverityPartsPrinted(d: DiagnosticCounts)
    ensures WellPrinted(SeverityParts(d))
  {
    hide Good, NumberPart;
    NumberGood("error", d.error);
    NumberGood("info", d.info);
    NumberGood("warning", d.warning);
  }

  lemma SeverityNames(d: DiagnosticCounts)
    ensures PartNames(SeverityParts(d)) == ["error", "info", "warning"] && DistinctParts(SeverityParts(d))
  {
    hide Signed;
  }

  lemma SeveritiesGood(d: DiagnosticCounts)
    ensures Good(SeveritiesPart(d))
  {
    hide Printed, ObjectText, ObjectOf, PartFields, PartValues, SeverityParts, AllPrinted;
    SeverityPartsPrinted(d);
    PartsPrinted(SeverityParts(d));
    ObjectPrinted(PartFields(SeverityParts(d)), PartValues(SeverityParts(d)));
  }

  /** Every name of an object made from parts is the name of a part. */
  lemma {:induction false} OnlyParts(parts: seq<Part>, name: bytes)
    requires name in PartValues(parts)
    ensures exists i :: 0 <= i < |parts| && name == Text(parts[i].name)
  {
    hide Text;
    var n := |parts| - 1;
    if name != Text(parts[n].name) {
      OnlyParts(parts[..n], name);
      var i :| 0 <= i < n && name == Text(parts[..n][i].name);
      assert parts[i].name == parts[..n][i].name;
    }
  }

  lemma NamesInObject(values: map<bytes, Json>)
    ensures forall i :: 0 <= i < |MembersIn(values)| ==> MembersIn(values)[i].name in values
  {
    hide SortedNames, Increasing;
    SortedNamesFacts(values.Keys);
  }

  lemma SeveritiesAre(d: DiagnosticCounts)
    ensures SeveritiesOnly(MembersIn(PartValues(SeverityParts(d))))
  {
    hide MembersIn, PartValues, SeverityParts, Text;
    var parts := SeverityParts(d);
    NamesInObject(PartValues(parts));
    SeverityNames(d);
    forall i | 0 <= i < |MembersIn(PartValues(parts))|
      ensures var name := MembersIn(PartValues(parts))[i].name;
              name == Text("error") || name == Text("info") || name == Text("warning")
    {
      OnlyParts(parts, MembersIn(PartValues(parts))[i].name);
      var k :| 0 <= k < |parts| && MembersIn(PartValues(parts))[i].name == Text(parts[k].name);
      assert PartNames(parts)[k] == parts[k].name;
    }
  }

  lemma SeveritiesRead(d: DiagnosticCounts)
    ensures DiagnosticsFrom(Some(SeveritiesPart(d).value)) == Some(d)
  {
    hide Get, Signed, PartValues, SeveritiesOnly, WellPrinted, DistinctParts;
    SeverityPartsPrinted(d);
    SeverityNames(d);
    assert map[] + PartValues(SeverityParts(d)) == PartValues(SeverityParts(d));
    PartsHeld(SeverityParts(d), map[]);
    SeveritiesAre(d);
    var parts := SeverityParts(d);
    assert parts[0].name == "error" && parts[1].name == "info" && parts[2].name == "warning";
    assert SeveritiesPart(d).value == Object(MembersIn(PartValues(parts)));
  }

  // The tallies.

  /** The tallies of the first `n` types. */
  function UpTo(counts: map<RecordType, int>, n: nat): map<RecordType, int>
    requires n <= 10
  {
    map t | t in counts && Readback.Position(t) < n :: counts[t]
  }

  lemma CountsSnoc(before: seq<Member>, last: Member)
    ensures CountsFrom(before + [last]) ==
            var b, t := CountsFrom(before), TypeFrom(last.name, 10);
            if b.None? || t.None? || t.value == FooterType || !last.value.Integer? then None
            else Some(b.value[t.value := last.value.n])
  {
    hide TypeFrom;
    assert (before + [last])[..|before|] == before;
  }

  lemma UpToStep(counts: map<RecordType, int>, n: nat)
    requires n < 10
    ensures UpTo(counts, n + 1) ==
            if TypeAt(n) in counts then UpTo(counts, n)[TypeAt(n) := counts[TypeAt(n)]] else UpTo(counts, n)
  {
    PositionAt(n);
    hide TypeAt, Readback.Position;
  }

  /** The members of the tallies. */
  function CountMembers(counts: map<RecordType, int>, n: nat): seq<Member>
    requires n <= 10
  {
    MembersOf(Readback.CountNames(counts, n), Readback.CountValues(counts, n))
  }

  lemma CountMembersStep(counts: map<RecordType, int>, n: nat)
    requires n < 10
    ensures CountMembers(counts, n + 1) ==
            CountMembers(counts, n)
            + if TypeAt(n) in counts then [Member(TypeName(TypeAt(n)), Integer(Magnitude(counts[TypeAt(n)])))] else []
  {
    hide TypeName, TypeAt;
  }

  lemma {:induction false} CountsRead(counts: map<RecordType, int>, n: nat)
    requires n <= 10 && CountsSound(counts)
    ensures CountsFrom(CountMembers(counts, n)) == Some(UpTo(counts, n))
  {
    hide TypeName, TypeAt, TypeFrom, CountsFrom, CountMembers, UpTo;
    if n == 0 {
      NoCountsRead(counts);
    } else {
      var t := TypeAt(n - 1);
      CountsRead(counts, n - 1);
      CountMembersStep(counts, n - 1);
      UpToStep(counts, n - 1);
      var before := CountMembers(counts, n - 1);
      if t in counts {
        TypeRead(t, 10);
        CountsSnoc(before, Member(TypeName(t), Integer(Magnitude(counts[t]))));
      } else {
        assert before + [] == before;
      }
    }
  }

  lemma NoCountsRead(counts: map<RecordType, int>)
    ensures CountsFrom(CountMembers(counts, 0)) == Some(UpTo(counts, 0))
  {
    assert UpTo(counts, 0) == map[];
  }

  lemma PositionAt(i: nat)
    requires i < 10
    ensures Readback.Position(TypeAt(i)) == i
    ensures forall t :: Readback.Position(t) == i ==> t == TypeAt(i)
  {
  }

  predicate CountsSound(counts: map<RecordType, int>)
  {
    FooterType !in counts && forall t :: t in counts ==> counts[t] >= 0
  }

  lemma AllCountsRead(counts: map<RecordType, int>)
    requires CountsSound(counts)
    ensures Readback.CountsObject(counts).Object? && CountsFrom(Readback.CountsObject(counts).members) == Some(counts)
  {
    hide CountsFrom, Readback.CountNames, Readback.CountValues, MembersOf;
    CountsRead(counts, 10);
    assert UpTo(counts, 10) == counts;
  }

  // The line.

  function CountsPart(counts: map<RecordType, int>): Part
  {
    Part("counts", CountsText(counts), Readback.CountsObject(counts))
  }

  lemma CountsGood(counts: map<RecordType, int>)
    ensures Good(CountsPart(counts))
  {
    hide Printed, CountsText, Readback.CountsObject;
    Readback.CountsPrinted(counts);
  }

  function FooterParts(f: Record): seq<Part>
    requires f.Footer?
  {
    [NumberPart("artifact_bytes", f.artifactBytes), NumberPart("artifacts", f.artifacts), SeveritiesPart(f.diagnostics),
     NumberPart("entries", f.entries), CountsPart(f.counts), TextPart("stream_sha256", f.streamSha256),
     FlagPart("success", f.success)]
  }

  lemma FooterPrinted(f: Record)
    requires f.Footer? && Utf8.Valid(f.streamSha256)
    ensures WellPrinted(FooterParts(f))
  {
    hide Good, NumberPart, SeveritiesPart, CountsPart, TextPart, FlagPart, Utf8.Valid;
    NumberGood("artifact_bytes", f.artifactBytes);
    NumberGood("artifacts", f.artifacts);
    SeveritiesGood(f.diagnostics);
    NumberGood("entries", f.entries);
    CountsGood(f.counts);
    TextGood("stream_sha256", f.streamSha256);
    FlagGood("success", f.success);
  }

  lemma FooterNames(f: Record)
    requires f.Footer?
    ensures PartNames(FooterParts(f)) ==
            ["artifact_bytes", "artifacts", "diagnostics", "entries", "counts", "stream_sha256", "success"]
    ensures DistinctParts(FooterParts(f)) && Unnumbered(FooterParts(f))
  {
    hide Signed, JsonString, Text, Readback.Word, CountsText, Readback.CountsObject, ObjectText, ObjectOf, PartFields,
      PartValues, SeverityParts;
  }

  /** What the parts of a footer say, one by one. */
  lemma FooterHeld(f: Record, m: seq<Member>)
    requires f.Footer? && Holds(m, FooterParts(f))
    ensures Get(m, "artifact_bytes") == Some(Integer(f.artifactBytes))
            && Get(m, "artifacts") == Some(Integer(f.artifacts))
    ensures Get(m, "diagnostics") == Some(SeveritiesPart(f.diagnostics).value)
    ensures Get(m, "entries") == Some(Integer(f.entries)) && Get(m, "counts") == Some(Readback.CountsObject(f.counts))
    ensures Get(m, "stream_sha256") == Some(Str(f.streamSha256)) && Get(m, "success") == Some(Bool(f.success))
  {
    hide Get, Signed, Text, JsonString, Readback.Word, CountsText, Readback.CountsObject, ObjectText, ObjectOf,
      PartFields, PartValues, SeverityParts;
    var parts := FooterParts(f);
    assert parts[0].name == "artifact_bytes" && parts[1].name == "artifacts" && parts[2].name == "diagnostics";
    assert parts[3].name == "entries" && parts[4].name == "counts" && parts[5].name == "stream_sha256";
    assert parts[6].name == "success";
  }

  lemma FooterRead(f: Record, m: seq<Member>)
    requires f.Footer? && Holds(m, FooterParts(f)) && CountsSound(f.counts)
    ensures FooterFrom(m) == Some(f)
  {
    hide Get, Holds, FooterParts, SeveritiesPart, DiagnosticsFrom, CountsFrom, Readback.CountsObject;
    FooterHeld(f, m);
    SeveritiesRead(f.diagnostics);
    AllCountsRead(f.counts);
  }

  // The printed footer consists of these parts.

  lemma FieldsSnoc(parts: seq<Part>, last: Part)
    ensures PartFields(parts + [last]) == PartFields(parts)[Text(last.name) := last.text]
  {
    assert (parts + [last])[..|parts|] == parts;
  }

  lemma FourFields(a: Part, b: Part, c: Part, d: Part)
    ensures PartFields([a, b, c, d]) ==
            map[Text(a.name) := a.text][Text(b.name) := b.text][Text(c.name) := c.text][Text(d.name) := d.text]
  {
    hide Text;
    FieldsSnoc([], a);
    FieldsSnoc([a], b);
    FieldsSnoc([a, b], c);
    FieldsSnoc([a, b, c], d);
    assert [] + [a] == [a] && [a] + [b] == [a, b] && [a, b] + [c] == [a, b, c] && [a, b, c] + [d] == [a, b, c, d];
  }

  lemma ThreeFields(a: Part, b: Part, c: Part)
    ensures PartFields([a, b, c]) == map[Text(a.name) := a.text][Text(b.name) := b.text][Text(c.name) := c.text]
  {
    hide Text;
    FieldsSnoc([], a);
    FieldsSnoc([a], b);
    FieldsSnoc([a, b], c);
    assert [] + [a] == [a] && [a] + [b] == [a, b] && [a, b] + [c] == [a, b, c];
  }

  lemma SessionFields(f: Record, t: Session.Totals)
    requires f.Footer? && f.artifactBytes >= 0 && f.artifacts >= 0 && f.entries == t.entries
             && f.diagnostics == t.diagnostics
    requires Natural(t.diagnostics)
    ensures Session.FooterFields(f.artifactBytes, f.artifacts, t) ==
            PartFields([NumberPart("artifact_bytes", f.artifactBytes), NumberPart("artifacts", f.artifacts),
                        SeveritiesPart(f.diagnostics), NumberPart("entries", f.entries)])
  {
    hide Text, Decimal, ObjectText, PartFields;
    var d := t.diagnostics;
    ThreeFields(NumberPart("error", d.error), NumberPart("info", d.info), NumberPart("warning", d.warning));
    FourFields(NumberPart("artifact_bytes", f.artifactBytes), NumberPart("artifacts", f.artifacts),
               SeveritiesPart(f.diagnostics), NumberPart("entries", f.entries));
  }

  lemma FooterUnreserved(artifactBytes: nat, artifacts: nat, t: Session.Totals)
    ensures Readback.Unreserved(Session.FooterFields(artifactBytes, artifacts, t))
  {
    hide Decimal, ObjectText;
    assert |COUNTS| == 6 && |SEQUENCE| == 8 && |STREAM_SHA256| == 13 && |SUCCESS| == 7 && |TYPE| == 4;
    assert |Text("artifact_bytes")| == 14 && |Text("artifacts")| == 9 && |Text("diagnostics")| == 11
           && |Text("entries")| == 7;
    assert Text("entries")[0] == 0x65 && SUCCESS[0] == 0x73;
  }

  lemma FooterFieldsAre(f: Record, t: Session.Totals)
    requires f.Footer? && f.artifactBytes >= 0 && f.artifacts >= 0 && f.entries == t.entries
             && f.diagnostics == t.diagnostics
    requires Natural(t.diagnostics)
    ensures Readback.FooterFields(f.counts, f.streamSha256, f.success,
                                  Session.FooterFields(f.artifactBytes, f.artifacts, t))
            == PartFields(FooterParts(f))
  {
    hide Text, PartFields, Session.FooterFields, CountsText, Readback.CountsObject, JsonString, Readback.Word, Signed,
      SeveritiesPart;
    SessionFields(f, t);
    var four := [NumberPart("artifact_bytes", f.artifactBytes), NumberPart("artifacts", f.artifacts),
                 SeveritiesPart(f.diagnostics), NumberPart("entries", f.entries)];
    var c, d, s := CountsPart(f.counts), TextPart("stream_sha256", f.streamSha256), FlagPart("success", f.success);
    FieldsSnoc(four, c);
    FieldsSnoc(four + [c], d);
    FieldsSnoc(four + [c] + [d], s);
    assert FooterParts(f) == four + [c] + [d] + [s];
  }

  /** The footer the session writes is one line, and the validator reads the footer from it. */
  lemma FooterLineRead(f: Record, t: Session.Totals, sequence: nat) returns (text: bytes)
    requires f.Footer? && f.artifactBytes >= 0 && f.artifacts >= 0 && f.entries == t.entries
             && f.diagnostics == t.diagnostics
    requires Natural(t.diagnostics) && CountsSound(f.counts) && Utf8.Valid(f.streamSha256)
    ensures FooterText(f.counts, sequence, f.streamSha256, f.success,
                       Session.FooterFields(f.artifactBytes, f.artifacts, t))
            == text + [LF]
    ensures LF !in text && text != []
    ensures LineFrom(text) == Some(Line(text + [LF], sequence, f))
  {
    hide Good, DistinctParts, Unnumbered, PartFields, PartValues, LineMembers, RecordFrom, Shaped, Holds, LineFrom,
      LineText, FooterText, ParseText, Printed, AllPrinted, FooterParts, Session.FooterFields, Readback.FooterFields,
      Utf8.Valid, Readback.Unreserved;
    var parts := FooterParts(f);
    FooterPrinted(f);
    FooterNames(f);
    PartsPrinted(parts);
    FooterUnreserved(f.artifactBytes, f.artifacts, t);
    Readback.FooterIsLine(f.counts, sequence, f.streamSha256, f.success,
                          Session.FooterFields(f.artifactBytes, f.artifacts, t));
    FooterFieldsAre(f, t);
    text := Readback.LinePrinted(FooterType, sequence, PartFields(parts), PartValues(parts));
    assert map[] + PartValues(parts) == PartValues(parts);
    LineObject(FooterType, sequence, map[], parts);
    PrintedReads(text, Readback.RecordObject(FooterType, sequence, PartValues(parts)));
    Readback.PrintedLine(text, Readback.RecordObject(FooterType, sequence, PartValues(parts)));
    LineHolds(FooterType, sequence, map[], parts);
    FooterRead(f, LineMembers(FooterType, sequence, map[], parts));
    FooterIs(LineMembers(FooterType, sequence, map[], parts));
    FooterShaped(LineMembers(FooterType, sequence, map[], parts));
    MembersRead(FooterType, sequence, map[], parts, text, f);
  }

  lemma FooterShaped(m: seq<Member>)
    ensures Shaped(FooterType, m)
  {
    hide Embedded;
  }

  lemma FooterIs(m: seq<Member>)
    ensures RecordFrom(FooterType, m) == FooterFrom(m)
  {
    hide FooterFrom, HeaderFrom, EntryFrom, BeginFrom, EndFrom, ChunkFrom, DiagnosticFrom, ConfigSourceFrom,
      ConfigEntryFrom;
  }
}
