/** The front end of the validator: a byte stream becomes lines, and each line a JSON object. */
module Reading {
  import opened Bytes
  import opened JsonText
  import opened JsonParse
  import opened JsonLines

  /** The octets before the first LF, or all of them. */
  function BeforeLF(s: bytes): (r: bytes)
    ensures |r| <= |s| && r == s[..|r|] && LF !in r
    ensures |r| < |s| ==> s[|r|] == LF
  {
    if s == [] || s[0] == LF then [] else [s[0]] + BeforeLF(s[1..])
  }

  /** What `readline(limit)` returns: a line with its LF, cut off after `limit` octets. */
  function ReadLine(s: bytes, limit: nat): (r: bytes)
    ensures |r| <= |s| && r == s[..|r|]
  {
    var whole := |BeforeLF(s)| + if |BeforeLF(s)| < |s| then 1 else 0;
    s[..if whole <= limit then whole else limit]
  }

  /** Every line is terminated, not blank, and with its terminator not longer than the limit. */
  predicate Framed(lines: Option<seq<bytes>>, maximum: nat)
  {
    lines.Some? && forall line :: line in lines.value ==> line != [] && |line| < maximum
  }

  lemma {:induction false} FirstLine(s: bytes)
    requires s != []
    ensures var text := BeforeLF(s);
            if |text| == |s| then SplitLines(s).None?
            else var rest := SplitLines(s[|text| + 1..]);
                 if rest.None? then SplitLines(s).None? else SplitLines(s) == Some([text] + rest.value)
  {
    if s[0] != LF {
      var text := BeforeLF(s[1..]);
      assert BeforeLF(s) == [s[0]] + text;
      if s[1..] == [] {
        assert SplitLines(s[1..]) == Some([]);
      } else {
        FirstLine(s[1..]);
        if |text| < |s| - 1 {
          assert s[1..][|text| + 1..] == s[|text| + 2..];
        }
      }
    }
  }

  /** One round of the reading loop. */
  lemma Framing(s: bytes, maximum: nat)
    requires s != [] && maximum > 0
    ensures var raw := ReadLine(s, maximum + 1);
            && raw != []
            && (|raw| > maximum || raw[|raw| - 1] != LF || raw == [LF] ==> !Framed(SplitLines(s), maximum))
            && (|raw| <= maximum && raw[|raw| - 1] == LF && raw != [LF] ==>
                  && LF !in raw[..|raw| - 1] && |raw| >= 2
                  && (Framed(SplitLines(s), maximum) <==> Framed(SplitLines(s[|raw|..]), maximum))
                  && (Framed(SplitLines(s), maximum) ==>
                        SplitLines(s).value == [raw[..|raw| - 1]] + SplitLines(s[|raw|..]).value))
  {
    hide SplitLines, BeforeLF, ReadLine, Framed;
    var raw := ReadLine(s, maximum + 1);
    NotEmptyLine(s, maximum + 1);
    if |raw| <= maximum && raw[|raw| - 1] == LF && raw != [LF] {
      GoodLine(s, maximum);
    } else {
      BadLine(s, maximum);
    }
  }

  lemma NotEmptyLine(s: bytes, limit: nat)
    requires s != [] && limit > 0
    ensures ReadLine(s, limit) != []
  {
  }

  lemma GoodLine(s: bytes, maximum: nat)
    requires s != []
    requires var raw := ReadLine(s, maximum + 1);
             raw != [] && |raw| <= maximum && raw[|raw| - 1] == LF && raw != [LF]
    ensures var raw := ReadLine(s, maximum + 1);
            && LF !in raw[..|raw| - 1] && |raw| >= 2
            && (Framed(SplitLines(s), maximum) <==> Framed(SplitLines(s[|raw|..]), maximum))
            && (Framed(SplitLines(s), maximum) ==>
                  SplitLines(s).value == [raw[..|raw| - 1]] + SplitLines(s[|raw|..]).value)
  {
    hide SplitLines, BeforeLF, ReadLine;
    FirstLine(s);
    CutLine(s, maximum);
  }

  lemma BadLine(s: bytes, maximum: nat)
    requires s != []
    requires var raw := ReadLine(s, maximum + 1);
             raw != [] && (|raw| > maximum || raw[|raw| - 1] != LF || raw == [LF])
    ensures !Framed(SplitLines(s), maximum)
  {
    hide SplitLines, BeforeLF;
    FirstLine(s);
    var text := BeforeLF(s);
    if |text| < |s| && SplitLines(s).Some? {
      assert text in SplitLines(s).value;
    }
  }

  /** A line that fits is the text before the first LF and that LF. */
  lemma CutLine(s: bytes, maximum: nat)
    requires s != []
    requires var raw := ReadLine(s, maximum + 1); raw != [] && |raw| <= maximum && raw[|raw| - 1] == LF
    ensures var raw := ReadLine(s, maximum + 1);
            |BeforeLF(s)| == |raw| - 1 < |s| && raw[..|raw| - 1] == BeforeLF(s)
  {
    var raw := ReadLine(s, maximum + 1);
    assert forall i :: 0 <= i < |BeforeLF(s)| ==> s[i] == BeforeLF(s)[i] != LF;
    assert raw[|raw| - 1] == s[|raw| - 1];
  }

  /** The reading loop, up to the parser: it fails at the first line that is too long, not terminated or blank. */
  method ReadLines(stream: bytes, maximum: nat) returns (lines: Option<seq<bytes>>)
    requires maximum >= 1024
    ensures lines.Some? <==> Framed(SplitLines(stream), maximum)
    ensures lines.Some? ==> lines == SplitLines(stream)
  {
    hide SplitLines, ReadLine, BeforeLF;
    var position: nat, read: seq<bytes> := 0, [];
    NoLines();
    while position < |stream|
      invariant position <= |stream|
      invariant Framed(SplitLines(stream), maximum) <==> Framed(SplitLines(stream[position..]), maximum)
      invariant Framed(SplitLines(stream), maximum) ==>
                  SplitLines(stream).value == read + SplitLines(stream[position..]).value
    {
      var rest := stream[position..];
      var raw := ReadLine(rest, maximum + 1);
      Framing(rest, maximum);
      if |raw| > maximum {
        return None;
      }
      if raw[|raw| - 1] != LF {
        return None;
      }
      if raw == [LF] {
        return None;
      }
      assert rest[|raw|..] == stream[position + |raw|..];
      Regroup(read, raw[..|raw| - 1], SplitLines(stream[position + |raw|..]));
      read := read + [raw[..|raw| - 1]];
      position := position + |raw|;
    }
    assert stream[position..] == [];
    assert read + [] == read;
    lines := Some(read);
  }

  lemma NoLines()
    ensures SplitLines([]) == Some([])
  {
  }

  lemma Regroup<T>(read: seq<T>, next: T, rest: Option<seq<T>>)
    ensures rest.Some? ==> read + ([next] + rest.value) == read + [next] + rest.value
  {
  }

  /** The records of a stream as the validator gets to see them: one JSON object per line. */
  predicate ReadsAs(stream: bytes, maximum: nat, records: seq<Json>)
  {
    && Framed(SplitLines(stream), maximum)
    && ReadStream(stream) == Some(records)
    && forall record :: record in records ==> record.Object?
  }

  /** Reading and parsing of a whole stream. */
  method ReadRecords(stream: bytes, maximum: nat) returns (records: Option<seq<Json>>)
    requires maximum >= 1024
    ensures records.Some? <==> exists r :: ReadsAs(stream, maximum, r)
    ensures records.Some? ==> ReadsAs(stream, maximum, records.value)
  {
    hide SplitLines, ParseText, Framed;
    var lines := ReadLines(stream, maximum);
    if lines.None? {
      return None;
    }
    var read: seq<Json> := [];
    assert lines.value[0..] == lines.value;
    StartEmpty(ParseLines(lines.value));
    for i := 0 to |lines.value|
      invariant |read| == i && forall record :: record in read ==> record.Object?
      invariant ParseLines(lines.value) ==
                var rest := ParseLines(lines.value[i..]); if rest.None? then None else Some(read + rest.value)
    {
      var value := ParseText(lines.value[i]);
      ghost var rest := lines.value[i..];
      assert rest[0] == lines.value[i] && rest[1..] == lines.value[i + 1..];
      if value.None? {
        return None;
      }
      if !value.value.Object? {
        NotAllObjects(lines.value, i, read);
        return None;
      }
      Regroup(read, value.value, ParseLines(rest[1..]));
      read := read + [value.value];
    }
    assert lines.value[|lines.value|..] == [];
    assert read + [] == read;
    records := Some(read);
    assert ReadsAs(stream, maximum, read);
  }

  lemma StartEmpty<T>(rest: Option<seq<T>>)
    ensures rest == if rest.None? then None else Some([] + rest.value)
  {
    if rest.Some? {
      assert [] + rest.value == rest.value;
    }
  }

  lemma NotAllObjects(lines: seq<bytes>, i: nat, read: seq<Json>)
    requires i < |lines| && |read| == i
    requires ParseLines(lines) ==
             var rest := ParseLines(lines[i..]); if rest.None? then None else Some(read + rest.value)
    requires ParseText(lines[i]).Some? && !ParseText(lines[i]).value.Object?
    ensures ParseLines(lines).Some? ==> exists record :: record in ParseLines(lines).value && !record.Object?
  {
    hide ParseText;
    if ParseLines(lines).Some? {
      assert ParseLines(lines).value[i] == ParseText(lines[i]).value;
    }
  }
}
