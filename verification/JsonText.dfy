/** JSON text as the producer prints it: escaped strings, decimal numbers and objects in name order. */
module JsonText {
  import opened Bytes

  const QUOTE: byte := 0x22
  const BACKSLASH: byte := 0x5c
  const COMMA: byte := 0x2c
  const COLON: byte := 0x3a
  const OPEN_BRACE: byte := 0x7b
  const CLOSE_BRACE: byte := 0x7d
  const LF: byte := 0x0a

  /** Member names with their already printed values. */
  type JsonFields = map<bytes, bytes>

  /** The octets of an ASCII literal. */
  function Text(s: string): (r: bytes)
    ensures |r| == |s|
  {
    seq(|s|, i requires 0 <= i < |s| => s[i] as int % 128)
  }

  lemma TextAscii(s: string)
    ensures forall i :: 0 <= i < |Text(s)| ==> Text(s)[i] < 0x80
  {
  }

  /** Section 7 of RFC 8259: quotation mark, backslash and the control characters are escaped. */
  function EscapeByte(c: byte): (r: bytes)
    ensures r != []
  {
    if c == QUOTE || c == BACKSLASH then [BACKSLASH, c]
    else if c == 0x08 then [BACKSLASH, 0x62]
    else if c == 0x0c then [BACKSLASH, 0x66]
    else if c == 0x0a then [BACKSLASH, 0x6e]
    else if c == 0x0d then [BACKSLASH, 0x72]
    else if c == 0x09 then [BACKSLASH, 0x74]
    else if c < 0x20 then [BACKSLASH, 0x75, 0x30, 0x30, HexDigit(c / 16), HexDigit(c % 16)]
    else [c]
  }

  function Escape(b: bytes): (r: bytes)
  {
    if b == [] then [] else EscapeByte(b[0]) + Escape(b[1..])
  }

  function JsonString(b: bytes): bytes
  {
    [QUOTE] + Escape(b) + [QUOTE]
  }

  lemma {:induction false} EscapeSnoc(b: bytes, c: byte)
    ensures Escape(b + [c]) == Escape(b) + EscapeByte(c)
  {
    hide EscapeByte;
    if b == [] {
      assert ([] + [c])[1..] == [];
    } else {
      assert (b + [c])[1..] == b[1..] + [c];
      EscapeSnoc(b[1..], c);
    }
  }

  /** The escaping loop. */
  method JsonEscape(utf8: bytes) returns (output: bytes)
    ensures output == Escape(utf8)
  {
    output := [];
    for i := 0 to |utf8|
      invariant output == Escape(utf8[..i])
    {
      EscapeSnoc(utf8[..i], utf8[i]);
      assert utf8[..i + 1] == utf8[..i] + [utf8[i]];
      var octet := utf8[i];
      match octet {
        case 0x22 => output := output + [BACKSLASH, QUOTE];
        case 0x5c => output := output + [BACKSLASH, BACKSLASH];
        case 0x08 => output := output + [BACKSLASH, 0x62];
        case 0x0c => output := output + [BACKSLASH, 0x66];
        case 0x0a => output := output + [BACKSLASH, 0x6e];
        case 0x0d => output := output + [BACKSLASH, 0x72];
        case 0x09 => output := output + [BACKSLASH, 0x74];
        case _ =>
          if octet < 0x20 {
            output := output + [BACKSLASH, 0x75, 0x30, 0x30, HexDigit(octet / 16), HexDigit(octet % 16)];
          } else {
            output := output + [octet];
          }
      }
    }
    assert utf8[..|utf8|] == utf8;
  }

  /** No character is printed as more than six, and none as a raw control character. */
  lemma {:induction false} EscapeFacts(b: bytes)
    ensures |b| <= |Escape(b)| <= 6 * |b|
    ensures forall c :: c in Escape(b) ==> c >= 0x20
  {
    if b != [] {
      EscapeFacts(b[1..]);
    }
  }

  /** A number without sign, fraction or exponent. */
  function Decimal(n: nat): (r: bytes)
    ensures r != [] && forall c :: c in r ==> 0x30 <= c <= 0x39
  {
    if n < 10 then [0x30 + n] else Decimal(n / 10) + [0x30 + n % 10]
  }

  // Objects: the members of a map, in bytewise order of their names.

  predicate IsLeast(m: bytes, names: set<bytes>)
  {
    m in names && forall n :: n in names ==> n == m || Less(m, n)
  }

  lemma {:induction false} LeastExists(names: set<bytes>) returns (m: bytes)
    requires names != {}
    ensures IsLeast(m, names)
    decreases |names|
  {
    hide Less;
    var x :| x in names;
    m := x;
    if names != {x} {
      var others := names - {x};
      assert names == others + {x};
      var other := LeastExists(others);
      LessTotal(x, other);
      if Less(x, other) {
        forall n | n in others && n != other
          ensures Less(x, n)
        {
          LessTransitive(x, other, n);
        }
      } else {
        m := other;
      }
    }
  }

  lemma Antisymmetric(a: bytes, b: bytes)
    requires Less(a, b)
    ensures !Less(b, a)
  {
    if Less(b, a) {
      LessTransitive(a, b, a);
      LessIrreflexive(a);
    }
  }

  lemma LeastUnique(names: set<bytes>)
    ensures forall m, k :: IsLeast(m, names) && IsLeast(k, names) ==> m == k
  {
    forall m, k | IsLeast(m, names) && IsLeast(k, names)
      ensures m == k
    {
      if m != k {
        Antisymmetric(m, k);
      }
    }
  }

  /** The first name in bytewise order. */
  function Least(names: set<bytes>): (m: bytes)
    requires names != {}
    ensures IsLeast(m, names)
  {
    assert exists m :: IsLeast(m, names) by { var m := LeastExists(names); }
    LeastUnique(names);
    var m :| IsLeast(m, names);
    m
  }

  function SortedNames(names: set<bytes>): (r: seq<bytes>)
  {
    if names == {} then [] else [Least(names)] + SortedNames(names - {Least(names)})
  }

  predicate Increasing(names: seq<bytes>)
  {
    forall i, j :: 0 <= i < j < |names| ==> Less(names[i], names[j])
  }

  /** Every name once, in order. */
  lemma {:induction false} SortedNamesFacts(names: set<bytes>)
    ensures Increasing(SortedNames(names))
    ensures forall n :: n in SortedNames(names) <==> n in names
  {
    hide Less;
    if names != {} {
      var m := Least(names);
      var rest := SortedNames(names - {m});
      SortedNamesFacts(names - {m});
      assert SortedNames(names) == [m] + rest;
      assert forall j :: 0 <= j < |rest| ==> rest[j] in names - {m};
    }
  }

  /** Texts separated by commas: the inside of an array or an object. */
  function Commas(texts: seq<bytes>): (r: bytes)
  {
    if texts == [] then []
    else if |texts| == 1 then texts[0]
    else texts[0] + [COMMA] + Commas(texts[1..])
  }

  lemma {:induction false} CommasSnoc(texts: seq<bytes>, last: bytes)
    ensures Commas(texts + [last]) == Commas(texts) + (if texts == [] then [] else [COMMA]) + last
  {
    if texts == [] {
      assert texts + [last] == [last];
    } else {
      assert (texts + [last])[1..] == texts[1..] + [last];
      CommasSnoc(texts[1..], last);
    }
  }

  /** One member: its name as a string, a colon, and its value as it is. */
  function MemberText(name: bytes, value: bytes): bytes
  {
    JsonString(name) + [COLON] + value
  }

  function MemberTexts(names: seq<bytes>, values: seq<bytes>): (r: seq<bytes>)
    requires |names| == |values|
    ensures |r| == |names|
  {
    seq(|names|, i requires 0 <= i < |names| => MemberText(names[i], values[i]))
  }

  /** The values of a map in a given order of its keys. */
  function Select<V>(names: seq<bytes>, m: map<bytes, V>): (r: seq<V>)
    requires forall n :: n in names ==> n in m
    ensures |r| == |names|
  {
    seq(|names|, i requires 0 <= i < |names| => m[names[i]])
  }

  /** The text of an object: what `object_json` prints. */
  function ObjectText(fields: JsonFields): (r: bytes)
  {
    SortedNamesFacts(fields.Keys);
    var names := SortedNames(fields.Keys);
    [OPEN_BRACE] + Commas(MemberTexts(names, Select(names, fields))) + [CLOSE_BRACE]
  }

  /** The printing loop over the map, which iterates in name order. */
  method ObjectJson(fields: JsonFields) returns (output: bytes)
    ensures output == ObjectText(fields)
  {
    hide MemberText, Commas, SortedNames, Increasing, Escape, JsonString;
    SortedNamesFacts(fields.Keys);
    var names := SortedNames(fields.Keys);
    ghost var texts := MemberTexts(names, Select(names, fields));
    output := [OPEN_BRACE];
    NoCommas();
    var first := true;
    for i := 0 to |names|
      invariant first == (i == 0)
      invariant output == [OPEN_BRACE] + Commas(texts[..i])
    {
      CommasTake(texts, i);
      if !first {
        output := output + [COMMA];
      }
      first := false;
      var escaped := JsonEscape(names[i]);
      PrintedMember(names[i], fields[names[i]], escaped);
      output := output + ([QUOTE] + escaped + [QUOTE] + [COLON] + fields[names[i]]);
    }
    assert texts[..|names|] == texts;
    output := output + [CLOSE_BRACE];
  }

  lemma CommasTake(texts: seq<bytes>, i: nat)
    requires i < |texts|
    ensures Commas(texts[..i + 1]) == Commas(texts[..i]) + (if i == 0 then [] else [COMMA]) + texts[i]
  {
    assert texts[..i + 1] == texts[..i] + [texts[i]];
    CommasSnoc(texts[..i], texts[i]);
  }

  lemma NoCommas()
    ensures Commas([]) == []
  {
  }

  lemma PrintedMember(name: bytes, value: bytes, escaped: bytes)
    requires escaped == Escape(name)
    ensures [QUOTE] + escaped + [QUOTE] + [COLON] + value == MemberText(name, value)
  {
  }
}
