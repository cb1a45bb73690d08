/** JSON texts as sections 2 to 7 of RFC 8259 derive them. */
module JsonGrammar {
  import opened Bytes
  import opened JsonParse
  import opened JsonText
  import Utf8

  predicate Blank(w: bytes)
  {
    forall i :: 0 <= i < |w| ==> w[i] == 0x20 || w[i] == 0x09 || w[i] == 0x0a || w[i] == 0x0d
  }

  /** What a backslash and one character stand for. */
  predicate Escapes(c: byte, b: byte)
  {
    || (c == 0x22 && b == 0x22) || (c == 0x5c && b == 0x5c) || (c == 0x2f && b == 0x2f) || (c == 0x62 && b == 0x08)
    || (c == 0x66 && b == 0x0c) || (c == 0x6e && b == 0x0a) || (c == 0x72 && b == 0x0d) || (c == 0x74 && b == 0x09)
  }

  /** A hexadecimal digit in either case. */
  predicate HexDigits(c: byte, v: nat)
  {
    (v < 10 && c == 0x30 + v) || (10 <= v < 16 && (c == 0x61 + (v - 10) || c == 0x41 + (v - 10)))
  }

  ghost predicate FourHex(h: bytes, n: nat)
  {
    |h| == 4
    && exists a: nat, b: nat, c: nat, d: nat ::
         && HexDigits(h[0], a) && HexDigits(h[1], b) && HexDigits(h[2], c) && HexDigits(h[3], d)
         && n == a * 0x1000 + b * 0x100 + c * 0x10 + d
  }

  /** `\u` and four digits. */
  ghost predicate Unicode(u: bytes, n: nat)
  {
    |u| == 6 && u[0] == 0x5c && u[1] == 0x75 && FourHex(u[2..], n)
  }

  /** One character of a string, and its octets. */
  ghost predicate Unit(u: bytes, b: bytes)
  {
    || (|u| == 1 && u[0] >= 0x20 && u[0] != 0x22 && u[0] != 0x5c && b == u)
    || (|u| == 2 && |b| == 1 && u[0] == 0x5c && Escapes(u[1], b[0]))
    || (exists n: nat :: Unicode(u, n) && !(0xd800 <= n <= 0xdfff) && b == Utf8.EncodeScalar(n))
    || (|u| == 12
        && exists high: nat, low: nat ::
             && Unicode(u[..6], high) && Unicode(u[6..], low) && 0xd800 <= high <= 0xdbff && 0xdc00 <= low <= 0xdfff
             && b == Utf8.EncodeScalar(0x10000 + (high - 0xd800) * 0x400 + (low - 0xdc00)))
  }

  ghost predicate Spells(s: bytes, b: bytes)
    decreases |s|
  {
    if s == [] then b == []
    else exists k, n :: 0 < k <= |s| && 0 <= n <= |b| && Unit(s[..k], b[..n]) && Spells(s[k..], b[n..])
  }

  predicate AllDigits(d: bytes)
  {
    d != [] && forall i :: 0 <= i < |d| ==> 0x30 <= d[i] <= 0x39
  }

  /** Digits without a zero in front. */
  predicate Whole(d: bytes)
  {
    AllDigits(d) && (d[0] == 0x30 ==> |d| == 1)
  }

  function Unsigned(t: bytes): bytes
  {
    if t != [] && t[0] == 0x2d then t[1..] else t
  }

  predicate FractionPart(t: bytes)
  {
    t == [] || (t[0] == 0x2e && AllDigits(t[1..]))
  }

  predicate ExponentPart(t: bytes)
  {
    || t == []
    || ((t[0] == 0x65 || t[0] == 0x45)
        && (AllDigits(t[1..]) || (|t| > 1 && (t[1] == 0x2b || t[1] == 0x2d) && AllDigits(t[2..]))))
  }

  /** A number with a fraction or an exponent. */
  ghost predicate Broken(t: bytes)
  {
    var d := Unsigned(t);
    exists i, j ::
      && 0 < i <= j <= |d| && i < |d| && Whole(d[..i]) && FractionPart(d[i..j]) && ExponentPart(d[j..])
  }

  ghost predicate Value(t: bytes, j: Json)
    decreases |t|, 0
  {
    match j
    case Null => t == Text("null")
    case Bool(b) => t == if b then Text("true") else Text("false")
    case Integer(n) =>
      Whole(Unsigned(t))
      && var m: int := NumberOf(Unsigned(t));
         n == if t[0] == 0x2d then -m else m
    case Fraction(text) => t == text && Broken(t)
    case Str(b) => |t| >= 2 && t[0] == 0x22 && t[|t| - 1] == 0x22 && Spells(t[1..|t| - 1], b)
    case Array(items) =>
      |t| >= 2 && t[0] == 0x5b && t[|t| - 1] == 0x5d
      && if items == [] then Blank(t[1..|t| - 1]) else Items(t[1..|t| - 1], items)
    case Object(members) =>
      |t| >= 2 && t[0] == 0x7b && t[|t| - 1] == 0x7d
      && if members == [] then Blank(t[1..|t| - 1]) else Members(t[1..|t| - 1], members)
  }

  /** The number that digits stand for. */
  function NumberOf(d: bytes): nat
  {
    if d == [] then 0
    else
      var last: int := d[|d| - 1];
      NumberOf(d[..|d| - 1]) * 10 + if last >= 0x30 then last - 0x30 else 0
  }

  /** Values with commas between them and white space around them. */
  ghost predicate Items(s: bytes, items: seq<Json>)
    requires items != []
    decreases |s|, 2
  {
    exists a, b, c :: ItemsAt(s, items, a, b, c)
  }

  /** The first stands from a to b, and a comma at c if it is not the last. */
  ghost predicate ItemsAt(s: bytes, items: seq<Json>, a: int, b: int, c: int)
    requires items != []
    decreases |s|, 1
  {
    && 0 <= a <= b <= c <= |s| && Blank(s[..a]) && Value(s[a..b], items[0]) && Blank(s[b..c])
    && if |items| == 1 then c == |s| else c < |s| && s[c] == 0x2c && Items(s[c + 1..], items[1..])
  }

  ghost predicate Members(s: bytes, members: seq<Member>)
    requires members != []
    decreases |s|, 3
  {
    exists a, b, c :: MembersAt(s, members, a, b, c)
  }

  ghost predicate MembersAt(s: bytes, members: seq<Member>, a: int, b: int, c: int)
    requires members != []
    decreases |s|, 2
  {
    && 0 <= a <= b <= c <= |s| && Blank(s[..a]) && Pair(s[a..b], members[0]) && Blank(s[b..c])
    && if |members| == 1 then c == |s| else c < |s| && s[c] == 0x2c && Members(s[c + 1..], members[1..])
  }

  /** A name, a colon and a value. */
  ghost predicate Pair(t: bytes, m: Member)
    decreases |t|, 1
  {
    exists i, k, l :: PairAt(t, m, i, k, l)
  }

  ghost predicate PairAt(t: bytes, m: Member, i: int, k: int, l: int)
    decreases |t|, 0
  {
    && 0 <= i <= k < l <= |t| && Value(t[..i], Str(m.name)) && Blank(t[i..k]) && t[k] == 0x3a && Blank(t[k + 1..l])
    && Value(t[l..], m.value)
  }

  /** A whole text: UTF-8, with white space around one value. */
  ghost predicate Derives(t: bytes, j: Json)
  {
    Utf8.Valid(t)
    && exists a, b :: 0 <= a <= b <= |t| && Blank(t[..a]) && Value(t[a..b], j) && Blank(t[b..])
  }
}
