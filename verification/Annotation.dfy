/** Lossless segmentation of source markup into text, markup and entities. */
module Annotation {
  import opened Bytes
  import Quotes

  datatype Kind = Text | Markup | Entity

  datatype Segment = Segment(kind: Kind, raw: bytes)

  const LESS: byte := 0x3c
  const GREATER: byte := 0x3e
  const AMPERSAND: byte := 0x26
  const SEMICOLON: byte := 0x3b
  const APOSTROPHE: byte := 0x27
  const QUOTATION: byte := 0x22
  const NO_QUOTE: byte := 0

  // Every function below looks at a suffix `s` of the input that starts where a segment starts.

  /** The quotation mark that is open before `s[i]`, or none. */
  function QuoteBefore(s: bytes, i: nat): (q: byte)
    requires 1 <= i <= |s|
    ensures q == NO_QUOTE || q == APOSTROPHE || q == QUOTATION
  {
    if i == 1 then NO_QUOTE
    else
      var q, c := QuoteBefore(s, i - 1), s[i - 1];
      if q != NO_QUOTE then (if c == q then NO_QUOTE else q)
      else if c == APOSTROPHE || c == QUOTATION then c
      else NO_QUOTE
  }

  /** `s[i]` is a `>` outside quotes. */
  predicate Closes(s: bytes, i: nat)
    requires 1 <= i < |s|
  {
    s[i] == GREATER && QuoteBefore(s, i) == NO_QUOTE
  }

  /** The size of the markup at the start of `s`, looking from index `i` on. */
  function MarkupSize(s: bytes, i: nat): (n: nat)
    requires s != [] && i >= 1
    ensures 1 <= n <= |s|
    decreases |s| - i
  {
    if i >= |s| then 1 else if Closes(s, i) then i + 1 else MarkupSize(s, i + 1)
  }

  predicate EndsEntity(c: byte)
  {
    c == LESS || c == AMPERSAND || c == 0x20 || c == 0x09 || c == 0x0d || c == 0x0a
  }

  /** The size of the entity at the start of `s`, or 1 when there is none. */
  function EntitySize(s: bytes, i: nat): (n: nat)
    requires s != [] && i >= 1
    ensures 1 <= n <= |s|
    decreases |s| - i
  {
    if i >= |s| then 1
    else if s[i] == SEMICOLON then i + 1
    else if EndsEntity(s[i]) then 1
    else EntitySize(s, i + 1)
  }

  predicate StartsSegment(c: byte) { c == LESS || c == AMPERSAND }

  function TextSize(s: bytes, i: nat): (n: nat)
    requires 1 <= i <= |s|
    ensures i <= n <= |s|
    decreases |s| - i
  {
    if i == |s| || StartsSegment(s[i]) then i else TextSize(s, i + 1)
  }

  function First(s: bytes): (r: Segment)
    requires s != []
    ensures 1 <= |r.raw| <= |s| && r.raw == s[..|r.raw|]
  {
    if s[0] == LESS then Segment(Markup, s[..MarkupSize(s, 1)])
    else if s[0] == AMPERSAND && EntitySize(s, 1) > 1 then Segment(Entity, s[..EntitySize(s, 1)])
    else Segment(Text, s[..TextSize(s, 1)])
  }

  function Segments(s: bytes): (r: seq<Segment>)
  {
    if s == [] then [] else [First(s)] + Segments(s[|First(s).raw|..])
  }

  function RawParts(segments: seq<Segment>): (r: seq<bytes>)
    ensures |r| == |segments|
    ensures forall i :: 0 <= i < |r| ==> r[i] == segments[i].raw
  {
    seq(|segments|, i requires 0 <= i < |segments| => segments[i].raw)
  }

  lemma RawPartsCons(first: Segment, rest: seq<Segment>)
    ensures RawParts([first] + rest) == [first.raw] + RawParts(rest)
  {
  }

  /** Nothing is lost: the segments put end to end are the input. */
  lemma {:induction false} SegmentsReconstruct(s: bytes)
    ensures Concat(RawParts(Segments(s))) == s
  {
    if s != [] {
      hide First, Concat;
      var n := |First(s).raw|;
      var rest := s[n..];
      SegmentsReconstruct(rest);
      RawPartsCons(First(s), Segments(rest));
      hide Segments;
      ConcatCons(s[..n], RawParts(Segments(rest)));
      assert s == s[..n] + rest;
    }
  }

  /** By the characters alone: a `>` at `i`, and no quote open there. */
  ghost predicate EndsMarkup(s: bytes, i: int)
  {
    1 <= i < |s| && s[i] == 0x3e && Quotes.Balanced(s[1..i])
  }

  /** By the characters alone: a `;` at `i`, and nothing before it that an entity cannot hold. */
  predicate EndsReference(s: bytes, i: int)
  {
    && 1 <= i < |s| && s[i] == 0x3b
    && forall k :: 1 <= k < i ==> s[k] !in {0x3b, 0x3c, 0x26, 0x20, 0x09, 0x0d, 0x0a}
  }

  /** What the first `n` characters of `s` must be to be a segment of that kind. */
  ghost predicate Leading(s: bytes, kind: Kind, n: int)
  {
    1 <= n <= |s|
    && match kind
       case Markup =>
         && s[0] == 0x3c
         && if n > 1 then EndsMarkup(s, n - 1) && forall i :: 1 <= i < n - 1 ==> !EndsMarkup(s, i)
            else forall i :: !EndsMarkup(s, i)
       case Entity => s[0] == 0x26 && EndsReference(s, n - 1)
       case Text =>
         && s[0] != 0x3c && (s[0] == 0x26 ==> forall i :: !EndsReference(s, i))
         && (forall i :: 1 <= i < n ==> s[i] != 0x3c && s[i] != 0x26)
         && (n < |s| ==> s[n] == 0x3c || s[n] == 0x26)
  }

  /** What a segment looks like, by kind. */
  ghost predicate Shaped(g: Segment)
  {
    && g.raw != []
    && match g.kind
       case Text => g.raw[0] != 0x3c && forall i :: 1 <= i < |g.raw| ==> g.raw[i] != 0x3c && g.raw[i] != 0x26
       case Markup =>
         && g.raw[0] == 0x3c
         && (|g.raw| == 1 || EndsMarkup(g.raw, |g.raw| - 1))
         && forall i :: 1 <= i < |g.raw| - 1 ==> !EndsMarkup(g.raw, i)
       case Entity => g.raw[0] == 0x26 && EndsReference(g.raw, |g.raw| - 1)
  }

  /** The mark that is open before an index is the one the marks before it leave open. */
  lemma {:induction false} QuoteIs(s: bytes, i: nat)
    requires 1 <= i <= |s|
    ensures Quotes.Ends(s[1..i], QuoteBefore(s, i))
  {
    if i > 1 {
      QuoteIs(s, i - 1);
      var t, q, c := s[1..i - 1], QuoteBefore(s, i - 1), s[i - 1];
      assert s[1..i] == t + [c];
      QuoteStep(t, q, c);
    }
  }

  lemma QuoteStep(t: bytes, q: byte, c: byte)
    requires Quotes.Ends(t, q) && (q == NO_QUOTE || q == APOSTROPHE || q == QUOTATION)
    ensures q != NO_QUOTE ==> Quotes.Ends(t + [c], if c == q then NO_QUOTE else q)
    ensures q == NO_QUOTE ==> Quotes.Ends(t + [c], if c == APOSTROPHE || c == QUOTATION then c else NO_QUOTE)
  {
    hide Quotes.Balanced, Quotes.Open;
    if q != NO_QUOTE {
      if c == q {
        Quotes.ClosesNow(t, q);
      } else {
        Quotes.StaysOpen(t, q, c);
      }
    } else if c == APOSTROPHE || c == QUOTATION {
      Quotes.OpensNow(t, c);
    } else {
      Quotes.PlainMore(t, c);
    }
  }

  /** And it is the only one they do. */
  lemma QuoteIff(s: bytes, i: nat, q: byte)
    requires 1 <= i <= |s|
    ensures QuoteBefore(s, i) == q <==> Quotes.Ends(s[1..i], q)
  {
    hide Quotes.Ends, QuoteBefore;
    QuoteIs(s, i);
    if Quotes.Ends(s[1..i], q) {
      Quotes.OneEnd(s[1..i], q, QuoteBefore(s, i));
    }
  }

  lemma ClosesIff(s: bytes, i: nat)
    requires 1 <= i < |s|
    ensures Closes(s, i) <==> EndsMarkup(s, i)
  {
    hide QuoteBefore;
    QuoteIff(s, i, NO_QUOTE);
  }

  /** The quote state depends only on what comes before. */
  lemma {:induction false} QuoteOfPrefix(s: bytes, n: nat, i: nat)
    requires 1 <= i <= n <= |s|
    ensures QuoteBefore(s[..n], i) == QuoteBefore(s, i)
  {
    if i > 1 {
      QuoteOfPrefix(s, n, i - 1);
    }
  }

  lemma ClosesOfPrefix(s: bytes, n: nat, i: nat)
    requires 1 <= i < n <= |s|
    ensures Closes(s[..n], i) == Closes(s, i)
  {
    QuoteOfPrefix(s, n, i);
  }

  lemma {:induction false} MarkupSizeIs(s: bytes, i: nat)
    requires s != [] && i >= 1
    ensures MarkupSize(s, i) == 1 ==> forall j :: i <= j < |s| ==> !Closes(s, j)
    ensures MarkupSize(s, i) > 1 ==> i < MarkupSize(s, i) && Closes(s, MarkupSize(s, i) - 1)
                                     && forall j :: i <= j < MarkupSize(s, i) - 1 ==> !Closes(s, j)
    decreases |s| - i
  {
    hide Closes;
    if i < |s| && !Closes(s, i) {
      MarkupSizeIs(s, i + 1);
    }
  }

  /** A size is determined by where the first closing `>` is. */
  lemma {:induction false} MarkupSizeUnique(s: bytes, i: nat, n: nat)
    requires 1 <= i < n <= |s| && Closes(s, n - 1) && forall j :: i <= j < n - 1 ==> !Closes(s, j)
    ensures MarkupSize(s, i) == n
    decreases |s| - i
  {
    hide Closes;
    if i < n - 1 {
      MarkupSizeUnique(s, i + 1, n);
    }
  }

  lemma {:induction false} EntitySizeIs(s: bytes, i: nat)
    requires s != [] && i >= 1
    ensures EntitySize(s, i) > 1 ==>
              i < EntitySize(s, i) && s[EntitySize(s, i) - 1] == SEMICOLON
              && forall j :: i <= j < EntitySize(s, i) - 1 ==> s[j] != SEMICOLON && !EndsEntity(s[j])
    decreases |s| - i
  {
    hide EndsEntity;
    if i < |s| && s[i] != SEMICOLON && !EndsEntity(s[i]) {
      EntitySizeIs(s, i + 1);
    }
  }

  /** An entity is found again in any longer or shorter input that still contains it. */
  lemma {:induction false} EntitySizeOfPrefix(s: bytes, i: nat, n: nat)
    requires 1 <= i && 1 < n <= |s| && EntitySize(s, i) == n
    ensures EntitySize(s[..n], i) == n
    decreases |s| - i
  {
    EntitySizeIs(s, i);
    if s[i] != SEMICOLON {
      EntitySizeOfPrefix(s, i + 1, n);
    }
  }

  /** No entity appears when the input is cut where a text segment ends. */
  lemma {:induction false} NoEntityInPrefix(s: bytes, i: nat, n: nat)
    requires 1 <= i && 1 <= n <= |s| && EntitySize(s, i) == 1
    ensures EntitySize(s[..n], i) == 1
    decreases |s| - i
  {
    if i < n && s[i] != SEMICOLON && !EndsEntity(s[i]) {
      NoEntityInPrefix(s, i + 1, n);
    }
  }

  lemma {:induction false} TextSizeIs(s: bytes, i: nat)
    requires 1 <= i <= |s|
    ensures forall j :: i <= j < TextSize(s, i) ==> !StartsSegment(s[j])
    ensures TextSize(s, i) == |s| || StartsSegment(s[TextSize(s, i)])
    decreases |s| - i
  {
    if i < |s| && !StartsSegment(s[i]) {
      TextSizeIs(s, i + 1);
    }
  }

  lemma {:induction false} TextSizeWhole(s: bytes, i: nat)
    requires 1 <= i <= |s| && forall j :: i <= j < |s| ==> !StartsSegment(s[j])
    ensures TextSize(s, i) == |s|
    decreases |s| - i
  {
    if i < |s| {
      TextSizeWhole(s, i + 1);
    }
  }

  lemma MarkupLeads(s: bytes)
    requires s != [] && s[0] == LESS
    ensures Leading(s, Markup, MarkupSize(s, 1))
  {
    hide Closes, EndsMarkup;
    MarkupSizeIs(s, 1);
    forall i | 1 <= i < |s|
      ensures Closes(s, i) <==> EndsMarkup(s, i)
    {
      ClosesIff(s, i);
    }
    NoMarkupOutside(s);
  }

  lemma NoMarkupOutside(s: bytes)
    ensures forall i :: EndsMarkup(s, i) ==> 1 <= i < |s|
  {
  }

  lemma {:induction false} NoReference(s: bytes, i: nat, k: nat)
    requires 1 <= i <= k < |s| && EndsReference(s, k)
    ensures EntitySize(s, i) == k + 1
    decreases k - i
  {
    if i < k {
      assert s[i] !in {0x3b, 0x3c, 0x26, 0x20, 0x09, 0x0d, 0x0a};
      NoReference(s, i + 1, k);
    }
  }

  lemma EntityLeads(s: bytes)
    requires s != [] && s[0] == AMPERSAND
    ensures EntitySize(s, 1) > 1 ==> Leading(s, Entity, EntitySize(s, 1))
    ensures EntitySize(s, 1) == 1 ==> forall i :: !EndsReference(s, i)
  {
    EntitySizeIs(s, 1);
    forall i | EndsReference(s, i)
      ensures EntitySize(s, 1) == i + 1 > 1
    {
      NoReference(s, 1, i);
    }
  }

  /** The first segment is what the characters in front make it. */
  lemma FirstLeads(s: bytes)
    requires s != []
    ensures Leading(s, First(s).kind, |First(s).raw|)
  {
    hide EndsMarkup, EndsReference, MarkupSize, EntitySize, TextSize;
    if s[0] == LESS {
      MarkupLeads(s);
    } else {
      if s[0] == AMPERSAND {
        EntityLeads(s);
      }
      TextSizeIs(s, 1);
    }
  }

  /** And they leave no choice. */
  lemma LeadingOnce(s: bytes, kind: Kind, n: int, other: Kind, m: int)
    requires Leading(s, kind, n) && Leading(s, other, m)
    ensures kind == other && n == m
  {
    hide EndsMarkup;
    assert kind == other;
  }

  /** So a segmentation is right exactly if it is the one that is computed. */
  lemma FirstIff(s: bytes, kind: Kind, n: nat)
    requires s != [] && n <= |s|
    ensures Leading(s, kind, n) <==> First(s) == Segment(kind, s[..n])
  {
    hide Leading, First;
    FirstLeads(s);
    if Leading(s, kind, n) {
      LeadingOnce(s, kind, n, First(s).kind, |First(s).raw|);
    }
  }

  /** The input cut up where its own characters say. */
  ghost predicate Segmented(s: bytes, segments: seq<Segment>)
    decreases |segments|
  {
    if segments == [] then s == []
    else
      var n := |segments[0].raw|;
      && n <= |s| && segments[0].raw == s[..n] && Leading(s, segments[0].kind, n)
      && Segmented(s[n..], segments[1..])
  }

  /** There is one way to do it, and it is the one that is computed. */
  lemma {:induction false} SegmentsIff(s: bytes, segments: seq<Segment>)
    ensures Segments(s) == segments <==> Segmented(s, segments)
    decreases |s|
  {
    hide First, Leading;
    if s != [] && segments != [] {
      var g, n := segments[0], |segments[0].raw|;
      if n <= |s| && g.raw == s[..n] {
        FirstIff(s, g.kind, n);
        if First(s) == g {
          SegmentsIff(s[n..], segments[1..]);
        }
      }
      assert segments == [g] + segments[1..];
    } else if segments != [] {
      NothingLeads(s, segments[0].kind, |segments[0].raw|);
    }
  }

  lemma NothingLeads(s: bytes, kind: Kind, n: int)
    requires s == []
    ensures !Leading(s, kind, n)
  {
  }

  lemma MarkupOfPrefix(s: bytes, n: nat, i: int)
    requires i < n <= |s|
    ensures EndsMarkup(s[..n], i) <==> EndsMarkup(s, i)
  {
    hide Quotes.Balanced;
    assert 1 <= i ==> s[..n][1..i] == s[1..i];
  }

  lemma FirstIsShaped(s: bytes)
    requires s != []
    ensures Shaped(First(s))
  {
    FirstLeads(s);
    hide First, EndsMarkup;
    var g := First(s);
    var n := |g.raw|;
    if g.kind == Markup {
      forall i | i < n
        ensures EndsMarkup(g.raw, i) <==> EndsMarkup(s, i)
      {
        MarkupOfPrefix(s, n, i);
      }
    }
  }

  /** A segment on its own is segmented into itself, with the same kind. */
  lemma FirstOfItself(s: bytes)
    requires s != []
    ensures First(First(s).raw) == First(s)
  {
    var g := First(s);
    if s[0] == LESS {
      hide Closes;
      MarkupSizeIs(s, 1);
      var n := |g.raw|;
      if n > 1 {
        forall i | 1 <= i < n
          ensures Closes(g.raw, i) == Closes(s, i)
        {
          ClosesOfPrefix(s, n, i);
        }
        MarkupSizeUnique(g.raw, 1, n);
      }
      assert g.raw[..n] == g.raw;
    } else if g.kind == Entity {
      EntitySizeOfPrefix(s, 1, |g.raw|);
      assert g.raw[..|g.raw|] == g.raw;
    } else {
      TextSizeIs(s, 1);
      TextSizeWhole(g.raw, 1);
      if s[0] == AMPERSAND {
        NoEntityInPrefix(s, 1, |g.raw|);
      }
      assert g.raw[..|g.raw|] == g.raw;
    }
  }

  /** Every segment is nonempty, has the shape of its kind, and is stable under segmentation. */
  lemma {:induction false} SegmentsAreStable(s: bytes, k: nat)
    requires k < |Segments(s)|
    ensures Shaped(Segments(s)[k])
    ensures Segments(Segments(s)[k].raw) == [Segments(s)[k]]
    decreases |s|
  {
    hide Shaped;
    FirstIsShaped(s);
    FirstOfItself(s);
    hide First;
    var g := First(s);
    if k > 0 {
      SegmentsAreStable(s[|g.raw|..], k - 1);
    } else {
      assert g.raw[|g.raw|..] == [];
    }
  }

  /** The scan for the end of markup that starts at `begin`. */
  method MarkupEnd(raw: bytes, begin: nat) returns (end: nat)
    requires begin < |raw|
    ensures end == begin + MarkupSize(raw[begin..], 1)
  {
    ghost var s := raw[begin..];
    var quote := NO_QUOTE;
    for index := begin + 1 to |raw|
      invariant quote == QuoteBefore(s, index - begin)
      invariant MarkupSize(s, index - begin) == MarkupSize(s, 1)
    {
      var value := raw[index];
      assert value == s[index - begin];
      if quote != NO_QUOTE {
        if value == quote {
          quote := NO_QUOTE;
        }
      } else if value == APOSTROPHE || value == QUOTATION {
        quote := value;
      } else if value == GREATER {
        return index + 1;
      }
    }
    return begin + 1;
  }

  /** The scan for the end of an entity that starts at `begin`. */
  method EntityEnd(raw: bytes, begin: nat) returns (end: nat)
    requires begin < |raw|
    ensures end == begin + EntitySize(raw[begin..], 1)
  {
    ghost var s := raw[begin..];
    for index := begin + 1 to |raw|
      invariant EntitySize(s, index - begin) == EntitySize(s, 1)
    {
      var value := raw[index];
      assert value == s[index - begin];
      if value == SEMICOLON {
        return index + 1;
      }
      if EndsEntity(value) {
        break;
      }
    }
    return begin + 1;
  }

  /** The scan for the end of text that starts at `begin`. */
  method TextEnd(raw: bytes, begin: nat) returns (end: nat)
    requires begin < |raw|
    ensures end == begin + TextSize(raw[begin..], 1)
  {
    ghost var s := raw[begin..];
    end := begin + 1;
    while end < |raw| && raw[end] != LESS && raw[end] != AMPERSAND
      invariant begin < end <= |raw|
      invariant TextSize(s, end - begin) == TextSize(s, 1)
    {
      assert raw[end] == s[end - begin];
      end := end + 1;
    }
    assert end < |raw| ==> raw[end] == s[end - begin];
  }

  /** The body of the segmentation loop: the segment that starts at `begin`. */
  method NextSegment(raw: bytes, begin: nat) returns (kind: Kind, end: nat)
    requires begin < |raw|
    ensures begin < end <= |raw|
    ensures First(raw[begin..]) == Segment(kind, raw[begin..end])
  {
    hide MarkupSize, EntitySize, TextSize;
    ghost var s := raw[begin..];
    kind := Text;
    if raw[begin] == LESS {
      kind := Markup;
      end := MarkupEnd(raw, begin);
    } else {
      if raw[begin] == AMPERSAND {
        end := EntityEnd(raw, begin);
        if end > begin + 1 {
          kind := Entity;
        }
      }
      if kind == Text {
        end := TextEnd(raw, begin);
      }
    }
    assert raw[begin..end] == s[..end - begin];
  }

  lemma SegmentsStep(done: seq<Segment>, raw: bytes, begin: nat, end: nat, kind: Kind)
    requires begin < end <= |raw| && First(raw[begin..]) == Segment(kind, raw[begin..end])
    ensures done + [Segment(kind, raw[begin..end])] + Segments(raw[end..]) == done + Segments(raw[begin..])
  {
    hide First;
    var s := raw[begin..];
    assert s[end - begin..] == raw[end..];
    assert Segments(s) == [First(s)] + Segments(raw[end..]);
  }

  method SegmentAnnotations(raw: bytes) returns (segments: seq<Segment>)
    ensures segments == Segments(raw)
    ensures Concat(RawParts(segments)) == raw
  {
    hide First, Segments, Concat, RawParts;
    SegmentsReconstruct(raw);
    segments := [];
    var index := 0;
    assert raw[0..] == raw;
    while index < |raw|
      invariant index <= |raw|
      invariant segments + Segments(raw[index..]) == Segments(raw)
    {
      var kind, end := NextSegment(raw, index);
      SegmentsStep(segments, raw, index, end, kind);
      segments := segments + [Segment(kind, raw[index..end])];
      index := end;
    }
    SegmentsOfNothing(raw[index..]);
  }

  lemma SegmentsOfNothing(s: bytes)
    requires s == []
    ensures Segments(s) == []
  {
  }
}
