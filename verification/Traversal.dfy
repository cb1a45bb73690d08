/** The walk over a module's entries, from whatever cursor the foreign library provides. */
module Traversal {
  import opened Bytes
  import opened Codes
  import opened Records
  import opened Session
  import Annotation
  import Utf8

  /** The module's declared encoding; everything but UTF-8 is decoded by a foreign converter, or not at all. */
  datatype Encoding = Utf8Label | Converted(text: Option<bytes>)

  /** What the library answers at one position of the cursor, and when it is told to move on. */
  datatype Visit = Visit(
    key: bytes,
    index: int,
    raw: bytes,
    readError: int,
    encoding: Encoding,
    rendered: bytes,
    stripped: bytes,
    normalizedStripped: bytes,
    scope: Scope,
    next: int)

  /** The positions the cursor would visit if it were advanced forever. */
  type Cursor = nat -> Visit

  const NUL: byte := 0
  const MAXIMUM_LENGTH := 0x7fff_ffff
  const OUT_OF_BOUNDS := 1

  /** `source_utf8`: text labelled UTF-8 is passed through when it is well-formed. */
  function Normalized(v: Visit): Option<bytes>
  {
    match v.encoding
    case Utf8Label => if Utf8.Valid(v.raw) then Some(v.raw) else None
    case Converted(text) => text
  }

  function Warn(code: Code): Record { Diagnostic(Warning, CodeText(code)) }

  function Err(code: Code): Record { Diagnostic(Error, CodeText(code)) }

  /** The text whose markup may be stripped: present, addressable and free of NUL. */
  predicate Strippable(v: Visit)
  {
    Normalized(v).Some? && NUL !in Normalized(v).value && |Normalized(v).value| <= MAXIMUM_LENGTH
  }

  function NormalizedStripped(v: Visit): Option<bytes>
  {
    if Strippable(v) && Utf8.Valid(v.normalizedStripped) then Some(v.normalizedStripped) else None
  }

  /** The diagnostics that come before an entry. */
  function Complaints(v: Visit): seq<Record>
  {
    LengthComplaint(v.raw) + EncodingComplaint(v) + StripComplaint(v)
  }

  function LengthComplaint(b: bytes): seq<Record>
  {
    if |b| > MAXIMUM_LENGTH then [Err(EntryLengthUnsupported)] else []
  }

  function EncodingComplaint(v: Visit): seq<Record>
  {
    if Normalized(v).None? then [Warn(EntryEncodingUnavailable)] else []
  }

  function StripComplaint(v: Visit): seq<Record>
  {
    if Normalized(v).None? then []
    else if NUL in Normalized(v).value then [Warn(EntryEncodingEmbeddedNul)]
    else if !Strippable(v) then [Err(EntryLengthUnsupported)]
    else if !Utf8.Valid(v.normalizedStripped) then [Warn(EntryNormalizedStrippedInvalidUtf8)]
    else []
  }

  function EntryOf(v: Visit, ordinal: nat): Record
  {
    Entry(EntryData(
            ordinal, v.key, v.raw, Annotation.Segments(v.raw), Normalized(v), NormalizedStripped(v),
            if |v.raw| <= MAXIMUM_LENGTH then Some(Projections(v.rendered, v.stripped)) else None,
            v.scope))
  }

  /** Everything one visit emits when it is read without error. */
  function VisitRecords(v: Visit, ordinal: nat): seq<Record>
  {
    Complaints(v) + [EntryOf(v, ordinal)]
  }

  /** Without a declared count, standing still is what a cursor must not do. */
  predicate Stalled(at: Cursor, declared: Option<nat>, k: nat)
  {
    declared.None? && k != 0 && at(k).key == at(k - 1).key && at(k).index == at(k - 1).index
  }

  /** Visit `k` is the last one, for better or worse. */
  predicate Leaves(at: Cursor, declared: Option<nat>, k: nat)
  {
    || Stalled(at, declared, k) || at(k).readError != 0
    || (declared.Some? && k + 1 >= declared.value) || at(k).next != 0
  }

  /** What comes after the entry of the last visit. */
  function Ending(at: Cursor, declared: Option<nat>, k: nat): Option<Code>
  {
    if declared.Some? && k + 1 >= declared.value then None
    else if at(k).next == OUT_OF_BOUNDS then if declared.Some? then Some(ModuleEntryCountMismatch) else None
    else Some(ModuleNavigationFailed)
  }

  function LastVisit(at: Cursor, declared: Option<nat>, k: nat): seq<Record>
  {
    if Stalled(at, declared, k) then [Err(ModuleNavigationStalled)]
    else if at(k).readError != 0 then [Err(EntryReadFailed)]
    else VisitRecords(at(k), k) + EndingRecords(Ending(at, declared, k))
  }

  function EndingRecords(ending: Option<Code>): seq<Record>
  {
    if ending.Some? then [Err(ending.value)] else []
  }

  /** The records of the first `n` visits. */
  function VisitsRecords(at: Cursor, n: nat): seq<Record>
  {
    if n == 0 then [] else VisitsRecords(at, n - 1) + VisitRecords(at(n - 1), n - 1)
  }

  /** No position before this one ends the walk. */
  ghost predicate Reaches(at: Cursor, declared: Option<nat>, last: nat)
  {
    forall k: nat :: k < last ==> !Leaves(at, declared, k)
  }

  /** `last` is where the walk ends. */
  ghost predicate EndsAt(at: Cursor, declared: Option<nat>, last: nat)
  {
    Leaves(at, declared, last) && Reaches(at, declared, last)
  }

  /** The walk is clean: it ended where it should. */
  predicate CleanEnd(at: Cursor, declared: Option<nat>, last: nat)
  {
    !Stalled(at, declared, last) && at(last).readError == 0 && Ending(at, declared, last).None?
  }

  /** All records of a walk. */
  function WalkRecords(positioned: bool, at: Cursor, declared: Option<nat>, last: nat): seq<Record>
  {
    if !positioned then [Warn(ModuleEmpty)] else VisitsRecords(at, last) + LastVisit(at, declared, last)
  }

  /** Emits an optional diagnostic. */
  method Complain(e: Emitter, complaint: seq<Record>) returns (thrown: bool)
    requires e.Valid() && !e.writer.output.bad
    requires |complaint| <= 1 && (complaint != [] ==> complaint[0].Diagnostic?)
    modifies e, e.writer.Repr
    ensures e.Valid() && Played(old(e.Now()), e.Now(), complaint, true, thrown)
    ensures complaint == [] ==> !thrown
  {
    hide Played, e.Valid;
    thrown := false;
    if complaint != [] {
      thrown := e.Diagnose(complaint[0].severity, complaint[0].code);
      assert [Diagnostic(complaint[0].severity, complaint[0].code)] == complaint;
    } else {
      PlayedNothing(e.Now(), true);
      CompletedIsPlayed(e.Now(), e.Now(), [], true);
    }
  }

  /** The parts of a visit in the order in which they are emitted. */
  lemma VisitParts(v: Visit, ordinal: nat)
    ensures VisitRecords(v, ordinal) ==
            LengthComplaint(v.raw) + (EncodingComplaint(v) + (StripComplaint(v) + [EntryOf(v, ordinal)]))
  {
    hide LengthComplaint, EncodingComplaint, StripComplaint, EntryOf;
    var l, c, s, e := LengthComplaint(v.raw), EncodingComplaint(v), StripComplaint(v), [EntryOf(v, ordinal)];
    assert l + c + s + e == l + (c + (s + e));
  }

  /** `sword_length` complains about text the library could not address. */
  method SwordLength(e: Emitter, b: bytes) returns (thrown: bool, fits: bool)
    requires e.Valid() && !e.writer.output.bad
    modifies e, e.writer.Repr
    ensures e.Valid() && Played(old(e.Now()), e.Now(), LengthComplaint(b), true, thrown)
    ensures fits == (|b| <= MAXIMUM_LENGTH) && (fits ==> !thrown)
  {
    hide Played, e.Valid;
    fits := |b| <= MAXIMUM_LENGTH;
    thrown := Complain(e, if fits then [] else [Err(EntryLengthUnsupported)]);
  }

  /** The strip projection of well-formed text, with the complaint when there is none. */
  method StripNormalized(e: Emitter, v: Visit, normalized: Option<bytes>)
    returns (thrown: bool, result: Option<bytes>)
    requires e.Valid() && !e.writer.output.bad && normalized == Normalized(v)
    modifies e, e.writer.Repr
    ensures e.Valid() && Played(old(e.Now()), e.Now(), StripComplaint(v), true, thrown)
    ensures !thrown ==> result == NormalizedStripped(v)
  {
    hide Played, e.Valid, Normalized, Utf8.Valid, CodeText;
    result := None;
    ghost var before := e.Now();
    if normalized.Some? && NUL !in normalized.value {
      var fits;
      thrown, fits := SwordLength(e, normalized.value);
      if thrown || !fits {
        return;
      }
      ghost var measured := e.Now();
      StillGood(before, measured, [], true);
      var valid := Utf8.IsValidUtf8(v.normalizedStripped);
      if valid {
        result := Some(v.normalizedStripped);
      } else {
        thrown := Complain(e, [Warn(EntryNormalizedStrippedInvalidUtf8)]);
        PlayedOn(before, measured, e.Now(), [], [Warn(EntryNormalizedStrippedInvalidUtf8)], true, thrown);
        assert [] + StripComplaint(v) == StripComplaint(v);
      }
    } else if normalized.Some? {
      thrown := Complain(e, [Warn(EntryEncodingEmbeddedNul)]);
    } else {
      thrown := Complain(e, []);
    }
  }

  /** Reads and emits the entry at one position. */
  method EmitVisit(e: Emitter, v: Visit, ordinal: nat) returns (thrown: bool)
    requires e.Valid() && !e.writer.output.bad
    modifies e, e.writer.Repr
    ensures e.Valid() && Played(old(e.Now()), e.Now(), VisitRecords(v, ordinal), true, thrown)
  {
    hide Played, e.Valid, Normalized, NormalizedStripped, Utf8.Valid, CodeText, LengthComplaint, EncodingComplaint,
      StripComplaint, VisitRecords;
    VisitParts(v, ordinal);
    ghost var l, c, s, rest := LengthComplaint(v.raw), EncodingComplaint(v), StripComplaint(v), [EntryOf(v, ordinal)];
    ghost var s0 := e.Now();
    var fits;
    thrown, fits := SwordLength(e, v.raw);
    if thrown {
      BrokenOffLonger(s0, e.Now(), l, c + (s + rest), true);
      return;
    }
    ghost var s1 := e.Now();
    StillGood(s0, s1, l, true);
    var normalized;
    thrown, normalized := Decode(e, v);
    if thrown {
      BrokenOffLonger(s1, e.Now(), c, s + rest, true);
      PlayedOn(s0, s1, e.Now(), l, c + (s + rest), true, true);
      return;
    }
    ghost var s2 := e.Now();
    StillGood(s1, s2, c, true);
    var normalizedStripped;
    thrown, normalizedStripped := StripNormalized(e, v, normalized);
    if thrown {
      BrokenOffLonger(s2, e.Now(), s, rest, true);
      PlayedOn(s1, s2, e.Now(), c, s + rest, true, true);
      PlayedOn(s0, s1, e.Now(), l, c + (s + rest), true, true);
      return;
    }
    ghost var s3 := e.Now();
    StillGood(s2, s3, s, true);
    var segments := Annotation.SegmentAnnotations(v.raw);
    var projections := if fits then Some(Projections(v.rendered, v.stripped)) else None;
    thrown := e.Emit(Entry(EntryData(ordinal, v.key, v.raw, segments, normalized, normalizedStripped,
                                     projections, v.scope)));
    PlayedOn(s2, s3, e.Now(), s, rest, true, thrown);
    PlayedOn(s1, s2, e.Now(), c, s + rest, true, thrown);
    PlayedOn(s0, s1, e.Now(), l, c + (s + rest), true, thrown);
  }

  /** `source_utf8` with the complaint when it has nothing to offer. */
  method Decode(e: Emitter, v: Visit) returns (thrown: bool, normalized: Option<bytes>)
    requires e.Valid() && !e.writer.output.bad
    modifies e, e.writer.Repr
    ensures e.Valid() && Played(old(e.Now()), e.Now(), EncodingComplaint(v), true, thrown)
    ensures normalized == Normalized(v)
  {
    hide Played, e.Valid, Utf8.Valid, CodeText;
    match v.encoding {
      case Utf8Label =>
        var valid := Utf8.IsValidUtf8(v.raw);
        normalized := if valid then Some(v.raw) else None;
      case Converted(text) =>
        normalized := text;
    }
    thrown := Complain(e, if normalized.None? then [Warn(EntryEncodingUnavailable)] else []);
  }

  lemma TallyComplaints(t: Totals, v: Visit)
    ensures Tally(t, Complaints(v)).entries == t.entries
  {
    hide Normalized, Strippable, Utf8.Valid, CodeText;
    var l, c, s := LengthComplaint(v.raw), EncodingComplaint(v), StripComplaint(v);
    TallyAppend(t, l + c, s);
    TallyAppend(t, l, c);
    hide Tally;
    NoEntryTallied(t, l);
    NoEntryTallied(Tally(t, l), c);
    NoEntryTallied(Tally(t, l + c), s);
  }

  lemma {:induction false} NoEntryTallied(t: Totals, rs: seq<Record>)
    requires forall i :: 0 <= i < |rs| ==> !rs[i].Entry?
    ensures Tally(t, rs).entries == t.entries
    decreases |rs|
  {
    if rs != [] {
      NoEntryTallied(TallyOne(t, rs[0]), rs[1..]);
    }
  }

  lemma TallyVisit(t: Totals, v: Visit, ordinal: nat)
    ensures Tally(t, VisitRecords(v, ordinal)).entries == t.entries + 1
  {
    TallyComplaints(t, v);
    TallyAppend(t, Complaints(v), [EntryOf(v, ordinal)]);
    TallyOneRecord(Tally(t, Complaints(v)), EntryOf(v, ordinal));
    hide Tally, Complaints, Normalized, NormalizedStripped;
  }

  lemma NoVisits(t: Totals, at: Cursor)
    ensures Tally(t, VisitsRecords(at, 0)) == t
  {
    hide VisitRecords, TallyOne;
  }

  lemma VisitsSnoc(at: Cursor, n: nat)
    ensures VisitsRecords(at, n + 1) == VisitsRecords(at, n) + VisitRecords(at(n), n)
  {
    hide VisitRecords;
  }

  /** As many entries are totalled as positions were visited. */
  lemma {:induction false} TallyVisits(t: Totals, at: Cursor, n: nat)
    ensures Tally(t, VisitsRecords(at, n)).entries == t.entries + n
  {
    NoVisits(t, at);
    hide VisitRecords, VisitsRecords, Tally;
    if n > 0 {
      VisitsSnoc(at, n - 1);
      var before, v := VisitsRecords(at, n - 1), at(n - 1);
      TallyVisits(t, at, n - 1);
      TallyAppend(t, before, VisitRecords(v, n - 1));
      TallyVisit(Tally(t, before), v, n - 1);
    }
  }

  /** Adds an optional last part to a completed one. */
  lemma PlayedMore(a: Snapshot, b: Snapshot, c: Snapshot, first: seq<Record>, second: seq<Record>, thrown: bool)
    requires Completed(a, b, first, true) && Played(b, c, second, true, thrown)
    ensures Played(a, c, first + second, true, thrown)
    ensures !thrown ==> Completed(a, c, first + second, true)
  {
    hide Completed;
    PlayedThen(a, b, c, first, second, true, thrown);
  }

  /** The walk itself. A declared count bounds it; otherwise the cursor must come to an end somewhere. */
  method EmitEntries(e: Emitter, positioned: bool, at: Cursor, declared: Option<nat>, ghost bound: nat)
    returns (thrown: bool, success: bool, ghost last: nat)
    requires e.Valid() && !e.writer.output.bad && e.totals.entries == 0
    requires declared.Some? || Leaves(at, declared, bound)
    modifies e, e.writer.Repr
    ensures e.Valid() && Played(old(e.Now()), e.Now(), WalkRecords(positioned, at, declared, last), true, thrown)
    ensures positioned ==> Reaches(at, declared, last) && (!thrown ==> EndsAt(at, declared, last))
    ensures !thrown ==> success == (positioned ==> CleanEnd(at, declared, last))
  {
    hide Played, Completed, e.Valid, VisitRecords, CodeText, Tally;
    last := 0;
    ghost var start := e.Now();
    if !positioned {
      thrown := e.Diagnose(Warning, CodeText(ModuleEmpty));
      return thrown, true, 0;
    }
    var previousKey: bytes, previousIndex := [], 0;
    ghost var k: nat := 0;
    PlayedNothing(start, true);
    while true
      invariant e.Valid() && !e.writer.output.bad && e.totals.entries == k
      invariant Completed(start, e.Now(), VisitsRecords(at, k), true)
      invariant forall j: nat :: j < k ==> !Leaves(at, declared, j)
      invariant k > 0 ==> previousKey == at(k - 1).key && previousIndex == at(k - 1).index
      decreases if declared.Some? then declared.value - k else bound - k
    {
      last := k;
      ghost var here := e.Now();
      var ordinal := e.totals.entries;
      var v := at(ordinal);
      if declared.None? && ordinal != 0 && v.key == previousKey && v.index == previousIndex {
        thrown := e.Diagnose(Error, CodeText(ModuleNavigationStalled));
        PlayedMore(start, here, e.Now(), VisitsRecords(at, k), LastVisit(at, declared, k), thrown);
        return thrown, false, last;
      }
      previousKey, previousIndex := v.key, v.index;
      if v.readError != 0 {
        thrown := e.Diagnose(Error, CodeText(EntryReadFailed));
        PlayedMore(start, here, e.Now(), VisitsRecords(at, k), LastVisit(at, declared, k), thrown);
        return thrown, false, last;
      }
      thrown := EmitVisit(e, v, ordinal);
      PlayedMore(start, here, e.Now(), VisitsRecords(at, k), VisitRecords(v, k), thrown);
      if thrown {
        Abandoned(start, e.Now(), at, declared, k);
        return thrown, false, last;
      }
      StillGood(start, e.Now(), VisitsRecords(at, k) + VisitRecords(v, k), true);
      ghost var there := e.Now();
      CompletedTotals(start, there, VisitsRecords(at, k) + VisitRecords(v, k));
      TallyVisits(start.totals, at, k + 1);
      var count := e.totals.entries;
      if (declared.Some? && count >= declared.value) || (declared.None? && v.next == OUT_OF_BOUNDS) {
        WalkParts(at, declared, k);
        NothingMore(start, there, at, declared, k);
        return false, true, last;
      }
      if v.next != 0 {
        var code := if v.next == OUT_OF_BOUNDS then ModuleEntryCountMismatch else ModuleNavigationFailed;
        thrown := e.Diagnose(Error, CodeText(code));
        PlayedMore(start, there, e.Now(), VisitsRecords(at, k) + VisitRecords(v, k), [Err(code)], thrown);
        WalkParts(at, declared, k);
        return thrown, false, last;
      }
      k := k + 1;
    }
  }

  lemma NothingMore(a: Snapshot, b: Snapshot, at: Cursor, declared: Option<nat>, k: nat)
    requires Completed(a, b, VisitsRecords(at, k) + VisitRecords(at(k), k), true)
    requires !Stalled(at, declared, k) && at(k).readError == 0 && Ending(at, declared, k).None?
    ensures Played(a, b, WalkRecords(true, at, declared, k), true, false)
  {
    hide Completed, VisitRecords;
    WalkParts(at, declared, k);
    assert VisitsRecords(at, k) + VisitRecords(at(k), k) + [] == VisitsRecords(at, k) + VisitRecords(at(k), k);
  }

  lemma CompletedTotals(a: Snapshot, b: Snapshot, rs: seq<Record>)
    requires Completed(a, b, rs, true)
    ensures b.totals == Tally(a.totals, rs)
  {
  }

  lemma WalkParts(at: Cursor, declared: Option<nat>, k: nat)
    requires !Stalled(at, declared, k) && at(k).readError == 0
    ensures VisitsRecords(at, k) + VisitRecords(at(k), k) + EndingRecords(Ending(at, declared, k)) ==
            WalkRecords(true, at, declared, k)
  {
    hide VisitsRecords, VisitRecords, EndingRecords, Ending;
    var a, b, c := VisitsRecords(at, k), VisitRecords(at(k), k), EndingRecords(Ending(at, declared, k));
    assert a + b + c == a + (b + c);
  }

  /** An exception during a visit breaks off the walk. */
  lemma Abandoned(a: Snapshot, b: Snapshot, at: Cursor, declared: Option<nat>, k: nat)
    requires Played(a, b, VisitsRecords(at, k) + VisitRecords(at(k), k), true, true)
    requires !Stalled(at, declared, k) && at(k).readError == 0
    ensures Played(a, b, WalkRecords(true, at, declared, k), true, true)
  {
    hide Played, EndingRecords, Ending, VisitRecords;
    BrokenOffLonger(a, b, VisitsRecords(at, k) + VisitRecords(at(k), k), EndingRecords(Ending(at, declared, k)), true);
    WalkParts(at, declared, k);
  }

  // What a walk amounts to.

  /** A declared count of n >= 1: the walk is clean exactly when the first n positions could be read one after the
      other. */
  lemma DictionaryWalk(at: Cursor, n: nat, last: nat)
    requires n >= 1 && EndsAt(at, Some(n), last)
    ensures last < n
    ensures CleanEnd(at, Some(n), last) <==>
            && last == n - 1
            && (forall k: nat :: k < n ==> at(k).readError == 0)
            && (forall k: nat :: k < n - 1 ==> at(k).next == 0)
  {
    assert Leaves(at, Some(n), n - 1);
    if CleanEnd(at, Some(n), last) {
      forall k: nat | k < last
        ensures at(k).readError == 0 && at(k).next == 0
      {
        assert !Leaves(at, Some(n), k);
      }
    }
    if last == n - 1 {
      assert forall k: nat :: k < n && at(k).readError == 0 ==> !Stalled(at, Some(n), k);
    }
  }

  /** A declared count of zero does not keep the walk from visiting one position. */
  lemma EmptyDictionaryWalk(at: Cursor, last: nat)
    requires EndsAt(at, Some(0), last)
    ensures last == 0
    ensures CleanEnd(at, Some(0), last) <==> at(0).readError == 0
  {
    assert Leaves(at, Some(0), 0);
  }

  /** No declared count: the walk is clean exactly when it ran, never standing still, to the end of the module. */
  lemma PlainWalk(at: Cursor, last: nat)
    requires EndsAt(at, None, last)
    ensures CleanEnd(at, None, last) <==>
            && at(last).next == OUT_OF_BOUNDS
            && (forall k: nat :: k <= last ==> at(k).readError == 0)
            && (forall k: nat :: 0 < k <= last ==> at(k).key != at(k - 1).key || at(k).index != at(k - 1).index)
            && (forall k: nat :: k < last ==> at(k).next == 0)
  {
    forall k: nat | k < last
      ensures at(k).readError == 0 && at(k).next == 0 && !Stalled(at, None, k)
    {
      assert !Leaves(at, None, k);
    }
    if CleanEnd(at, None, last) {
      forall k: nat | 0 < k <= last
        ensures at(k).key != at(k - 1).key || at(k).index != at(k - 1).index
      {
        assert !Stalled(at, None, k);
      }
    }
  }

  /** The entries among some records. */
  function EntriesIn(rs: seq<Record>): seq<EntryData>
  {
    if rs == [] then [] else EntryIn(rs[0]) + EntriesIn(rs[1..])
  }

  function EntryIn(r: Record): seq<EntryData>
  {
    if r.Entry? then [r.entry] else []
  }

  lemma {:induction false} EntriesAppend(left: seq<Record>, right: seq<Record>)
    ensures EntriesIn(left + right) == EntriesIn(left) + EntriesIn(right)
  {
    hide EntryIn;
    if left == [] {
      assert left + right == right;
    } else {
      var whole, rest := left + right, left[1..];
      assert whole[1..] == rest + right && whole[0] == left[0];
      EntriesAppend(rest, right);
      assert EntryIn(left[0]) + (EntriesIn(rest) + EntriesIn(right)) ==
             EntryIn(left[0]) + EntriesIn(rest) + EntriesIn(right);
    }
  }

  lemma {:induction false} NoEntriesIn(rs: seq<Record>)
    requires forall i :: 0 <= i < |rs| ==> !rs[i].Entry?
    ensures EntriesIn(rs) == []
  {
    if rs != [] {
      NoEntriesIn(rs[1..]);
    }
  }

  /** The entries of the first `n` positions, numbered from zero. */
  function EntriesOf(at: Cursor, n: nat): (r: seq<EntryData>)
    ensures |r| == n
  {
    seq(n, k requires 0 <= k < n => EntryOf(at(k), k).entry)
  }

  lemma EntryInVisit(v: Visit, ordinal: nat)
    ensures EntriesIn(VisitRecords(v, ordinal)) == [EntryOf(v, ordinal).entry]
  {
    ComplaintsAreDiagnostics(v);
    hide EntryOf, Complaints;
    EntriesAppend(Complaints(v), [EntryOf(v, ordinal)]);
    NoEntriesIn(Complaints(v));
    assert [EntryOf(v, ordinal)][1..] == [];
  }

  lemma ComplaintsAreDiagnostics(v: Visit)
    ensures forall i :: 0 <= i < |Complaints(v)| ==> Complaints(v)[i].Diagnostic?
    ensures forall ordinal :: EntryOf(v, ordinal).Entry?
  {
    hide Normalized, NormalizedStripped, Strippable, Utf8.Valid, CodeText;
  }

  lemma {:induction false} EntriesInVisits(at: Cursor, n: nat)
    ensures EntriesIn(VisitsRecords(at, n)) == EntriesOf(at, n)
  {
    hide VisitRecords, EntryOf, EntriesIn;
    if n == 0 {
      NoEntriesIn([]);
    } else {
      EntriesInVisits(at, n - 1);
      EntriesAppend(VisitsRecords(at, n - 1), VisitRecords(at(n - 1), n - 1));
      EntryInVisit(at(n - 1), n - 1);
    }
  }

  /** How many positions a walk turns into entries. */
  function Visited(at: Cursor, declared: Option<nat>, last: nat): nat
  {
    if Stalled(at, declared, last) || at(last).readError != 0 then last else last + 1
  }

  /** The entries of a walk are the cursor's own positions, in order, from the first one on. */
  lemma WalkEntries(at: Cursor, declared: Option<nat>, last: nat)
    ensures EntriesIn(WalkRecords(true, at, declared, last)) == EntriesOf(at, Visited(at, declared, last))
  {
    hide VisitRecords, EntryOf, EntriesIn, CodeText, VisitsRecords;
    EntriesInVisits(at, last);
    EntriesAppend(VisitsRecords(at, last), LastVisit(at, declared, last));
    if Visited(at, declared, last) == last {
      NoEntriesIn(LastVisit(at, declared, last));
    } else {
      var more := EndingRecords(Ending(at, declared, last));
      EntriesAppend(VisitRecords(at(last), last), more);
      EntryInVisit(at(last), last);
      NoEntriesIn(more);
    }
  }

  /** What an entry says of the position it was read at. */
  ghost predicate Tells(e: EntryData, v: Visit, ordinal: nat)
  {
    && e.ordinal == ordinal && e.key == v.key && e.raw == v.raw && e.scope == v.scope
    && Concat(Annotation.RawParts(e.segments)) == v.raw
    && (forall i :: 0 <= i < |e.segments| ==> Annotation.Shaped(e.segments[i]))
    && (e.projections.Some? <==> |v.raw| <= 0x7fff_ffff)
    && (e.projections.Some? ==>
          e.projections.value.rendered == v.rendered && e.projections.value.stripped == v.stripped)
    && TellsText(e, v)
  }

  /** The normalised text and its strip projection. */
  ghost predicate TellsText(e: EntryData, v: Visit)
  {
    && (v.encoding.Utf8Label? && Utf8.Valid(v.raw) ==> e.normalizedRaw == Some(v.raw))
    && (v.encoding.Utf8Label? && !Utf8.Valid(v.raw) ==> e.normalizedRaw == None)
    && (v.encoding.Converted? ==> e.normalizedRaw == v.encoding.text)
    && (e.normalizedRaw == None ==> e.normalizedStripped == None)
    && (e.normalizedRaw.Some? ==>
          var text := e.normalizedRaw.value;
          var strips := (forall i :: 0 <= i < |text| ==> text[i] != 0) && |text| <= 0x7fff_ffff
                        && Utf8.Valid(v.normalizedStripped);
          e.normalizedStripped == if strips then Some(v.normalizedStripped) else None)
  }

  lemma EntryTells(v: Visit, ordinal: nat)
    ensures Tells(EntryOf(v, ordinal).entry, v, ordinal)
  {
    hide Utf8.Valid, Concat, Annotation.Segments, Annotation.Shaped, Annotation.RawParts;
    Annotation.SegmentsReconstruct(v.raw);
    forall i | 0 <= i < |Annotation.Segments(v.raw)|
      ensures Annotation.Shaped(Annotation.Segments(v.raw)[i])
    {
      Annotation.SegmentsAreStable(v.raw, i);
    }
  }

  /** The entries of a walk, one for each position it visits and reads, tell what was read there. */
  lemma WalkTells(at: Cursor, declared: Option<nat>, last: nat)
    ensures var es := EntriesIn(WalkRecords(true, at, declared, last));
            |es| == Visited(at, declared, last) && forall k :: 0 <= k < |es| ==> Tells(es[k], at(k), k)
  {
    WalkEntries(at, declared, last);
    hide Tells, EntryOf, EntriesIn, WalkRecords;
    var es := EntriesIn(WalkRecords(true, at, declared, last));
    forall k | 0 <= k < |es|
      ensures Tells(es[k], at(k), k)
    {
      EntryTells(at(k), k);
    }
  }
}
