/** What the parser returns is derived from what it has read. */
module JsonDerived {
  import opened Bytes
  import opened JsonGrammar
  import opened JsonParse
  import opened JsonText
  import opened JsonTokens

  lemma BlankEmpty(w: bytes)
    requires w == []
    ensures Blank(w)
  {
  }

  lemma Cut(s: bytes, n: nat, a: nat, b: nat)
    requires a <= b <= n <= |s|
    ensures s[..n][a..b] == s[a..b] && s[..n][..a] == s[..a] && s[..n][a..] == s[a..n]
  {
  }

  /** One mark in front and one behind. */
  lemma Behind(c: byte, s: bytes, k: nat)
    requires k < |s|
    ensures var t := [c] + s;
            t[..k + 2][1..k + 1] == s[..k] && t[k + 2..] == s[k + 1..] && t[k + 1] == s[k] && t[..k + 2][k + 1] == s[k]
  {
    assert ([c] + s)[..k + 2] == [c] + s[..k + 1];
  }

  lemma CutAgain(s: bytes, a: nat, b: nat)
    requires a <= b <= |s|
    ensures s[a..][..b - a] == s[a..b]
  {
  }

  /** White space, one character and white space again. */
  lemma SpaceBetween(s: bytes, rest: bytes) returns (b: nat, c: nat, d: nat)
    requires Leaves(s, rest) && SkipSpace(rest) != []
    ensures b == Taken(s, rest) && b <= c < d <= |s| && Blank(s[b..c]) && Blank(s[c + 1..d])
    ensures SkipSpace(rest) == s[c..] && SkipSpace(SkipSpace(rest)[1..]) == s[d..]
  {
    hide Blank, SkipSpace;
    var t := SkipSpace(rest);
    var u := SkipSpace(t[1..]);
    SpaceTaken(rest);
    SpaceTaken(t[1..]);
    b := Taken(s, rest);
    c := b + Taken(rest, t);
    d := c + 1 + Taken(t[1..], u);
    assert t == s[c..] && t[1..] == s[c + 1..] && u == s[d..];
    CutAgain(s, b, c);
    CutAgain(s, c + 1, d);
  }

  lemma BlankJoined(w: bytes, v: bytes)
    requires Blank(w) && Blank(v)
    ensures Blank(w + v)
  {
  }

  ghost predicate ItemsReached(s: bytes, p: Parsed<seq<Json>>)
  {
    p.value != [] && Leaves(s, p.rest)
    && var n := Taken(s, p.rest); n > 0 && s[n - 1] == CLOSE_BRACKET && Items(s[..n - 1], p.value)
  }

  lemma ItemsLast(s: bytes, b: nat, item: Json)
    requires b <= |s| && Value(s[..b], item) && Blank(s[b..])
    ensures Items(s, [item])
  {
    BlankEmpty(s[..0]);
    hide Blank, Value;
    assert s[0..b] == s[..b] && s[b..|s|] == s[b..];
    assert ItemsAt(s, [item], 0, b, |s|);
  }

  lemma ItemsMore(s: bytes, b: nat, c: nat, item: Json, more: seq<Json>)
    requires b <= c < |s| && Value(s[..b], item) && Blank(s[b..c]) && s[c] == COMMA
    requires more != [] && Items(s[c + 1..], more)
    ensures Items(s, [item] + more)
  {
    BlankEmpty(s[..0]);
    hide Blank, Value;
    var all := [item] + more;
    assert s[0..b] == s[..b] && all[1..] == more;
    assert ItemsAt(s, all, 0, b, c);
  }

  lemma ItemsShift(w: bytes, s: bytes, all: seq<Json>, a: int, b: int, c: int)
    requires Blank(w) && all != [] && ItemsAt(s, all, a, b, c)
    ensures ItemsAt(w + s, all, |w| + a, |w| + b, |w| + c)
  {
    hide Blank, Value, Items;
    var t, k := w + s, |w|;
    BlankJoined(w, s[..a]);
    assert t[..k + a] == w + s[..a];
    assert t[k + a..k + b] == s[a..b];
    assert t[k + b..k + c] == s[b..c];
    if c < |s| {
      assert t[k + c + 1..] == s[c + 1..];
    }
  }

  lemma ItemsBlank(w: bytes, s: bytes, all: seq<Json>)
    requires Blank(w) && all != [] && Items(s, all)
    ensures Items(w + s, all)
  {
    hide Blank, ItemsAt;
    var a, b, c :| ItemsAt(s, all, a, b, c);
    ItemsShift(w, s, all, a, b, c);
  }

  /** A list with one more element in front. */
  lemma ItemsJoin(s: bytes, b: nat, c: nat, d: nat, first: Json, more: seq<Json>)
    requires b <= c < d <= |s| && Value(s[..b], first) && Blank(s[b..c]) && s[c] == COMMA && Blank(s[c + 1..d])
    requires more != [] && Items(s[d..], more)
    ensures Items(s, [first] + more)
  {
    hide *;
    ItemsBlank(s[c + 1..d], s[d..], more);
    assert s[c + 1..] == s[c + 1..d] + s[d..];
    ItemsMore(s, b, c, first, more);
  }

  lemma ItemsStep(s: bytes, first: Parsed<Json>, more: Parsed<seq<Json>>)
    requires Leaves(s, first.rest) && Value(s[..Taken(s, first.rest)], first.value)
    requires var t := SkipSpace(first.rest);
             t != [] && t[0] == COMMA && ItemsReached(SkipSpace(t[1..]), more)
    ensures ItemsReached(s, Parsed([first.value] + more.value, more.rest))
  {
    hide Value, Items, Blank, SkipSpace;
    var t := SkipSpace(first.rest);
    var u := SkipSpace(t[1..]);
    var b, c, d := SpaceBetween(s, first.rest);
    var m := d + Taken(u, more.rest);
    assert more.rest == s[m..];
    Cut(s, m - 1, b, c);
    Cut(s, m - 1, c + 1, d);
    Cut(s, m - 1, d, m - 1);
    CutAgain(s, d, m - 1);
    ItemsJoin(s[..m - 1], b, c, d, first.value, more.value);
  }

  lemma ItemsEnd(s: bytes, first: Parsed<Json>)
    requires Leaves(s, first.rest) && Value(s[..Taken(s, first.rest)], first.value)
    requires var t := SkipSpace(first.rest); t != [] && t[0] == CLOSE_BRACKET
    ensures ItemsReached(s, Parsed([first.value], SkipSpace(first.rest)[1..]))
  {
    hide Value, Items, Blank, SkipSpace;
    var t := SkipSpace(first.rest);
    SpaceTaken(first.rest);
    var b := Taken(s, first.rest);
    var c := b + Taken(first.rest, t);
    assert t == s[c..] && t[1..] == s[c + 1..];
    assert s[..c][..b] == s[..b] && s[..c][b..] == first.rest[..c - b];
    ItemsLast(s[..c], b, first.value);
  }

  lemma ItemsIs(s: bytes)
    requires ParseItems(s).Some?
    ensures ParseValue(s).Some?
    ensures var first := ParseValue(s).value;
            var t := SkipSpace(first.rest);
            && t != []
            && (t[0] == CLOSE_BRACKET ==> ParseItems(s).value == Parsed([first.value], t[1..]))
            && (t[0] != CLOSE_BRACKET ==>
                  && t[0] == COMMA && ParseItems(SkipSpace(t[1..])).Some?
                  && var more := ParseItems(SkipSpace(t[1..])).value;
                     ParseItems(s).value == Parsed([first.value] + more.value, more.rest))
  {
    hide ParseValue, SkipSpace;
  }

  lemma {:induction false} ItemsTaken(s: bytes)
    ensures ParseItems(s).Some? ==> ItemsReached(s, ParseItems(s).value)
    decreases |s|, 3
  {
    hide ParseValue, ParseItems, SkipSpace, ItemsReached, Value;
    if ParseItems(s).Some? {
      ItemsIs(s);
      ValueTaken(s);
      var first := ParseValue(s).value;
      var t := SkipSpace(first.rest);
      if t[0] == CLOSE_BRACKET {
        ItemsEnd(s, first);
      } else {
        ItemsTaken(SkipSpace(t[1..]));
        ItemsStep(s, first, ParseItems(SkipSpace(t[1..])).value);
      }
    }
  }

  lemma ArrayEnclosed(t: bytes, all: seq<Json>)
    requires |t| >= 2 && t[0] == OPEN_BRACKET && t[|t| - 1] == CLOSE_BRACKET
    requires if all == [] then Blank(t[1..|t| - 1]) else Items(t[1..|t| - 1], all)
    ensures Value(t, Array(all))
  {
    hide Blank, Items;
  }

  lemma ArrayIs(s: bytes)
    requires ParseArray(s).Some?
    ensures var t := SkipSpace(s);
            var p := ParseArray(s).value;
            || (t != [] && t[0] == CLOSE_BRACKET && p == Parsed(Array([]), t[1..]))
            || (ParseItems(t).Some? && p == Parsed(Array(ParseItems(t).value.value), ParseItems(t).value.rest))
  {
    hide ParseItems, SkipSpace;
  }

  /** An array or an object, after its opening mark. */
  lemma {:induction false} ArrayTaken(s: bytes)
    ensures ParseArray(s).Some? ==> Reached([OPEN_BRACKET] + s, ParseArray(s).value)
    decreases |s|, 4
  {
    hide ParseItems, ParseArray, SkipSpace, Items, Blank, Value;
    if ParseArray(s).Some? {
      ArrayIs(s);
      ItemsTaken(SkipSpace(s));
      if ParseArray(s).value.value == Array([]) {
        ArrayEmpty(s);
      } else {
        ArrayFull(s, ParseItems(SkipSpace(s)).value);
      }
    }
  }

  lemma ArrayEmpty(s: bytes)
    requires var t := SkipSpace(s); t != [] && t[0] == CLOSE_BRACKET
    ensures Reached([OPEN_BRACKET] + s, Parsed(Array([]), SkipSpace(s)[1..]))
  {
    hide SkipSpace, Blank, Value;
    var t := SkipSpace(s);
    SpaceTaken(s);
    var w, whole := Taken(s, t), [OPEN_BRACKET] + s;
    assert t == s[w..] && t[1..] == s[w + 1..];
    Behind(OPEN_BRACKET, s, w);
    ArrayEnclosed(whole[..w + 2], []);
  }

  lemma ArrayFull(s: bytes, p: Parsed<seq<Json>>)
    requires ItemsReached(SkipSpace(s), p)
    ensures Reached([OPEN_BRACKET] + s, Parsed(Array(p.value), p.rest))
  {
    hide SkipSpace, Blank, Value, Items;
    var t := SkipSpace(s);
    SpaceTaken(s);
    var w, m, whole := Taken(s, t), Taken(t, p.rest), [OPEN_BRACKET] + s;
    var n := 1 + w + m;
    assert t == s[w..] && p.rest == s[n - 1..] && t[m - 1] == s[n - 2];
    ItemsBlank(s[..w], t[..m - 1], p.value);
    assert s == s[..w] + t;
    assert s[..w + m - 1] == s[..w] + t[..m - 1];
    Behind(OPEN_BRACKET, s, w + m - 1);
    ArrayEnclosed(whole[..n], p.value);
  }

  ghost predicate MembersReached(s: bytes, p: Parsed<seq<Member>>)
  {
    p.value != [] && Leaves(s, p.rest)
    && var n := Taken(s, p.rest); n > 0 && s[n - 1] == CLOSE_BRACE && Members(s[..n - 1], p.value)
  }

  lemma MembersLast(s: bytes, b: nat, member: Member)
    requires b <= |s| && Pair(s[..b], member) && Blank(s[b..])
    ensures Members(s, [member])
  {
    BlankEmpty(s[..0]);
    hide Blank, Pair;
    assert s[0..b] == s[..b] && s[b..|s|] == s[b..];
    assert MembersAt(s, [member], 0, b, |s|);
  }

  lemma MembersMore(s: bytes, b: nat, c: nat, member: Member, more: seq<Member>)
    requires b <= c < |s| && Pair(s[..b], member) && Blank(s[b..c]) && s[c] == COMMA
    requires more != [] && Members(s[c + 1..], more)
    ensures Members(s, [member] + more)
  {
    BlankEmpty(s[..0]);
    hide Blank, Pair;
    var all := [member] + more;
    assert s[0..b] == s[..b] && all[1..] == more;
    assert MembersAt(s, all, 0, b, c);
  }

  lemma MembersShift(w: bytes, s: bytes, all: seq<Member>, a: int, b: int, c: int)
    requires Blank(w) && all != [] && MembersAt(s, all, a, b, c)
    ensures MembersAt(w + s, all, |w| + a, |w| + b, |w| + c)
  {
    hide Blank, Pair, Members;
    var t, k := w + s, |w|;
    BlankJoined(w, s[..a]);
    assert t[..k + a] == w + s[..a];
    assert t[k + a..k + b] == s[a..b];
    assert t[k + b..k + c] == s[b..c];
    if c < |s| {
      assert t[k + c + 1..] == s[c + 1..];
    }
  }

  lemma MembersBlank(w: bytes, s: bytes, all: seq<Member>)
    requires Blank(w) && all != [] && Members(s, all)
    ensures Members(w + s, all)
  {
    hide Blank, MembersAt;
    var a, b, c :| MembersAt(s, all, a, b, c);
    MembersShift(w, s, all, a, b, c);
  }

  /** A list with one more element in front. */
  lemma MembersJoin(s: bytes, b: nat, c: nat, d: nat, first: Member, more: seq<Member>)
    requires b <= c < d <= |s| && Pair(s[..b], first) && Blank(s[b..c]) && s[c] == COMMA && Blank(s[c + 1..d])
    requires more != [] && Members(s[d..], more)
    ensures Members(s, [first] + more)
  {
    hide *;
    MembersBlank(s[c + 1..d], s[d..], more);
    assert s[c + 1..] == s[c + 1..d] + s[d..];
    MembersMore(s, b, c, first, more);
  }

  lemma MembersStep(s: bytes, first: Parsed<Member>, more: Parsed<seq<Member>>)
    requires Leaves(s, first.rest) && Pair(s[..Taken(s, first.rest)], first.value)
    requires var t := SkipSpace(first.rest);
             t != [] && t[0] == COMMA && MembersReached(SkipSpace(t[1..]), more)
    ensures MembersReached(s, Parsed([first.value] + more.value, more.rest))
  {
    hide Pair, Members, Blank, SkipSpace;
    var t := SkipSpace(first.rest);
    var u := SkipSpace(t[1..]);
    var b, c, d := SpaceBetween(s, first.rest);
    var m := d + Taken(u, more.rest);
    assert more.rest == s[m..];
    Cut(s, m - 1, b, c);
    Cut(s, m - 1, c + 1, d);
    Cut(s, m - 1, d, m - 1);
    CutAgain(s, d, m - 1);
    MembersJoin(s[..m - 1], b, c, d, first.value, more.value);
  }

  lemma MembersEnd(s: bytes, first: Parsed<Member>)
    requires Leaves(s, first.rest) && Pair(s[..Taken(s, first.rest)], first.value)
    requires var t := SkipSpace(first.rest); t != [] && t[0] == CLOSE_BRACE
    ensures MembersReached(s, Parsed([first.value], SkipSpace(first.rest)[1..]))
  {
    hide Pair, Members, Blank, SkipSpace;
    var t := SkipSpace(first.rest);
    SpaceTaken(first.rest);
    var b := Taken(s, first.rest);
    var c := b + Taken(first.rest, t);
    assert t == s[c..] && t[1..] == s[c + 1..];
    assert s[..c][..b] == s[..b] && s[..c][b..] == first.rest[..c - b];
    MembersLast(s[..c], b, first.value);
  }

  lemma MembersIs(s: bytes)
    requires ParseMembers(s).Some?
    ensures ParseMember(s).Some?
    ensures var first := ParseMember(s).value;
            var t := SkipSpace(first.rest);
            && t != []
            && (t[0] == CLOSE_BRACE ==> ParseMembers(s).value == Parsed([first.value], t[1..]))
            && (t[0] != CLOSE_BRACE ==>
                  && t[0] == COMMA && ParseMembers(SkipSpace(t[1..])).Some?
                  && var more := ParseMembers(SkipSpace(t[1..])).value;
                     ParseMembers(s).value == Parsed([first.value] + more.value, more.rest))
  {
    hide ParseMember, SkipSpace;
  }

  lemma {:induction false} MembersTaken(s: bytes)
    ensures ParseMembers(s).Some? ==> MembersReached(s, ParseMembers(s).value)
    decreases |s|, 1
  {
    hide ParseMember, ParseMembers, SkipSpace, MembersReached, Pair;
    if ParseMembers(s).Some? {
      MembersIs(s);
      MemberTaken(s);
      var first := ParseMember(s).value;
      var t := SkipSpace(first.rest);
      if t[0] == CLOSE_BRACE {
        MembersEnd(s, first);
      } else {
        MembersTaken(SkipSpace(t[1..]));
        MembersStep(s, first, ParseMembers(SkipSpace(t[1..])).value);
      }
    }
  }

  lemma ObjectEnclosed(t: bytes, all: seq<Member>)
    requires |t| >= 2 && t[0] == OPEN_BRACE && t[|t| - 1] == CLOSE_BRACE
    requires if all == [] then Blank(t[1..|t| - 1]) else Members(t[1..|t| - 1], all)
    ensures Value(t, Object(all))
  {
    hide Blank, Members;
  }

  lemma ObjectIs(s: bytes)
    requires ParseObject(s).Some?
    ensures var t := SkipSpace(s);
            var p := ParseObject(s).value;
            || (t != [] && t[0] == CLOSE_BRACE && p == Parsed(Object([]), t[1..]))
            || (ParseMembers(t).Some? && p == Parsed(Object(ParseMembers(t).value.value), ParseMembers(t).value.rest))
  {
    hide ParseMembers, SkipSpace;
  }

  /** An array or an object, after its opening mark. */
  lemma {:induction false} ObjectTaken(s: bytes)
    ensures ParseObject(s).Some? ==> Reached([OPEN_BRACE] + s, ParseObject(s).value)
    decreases |s|, 4
  {
    hide ParseMembers, ParseObject, SkipSpace, Members, Blank, Value;
    if ParseObject(s).Some? {
      ObjectIs(s);
      MembersTaken(SkipSpace(s));
      if ParseObject(s).value.value == Object([]) {
        ObjectEmpty(s);
      } else {
        ObjectFull(s, ParseMembers(SkipSpace(s)).value);
      }
    }
  }

  lemma ObjectEmpty(s: bytes)
    requires var t := SkipSpace(s); t != [] && t[0] == CLOSE_BRACE
    ensures Reached([OPEN_BRACE] + s, Parsed(Object([]), SkipSpace(s)[1..]))
  {
    hide SkipSpace, Blank, Value;
    var t := SkipSpace(s);
    SpaceTaken(s);
    var w, whole := Taken(s, t), [OPEN_BRACE] + s;
    assert t == s[w..] && t[1..] == s[w + 1..];
    Behind(OPEN_BRACE, s, w);
    ObjectEnclosed(whole[..w + 2], []);
  }

  lemma ObjectFull(s: bytes, p: Parsed<seq<Member>>)
    requires MembersReached(SkipSpace(s), p)
    ensures Reached([OPEN_BRACE] + s, Parsed(Object(p.value), p.rest))
  {
    hide SkipSpace, Blank, Value, Members;
    var t := SkipSpace(s);
    SpaceTaken(s);
    var w, m, whole := Taken(s, t), Taken(t, p.rest), [OPEN_BRACE] + s;
    var n := 1 + w + m;
    assert t == s[w..] && p.rest == s[n - 1..] && t[m - 1] == s[n - 2];
    MembersBlank(s[..w], t[..m - 1], p.value);
    assert s == s[..w] + t;
    assert s[..w + m - 1] == s[..w] + t[..m - 1];
    Behind(OPEN_BRACE, s, w + m - 1);
    ObjectEnclosed(whole[..n], p.value);
  }

  lemma PairIs(s: bytes)
    requires ParseMember(s).Some?
    ensures s != [] && s[0] == QUOTE && ParseString(s[1..]).Some?
    ensures var name := ParseString(s[1..]).value;
            var t := SkipSpace(name.rest);
            && t != [] && t[0] == COLON && ParseValue(SkipSpace(t[1..])).Some?
            && var value := ParseValue(SkipSpace(t[1..])).value;
               ParseMember(s).value == Parsed(Member(name.value, value.value), value.rest)
  {
    hide ParseString, ParseValue, SkipSpace;
  }

  ghost predicate PairReached(s: bytes, p: Parsed<Member>)
  {
    Leaves(s, p.rest) && Pair(s[..Taken(s, p.rest)], p.value)
  }

  lemma PairJoin(p: bytes, i: nat, k: nat, l: nat, m: Member)
    requires i <= k < l <= |p| && Value(p[..i], Str(m.name)) && Blank(p[i..k]) && p[k] == COLON && Blank(p[k + 1..l])
    requires Value(p[l..], m.value)
    ensures Pair(p, m)
  {
    hide Value, Blank;
    assert PairAt(p, m, i, k, l);
  }

  lemma PairStep(s: bytes, name: Parsed<bytes>, value: Parsed<Json>)
    requires Reached(s, Parsed(Str(name.value), name.rest))
    requires var t := SkipSpace(name.rest);
             t != [] && t[0] == COLON && Reached(SkipSpace(t[1..]), value)
    ensures PairReached(s, Parsed(Member(name.value, value.value), value.rest))
  {
    hide Value, Blank, SkipSpace, Pair;
    var t := SkipSpace(name.rest);
    var u := SkipSpace(t[1..]);
    var i, k, l := SpaceBetween(s, name.rest);
    var n := l + Taken(u, value.rest);
    assert value.rest == s[n..];
    Cut(s, n, i, k);
    Cut(s, n, k + 1, l);
    Cut(s, n, l, n);
    CutAgain(s, l, n);
    PairJoin(s[..n], i, k, l, Member(name.value, value.value));
  }

  lemma {:induction false} MemberTaken(s: bytes)
    ensures ParseMember(s).Some? ==> PairReached(s, ParseMember(s).value)
    decreases |s|, 0
  {
    hide ParseMember, ParseString, ParseValue, SkipSpace, Value, Reached, PairReached;
    if ParseMember(s).Some? {
      PairIs(s);
      var name := ParseString(s[1..]).value;
      StringValue(s);
      var t := SkipSpace(name.rest);
      ValueTaken(SkipSpace(t[1..]));
      PairStep(s, name, ParseValue(SkipSpace(t[1..])).value);
    }
  }

  lemma {:induction false} ValueTaken(s: bytes)
    ensures ParseValue(s).Some? ==> Reached(s, ParseValue(s).value)
    decreases |s|, 2
  {
    hide ParseString, ParseNumber, ParseArray, ParseObject, Value, Starts;
    if ParseValue(s).Some? {
      if s[0] == QUOTE {
        StringValue(s);
      } else if s[0] == OPEN_BRACE {
        ObjectTaken(s[1..]);
        assert s == [OPEN_BRACE] + s[1..];
      } else if s[0] == OPEN_BRACKET {
        ArrayTaken(s[1..]);
        assert s == [OPEN_BRACKET] + s[1..];
      } else {
        WordTaken(s);
        NumberTaken(s);
      }
    }
  }
}
