/** No object that the parser returns, at whatever depth, has two members of one name. */
module JsonObjects {
  import opened Bytes
  import opened JsonParse
  import opened JsonText

  predicate DistinctNames(members: seq<Member>)
  {
    forall i, j :: 0 <= i < j < |members| ==> members[i].name != members[j].name
  }

  /** Every object in the value, the value itself included, has each name at most once. */
  predicate Unambiguous(j: Json)
  {
    match j
    case Array(items) => forall i :: 0 <= i < |items| ==> Unambiguous(items[i])
    case Object(members) =>
      DistinctNames(members) && forall i :: 0 <= i < |members| ==> Unambiguous(members[i].value)
    case _ => true
  }

  predicate AllUnambiguous(items: seq<Json>)
  {
    forall i :: 0 <= i < |items| ==> Unambiguous(items[i])
  }

  predicate MembersUnambiguous(members: seq<Member>)
  {
    DistinctNames(members) && forall i :: 0 <= i < |members| ==> Unambiguous(members[i].value)
  }

  lemma {:induction false} ValueUnambiguous(s: bytes)
    ensures ParseValue(s).Some? ==> Unambiguous(ParseValue(s).value.value)
    decreases |s|, 2
  {
    hide ParseString, ParseNumber, ParseObject, ParseArray;
    if s != [] && s[0] == OPEN_BRACE {
      ObjectUnambiguous(s[1..]);
    } else if s != [] && s[0] == OPEN_BRACKET {
      ArrayUnambiguous(s[1..]);
    } else if ParseValue(s).Some? {
      NumberIsFlat(s);
    }
  }

  lemma NumberIsFlat(s: bytes)
    ensures ParseNumber(s).Some? ==> ParseNumber(s).value.value.Integer? || ParseNumber(s).value.value.Fraction?
  {
    hide Digits, DigitsValue, FractionSize;
  }

  lemma {:induction false} ArrayUnambiguous(s: bytes)
    ensures ParseArray(s).Some? ==> Unambiguous(ParseArray(s).value.value)
    decreases |s|, 4
  {
    hide ParseItems;
    ItemsUnambiguous(SkipSpace(s));
  }

  lemma {:induction false} ItemsUnambiguous(s: bytes)
    ensures ParseItems(s).Some? ==> AllUnambiguous(ParseItems(s).value.value)
    decreases |s|, 3
  {
    hide ParseValue, Unambiguous;
    ValueUnambiguous(s);
    if ParseValue(s).Some? {
      var t := SkipSpace(ParseValue(s).value.rest);
      if t != [] {
        ItemsUnambiguous(SkipSpace(t[1..]));
      }
    }
  }

  lemma {:induction false} ObjectUnambiguous(s: bytes)
    ensures ParseObject(s).Some? ==> Unambiguous(ParseObject(s).value.value)
    decreases |s|, 4
  {
    hide ParseMembers;
    MembersAre(SkipSpace(s));
  }

  lemma {:induction false} MemberUnambiguous(s: bytes)
    ensures ParseMember(s).Some? ==> Unambiguous(ParseMember(s).value.value.value)
    decreases |s|, 0
  {
    hide ParseValue, ParseString, Unambiguous;
    if s != [] && s[0] == QUOTE && ParseString(s[1..]).Some? {
      var t := SkipSpace(ParseString(s[1..]).value.rest);
      if t != [] {
        ValueUnambiguous(SkipSpace(t[1..]));
      }
    }
  }

  lemma {:induction false} MembersAre(s: bytes)
    ensures ParseMembers(s).Some? ==> MembersUnambiguous(ParseMembers(s).value.value)
    decreases |s|, 1
  {
    hide ParseMember, Unambiguous;
    MemberUnambiguous(s);
    if ParseMember(s).Some? {
      var t := SkipSpace(ParseMember(s).value.rest);
      if t != [] {
        MembersAre(SkipSpace(t[1..]));
      }
    }
  }

  /** So a text that repeats a name in an object, at whatever depth, stands for nothing. */
  lemma ParsedUnambiguous(s: bytes)
    ensures ParseText(s).Some? ==> Unambiguous(ParseText(s).value)
  {
    hide ParseValue, Unambiguous;
    ValueUnambiguous(SkipSpace(s));
  }

  /** `part` is the value itself or stands in it, at whatever depth. */
  predicate Holds(j: Json, part: Json)
  {
    || j == part
    || (j.Array? && exists i :: 0 <= i < |j.items| && Holds(j.items[i], part))
    || (j.Object? && exists i :: 0 <= i < |j.members| && Holds(j.members[i].value, part))
  }

  lemma {:induction false} PartUnambiguous(j: Json, part: Json)
    requires Unambiguous(j) && Holds(j, part)
    ensures Unambiguous(part)
  {
    if j != part {
      if j.Array? {
        var i :| 0 <= i < |j.items| && Holds(j.items[i], part);
        PartUnambiguous(j.items[i], part);
      } else {
        var i :| 0 <= i < |j.members| && Holds(j.members[i].value, part);
        PartUnambiguous(j.members[i].value, part);
      }
    }
  }
}
