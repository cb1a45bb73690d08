/** Quotation marks in markup: what is quoted, and which mark is open, said by the marks themselves. */
module Quotes {
  import opened Bytes

  /** An apostrophe or a quotation mark. */
  predicate Mark(c: byte) { c == 0x27 || c == 0x22 }

  /** A mark, anything without that mark, and the same mark again. */
  predicate Span(t: bytes)
  {
    |t| >= 2 && Mark(t[0]) && t[|t| - 1] == t[0] && t[0] !in t[1..|t| - 1]
  }

  /** Characters other than marks, and closed spans. */
  ghost predicate Balanced(t: bytes)
    decreases |t|
  {
    || t == []
    || (!Mark(t[0]) && Balanced(t[1..]))
    || exists k :: 0 < k <= |t| && Span(t[..k]) && Balanced(t[k..])
  }

  /** The mark `q` has been opened and not closed. */
  ghost predicate Open(t: bytes, q: byte)
  {
    Mark(q) && exists k :: 0 <= k < |t| && Balanced(t[..k]) && t[k] == q && q !in t[k + 1..]
  }

  /** Zero stands for no mark. */
  ghost predicate Ends(t: bytes, q: byte)
  {
    if q == 0 then Balanced(t) else Open(t, q)
  }

  // Going on by one character.

  lemma {:induction false} BalancedThen(a: bytes, b: bytes)
    requires Balanced(a) && Balanced(b)
    ensures Balanced(a + b)
    decreases |a|
  {
    hide Span;
    if a == [] {
      assert a + b == b;
    } else if !Mark(a[0]) && Balanced(a[1..]) {
      assert (a + b)[1..] == a[1..] + b;
      BalancedThen(a[1..], b);
    } else {
      var k :| 0 < k <= |a| && Span(a[..k]) && Balanced(a[k..]);
      assert (a + b)[..k] == a[..k] && (a + b)[k..] == a[k..] + b;
      BalancedThen(a[k..], b);
    }
  }

  lemma SpanBalanced(t: bytes)
    requires Span(t)
    ensures Balanced(t)
  {
    assert t[..|t|] == t && t[|t|..] == [];
  }

  lemma PlainMore(t: bytes, c: byte)
    requires Balanced(t) && !Mark(c)
    ensures Balanced(t + [c])
  {
    assert [c][1..] == [];
    BalancedThen(t, [c]);
  }

  lemma OpensNow(t: bytes, c: byte)
    requires Balanced(t) && Mark(c)
    ensures Open(t + [c], c)
  {
    assert (t + [c])[..|t|] == t && (t + [c])[|t|] == c;
  }

  lemma StaysOpen(t: bytes, q: byte, c: byte)
    requires Open(t, q) && c != q
    ensures Open(t + [c], q)
  {
    hide Balanced;
    var k :| 0 <= k < |t| && Balanced(t[..k]) && t[k] == q && q !in t[k + 1..];
    var more := t + [c];
    assert more[..k] == t[..k] && more[k + 1..] == t[k + 1..] + [c];
    assert more[k] == q;
  }

  lemma ClosesNow(t: bytes, q: byte)
    requires Open(t, q)
    ensures Balanced(t + [q])
  {
    hide Balanced;
    var k :| 0 <= k < |t| && Balanced(t[..k]) && t[k] == q && q !in t[k + 1..];
    var span := t[k..] + [q];
    assert span[1..|span| - 1] == t[k + 1..];
    SpanBalanced(span);
    BalancedThen(t[..k], span);
    assert t + [q] == t[..k] + span;
  }

  // Nothing ends in two ways.

  lemma PeelPlain(t: bytes, q: byte)
    requires t != [] && !Mark(t[0]) && Ends(t, q)
    ensures Ends(t[1..], q)
  {
    if q == 0 {
      assert forall k :: 0 < k <= |t| ==> t[..k][0] == t[0];
    } else {
      var k :| 0 <= k < |t| && Balanced(t[..k]) && t[k] == q && q !in t[k + 1..];
      PeelPlainBalanced(t[..k]);
      var u := t[1..];
      assert t[..k][1..] == u[..k - 1] && u[k - 1] == q && u[k..] == t[k + 1..];
    }
  }

  lemma PeelPlainBalanced(t: bytes)
    requires t != [] && !Mark(t[0]) && Balanced(t)
    ensures Balanced(t[1..])
  {
    assert forall k :: 0 < k <= |t| ==> t[..k][0] == t[0];
  }

  /** What follows the first span is balanced too. */
  lemma PeelBalanced(t: bytes, k: nat)
    requires 0 < k <= |t| && Span(t[..k]) && Balanced(t)
    ensures Balanced(t[k..])
  {
    var i :| 0 < i <= |t| && Span(t[..i]) && Balanced(t[i..]);
    SameSpan(t, i, k);
  }

  lemma SameSpan(t: bytes, i: nat, k: nat)
    requires 0 < i <= |t| && 0 < k <= |t| && Span(t[..i]) && Span(t[..k])
    ensures i == k
  {
    SpanIs(t, i);
    SpanIs(t, k);
  }

  lemma SpanIs(t: bytes, k: nat)
    requires 0 < k <= |t| && Span(t[..k])
    ensures k >= 2 && Mark(t[0]) && t[k - 1] == t[0] && forall m :: 1 <= m < k - 1 ==> t[m] != t[0]
  {
    forall m | 1 <= m < k - 1
      ensures t[m] != t[0]
    {
      assert t[..k][1..k - 1][m - 1] == t[m];
    }
  }

  lemma PeelSpan(t: bytes, k: nat, q: byte)
    requires 0 < k <= |t| && Span(t[..k]) && Ends(t, q)
    ensures Ends(t[k..], q)
  {
    hide Balanced, Span;
    if q == 0 {
      PeelBalanced(t, k);
    } else {
      var j :| 0 <= j < |t| && Balanced(t[..j]) && t[j] == q && q !in t[j + 1..];
      FirstSpan(t, k, j);
      assert t[..j][..k] == t[..k] && t[..j][k..] == t[k..][..j - k];
      PeelBalanced(t[..j], k);
      assert t[k..][j - k] == q && t[k..][j - k + 1..] == t[j + 1..];
    }
  }

  lemma FirstSpan(t: bytes, k: nat, j: nat)
    requires 0 < k <= |t| && Span(t[..k]) && j < |t| && Balanced(t[..j]) && t[j] !in t[j + 1..]
    ensures k <= j
  {
    SpanIs(t, k);
    assert t[1..][k - 2] == t[k - 1];
    if j > 0 {
      assert t[..j][0] == t[0];
      var i :| 0 < i <= j && Span(t[..j][..i]) && Balanced(t[..j][i..]);
      assert t[..j][..i] == t[..i];
      SameSpan(t, i, k);
    }
  }

  lemma PeelOpen(t: bytes, q: byte)
    requires t != [] && Mark(t[0]) && t[0] !in t[1..] && Ends(t, q)
    ensures q == t[0]
  {
    NoSpan(t, |t|);
    assert t[..|t|] == t;
    if q != 0 {
      var j :| 0 <= j < |t| && Balanced(t[..j]) && t[j] == q && q !in t[j + 1..];
      if j > 0 {
        NoSpan(t, j);
      }
    }
  }

  lemma NoSpan(t: bytes, j: nat)
    requires 0 < j <= |t| && Mark(t[0]) && t[0] !in t[1..]
    ensures !Balanced(t[..j])
  {
    assert t[..j][0] == t[0];
    forall i | 0 < i <= j
      ensures !Span(t[..j][..i])
    {
      assert t[..j][..i] == t[..i];
      NotSpan(t, i);
    }
  }

  lemma NotSpan(t: bytes, i: nat)
    requires 0 < i <= |t| && t[0] !in t[1..]
    ensures !Span(t[..i])
  {
    assert i >= 2 ==> t[1..][i - 2] == t[i - 1];
  }

  lemma FirstAgain(t: bytes) returns (k: nat)
    requires t != [] && t[0] in t[1..] && Mark(t[0])
    ensures 0 < k <= |t| && Span(t[..k])
  {
    k := 2;
    while t[k - 1] != t[0]
      invariant 2 <= k <= |t| && t[0] !in t[1..k - 1] && t[0] in t[k - 1..]
      decreases |t| - k
    {
      assert t[k - 1..] == [t[k - 1]] + t[k..];
      assert t[1..k] == t[1..k - 1] + [t[k - 1]];
      k := k + 1;
    }
    SpanAt(t, k);
  }

  lemma SpanAt(t: bytes, k: nat)
    requires 2 <= k <= |t| && Mark(t[0]) && t[k - 1] == t[0] && t[0] !in t[1..k - 1]
    ensures Span(t[..k])
  {
    assert t[..k][1..k - 1] == t[1..k - 1];
  }

  lemma {:induction false} OneEnd(t: bytes, q: byte, r: byte)
    requires Ends(t, q) && Ends(t, r)
    ensures q == r
    decreases |t|
  {
    if t == [] {
    } else if !Mark(t[0]) {
      PeelPlain(t, q);
      PeelPlain(t, r);
      OneEnd(t[1..], q, r);
    } else if t[0] in t[1..] {
      hide Balanced, Span;
      var k := FirstAgain(t);
      PeelSpan(t, k, q);
      PeelSpan(t, k, r);
      OneEnd(t[k..], q, r);
    } else {
      PeelOpen(t, q);
      PeelOpen(t, r);
    }
  }
}
