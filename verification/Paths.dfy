/** Root-relative byte paths: splitting, the consumer's check and the order of the export. */
module Paths {
  import opened Bytes

  const SEPARATOR: byte := 0x2f
  const DOT: byte := 0x2e
  const NUL: byte := 0

  /** Components between separators; always at least one, possibly empty ones. */
  function Split(path: bytes): (r: seq<bytes>)
    ensures |r| >= 1
    ensures forall c :: c in r ==> SEPARATOR !in c
  {
    if path == [] then [[]]
    else if path[0] == SEPARATOR then [[]] + Split(path[1..])
    else
      var rest := Split(path[1..]);
      [[path[0]] + rest[0]] + rest[1..]
  }

  function Join(components: seq<bytes>): (r: bytes)
    requires components != []
  {
    if |components| == 1 then components[0]
    else components[0] + [0x2f] + Join(components[1..])
  }

  lemma {:induction false} JoinSplit(path: bytes)
    ensures Join(Split(path)) == path
  {
    if path != [] {
      JoinSplit(path[1..]);
      var rest := Split(path[1..]);
      if path[0] == SEPARATOR {
        assert Split(path)[1..] == rest;
      } else {
        assert Split(path)[1..] == rest[1..];
      }
    }
  }

  lemma {:induction false} SplitPrepend(c: bytes, path: bytes)
    requires SEPARATOR !in c
    ensures Split(c + path) == [c + Split(path)[0]] + Split(path)[1..]
  {
    if c == [] {
      assert c + path == path && c + Split(path)[0] == Split(path)[0];
    } else {
      assert (c + path)[1..] == c[1..] + path;
      SplitPrepend(c[1..], path);
      assert [c[0]] + (c[1..] + Split(path)[0]) == c + Split(path)[0];
    }
  }

  lemma {:induction false} SplitJoin(components: seq<bytes>)
    requires components != [] && forall c :: c in components ==> SEPARATOR !in c
    ensures Split(Join(components)) == components
  {
    var c := components[0];
    if |components| == 1 {
      SplitPrepend(c, []);
      assert c + [] == c;
    } else {
      var rest := components[1..];
      SplitJoin(rest);
      var tail := [SEPARATOR] + Join(rest);
      assert tail[1..] == Join(rest);
      assert c + [SEPARATOR] + Join(rest) == c + tail;
      SplitPrepend(c, tail);
      assert c + [] == c;
    }
  }

  /** A component that names a directory entry and does not traverse. */
  predicate NormalComponent(c: bytes)
  {
    c != [] && c != [0x2e] && c != [0x2e, 0x2e] && 0x2f !in c && 0 !in c
  }

  predicate NormalComponents(components: seq<bytes>)
  {
    components != [] && forall c :: c in components ==> NormalComponent(c)
  }

  /** The consumer's path check; the components when it passes. */
  function RelativePath(path: bytes, allowTrailingSeparator: bool): (r: Option<seq<bytes>>)
  {
    if path == [] || NUL in path || path[0] == SEPARATOR then None
    else
      var normalized :=
        if allowTrailingSeparator && path[|path| - 1] == SEPARATOR then path[..|path| - 1] else path;
      var components := Split(normalized);
      if exists c :: c in components && (c == [] || c == [DOT] || c == [DOT, DOT]) then None
      else Some(components)
  }

  lemma {:induction false} JoinFacts(components: seq<bytes>)
    requires NormalComponents(components)
    ensures Join(components) != [] && NUL !in Join(components) && Join(components)[0] != SEPARATOR
    ensures Join(components)[|Join(components)| - 1] != SEPARATOR
  {
    var c := components[0];
    assert NormalComponent(c);
    if |components| > 1 {
      assert forall d :: d in components[1..] ==> d in components;
      JoinFacts(components[1..]);
      var rest := Join(components[1..]);
      assert Join(components) == c + [SEPARATOR] + rest;
      assert Join(components)[|Join(components)| - 1] == rest[|rest| - 1];
    }
  }

  lemma {:induction false} SplitWithoutNul(path: bytes)
    requires NUL !in path
    ensures forall c :: c in Split(path) ==> NUL !in c
  {
    if path != [] {
      SplitWithoutNul(path[1..]);
    }
  }

  /** The check passes exactly for normalised relative paths, spelled with or without a final separator. */
  lemma RelativePathIs(path: bytes, trailing: bool, components: seq<bytes>)
    ensures RelativePath(path, trailing) == Some(components) <==>
            NormalComponents(components)
            && (path == Join(components) || (trailing && path == Join(components) + [SEPARATOR]))
  {
    if RelativePath(path, trailing) == Some(components) {
      var normalized := if trailing && path[|path| - 1] == SEPARATOR then path[..|path| - 1] else path;
      JoinSplit(normalized);
      SplitWithoutNul(normalized);
    }
    if NormalComponents(components)
       && (path == Join(components) || (trailing && path == Join(components) + [SEPARATOR])) {
      JoinFacts(components);
      SplitJoin(components);
      var normalized := if trailing && path[|path| - 1] == SEPARATOR then path[..|path| - 1] else path;
      assert normalized == Join(components);
    }
  }

  /** `inner` lies strictly below the directory `outer`. */
  predicate Below(inner: seq<bytes>, outer: seq<bytes>)
  {
    |outer| < |inner| && inner[..|outer|] == outer
  }

  lemma {:induction false} JoinAppend(left: seq<bytes>, right: seq<bytes>)
    requires left != [] && right != []
    ensures Join(left + right) == Join(left) + [SEPARATOR] + Join(right)
  {
    if |left| == 1 {
      assert (left + right)[1..] == right;
    } else {
      assert (left + right)[1..] == left[1..] + right;
      JoinAppend(left[1..], right);
    }
  }

  /** Bytewise order puts a directory before everything below it, however either path is spelled. */
  lemma DirectoryBeforeContents(outer: seq<bytes>, inner: seq<bytes>, outerPath: bytes, innerPath: bytes)
    requires NormalComponents(outer) && NormalComponents(inner) && Below(inner, outer)
    requires outerPath == Join(outer) || outerPath == Join(outer) + [SEPARATOR]
    requires innerPath == Join(inner) || innerPath == Join(inner) + [SEPARATOR]
    ensures Less(outerPath, innerPath)
  {
    var rest := inner[|outer|..];
    assert inner == outer + rest;
    JoinAppend(outer, rest);
    assert forall c :: c in rest ==> c in inner;
    JoinFacts(rest);
    var tail := innerPath[|outerPath|..];
    assert innerPath == outerPath + tail;
    PrefixLess(outerPath, tail);
  }
}
