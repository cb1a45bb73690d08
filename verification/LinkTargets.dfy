/** Where permitted links lead in the restored tree. What is checked is how a target is spelled; what it resolves to
    also depends on the links it runs through. */
module LinkTargets {
  import opened Bytes
  import opened Host
  import opened HostStage
  import opened Lexical
  import opened Listing
  import opened Reassembly
  import opened Records
  import opened SecondPass
  import opened Validation
  import Paths

  /** At the top of the stage or below it. */
  predicate Within(p: Path, root: Path)
  {
    p == root || Paths.Below(p, root)
  }

  /** Resolving the rest of a path from a directory in the stage goes up from the top of the stage, or to an absolute
      place. */
  predicate Leaves(fs: Nodes, root: Path, d: Path, parts: seq<bytes>, links: nat)
    decreases links, |parts|
  {
    parts != [] && Searchable(fs, d)
    && var c, rest := parts[0], parts[1..];
       if c == [] || c == [Paths.DOT] then Leaves(fs, root, d, rest, links)
       else if c == DOTS then d == root || Leaves(fs, root, Above(d), rest, links)
       else if d + [c] !in fs then false
       else
         match fs[d + [c]]
         case Dir(_) => Leaves(fs, root, d + [c], rest, links)
         case File(_, _) => false
         case Link(target) =>
           && links != 0 && target != []
           && (target[0] == Paths.SEPARATOR || Leaves(fs, root, d, Paths.Split(target) + rest, links - 1))
  }

  /** It goes up from the top of the stage after it has run through a link. */
  predicate LeavesThrough(fs: Nodes, root: Path, d: Path, parts: seq<bytes>, links: nat, through: bool)
    decreases links, |parts|
  {
    parts != [] && Searchable(fs, d)
    && var c, rest := parts[0], parts[1..];
       if c == [] || c == [Paths.DOT] then LeavesThrough(fs, root, d, rest, links, through)
       else if c == DOTS then if d == root then through else LeavesThrough(fs, root, Above(d), rest, links, through)
       else if d + [c] !in fs then false
       else
         match fs[d + [c]]
         case Dir(_) => LeavesThrough(fs, root, d + [c], rest, links, through)
         case File(_, _) => false
         case Link(target) =>
           links != 0 && target != [] && LeavesThrough(fs, root, d, Paths.Split(target) + rest, links - 1, true)
  }

  /** No link in the stage is absolute. */
  ghost predicate AllRelative(fs: Nodes, root: Path)
  {
    forall q :: q in fs && Paths.Below(q, root) && fs[q].Link? && fs[q].target != []
      ==> fs[q].target[0] != Paths.SEPARATOR
  }

  lemma WithinNext(d: Path, root: Path, c: bytes)
    requires Within(d, root)
    ensures Paths.Below(d + [c], root) && (d != root ==> Within(Above(d), root))
  {
    if d == root {
      assert (d + [c])[..|root|] == root;
    } else {
      assert (d + [c])[..|root|] == d[..|root|];
      assert d[..|d| - 1][..|root|] == d[..|root|];
    }
  }

  /** What does not leave stays. */
  lemma {:induction false} StaysWithin(fs: Nodes, root: Path, d: Path, parts: seq<bytes>, links: nat)
    requires Within(d, root) && !Leaves(fs, root, d, parts, links) && Walk(fs, d, parts, true, links).Some?
    ensures Within(Walk(fs, d, parts, true, links).value, root)
    decreases links, |parts|
  {
    hide Searchable, Within, Paths.Split;
    if parts != [] {
      var c, rest := parts[0], parts[1..];
      WithinNext(d, root, c);
      WithinBelow(d + [c], root);
      if c == [] || c == [Paths.DOT] {
        StaysWithin(fs, root, d, rest, links);
      } else if c == DOTS {
        StaysWithin(fs, root, Above(d), rest, links);
      } else if d + [c] in fs && fs[d + [c]].Dir? {
        StaysWithin(fs, root, d + [c], rest, links);
      } else if d + [c] in fs && fs[d + [c]].Link? {
        StaysWithin(fs, root, d, Paths.Split(fs[d + [c]].target) + rest, links - 1);
      }
    }
  }

  lemma WithinBelow(p: Path, root: Path)
    ensures Paths.Below(p, root) ==> Within(p, root)
  {
  }

  /** Once through a link, every way up from the top counts. */
  lemma {:induction false} OnceThrough(fs: Nodes, root: Path, d: Path, parts: seq<bytes>, links: nat)
    requires Within(d, root) && AllRelative(fs, root)
    ensures Leaves(fs, root, d, parts, links) <==> LeavesThrough(fs, root, d, parts, links, true)
    decreases links, |parts|
  {
    hide Searchable, Within, Paths.Split, AllRelative;
    if parts != [] {
      var c, rest := parts[0], parts[1..];
      WithinNext(d, root, c);
      WithinBelow(d + [c], root);
      if c == [] || c == [Paths.DOT] {
        OnceThrough(fs, root, d, rest, links);
      } else if c == DOTS {
        if d != root {
          OnceThrough(fs, root, Above(d), rest, links);
        }
      } else if d + [c] in fs && fs[d + [c]].Dir? {
        OnceThrough(fs, root, d + [c], rest, links);
      } else if d + [c] in fs && fs[d + [c]].Link? && links != 0 && fs[d + [c]].target != [] {
        RelativeAt(fs, root, d + [c]);
        OnceThrough(fs, root, d, Paths.Split(fs[d + [c]].target) + rest, links - 1);
      }
    }
  }

  lemma RelativeAt(fs: Nodes, root: Path, q: Path)
    requires AllRelative(fs, root) && q in fs && Paths.Below(q, root) && fs[q].Link? && fs[q].target != []
    ensures fs[q].target[0] != Paths.SEPARATOR
  {
  }

  /** The first component of a target that stays below. */
  lemma StaysBelowFirst(depth: nat, parts: seq<bytes>)
    requires parts != [] && StaysBelow(depth, parts)
    ensures var step := if parts[0] == [] || parts[0] == [Paths.DOT] then 0 else if parts[0] == DOTS then -1 else 1;
            depth + step >= 0 && StaysBelow(depth + step, parts[1..])
  {
    hide Descent;
    var step := if parts[0] == [] || parts[0] == [Paths.DOT] then 0 else if parts[0] == DOTS then -1 else 1;
    NoDescent();
    forall k | 0 <= k <= |parts| - 1
      ensures depth + step + Descent(parts[1..][..k]) >= 0
    {
      assert parts[..k + 1] == [parts[0]] + parts[1..][..k];
      DescentCons(parts[0], parts[1..][..k]);
      assert depth + Descent(parts[..k + 1]) >= 0;
    }
    assert parts[1..][..0] == [];
  }

  /** What is spelled to stay below leaves exactly if it does so after it has run through a link. */
  lemma {:induction false} SpelledLeaves(fs: Nodes, root: Path, d: Path, parts: seq<bytes>, links: nat)
    requires Within(d, root) && AllRelative(fs, root) && StaysBelow(|d| - |root|, parts)
    ensures Leaves(fs, root, d, parts, links) <==> LeavesThrough(fs, root, d, parts, links, false)
    decreases links, |parts|
  {
    WithinDepth(d, root);
    hide Searchable, Within, Paths.Split, AllRelative, StaysBelow;
    if parts != [] {
      var c, rest := parts[0], parts[1..];
      WithinNext(d, root, c);
      WithinBelow(d + [c], root);
      StaysBelowFirst(|d| - |root|, parts);
      if c == [] || c == [Paths.DOT] {
        SpelledLeaves(fs, root, d, rest, links);
      } else if c == DOTS {
        SpelledLeaves(fs, root, Above(d), rest, links);
      } else if d + [c] in fs && fs[d + [c]].Dir? {
        SpelledLeaves(fs, root, d + [c], rest, links);
      } else if d + [c] in fs && fs[d + [c]].Link? && links != 0 && fs[d + [c]].target != [] {
        RelativeAt(fs, root, d + [c]);
        OnceThrough(fs, root, d, Paths.Split(fs[d + [c]].target) + rest, links - 1);
      }
    }
  }

  lemma WithinDepth(d: Path, root: Path)
    requires Within(d, root)
    ensures |d| >= |root| && (|d| == |root| ==> d == root)
  {
  }

  // Targets that climb first.

  predicate IsName(c: bytes)
  {
    c != [] && c != [Paths.DOT] && c != DOTS
  }

  /** No name comes before a way up. */
  predicate ClimbsFirst(parts: seq<bytes>)
  {
    forall i, j :: 0 <= i < j < |parts| && parts[j] == DOTS ==> !IsName(parts[i])
  }

  predicate NoClimb(parts: seq<bytes>)
  {
    DOTS !in parts
  }

  lemma {:induction false} DescentGrows(parts: seq<bytes>, more: seq<bytes>)
    requires NoClimb(more)
    ensures Descent(parts + more) >= Descent(parts)
    decreases |more|
  {
    if more == [] {
      assert parts + more == parts;
    } else {
      var n := |more| - 1;
      assert (parts + more)[..|parts + more| - 1] == parts + more[..n] && (parts + more)[|parts + more| - 1] == more[n];
      DescentGrows(parts, more[..n]);
    }
  }

  lemma StaysAppend(depth: nat, parts: seq<bytes>, more: seq<bytes>)
    requires StaysBelow(depth, parts) && ClimbsFirst(parts) && NoClimb(more)
    ensures StaysBelow(depth, parts + more) && ClimbsFirst(parts + more)
  {
    hide Descent;
    var all := parts + more;
    forall k | 0 <= k <= |all|
      ensures depth + Descent(all[..k]) >= 0
    {
      if k <= |parts| {
        assert all[..k] == parts[..k];
      } else {
        assert all[..k] == parts + more[..k - |parts|] && parts[..|parts|] == parts;
        DescentGrows(parts, more[..k - |parts|]);
      }
    }
  }

  /** Every link in the stage is relative, stays below from where it is, and climbs first. */
  ghost predicate AllClimbFirst(fs: Nodes, root: Path)
  {
    forall q :: q in fs && Paths.Below(q, root) && fs[q].Link? ==> ClimbingLink(fs[q].target, |q| - |root| - 1)
  }

  predicate ClimbingLink(target: bytes, depth: nat)
  {
    && target != [] && target[0] != Paths.SEPARATOR
    && StaysBelow(depth, Paths.Split(target)) && ClimbsFirst(Paths.Split(target))
  }

  lemma {:induction false} ClimbersStay(fs: Nodes, root: Path, d: Path, parts: seq<bytes>, links: nat)
    requires Within(d, root) && AllClimbFirst(fs, root) && StaysBelow(|d| - |root|, parts) && ClimbsFirst(parts)
    ensures !Leaves(fs, root, d, parts, links)
    decreases links, |parts|
  {
    WithinDepth(d, root);
    hide Searchable, Within, Paths.Split, AllClimbFirst, StaysBelow, ClimbsFirst;
    if parts != [] {
      var c, rest := parts[0], parts[1..];
      WithinNext(d, root, c);
      WithinBelow(d + [c], root);
      StaysBelowFirst(|d| - |root|, parts);
      RestClimbsFirst(parts);
      if c == [] || c == [Paths.DOT] {
        ClimbersStay(fs, root, d, rest, links);
      } else if c == DOTS {
        ClimbersStay(fs, root, Above(d), rest, links);
      } else if d + [c] in fs && fs[d + [c]].Dir? {
        ClimbersStay(fs, root, d + [c], rest, links);
      } else if d + [c] in fs && fs[d + [c]].Link? && links != 0 {
        ClimbingAt(fs, root, d + [c]);
        var target := Paths.Split(fs[d + [c]].target);
        StaysAppend(|d| - |root|, target, rest);
        ClimbersStay(fs, root, d, target + rest, links - 1);
      }
    }
  }

  lemma RestClimbsFirst(parts: seq<bytes>)
    requires parts != [] && ClimbsFirst(parts)
    ensures ClimbsFirst(parts[1..]) && (IsName(parts[0]) ==> NoClimb(parts[1..]))
  {
    assert forall j :: 0 <= j < |parts| - 1 ==> parts[1..][j] == parts[j + 1];
  }

  lemma ClimbingAt(fs: Nodes, root: Path, q: Path)
    requires AllClimbFirst(fs, root) && q in fs && Paths.Below(q, root) && fs[q].Link?
    ensures ClimbingLink(fs[q].target, |q| - |root| - 1)
  {
  }

  // The restored tree.

  /** Following a link that is listed, in a file system. */
  predicate LinkLeaves(fs: Nodes, root: Path, a: Artifact)
    requires a.target.Some? && a.components != []
  {
    Leaves(fs, root, root + Above(a.components), Paths.Split(a.target.value), MOST_LINKS - 1)
  }

  predicate LinkLeavesThrough(fs: Nodes, root: Path, a: Artifact)
    requires a.target.Some? && a.components != []
  {
    LeavesThrough(fs, root, root + Above(a.components), Paths.Split(a.target.value), MOST_LINKS - 1, false)
  }

  /** Links in a restored stage are the listed ones. */
  lemma LinkIsListed(fs: Nodes, root: Path, all: seq<Artifact>, special: bool, q: Path) returns (i: nat)
    requires ListRestored(Inside(fs, root), all, special) && q in fs && Paths.Below(q, root) && fs[q].Link?
    ensures i < |all| && all[i].fileType == Symlink && q == root + all[i].components
    ensures fs[q] == Link(if all[i].target.Some? then all[i].target.value else [])
  {
    var p := q[|root|..];
    assert q == root + p;
    hide Inside, AboveOf, Masked, Paths.Below;
    InsideAt(fs, root, p);
    i :| 0 <= i < |all| && all[i].components == p;
    assert Restored(Inside(fs, root)[p], all[i], special);
  }

  lemma RestoredIsRelative(fs: Nodes, root: Path, all: seq<Artifact>, special: bool)
    requires ListRestored(Inside(fs, root), all, special) && LinksSafe(all)
    ensures AllRelative(fs, root)
  {
    hide Inside, ListRestored, StaysBelow, Paths.Split;
    forall q | q in fs && Paths.Below(q, root) && fs[q].Link? && fs[q].target != []
      ensures fs[q].target[0] != Paths.SEPARATOR
    {
      var i := LinkIsListed(fs, root, all, special, q);
      assert SafeLink(all[i]);
    }
  }

  lemma StartWithin(root: Path, path: Path)
    requires path != []
    ensures Within(root + Above(path), root) && |root + Above(path)| - |root| == |path| - 1
  {
    var d := root + Above(path);
    assert d[..|root|] == root;
    if |path| == 1 {
      assert d == root;
    }
  }

  /** Where a permitted link leads out of the restored tree: exactly if its target goes up from the top of the tree
      after it has run through another listed link. */
  lemma PermittedLeavesIff(fs: Nodes, root: Path, all: seq<Artifact>, special: bool, i: nat)
    requires ListRestored(Inside(fs, root), all, special) && LinksSafe(all) && i < |all| && all[i].fileType == Symlink
    ensures all[i].target.Some? && all[i].components != []
    ensures LinkLeaves(fs, root, all[i]) <==> LinkLeavesThrough(fs, root, all[i])
  {
    RestoredIsRelative(fs, root, all, special);
    assert SafeLink(all[i]);
    hide ListRestored, Inside, StaysBelow, Paths.Split, Leaves, LeavesThrough, Within, AllRelative;
    StartWithin(root, all[i].components);
    SpelledLeaves(fs, root, root + Above(all[i].components), Paths.Split(all[i].target.value), MOST_LINKS - 1);
  }

  /** Otherwise what it leads to, if anything, is in the tree. */
  lemma PermittedStays(fs: Nodes, root: Path, all: seq<Artifact>, special: bool, i: nat)
    requires ListRestored(Inside(fs, root), all, special) && LinksSafe(all) && i < |all| && all[i].fileType == Symlink
    requires all[i].target.Some? && all[i].components != [] && !LinkLeavesThrough(fs, root, all[i])
    ensures var p := Walk(fs, root + Above(all[i].components), Paths.Split(all[i].target.value), true, MOST_LINKS - 1);
            p.Some? ==> Within(p.value, root)
  {
    hide ListRestored, Inside, StaysBelow, Paths.Split, Leaves, LeavesThrough, Within, SafeLink, Walk;
    PermittedLeavesIff(fs, root, all, special, i);
    StartWithin(root, all[i].components);
    var d, parts := root + Above(all[i].components), Paths.Split(all[i].target.value);
    if Walk(fs, d, parts, true, MOST_LINKS - 1).Some? {
      StaysWithin(fs, root, d, parts, MOST_LINKS - 1);
    }
  }

  /** What a caller can see from the list: every target climbs first. */
  predicate TargetsClimbFirst(all: seq<Artifact>)
  {
    forall i :: 0 <= i < |all| && all[i].fileType == Symlink && all[i].target.Some? ==>
      ClimbsFirst(Paths.Split(all[i].target.value))
  }

  lemma RestoredClimbs(fs: Nodes, root: Path, all: seq<Artifact>, special: bool)
    requires ListRestored(Inside(fs, root), all, special) && LinksSafe(all) && TargetsClimbFirst(all)
    ensures AllClimbFirst(fs, root)
  {
    hide Inside, ListRestored, StaysBelow, Paths.Split, ClimbsFirst;
    forall q | q in fs && Paths.Below(q, root) && fs[q].Link?
      ensures ClimbingLink(fs[q].target, |q| - |root| - 1)
    {
      var i := LinkIsListed(fs, root, all, special, q);
      assert SafeLink(all[i]);
    }
  }

  /** Then no permitted link leads out. */
  lemma PermittedClimbersStay(fs: Nodes, root: Path, all: seq<Artifact>, special: bool, i: nat)
    requires ListRestored(Inside(fs, root), all, special) && LinksSafe(all) && TargetsClimbFirst(all)
    requires i < |all| && all[i].fileType == Symlink
    ensures all[i].target.Some? && all[i].components != [] && !LinkLeaves(fs, root, all[i])
  {
    RestoredClimbs(fs, root, all, special);
    assert SafeLink(all[i]);
    hide ListRestored, Inside, StaysBelow, Paths.Split, Leaves, Within, AllClimbFirst, ClimbsFirst;
    StartWithin(root, all[i].components);
    ClimbersStay(fs, root, root + Above(all[i].components), Paths.Split(all[i].target.value), MOST_LINKS - 1);
  }
}
