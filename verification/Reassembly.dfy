/** Rebuilding the tree: the consumer's second pass over the records of an accepted stream, on a real file system. */
module Reassembly {
  import opened Bytes
  import opened Host
  import opened Lexical
  import opened Records
  import opened Validation
  import Consumer
  import Paths
  import Production

  // Symbolic links.

  /** Follows a relative target component by component; nothing when it climbs above the root. */
  function Climb(combined: Path, parts: seq<bytes>): Option<Path>
    decreases |parts|
  {
    if parts == [] then Some(combined)
    else if parts[0] == [] || parts[0] == [Paths.DOT] then Climb(combined, parts[1..])
    else if parts[0] == DOTS then
      if combined == [] then None else Climb(combined[..|combined| - 1], parts[1..])
    else Climb(combined + [parts[0]], parts[1..])
  }

  /** How far below its start a relative path is after some components. */
  function Descent(parts: seq<bytes>): int
  {
    if parts == [] then 0
    else
      var last := parts[|parts| - 1];
      Descent(parts[..|parts| - 1])
      + if last == [] || last == [Paths.DOT] then 0 else if last == DOTS then -1 else 1
  }

  lemma {:induction false} DescentCons(first: bytes, rest: seq<bytes>)
    ensures Descent([first] + rest) ==
            Descent(rest) + if first == [] || first == [Paths.DOT] then 0 else if first == DOTS then -1 else 1
    decreases |rest|
  {
    var whole := [first] + rest;
    if rest == [] {
      assert whole[..0] == [];
    } else {
      assert whole[..|whole| - 1] == [first] + rest[..|rest| - 1];
      DescentCons(first, rest[..|rest| - 1]);
    }
  }

  /** No prefix of the target is above the root. */
  predicate StaysBelow(depth: nat, parts: seq<bytes>)
  {
    forall k :: 0 <= k <= |parts| ==> depth + Descent(parts[..k]) >= 0
  }

  /** Climbing succeeds exactly when no prefix of the target leaves the root. */
  lemma {:induction false} ClimbIs(combined: Path, parts: seq<bytes>)
    ensures Climb(combined, parts).Some? <==> StaysBelow(|combined|, parts)
    decreases |parts|
  {
    hide Descent;
    NoDescent();
    if parts != [] {
      var rest := parts[1..];
      var step := if parts[0] == [] || parts[0] == [Paths.DOT] then 0 else if parts[0] == DOTS then -1 else 1;
      forall k | 0 <= k <= |rest|
        ensures Descent(parts[..k + 1]) == Descent(rest[..k]) + step
      {
        assert parts[..k + 1] == [parts[0]] + rest[..k];
        DescentCons(parts[0], rest[..k]);
      }
      assert rest[..0] == [] && parts[..0] == [];
      var depth: int := |combined| + step;
      if depth >= 0 {
        var next := if step == 0 then combined else if step == 1 then combined + [parts[0]]
          else combined[..|combined| - 1];
        ClimbIs(next, rest);
        StaysBelowStep(|combined|, depth, parts, step);
      } else {
        assert parts[..1] == [parts[0]] + rest[..0];
        assert Descent(parts[..1]) == step;
      }
    }
  }

  lemma NoDescent()
    ensures Descent([]) == 0
  {
  }

  lemma StaysBelowStep(depth: nat, next: nat, parts: seq<bytes>, step: int)
    requires parts != [] && next == depth + step
    requires forall k :: 0 <= k <= |parts| - 1 ==> Descent(parts[..k + 1]) == Descent(parts[1..][..k]) + step
    ensures StaysBelow(depth, parts) <==> StaysBelow(next, parts[1..])
  {
    hide Descent;
    NoDescent();
    var rest := parts[1..];
    assert parts[..0] == [];
    if StaysBelow(next, rest) {
      forall k | 0 <= k <= |parts|
        ensures depth + Descent(parts[..k]) >= 0
      {
        if k > 0 {
          assert Descent(parts[..k - 1 + 1]) == Descent(rest[..k - 1]) + step;
        }
      }
    }
    if StaysBelow(depth, parts) {
      forall k | 0 <= k <= |rest|
        ensures next + Descent(rest[..k]) >= 0
      {
        assert depth + Descent(parts[..k + 1]) >= 0;
      }
    }
  }

  /** Where a link lies, and what it says, stays inside the output. */
  predicate SafeLink(a: Artifact)
  {
    a.target.Some? && a.target.value != [] && a.target.value[0] != Paths.SEPARATOR
    && a.components != []
    && StaysBelow(|a.components| - 1, Paths.Split(a.target.value))
  }

  /** `safe_symlink_target`. */
  method SafeSymlinkTarget(a: Artifact) returns (safe: bool)
    requires a.target.Some? && a.components != []
    ensures safe <==> SafeLink(a)
  {
    hide StaysBelow, Descent;
    var target := a.target.value;
    if target == [] || target[0] == Paths.SEPARATOR {
      return false;
    }
    var combined: Path := a.components[..|a.components| - 1];
    var parts := Paths.Split(target);
    ClimbIs(combined, parts);
    assert parts[0..] == parts;
    for i := 0 to |parts|
      invariant Climb(combined, parts[i..]).Some? <==> StaysBelow(|a.components| - 1, parts)
    {
      var component := parts[i];
      assert parts[i..][0] == component && parts[i..][1..] == parts[i + 1..];
      if component == [] || component == [Paths.DOT] {
        continue;
      }
      if component == DOTS {
        if combined == [] {
          return false;
        }
        combined := combined[..|combined| - 1];
      } else {
        combined := combined + [component];
      }
    }
    assert parts[|parts|..] == [];
    return true;
  }

  // The staging directory and the second pass.

  class Stage {
    const root: Path
    /** The whole file system, by paths from its own root. */
    var fs: Nodes
    var open: Option<Path>
    var active: Option<int>
    var directories: seq<(Path, int)>

    function Value(): Build
      reads this
    {
      Build(fs, open, active, directories)
    }

    constructor (host: Nodes, root: Path)
      ensures this.root == root && Value() == StartOn(host, root)
    {
      this.root, fs, open, active, directories := root, WithStage(host, root), None, None, [];
    }

    /** `os.makedirs` for the directory above a path. */
    method MakeParents(path: Path) returns (ok: bool)
      modifies this`fs
      ensures ok == ParentsOf(old(fs), root, path).Some?
      ensures ok ==> fs == ParentsOf(old(fs), root, path).value
    {
      if path == [] {
        return true;
      }
      hide Place, LeadsToDirectory;
      for n := 1 to |path|
        invariant Host.MakeParents(old(fs), root, path, n - 1) == Some(fs)
      {
        var p := Place(fs, root, path[..n]);
        if p.Some? {
          fs := fs[p.value := NewParent(path, n)];
        } else if !LeadsToDirectory(fs, root, path[..n]) {
          Blocked(old(fs), root, path, n, |path| - 1);
          return false;
        }
      }
      return true;
    }

    /** The start of a group: the place is made, whatever is there already is refused. */
    method Begin(a: Artifact) returns (ok: bool)
      requires a.fileType == Symlink ==> a.target.Some?
      modifies this
      ensures ok == HostBegin(old(Value()), a, root).Some?
      ensures ok ==> Value() == HostBegin(old(Value()), a, root).value
    {
      hide ParentsOf, Place;
      active := Some(a.id);
      ok := MakeParents(a.components);
      if !ok {
        return false;
      }
      var p := Place(fs, root, a.components);
      if p.None? {
        return false;
      }
      match a.fileType {
        case Directory =>
          fs := fs[p.value := Dir(PRIVATE_DIRECTORY)];
          directories := directories + [(a.components, a.mode)];
        case Regular =>
          fs := fs[p.value := File([], PRIVATE_FILE)];
          open := p;
        case Symlink =>
          fs := fs[p.value := Link(a.target.value)];
      }
    }

    /** `_write_all`: the system may take less than it is given, but not nothing. */
    method WriteAll(data: bytes, taken: nat -> nat) returns (ok: bool)
      requires open.Some? && open.value in fs && fs[open.value].File?
      modifies this`fs
      ensures ok ==> fs == old(fs)[open.value := File(old(fs[open.value]).content + data,
                                                            old(fs[open.value]).mode)]
      ensures (forall n :: taken(n) > 0) ==> ok
    {
      var path := open.value;
      ghost var before := fs[path];
      var offset := 0;
      assert before.content + data[..0] == before.content;
      while offset < |data|
        invariant offset <= |data|
        invariant fs == old(fs)[path := File(before.content + data[..offset], before.mode)]
      {
        var written := if taken(offset) < |data| - offset then taken(offset) else |data| - offset;
        if written == 0 {
          return false;
        }
        var f := fs[path];
        assert before.content + data[..offset] + data[offset..offset + written] ==
               before.content + data[..offset + written];
        fs := fs[path := File(f.content + data[offset..offset + written], f.mode)];
        offset := offset + written;
      }
      assert data[..offset] == data;
      return true;
    }

    method Chunk(id: int, data: bytes, taken: nat -> nat) returns (ok: bool)
      modifies this`fs
      ensures ok ==> BuildChunk(old(Value()), id, data) == Some(Value())
      ensures (forall n :: taken(n) > 0) ==> ok == BuildChunk(old(Value()), id, data).Some?
    {
      if open.None? || active != Some(id) || open.value !in fs || !fs[open.value].File? {
        return false;
      }
      ok := WriteAll(data, taken);
    }

    method End(a: Artifact, special: bool) returns (ok: bool)
      modifies this
      ensures ok == BuildEnd(old(Value()), a, special).Some?
      ensures ok ==> Value() == BuildEnd(old(Value()), a, special).value
    {
      if open.Some? {
        if open.value !in fs || !fs[open.value].File? {
          return false;
        }
        fs := fs[open.value := File(fs[open.value].content, Masked(a.mode, special))];
        open := None;
      }
      active := None;
      return true;
    }

    /** One line of the second pass. */
    method Take(r: Record, artifacts: seq<Artifact>, special: bool, taken: nat -> nat) returns (ok: bool)
      requires forall i :: 0 <= i < |artifacts| && artifacts[i].fileType == Symlink ==> artifacts[i].target.Some?
      modifies this
      ensures ok ==> HostStep(old(Value()), r, artifacts, special, root) == Some(Value())
      ensures (forall n :: taken(n) > 0) ==> ok == HostStep(old(Value()), r, artifacts, special, root).Some?
    {
      hide HostBegin, BuildChunk, BuildEnd;
      match r {
        case ArtifactBegin(id, _, _, _, _, _, _) =>
          var a := ById(artifacts, id);
          if a.None? { return false; }
          ok := Begin(a.value);
        case ArtifactChunk(id, _, data) =>
          ok := Chunk(id, data, taken);
        case ArtifactEnd(id, _, _, _) =>
          var a := ById(artifacts, id);
          if a.None? { return false; }
          ok := End(a.value, special);
        case _ =>
          ok := true;
      }
    }

    /** The directory modes, in the given order. */
    method SetModes(due: seq<(Path, int)>, special: bool) returns (ok: bool)
      modifies this`fs
      ensures ok == HostModes(old(fs), root, due, special).Some?
      ensures ok ==> fs == HostModes(old(fs), root, due, special).value
    {
      hide HostMode;
      assert due[0..] == due;
      for i := 0 to |due|
        invariant HostModes(old(fs), root, due, special) == HostModes(fs, root, due[i..], special)
      {
        assert due[i..][0] == due[i] && due[i..][1..] == due[i + 1..];
        var next := HostMode(fs, root, due[i].0, Masked(due[i].1, special));
        if next.None? {
          return false;
        }
        fs := next.value;
      }
      assert due[|due|..] == [];
      return true;
    }
  }

  /** Once something is in the way, everything below it is out of reach. */
  lemma {:induction false} Blocked(fs: Nodes, root: Path, path: Path, n: nat, k: nat)
    requires 0 < n <= k < |path| && Host.MakeParents(fs, root, path, n).None?
    ensures Host.MakeParents(fs, root, path, k).None?
  {
    if n < k {
      Blocked(fs, root, path, n, k - 1);
    }
  }

  /** Puts a directory in front of the first one that is less deep. */
  method InsertByDepth(due: seq<(Path, int)>, d: (Path, int)) returns (r: seq<(Path, int)>)
    requires DeepestFirst(due)
    ensures DeepestFirst(r) && multiset(r) == multiset(due) + multiset{d}
  {
    hide DeepestFirst;
    var p := |due|;
    while p > 0 && |due[p - 1].0| < |d.0|
      invariant 0 <= p <= |due|
      invariant forall j :: p <= j < |due| ==> |due[j].0| < |d.0|
    {
      p := p - 1;
    }
    r := due[..p] + [d] + due[p..];
    assert due == due[..p] + due[p..];
    forall j | 0 <= j < p
      ensures |due[j].0| >= |d.0|
    {
      DeeperBefore(due, j, p - 1);
    }
    InsertedByDepth(due, d, p);
  }

  lemma DeeperBefore(due: seq<(Path, int)>, i: nat, j: nat)
    requires DeepestFirst(due) && i <= j < |due|
    ensures |due[i].0| >= |due[j].0|
  {
  }

  lemma InsertedByDepth(due: seq<(Path, int)>, d: (Path, int), p: nat)
    requires DeepestFirst(due) && p <= |due|
    requires forall j :: 0 <= j < p ==> |due[j].0| >= |d.0|
    requires forall j :: p <= j < |due| ==> |due[j].0| < |d.0|
    ensures DeepestFirst(due[..p] + [d] + due[p..])
  {
    var r := due[..p] + [d] + due[p..];
    forall i, j | 0 <= i < j < |r|
      ensures |r[i].0| >= |r[j].0|
    {
      assert j > p ==> r[j] == due[j - 1];
      assert i > p ==> r[i] == due[i - 1];
    }
  }

  method SortByDepth(directories: seq<(Path, int)>) returns (due: seq<(Path, int)>)
    ensures DeepestFirst(due) && multiset(due) == multiset(directories)
  {
    hide DeepestFirst;
    due := [];
    NothingDue();
    for i := 0 to |directories|
      invariant DeepestFirst(due) && multiset(due) == multiset(directories[..i])
    {
      assert directories[..i + 1] == directories[..i] + [directories[i]];
      due := InsertByDepth(due, directories[i]);
    }
    assert directories[..|directories|] == directories;
  }

  lemma NothingDue()
    ensures DeepestFirst([])
  {
  }

  predicate HasLinks(artifacts: seq<Artifact>)
  {
    exists i :: 0 <= i < |artifacts| && artifacts[i].fileType == Symlink
  }

  predicate LinksSafe(artifacts: seq<Artifact>)
  {
    forall i :: 0 <= i < |artifacts| && artifacts[i].fileType == Symlink ==> SafeLink(artifacts[i])
  }

  /** What `reassemble` asks for before it touches anything. */
  predicate Permitted(summary: Consumer.Summary, outputExists: bool, allowSymlinks: bool)
  {
    && summary.command == Extract && summary.success && !outputExists
    && (HasLinks(summary.artifacts) ==> allowSymlinks) && LinksSafe(summary.artifacts)
  }

  /** Artifacts as the validator lists them. */
  predicate WellListed(artifacts: seq<Artifact>)
  {
    forall i :: 0 <= i < |artifacts| ==>
      artifacts[i].components != [] && (artifacts[i].fileType == Symlink ==> artifacts[i].target.Some?)
  }

  /** What comes of it when the writes go through: the second pass on a new staging directory, and the directory
      modes. */
  ghost predicate Rebuilt(lines: seq<Line>, artifacts: seq<Artifact>, special: bool, host: Nodes, root: Path,
                          result: Option<Nodes>)
  {
    var b := HostRun(StartOn(host, root), Production.RecordsOf(lines), artifacts, special, root);
    if b.Some? then HostModesSet(b.value, special, root, result) else result.None?
  }

  /** `reassemble`: the checks, the second pass, then the directory modes, deepest first. The result is the file system
      with the staging directory as it is renamed. */
  method Reassemble(summary: Consumer.Summary, lines: seq<Line>, outputExists: bool, allowSymlinks: bool, special: bool,
                    host: Nodes, root: Path, taken: nat -> nat)
    returns (result: Option<Nodes>)
    requires WellListed(summary.artifacts)
    ensures result.Some? ==>
              && Permitted(summary, outputExists, allowSymlinks)
              && Rebuilt(lines, summary.artifacts, special, host, root, result)
    ensures (forall n :: taken(n) > 0) ==>
              if Permitted(summary, outputExists, allowSymlinks)
              then Rebuilt(lines, summary.artifacts, special, host, root, result) else result.None?
  {
    hide SafeLink, HostStep, DeepestFirst, HostModes;
    if summary.command != Extract || !summary.success || outputExists {
      return None;
    }
    for i := 0 to |summary.artifacts|
      invariant forall j :: 0 <= j < i && summary.artifacts[j].fileType == Symlink ==>
                  allowSymlinks && SafeLink(summary.artifacts[j])
    {
      if summary.artifacts[i].fileType == Symlink {
        if !allowSymlinks {
          return None;
        }
        var safe := SafeSymlinkTarget(summary.artifacts[i]);
        if !safe {
          return None;
        }
      }
    }
    var stage := new Stage(host, root);
    ghost var rs := Production.RecordsOf(lines);
    assert rs[0..] == rs;
    for i := 0 to |lines|
      invariant HostRun(StartOn(host, root), rs, summary.artifacts, special, root) ==
                HostRun(stage.Value(), rs[i..], summary.artifacts, special, root)
    {
      assert rs[i..][0] == lines[i].record && rs[i..][1..] == rs[i + 1..];
      var ok := stage.Take(lines[i].record, summary.artifacts, special, taken);
      if !ok {
        return None;
      }
    }
    assert rs[|lines|..] == [];
    ghost var b := stage.Value();
    assert HostRun(StartOn(host, root), rs, summary.artifacts, special, root) == Some(b);
    var due := SortByDepth(stage.directories);
    var ok := stage.SetModes(due, special);
    result := if ok then Some(stage.fs) else None;
    assert result == HostModes(b.nodes, root, due, special);
    assert HostModesSet(b, special, root, result);
  }
}
