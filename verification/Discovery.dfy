/** Which places of the tree belong to a module: enumeration, bytewise order, no place twice. */
module Discovery {
  import opened Artifacts
  import opened Bytes
  import opened Codes
  import opened JsonText
  import opened Records
  import Paths

  /** What the file system says about the module's data path. */
  datatype DataPath =
    | Missing
    | Escaping
    | Found(components: seq<bytes>, trailing: bool, isDirectory: bool, children: seq<seq<bytes>>, complete: bool)
    | Absent(parent: seq<bytes>, prefix: bytes, names: seq<bytes>, complete: bool)

  /** What discovery is told: whether the root resolves, the configuration files, the data path. */
  datatype Disk = Disk(rootValid: bool, configurations: seq<Option<seq<bytes>>>, data: DataPath)

  datatype Role = Configuration | ModuleData | ModuleDataPrefix

  function RoleText(r: Role): bytes
  {
    match r
    case Configuration => Text("configuration")
    case ModuleData => Text("module_data")
    case ModuleDataPrefix => Text("module_data_prefix")
  }

  function Place(components: seq<bytes>, role: Role): Candidate
  {
    Candidate(components, false, RoleText(role))
  }

  function ConfigurationPlaces(files: seq<Option<seq<bytes>>>): seq<Candidate>
  {
    if files == [] then []
    else
      ConfigurationPlaces(files[..|files| - 1])
      + match files[|files| - 1]
        case Some(components) => [Place(components, Configuration)]
        case None => []
  }

  function ConfigurationProblems(files: seq<Option<seq<bytes>>>): seq<Record>
  {
    if files == [] then []
    else
      ConfigurationProblems(files[..|files| - 1])
      + if files[|files| - 1].None? then [Failure(ArtifactConfigEscape)] else []
  }

  function ChildPlaces(base: seq<bytes>, children: seq<seq<bytes>>): seq<Candidate>
  {
    if children == [] then []
    else ChildPlaces(base, children[..|children| - 1]) + [Place(base + children[|children| - 1], ModuleData)]
  }

  function PrefixPlaces(parent: seq<bytes>, prefix: bytes, names: seq<bytes>): seq<Candidate>
  {
    if names == [] then []
    else
      PrefixPlaces(parent, prefix, names[..|names| - 1])
      + if prefix <= names[|names| - 1] then [Place(parent + [names[|names| - 1]], ModuleDataPrefix)] else []
  }

  function DataPlaces(data: DataPath): seq<Candidate>
  {
    match data
    case Missing => []
    case Escaping => []
    case Found(components, trailing, isDirectory, children, _) =>
      [Candidate(components, trailing, RoleText(ModuleData))]
      + if isDirectory then ChildPlaces(components, children) else []
    case Absent(parent, prefix, names, _) => PrefixPlaces(parent, prefix, names)
  }

  function DataProblems(data: DataPath): seq<Record>
  {
    match data
    case Missing => [Failure(ArtifactDatapathMissing)]
    case Escaping => [Failure(ArtifactDatapathEscape)]
    case Found(_, _, isDirectory, _, complete) =>
      if isDirectory && !complete then [Failure(ArtifactEnumerationFailed)] else []
    case Absent(parent, prefix, names, complete) =>
      if complete && PrefixPlaces(parent, prefix, names) != [] then [] else [Failure(ArtifactDatapathUnresolved)]
  }

  /** Every place the enumeration comes across, in the order in which it does. */
  function Enumerated(disk: Disk): seq<Candidate>
  {
    if !disk.rootValid then [] else ConfigurationPlaces(disk.configurations) + DataPlaces(disk.data)
  }

  function DiscoveryProblems(disk: Disk): seq<Record>
  {
    if !disk.rootValid then [Failure(ArtifactRootInvalid)]
    else ConfigurationProblems(disk.configurations) + DataProblems(disk.data)
  }

  // What is enumerated, place by place.

  /** Which places belong to the module, and under which role each is captured. */
  predicate Belongs(disk: Disk, c: Candidate)
  {
    disk.rootValid
    && (|| IsConfiguration(disk.configurations, c)
        || (disk.data.Found? && c == Candidate(disk.data.components, disk.data.trailing, Text("module_data")))
        || (disk.data.Found? && disk.data.isDirectory && IsChild(disk.data.components, disk.data.children, c))
        || (disk.data.Absent? && IsPrefixed(disk.data.parent, disk.data.prefix, disk.data.names, c)))
  }

  predicate IsConfiguration(files: seq<Option<seq<bytes>>>, c: Candidate)
  {
    Some(c.components) in files && !c.trailing && c.role == Text("configuration")
  }

  /** Somewhere below the data path. */
  predicate IsChild(base: seq<bytes>, children: seq<seq<bytes>>, c: Candidate)
  {
    !c.trailing && c.role == Text("module_data")
    && exists k :: 0 <= k < |children| && c.components == base + children[k]
  }

  /** Beside the data path, with a name that begins with that of the data path. */
  predicate IsPrefixed(parent: seq<bytes>, prefix: bytes, names: seq<bytes>, c: Candidate)
  {
    !c.trailing && c.role == Text("module_data_prefix")
    && exists k :: 0 <= k < |names| && prefix <= names[k] && c.components == parent + [names[k]]
  }

  lemma {:induction false} ConfigurationsIff(files: seq<Option<seq<bytes>>>, c: Candidate)
    ensures c in ConfigurationPlaces(files) <==> IsConfiguration(files, c)
  {
    if files != [] {
      ConfigurationsIff(files[..|files| - 1], c);
      assert files == files[..|files| - 1] + [files[|files| - 1]];
    }
  }

  lemma {:induction false} ChildrenIff(base: seq<bytes>, children: seq<seq<bytes>>, c: Candidate)
    ensures c in ChildPlaces(base, children) <==> IsChild(base, children, c)
  {
    if children != [] {
      var n := |children| - 1;
      ChildrenIff(base, children[..n], c);
      assert children == children[..n] + [children[n]];
    }
  }

  lemma {:induction false} PrefixedIff(parent: seq<bytes>, prefix: bytes, names: seq<bytes>, c: Candidate)
    ensures c in PrefixPlaces(parent, prefix, names) <==> IsPrefixed(parent, prefix, names, c)
  {
    if names != [] {
      var n := |names| - 1;
      PrefixedIff(parent, prefix, names[..n], c);
      assert names == names[..n] + [names[n]];
    }
  }

  /** These and no others are enumerated, under these roles. */
  lemma EnumeratedIff(disk: Disk, c: Candidate)
    ensures c in Enumerated(disk) <==> Belongs(disk, c)
  {
    hide ConfigurationPlaces, ChildPlaces, PrefixPlaces, IsConfiguration, IsChild, IsPrefixed;
    ConfigurationsIff(disk.configurations, c);
    match disk.data {
      case Found(components, _, _, children, _) => ChildrenIff(components, children, c);
      case Absent(parent, prefix, names, _) => PrefixedIff(parent, prefix, names, c);
      case _ =>
    }
  }

  // Order and uniqueness.

  predicate Sorted(cs: seq<Candidate>)
  {
    forall i, j :: 0 <= i < j < |cs| ==> !Less(PathOf(cs[j]), PathOf(cs[i]))
  }

  predicate StrictlySorted(cs: seq<Candidate>)
  {
    forall i, j :: 0 <= i < j < |cs| ==> Less(PathOf(cs[i]), PathOf(cs[j]))
  }

  /** The same places, each once, in bytewise order of their paths. */
  predicate Discovered(found: seq<Candidate>, cs: seq<Candidate>)
  {
    && StrictlySorted(cs)
    && (forall c :: c in cs ==> c in found)
    && (forall c :: c in found ==> exists i :: 0 <= i < |cs| && PathOf(cs[i]) == PathOf(c))
  }

  lemma NotLessTransitive(a: bytes, b: bytes, c: bytes)
    requires !Less(b, a) && !Less(c, b)
    ensures !Less(c, a)
  {
    hide Less;
    LessTotal(a, b);
    LessTotal(b, c);
    if Less(c, a) {
      LessIrreflexive(a);
      if b != a {
        LessTransitive(c, a, b);
      }
    }
  }

  /** Puts one candidate into its place. */
  method Insert(sorted: seq<Candidate>, c: Candidate) returns (r: seq<Candidate>)
    requires Sorted(sorted)
    ensures Sorted(r) && multiset(r) == multiset(sorted) + multiset{c}
  {
    hide Less, PathOf;
    var p := |sorted|;
    while p > 0 && Less(PathOf(c), PathOf(sorted[p - 1]))
      invariant 0 <= p <= |sorted|
      invariant forall j :: p <= j < |sorted| ==> Less(PathOf(c), PathOf(sorted[j]))
    {
      p := p - 1;
    }
    r := sorted[..p] + [c] + sorted[p..];
    assert sorted == sorted[..p] + sorted[p..];
    forall j | 0 <= j < p
      ensures !Less(PathOf(c), PathOf(sorted[j]))
    {
      if j < p - 1 {
        NotLessTransitive(PathOf(sorted[j]), PathOf(sorted[p - 1]), PathOf(c));
      }
    }
    forall j | p <= j < |sorted|
      ensures !Less(PathOf(sorted[j]), PathOf(c))
    {
      if Less(PathOf(sorted[j]), PathOf(c)) {
        LessTransitive(PathOf(c), PathOf(sorted[j]), PathOf(c));
        LessIrreflexive(PathOf(c));
      }
    }
    InsertedSorted(sorted, c, p);
  }

  lemma InsertedSorted(sorted: seq<Candidate>, c: Candidate, p: nat)
    requires Sorted(sorted) && p <= |sorted|
    requires forall j :: 0 <= j < p ==> !Less(PathOf(c), PathOf(sorted[j]))
    requires forall j :: p <= j < |sorted| ==> !Less(PathOf(sorted[j]), PathOf(c))
    ensures Sorted(sorted[..p] + [c] + sorted[p..])
  {
    hide Less, PathOf;
    var r := sorted[..p] + [c] + sorted[p..];
    forall i, j | 0 <= i < j < |r|
      ensures !Less(PathOf(r[j]), PathOf(r[i]))
    {
      assert j > p ==> r[j] == sorted[j - 1];
      assert i > p ==> r[i] == sorted[i - 1];
    }
  }

  method Sort(found: seq<Candidate>) returns (sorted: seq<Candidate>)
    ensures Sorted(sorted) && multiset(sorted) == multiset(found)
  {
    hide Sorted, PathOf, Less;
    sorted := [];
    NothingSorted();
    for i := 0 to |found|
      invariant Sorted(sorted) && multiset(sorted) == multiset(found[..i])
    {
      assert found[..i + 1] == found[..i] + [found[i]];
      sorted := Insert(sorted, found[i]);
    }
    assert found[..|found|] == found;
  }

  lemma NothingSorted()
    ensures Sorted([])
  {
  }

  /** One of the candidates has this path. */
  predicate HasPath(cs: seq<Candidate>, path: bytes)
  {
    exists i :: 0 <= i < |cs| && PathOf(cs[i]) == path
  }

  /** Drops every candidate whose path is that of the one kept before it. */
  method Unique(sorted: seq<Candidate>) returns (r: seq<Candidate>)
    requires Sorted(sorted)
    ensures StrictlySorted(r)
    ensures forall c :: c in r ==> c in sorted
    ensures forall j :: 0 <= j < |sorted| ==> HasPath(r, PathOf(sorted[j]))
  {
    hide Less, PathOf;
    r := [];
    for n := 0 to |sorted|
      invariant StrictlySorted(r)
      invariant forall c :: c in r ==> c in sorted
      invariant r == [] <==> n == 0
      invariant n > 0 ==> PathOf(r[|r| - 1]) == PathOf(sorted[n - 1])
      invariant forall j :: 0 <= j < n ==> HasPath(r, PathOf(sorted[j]))
    {
      if r == [] || PathOf(r[|r| - 1]) != PathOf(sorted[n]) {
        ghost var before := r;
        forall i | 0 <= i < |r|
          ensures Less(PathOf(r[i]), PathOf(sorted[n]))
        {
          LessTotal(PathOf(r[|r| - 1]), PathOf(sorted[n]));
          if i < |r| - 1 {
            LessTransitive(PathOf(r[i]), PathOf(r[|r| - 1]), PathOf(sorted[n]));
          }
        }
        r := r + [sorted[n]];
        forall j | 0 <= j < n
          ensures HasPath(r, PathOf(sorted[j]))
        {
          var i :| 0 <= i < |before| && PathOf(before[i]) == PathOf(sorted[j]);
          assert r[i] == before[i];
        }
      }
      assert PathOf(r[|r| - 1]) == PathOf(sorted[n]);
    }
  }

  lemma DiscoveredFrom(found: seq<Candidate>, sorted: seq<Candidate>, cs: seq<Candidate>)
    requires multiset(sorted) == multiset(found) && StrictlySorted(cs)
    requires forall c :: c in cs ==> c in sorted
    requires forall j :: 0 <= j < |sorted| ==> HasPath(cs, PathOf(sorted[j]))
    ensures Discovered(found, cs)
  {
    hide Less, PathOf, StrictlySorted;
    forall c | c in cs
      ensures c in found
    {
      assert c in multiset(sorted);
    }
    forall c | c in found
      ensures exists i :: 0 <= i < |cs| && PathOf(cs[i]) == PathOf(c)
    {
      assert c in multiset(found);
      assert c in sorted;
      var j :| 0 <= j < |sorted| && sorted[j] == c;
    }
  }

  method AddConfigurations(files: seq<Option<seq<bytes>>>) returns (output: seq<Candidate>, diagnostics: seq<Record>)
    ensures output == ConfigurationPlaces(files) && diagnostics == ConfigurationProblems(files)
  {
    hide RoleText, CodeText;
    output, diagnostics := [], [];
    for i := 0 to |files|
      invariant output == ConfigurationPlaces(files[..i]) && diagnostics == ConfigurationProblems(files[..i])
    {
      assert files[..i + 1][..i] == files[..i];
      if files[i].Some? {
        output := output + [Place(files[i].value, Configuration)];
      } else {
        diagnostics := diagnostics + [Failure(ArtifactConfigEscape)];
      }
    }
    assert files[..|files|] == files;
  }

  method AddChildren(base: seq<bytes>, children: seq<seq<bytes>>) returns (output: seq<Candidate>)
    ensures output == ChildPlaces(base, children)
  {
    hide RoleText;
    output := [];
    for i := 0 to |children|
      invariant output == ChildPlaces(base, children[..i])
    {
      assert children[..i + 1][..i] == children[..i];
      output := output + [Place(base + children[i], ModuleData)];
    }
    assert children[..|children|] == children;
  }

  method AddPrefixed(parent: seq<bytes>, prefix: bytes, names: seq<bytes>)
    returns (output: seq<Candidate>, matched: bool)
    ensures output == PrefixPlaces(parent, prefix, names) && matched == (output != [])
  {
    hide RoleText;
    output, matched := [], false;
    for i := 0 to |names|
      invariant output == PrefixPlaces(parent, prefix, names[..i]) && matched == (output != [])
    {
      assert names[..i + 1][..i] == names[..i];
      if prefix <= names[i] {
        output := output + [Place(parent + [names[i]], ModuleDataPrefix)];
        matched := true;
      }
    }
    assert names[..|names|] == names;
  }

  method AddData(data: DataPath) returns (output: seq<Candidate>, diagnostics: seq<Record>)
    ensures output == DataPlaces(data) && diagnostics == DataProblems(data)
  {
    hide RoleText, CodeText, ChildPlaces, PrefixPlaces;
    output, diagnostics := [], [];
    match data {
      case Missing =>
        diagnostics := [Failure(ArtifactDatapathMissing)];
      case Escaping =>
        diagnostics := [Failure(ArtifactDatapathEscape)];
      case Found(components, trailing, isDirectory, children, complete) =>
        output := [Candidate(components, trailing, RoleText(ModuleData))];
        if isDirectory {
          var below := AddChildren(components, children);
          output := output + below;
          if !complete {
            diagnostics := [Failure(ArtifactEnumerationFailed)];
          }
        }
      case Absent(parent, prefix, names, complete) =>
        var matched;
        output, matched := AddPrefixed(parent, prefix, names);
        if !complete || !matched {
          diagnostics := [Failure(ArtifactDatapathUnresolved)];
        }
    }
  }

  /** `discover_artifacts`: every place that was enumerated, once, in bytewise order, and nothing else. */
  method DiscoverArtifacts(disk: Disk) returns (cs: seq<Candidate>, diagnostics: seq<Record>)
    ensures Discovered(Enumerated(disk), cs)
    ensures diagnostics == DiscoveryProblems(disk)
  {
    hide Discovered, ConfigurationPlaces, ConfigurationProblems, DataPlaces, DataProblems, CodeText, PathOf, Less,
      StrictlySorted, Sorted, HasPath;
    if !disk.rootValid {
      NothingDiscovered();
      return [], [Failure(ArtifactRootInvalid)];
    }
    var output, problems := AddConfigurations(disk.configurations);
    var more, moreProblems := AddData(disk.data);
    var sorted := Sort(output + more);
    cs := Unique(sorted);
    DiscoveredFrom(output + more, sorted, cs);
    diagnostics := problems + moreProblems;
  }

  lemma NothingDiscovered()
    ensures Discovered([], [])
  {
  }

  // What the order is good for.

  lemma SameOrder(cs: seq<Candidate>, i: nat, j: nat)
    requires StrictlySorted(cs) && i < |cs| && j < |cs| && Less(PathOf(cs[i]), PathOf(cs[j]))
    ensures i < j
  {
    hide Less, PathOf;
    if j < i {
      assert Less(PathOf(cs[j]), PathOf(cs[i]));
      LessTransitive(PathOf(cs[i]), PathOf(cs[j]), PathOf(cs[i]));
    }
    LessIrreflexive(PathOf(cs[i]));
  }

  /** In the order of the export every directory comes before everything below it, however either is spelled. */
  lemma DirectoriesFirst(cs: seq<Candidate>, i: nat, j: nat)
    requires StrictlySorted(cs) && i < |cs| && j < |cs|
    requires Paths.NormalComponents(cs[i].components) && Paths.NormalComponents(cs[j].components)
    requires Paths.Below(cs[j].components, cs[i].components)
    ensures i < j
  {
    hide StrictlySorted, Less;
    assert Paths.Join(cs[i].components) + [] == Paths.Join(cs[i].components);
    assert Paths.Join(cs[j].components) + [] == Paths.Join(cs[j].components);
    Paths.DirectoryBeforeContents(cs[i].components, cs[j].components, PathOf(cs[i]), PathOf(cs[j]));
    SameOrder(cs, i, j);
  }

  /** Two candidates at one place are spelled differently: one with, one without a final separator. */
  lemma OnePlaceTwice(cs: seq<Candidate>, i: nat, j: nat)
    requires StrictlySorted(cs) && i < j < |cs| && cs[i].components == cs[j].components
    ensures cs[i].trailing != cs[j].trailing && cs[i].components != []
  {
    hide Less;
    assert Less(PathOf(cs[i]), PathOf(cs[j]));
    LessIrreflexive(PathOf(cs[i]));
  }

  /** Only the data path itself can be spelled with a final separator. */
  lemma {:induction false} ChildrenPlain(base: seq<bytes>, children: seq<seq<bytes>>, c: Candidate)
    requires c in ChildPlaces(base, children)
    ensures !c.trailing && exists k :: 0 <= k < |children| && c.components == base + children[k]
  {
    var n := |children| - 1;
    if c in ChildPlaces(base, children[..n]) {
      ChildrenPlain(base, children[..n], c);
      var k :| 0 <= k < n && c.components == base + children[..n][k];
      assert children[..n][k] == children[k];
    } else {
      assert c.components == base + children[n];
    }
  }

  lemma {:induction false} ConfigurationsPlain(files: seq<Option<seq<bytes>>>, c: Candidate)
    requires c in ConfigurationPlaces(files)
    ensures !c.trailing && Some(c.components) in files
  {
    if c in ConfigurationPlaces(files[..|files| - 1]) {
      ConfigurationsPlain(files[..|files| - 1], c);
    }
  }

  lemma {:induction false} PrefixedPlain(parent: seq<bytes>, prefix: bytes, names: seq<bytes>, c: Candidate)
    requires c in PrefixPlaces(parent, prefix, names)
    ensures !c.trailing
  {
    if c in PrefixPlaces(parent, prefix, names[..|names| - 1]) {
      PrefixedPlain(parent, prefix, names[..|names| - 1], c);
    }
  }

  /** What holds of any tree: what is enumerated below a directory lies below it, and a directory that can be
      enumerated is no configuration file. */
  predicate Consistent(disk: Disk)
  {
    disk.data.Found? ==>
      && (forall k :: 0 <= k < |disk.data.children| ==> disk.data.children[k] != [])
      && (disk.data.trailing ==> Some(disk.data.components) !in disk.configurations)
  }

  lemma SpelledPlain(disk: Disk, c: Candidate)
    requires disk.rootValid && Consistent(disk) && c in Enumerated(disk)
    ensures c.trailing ==> disk.data.Found? && disk.data.trailing && c.components == disk.data.components
    ensures !c.trailing && disk.data.Found? && disk.data.trailing ==> c.components != disk.data.components
  {
    hide RoleText, ConfigurationPlaces, ChildPlaces, PrefixPlaces;
    if c in ConfigurationPlaces(disk.configurations) {
      ConfigurationsPlain(disk.configurations, c);
    } else {
      match disk.data {
        case Found(components, trailing, isDirectory, children, _) =>
          if isDirectory && c in ChildPlaces(components, children) {
            ChildrenPlain(components, children, c);
            var k :| 0 <= k < |children| && c.components == components + children[k];
            assert |c.components| > |components|;
          }
        case Absent(parent, prefix, names, _) =>
          PrefixedPlain(parent, prefix, names, c);
        case _ =>
      }
    }
  }

  /** So no place is discovered twice. */
  lemma DiscoveredDistinct(disk: Disk, cs: seq<Candidate>)
    requires Consistent(disk) && Discovered(Enumerated(disk), cs)
    ensures forall i, j :: 0 <= i < j < |cs| ==> cs[i].components != cs[j].components
  {
    hide Consistent, Enumerated, StrictlySorted;
    forall i, j | 0 <= i < j < |cs|
      ensures cs[i].components != cs[j].components
    {
      if cs[i].components == cs[j].components {
        OnePlaceTwice(cs, i, j);
        var a, b := if cs[i].trailing then cs[i] else cs[j], if cs[i].trailing then cs[j] else cs[i];
        assert a in cs && b in cs;
        RootWasValid(disk, cs, a);
        SpelledPlain(disk, a);
        SpelledPlain(disk, b);
      }
    }
  }

  lemma RootWasValid(disk: Disk, cs: seq<Candidate>, c: Candidate)
    requires c in cs && forall d :: d in cs ==> d in Enumerated(disk)
    ensures disk.rootValid
  {
  }
}
