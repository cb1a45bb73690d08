/** What the validator's list of artifacts is worth: when the second pass over any accepted stream goes through, and
    what is on the stage then. */
module Listing {
  import opened Bytes
  import opened Lexical
  import opened Reassembly
  import opened Records
  import opened Sha256Spec
  import opened StageTree
  import opened Validation
  import Paths

  // What the validator remembers.

  /** An artifact as it is listed in the place of its number. */
  predicate ListedAt(a: Artifact, i: nat)
  {
    a.id == i && Paths.NormalComponents(a.components) && (a.fileType == Symlink ==> a.target.Some?)
  }

  predicate OpenListed(a: ActiveArtifact, i: nat)
  {
    && a.id == i && Paths.NormalComponents(a.components) && (a.fileType == Symlink ==> a.target.Some?)
    && a.size == |a.hashed|
  }

  predicate AllListed(artifacts: seq<Artifact>, paths: set<seq<bytes>>)
  {
    && (forall i :: 0 <= i < |artifacts| ==> ListedAt(artifacts[i], i) && artifacts[i].components in paths)
    && forall i, j :: 0 <= i < j < |artifacts| ==> artifacts[i].components != artifacts[j].components
  }

  /** Every artifact is listed under its number, no place comes twice, and an open group is the next one. */
  predicate Listed(s: State)
  {
    && AllListed(s.artifacts, s.artifactPaths)
    && (s.active.Some? ==>
          && OpenListed(s.active.value, |s.artifacts|) && s.active.value.components in s.artifactPaths
          && forall i :: 0 <= i < |s.artifacts| ==> s.artifacts[i].components != s.active.value.components)
  }

  /** The validator's memory of artifacts is the same. */
  predicate SameArtifacts(s: State, t: State)
  {
    s.artifacts == t.artifacts && s.active == t.active && s.artifactPaths == t.artifactPaths
  }

  predicate OfArtifacts(r: Record)
  {
    r.ArtifactBegin? || r.ArtifactChunk? || r.ArtifactEnd?
  }

  lemma OtherStep(s: State, line: Line)
    requires Step(s, line).Some? && !OfArtifacts(line.record)
    ensures SameArtifacts(s, Step(s, line).value)
  {
    hide FooterOk, EntryOk, HeaderOk, Paths.RelativePath;
  }

  /** A line about artifacts does to them what its record says. */
  lemma ArtifactStep(s: State, line: Line)
    requires Step(s, line).Some? && OfArtifacts(line.record)
    ensures var r, t := line.record, Step(s, line).value;
            && (r.ArtifactBegin? ==>
                  && s.active.None? && r.id == |s.artifacts| && BeginOk(r) && Components(r) !in s.artifactPaths
                  && t.artifacts == s.artifacts && t.active == Some(Opened(r))
                  && t.artifactPaths == s.artifactPaths + {Components(r)})
            && (r.ArtifactChunk? ==>
                  && s.active.Some? && ChunkOk(s.active.value, s.chunkSize, r)
                  && t.artifacts == s.artifacts && t.artifactPaths == s.artifactPaths
                  && t.active == Some(Absorb(s.active.value, s.chunkSize.value, r.data)))
            && (r.ArtifactEnd? ==>
                  && s.active.Some? && EndOk(s.active.value, r) && t.active.None? && t.artifactPaths == s.artifactPaths
                  && t.artifacts == s.artifacts + [Closed(s.active.value, r)])
  {
    hide BeginOk, Components, Opened, ChunkOk, EndOk, Closed, Absorb;
  }

  lemma OpenedListed(r: Record)
    requires r.ArtifactBegin? && r.id >= 0 && BeginOk(r)
    ensures OpenListed(Opened(r), r.id) && Opened(r).components == Components(r)
  {
    hide Paths.RelativePath, Paths.NormalComponents;
    Paths.RelativePathIs(r.path, r.fileType == Directory, Components(r));
  }

  lemma ClosedListed(a: ActiveArtifact, r: Record, i: nat)
    requires r.ArtifactEnd? && EndOk(a, r) && OpenListed(a, i)
    ensures ListedAt(Closed(a, r), i) && Closed(a, r).components == a.components
  {
    hide Paths.NormalComponents, Content;
  }

  lemma StepListed(s: State, line: Line)
    requires Listed(s) && Step(s, line).Some?
    ensures Listed(Step(s, line).value)
  {
    hide Step, BeginOk, Components, Opened, EndOk, Closed, ListedAt, OpenListed;
    var r := line.record;
    if OfArtifacts(r) {
      ArtifactStep(s, line);
      if r.ArtifactBegin? {
        OpenedListed(r);
      } else if r.ArtifactChunk? {
        AbsorbedListed(s.active.value, s.chunkSize.value, r.data, |s.artifacts|);
      } else {
        ClosedListed(s.active.value, r, |s.artifacts|);
      }
    } else {
      OtherStep(s, line);
    }
  }

  lemma AbsorbedListed(a: ActiveArtifact, chunkSize: int, data: bytes, i: nat)
    requires OpenListed(a, i)
    ensures OpenListed(Absorb(a, chunkSize, data), i) && Absorb(a, chunkSize, data).components == a.components
  {
    hide Paths.NormalComponents;
  }

  lemma {:induction false} RunListed(s: State, lines: seq<Line>)
    requires Listed(s) && Run(s, lines).Some?
    ensures Listed(Run(s, lines).value)
    decreases |lines|
  {
    hide Listed, Step;
    if lines != [] {
      StepListed(s, lines[0]);
      RunListed(Step(s, lines[0]).value, lines[1..]);
    }
  }

  lemma InitiallyListed()
    ensures Listed(INITIAL_STATE)
  {
  }

  /** The list of an accepted stream: numbered, each place once and normal, every link with its target. */
  lemma AcceptedListed(lines: seq<Line>)
    requires Accepts(lines)
    ensures var t := Run(INITIAL_STATE, lines).value; AllListed(t.artifacts, t.artifactPaths) && WellListed(t.artifacts)
  {
    hide Run, Complete, Paths.NormalComponent;
    InitiallyListed();
    RunListed(INITIAL_STATE, lines);
    var t := Run(INITIAL_STATE, lines).value;
    assert forall i :: 0 <= i < |t.artifacts| ==> ListedAt(t.artifacts[i], i);
  }

  // The list grows at its end only.

  /** What the end of a group makes of it. */
  predicate Becomes(a: ActiveArtifact, e: Artifact)
  {
    e.id == a.id && e.components == a.components && e.fileType == a.fileType && e.mode == a.mode && e.target == a.target
  }

  lemma {:induction false} ListGrows(s: State, lines: seq<Line>)
    requires Run(s, lines).Some?
    ensures var t := Run(s, lines).value;
            && s.artifacts <= t.artifacts
            && (s.active.Some? && t.active.None? ==>
                  |s.artifacts| < |t.artifacts| && Becomes(s.active.value, t.artifacts[|s.artifacts|]))
    decreases |lines|
  {
    hide Step, BeginOk, Components, Opened, EndOk, ChunkOk;
    if lines != [] {
      var next := Step(s, lines[0]).value;
      ListGrows(next, lines[1..]);
      if OfArtifacts(lines[0].record) {
        ArtifactStep(s, lines[0]);
      } else {
        OtherStep(s, lines[0]);
      }
    }
  }
}
