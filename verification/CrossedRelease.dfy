/** The release gate compares bundle names and archive targets as sets: for every tag,
    every permutation of either makes a release that passes the whole gate. */
module CrossedRelease {
  import opened Collections
  import opened ReleaseGate

  /** An artifact whose digests are spelled like its name. */
  function PlainArtifact(name: string, target: Option<string>, bundle: string): Artifact {
    Artifact(name, name, target, if target.Some? then Some(name) else None, true, bundle)
  }

  /** Artifacts of the given names, with bundle `b[i]` and target `t[i - 3]` on the last four. */
  function PlainArtifacts(names: seq<string>, b: seq<string>, t: seq<string>): seq<Artifact>
    requires |names| == 7 && |b| == 7 && |t| == 4
  {
    seq(7, i requires 0 <= i < 7 => PlainArtifact(names[i], if i < 3 then None else Some(t[i - 3]), b[i]))
  }

  function PlainRelease(source: string, tag: string, b: seq<string>, t: seq<string>): Release
    requires |b| == 7 && |t| == 4 && |Subjects(tag)| == 7
  {
    Release(source, tag, true, PlainArtifacts(Subjects(tag), b, t), true)
  }

  lemma PlainNames(names: seq<string>, b: seq<string>, t: seq<string>)
    requires |names| == 7 && |b| == 7 && |t| == 4
    ensures var artifacts := PlainArtifacts(names, b, t);
            Image(artifacts, NameOf) == names && Image(artifacts, BundleNameOf) == b
  {
    NamesAt(PlainArtifacts(names, b, t));
  }

  lemma {:induction false} NoTargets(artifacts: seq<Artifact>)
    requires forall i :: 0 <= i < |artifacts| ==> !IsArchive(artifacts[i].name)
    ensures Image(artifacts, TargetOf) == []
  {
    if artifacts != [] {
      NoTargets(artifacts[1..]);
    }
  }

  lemma {:induction false} OnlyTargets(artifacts: seq<Artifact>, t: seq<string>)
    requires |artifacts| == |t|
    requires forall i :: 0 <= i < |artifacts| ==> IsArchive(artifacts[i].name) && artifacts[i].target == Some(t[i])
    ensures Image(artifacts, TargetOf) == t
  {
    if artifacts != [] {
      OnlyTargets(artifacts[1..], t[1..]);
      assert t == [t[0]] + t[1..];
    }
  }

  /** The last four subjects, and only they, are archives. */
  ghost predicate ArchivesLast(names: seq<string>) {
    |names| == 7 && forall i :: 0 <= i < 7 ==> (IsArchive(names[i]) <==> i >= 3)
  }

  lemma SubjectsArchivesLast(tag: string)
    ensures ArchivesLast(Subjects(tag)) && forall i :: 0 <= i < 4 ==> Subjects(tag)[i + 3] == ArchiveNames(tag)[i]
  {
    ArchivesNamed(tag);
    var names := Subjects(tag);
    forall i | 0 <= i < 7 ensures IsArchive(names[i]) <==> i >= 3 {
      if i < 3 {
        assert names[i] == Others(tag)[i];
      } else {
        assert names[i] == ArchiveNames(tag)[i - 3];
      }
    }
  }

  lemma PlainTargets(names: seq<string>, b: seq<string>, t: seq<string>)
    requires ArchivesLast(names) && |b| == 7 && |t| == 4
    ensures Image(PlainArtifacts(names, b, t), TargetOf) == t
  {
    var artifacts := PlainArtifacts(names, b, t);
    assert artifacts == artifacts[..3] + artifacts[3..];
    ImageConcat(artifacts[..3], artifacts[3..], TargetOf);
    NoTargets(artifacts[..3]);
    OnlyTargets(artifacts[3..], t);
    assert [] + t == t;
  }

  ghost predicate Permutes(tag: string, b: seq<string>, t: seq<string>) {
    && |b| == 7 && |t| == 4 && |Subjects(tag)| == 7
    && multiset(b) == multiset(Image(Subjects(tag), BundleOf)) && multiset(t) == multiset(TARGETS)
  }

  /** Every permutation of bundles and of targets makes an exact release. */
  lemma PermutedExact(source: string, tag: string, b: seq<string>, t: seq<string>)
    requires Permutes(tag, b, t)
    ensures Exact(PlainRelease(source, tag, b, t))
  {
    var names := Subjects(tag);
    SubjectsArchivesLast(tag);
    PlainNames(names, b, t);
    PlainTargets(names, b, t);
    SubjectsDistinct(tag);
    BundlesDistinct(names);
    SameElementsIff(b, Image(names, BundleOf));
    TargetsDistinct();
    SameElementsIff(t, TARGETS);
    PlainValid(names, b, t, TARGETS);
  }

  lemma PlainValid(names: seq<string>, b: seq<string>, t: seq<string>, targets: seq<string>)
    requires ArchivesLast(names) && |b| == 7 && |t| == 4 && targets == TARGETS && multiset(t) == multiset(targets)
    ensures AllValid(PlainArtifacts(names, b, t))
  {
    PermutationMembers(t, targets);
    var artifacts := PlainArtifacts(names, b, t);
    forall i | 0 <= i < |artifacts| ensures ArtifactValid(artifacts[i]) {
      if i >= 3 {
        assert t[i - 3] in t;
      }
    }
  }

  // ----- The whole gate -----

  /** Native reports, one for each target, that installed what the release records for it. */
  function NativeFor(source: string, r: Release, t: seq<string>): seq<Native>
    requires |r.artifacts| == 7 && |t| == 4
  {
    seq(4, i requires 0 <= i < 4 => Native(t[i], source, r.artifacts[i + 3].digest, r.artifacts[i + 3].name, "", true))
  }

  lemma NativeTargets(source: string, r: Release, t: seq<string>)
    requires |r.artifacts| == 7 && |t| == 4
    ensures Image(NativeFor(source, r, t), NativeTarget) == t
  {
    NativeTargetsAt(NativeFor(source, r, t));
  }

  lemma PlainMatched(source: string, tag: string, b: seq<string>, t: seq<string>)
    requires Permutes(tag, b, t)
    ensures var r := PlainRelease(source, tag, b, t);
            && AllMatched(r, NativeFor(source, r, t))
            && forall i :: 0 <= i < 4 ==>
                 Matches(r, i + 3, NativeFor(source, r, t)[i]) && r.artifacts[i + 3].name == ArchiveNames(tag)[i]
  {
    SubjectsArchivesLast(tag);
    var r := PlainRelease(source, tag, b, t);
    var native := NativeFor(source, r, t);
    forall i | 0 <= i < 4
      ensures Matches(r, i + 3, native[i]) && Matched(r, native[i])
      ensures r.artifacts[i + 3].name == ArchiveNames(tag)[i]
    {
      assert r.artifacts[i + 3] == PlainArtifact(Subjects(tag)[i + 3], Some(t[i]), b[i + 3]);
      assert Matches(r, i + 3, native[i]);
    }
  }

  /** The evidence that goes with such a release: the product qualified the first archive. */
  function Qualifying(source: string, r: Release, t: seq<string>): Product
    requires |r.artifacts| == 7 && |t| == 4
  {
    Product(source, "", r.artifacts[3].name, t[0], true)
  }

  /** For every tag and every permutation of the targets the whole gate passes with the
      native report for target `t[i]` matched with the i-th archive name, so it does not
      tie an archive's target to its name. */
  lemma PermutedGate(source: string, tag: string, b: seq<string>, t: seq<string>)
    requires Permutes(tag, b, t)
    ensures var r := PlainRelease(source, tag, b, t);
            var p := Qualifying(source, r, t);
            var evidence := Evidence(source, p.qualified, true);
            && GateHolds(p, evidence, evidence, r, NativeFor(source, r, t))
            && forall i :: 0 <= i < 4 ==>
                 Matches(r, i + 3, NativeFor(source, r, t)[i]) && r.artifacts[i + 3].name == ArchiveNames(tag)[i]
  {
    var r := PlainRelease(source, tag, b, t);
    var p := Qualifying(source, r, t);
    PermutedExact(source, tag, b, t);
    PlainMatched(source, tag, b, t);
    NativeTargets(source, r, t);
    assert Qualifies(r, 3, p);
    TargetAmongAll(t, TARGETS);
  }

  lemma TargetAmongAll(t: seq<string>, targets: seq<string>)
    requires |t| == 4 && multiset(t) == multiset(targets)
    ensures t[0] in targets
  {
    PermutationMembers(t, targets);
  }

  // ----- One crossed case -----

  function Crossed(s: seq<string>): seq<string>
    requires |s| >= 2
  {
    [s[1], s[0]] + s[2..]
  }

  lemma CrossedPermutes(s: seq<string>)
    requires |s| >= 2
    ensures multiset(Crossed(s)) == multiset(s) && |Crossed(s)| == |s|
  {
    assert s == [s[0], s[1]] + s[2..];
  }

  /** For every tag an accepted release in which the first subject comes with the second's
      bundle and the archive named for the first target is recorded for the second. */
  lemma CrossedAccepted(source: string, tag: string) returns (r: Release)
    ensures Exact(r) && r.tag == tag
    ensures r.artifacts[0].bundle == Bundle(r.artifacts[1].name) && r.artifacts[0].bundle != Bundle(r.artifacts[0].name)
    ensures r.artifacts[3].name == Archive(tag, TARGETS[0]) && r.artifacts[3].target == Some(TARGETS[1])
    ensures TARGETS[0] != TARGETS[1]
  {
    SubjectsDistinct(tag);
    BundlesAt(Subjects(tag));
    var b := Crossed(Image(Subjects(tag), BundleOf));
    var t := Crossed(TARGETS);
    CrossedPermutes(Image(Subjects(tag), BundleOf));
    CrossedPermutes(TARGETS);
    PermutedExact(source, tag, b, t);
    SubjectsArchivesLast(tag);
    BundleInjective(Subjects(tag)[0], Subjects(tag)[1]);
    TargetsDistinct();
    r := PlainRelease(source, tag, b, t);
  }
}
