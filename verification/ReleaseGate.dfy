/** The release gate: a release of seven signed subjects with seven bundles, and the
    native, product, chaos and agent evidence that must match it. */
module ReleaseGate {
  import opened Collections
  import opened Judgement
  import opened Sorting

  const TARGETS: seq<string> := [
    "aarch64-apple-darwin", "aarch64-unknown-linux-gnu", "x86_64-apple-darwin", "x86_64-unknown-linux-gnu"
  ]

  const SUBJECTS := 7

  /** The names a release of `tag` must sign. */
  function Archive(tag: string, target: string): string { "again-" + tag + "-" + target + ".tar.gz" }

  function Others(tag: string): seq<string> {
    ["SHA256SUMS", "again-alpha.rb", "again-" + tag + "-source.cdx.json"]
  }

  function ArchiveNames(tag: string): seq<string> {
    [Archive(tag, TARGETS[0]), Archive(tag, TARGETS[1]), Archive(tag, TARGETS[2]), Archive(tag, TARGETS[3])]
  }

  function Subjects(tag: string): seq<string> { Others(tag) + ArchiveNames(tag) }

  function Bundle(name: string): string { name + ".sigstore.json" }

  predicate EndsWith(text: string, suffix: string) {
    |text| >= |suffix| && text[|text| - |suffix|..] == suffix
  }

  predicate IsArchive(name: string) { EndsWith(name, ".tar.gz") }

  // ----- The names -----

  lemma TargetsDistinct()
    ensures Distinct(TARGETS) && |TARGETS| == 4
  {
    assert forall i, j :: 0 <= i < j < |TARGETS| ==> |TARGETS[i]| != |TARGETS[j]|;
  }

  lemma SubjectsDistinct(tag: string)
    ensures Distinct(Subjects(tag)) && |Subjects(tag)| == SUBJECTS
  {
    var names := Subjects(tag);
    assert |names[0]| == 10 && |names[1]| == 14 && |names[2]| == |tag| + 22 && |names[3]| == |tag| + 34;
    assert |names[4]| == |tag| + 39 && |names[5]| == |tag| + 33 && |names[6]| == |tag| + 38;
  }

  lemma Suffixed(a: string, b: string)
    ensures EndsWith(a + b, b)
  {
    assert (a + b)[|a|..] == b;
  }

  /** Exactly the four target archives end as archives do. */
  lemma ArchivesNamed(tag: string)
    ensures forall i :: 0 <= i < 4 ==> IsArchive(ArchiveNames(tag)[i])
    ensures forall i :: 0 <= i < 3 ==> !IsArchive(Others(tag)[i])
  {
    Suffixed("again-" + tag + "-" + TARGETS[0], ".tar.gz");
    Suffixed("again-" + tag + "-" + TARGETS[1], ".tar.gz");
    Suffixed("again-" + tag + "-" + TARGETS[2], ".tar.gz");
    Suffixed("again-" + tag + "-" + TARGETS[3], ".tar.gz");
    OtherEndings(tag);
  }

  lemma SameLast(text: string, suffix: string)
    requires text != [] && suffix != []
    ensures EndsWith(text, suffix) ==> text[|text| - 1] == suffix[|suffix| - 1]
  {
    if EndsWith(text, suffix) {
      assert text[|text| - |suffix|..][|suffix| - 1] == text[|text| - 1];
    }
  }

  lemma OtherEndings(tag: string)
    ensures forall i :: 0 <= i < 3 ==> !IsArchive(Others(tag)[i])
  {
    forall i | 0 <= i < 3 ensures !IsArchive(Others(tag)[i]) {
      var name := Others(tag)[i];
      assert name[|name| - 1] == ['S', 'b', 'n'][i];
      SameLast(name, ".tar.gz");
    }
  }

  lemma {:induction false} BundlesDistinct(names: seq<string>)
    requires Distinct(names)
    ensures Distinct(Image(names, BundleOf)) && |Image(names, BundleOf)| == |names|
    ensures Elements(Image(names, BundleOf)) == set name | name in names :: Bundle(name)
  {
    BundlesAt(names);
    var bundles := Image(names, BundleOf);
    forall i, j | 0 <= i < j < |names| ensures bundles[i] != bundles[j] {
      BundleInjective(names[i], names[j]);
    }
    forall b | b in bundles ensures b in set name | name in names :: Bundle(name) {
      var i :| 0 <= i < |bundles| && bundles[i] == b;
      assert names[i] in names;
    }
    forall name | name in names ensures Bundle(name) in bundles {
      var i :| 0 <= i < |names| && names[i] == name;
      assert bundles[i] == Bundle(name);
    }
  }

  function BundleOf(name: string): seq<string> { [Bundle(name)] }

  lemma {:induction false} BundlesAt(names: seq<string>)
    ensures |Image(names, BundleOf)| == |names|
    ensures forall i :: 0 <= i < |names| ==> Image(names, BundleOf)[i] == Bundle(names[i])
  {
    if names != [] {
      BundlesAt(names[1..]);
    }
  }

  lemma BundleInjective(a: string, b: string)
    ensures Bundle(a) == Bundle(b) ==> a == b
  {
    if Bundle(a) == Bundle(b) {
      assert Bundle(a)[..|a|] == a && Bundle(b)[..|b|] == b;
    }
  }

  /** No subject is a bundle name, so the intersection check cannot fail. */
  lemma SubjectsAreNotBundles(tag: string, subject: string, name: string)
    requires subject in Subjects(tag)
    ensures subject != Bundle(name)
  {
    var b := Bundle(name);
    assert b[|b| - 1] == 'n' && b[|b| - 6] == 'e';
    var i :| 0 <= i < 7 && Subjects(tag)[i] == subject;
    assert subject[|subject| - 1] != 'n' || subject[|subject| - 6] == 'x';
  }

  // ----- A release -----

  /** `attested` stands for a well-formed digest, a verified attestation with its
      certificate, and a well-formed bundle digest and name. */
  datatype Artifact = Artifact(
    name: string, digest: string, target: Option<string>, binary: Option<string>, attested: bool, bundle: string)

  /** `identified` stands for the shape of the commit and tag and the immutable, published
      state; `authenticated` for the publisher's status. */
  datatype Release = Release(source: string, tag: string, identified: bool, artifacts: seq<Artifact>,
                             authenticated: bool)

  datatype Refusal =
    | ReleaseIdentity | ReleaseAssets | ReleaseAttestation | ReleaseArchive | ReleasePublisher
    | NativeMatrix | SourceMismatch | BinaryMismatch | ReleaseBinaryMismatch | InvalidEvidence

  type Result<T> = Judged<T, Refusal>

  datatype ReleaseSummary = ReleaseSummary(
    source: string, tag: string, archives: map<string, string>, binaries: map<string, string>)

  function NameOf(a: Artifact): seq<string> { [a.name] }

  function BundleNameOf(a: Artifact): seq<string> { [a.bundle] }

  /** The target an archive names. */
  function TargetOf(a: Artifact): seq<string> {
    if IsArchive(a.name) && a.target.Some? then [a.target.value] else []
  }

  predicate ArtifactValid(a: Artifact) {
    a.attested && (IsArchive(a.name) ==> a.target.Some? && a.target.value in TARGETS && a.binary.Some?)
  }

  predicate AllValid(artifacts: seq<Artifact>) { forall i :: 0 <= i < |artifacts| ==> ArtifactValid(artifacts[i]) }

  /** What `validate_release` accepts. */
  ghost predicate Exact(r: Release) {
    && r.identified && r.authenticated && |r.artifacts| == SUBJECTS && AllValid(r.artifacts)
    && Distinct(Image(r.artifacts, NameOf)) && Elements(Image(r.artifacts, NameOf)) == Elements(Subjects(r.tag))
    && Elements(Image(r.artifacts, BundleNameOf)) == Elements(Image(Subjects(r.tag), BundleOf))
    && Elements(Image(r.artifacts, TargetOf)) == Elements(TARGETS)
  }

  /** An archive of a release, for a target. */
  ghost predicate ArchiveFor(r: Release, i: int, target: string) {
    0 <= i < |r.artifacts| && IsArchive(r.artifacts[i].name) && r.artifacts[i].target == Some(target)
  }

  lemma {:induction false} NamesAt(artifacts: seq<Artifact>)
    ensures |Image(artifacts, NameOf)| == |Image(artifacts, BundleNameOf)| == |artifacts|
    ensures forall i :: 0 <= i < |artifacts| ==> Image(artifacts, NameOf)[i] == artifacts[i].name
    ensures forall i :: 0 <= i < |artifacts| ==> Image(artifacts, BundleNameOf)[i] == artifacts[i].bundle
  {
    if artifacts != [] {
      NamesAt(artifacts[1..]);
    }
  }

  /** Seven distinct subjects come with seven distinct bundles. */
  lemma SevenBundles(r: Release)
    requires Exact(r)
    ensures Distinct(Image(r.artifacts, NameOf)) && |Image(r.artifacts, NameOf)| == 7
    ensures Distinct(Image(r.artifacts, BundleNameOf)) && |Image(r.artifacts, BundleNameOf)| == 7
    ensures Elements(Image(r.artifacts, NameOf)) !! Elements(Image(r.artifacts, BundleNameOf))
  {
    NamesAt(r.artifacts);
    SubjectsDistinct(r.tag);
    BundlesDistinct(Subjects(r.tag));
    DistinctSize(Image(Subjects(r.tag), BundleOf));
    DistinctSize(Image(r.artifacts, BundleNameOf));
    forall name | name in Elements(Subjects(r.tag)) && name in Elements(Image(Subjects(r.tag), BundleOf))
      ensures false
    {
      var other :| other in Subjects(r.tag) && name == Bundle(other);
      SubjectsAreNotBundles(r.tag, name, other);
    }
  }

  function ArchiveNameOf(a: Artifact): seq<string> { if IsArchive(a.name) then [a.name] else [] }

  lemma {:induction false} ArchiveNamesAmong(artifacts: seq<Artifact>)
    ensures forall name :: name in Image(artifacts, ArchiveNameOf) <==>
              name in Image(artifacts, NameOf) && IsArchive(name)
    ensures Distinct(Image(artifacts, NameOf)) ==> Distinct(Image(artifacts, ArchiveNameOf))
    ensures AllValid(artifacts) ==> |Image(artifacts, TargetOf)| == |Image(artifacts, ArchiveNameOf)|
  {
    if artifacts != [] {
      ArchiveNamesAmong(artifacts[1..]);
      var head, rest := artifacts[0].name, Image(artifacts[1..], NameOf);
      assert Image(artifacts, NameOf) == [head] + rest;
      if Distinct([head] + rest) {
        assert rest == ([head] + rest)[1..];
        HeadNotRepeated(head, rest);
        if IsArchive(head) {
          ConsDistinct(head, Image(artifacts[1..], ArchiveNameOf));
        }
      }
    }
  }

  lemma HeadNotRepeated(head: string, rest: seq<string>)
    requires Distinct([head] + rest)
    ensures Distinct(rest) && head !in rest
  {
    var all := [head] + rest;
    forall i, j | 0 <= i < j < |rest| ensures rest[i] != rest[j] {
      assert all[i + 1] != all[j + 1];
    }
    forall i | 0 <= i < |rest| ensures rest[i] != head {
      assert all[0] != all[i + 1];
    }
  }

  lemma ConsDistinct(head: string, rest: seq<string>)
    requires Distinct(rest) && head !in rest
    ensures Distinct([head] + rest)
  {
  }

  /** Four archives, so the four targets they must cover are met once each. */
  lemma TargetsOnce(r: Release)
    requires Exact(r)
    ensures Distinct(Image(r.artifacts, TargetOf)) && |Image(r.artifacts, TargetOf)| == 4
  {
    var named := Image(r.artifacts, ArchiveNameOf);
    ArchiveNamesAmong(r.artifacts);
    ArchivesNamed(r.tag);
    SubjectsDistinct(r.tag);
    ArchiveNamesDistinct(r.tag);
    assert Elements(named) == Elements(ArchiveNames(r.tag)) by {
      forall name ensures name in named <==> name in ArchiveNames(r.tag) {
        assert name in Image(r.artifacts, NameOf) <==> name in Elements(Image(r.artifacts, NameOf));
        assert name in Elements(Subjects(r.tag)) <==> name in Others(r.tag) || name in ArchiveNames(r.tag);
      }
    }
    DistinctSize(named);
    DistinctSize(ArchiveNames(r.tag));
    TargetsDistinct();
    DistinctSize(TARGETS);
    DistinctSize(Image(r.artifacts, TargetOf));
  }

  lemma ArchiveNamesDistinct(tag: string)
    ensures Distinct(ArchiveNames(tag)) && |ArchiveNames(tag)| == 4
  {
    SubjectsDistinct(tag);
    var all, names := Subjects(tag), ArchiveNames(tag);
    forall i, j | 0 <= i < j < 4 ensures names[i] != names[j] {
      assert all[i + 3] == names[i] && all[j + 3] == names[j];
    }
  }

  lemma RepeatedTarget(artifacts: seq<Artifact>, i: nat, j: nat, target: string)
    requires i < j < |artifacts| && TargetOf(artifacts[i]) == [target] && TargetOf(artifacts[j]) == [target]
    ensures !Distinct(Image(artifacts, TargetOf))
  {
    var head, tail := artifacts[..j], artifacts[j..];
    assert artifacts == head + tail && tail[0] == artifacts[j];
    ImageConcat(head, tail, TargetOf);
    TargetAmong(head, i, target);
    var front, back := Image(head, TargetOf), Image(tail, TargetOf);
    var k :| 0 <= k < |front| && front[k] == target;
    assert (front + back)[k] == target && (front + back)[|front|] == target;
  }

  lemma {:induction false} TargetAmong(artifacts: seq<Artifact>, i: nat, target: string)
    requires i < |artifacts| && TargetOf(artifacts[i]) == [target]
    ensures target in Image(artifacts, TargetOf)
  {
    if i > 0 {
      TargetAmong(artifacts[1..], i - 1, target);
    }
  }

  lemma {:induction false} TargetFrom(artifacts: seq<Artifact>, target: string) returns (i: nat)
    requires target in Image(artifacts, TargetOf)
    ensures i < |artifacts| && TargetOf(artifacts[i]) == [target]
  {
    if target in TargetOf(artifacts[0]) {
      i := 0;
    } else {
      i := TargetFrom(artifacts[1..], target);
      i := i + 1;
    }
  }

  /** An accepted release has exactly one archive for each target. */
  lemma OneArchivePerTarget(r: Release, target: string) returns (i: nat)
    requires Exact(r) && target in TARGETS
    ensures ArchiveFor(r, i, target)
    ensures forall j :: ArchiveFor(r, j, target) ==> j == i
  {
    TargetsOnce(r);
    assert target in Elements(TARGETS);
    i := TargetFrom(r.artifacts, target);
    forall j | ArchiveFor(r, j, target) ensures j == i {
      if j < i {
        RepeatedTarget(r.artifacts, j, i, target);
      } else if i < j {
        RepeatedTarget(r.artifacts, i, j, target);
      }
    }
  }

  lemma SameArchive(r: Release, i: int, j: int, target: string)
    requires Exact(r) && ArchiveFor(r, i, target) && ArchiveFor(r, j, target)
    ensures i == j
  {
    TargetAmong(r.artifacts, i, target);
    assert target in Elements(Image(r.artifacts, TargetOf));
    var only := OneArchivePerTarget(r, target);
  }

  // ----- The loop over the artifacts -----

  /** The loop's dictionaries hold, for each target, what some archive for it states. */
  ghost predicate Recorded(artifacts: seq<Artifact>, archives: map<string, string>, binaries: map<string, string>) {
    && archives.Keys == binaries.Keys == Elements(Image(artifacts, TargetOf))
    && forall target :: target in archives ==>
         exists i :: StatedBy(artifacts, i, target, archives[target], binaries[target])
  }

  ghost predicate StatedBy(artifacts: seq<Artifact>, i: int, target: string, archive: string, binary: string) {
    && 0 <= i < |artifacts| && TargetOf(artifacts[i]) == [target]
    && artifacts[i].digest == archive && artifacts[i].binary == Some(binary)
  }

  lemma StatedStays(done: seq<Artifact>, a: Artifact, archives: map<string, string>, binaries: map<string, string>)
    requires Recorded(done, archives, binaries)
    ensures forall target :: target in archives ==>
              exists i :: StatedBy(done + [a], i, target, archives[target], binaries[target])
  {
    var all := done + [a];
    forall target | target in archives
      ensures exists i :: StatedBy(all, i, target, archives[target], binaries[target])
    {
      var i :| StatedBy(done, i, target, archives[target], binaries[target]);
      assert all[i] == done[i];
      assert StatedBy(all, i, target, archives[target], binaries[target]);
    }
  }

  lemma ArchiveRecorded(done: seq<Artifact>, a: Artifact, archives: map<string, string>, binaries: map<string, string>)
    requires Recorded(done, archives, binaries) && ArtifactValid(a) && IsArchive(a.name)
    ensures Recorded(done + [a], archives[a.target.value := a.digest], binaries[a.target.value := a.binary.value])
  {
    var all, target := done + [a], a.target.value;
    ImageAppend(done, a, TargetOf);
    StatedStays(done, a, archives, binaries);
    assert all[|done|] == a;
    assert StatedBy(all, |done|, target, a.digest, a.binary.value);
    ElementsStep(Image(done, TargetOf), target);
    assert archives[target := a.digest].Keys == archives.Keys + {target};
    assert binaries[target := a.binary.value].Keys == binaries.Keys + {target};
  }

  lemma RecordedGrows(done: seq<Artifact>, a: Artifact, archives: map<string, string>, binaries: map<string, string>)
    requires Recorded(done, archives, binaries) && ArtifactValid(a)
    ensures Recorded(done + [a],
                     if IsArchive(a.name) then archives[a.target.value := a.digest] else archives,
                     if IsArchive(a.name) then binaries[a.target.value := a.binary.value] else binaries)
  {
    if IsArchive(a.name) {
      ArchiveRecorded(done, a, archives, binaries);
    } else {
      ImageAppend(done, a, TargetOf);
      StatedStays(done, a, archives, binaries);
      assert Image(done + [a], TargetOf) == Image(done, TargetOf);
    }
  }

  /** The variables of the loop over the artifacts. */
  datatype Inventory = Inventory(
    subjects: set<string>, bundles: set<string>, archives: map<string, string>, binaries: map<string, string>)

  ghost predicate Inventoried(done: seq<Artifact>, v: Inventory) {
    && AllValid(done) && Distinct(Image(done, NameOf))
    && v.subjects == Elements(Image(done, NameOf)) && v.bundles == Elements(Image(done, BundleNameOf))
    && Recorded(done, v.archives, v.binaries)
  }

  lemma ElementsStep(done: seq<string>, x: string)
    ensures Elements(done + [x]) == Elements(done) + {x}
  {
  }

  /** What is wrong with an artifact, or with its name among the others. */
  ghost predicate Unfit(artifacts: seq<Artifact>, refusal: Refusal) {
    match refusal
    case ReleaseAttestation =>
      !Distinct(Image(artifacts, NameOf)) || exists i :: 0 <= i < |artifacts| && !artifacts[i].attested
    case ReleaseArchive =>
      exists i :: 0 <= i < |artifacts| && IsArchive(artifacts[i].name) && !ArtifactValid(artifacts[i])
    case _ => false
  }

  lemma UnfitEarly(done: seq<Artifact>, rest: seq<Artifact>, refusal: Refusal)
    requires Unfit(done, refusal)
    ensures Unfit(done + rest, refusal)
  {
    var all := done + rest;
    if refusal == ReleaseAttestation && !Distinct(Image(done, NameOf)) {
      ImageConcat(done, rest, NameOf);
      var names, more := Image(done, NameOf), Image(rest, NameOf);
      var i, j :| 0 <= i < j < |names| && names[i] == names[j];
      assert (names + more)[i] == (names + more)[j];
    } else if refusal == ReleaseAttestation {
      var i :| 0 <= i < |done| && !done[i].attested;
      assert all[i] == done[i];
    } else {
      var i :| 0 <= i < |done| && IsArchive(done[i].name) && !ArtifactValid(done[i]);
      assert all[i] == done[i];
    }
  }

  /** What is wrong with a release, by the code that refuses it. */
  ghost predicate Faulty(r: Release, refusal: Refusal) {
    match refusal
    case ReleaseIdentity => !r.identified
    case ReleasePublisher => !r.authenticated
    case ReleaseAssets =>
      || |r.artifacts| != SUBJECTS || Elements(Image(r.artifacts, NameOf)) != Elements(Subjects(r.tag))
      || Elements(Image(r.artifacts, BundleNameOf)) != Elements(Image(Subjects(r.tag), BundleOf))
      || Elements(Image(r.artifacts, TargetOf)) != Elements(TARGETS)
    case _ => Unfit(r.artifacts, refusal)
  }

  /** One artifact entered, unless it is incomplete or its name is already there. */
  method Enter(a: Artifact, v: Inventory, ghost done: seq<Artifact>) returns (r: Result<Inventory>)
    requires Inventoried(done, v)
    ensures r.Accepted? <==> ArtifactValid(a) && Distinct(Image(done + [a], NameOf))
    ensures r.Accepted? ==> Inventoried(done + [a], r.value)
    ensures r.Refused? ==> Unfit(done + [a], r.refusal)
  {
    assert (done + [a])[|done|] == a;
    ImageAppend(done, a, NameOf);
    ImageAppend(done, a, BundleNameOf);
    DistinctAppend(Image(done, NameOf), a.name);
    if a.name in v.subjects || !a.attested {
      return Refused(ReleaseAttestation);
    }
    var w := v.(subjects := v.subjects + {a.name}, bundles := v.bundles + {a.bundle});
    if IsArchive(a.name) {
      if a.target.None? || a.target.value !in TARGETS || a.binary.None? {
        return Refused(ReleaseArchive);
      }
      w := w.(archives := w.archives[a.target.value := a.digest],
              binaries := w.binaries[a.target.value := a.binary.value]);
    }
    RecordedGrows(done, a, v.archives, v.binaries);
    ElementsStep(Image(done, BundleNameOf), a.bundle);
    return Accepted(w);
  }

  /** `validate_release`: it accepts exactly the exact releases, and its dictionaries
      give for every target what the one archive for that target states. */
  method ValidateRelease(r: Release) returns (s: Result<ReleaseSummary>)
    ensures s.Accepted? <==> Exact(r)
    ensures s.Accepted? ==> Summarises(s.value, r)
    ensures s.Refused? ==> Faulty(r, s.refusal)
  {
    if !r.identified {
      return Refused(ReleaseIdentity);
    }
    if |r.artifacts| != SUBJECTS {
      return Refused(ReleaseAssets);
    }
    var v := Inventory({}, {}, map[], map[]);
    ghost var done: seq<Artifact> := [];
    var i := 0;
    while i < |r.artifacts|
      invariant 0 <= i <= |r.artifacts| && done == r.artifacts[..i]
      invariant Inventoried(done, v)
    {
      PrefixGrows(r.artifacts, i);
      var entered := Enter(r.artifacts[i], v, done);
      done := done + [r.artifacts[i]];
      if entered.Refused? {
        Unusable(done, r.artifacts[i + 1..]);
        UnfitEarly(done, r.artifacts[i + 1..], entered.refusal);
        return Refused(entered.refusal);
      }
      v := entered.value;
      i := i + 1;
    }
    assert done == r.artifacts;
    var expected := Subjects(r.tag);
    if || v.subjects != Elements(expected) || v.bundles != Elements(Image(expected, BundleOf))
       || v.archives.Keys != Elements(TARGETS) || v.subjects * v.bundles != {}
    {
      InventoryDisjoint(r);
      return Refused(ReleaseAssets);
    }
    if !r.authenticated {
      return Refused(ReleasePublisher);
    }
    s := Accepted(ReleaseSummary(r.source, r.tag, v.archives, v.binaries));
    RecordedSummarises(r, s.value);
  }

  /** With the right names and bundles the intersection test cannot fail. */
  lemma InventoryDisjoint(r: Release)
    ensures Elements(Image(r.artifacts, NameOf)) == Elements(Subjects(r.tag))
         && Elements(Image(r.artifacts, BundleNameOf)) == Elements(Image(Subjects(r.tag), BundleOf))
         ==> Elements(Image(r.artifacts, NameOf)) * Elements(Image(r.artifacts, BundleNameOf)) == {}
  {
    SubjectsDistinct(r.tag);
    BundlesDistinct(Subjects(r.tag));
    forall name, other | name in Subjects(r.tag) && other in Subjects(r.tag) ensures name != Bundle(other) {
      SubjectsAreNotBundles(r.tag, name, other);
    }
  }

  lemma Unusable(done: seq<Artifact>, rest: seq<Artifact>)
    requires !(AllValid(done) && Distinct(Image(done, NameOf)))
    ensures !(AllValid(done + rest) && Distinct(Image(done + rest, NameOf)))
  {
    var all := done + rest;
    if AllValid(done) {
      ImageConcat(done, rest, NameOf);
      var names, more := Image(done, NameOf), Image(rest, NameOf);
      var i, j :| 0 <= i < j < |names| && names[i] == names[j];
      assert (names + more)[i] == (names + more)[j];
    } else {
      var i :| 0 <= i < |done| && !ArtifactValid(done[i]);
      assert all[i] == done[i];
    }
  }

  /** The summary gives, for each target, the digests of the one archive for it. */
  ghost predicate Summarises(s: ReleaseSummary, r: Release) {
    && s.source == r.source && s.tag == r.tag && s.archives.Keys == s.binaries.Keys == Elements(TARGETS)
    && forall i, target :: ArchiveFor(r, i, target) ==>
         && target in s.archives && s.archives[target] == r.artifacts[i].digest
         && target in s.binaries && Some(s.binaries[target]) == r.artifacts[i].binary
  }

  lemma RecordedSummarises(r: Release, s: ReleaseSummary)
    requires Exact(r) && Recorded(r.artifacts, s.archives, s.binaries) && s.source == r.source && s.tag == r.tag
    ensures Summarises(s, r)
  {
    forall i, target | ArchiveFor(r, i, target)
      ensures target in s.archives && s.archives[target] == r.artifacts[i].digest
      ensures target in s.binaries && Some(s.binaries[target]) == r.artifacts[i].binary
    {
      TargetAmong(r.artifacts, i, target);
      assert target in Elements(Image(r.artifacts, TargetOf));
      var only := OneArchivePerTarget(r, target);
      var j :| StatedBy(r.artifacts, j, target, s.archives[target], s.binaries[target]);
      assert ArchiveFor(r, j, target);
    }
  }

  // ----- What the inventory leaves open -----

  /** The release with bundle `b[i]` on artifact `i`. */
  function WithBundles(artifacts: seq<Artifact>, b: seq<string>): seq<Artifact>
    requires |b| == |artifacts|
  {
    if artifacts == [] then [] else [artifacts[0].(bundle := b[0])] + WithBundles(artifacts[1..], b[1..])
  }

  lemma {:induction false} BundlesReplaced(artifacts: seq<Artifact>, b: seq<string>)
    requires |b| == |artifacts|
    ensures var changed := WithBundles(artifacts, b);
            && |changed| == |artifacts| && Image(changed, BundleNameOf) == b
            && Image(changed, NameOf) == Image(artifacts, NameOf)
            && Image(changed, TargetOf) == Image(artifacts, TargetOf) && (AllValid(changed) <==> AllValid(artifacts))
  {
    if artifacts != [] {
      BundlesReplaced(artifacts[1..], b[1..]);
      var changed := WithBundles(artifacts, b);
      assert changed[1..] == WithBundles(artifacts[1..], b[1..]);
      ValidSplits(changed);
      ValidSplits(artifacts);
    }
  }

  lemma ValidSplits(artifacts: seq<Artifact>)
    requires artifacts != []
    ensures AllValid(artifacts) <==> ArtifactValid(artifacts[0]) && AllValid(artifacts[1..])
  {
    if AllValid(artifacts[1..]) && ArtifactValid(artifacts[0]) {
      forall i | 0 <= i < |artifacts| ensures ArtifactValid(artifacts[i]) {
        if i > 0 {
          assert artifacts[i] == artifacts[1..][i - 1];
        }
      }
    }
  }

  /** Bundles are checked as a set: an exact release stays exact under another assignment
      of bundle names if and only if that is a permutation of the expected names. So an
      accepted subject need not come with the bundle of its own name. */
  lemma BundlesPermutable(r: Release, b: seq<string>)
    requires Exact(r) && |b| == |r.artifacts|
    ensures Exact(r.(artifacts := WithBundles(r.artifacts, b))) <==>
            multiset(b) == multiset(Image(Subjects(r.tag), BundleOf))
  {
    var expected := Image(Subjects(r.tag), BundleOf);
    BundlesReplaced(r.artifacts, b);
    SubjectsDistinct(r.tag);
    BundlesDistinct(Subjects(r.tag));
    SameElementsIff(b, expected);
  }

  /** The release with target `t[k]` on its k-th archive. */
  function WithTargets(artifacts: seq<Artifact>, t: seq<string>): seq<Artifact>
    requires |t| == |Image(artifacts, ArchiveNameOf)|
  {
    if artifacts == [] then []
    else if IsArchive(artifacts[0].name) then
      [artifacts[0].(target := Some(t[0]))] + WithTargets(artifacts[1..], t[1..])
    else [artifacts[0]] + WithTargets(artifacts[1..], t)
  }

  predicate AllTargets(t: seq<string>) { forall i :: 0 <= i < |t| ==> t[i] in TARGETS }

  lemma {:induction false} TargetsReplaced(artifacts: seq<Artifact>, t: seq<string>)
    requires |t| == |Image(artifacts, ArchiveNameOf)| && AllValid(artifacts)
    ensures var changed := WithTargets(artifacts, t);
            && |changed| == |artifacts| && Image(changed, TargetOf) == t
            && Image(changed, NameOf) == Image(artifacts, NameOf)
            && Image(changed, BundleNameOf) == Image(artifacts, BundleNameOf) && (AllValid(changed) <==> AllTargets(t))
  {
    if artifacts != [] {
      var archive := IsArchive(artifacts[0].name);
      var rest := if archive then t[1..] else t;
      ValidSplits(artifacts);
      TargetsReplaced(artifacts[1..], rest);
      var changed := WithTargets(artifacts, t);
      assert changed[1..] == WithTargets(artifacts[1..], rest);
      ValidSplits(changed);
      if archive {
        assert t == [t[0]] + t[1..];
        TargetsSplit(t);
      }
    }
  }

  lemma TargetsSplit(t: seq<string>)
    requires t != []
    ensures AllTargets(t) <==> t[0] in TARGETS && AllTargets(t[1..])
  {
    if AllTargets(t[1..]) && t[0] in TARGETS {
      forall i | 0 <= i < |t| ensures t[i] in TARGETS {
        if i > 0 {
          assert t[i] == t[1..][i - 1];
        }
      }
    }
  }

  /** Targets are checked as a set: an exact release stays exact under another assignment
      of targets to its four archives if and only if that is a permutation of the targets.
      So an accepted archive need not be for the target in its name. */
  lemma TargetsPermutable(r: Release, t: seq<string>)
    requires Exact(r) && |t| == |Image(r.artifacts, ArchiveNameOf)|
    ensures |t| == 4
    ensures Exact(r.(artifacts := WithTargets(r.artifacts, t))) <==> multiset(t) == multiset(TARGETS)
  {
    ArchiveNamesAmong(r.artifacts);
    TargetsOnce(r);
    TargetsReplaced(r.artifacts, t);
    TargetsDistinct();
    SameElementsIff(t, TARGETS);
    if Elements(t) == Elements(TARGETS) {
      forall i | 0 <= i < |t| ensures t[i] in TARGETS {
        assert t[i] in Elements(t);
      }
    }
  }

  // ----- The gate -----

  /** Evidence; `valid` stands for what its own validator demands besides. */
  datatype Product = Product(source: string, initial: string, qualified: string, target: string, valid: bool)

  datatype Evidence = Evidence(source: string, binary: string, valid: bool)

  datatype Native = Native(target: string, source: string, archive: string, binary: string, digest: string, valid: bool)

  datatype GateReport = GateReport(source: string, tag: string, initial: string, qualified: string,
                                   native: map<string, string>)

  function NativeTarget(n: Native): seq<string> { [n.target] }

  /** The native report installed the release's archive for its target. */
  ghost predicate Matches(r: Release, j: int, n: Native) {
    ArchiveFor(r, j, n.target) && r.artifacts[j].digest == n.archive && r.artifacts[j].binary == Some(n.binary)
  }

  ghost predicate Qualifies(r: Release, j: int, p: Product) {
    ArchiveFor(r, j, p.target) && r.artifacts[j].binary == Some(p.qualified)
  }

  ghost predicate Matched(r: Release, n: Native) { exists j :: Matches(r, j, n) }

  ghost predicate Qualified(r: Release, p: Product) { exists j :: Qualifies(r, j, p) }

  ghost predicate AllMatched(r: Release, native: seq<Native>) {
    forall i :: 0 <= i < |native| ==> Matched(r, native[i])
  }

  ghost predicate OneSource(p: Product, chaos: Evidence, agent: Evidence, r: Release, native: seq<Native>) {
    && chaos.source == p.source && agent.source == p.source && r.source == p.source
    && forall i :: 0 <= i < |native| ==> native[i].source == p.source
  }

  /** What the gate accepts. */
  ghost predicate GateHolds(p: Product, chaos: Evidence, agent: Evidence, r: Release, native: seq<Native>) {
    && p.valid && p.target in TARGETS && chaos.valid && agent.valid && Exact(r)
    && (forall i :: 0 <= i < |native| ==> native[i].valid)
    && multiset(Image(native, NativeTarget)) == multiset(TARGETS) && OneSource(p, chaos, agent, r, native)
    && chaos.binary == p.qualified && agent.binary == p.qualified
    && AllMatched(r, native) && Qualified(r, p)
  }

  lemma TargetsSorted()
    ensures IsSorted(TARGETS, TextLe)
  {
    assert TARGETS[0][..8] == "aarch64-" == TARGETS[1][..8] && TARGETS[2][..7] == "x86_64-" == TARGETS[3][..7];
    FourSorted(TARGETS);
  }

  lemma FourSorted(s: seq<string>)
    requires |s| == 4 && |s[0]| > 8 && |s[1]| > 8 && |s[2]| > 7 && |s[3]| > 7
    requires s[0][..8] == s[1][..8] && s[0][8] < s[1][8] && s[1][0] < s[2][0]
    requires s[2][..7] == s[3][..7] && s[2][7] < s[3][7]
    ensures IsSorted(s, TextLe)
  {
    TextLeDiffer(s[0], s[1], 8);
    TextLeDiffer(s[1], s[2], 0);
    TextLeDiffer(s[2], s[3], 7);
    TextLeTransitive(s[0], s[1], s[2]);
    TextLeTransitive(s[0], s[2], s[3]);
    TextLeTransitive(s[1], s[2], s[3]);
  }

  lemma TextOrders()
    ensures TotalPreorder(TextLe) && forall x, y :: TextLe(x, y) && TextLe(y, x) ==> x == y
  {
    TextKeyOrders(TextLe, (x: string) => x);
  }

  /** One native report for each target, in any order. */
  lemma SortedTargets(targets: seq<string>)
    ensures Sorted(targets, TextLe) == TARGETS <==> multiset(targets) == multiset(TARGETS)
  {
    SortedKeeps(targets, TextLe);
    TargetsSorted();
    TextOrders();
    SortedSorts(targets, TextLe);
    if multiset(targets) == multiset(TARGETS) {
      SortedUnique(TARGETS, Sorted(targets, TextLe), TextLe);
    }
  }

  lemma {:induction false} NativeTargetsAt(native: seq<Native>)
    ensures |Image(native, NativeTarget)| == |native|
    ensures forall i :: 0 <= i < |native| ==> Image(native, NativeTarget)[i] == native[i].target
  {
    if native != [] {
      NativeTargetsAt(native[1..]);
    }
  }

  ghost predicate NamesOnce(native: seq<Native>, targets: seq<string>) {
    && |native| == |targets|
    && (forall i, j :: 0 <= i < j < |native| ==> native[i].target != native[j].target)
    && (forall i :: 0 <= i < |native| ==> native[i].target in targets)
    && (forall target :: target in targets ==> exists i :: IsFor(native, i, target))
  }

  ghost predicate IsFor(native: seq<Native>, i: int, target: string) {
    0 <= i < |native| && native[i].target == target
  }

  /** A permutation of a list of distinct targets names every target once. */
  lemma NativeMatrixOnce(native: seq<Native>, targets: seq<string>)
    requires Distinct(targets) && multiset(Image(native, NativeTarget)) == multiset(targets)
    ensures NamesOnce(native, targets)
  {
    var given := Image(native, NativeTarget);
    NativeTargetsAt(native);
    DistinctIgnoresOrder(targets, given);
    PermutationMembers(targets, given);
    forall i, j | 0 <= i < j < |native| ensures native[i].target != native[j].target {
      assert given[i] != given[j];
    }
    forall i | 0 <= i < |native| ensures native[i].target in targets {
      assert given[i] in given;
    }
    forall target | target in targets ensures exists i :: IsFor(native, i, target) {
      var i :| 0 <= i < |given| && given[i] == target;
      assert IsFor(native, i, target);
    }
  }

  /** An accepted gate pairs, for every target, exactly one native report with exactly one
      archive of the release, with equal archive and binary digests. */
  lemma GateBijection(p: Product, chaos: Evidence, agent: Evidence, r: Release, native: seq<Native>, target: string)
    returns (i: nat, j: nat)
    requires GateHolds(p, chaos, agent, r, native) && target in TARGETS
    ensures |native| == 4 && i < 4 && native[i].target == target && Matches(r, j, native[i])
    ensures forall k :: 0 <= k < |native| && native[k].target == target ==> k == i
    ensures forall k :: ArchiveFor(r, k, target) ==> k == j
  {
    TargetsDistinct();
    NativeMatrixOnce(native, TARGETS);
    var n :| IsFor(native, n, target);
    i := n;
    j := OneArchivePerTarget(r, target);
    assert Matched(r, native[i]);
    var k :| Matches(r, k, native[i]);
    assert k == j;
  }

  /** The binary qualified by the product run is the one installed natively for the
      product's target. */
  lemma QualifiedIsInstalled(p: Product, chaos: Evidence, agent: Evidence, r: Release, native: seq<Native>, i: nat)
    requires GateHolds(p, chaos, agent, r, native) && i < |native| && native[i].target == p.target
    ensures native[i].binary == p.qualified == chaos.binary == agent.binary
  {
    var j :| Qualifies(r, j, p);
    assert Matched(r, native[i]);
    var k :| Matches(r, k, native[i]);
    SameArchive(r, j, k, p.target);
  }

  /** The native digests by target. */
  method NativeDigests(native: seq<Native>) returns (digests: map<string, string>)
    requires forall i, j :: 0 <= i < j < |native| ==> native[i].target != native[j].target
    ensures forall i :: 0 <= i < |native| ==>
              native[i].target in digests && digests[native[i].target] == native[i].digest
    ensures |digests| == |native|
  {
    digests := map[];
    var i := 0;
    while i < |native|
      invariant 0 <= i <= |native| && |digests| == i
      invariant forall k :: 0 <= k < i ==> native[k].target in digests && digests[native[k].target] == native[k].digest
      invariant forall k :: i <= k < |native| ==> native[k].target !in digests
    {
      digests := digests[native[i].target := native[i].digest];
      i := i + 1;
    }
  }

  /** The dictionaries decide whether a native report matches. */
  lemma MatchedIff(s: ReleaseSummary, r: Release, n: Native)
    requires Exact(r) && Summarises(s, r) && n.target in TARGETS
    ensures n.target in s.archives && n.target in s.binaries
    ensures Matched(r, n) <==> n.archive == s.archives[n.target] && n.binary == s.binaries[n.target]
  {
    assert n.target in Elements(TARGETS);
    var only := OneArchivePerTarget(r, n.target);
    assert ArchiveFor(r, only, n.target);
    if n.archive == s.archives[n.target] && n.binary == s.binaries[n.target] {
      assert Matches(r, only, n);
    }
  }

  lemma QualifiedIff(s: ReleaseSummary, r: Release, p: Product)
    requires Exact(r) && Summarises(s, r) && p.target in TARGETS
    ensures p.target in s.binaries && (Qualified(r, p) <==> p.qualified == s.binaries[p.target])
  {
    assert p.target in Elements(TARGETS);
    var only := OneArchivePerTarget(r, p.target);
    assert ArchiveFor(r, only, p.target);
    if p.qualified == s.binaries[p.target] {
      assert Qualifies(r, only, p);
    }
  }

  /** Whether every native report agrees with the release's dictionaries. */
  method NativeAgrees(s: ReleaseSummary, r: Release, native: seq<Native>) returns (agrees: bool)
    requires Exact(r) && Summarises(s, r) && forall i :: 0 <= i < |native| ==> native[i].target in TARGETS
    ensures agrees <==> AllMatched(r, native)
  {
    var i := 0;
    while i < |native|
      invariant 0 <= i <= |native| && forall k :: 0 <= k < i ==> Matched(r, native[k])
    {
      var n := native[i];
      MatchedIff(s, r, n);
      if n.archive != s.archives[n.target] || n.binary != s.binaries[n.target] {
        return false;
      }
      i := i + 1;
    }
    return true;
  }

  method AllNativeValid(native: seq<Native>) returns (valid: bool)
    ensures valid <==> forall i :: 0 <= i < |native| ==> native[i].valid
  {
    var i := 0;
    while i < |native|
      invariant 0 <= i <= |native| && forall k :: 0 <= k < i ==> native[k].valid
    {
      if !native[i].valid {
        return false;
      }
      i := i + 1;
    }
    return true;
  }

  method AllFrom(native: seq<Native>, source: string) returns (sourced: bool)
    ensures sourced <==> forall i :: 0 <= i < |native| ==> native[i].source == source
  {
    var i := 0;
    while i < |native|
      invariant 0 <= i <= |native| && forall k :: 0 <= k < i ==> native[k].source == source
    {
      if native[i].source != source {
        return false;
      }
      i := i + 1;
    }
    return true;
  }

  /** Exactly one native report for each target, by comparing the sorted targets. */
  method CheckMatrix(native: seq<Native>) returns (complete: bool)
    ensures complete <==> multiset(Image(native, NativeTarget)) == multiset(TARGETS)
    ensures complete ==> NamesOnce(native, TARGETS)
  {
    SortedTargets(Image(native, NativeTarget));
    complete := Sorted(Image(native, NativeTarget), TextLe) == TARGETS;
    if complete {
      TargetsDistinct();
      NativeMatrixOnce(native, TARGETS);
    }
  }

  /** What the gate is missing, by the code that refuses it. */
  ghost predicate Shortfall(p: Product, chaos: Evidence, agent: Evidence, r: Release, native: seq<Native>,
                            refusal: Refusal)
  {
    match refusal
    case InvalidEvidence =>
      || !p.valid || p.target !in TARGETS || !chaos.valid || !agent.valid
      || exists i :: 0 <= i < |native| && !native[i].valid
    case NativeMatrix => multiset(Image(native, NativeTarget)) != multiset(TARGETS)
    case SourceMismatch => !OneSource(p, chaos, agent, r, native)
    case BinaryMismatch => chaos.binary != p.qualified || agent.binary != p.qualified
    case ReleaseBinaryMismatch => !AllMatched(r, native) || !Qualified(r, p)
    case _ => Faulty(r, refusal)
  }

  /** One commit, one qualified binary, and digests that match the release. */
  method CheckBindings(p: Product, chaos: Evidence, agent: Evidence, r: Release, s: ReleaseSummary, native: seq<Native>)
    returns (fault: Option<Refusal>)
    requires Exact(r) && Summarises(s, r) && p.target in TARGETS && NamesOnce(native, TARGETS)
    ensures fault.Some? ==> Shortfall(p, chaos, agent, r, native, fault.value)
    ensures fault.None? <==>
            && OneSource(p, chaos, agent, r, native) && chaos.binary == p.qualified && agent.binary == p.qualified
            && AllMatched(r, native) && Qualified(r, p)
  {
    var sourced := AllFrom(native, p.source);
    if !(chaos.source == p.source && agent.source == p.source && s.source == p.source && sourced) {
      return Some(SourceMismatch);
    }
    if chaos.binary != p.qualified || agent.binary != p.qualified {
      return Some(BinaryMismatch);
    }
    var agrees := NativeAgrees(s, r, native);
    QualifiedIff(s, r, p);
    if !agrees || p.qualified != s.binaries[p.target] {
      return Some(ReleaseBinaryMismatch);
    }
    return None;
  }

  /** `build_gate`: it passes exactly when the gate holds, and lists one native digest
      for each target. */
  method BuildGate(p: Product, chaos: Evidence, agent: Evidence, r: Release, native: seq<Native>)
    returns (g: Result<GateReport>)
    ensures g.Accepted? <==> GateHolds(p, chaos, agent, r, native)
    ensures g.Refused? ==> Shortfall(p, chaos, agent, r, native, g.refusal)
    ensures g.Accepted? ==>
              && g.value.source == p.source && g.value.tag == r.tag
              && g.value.initial == p.initial && g.value.qualified == p.qualified && |g.value.native| == 4
              && forall i :: 0 <= i < |native| ==>
                   native[i].target in g.value.native && g.value.native[native[i].target] == native[i].digest
  {
    if !p.valid || p.target !in TARGETS || !chaos.valid || !agent.valid {
      return Refused(InvalidEvidence);
    }
    var release := ValidateRelease(r);
    if release.Refused? {
      return Refused(release.refusal);
    }
    var valid := AllNativeValid(native);
    if !valid {
      return Refused(InvalidEvidence);
    }
    var complete := CheckMatrix(native);
    if !complete {
      return Refused(NativeMatrix);
    }
    var fault := CheckBindings(p, chaos, agent, r, release.value, native);
    if fault.Some? {
      return Refused(fault.value);
    }
    var digests := NativeDigests(native);
    return Accepted(GateReport(p.source, release.value.tag, p.initial, p.qualified, digests));
  }
}
