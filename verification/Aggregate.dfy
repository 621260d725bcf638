/** The five-participant gate: verified reports are re-validated, reconciled and added
    up, and the thresholds are applied to the totals. */
module Aggregate {
  import opened Collections
  import opened Sorting
  import opened Judgement
  import opened AlphaTrial

  const USERS := 5
  const ATTEMPTS := 50
  const MINIMUM_SUCCESSES := 35
  const MINIMUM_SPEEDUP := 3.0

  /** A verified report; `claims` are the values of its authority fields. */
  datatype Report = Report(
    harness: string, input: string, passes: bool, trial: Trial, summary: Summary, claims: seq<bool>)

  /** A report with the digest of the file it came from. */
  datatype Submission = Submission(report: Report, digest: string)

  datatype Binding = Binding(binary: string, source: string, harness: string)

  datatype Record = Record(participant: string, trial: string, digest: string, passes: bool)

  datatype Gate = Gate(
    passed: bool, release: Binding, publisherVerified: bool, records: seq<Record>, users: nat, classes: Tally,
    counters: Counters, samples: nat, median: Option<real>)

  datatype Rejection =
    | ParticipantCount | ForeignHarness | InvalidTrial(refusal: Refusal) | ReportMismatch | AuthorityClaim
    | DuplicateParticipant | DuplicateTrial | ConflictingRelease | AttemptCount

  datatype Outcome<T> = Reported(value: T) | Rejected(rejection: Rejection)

  // ----- The median -----

  predicate RealLe(a: real, b: real) { a <= b }

  function AtLeast(bound: real): real -> int { (x: real) => if x >= bound then 1 else 0 }

  function AtMost(bound: real): real -> int { (x: real) => if x <= bound then 1 else 0 }

  /** `_median`: the middle of the sorted values. */
  function Median(values: seq<real>): Option<real> {
    Middle(Sorted(values, RealLe))
  }

  function Middle(ordered: seq<real>): Option<real> {
    var middle := |ordered| / 2;
    if ordered == [] then None
    else if |ordered| % 2 == 1 then Some(ordered[middle])
    else Some((ordered[middle - 1] + ordered[middle]) / 2.0)
  }

  lemma {:induction false} SumAtLeastOnes(s: seq<real>, f: real -> int, from: nat, to: nat)
    requires from <= to <= |s|
    requires forall i :: 0 <= i < |s| ==> f(s[i]) >= 0
    requires forall i :: from <= i < to ==> f(s[i]) == 1
    ensures SumBy(s, f) >= to - from
  {
    if s != [] {
      var rest := s[1..];
      forall i | 0 <= i < |rest| ensures rest[i] == s[i + 1] {
      }
      SumAtLeastOnes(rest, f, if from == 0 then 0 else from - 1, if to == 0 then 0 else to - 1);
    }
  }

  /** At least half of the values are no smaller than the median and at least half are
      no larger. */
  lemma MedianHalves(values: seq<real>, m: real)
    requires Median(values) == Some(m)
    ensures 2 * SumBy(values, AtLeast(m)) >= |values|
    ensures 2 * SumBy(values, AtMost(m)) >= |values|
  {
    SortedKeeps(values, RealLe);
    SortedSorts(values, RealLe);
    HalvesTransfer(values, Sorted(values, RealLe), m);
  }

  lemma HalvesTransfer(values: seq<real>, ordered: seq<real>, m: real)
    requires multiset(values) == multiset(ordered) && IsSorted(ordered, RealLe) && Middle(ordered) == Some(m)
    ensures 2 * SumBy(values, AtLeast(m)) >= |ordered| && 2 * SumBy(values, AtMost(m)) >= |ordered|
  {
    SumIgnoresOrder(values, ordered, AtLeast(m));
    SumIgnoresOrder(values, ordered, AtMost(m));
    SortedMedianHalves(ordered, m);
  }

  lemma SortedMedianHalves(ordered: seq<real>, m: real)
    requires IsSorted(ordered, RealLe) && Middle(ordered) == Some(m)
    ensures 2 * SumBy(ordered, AtLeast(m)) >= |ordered| && 2 * SumBy(ordered, AtMost(m)) >= |ordered|
  {
    var middle := |ordered| / 2;
    var low := if |ordered| % 2 == 1 then middle else middle - 1;
    assert ordered[low] <= m <= ordered[middle] by {
      if low < middle {
        assert RealLe(ordered[low], ordered[middle]);
      }
    }
    forall i | middle <= i < |ordered| ensures ordered[i] >= m {
      assert i > middle ==> RealLe(ordered[middle], ordered[i]);
    }
    forall i | 0 <= i <= low ensures ordered[i] <= m {
      assert i < low ==> RealLe(ordered[i], ordered[low]);
    }
    SumAtLeastOnes(ordered, AtLeast(m), middle, |ordered|);
    SumAtLeastOnes(ordered, AtMost(m), 0, low + 1);
  }

  /** The median is the middle of any sorted list of the values: the one in the middle, or the
      mean of the two. */
  lemma MedianIsMiddle(values: seq<real>, ordered: seq<real>)
    requires multiset(ordered) == multiset(values) && IsSorted(ordered, RealLe) && values != []
    ensures |ordered| == |values|
    ensures var n := |values| / 2;
            Median(values) == Some(if |values| % 2 == 1 then ordered[n] else (ordered[n - 1] + ordered[n]) / 2.0)
  {
    assert |multiset(ordered)| == |ordered| && |multiset(values)| == |values|;
    MiddleOfSorted(values, ordered);
  }

  function Negated(values: seq<real>): (negated: seq<real>)
    ensures |negated| == |values|
  {
    seq(|values|, i requires 0 <= i < |values| => -values[i])
  }

  function Backwards(values: seq<real>): (reversed: seq<real>)
    ensures |reversed| == |values|
  {
    seq(|values|, i requires 0 <= i < |values| => values[|values| - 1 - i])
  }

  lemma {:induction false} BackwardsPermutes(values: seq<real>)
    ensures multiset(Backwards(values)) == multiset(values)
  {
    if values != [] {
      BackwardsPermutes(values[1..]);
      assert Backwards(values) == Backwards(values[1..]) + [values[0]];
      assert values == [values[0]] + values[1..];
    }
  }

  lemma {:induction false} NegatedPermutes(a: seq<real>, b: seq<real>)
    requires multiset(a) == multiset(b)
    ensures multiset(Negated(a)) == multiset(Negated(b))
  {
    forall x ensures multiset(Negated(a))[x] == multiset(Negated(b))[x] {
      NegatedCount(a, x);
      NegatedCount(b, x);
    }
  }

  lemma {:induction false} NegatedCount(values: seq<real>, x: real)
    ensures multiset(Negated(values))[x] == multiset(values)[-x]
  {
    if values != [] {
      NegatedCount(values[1..], x);
      assert Negated(values) == [-values[0]] + Negated(values[1..]);
      assert values == [values[0]] + values[1..];
    }
  }

  function Mirrored(values: seq<real>): (mirrored: seq<real>)
    ensures |mirrored| == |values|
    ensures forall i :: 0 <= i < |values| ==> mirrored[i] == -values[|values| - 1 - i]
  {
    Backwards(Negated(values))
  }

  lemma MirroredSorted(ordered: seq<real>)
    requires IsSorted(ordered, RealLe)
    ensures IsSorted(Mirrored(ordered), RealLe)
  {
    var mirrored := Mirrored(ordered);
    forall i, j | 0 <= i < j < |mirrored| ensures RealLe(mirrored[i], mirrored[j]) {
      assert RealLe(ordered[|ordered| - 1 - j], ordered[|ordered| - 1 - i]);
    }
  }

  lemma MirroredMiddle(ordered: seq<real>)
    requires ordered != []
    ensures Middle(ordered).Some? && Middle(Mirrored(ordered)) == Some(-Middle(ordered).value)
  {
  }

  lemma MiddleOfSorted(values: seq<real>, ordered: seq<real>)
    requires multiset(ordered) == multiset(values) && IsSorted(ordered, RealLe)
    ensures Median(values) == Middle(ordered)
  {
    SortedKeeps(values, RealLe);
    SortedSorts(values, RealLe);
    SortedUnique(Sorted(values, RealLe), ordered, RealLe);
  }

  /** The median favours neither side: negating all values negates it. */
  lemma MedianNegates(values: seq<real>)
    requires values != []
    ensures Median(values).Some? && Median(Negated(values)) == Some(-Median(values).value)
  {
    var ordered := Sorted(values, RealLe);
    SortedKeeps(values, RealLe);
    SortedSorts(values, RealLe);
    assert values[0] in multiset(ordered);
    BackwardsPermutes(Negated(ordered));
    NegatedPermutes(ordered, values);
    MirroredSorted(ordered);
    MiddleOfSorted(Negated(values), Mirrored(ordered));
    MirroredMiddle(ordered);
  }

  lemma {:induction false} AtLeastMonotone(values: seq<real>, low: real, high: real)
    requires low <= high
    ensures SumBy(values, AtLeast(high)) <= SumBy(values, AtLeast(low))
  {
    if values != [] {
      AtLeastMonotone(values[1..], low, high);
    }
  }

  lemma MedianIgnoresOrder(a: seq<real>, b: seq<real>)
    requires multiset(a) == multiset(b)
    ensures Median(a) == Median(b)
  {
    SortedIgnoresOrder(a, b, RealLe);
    assert |multiset(a)| == |a| && |multiset(b)| == |b|;
  }

  // ----- One report -----

  predicate NoClaims(claims: seq<bool>) { forall i :: 0 <= i < |claims| ==> !claims[i] }

  /** The report follows from its own trial. */
  ghost predicate Reconciles(env: Env, r: Report) {
    r.harness == env.harness && NoClaims(r.claims) && exists v :: Follows(env, r, v)
  }

  ghost predicate Follows(env: Env, r: Report, v: Verdict) {
    Validates(env, r.trial, Skipped, v) && r.summary == v.summary && r.passes == v.passes
  }

  /** `verify_trial_document`: whatever it reports reconciles when it is aggregated. */
  method VerifyDocument(env: Env, t: Trial, input: string, look: Inspection) returns (r: Result<Report>)
    requires DistinctSpecs(env.specs)
    ensures r.Accepted? <==> HasVerdict(env, t, look)
    ensures r.Accepted? ==> Reconciles(env, r.value) && r.value.input == input
    ensures r.Accepted? ==>
              r.value.trial.participant == t.participant && multiset(r.value.trial.scenarios) == multiset(t.scenarios)
  {
    var v := ValidateTrial(env, t, look);
    if v.Refused? {
      return Refused(v.refusal);
    }
    r := Accepted(Report(env.harness, input, v.value.passes, v.value.trial, v.value.summary,
                         [false, false, false, false, false, false]));
    DocumentReconciles(env, t, look, v.value, r.value);
  }

  lemma DocumentReconciles(env: Env, t: Trial, look: Inspection, v: Verdict, r: Report)
    requires DistinctSpecs(env.specs) && Validates(env, t, look, v)
    requires r.harness == env.harness && NoClaims(r.claims)
    requires r.trial == v.trial && r.summary == v.summary && r.passes == v.passes
    ensures Reconciles(env, r) && r.trial.participant == t.participant
            && multiset(r.trial.scenarios) == multiset(t.scenarios)
  {
    NormalisedRevalidates(env, t, look, v);
    NothingLost(env, t, look, v);
    assert Follows(env, r, v);
  }

  /** What is wrong with a report, by the code that rejects it. */
  ghost predicate Blamed(env: Env, r: Report, rejection: Rejection) {
    match rejection
    case ForeignHarness => r.harness != env.harness
    case InvalidTrial(refusal) => Earned(env, r.trial, Skipped, refusal)
    case ReportMismatch =>
      exists v :: Validates(env, r.trial, Skipped, v) && (r.summary != v.summary || r.passes != v.passes)
    case AuthorityClaim => !NoClaims(r.claims)
    case _ => false
  }

  method CheckReport(env: Env, r: Report) returns (fault: Option<Rejection>)
    requires DistinctSpecs(env.specs)
    ensures fault.None? <==> Reconciles(env, r)
    ensures fault.Some? ==> Blamed(env, r, fault.value)
  {
    if r.harness != env.harness {
      return Some(ForeignHarness);
    }
    var v := ValidateTrial(env, r.trial, Skipped);
    if v.Refused? {
      return Some(InvalidTrial(v.refusal));
    }
    if r.summary != v.value.summary || r.passes != v.value.passes {
      OnlyVerdict(env, r, v.value);
      return Some(ReportMismatch);
    }
    assert Follows(env, r, v.value);
    if true in r.claims {
      var i :| 0 <= i < |r.claims| && r.claims[i];
      return Some(AuthorityClaim);
    }
    return None;
  }

  lemma OnlyVerdict(env: Env, r: Report, v: Verdict)
    requires Validates(env, r.trial, Skipped, v)
    ensures forall w :: Follows(env, r, w) ==> w == v
  {
    forall w | Follows(env, r, w) ensures w == v {
      VerdictUnique(env, r.trial, Skipped, v, w);
    }
  }

  // ----- The totals -----

  function ParticipantOf(s: Submission): seq<string> { [s.report.trial.participant.id] }

  function TrialOf(s: Submission): seq<string> { [s.report.trial.id] }

  function BindingOf(s: Submission): Binding {
    var release := s.report.trial.release;
    Binding(release.binary, release.source, release.harness)
  }

  function RecordOf(s: Submission): seq<Record> {
    [Record(s.report.trial.participant.id, s.report.trial.id, s.digest, s.report.passes)]
  }

  function SamplesOf(s: Submission): seq<real> { s.report.summary.samples }

  predicate IsOutside(s: Submission) { s.report.trial.participant.outside && !s.report.trial.participant.simulation }

  predicate IsPublished(s: Submission) { s.report.trial.release.publisher.status == Verified }

  predicate All(subs: seq<Submission>, p: Submission -> bool) { forall i :: 0 <= i < |subs| ==> p(subs[i]) }

  function ClassesOf(subs: seq<Submission>): Tally {
    Tally(SumBy(subs, (s: Submission) => s.report.summary.classes.admitted),
          SumBy(subs, (s: Submission) => s.report.summary.classes.refused),
          SumBy(subs, IncorrectIn),
          SumBy(subs, IncompleteIn),
          SumBy(subs, (s: Submission) => s.report.summary.classes.unsupported))
  }

  function CountersIn(subs: seq<Submission>): Counters {
    Counters(SumBy(subs, (s: Submission) => s.report.summary.counters.providerExecutions),
             SumBy(subs, (s: Submission) => s.report.summary.counters.exactReuseHits),
             SumBy(subs, (s: Submission) => s.report.summary.counters.inflightJoins),
             SumBy(subs, (s: Submission) => s.report.summary.counters.cancellations),
             SumBy(subs, FalseHitsIn))
  }

  predicate ByParticipant(a: Record, b: Record) { TextLe(a.participant, b.participant) }

  /** What the loop over the reports collects. */
  datatype Totals = Totals(
    classes: Tally, counters: Counters, samples: seq<real>, records: seq<Record>, outside: bool, published: bool)

  function TotalsOf(subs: seq<Submission>): Totals {
    Totals(ClassesOf(subs), CountersIn(subs), Image(subs, SamplesOf), Image(subs, RecordOf),
           All(subs, IsOutside), All(subs, IsPublished))
  }

  predicate Thresholds(t: Totals) {
    && t.outside && t.published && t.classes.admitted >= MINIMUM_SUCCESSES
    && Median(t.samples).Some? && Median(t.samples).value >= MINIMUM_SPEEDUP
    && t.classes.incorrect == 0 && t.counters.falseHits == 0 && t.classes.incomplete == 0
  }

  function GateOf(env: Env, t: Totals, release: Binding, users: nat): Gate {
    var median := Median(t.samples);
    Gate(Thresholds(t), release, t.published, Sorted(t.records, ByParticipant), users, t.classes, t.counters,
         |t.samples|, if median.None? then None else Some(env.round(median.value)))
  }

  ghost predicate SameRelease(subs: seq<Submission>) {
    forall i, j :: 0 <= i < |subs| && 0 <= j < |subs| ==> BindingOf(subs[i]) == BindingOf(subs[j])
  }

  ghost predicate Acceptable(env: Env, subs: seq<Submission>) {
    && |subs| == USERS && (forall i :: 0 <= i < |subs| ==> Reconciles(env, subs[i].report))
    && Distinct(Image(subs, ParticipantOf)) && Distinct(Image(subs, TrialOf)) && SameRelease(subs)
  }

  /** What the aggregation of accepted reports is. */
  function Aggregated(env: Env, subs: seq<Submission>): Gate
    requires subs != []
  {
    GateOf(env, TotalsOf(subs), BindingOf(subs[0]), |subs|)
  }

  // ----- The order of the reports -----

  lemma SumsIgnoreOrder(a: seq<Submission>, b: seq<Submission>)
    requires multiset(a) == multiset(b)
    ensures ClassesOf(a) == ClassesOf(b) && CountersIn(a) == CountersIn(b)
  {
    SumIgnoresOrder(a, b, (s: Submission) => s.report.summary.classes.admitted);
    SumIgnoresOrder(a, b, (s: Submission) => s.report.summary.classes.refused);
    SumIgnoresOrder(a, b, IncorrectIn);
    SumIgnoresOrder(a, b, IncompleteIn);
    SumIgnoresOrder(a, b, (s: Submission) => s.report.summary.classes.unsupported);
    SumIgnoresOrder(a, b, (s: Submission) => s.report.summary.counters.providerExecutions);
    SumIgnoresOrder(a, b, (s: Submission) => s.report.summary.counters.exactReuseHits);
    SumIgnoresOrder(a, b, (s: Submission) => s.report.summary.counters.inflightJoins);
    SumIgnoresOrder(a, b, (s: Submission) => s.report.summary.counters.cancellations);
    SumIgnoresOrder(a, b, FalseHitsIn);
  }

  lemma AllIgnoresOrder(a: seq<Submission>, b: seq<Submission>, p: Submission -> bool)
    requires multiset(a) == multiset(b)
    ensures All(a, p) == All(b, p)
  {
    PermutationMembers(a, b);
    AllMembers(a, p);
    AllMembers(b, p);
  }

  lemma AllMembers(subs: seq<Submission>, p: Submission -> bool)
    ensures All(subs, p) <==> forall x :: x in subs ==> p(x)
  {
    if forall x :: x in subs ==> p(x) {
      forall i | 0 <= i < |subs| ensures p(subs[i]) {
        assert subs[i] in subs;
      }
    }
  }

  /** Records of distinct participants are told apart by their sort key. */
  lemma {:induction false} RecordsKeyed(subs: seq<Submission>)
    ensures |Image(subs, RecordOf)| == |Image(subs, ParticipantOf)| == |subs|
    ensures forall i :: 0 <= i < |subs| ==>
              && Image(subs, RecordOf)[i] == RecordOf(subs[i])[0]
              && Image(subs, ParticipantOf)[i] == subs[i].report.trial.participant.id
  {
    if subs != [] {
      RecordsKeyed(subs[1..]);
    }
  }

  lemma RecordsDistinguished(records: seq<Record>, ids: seq<string>)
    requires |records| == |ids| && Distinct(ids)
    requires forall i :: 0 <= i < |ids| ==> ids[i] == records[i].participant
    ensures Distinguishes(ByParticipant, records)
  {
    forall x, y | x in records && y in records && ByParticipant(x, y) && ByParticipant(y, x) ensures x == y {
      TextLeTotal(x.participant, y.participant);
      var i :| 0 <= i < |records| && records[i] == x;
      var j :| 0 <= j < |records| && records[j] == y;
      assert ids[i] == ids[j];
    }
  }

  lemma ByParticipantOrders()
    ensures TotalPreorder(ByParticipant)
  {
    TextKeyOrders(ByParticipant, (r: Record) => r.participant);
  }

  lemma RecordsIgnoreOrder(a: seq<Submission>, b: seq<Submission>)
    requires multiset(a) == multiset(b) && Distinct(Image(a, ParticipantOf))
    ensures Sorted(Image(a, RecordOf), ByParticipant) == Sorted(Image(b, RecordOf), ByParticipant)
  {
    ImageIgnoresOrder(a, b, RecordOf);
    ByParticipantOrders();
    RecordsKeyed(a);
    RecordsDistinguished(Image(a, RecordOf), Image(a, ParticipantOf));
    SortedIgnoresOrder(Image(a, RecordOf), Image(b, RecordOf), ByParticipant);
  }

  /** Permuting the reports together with their digests changes neither whether they are
      accepted nor the aggregate. */
  lemma OrderIrrelevant(env: Env, a: seq<Submission>, b: seq<Submission>)
    requires multiset(a) == multiset(b) && Acceptable(env, a)
    ensures Acceptable(env, b) && Aggregated(env, b) == Aggregated(env, a)
  {
    AcceptableIgnoresOrder(env, a, b);
    PermutationMembers(a, b);
    assert b[0] in a;
    SumsIgnoreOrder(a, b);
    AllIgnoresOrder(a, b, IsOutside);
    AllIgnoresOrder(a, b, IsPublished);
    ImageIgnoresOrder(a, b, SamplesOf);
    RecordsIgnoreOrder(a, b);
    GateIgnoresOrder(env, TotalsOf(a), TotalsOf(b), BindingOf(a[0]), |a|);
  }

  lemma GateIgnoresOrder(env: Env, t: Totals, u: Totals, release: Binding, users: nat)
    requires t.classes == u.classes && t.counters == u.counters && t.outside == u.outside && t.published == u.published
    requires multiset(t.samples) == multiset(u.samples)
    requires Sorted(t.records, ByParticipant) == Sorted(u.records, ByParticipant)
    ensures GateOf(env, t, release, users) == GateOf(env, u, release, users)
  {
    MedianIgnoresOrder(t.samples, u.samples);
    assert |multiset(t.samples)| == |multiset(u.samples)|;
  }

  lemma AcceptableIgnoresOrder(env: Env, a: seq<Submission>, b: seq<Submission>)
    requires multiset(a) == multiset(b) && Acceptable(env, a)
    ensures Acceptable(env, b)
  {
    PermutationMembers(a, b);
    ImageIgnoresOrder(a, b, ParticipantOf);
    ImageIgnoresOrder(a, b, TrialOf);
    DistinctIgnoresOrder(Image(a, ParticipantOf), Image(b, ParticipantOf));
    DistinctIgnoresOrder(Image(a, TrialOf), Image(b, TrialOf));
    forall i | 0 <= i < |b| ensures Reconciles(env, b[i].report) && BindingOf(b[i]) == BindingOf(a[0]) {
      assert b[i] in a;
      var k :| 0 <= k < |a| && a[k] == b[i];
    }
  }

  // ----- The gate -----

  /** The environment of the shipped harness. */
  ghost predicate Standard(env: Env) { env.specs == SCENARIOS }

  lemma StandardSpecs()
    ensures DistinctSpecs(SCENARIOS) && |SCENARIOS| == 10
  {
    assert forall i, j :: 0 <= i < j < |SCENARIOS| ==> |SCENARIOS[i].id| != |SCENARIOS[j].id|;
  }

  lemma FourUntimed()
    ensures SumBy(SCENARIOS, Untimed) == 4
  {
    UntimedPairs(SCENARIOS);
  }

  lemma UntimedPairs(specs: seq<Spec>)
    requires |specs| == 10
    ensures SumBy(specs, Untimed) == Untimed(specs[0]) + Untimed(specs[1]) + Untimed(specs[2]) + Untimed(specs[3])
              + Untimed(specs[4]) + Untimed(specs[5]) + Untimed(specs[6]) + Untimed(specs[7]) + Untimed(specs[8])
              + Untimed(specs[9])
  {
    SumOfTwo(specs);
    SumOfTwo(specs[2..]);
    SumOfTwo(specs[4..]);
    SumOfTwo(specs[6..]);
    SumOfTwo(specs[8..]);
    assert specs[10..] == [];
  }

  lemma SumOfTwo(specs: seq<Spec>)
    requires |specs| >= 2
    ensures SumBy(specs, Untimed) == Untimed(specs[0]) + Untimed(specs[1]) + SumBy(specs[2..], Untimed)
  {
    assert specs[1..][1..] == specs[2..];
  }

  ghost predicate AllReconcile(env: Env, subs: seq<Submission>) {
    forall i :: 0 <= i < |subs| ==> Reconciles(env, subs[i].report)
  }

  /** What each reconciled report contributes. */
  lemma ReportFacts(env: Env, r: Report)
    requires DistinctSpecs(env.specs) && Reconciles(env, r)
    ensures Attempts(r.summary.classes) == |env.specs|
    ensures r.summary.classes.admitted <= |r.summary.samples| + SumBy(env.specs, Untimed)
    ensures r.summary.classes.incorrect >= 0 && r.summary.classes.incomplete >= 0 && r.summary.counters.falseHits >= 0
    ensures r.passes == Passes(r.trial, r.summary.classes)
    ensures r.summary.counters.falseHits == 0 ==> forall s :: s in r.trial.scenarios ==> s.counters.falseHits == 0
  {
    var v :| Follows(env, r, v);
    VerdictCounts(env, r.trial, Skipped, v);
    VerdictFalseHits(env, r.trial, Skipped, v);
  }

  lemma {:induction false} AttemptsTotal(subs: seq<Submission>, each: int)
    requires forall i :: 0 <= i < |subs| ==> Attempts(subs[i].report.summary.classes) == each
    ensures Attempts(ClassesOf(subs)) == each * |subs|
  {
    if subs != [] {
      AttemptsTotal(subs[1..], each);
      Times(each, |subs|);
    }
  }

  lemma {:induction false} SamplesTotal(subs: seq<Submission>, slack: int)
    requires forall i :: 0 <= i < |subs| ==> subs[i].report.summary.classes.admitted <= |SamplesOf(subs[i])| + slack
    ensures ClassesOf(subs).admitted <= |Image(subs, SamplesOf)| + slack * |subs|
  {
    if subs != [] {
      SamplesTotal(subs[1..], slack);
      Times(slack, |subs|);
    }
  }

  /** Totals over the reports: attempts, and samples against admitted successes. */
  lemma TotalsBound(env: Env, subs: seq<Submission>)
    requires DistinctSpecs(env.specs) && AllReconcile(env, subs)
    ensures Attempts(ClassesOf(subs)) == |env.specs| * |subs|
    ensures ClassesOf(subs).admitted <= |Image(subs, SamplesOf)| + SumBy(env.specs, Untimed) * |subs|
  {
    forall i | 0 <= i < |subs|
      ensures Attempts(subs[i].report.summary.classes) == |env.specs|
      ensures subs[i].report.summary.classes.admitted <= |SamplesOf(subs[i])| + SumBy(env.specs, Untimed)
    {
      ReportFacts(env, subs[i].report);
    }
    AttemptsTotal(subs, |env.specs|);
    SamplesTotal(subs, SumBy(env.specs, Untimed));
  }

  lemma Times(k: int, n: int)
    ensures k * n == k + k * (n - 1)
  {
  }

  /** Five accepted trials are exactly fifty attempts, and enough successes force enough
      speedup samples. */
  lemma FiftyAttempts(env: Env, subs: seq<Submission>)
    requires Standard(env) && Acceptable(env, subs)
    ensures Attempts(ClassesOf(subs)) == ATTEMPTS
    ensures ClassesOf(subs).admitted >= MINIMUM_SUCCESSES ==> |Image(subs, SamplesOf)| >= 15
  {
    StandardSpecs();
    FourUntimed();
    TotalsBound(env, subs);
  }

  function IncorrectIn(s: Submission): int { s.report.summary.classes.incorrect }

  function IncompleteIn(s: Submission): int { s.report.summary.classes.incomplete }

  function FalseHitsIn(s: Submission): int { s.report.summary.counters.falseHits }

  lemma Signs(env: Env, subs: seq<Submission>)
    requires DistinctSpecs(env.specs) && AllReconcile(env, subs)
    ensures forall i :: 0 <= i < |subs| ==> IncorrectIn(subs[i]) >= 0
    ensures forall i :: 0 <= i < |subs| ==> IncompleteIn(subs[i]) >= 0
    ensures forall i :: 0 <= i < |subs| ==> FalseHitsIn(subs[i]) >= 0
  {
    forall i | 0 <= i < |subs|
      ensures IncorrectIn(subs[i]) >= 0 && IncompleteIn(subs[i]) >= 0 && FalseHitsIn(subs[i]) >= 0
    {
      ReportFacts(env, subs[i].report);
    }
  }

  predicate EachPasses(subs: seq<Submission>) { forall i :: 0 <= i < |subs| ==> subs[i].report.passes }

  ghost predicate NoFalseHit(r: Report) { forall s :: s in r.trial.scenarios ==> s.counters.falseHits == 0 }

  lemma EachPassesIff(env: Env, subs: seq<Submission>)
    requires DistinctSpecs(env.specs) && AllReconcile(env, subs)
    ensures EachPasses(subs) <==>
            && All(subs, IsOutside) && All(subs, IsPublished)
            && ClassesOf(subs).incorrect == 0 && ClassesOf(subs).incomplete == 0
  {
    Signs(env, subs);
    SumSign(subs, IncorrectIn);
    SumSign(subs, IncompleteIn);
    forall i | 0 <= i < |subs|
      ensures subs[i].report.passes <==>
              IsOutside(subs[i]) && IsPublished(subs[i]) && IncorrectIn(subs[i]) == 0 && IncompleteIn(subs[i]) == 0
    {
      ReportFacts(env, subs[i].report);
    }
  }

  /** The gate passes exactly when every report passes on its own, no false hit is
      counted anywhere, successes suffice and the median speedup suffices. */
  lemma GateExactly(env: Env, subs: seq<Submission>)
    requires Standard(env) && Acceptable(env, subs)
    ensures Aggregated(env, subs).passed <==>
            && EachPasses(subs) && CountersIn(subs).falseHits == 0
            && ClassesOf(subs).admitted >= MINIMUM_SUCCESSES
            && Median(Image(subs, SamplesOf)).Some? && Median(Image(subs, SamplesOf)).value >= MINIMUM_SPEEDUP
  {
    StandardSpecs();
    EachPassesIff(env, subs);
  }

  /** What a passing gate guarantees. */
  lemma GatePasses(env: Env, subs: seq<Submission>)
    requires Standard(env) && Acceptable(env, subs) && Aggregated(env, subs).passed
    ensures forall i :: 0 <= i < |subs| ==> subs[i].report.passes && NoFalseHit(subs[i].report)
    ensures |Image(subs, SamplesOf)| >= 15
    ensures 2 * SumBy(Image(subs, SamplesOf), AtLeast(MINIMUM_SPEEDUP)) >= |Image(subs, SamplesOf)|
  {
    StandardSpecs();
    GateExactly(env, subs);
    FiftyAttempts(env, subs);
    Signs(env, subs);
    SumSign(subs, FalseHitsIn);
    forall i | 0 <= i < |subs| ensures NoFalseHit(subs[i].report) {
      assert FalseHitsIn(subs[i]) == 0;
      ReportFacts(env, subs[i].report);
    }
    var samples := Image(subs, SamplesOf);
    MedianHalves(samples, Median(samples).value);
    AtLeastMonotone(samples, MINIMUM_SPEEDUP, Median(samples).value);
  }

  // ----- What the samples say about the scenarios -----

  /** Division is exact, and rounding to nine places keeps the order, fixes three and is off
      by at most half a unit of the last place. */
  ghost predicate Measures(env: Env) {
    && (forall a, b :: b >= 1 ==> env.divide(a, b) == a as real / b as real)
    && (forall x, y :: x <= y ==> env.round(x) <= env.round(y)) && env.round(3.0) == 3.0
    && (forall x :: -0.0000000005 <= env.round(x) - x <= 0.0000000005)
  }

  lemma Scales(x: real, y: real, k: real)
    requires x < y && k > 0.0
    ensures x * k < y * k
  {
    assert (y - x) * k > 0.0;
  }

  lemma QuotientAtLeast(c: real, w: real, q: real)
    requires 1.0 <= w <= 86_400_000.0 && q * w == c
    ensures c >= 3.0 * w ==> q >= 3.0
    ensures c <= 3.0 * w - 1.0 ==> q <= 2.99999999
  {
    if q < 3.0 {
      Scales(q, 3.0, w);
    }
    if q > 2.99999999 {
      Scales(2.99999999, q, w);
      assert 2.99999999 * w == 3.0 * w - 0.00000001 * w;
    }
  }

  /** Rounding never decides: since no duration exceeds a day, a sample reaches three exactly
      when the cold run took at least three times as long as the warm one. */
  lemma SampleDecides(env: Env, s: Scenario)
    requires Measures(env) && WithinRange(s) && s.cold.Some? && s.warm.Some?
    ensures Sample(env, s) >= 3.0 <==> s.cold.value.elapsed >= 3 * s.warm.value.elapsed
  {
    var c, w := s.cold.value.elapsed, s.warm.value.elapsed;
    var q := env.divide(c, w);
    assert (3 * w) as real == 3.0 * w as real && (3 * w - 1) as real == 3.0 * w as real - 1.0;
    QuotientAtLeast(c as real, w as real, q);
    assert q >= 3.0 ==> env.round(3.0) <= env.round(q);
  }

  ghost predicate TimedId(specs: seq<Spec>, id: string) {
    exists i :: 0 <= i < |specs| && specs[i].id == id && specs[i].timed
  }

  /** One for every timed scenario that was an admitted success. */
  ghost function Timed(specs: seq<Spec>): Scenario -> int {
    (s: Scenario) => if s.claim.classification == AdmittedSuccess && TimedId(specs, s.id) then 1 else 0
  }

  /** One for every such scenario that ran at least three times faster warm. */
  ghost function Fast(specs: seq<Spec>): Scenario -> int {
    (s: Scenario) =>
      if Timed(specs)(s) == 1 && s.cold.Some? && s.warm.Some? && s.cold.value.elapsed >= 3 * s.warm.value.elapsed
      then 1 else 0
  }

  lemma {:induction false} SamplesMeasure(env: Env, all: seq<Spec>, specs: seq<Spec>, order: seq<Scenario>,
                                          bound: Bindings)
    requires Measures(env) && |order| == |specs|
    requires forall i :: 0 <= i < |specs| ==> Credible(order[i], specs[i], bound)
    requires forall i :: 0 <= i < |specs| ==> (specs[i].timed <==> TimedId(all, order[i].id))
    ensures |Samples(env, specs, order)| == SumBy(order, Timed(all))
    ensures SumBy(Samples(env, specs, order), AtLeast(3.0)) == SumBy(order, Fast(all))
  {
    if specs != [] {
      SamplesMeasure(env, all, specs[1..], order[1..], bound);
      var rest := Samples(env, specs[1..], order[1..]);
      if Yields(order[0], specs[0]) {
        SampleDecides(env, order[0]);
        assert ([Sample(env, order[0])] + rest)[1..] == rest;
      }
    }
  }

  lemma TimedAsSpecified(specs: seq<Spec>, order: seq<Scenario>, i: nat)
    requires DistinctSpecs(specs) && Arranged(specs, order) && i < |specs|
    ensures specs[i].timed <==> TimedId(specs, order[i].id)
  {
    if TimedId(specs, order[i].id) {
      var j :| 0 <= j < |specs| && specs[j].id == order[i].id && specs[j].timed;
      assert j == i;
    }
  }

  /** The samples of an accepted trial count its timed successes, and those of at least
      three count the ones that ran three times faster warm. */
  lemma VerdictMeasures(env: Env, t: Trial, look: Inspection, v: Verdict)
    requires Measures(env) && DistinctSpecs(env.specs) && Validates(env, t, look, v)
    ensures |v.summary.samples| == SumBy(t.scenarios, Timed(env.specs))
    ensures SumBy(v.summary.samples, AtLeast(3.0)) == SumBy(t.scenarios, Fast(env.specs))
  {
    var order: seq<Scenario> :| ValidOrder(env, t, order) && v == VerdictOf(env, t, look, order);
    forall i | 0 <= i < |env.specs| ensures env.specs[i].timed <==> TimedId(env.specs, order[i].id) {
      TimedAsSpecified(env.specs, order, i);
    }
    SamplesMeasure(env, env.specs, env.specs, order, Bound(t));
    ArrangesPermutes(env.specs, t.scenarios, order);
    SumIgnoresOrder(t.scenarios, order, Timed(env.specs));
    SumIgnoresOrder(t.scenarios, order, Fast(env.specs));
  }

  lemma ReportMeasures(env: Env, r: Report)
    requires Measures(env) && DistinctSpecs(env.specs) && Reconciles(env, r)
    ensures |r.summary.samples| == SumBy(r.trial.scenarios, Timed(env.specs))
    ensures SumBy(r.summary.samples, AtLeast(3.0)) == SumBy(r.trial.scenarios, Fast(env.specs))
  {
    var v :| Follows(env, r, v);
    VerdictMeasures(env, r.trial, Skipped, v);
  }

  function ScenariosOf(s: Submission): seq<Scenario> { s.report.trial.scenarios }

  lemma {:induction false} SamplesMeasureAll(env: Env, subs: seq<Submission>)
    requires Measures(env) && DistinctSpecs(env.specs) && AllReconcile(env, subs)
    ensures |Image(subs, SamplesOf)| == SumBy(Image(subs, ScenariosOf), Timed(env.specs))
    ensures SumBy(Image(subs, SamplesOf), AtLeast(3.0)) == SumBy(Image(subs, ScenariosOf), Fast(env.specs))
  {
    if subs != [] {
      SamplesMeasureAll(env, subs[1..]);
      ReportMeasures(env, subs[0].report);
      SumConcat(SamplesOf(subs[0]), Image(subs[1..], SamplesOf), AtLeast(3.0));
      SumConcat(ScenariosOf(subs[0]), Image(subs[1..], ScenariosOf), Timed(env.specs));
      SumConcat(ScenariosOf(subs[0]), Image(subs[1..], ScenariosOf), Fast(env.specs));
    }
  }

  /** A passing gate has at least fifteen timed successes, and at least half of them ran three
      times faster warm than cold. */
  lemma GateMeansFaster(env: Env, subs: seq<Submission>)
    requires Standard(env) && Measures(env) && Acceptable(env, subs) && Aggregated(env, subs).passed
    ensures var scenarios := Image(subs, ScenariosOf);
            && SumBy(scenarios, Timed(env.specs)) >= 15
            && 2 * SumBy(scenarios, Fast(env.specs)) >= SumBy(scenarios, Timed(env.specs))
  {
    StandardSpecs();
    GatePasses(env, subs);
    SamplesMeasureAll(env, subs);
  }

  // ----- The loop -----

  function AddTallies(a: Tally, b: Tally): Tally {
    Tally(a.admitted + b.admitted, a.refused + b.refused, a.incorrect + b.incorrect, a.incomplete + b.incomplete,
          a.unsupported + b.unsupported)
  }

  lemma SumsAppend(subs: seq<Submission>, x: Submission)
    ensures ClassesOf(subs + [x]) == AddTallies(ClassesOf(subs), x.report.summary.classes)
    ensures CountersIn(subs + [x]) == AddCounters(CountersIn(subs), x.report.summary.counters)
  {
    SumAppend(subs, x, (s: Submission) => s.report.summary.classes.admitted);
    SumAppend(subs, x, (s: Submission) => s.report.summary.classes.refused);
    SumAppend(subs, x, IncorrectIn);
    SumAppend(subs, x, IncompleteIn);
    SumAppend(subs, x, (s: Submission) => s.report.summary.classes.unsupported);
    SumAppend(subs, x, (s: Submission) => s.report.summary.counters.providerExecutions);
    SumAppend(subs, x, (s: Submission) => s.report.summary.counters.exactReuseHits);
    SumAppend(subs, x, (s: Submission) => s.report.summary.counters.inflightJoins);
    SumAppend(subs, x, (s: Submission) => s.report.summary.counters.cancellations);
    SumAppend(subs, x, FalseHitsIn);
  }

  lemma AllAppend(subs: seq<Submission>, x: Submission, p: Submission -> bool)
    ensures All(subs + [x], p) <==> All(subs, p) && p(x)
  {
    var more := subs + [x];
    assert more[|subs|] == x;
    assert forall i :: 0 <= i < |subs| ==> more[i] == subs[i];
  }

  /** One report added to the totals. */
  method AddReport(t: Totals, x: Submission, ghost subs: seq<Submission>) returns (u: Totals)
    requires t == TotalsOf(subs)
    ensures u == TotalsOf(subs + [x])
  {
    var summary, trial := x.report.summary, x.report.trial;
    u := t;
    u := u.(outside := u.outside && trial.participant.outside && !trial.participant.simulation);
    u := u.(published := u.published && trial.release.publisher.status == Verified);
    u := u.(classes := AddTallies(u.classes, summary.classes), counters := AddCounters(u.counters, summary.counters));
    u := u.(samples := u.samples + summary.samples);
    u := u.(records := u.records + [Record(trial.participant.id, trial.id, x.digest, x.report.passes)]);
    SumsAppend(subs, x);
    ImageAppend(subs, x, SamplesOf);
    ImageAppend(subs, x, RecordOf);
    AllAppend(subs, x, IsOutside);
    AllAppend(subs, x, IsPublished);
  }

  function Zip(documents: seq<Report>, digests: seq<string>): seq<Submission>
    requires |documents| == |digests|
  {
    seq(|documents|, i requires 0 <= i < |documents| => Submission(documents[i], digests[i]))
  }

  lemma PrefixDistinct<T>(a: seq<T>, b: seq<T>)
    requires Distinct(a + b)
    ensures Distinct(a)
  {
    forall i, j | 0 <= i < j < |a| ensures a[i] != a[j] {
      assert (a + b)[i] != (a + b)[j];
    }
  }

  /** An identifier repeated in some prefix is repeated in the whole. */
  lemma RepeatedEarly(first: seq<Submission>, rest: seq<Submission>, f: Submission -> seq<string>)
    requires !Distinct(Image(first, f))
    ensures !Distinct(Image(first + rest, f))
  {
    ImageConcat(first, rest, f);
    if Distinct(Image(first + rest, f)) {
      PrefixDistinct(Image(first, f), Image(rest, f));
    }
  }

  ghost predicate Unrepeated(subs: seq<Submission>, f: Submission -> seq<string>, seen: set<string>) {
    Distinct(Image(subs, f)) && seen == Elements(Image(subs, f))
  }

  /** Taking one more identifier from `f`: new exactly when nothing repeats. */
  lemma OneMore(subs: seq<Submission>, x: Submission, f: Submission -> seq<string>, id: string, seen: set<string>)
    requires Unrepeated(subs, f, seen) && f(x) == [id]
    ensures id !in seen ==> Unrepeated(subs + [x], f, seen + {id})
    ensures id in seen ==> !Distinct(Image(subs + [x], f))
  {
    ImageAppend(subs, x, f);
    DistinctAppend(Image(subs, f), id);
  }

  function Releases(subs: seq<Submission>): set<Binding> { set i | 0 <= i < |subs| :: BindingOf(subs[i]) }

  /** The variables of the loop over the reports. */
  datatype Progress = Progress(participants: set<string>, trials: set<string>, releases: set<Binding>, totals: Totals)

  ghost predicate Collected(env: Env, subs: seq<Submission>, p: Progress) {
    && AllReconcile(env, subs)
    && Unrepeated(subs, ParticipantOf, p.participants) && Unrepeated(subs, TrialOf, p.trials)
    && p.releases == Releases(subs) && p.totals == TotalsOf(subs)
  }

  /** What is wrong with the reports, by the code that rejects them. */
  ghost predicate Blames(env: Env, subs: seq<Submission>, rejection: Rejection) {
    match rejection
    case DuplicateParticipant => !Distinct(Image(subs, ParticipantOf))
    case DuplicateTrial => !Distinct(Image(subs, TrialOf))
    case ConflictingRelease => !SameRelease(subs)
    case _ => exists i :: 0 <= i < |subs| && Blamed(env, subs[i].report, rejection)
  }

  lemma BlamesEarly(env: Env, first: seq<Submission>, rest: seq<Submission>, rejection: Rejection)
    requires Blames(env, first, rejection) && rejection != ConflictingRelease
    ensures Blames(env, first + rest, rejection)
  {
    if rejection == DuplicateParticipant {
      RepeatedEarly(first, rest, ParticipantOf);
    } else if rejection == DuplicateTrial {
      RepeatedEarly(first, rest, TrialOf);
    } else {
      var i :| 0 <= i < |first| && Blamed(env, first[i].report, rejection);
      assert (first + rest)[i] == first[i];
    }
  }

  ghost predicate Collectable(env: Env, subs: seq<Submission>) {
    AllReconcile(env, subs) && Distinct(Image(subs, ParticipantOf)) && Distinct(Image(subs, TrialOf))
  }

  lemma BlamesReport(env: Env, subs: seq<Submission>, x: Submission, rejection: Rejection)
    requires Blamed(env, x.report, rejection) && !Reconciles(env, x.report)
    ensures Blames(env, subs + [x], rejection) && rejection != ConflictingRelease && !Collectable(env, subs + [x])
  {
    assert (subs + [x])[|subs|] == x;
  }

  /** One report: added when it reconciles and repeats no identifier. */
  method Take(env: Env, x: Submission, p: Progress, ghost subs: seq<Submission>) returns (r: Outcome<Progress>)
    requires DistinctSpecs(env.specs) && Collected(env, subs, p)
    ensures r.Reported? ==> Collected(env, subs + [x], r.value)
    ensures r.Rejected? ==> Blames(env, subs + [x], r.rejection) && r.rejection != ConflictingRelease
    ensures r.Rejected? ==> !Collectable(env, subs + [x])
  {
    var fault := CheckReport(env, x.report);
    if fault.Some? {
      BlamesReport(env, subs, x, fault.value);
      return Rejected(fault.value);
    }
    var participant, trial := x.report.trial.participant.id, x.report.trial.id;
    OneMore(subs, x, ParticipantOf, participant, p.participants);
    OneMore(subs, x, TrialOf, trial, p.trials);
    if participant in p.participants {
      return Rejected(DuplicateParticipant);
    }
    if trial in p.trials {
      return Rejected(DuplicateTrial);
    }
    var totals := AddReport(p.totals, x, subs);
    r := Reported(Progress(p.participants + {participant}, p.trials + {trial}, p.releases + {BindingOf(x)}, totals));
    CollectedAppend(env, subs, x, r.value);
  }

  lemma CollectedAppend(env: Env, subs: seq<Submission>, x: Submission, p: Progress)
    requires AllReconcile(env, subs) && Reconciles(env, x.report)
    requires Unrepeated(subs + [x], ParticipantOf, p.participants) && Unrepeated(subs + [x], TrialOf, p.trials)
    requires p.releases == Releases(subs) + {BindingOf(x)} && p.totals == TotalsOf(subs + [x])
    ensures Collected(env, subs + [x], p)
  {
    ReleasesAppend(subs, x);
  }

  lemma CollectedNone(env: Env)
    ensures Collected(env, [], NOTHING)
  {
  }

  const NOTHING := Progress({}, {}, {}, Totals(Tally(0, 0, 0, 0, 0), Counters(0, 0, 0, 0, 0), [], [], true, true))

  lemma ReleasesAppend(subs: seq<Submission>, x: Submission)
    ensures Releases(subs + [x]) == Releases(subs) + {BindingOf(x)}
  {
    var more := subs + [x];
    assert more[|subs|] == x && forall i :: 0 <= i < |subs| ==> more[i] == subs[i];
    forall b | b in Releases(subs) ensures b in Releases(more) {
      var i :| 0 <= i < |subs| && BindingOf(subs[i]) == b;
      assert BindingOf(more[i]) == b;
    }
  }

  lemma UncollectableEarly(env: Env, first: seq<Submission>, rest: seq<Submission>)
    requires !Collectable(env, first)
    ensures !Collectable(env, first + rest)
  {
    var subs := first + rest;
    if AllReconcile(env, first) {
      if !Distinct(Image(first, ParticipantOf)) {
        RepeatedEarly(first, rest, ParticipantOf);
      } else {
        RepeatedEarly(first, rest, TrialOf);
      }
    } else {
      var i :| 0 <= i < |first| && !Reconciles(env, first[i].report);
      assert subs[i] == first[i];
    }
  }

  /** The loop over the reports. */
  method Collect(env: Env, subs: seq<Submission>) returns (r: Outcome<Progress>)
    requires DistinctSpecs(env.specs)
    ensures r.Reported? ==> Collected(env, subs, r.value)
    ensures r.Rejected? ==> Blames(env, subs, r.rejection) && !Collectable(env, subs)
  {
    var p := NOTHING;
    ghost var done: seq<Submission> := [];
    CollectedNone(env);
    var i := 0;
    while i < |subs|
      invariant 0 <= i <= |subs| && done == subs[..i]
      invariant Collected(env, done, p)
    {
      PrefixGrows(subs, i);
      r := Take(env, subs[i], p, done);
      done := done + [subs[i]];
      if r.Rejected? {
        UncollectableEarly(env, done, subs[i + 1..]);
        BlamesEarly(env, done, subs[i + 1..], r.rejection);
        return;
      }
      p := r.value;
      i := i + 1;
    }
    assert done == subs;
    return Reported(p);
  }

  lemma IdentifierCount(subs: seq<Submission>)
    ensures |Image(subs, ParticipantOf)| == |subs|
  {
    RecordsKeyed(subs);
  }

  lemma OneRelease(subs: seq<Submission>)
    requires subs != []
    ensures |Releases(subs)| == 1 <==> SameRelease(subs)
    ensures BindingOf(subs[0]) in Releases(subs)
  {
    var first := BindingOf(subs[0]);
    if SameRelease(subs) {
      assert Releases(subs) == {first};
    }
    if |Releases(subs)| == 1 {
      SameSizeSubset({first}, Releases(subs));
      forall i | 0 <= i < |subs| ensures BindingOf(subs[i]) == first {
        assert BindingOf(subs[i]) in Releases(subs);
      }
    }
  }

  /** The checks after the loop. */
  method Conclude(env: Env, t: Totals, releases: set<Binding>, users: nat) returns (r: Outcome<Gate>)
    ensures r.Reported? <==> |releases| == 1 && Attempts(t.classes) == ATTEMPTS
    ensures r == Rejected(AttemptCount) ==> |releases| == 1 && Attempts(t.classes) != ATTEMPTS
    ensures r.Rejected? ==> r == Rejected(AttemptCount) || (r == Rejected(ConflictingRelease) && |releases| != 1)
    ensures r.Reported? ==> forall release :: release in releases ==> r.value == GateOf(env, t, release, users)
  {
    if |releases| != 1 {
      return Rejected(ConflictingRelease);
    }
    if Attempts(t.classes) != ATTEMPTS {
      return Rejected(AttemptCount);
    }
    var release :| release in releases;
    SameSizeSubset({release}, releases);
    return Reported(GateOf(env, t, release, users));
  }

  /** `aggregate_verified_documents`: it accepts exactly the acceptable reports, returns
      their aggregate, and its attempt count never disagrees. */
  method AggregateReports(env: Env, documents: seq<Report>, digests: seq<string>) returns (r: Outcome<Gate>)
    requires Standard(env)
    ensures r.Reported? <==> |documents| == |digests| && Acceptable(env, Zip(documents, digests))
    ensures r.Reported? ==> r.value == Aggregated(env, Zip(documents, digests))
    ensures r.Rejected? ==>
              if |documents| != USERS || |digests| != USERS then r.rejection == ParticipantCount
              else Blames(env, Zip(documents, digests), r.rejection)
  {
    if |documents| != USERS || |digests| != USERS {
      return Rejected(ParticipantCount);
    }
    StandardSpecs();
    var subs := Zip(documents, digests);
    var collected := Collect(env, subs);
    if collected.Rejected? {
      return Rejected(collected.rejection);
    }
    var p := collected.value;
    OneRelease(subs);
    IdentifierCount(subs);
    DistinctSize(Image(subs, ParticipantOf));
    r := Conclude(env, p.totals, p.releases, |p.participants|);
    if SameRelease(subs) {
      FiftyAttempts(env, subs);
    }
  }
}
