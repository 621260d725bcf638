/** The paired comparison of the real-agent evaluation: which runs may enter a
    cohort, how a pair is classified, and the re-derivation that decides whether a
    stored pair or a whole matrix is accepted. Stored flags are never authority. */
module Comparison {
  import opened Collections
  import opened Sorting

  const MAX_AGENT_RUNS := 64

  datatype Result<T> = Ok(value: T) | Refused(code: string)

  datatype Condition = Baseline | AgainEnabled

  datatype Task = Task(id: string, concurrency: nat, expected: string)

  /** The fixed task design; `expected` stands for the oracle's JSON answer. */
  const TASKS: seq<Task> := [
    Task("concurrent_checksum_v1", 2, "91E2-A77C for concurrent_checksum_v1"),
    Task("later_checksum_v1", 1, "91E2-A77C for later_checksum_v1"),
    Task("marker_locations_v1", 1, "facts/primary.txt and facts/secondary.txt")
  ]

  const CLIENTS: seq<string> := ["claude", "codex"]

  datatype PairId = PairId(client: string, task: string)

  function TaskIndex(id: string): Option<nat> {
    if id == TASKS[0].id then Some(0)
    else if id == TASKS[1].id then Some(1)
    else if id == TASKS[2].id then Some(2)
    else None
  }

  /** `treatment_order`: the condition that runs first. */
  function FirstCondition(clientIndex: nat, taskIndex: nat): Condition {
    if (clientIndex + taskIndex) % 2 == 0 then Baseline else AgainEnabled
  }

  /** The order starts with the baseline and alternates along the tasks of a client and
      between neighbouring clients. */
  lemma OrderAlternates(clientIndex: nat, taskIndex: nat)
    ensures FirstCondition(0, 0) == Baseline
    ensures FirstCondition(clientIndex, taskIndex + 1) != FirstCondition(clientIndex, taskIndex)
    ensures FirstCondition(clientIndex + 1, taskIndex) != FirstCondition(clientIndex, taskIndex)
  {
  }

  // ----- Runs -----

  datatype Process = Process(returncode: int, timedOut: bool, outputLimited: bool)

  datatype Observations = Observations(
    malformed: bool, clientError: bool, oraclePassed: bool, environmentRefusal: bool,
    resultsObserved: nat, mismatches: nat, finalResponse: Option<string>)

  /** The token counts a client reported. `typed` stands for the tests on their source and on
      each name and value; the harness itself copies every count of the client's output. */
  datatype Tokens = Tokens(counts: map<string, nat>, typed: bool)

  datatype Run = Run(
    client: string, condition: Condition, replica: int, process: Process, observed: Observations,
    againCalls: nat, storedEligible: Option<bool>, storedReason: Option<Reason>,
    reportedModel: Option<string>, tokens: Tokens)

  datatype Reason = Timeout | OutputLimit | Malformed | ClientError | NonzeroExit | OracleFailed

  /** `comparison_eligibility`: the first failure, in the order the source checks. */
  function Ineligibility(run: Run): Option<Reason> {
    if run.process.timedOut then Some(Timeout)
    else if run.process.outputLimited then Some(OutputLimit)
    else if run.observed.malformed then Some(Malformed)
    else if run.observed.clientError then Some(ClientError)
    else if run.process.returncode != 0 then Some(NonzeroExit)
    else if !run.observed.oraclePassed then Some(OracleFailed)
    else None
  }

  predicate Eligible(run: Run) { Ineligibility(run).None? }

  /** Whether this failure shows in the run's evidence. */
  predicate Shows(run: Run, reason: Reason) {
    match reason
    case Timeout => run.process.timedOut
    case OutputLimit => run.process.outputLimited
    case Malformed => run.observed.malformed
    case ClientError => run.observed.clientError
    case NonzeroExit => run.process.returncode != 0
    case OracleFailed => !run.observed.oraclePassed
  }

  function Rank(reason: Reason): nat {
    match reason
    case Timeout => 0
    case OutputLimit => 1
    case Malformed => 2
    case ClientError => 3
    case NonzeroExit => 4
    case OracleFailed => 5
  }

  /** A run is eligible exactly when it exited with zero in time, within its output limit,
      well formed, without a reported error and with the right answer; otherwise the
      reason is the first failure it shows. */
  lemma EligibleIff(run: Run, reason: Reason)
    ensures Eligible(run) <==>
            && run.process.returncode == 0 && !run.process.timedOut && !run.process.outputLimited
            && !run.observed.malformed && !run.observed.clientError && run.observed.oraclePassed
    ensures Ineligibility(run) == Some(reason) <==>
            Shows(run, reason) && forall other :: Shows(run, other) ==> Rank(reason) <= Rank(other)
  {
    var first := Ineligibility(run);
    if Shows(run, reason) {
      assert first.Some? && Shows(run, first.value) && Rank(first.value) <= Rank(reason);
    }
  }

  /** What a child process left behind, with what the harness read out of it. */
  datatype Analysis = Analysis(
    process: Process, malformed: bool, clientError: bool, oraclePassed: bool, looksRefused: bool,
    againCalls: nat, resultsObserved: nat, mismatches: nat, finalResponse: Option<string>,
    reportedModel: Option<string>, tokens: Tokens)

  /** `build_agent_run_record`. */
  function BuildRecord(client: string, condition: Condition, replica: int, a: Analysis): Run {
    var refusal := a.clientError || ((a.process.returncode != 0 || a.process.timedOut) && a.looksRefused);
    var observed := Observations(a.malformed || a.process.outputLimited, a.clientError, a.oraclePassed, refusal,
                                 a.resultsObserved, a.mismatches, a.finalResponse);
    var bare := Run(client, condition, replica, a.process, observed, a.againCalls, None, None,
                    a.reportedModel, a.tokens);
    bare.(storedEligible := Some(Eligible(bare)), storedReason := Ineligibility(bare))
  }

  ghost predicate IsBuilt(run: Run) {
    exists a :: run == BuildRecord(run.client, run.condition, run.replica, a)
  }

  /** The flags the harness stores with a run are honest, and any other flags are not. */
  lemma HonestFlags(client: string, condition: Condition, replica: int, a: Analysis, flag: bool, reason: Reason)
    ensures var run := BuildRecord(client, condition, replica, a);
            && FlagsAgree(run)
            && (FlagsAgree(run.(storedEligible := Some(flag))) <==> flag == Eligible(run))
            && (FlagsAgree(run.(storedReason := Some(reason))) <==> Ineligibility(run) == Some(reason))
  {
  }

  // ----- Cohorts -----

  /** Stored flags, when present, must agree with the evidence. */
  predicate FlagsAgree(run: Run) {
    && (run.storedEligible.Some? ==> run.storedEligible.value == Eligible(run))
    && (run.storedReason.Some? ==> Ineligibility(run) == run.storedReason)
  }

  /** What a cohort is checked against; the pair classification checks neither the
      identity nor the count. */
  datatype Expectation = AnyCohort | Exactly(condition: Condition, client: string, count: nat)

  predicate Belongs(run: Run, expected: Expectation) {
    expected.Exactly? ==> run.condition == expected.condition && run.client == expected.client
  }

  predicate IntLe(a: int, b: int) { a <= b }

  function Range(n: nat): seq<int> { seq(n, i => i) }

  function Replicas(runs: seq<Run>): (replicas: seq<int>)
    ensures |replicas| == |runs|
  {
    seq(|runs|, i requires 0 <= i < |runs| => runs[i].replica)
  }

  /** The verdict on the run at `i` and everything after it. */
  function ScanRuns(runs: seq<Run>, expected: Expectation, i: nat): Result<bool>
    requires i <= |runs|
    decreases |runs| - i
  {
    if i == |runs| then Ok(true)
    else if !FlagsAgree(runs[i]) then Refused("comparison_run")
    else if !Eligible(runs[i]) then Ok(false)
    else if !Belongs(runs[i], expected) || runs[i].replica < 0 then Refused("comparison_run")
    else ScanRuns(runs, expected, i + 1)
  }

  /** `_validated_eligible_cohort`. */
  function Cohort(runs: seq<Run>, expected: Expectation): Result<bool> {
    if expected.Exactly? && |runs| != expected.count then Ok(false)
    else
      var scan := ScanRuns(runs, expected, 0);
      if scan == Ok(true) && expected.Exactly? && Sorted(Replicas(runs), IntLe) != Range(expected.count)
      then Refused("comparison_run")
      else scan
  }

  /** The loop that computes it. */
  method ValidatedEligibleCohort(runs: seq<Run>, expected: Expectation) returns (verdict: Result<bool>)
    ensures verdict == Cohort(runs, expected)
  {
    if expected.Exactly? && |runs| != expected.count {
      return Ok(false);
    }
    var replicas: seq<int> := [];
    for i := 0 to |runs|
      invariant replicas == Replicas(runs[..i])
      invariant ScanRuns(runs, expected, 0) == ScanRuns(runs, expected, i)
    {
      var run := runs[i];
      if !FlagsAgree(run) {
        return Refused("comparison_run");
      }
      if !Eligible(run) {
        return Ok(false);
      }
      if !Belongs(run, expected) || run.replica < 0 {
        return Refused("comparison_run");
      }
      replicas := replicas + [run.replica];
    }
    assert runs[..|runs|] == runs;
    if expected.Exactly? && Sorted(replicas, IntLe) != Range(expected.count) {
      return Refused("comparison_run");
    }
    return Ok(true);
  }

  /** A cohort fit for comparison: every run eligible with honest flags, and in a
      fixed cohort the replicas are a permutation of 0 .. count - 1. */
  ghost predicate Sound(runs: seq<Run>, expected: Expectation) {
    && (forall i :: 0 <= i < |runs| ==> SoundRun(runs[i], expected))
    && (expected.Exactly? ==> |runs| == expected.count && multiset(Replicas(runs)) == multiset(Range(expected.count)))
  }

  predicate SoundRun(run: Run, expected: Expectation) {
    FlagsAgree(run) && Eligible(run) && Belongs(run, expected) && run.replica >= 0
  }

  lemma {:induction false} ScanAccepts(runs: seq<Run>, expected: Expectation, i: nat)
    requires i <= |runs|
    ensures ScanRuns(runs, expected, i) == Ok(true) <==> forall k :: i <= k < |runs| ==> SoundRun(runs[k], expected)
    decreases |runs| - i
  {
    if i < |runs| {
      ScanAccepts(runs, expected, i + 1);
    }
  }

  lemma SortedToRange(replicas: seq<int>, n: nat)
    ensures Sorted(replicas, IntLe) == Range(n) <==> multiset(replicas) == multiset(Range(n))
  {
    SortedKeeps(replicas, IntLe);
    if multiset(replicas) == multiset(Range(n)) {
      SortedSorts(replicas, IntLe);
      SortedUnique(Sorted(replicas, IntLe), Range(n), IntLe);
    }
  }

  /** The scan accepts exactly the sound cohorts. */
  lemma CohortAccepts(runs: seq<Run>, expected: Expectation)
    ensures Cohort(runs, expected) == Ok(true) <==> Sound(runs, expected)
  {
    ScanAccepts(runs, expected, 0);
    if expected.Exactly? {
      SortedToRange(Replicas(runs), expected.count);
    }
  }

  /** Some run is ineligible, its flags admit it, and nothing is wrong with the runs before it. */
  ghost predicate FirstIneligible(runs: seq<Run>, expected: Expectation, i: int) {
    && 0 <= i < |runs| && FlagsAgree(runs[i]) && !Eligible(runs[i])
    && forall k :: 0 <= k < i ==> SoundRun(runs[k], expected)
  }

  lemma {:induction false} ScanIneligible(runs: seq<Run>, expected: Expectation, i: nat)
    requires i <= |runs| && forall k :: 0 <= k < i ==> SoundRun(runs[k], expected)
    ensures ScanRuns(runs, expected, i) == Ok(false) <==> exists j :: FirstIneligible(runs, expected, j)
    decreases |runs| - i
  {
    if i < |runs| {
      if SoundRun(runs[i], expected) {
        ScanIneligible(runs, expected, i + 1);
      } else if FlagsAgree(runs[i]) && !Eligible(runs[i]) {
        assert FirstIneligible(runs, expected, i);
      } else if j :| FirstIneligible(runs, expected, j) {
        assert false;
      }
    }
  }

  ghost predicate SetAside(runs: seq<Run>, expected: Expectation) {
    (expected.Exactly? && |runs| != expected.count) || exists i :: FirstIneligible(runs, expected, i)
  }

  ghost predicate Unfit(runs: seq<Run>, expected: Expectation) {
    !Sound(runs, expected) && !SetAside(runs, expected)
  }

  /** A cohort is set aside, rather than refused, exactly when it has the wrong size or its
      first unfit run is honestly ineligible; everything else is refused as such. */
  lemma CohortSetAside(runs: seq<Run>, expected: Expectation)
    ensures Cohort(runs, expected) == Ok(false) <==> SetAside(runs, expected)
    ensures Cohort(runs, expected).Refused? ==> Cohort(runs, expected).code == "comparison_run"
  {
    ScanIneligible(runs, expected, 0);
    ScanAccepts(runs, expected, 0);
    ScanCode(runs, expected, 0);
    if i :| FirstIneligible(runs, expected, i) {
      assert !SoundRun(runs[i], expected);
    }
  }

  lemma {:induction false} ScanCode(runs: seq<Run>, expected: Expectation, i: nat)
    requires i <= |runs|
    ensures ScanRuns(runs, expected, i).Refused? ==> ScanRuns(runs, expected, i).code == "comparison_run"
    decreases |runs| - i
  {
    if i < |runs| {
      ScanCode(runs, expected, i + 1);
    }
  }

  // ----- Gateway statistics -----

  datatype Stats = Stats(
    requested: int, executed: int, exactHits: int, inflightJoins: int,
    bytesOmitted: int, tokensAvoided: int, msSaved: int)

  /** `normalize_stats` refuses negative counters. */
  predicate Normal(s: Stats) {
    && s.requested >= 0 && s.executed >= 0 && s.exactHits >= 0 && s.inflightJoins >= 0
    && s.bytesOmitted >= 0 && s.tokensAvoided >= 0 && s.msSaved >= 0
  }

  const NO_ACTIVITY := Stats(0, 0, 0, 0, 0, 0, 0)

  function Dispositions(s: Stats): int { s.executed + s.exactHits + s.inflightJoins }

  // ----- Classification -----

  datatype Class =
    | ComparisonIneligible | EnvironmentRefusal | DidNotUseAgain | CallNotObservedByGateway
    | EndToEndObserved | CallCountMismatch | ObservedOnlyInStats

  datatype Tally = ExactPositive | NoneObserved | GatewayOnly | Mismatch

  datatype Observability = Partial | CompleteReuseOnly | Ambiguous

  datatype Reconciliation = Reconciliation(
    class_: Class, baselineEligible: bool, enabledEligible: bool, exactPositive: bool,
    environmentRefusal: bool, calls: int, gateway: Stats, falseHits: int,
    observability: Observability, tally: Tally)

  function Calls(runs: seq<Run>): int { SumBy(runs, (r: Run) => r.againCalls) }

  predicate AnyEnvironmentRefusal(runs: seq<Run>) {
    exists i :: 0 <= i < |runs| && runs[i].observed.environmentRefusal
  }

  /** The class of a pair whose cohorts are eligible and met no refusal: a function
      of client-observed calls and gateway-observed requests alone. */
  function ClassOfCounts(calls: int, requested: int): Class {
    if calls == 0 && requested == 0 then DidNotUseAgain
    else if calls > 0 && requested == 0 then CallNotObservedByGateway
    else if calls > 0 && requested > 0 && calls == requested then EndToEndObserved
    else if calls > 0 && requested > 0 then CallCountMismatch
    else ObservedOnlyInStats
  }

  function TallyOf(calls: int, requested: int): Tally {
    if calls > 0 && requested > 0 && calls == requested then ExactPositive
    else if calls == 0 && requested == 0 then NoneObserved
    else if calls == 0 && requested > 0 then GatewayOnly
    else Mismatch
  }

  /** `classify_paired_run`. */
  function Classify(baseline: seq<Run>, enabled: seq<Run>, delta: Stats): Result<Reconciliation> {
    if Calls(baseline) != 0 then Refused("baseline_contaminated")
    else
      var b, e := Cohort(baseline, AnyCohort), Cohort(enabled, AnyCohort);
      if b.Refused? then Refused(b.code) else if e.Refused? then Refused(e.code)
      else
        var calls := Calls(enabled);
        var refusal := AnyEnvironmentRefusal(baseline) || AnyEnvironmentRefusal(enabled);
        var mismatches := SumBy(enabled, (r: Run) => r.observed.mismatches);
        var results := SumBy(enabled, (r: Run) => r.observed.resultsObserved);
        var reuse := delta.exactHits + delta.inflightJoins;
        var reuseOnly := delta.requested > 0 && delta.executed == 0 && delta.requested == reuse;
        Ok(Reconciliation(
             if !(b.value && e.value) then ComparisonIneligible
             else if refusal then EnvironmentRefusal
             else ClassOfCounts(calls, delta.requested),
             b.value, e.value, calls > 0 && delta.requested > 0 && calls == delta.requested,
             refusal, calls, delta,
             if reuseOnly then Min(reuse, mismatches) else 0,
             if results < calls then Partial else if reuseOnly then CompleteReuseOnly else Ambiguous,
             TallyOf(calls, delta.requested)))
  }

  // ----- What a classification says -----

  /** Every request was answered from earlier work, and there were some. */
  predicate ReuseOnly(delta: Stats) {
    delta.requested > 0 && delta.executed == 0 && delta.requested == delta.exactHits + delta.inflightJoins
  }

  function Results(runs: seq<Run>): int { SumBy(runs, (r: Run) => r.observed.resultsObserved) }

  function Mismatches(runs: seq<Run>): int { SumBy(runs, (r: Run) => r.observed.mismatches) }

  ghost predicate SomeMismatch(runs: seq<Run>) {
    exists i :: 0 <= i < |runs| && runs[i].observed.mismatches > 0
  }

  /** The class, given whether both cohorts are eligible and whether a run was refused. */
  ghost predicate ClassMeans(c: Class, eligible: bool, refusal: bool, calls: int, requested: int) {
    && (c.ComparisonIneligible? <==> !eligible)
    && (c.EnvironmentRefusal? <==> eligible && refusal)
    && (c.DidNotUseAgain? <==> eligible && !refusal && calls == 0 && requested == 0)
    && (c.CallNotObservedByGateway? <==> eligible && !refusal && calls > 0 && requested == 0)
    && (c.ObservedOnlyInStats? <==> eligible && !refusal && calls == 0 && requested > 0)
    && (c.EndToEndObserved? <==> eligible && !refusal && calls == requested > 0)
    && (c.CallCountMismatch? <==> eligible && !refusal && calls > 0 && requested > 0 && calls != requested)
  }

  ghost predicate TallyMeans(t: Tally, calls: int, requested: int) {
    && (t.ExactPositive? <==> calls == requested > 0) && (t.NoneObserved? <==> calls == 0 && requested == 0)
    && (t.GatewayOnly? <==> calls == 0 && requested > 0) && (t.Mismatch? <==> calls > 0 && calls != requested)
  }

  ghost predicate ObservabilityMeans(o: Observability, enabled: seq<Run>, delta: Stats) {
    && (o.Partial? <==> Results(enabled) < Calls(enabled))
    && (o.CompleteReuseOnly? <==> Results(enabled) >= Calls(enabled) && ReuseOnly(delta))
    && (o.Ambiguous? <==> Results(enabled) >= Calls(enabled) && !ReuseOnly(delta))
  }

  /** False hits are confirmed exactly when every request was answered by reuse and some
      observed result is wrong; as many as the reuse and the wrong results both allow. */
  ghost predicate FalseHitsMean(hits: int, enabled: seq<Run>, delta: Stats) {
    && (hits > 0 <==> ReuseOnly(delta) && SomeMismatch(enabled))
    && 0 <= hits <= delta.exactHits + delta.inflightJoins && hits <= Mismatches(enabled)
    && (ReuseOnly(delta) ==> hits == delta.exactHits + delta.inflightJoins || hits == Mismatches(enabled))
  }

  /** The reconciliation these cohorts and statistics call for. */
  ghost predicate Reconciles(r: Reconciliation, baseline: seq<Run>, enabled: seq<Run>, delta: Stats) {
    && r.calls == Calls(enabled) && r.gateway == delta
    && (r.baselineEligible <==> Sound(baseline, AnyCohort)) && (r.enabledEligible <==> Sound(enabled, AnyCohort))
    && (r.environmentRefusal <==> exists run :: run in baseline + enabled && run.observed.environmentRefusal)
    && (r.exactPositive <==> Calls(enabled) == delta.requested > 0)
    && ClassMeans(r.class_, r.baselineEligible && r.enabledEligible, r.environmentRefusal, r.calls, delta.requested)
    && TallyMeans(r.tally, r.calls, delta.requested)
    && ObservabilityMeans(r.observability, enabled, delta) && FalseHitsMean(r.falseHits, enabled, delta)
  }

  lemma {:induction false} MismatchSum(runs: seq<Run>)
    ensures Mismatches(runs) >= 0 && (Mismatches(runs) > 0 <==> SomeMismatch(runs))
  {
    if runs != [] {
      MismatchSum(runs[1..]);
      if runs[0].observed.mismatches == 0 && SomeMismatch(runs) {
        var i :| 0 <= i < |runs| && runs[i].observed.mismatches > 0;
        assert runs[1..][i - 1] == runs[i];
      }
      if SomeMismatch(runs[1..]) {
        var i :| 0 <= i < |runs[1..]| && runs[1..][i].observed.mismatches > 0;
        assert runs[i + 1].observed.mismatches > 0;
      }
    }
  }

  lemma {:induction false} CallsNat(runs: seq<Run>)
    ensures Calls(runs) >= 0
  {
    if runs != [] {
      CallsNat(runs[1..]);
    }
  }

  lemma SomeRefusal(baseline: seq<Run>, enabled: seq<Run>)
    ensures (exists run :: run in baseline + enabled && run.observed.environmentRefusal) <==>
            AnyEnvironmentRefusal(baseline) || AnyEnvironmentRefusal(enabled)
  {
    if run :| run in baseline + enabled && run.observed.environmentRefusal {
      assert run in baseline || run in enabled;
    }
    if AnyEnvironmentRefusal(baseline) {
      var i :| 0 <= i < |baseline| && baseline[i].observed.environmentRefusal;
      assert baseline[i] in baseline + enabled;
    }
    if AnyEnvironmentRefusal(enabled) {
      var i :| 0 <= i < |enabled| && enabled[i].observed.environmentRefusal;
      assert enabled[i] in baseline + enabled;
    }
  }

  lemma OneReconciliation(r1: Reconciliation, r2: Reconciliation, baseline: seq<Run>, enabled: seq<Run>, delta: Stats)
    requires Reconciles(r1, baseline, enabled, delta) && Reconciles(r2, baseline, enabled, delta)
    ensures r1 == r2
  {
    assert r1.class_ == r2.class_;
    assert r1.tally == r2.tally && r1.observability == r2.observability;
    assert r1.falseHits == r2.falseHits;
  }

  /** Classification of normal statistics, both ways: refused exactly when the baseline called
      Again or a cohort is neither sound nor set aside, and otherwise the one reconciliation
      that the cohorts and statistics call for. */
  lemma ClassifyReconciles(baseline: seq<Run>, enabled: seq<Run>, delta: Stats, r: Reconciliation)
    requires Normal(delta)
    ensures Classify(baseline, enabled, delta).Ok? <==>
            Calls(baseline) == 0 && Cohort(baseline, AnyCohort).Ok? && Cohort(enabled, AnyCohort).Ok?
    ensures Classify(baseline, enabled, delta).Ok? ==>
              (Classify(baseline, enabled, delta).value == r <==> Reconciles(r, baseline, enabled, delta))
  {
    var derived := Classify(baseline, enabled, delta);
    if derived.Ok? {
      CohortAccepts(baseline, AnyCohort);
      CohortAccepts(enabled, AnyCohort);
      MismatchSum(enabled);
      CallsNat(enabled);
      SomeRefusal(baseline, enabled);
      assert Reconciles(derived.value, baseline, enabled, delta);
      if Reconciles(r, baseline, enabled, delta) {
        OneReconciliation(r, derived.value, baseline, enabled, delta);
      }
    }
  }

  // ----- Pairs -----

  /** A condition's record; `workspace` is its own workspace identity, if any. */
  datatype Arm = Arm(runs: seq<Run>, delta: Stats, workspace: Option<string>)

  datatype Binding = Binding(model: string, settings: string, prompt: string, oracle: string)

  datatype Pair = Pair(
    id: PairId, concurrency: int, attempt: int, first: Condition, baseline: Arm, enabled: Arm,
    reconciliation: Reconciliation, freshState: bool, workspace: Option<string>, fixture: string, binding: Binding)

  predicate Retains(runs: seq<Run>, expected: string) {
    forall i :: 0 <= i < |runs| ==> runs[i].observed.finalResponse == Some(expected)
  }

  /** The pair is one of the design's, by identity, cohort size and attempt. */
  predicate Designed(pair: Pair, id: PairId) {
    && pair.id.client in CLIENTS && 1 <= pair.concurrency <= MAX_AGENT_RUNS && pair.id == id
    && TaskIndex(id.task).Some? && pair.concurrency == TASKS[TaskIndex(id.task).value].concurrency
    && pair.attempt >= 1
  }

  function ExpectedArm(pair: Pair, condition: Condition): Expectation
    requires pair.concurrency >= 0
  {
    Exactly(condition, pair.id.client, pair.concurrency)
  }

  /** Both cohorts, the baseline's first. */
  function ValidateArms(pair: Pair): Result<bool>
    requires pair.concurrency >= 0
  {
    var b := Cohort(pair.baseline.runs, ExpectedArm(pair, Baseline));
    if b.Refused? then b else if !b.value then Refused("comparison_ineligible")
    else
      var e := Cohort(pair.enabled.runs, ExpectedArm(pair, AgainEnabled));
      if e.Ok? && !e.value then Refused("comparison_ineligible") else e
  }

  /** `validate_comparison_pair` against the pair's expected identity. */
  function ValidatePair(pair: Pair, id: PairId): Result<Reconciliation> {
    if !Designed(pair, id) then Refused("comparison_pair")
    else
      var expected := TASKS[TaskIndex(id.task).value].expected;
      var arms := ValidateArms(pair);
      if arms.Refused? then Refused(arms.code)
      else if !Retains(pair.baseline.runs, expected) || !Retains(pair.enabled.runs, expected) then
        Refused("comparison_pair")
      else if !Normal(pair.baseline.delta) || !Normal(pair.enabled.delta) then Refused("stats")
      else if pair.baseline.delta != NO_ACTIVITY then Refused("baseline_contaminated")
      else
        var derived := Classify(pair.baseline.runs, pair.enabled.runs, pair.enabled.delta);
        if derived.Ok? && pair.reconciliation != derived.value then Refused("comparison_pair") else derived
  }

  /** What an accepted pair is, without reference to how it is checked. */
  ghost predicate ExactPair(pair: Pair, id: PairId) {
    && Designed(pair, id)
    && Sound(pair.baseline.runs, ExpectedArm(pair, Baseline))
    && Sound(pair.enabled.runs, ExpectedArm(pair, AgainEnabled))
    && Retains(pair.baseline.runs, TASKS[TaskIndex(id.task).value].expected)
    && Retains(pair.enabled.runs, TASKS[TaskIndex(id.task).value].expected)
    && pair.baseline.delta == NO_ACTIVITY && Normal(pair.enabled.delta)
    && Calls(pair.baseline.runs) == 0
    && Reconciles(pair.reconciliation, pair.baseline.runs, pair.enabled.runs, pair.enabled.delta)
  }

  lemma ArmsAccepted(pair: Pair)
    requires pair.concurrency >= 0
    ensures ValidateArms(pair).Ok? <==>
            && Sound(pair.baseline.runs, ExpectedArm(pair, Baseline))
            && Sound(pair.enabled.runs, ExpectedArm(pair, AgainEnabled))
  {
    CohortAccepts(pair.baseline.runs, ExpectedArm(pair, Baseline));
    CohortAccepts(pair.enabled.runs, ExpectedArm(pair, AgainEnabled));
  }

  lemma SoundAnywhere(runs: seq<Run>, expected: Expectation)
    requires Sound(runs, expected)
    ensures Cohort(runs, AnyCohort) == Ok(true)
  {
    CohortAccepts(runs, AnyCohort);
  }

  /** Acceptance of a pair, both ways: the replicas of each cohort are a permutation
      of 0 .. concurrency - 1, every run is eligible, the baseline saw no gateway
      activity and no Again call, and the stored reconciliation, its confirmed false hits
      included, is the one its runs and statistics call for. */
  lemma PairAccepted(pair: Pair, id: PairId)
    ensures ValidatePair(pair, id).Ok? <==> ExactPair(pair, id)
    ensures ValidatePair(pair, id).Ok? ==> ValidatePair(pair, id).value == pair.reconciliation
  {
    if Designed(pair, id) {
      ArmsAccepted(pair);
      if ValidateArms(pair).Ok? && Normal(pair.enabled.delta) {
        SoundAnywhere(pair.baseline.runs, ExpectedArm(pair, Baseline));
        SoundAnywhere(pair.enabled.runs, ExpectedArm(pair, AgainEnabled));
        ClassifyReconciles(pair.baseline.runs, pair.enabled.runs, pair.enabled.delta, pair.reconciliation);
      }
    }
  }

  /** What is wrong with a pair refused under this code. */
  ghost predicate PairFault(pair: Pair, id: PairId, code: string) {
    var b, e := pair.baseline, pair.enabled;
    || (code == "comparison_pair" && !Designed(pair, id))
    || (code == "comparison_pair" && Designed(pair, id) && !KeepsEvidence(pair, id))
    || (code == "comparison_ineligible" && Designed(pair, id) &&
        (SetAside(b.runs, ExpectedArm(pair, Baseline)) || SetAside(e.runs, ExpectedArm(pair, AgainEnabled))))
    || (code == "comparison_run" && Designed(pair, id) &&
        (Unfit(b.runs, ExpectedArm(pair, Baseline)) || Unfit(e.runs, ExpectedArm(pair, AgainEnabled))))
    || (code == "stats" && (!Normal(b.delta) || !Normal(e.delta)))
    || (code == "baseline_contaminated" && (b.delta != NO_ACTIVITY || Calls(b.runs) != 0))
  }

  /** Every run retains the task's answer, and the reconciliation is the one called for. */
  ghost predicate KeepsEvidence(pair: Pair, id: PairId)
    requires Designed(pair, id)
  {
    && Retains(pair.baseline.runs, TASKS[TaskIndex(id.task).value].expected)
    && Retains(pair.enabled.runs, TASKS[TaskIndex(id.task).value].expected)
    && Reconciles(pair.reconciliation, pair.baseline.runs, pair.enabled.runs, pair.enabled.delta)
  }

  /** A refusal names something that is wrong with the pair. */
  lemma PairRefused(pair: Pair, id: PairId)
    requires ValidatePair(pair, id).Refused?
    ensures PairFault(pair, id, ValidatePair(pair, id).code)
  {
    if Designed(pair, id) {
      ArmFault(pair.baseline.runs, ExpectedArm(pair, Baseline));
      ArmFault(pair.enabled.runs, ExpectedArm(pair, AgainEnabled));
      if ValidateArms(pair).Ok? && Normal(pair.enabled.delta) {
        ArmsAccepted(pair);
        SoundAnywhere(pair.baseline.runs, ExpectedArm(pair, Baseline));
        SoundAnywhere(pair.enabled.runs, ExpectedArm(pair, AgainEnabled));
        ClassifyReconciles(pair.baseline.runs, pair.enabled.runs, pair.enabled.delta, pair.reconciliation);
      }
    }
  }

  lemma ArmFault(runs: seq<Run>, expected: Expectation)
    ensures Cohort(runs, expected) == Ok(false) <==> SetAside(runs, expected)
    ensures Cohort(runs, expected).Refused? <==> Unfit(runs, expected)
    ensures Cohort(runs, expected).Refused? ==> Cohort(runs, expected).code == "comparison_run"
  {
    CohortSetAside(runs, expected);
    CohortAccepts(runs, expected);
    var cohort := Cohort(runs, expected);
    if cohort.Ok? {
      assert cohort == Ok(cohort.value);
      assert cohort.value == true || cohort.value == false;
    }
  }

  /** A run built by the harness and eligible met no environment refusal. */
  lemma EligibleBuiltRun(run: Run)
    requires IsBuilt(run) && Eligible(run)
    ensures !run.observed.environmentRefusal
  {
  }

  /** The class of an accepted pair of built runs depends only on the enabled
      client's calls and the gateway's requests. */
  lemma ClassFromCounts(pair: Pair, id: PairId)
    requires ValidatePair(pair, id).Ok?
    requires forall i :: 0 <= i < |pair.baseline.runs| ==> IsBuilt(pair.baseline.runs[i])
    requires forall i :: 0 <= i < |pair.enabled.runs| ==> IsBuilt(pair.enabled.runs[i])
    ensures pair.reconciliation.class_ == ClassOfCounts(Calls(pair.enabled.runs), pair.enabled.delta.requested)
    ensures pair.reconciliation.class_ == EndToEndObserved <==> pair.reconciliation.tally == ExactPositive
  {
    PairAccepted(pair, id);
    SoundAnywhere(pair.baseline.runs, ExpectedArm(pair, Baseline));
    SoundAnywhere(pair.enabled.runs, ExpectedArm(pair, AgainEnabled));
    NoRefusal(pair.baseline.runs, ExpectedArm(pair, Baseline));
    NoRefusal(pair.enabled.runs, ExpectedArm(pair, AgainEnabled));
  }

  lemma NoRefusal(runs: seq<Run>, expected: Expectation)
    requires Sound(runs, expected) && forall i :: 0 <= i < |runs| ==> IsBuilt(runs[i])
    ensures !AnyEnvironmentRefusal(runs)
  {
    forall i | 0 <= i < |runs| ensures !runs[i].observed.environmentRefusal {
      EligibleBuiltRun(runs[i]);
    }
  }
}
