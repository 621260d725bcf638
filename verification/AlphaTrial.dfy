/** One participant's trial: the ten fixed scenarios, what each classification must
    show, and the normalised trial, summary and class that validation returns. */
module AlphaTrial {
  import opened Collections
  import opened Judgement

  // ----- The fixed scenarios -----

  datatype Expectation = ExactReuse | InflightJoin | ExecuteAfterChange | CancellationRecovery

  datatype Spec = Spec(id: string, expectation: Expectation, sameStreams: bool, timed: bool, needsProof: bool)

  const SCENARIOS: seq<Spec> := [
    Spec("read_small_exact", ExactReuse, true, true, false),
    Spec("read_nested_exact", ExactReuse, true, true, false),
    Spec("search_single_exact", ExactReuse, true, true, false),
    Spec("search_multiple_exact", ExactReuse, true, true, false),
    Spec("search_empty_exact", ExactReuse, true, true, false),
    Spec("concurrent_read_join", InflightJoin, true, false, false),
    Spec("concurrent_search_join", InflightJoin, true, false, false),
    Spec("irrelevant_mutation_exact", ExactReuse, true, true, true),
    Spec("relevant_mutation_invalidates", ExecuteAfterChange, false, false, false),
    Spec("cancellation_retry_recovers", CancellationRecovery, true, false, false)
  ]

  // ----- A trial -----

  datatype Classification = AdmittedSuccess | SafeRefusal | IncorrectHit | IncompleteTrial | UnsupportedHostProfile

  datatype Seen = Correct | Incorrect | Incomplete | NotObserved

  datatype Observation = Observation(exitStatus: int, stdout: string, stderr: string, elapsed: int)

  datatype Counters = Counters(
    providerExecutions: int, exactReuseHits: int, inflightJoins: int, cancellations: int, falseHits: int)

  datatype Bindings = Bindings(participant: string, binary: string, repository: string)

  datatype Claim = Claim(classification: Classification, admitted: bool, outcome: Seen)

  datatype Scenario = Scenario(
    id: string, bindings: Bindings, request: string, claim: Claim, cold: Option<Observation>,
    warm: Option<Observation>, counters: Counters, proof: Option<string>, notes: string)

  datatype Participant = Participant(id: string, outside: bool, simulation: bool)

  datatype PublisherStatus = Verified | Unverified | Unsupported

  /** `statement` stands for the attestation, verifier, issuer and workflow. */
  datatype Publisher = Publisher(status: PublisherStatus, artifact: string, source: string, statement: string)

  datatype Release = Release(path: string, binary: string, source: string, harness: string, publisher: Publisher)

  datatype Repository = Repository(path: string, commit: string, dirty: bool, identity: string)

  datatype Agent = Agent(client: string, version: string, path: string, executable: string)

  datatype Trial = Trial(
    id: string, participant: Participant, release: Release, repository: Repository, host: string,
    agent: Agent, scenarios: seq<Scenario>, receipts: nat)

  /** What looking at the local machine answered, when validation was asked to look: the
      canonical paths of the two executables, and whether the repository and host agree. */
  datatype Inspection =
    | Skipped
    | Inspected(binary: Option<string>, repository: bool, host: bool, agent: Option<string>, stable: bool)

  /** The harness digest, and Python's float division and rounding to nine places. */
  datatype Env = Env(specs: seq<Spec>, harness: string, divide: (int, int) -> real, round: real -> real)

  datatype Refusal =
    | ParticipantInconsistent | HarnessMismatch | BinaryRefused | PublisherBindingMismatch | RepositoryDirty
    | RepositoryMismatch | PlatformMismatch | AgentRefused | ReceiptsUnsupported | ScenarioCount
    | UnknownScenario | DuplicateScenario | MissingScenario | ScenarioMismatch | ProofMissing
    | OutOfRange | ConflictingIdentity | Inconsistent | ColdWarmMismatch | CounterInconsistent

  type Result<T> = Judged<T, Refusal>

  // ----- One scenario -----

  const MAX_COUNTER := 1_000_000
  const MAX_ELAPSED := 24 * 60 * 60 * 1000

  predicate CountersInRange(c: Counters) {
    && 0 <= c.providerExecutions <= MAX_COUNTER && 0 <= c.exactReuseHits <= MAX_COUNTER
    && 0 <= c.inflightJoins <= MAX_COUNTER && 0 <= c.cancellations <= MAX_COUNTER && 0 <= c.falseHits <= MAX_COUNTER
  }

  predicate ObservationInRange(o: Option<Observation>) {
    o.Some? ==> -255 <= o.value.exitStatus <= 255 && 1 <= o.value.elapsed <= MAX_ELAPSED
  }

  predicate SameStreams(a: Observation, b: Observation) {
    a.exitStatus == b.exitStatus && a.stdout == b.stdout && a.stderr == b.stderr
  }

  predicate Evidenced(expectation: Expectation, c: Counters) {
    match expectation
    case ExactReuse => c.providerExecutions == 1 && c.exactReuseHits >= 1
    case InflightJoin => c.providerExecutions == 1 && c.inflightJoins >= 1
    case ExecuteAfterChange => c.providerExecutions >= 2 && c.exactReuseHits == 0
    case CancellationRecovery => c.providerExecutions >= 1 && c.cancellations >= 1
  }

  function ValidateSuccess(env: Env, s: Scenario, spec: Spec): Result<seq<real>> {
    if !s.claim.admitted || s.claim.outcome != Correct || s.cold.None? || s.warm.None? then Refused(Inconsistent)
    else if s.counters.falseHits != 0 then Refused(Inconsistent)
    else if spec.sameStreams && !SameStreams(s.cold.value, s.warm.value) then Refused(ColdWarmMismatch)
    else if !Evidenced(spec.expectation, s.counters) then Refused(CounterInconsistent)
    else Accepted(if spec.timed then [env.divide(s.cold.value.elapsed, s.warm.value.elapsed)] else [])
  }

  /** `_validate_scenario`: the speedup sample, if the scenario yields one. */
  function ValidateScenario(env: Env, s: Scenario, spec: Spec, bound: Bindings): Result<seq<real>> {
    if s.id != spec.id then Refused(ScenarioMismatch)
    else if spec.needsProof && s.claim.classification == AdmittedSuccess && s.proof.None? then Refused(ProofMissing)
    else if !CountersInRange(s.counters) then Refused(OutOfRange)
    else if s.bindings != bound then Refused(ConflictingIdentity)
    else if !ObservationInRange(s.cold) || !ObservationInRange(s.warm) then Refused(OutOfRange)
    else match s.claim.classification
      case AdmittedSuccess => ValidateSuccess(env, s, spec)
      case IncorrectHit =>
        if s.counters.falseHits < 1 || s.claim.outcome != Incorrect then Refused(Inconsistent) else Accepted([])
      case SafeRefusal =>
        if s.claim.admitted || s.counters.falseHits != 0 || s.claim.outcome != NotObserved then Refused(Inconsistent)
        else Accepted([])
      case IncompleteTrial =>
        if s.claim.admitted || s.claim.outcome != Incomplete then Refused(Inconsistent) else Accepted([])
      case UnsupportedHostProfile =>
        if s.claim.admitted || s.claim.outcome != NotObserved then Refused(Inconsistent) else Accepted([])
  }

  // ----- What an accepted scenario shows -----

  /** Each counter lies between 0 and a million; an exit status between -255 and 255; a
      duration between one millisecond and a day. */
  ghost predicate WithinRange(s: Scenario) {
    && Counted(s.counters.providerExecutions) && Counted(s.counters.exactReuseHits) && Counted(s.counters.inflightJoins)
    && Counted(s.counters.cancellations) && Counted(s.counters.falseHits)
    && (s.cold.Some? ==> -255 <= s.cold.value.exitStatus <= 255 && 1 <= s.cold.value.elapsed <= 86_400_000)
    && (s.warm.Some? ==> -255 <= s.warm.value.exitStatus <= 255 && 1 <= s.warm.value.elapsed <= 86_400_000)
  }

  predicate Counted(n: int) { 0 <= n <= 1_000_000 }

  /** What each classification claims. */
  ghost predicate ClaimHolds(s: Scenario) {
    var admitted, outcome, falseHits := s.claim.admitted, s.claim.outcome, s.counters.falseHits;
    && (s.claim.classification.AdmittedSuccess? ==>
          admitted && outcome.Correct? && s.cold.Some? && s.warm.Some? && falseHits == 0)
    && (s.claim.classification.IncorrectHit? ==> outcome.Incorrect? && falseHits >= 1)
    && (s.claim.classification.SafeRefusal? ==> !admitted && outcome.NotObserved? && falseHits == 0)
    && (s.claim.classification.IncompleteTrial? ==> !admitted && outcome.Incomplete?)
    && (s.claim.classification.UnsupportedHostProfile? ==> !admitted && outcome.NotObserved?)
  }

  /** A success whose specification asks for it ended alike cold and warm. */
  ghost predicate StreamsAgree(s: Scenario, spec: Spec) {
    s.claim.classification.AdmittedSuccess? && spec.sameStreams && s.cold.Some? && s.warm.Some? ==>
      && s.cold.value.exitStatus == s.warm.value.exitStatus
      && s.cold.value.stdout == s.warm.value.stdout && s.cold.value.stderr == s.warm.value.stderr
  }

  /** A success's counters show what its specification expects. */
  ghost predicate CountersShow(s: Scenario, spec: Spec) {
    var c := s.counters;
    s.claim.classification.AdmittedSuccess? ==>
      && (spec.expectation.ExactReuse? ==> c.providerExecutions == 1 && c.exactReuseHits > 0)
      && (spec.expectation.InflightJoin? ==> c.providerExecutions == 1 && c.inflightJoins > 0)
      && (spec.expectation.ExecuteAfterChange? ==> c.providerExecutions > 1 && c.exactReuseHits == 0)
      && (spec.expectation.CancellationRecovery? ==> c.providerExecutions > 0 && c.cancellations > 0)
  }

  predicate NeedsProof(s: Scenario, spec: Spec) { spec.needsProof && s.claim.classification == AdmittedSuccess }

  ghost predicate Credible(s: Scenario, spec: Spec, bound: Bindings) {
    && s.id == spec.id && s.bindings == bound && WithinRange(s) && ClaimHolds(s)
    && StreamsAgree(s, spec) && CountersShow(s, spec) && (NeedsProof(s, spec) ==> s.proof.Some?)
  }

  /** The scenario yields a speedup sample. */
  predicate Yields(s: Scenario, spec: Spec) {
    spec.timed && s.claim.classification == AdmittedSuccess && s.cold.Some? && s.warm.Some?
  }

  /** What is wrong with a scenario refused under this code. */
  ghost predicate ScenarioFault(s: Scenario, spec: Spec, bound: Bindings, refusal: Refusal) {
    match refusal
    case ScenarioMismatch => s.id != spec.id
    case ProofMissing => NeedsProof(s, spec) && s.proof.None?
    case OutOfRange => !WithinRange(s)
    case ConflictingIdentity => s.bindings != bound
    case Inconsistent => !ClaimHolds(s)
    case ColdWarmMismatch => !StreamsAgree(s, spec)
    case CounterInconsistent => !CountersShow(s, spec)
    case _ => false
  }

  /** One scenario, both ways: accepted exactly when it is credible, and then with the cold
      duration over the warm one if it is a timed success; a refusal names what is wrong. */
  lemma ScenarioAccepted(env: Env, s: Scenario, spec: Spec, bound: Bindings)
    ensures var r := ValidateScenario(env, s, spec, bound);
            && (r.Accepted? <==> Credible(s, spec, bound))
            && (r.Accepted? && Yields(s, spec) ==>
                  r.value == [env.divide(s.cold.value.elapsed, s.warm.value.elapsed)])
            && (r.Accepted? && !Yields(s, spec) ==> r.value == [])
            && (r.Refused? ==> ScenarioFault(s, spec, bound, r.refusal))
  {
  }

  // ----- Scenarios in the fixed order -----

  ghost predicate HasId(scenarios: seq<Scenario>, id: string) {
    exists i :: 0 <= i < |scenarios| && scenarios[i].id == id
  }

  ghost predicate DistinctIds(scenarios: seq<Scenario>) {
    forall i, j :: 0 <= i < j < |scenarios| ==> scenarios[i].id != scenarios[j].id
  }

  ghost predicate DistinctSpecs(specs: seq<Spec>) {
    forall i, j :: 0 <= i < j < |specs| ==> specs[i].id != specs[j].id
  }

  ghost predicate Known(specs: seq<Spec>, id: string) {
    exists i :: 0 <= i < |specs| && specs[i].id == id
  }

  ghost predicate AllKnown(specs: seq<Spec>, scenarios: seq<Scenario>) {
    forall i :: 0 <= i < |scenarios| ==> Known(specs, scenarios[i].id)
  }

  /** The scenarios listed in the order of the fixed list. */
  ghost predicate Arranged(specs: seq<Spec>, scenarios: seq<Scenario>) {
    |scenarios| == |specs| && forall i :: 0 <= i < |specs| ==> scenarios[i].id == specs[i].id
  }

  /** `to` lists the scenarios of `from` in the fixed order. */
  ghost predicate Arranges(specs: seq<Spec>, from: seq<Scenario>, to: seq<Scenario>) {
    Arranged(specs, to) && forall i :: 0 <= i < |to| ==> to[i] in from
  }

  function SpecIds(specs: seq<Spec>): seq<string> { seq(|specs|, i requires 0 <= i < |specs| => specs[i].id) }

  function ScenarioIds(scenarios: seq<Scenario>): seq<string> {
    seq(|scenarios|, i requires 0 <= i < |scenarios| => scenarios[i].id)
  }

  /** As many distinct known scenarios as there are specifications: none is missing, so
      the refusal for a missing scenario cannot be reached. */
  lemma NoneMissing(specs: seq<Spec>, scenarios: seq<Scenario>, k: nat)
    requires DistinctSpecs(specs) && DistinctIds(scenarios) && AllKnown(specs, scenarios)
    requires |scenarios| == |specs| && k < |specs|
    ensures HasId(scenarios, specs[k].id)
  {
    var wanted, given := SpecIds(specs), ScenarioIds(scenarios);
    DistinctSize(wanted);
    DistinctSize(given);
    forall id | id in given ensures id in wanted {
      var i :| 0 <= i < |given| && given[i] == id;
      assert Known(specs, scenarios[i].id);
      var j :| 0 <= j < |specs| && specs[j].id == id;
      assert wanted[j] == id;
    }
    SameSizeSubset(Elements(given), Elements(wanted));
    assert wanted[k] in Elements(given);
    var i :| 0 <= i < |given| && given[i] == wanted[k];
    assert scenarios[i].id == specs[k].id;
  }

  /** There is one arrangement, and an arranged list is its own. */
  lemma ArrangementUnique(specs: seq<Spec>, from: seq<Scenario>, a: seq<Scenario>, b: seq<Scenario>)
    requires DistinctIds(from) && Arranges(specs, from, a) && Arranges(specs, from, b)
    ensures a == b
  {
    forall i | 0 <= i < |a| ensures a[i] == b[i] {
      var j :| 0 <= j < |from| && from[j] == a[i];
      var k :| 0 <= k < |from| && from[k] == b[i];
    }
  }

  lemma ArrangedDistinct(specs: seq<Spec>, scenarios: seq<Scenario>)
    requires DistinctSpecs(specs) && Arranged(specs, scenarios)
    ensures DistinctIds(scenarios) && AllKnown(specs, scenarios) && Arranges(specs, scenarios, scenarios)
  {
    forall i | 0 <= i < |scenarios| ensures Known(specs, scenarios[i].id) {
      assert specs[i].id == scenarios[i].id;
    }
  }

  /** Arranging only reorders: no scenario is lost, repeated or changed. */
  lemma ArrangesPermutes(specs: seq<Spec>, from: seq<Scenario>, to: seq<Scenario>)
    requires DistinctSpecs(specs) && DistinctIds(from) && AllKnown(specs, from) && |from| == |specs|
    requires Arranges(specs, from, to)
    ensures multiset(from) == multiset(to)
  {
    ArrangedDistinct(specs, to);
    forall x ensures multiset(from)[x] == multiset(to)[x] {
      OnceEach(from, x);
      OnceEach(to, x);
      if x in from {
        var i :| 0 <= i < |from| && from[i] == x;
        assert Known(specs, from[i].id);
        var k :| 0 <= k < |specs| && specs[k].id == x.id;
        var j :| 0 <= j < |from| && from[j] == to[k];
        assert to[k] == x;
      }
    }
  }

  // ----- Summary and class -----

  /** How many scenarios fell into each classification. */
  datatype Tally = Tally(admitted: int, refused: int, incorrect: int, incomplete: int, unsupported: int)

  function Is(c: Classification): Scenario -> int {
    (s: Scenario) => if s.claim.classification == c then 1 else 0
  }

  function TallyOf(scenarios: seq<Scenario>): Tally {
    Tally(SumBy(scenarios, Is(AdmittedSuccess)), SumBy(scenarios, Is(SafeRefusal)), SumBy(scenarios, Is(IncorrectHit)),
          SumBy(scenarios, Is(IncompleteTrial)), SumBy(scenarios, Is(UnsupportedHostProfile)))
  }

  function Attempts(t: Tally): int { t.admitted + t.refused + t.incorrect + t.incomplete + t.unsupported }

  function ProviderExecutions(s: Scenario): int { s.counters.providerExecutions }

  function ExactReuseHits(s: Scenario): int { s.counters.exactReuseHits }

  function InflightJoins(s: Scenario): int { s.counters.inflightJoins }

  function Cancellations(s: Scenario): int { s.counters.cancellations }

  function FalseHits(s: Scenario): int { s.counters.falseHits }

  function CountersOf(scenarios: seq<Scenario>): Counters {
    Counters(SumBy(scenarios, ProviderExecutions), SumBy(scenarios, ExactReuseHits), SumBy(scenarios, InflightJoins),
             SumBy(scenarios, Cancellations), SumBy(scenarios, FalseHits))
  }

  /** The samples of a trial: in the order of the specifications, the cold duration over
      the warm one, rounded, of exactly the timed scenarios that were admitted successes. */
  function Samples(env: Env, specs: seq<Spec>, scenarios: seq<Scenario>): seq<real>
    requires |scenarios| == |specs|
  {
    if specs == [] then []
    else
      var rest := Samples(env, specs[1..], scenarios[1..]);
      if Yields(scenarios[0], specs[0]) then [Sample(env, scenarios[0])] + rest else rest
  }

  function Sample(env: Env, s: Scenario): real
    requires s.cold.Some? && s.warm.Some?
  {
    env.round(env.divide(s.cold.value.elapsed, s.warm.value.elapsed))
  }

  function Rounded(env: Env, samples: seq<real>): seq<real> {
    seq(|samples|, i requires 0 <= i < |samples| => env.round(samples[i]))
  }

  datatype Summary = Summary(count: nat, classes: Tally, counters: Counters, samples: seq<real>)

  datatype Verdict = Verdict(trial: Trial, summary: Summary, passes: bool)

  function Bound(t: Trial): Bindings {
    Bindings(t.participant.id, t.release.binary, t.repository.identity)
  }

  predicate Passes(t: Trial, classes: Tally) {
    && t.participant.outside && !t.participant.simulation && t.release.publisher.status == Verified
    && classes.incorrect == 0 && classes.incomplete == 0
  }

  ghost predicate ScenariosValid(env: Env, scenarios: seq<Scenario>, bound: Bindings) {
    && |scenarios| == |env.specs|
    && forall i :: 0 <= i < |scenarios| ==> Credible(scenarios[i], env.specs[i], bound)
  }

  /** What validation demands besides the scenarios. */
  predicate HeaderValid(env: Env, t: Trial) {
    && !(t.participant.simulation && t.participant.outside) && t.release.harness == env.harness
    && t.release.publisher.artifact == t.release.binary && t.release.publisher.source == t.release.source
    && !t.repository.dirty && t.receipts == 0
  }

  predicate InspectionPasses(look: Inspection) {
    look.Inspected? ==> look.binary.Some? && look.repository && look.host && look.agent.Some? && look.stable
  }

  ghost predicate ListsEachOnce(env: Env, scenarios: seq<Scenario>) {
    |scenarios| == |env.specs| && DistinctIds(scenarios) && AllKnown(env.specs, scenarios)
  }

  /** The trial as stored: scenarios in fixed order, paths as inspection found them. */
  function Normalised(t: Trial, look: Inspection, order: seq<Scenario>): Trial {
    if look.Inspected? && look.binary.Some? && look.agent.Some? then
      t.(release := t.release.(path := look.binary.value), agent := t.agent.(path := look.agent.value),
         scenarios := order)
    else t.(scenarios := order)
  }

  function SummaryOf(env: Env, order: seq<Scenario>, bound: Bindings): Summary
    requires |order| == |env.specs|
  {
    Summary(|order|, TallyOf(order), CountersOf(order), Samples(env, env.specs, order))
  }

  /** What validation returns for a trial whose scenarios arrange to `order`. */
  function VerdictOf(env: Env, t: Trial, look: Inspection, order: seq<Scenario>): Verdict
    requires |order| == |env.specs|
  {
    Verdict(Normalised(t, look, order), SummaryOf(env, order, Bound(t)), Passes(t, TallyOf(order)))
  }

  /** Validation accepts the trial with verdict `v`. */
  ghost predicate Validates(env: Env, t: Trial, look: Inspection, v: Verdict) {
    && HeaderValid(env, t) && InspectionPasses(look) && ListsEachOnce(env, t.scenarios)
    && exists order :: ValidOrder(env, t, order) && v == VerdictOf(env, t, look, order)
  }

  ghost predicate HasVerdict(env: Env, t: Trial, look: Inspection) {
    exists v :: Validates(env, t, look, v)
  }

  ghost predicate ValidOrder(env: Env, t: Trial, order: seq<Scenario>) {
    Arranges(env.specs, t.scenarios, order) && ScenariosValid(env, order, Bound(t))
  }

  lemma VerdictUnique(env: Env, t: Trial, look: Inspection, v: Verdict, w: Verdict)
    requires Validates(env, t, look, v) && Validates(env, t, look, w)
    ensures v == w
  {
    var a :| ValidOrder(env, t, a) && v == VerdictOf(env, t, look, a);
    var b :| ValidOrder(env, t, b) && w == VerdictOf(env, t, look, b);
    ArrangementUnique(env.specs, t.scenarios, a, b);
  }

  /** Normalisation is idempotent: the stored trial validates again, without looking at
      the machine, to the same stored trial, summary and class. */
  lemma NormalisedRevalidates(env: Env, t: Trial, look: Inspection, v: Verdict)
    requires DistinctSpecs(env.specs) && Validates(env, t, look, v)
    ensures Validates(env, v.trial, Skipped, v)
  {
    var order :| ValidOrder(env, t, order) && v == VerdictOf(env, t, look, order);
    ArrangedDistinct(env.specs, order);
    assert v.trial.scenarios == order && Bound(v.trial) == Bound(t);
    assert ValidOrder(env, v.trial, order) && v == VerdictOf(env, v.trial, Skipped, order);
  }

  /** The stored scenarios are the submitted ones, reordered, with the same totals. */
  lemma NothingLost(env: Env, t: Trial, look: Inspection, v: Verdict)
    requires DistinctSpecs(env.specs) && Validates(env, t, look, v)
    ensures multiset(v.trial.scenarios) == multiset(t.scenarios)
    ensures v.summary.count == |t.scenarios| == Attempts(v.summary.classes)
    ensures v.summary.classes == TallyOf(t.scenarios) && v.summary.counters == CountersOf(t.scenarios)
  {
    var order := VerdictOrder(env, t, look, v);
    ArrangedTotals(env.specs, t.scenarios, order);
  }

  lemma VerdictOrder(env: Env, t: Trial, look: Inspection, v: Verdict) returns (order: seq<Scenario>)
    requires Validates(env, t, look, v)
    ensures ListsEachOnce(env, t.scenarios) && Arranges(env.specs, t.scenarios, order)
    ensures v.trial.scenarios == order && v.summary.count == |order|
    ensures v.summary.classes == TallyOf(order) && v.summary.counters == CountersOf(order)
  {
    order :| ValidOrder(env, t, order) && v == VerdictOf(env, t, look, order);
  }

  lemma ArrangedTotals(specs: seq<Spec>, from: seq<Scenario>, to: seq<Scenario>)
    requires DistinctSpecs(specs) && DistinctIds(from) && AllKnown(specs, from) && |from| == |specs|
    requires Arranges(specs, from, to)
    ensures multiset(to) == multiset(from) && Attempts(TallyOf(to)) == |to|
    ensures TallyOf(to) == TallyOf(from) && CountersOf(to) == CountersOf(from)
  {
    ArrangesPermutes(specs, from, to);
    TallyIgnoresOrder(from, to);
    CountersIgnoreOrder(from, to);
    EveryAttemptCounted(to);
  }

  lemma TallyIgnoresOrder(a: seq<Scenario>, b: seq<Scenario>)
    requires multiset(a) == multiset(b)
    ensures TallyOf(a) == TallyOf(b)
  {
    SumIgnoresOrder(a, b, Is(AdmittedSuccess));
    SumIgnoresOrder(a, b, Is(SafeRefusal));
    SumIgnoresOrder(a, b, Is(IncorrectHit));
    SumIgnoresOrder(a, b, Is(IncompleteTrial));
    SumIgnoresOrder(a, b, Is(UnsupportedHostProfile));
  }

  lemma CountersIgnoreOrder(a: seq<Scenario>, b: seq<Scenario>)
    requires multiset(a) == multiset(b)
    ensures CountersOf(a) == CountersOf(b)
  {
    SumIgnoresOrder(a, b, ProviderExecutions);
    SumIgnoresOrder(a, b, ExactReuseHits);
    SumIgnoresOrder(a, b, InflightJoins);
    SumIgnoresOrder(a, b, Cancellations);
    SumIgnoresOrder(a, b, FalseHits);
  }

  /** Every attempt falls into exactly one classification. */
  lemma {:induction false} EveryAttemptCounted(scenarios: seq<Scenario>)
    ensures Attempts(TallyOf(scenarios)) == |scenarios|
  {
    if scenarios != [] {
      EveryAttemptCounted(scenarios[1..]);
    }
  }

  /** A trial yields a sample for every admitted success that is timed. */
  lemma {:induction false} SamplesCount(env: Env, specs: seq<Spec>, scenarios: seq<Scenario>, bound: Bindings)
    requires |scenarios| == |specs|
    requires forall i :: 0 <= i < |specs| ==> Credible(scenarios[i], specs[i], bound)
    ensures SumBy(scenarios, Is(AdmittedSuccess)) <= |Samples(env, specs, scenarios)| + SumBy(specs, Untimed)
  {
    if specs != [] {
      SamplesCount(env, specs[1..], scenarios[1..], bound);
    }
  }

  function Untimed(spec: Spec): int { if spec.timed then 0 else 1 }

  // ----- False hits -----

  /** An accepted scenario counts a false hit only where its class allows one. */
  lemma {:induction false} FalseHitsAllowed(env: Env, specs: seq<Spec>, scenarios: seq<Scenario>, bound: Bindings)
    requires |scenarios| == |specs|
    requires forall i :: 0 <= i < |specs| ==> Credible(scenarios[i], specs[i], bound)
    requires SumBy(scenarios, Is(IncorrectHit)) == 0 && SumBy(scenarios, Is(IncompleteTrial)) == 0
    ensures SumBy(scenarios, FalseHits) == SumBy(scenarios, UnsupportedFalseHits)
  {
    if specs != [] {
      SumSign(scenarios[1..], Is(IncorrectHit));
      SumSign(scenarios[1..], Is(IncompleteTrial));
      FalseHitsAllowed(env, specs[1..], scenarios[1..], bound);
    }
  }

  function UnsupportedFalseHits(s: Scenario): int {
    if s.claim.classification == UnsupportedHostProfile then s.counters.falseHits else 0
  }

  /** What every accepted verdict counts. */
  lemma VerdictCounts(env: Env, t: Trial, look: Inspection, v: Verdict)
    requires Validates(env, t, look, v)
    ensures Attempts(v.summary.classes) == |env.specs|
    ensures v.summary.classes.admitted <= |v.summary.samples| + SumBy(env.specs, Untimed)
    ensures v.passes == Passes(t, v.summary.classes)
  {
    var order :| ValidOrder(env, t, order) && v == VerdictOf(env, t, look, order);
    EveryAttemptCounted(order);
    SamplesCount(env, env.specs, order, Bound(t));
  }

  lemma TallySign(scenarios: seq<Scenario>)
    ensures TallyOf(scenarios).incorrect >= 0 && TallyOf(scenarios).incomplete >= 0
  {
    SumSign(scenarios, Is(IncorrectHit));
    SumSign(scenarios, Is(IncompleteTrial));
  }

  lemma {:induction false} FalseHitsInRange(env: Env, specs: seq<Spec>, scenarios: seq<Scenario>, bound: Bindings)
    requires |scenarios| == |specs|
    requires forall i :: 0 <= i < |specs| ==> Credible(scenarios[i], specs[i], bound)
    ensures forall i :: 0 <= i < |specs| ==> FalseHits(scenarios[i]) >= 0
  {
    forall i | 0 <= i < |specs| ensures FalseHits(scenarios[i]) >= 0 {
      assert Credible(scenarios[i], specs[i], bound);
    }
  }

  /** A verdict without false hits has none in any scenario. */
  lemma VerdictFalseHits(env: Env, t: Trial, look: Inspection, v: Verdict)
    requires DistinctSpecs(env.specs) && Validates(env, t, look, v)
    ensures v.summary.classes.incorrect >= 0 && v.summary.classes.incomplete >= 0 && v.summary.counters.falseHits >= 0
    ensures v.summary.counters.falseHits == 0 ==> forall s :: s in t.scenarios ==> s.counters.falseHits == 0
  {
    var order :| ValidOrder(env, t, order) && v == VerdictOf(env, t, look, order);
    TallySign(order);
    FalseHitsInRange(env, env.specs, order, Bound(t));
    SumSign(order, FalseHits);
    ArrangesPermutes(env.specs, t.scenarios, order);
    ZeroEverywhere(t.scenarios, order);
  }

  lemma ZeroEverywhere(a: seq<Scenario>, b: seq<Scenario>)
    requires multiset(a) == multiset(b)
    ensures (forall i :: 0 <= i < |b| ==> FalseHits(b[i]) == 0) ==> forall s :: s in a ==> s.counters.falseHits == 0
  {
    forall s | s in a ensures s in b {
      assert s in multiset(b);
    }
  }

  /** A passing report has no false hit exactly when its unsupported scenarios, whose
      counters nothing checks, report none. */
  lemma PassingFalseHits(env: Env, t: Trial, look: Inspection, v: Verdict)
    requires DistinctSpecs(env.specs) && Validates(env, t, look, v) && v.passes
    ensures v.summary.counters.falseHits == 0 <==> SumBy(t.scenarios, UnsupportedFalseHits) == 0
  {
    var order :| ValidOrder(env, t, order) && v == VerdictOf(env, t, look, order);
    FalseHitsAllowed(env, env.specs, order, Bound(t));
    ArrangesPermutes(env.specs, t.scenarios, order);
    SumIgnoresOrder(t.scenarios, order, UnsupportedFalseHits);
  }

  /** A scenario reported as unsupported, with one false hit counted against it. */
  function UnsupportedWithHit(spec: Spec): Scenario {
    Scenario(spec.id, Bindings("p", "b", "r"), "", Claim(UnsupportedHostProfile, false, NotObserved), None, None,
             Counters(0, 0, 0, 0, 1), None, "")
  }

  function TrialWithHits(env: Env): Trial {
    Trial("t", Participant("p", true, false), Release("", "b", "s", env.harness, Publisher(Verified, "b", "s", "")),
          Repository("", "", false, "r"), "", Agent("", "", "", ""),
          seq(|env.specs|, i requires 0 <= i < |env.specs| => UnsupportedWithHit(env.specs[i])), 0)
  }

  lemma HitsValid(env: Env, t: Trial)
    requires DistinctSpecs(env.specs) && t == TrialWithHits(env)
    ensures ListsEachOnce(env, t.scenarios) && ValidOrder(env, t, t.scenarios)
  {
    ArrangedDistinct(env.specs, t.scenarios);
  }

  lemma HitsCounted(env: Env, scenarios: seq<Scenario>)
    requires env.specs != [] && scenarios == TrialWithHits(env).scenarios
    ensures TallyOf(scenarios).incorrect == 0 && TallyOf(scenarios).incomplete == 0
            && CountersOf(scenarios).falseHits > 0
  {
    SumSign(scenarios, Is(IncorrectHit));
    SumSign(scenarios, Is(IncompleteTrial));
    SumSign(scenarios, FalseHits);
    assert FalseHits(scenarios[0]) == 1;
  }

  /** So a single report can pass while it counts false hits. */
  lemma PassingWithFalseHits(env: Env) returns (v: Verdict)
    requires DistinctSpecs(env.specs) && env.specs != []
    ensures Validates(env, TrialWithHits(env), Skipped, v) && v.passes && v.summary.counters.falseHits > 0
  {
    var t := TrialWithHits(env);
    v := VerdictOf(env, t, Skipped, t.scenarios);
    HitsValid(env, t);
    HitsCounted(env, t.scenarios);
  }

  // ----- The loops -----

  /** The dictionary of scenarios by identifier. */
  method Index(specs: seq<Spec>, scenarios: seq<Scenario>) returns (r: Result<map<string, Scenario>>)
    ensures r.Accepted? <==> DistinctIds(scenarios) && AllKnown(specs, scenarios)
    ensures r.Refused? ==> r == Refused(UnknownScenario) || r == Refused(DuplicateScenario)
    ensures r == Refused(UnknownScenario) ==> !AllKnown(specs, scenarios)
    ensures r == Refused(DuplicateScenario) ==> !DistinctIds(scenarios)
    ensures r.Accepted? ==> forall id :: id in r.value <==> HasId(scenarios, id)
    ensures r.Accepted? ==> forall id :: id in r.value ==> r.value[id] in scenarios && r.value[id].id == id
  {
    var indexed: map<string, Scenario> := map[];
    var i := 0;
    while i < |scenarios|
      invariant 0 <= i <= |scenarios| && DistinctIds(scenarios[..i]) && AllKnown(specs, scenarios[..i])
      invariant forall id :: id in indexed <==> HasId(scenarios[..i], id)
      invariant forall id :: id in indexed ==> indexed[id] in scenarios[..i] && indexed[id].id == id
    {
      var raw := scenarios[i];
      assert scenarios[..i + 1] == scenarios[..i] + [raw];
      var known := Recognised(specs, raw.id);
      if !known {
        assert !Known(specs, scenarios[i].id);
        return Refused(UnknownScenario);
      }
      if raw.id in indexed {
        var k :| 0 <= k < i && scenarios[..i][k].id == raw.id;
        assert scenarios[k].id == scenarios[i].id;
        return Refused(DuplicateScenario);
      }
      indexed := indexed[raw.id := raw];
      IndexGrows(scenarios[..i], raw);
      i := i + 1;
    }
    assert scenarios[..i] == scenarios;
    return Accepted(indexed);
  }

  lemma IndexGrows(before: seq<Scenario>, x: Scenario)
    ensures forall id :: HasId(before + [x], id) <==> HasId(before, id) || id == x.id
    ensures DistinctIds(before + [x]) <==> DistinctIds(before) && !HasId(before, x.id)
  {
    var after := before + [x];
    forall id ensures HasId(after, id) <==> HasId(before, id) || id == x.id {
      if HasId(before, id) {
        var i :| 0 <= i < |before| && before[i].id == id;
        assert after[i].id == id;
      }
      assert after[|before|].id == x.id;
    }
    if DistinctIds(after) {
      forall i, j | 0 <= i < j < |before| ensures before[i].id != before[j].id {
        assert after[i].id != after[j].id;
      }
      forall i | 0 <= i < |before| ensures before[i].id != x.id {
        assert after[i].id != after[|before|].id;
      }
    }
  }

  method Recognised(specs: seq<Spec>, id: string) returns (known: bool)
    ensures known <==> Known(specs, id)
  {
    var i := 0;
    while i < |specs|
      invariant 0 <= i <= |specs| && forall k :: 0 <= k < i ==> specs[k].id != id
    {
      if specs[i].id == id {
        return true;
      }
      i := i + 1;
    }
    return false;
  }

  /** Every scenario checked against its specification, in the fixed order. */
  method CheckScenarios(env: Env, indexed: map<string, Scenario>, bound: Bindings)
    returns (r: Result<(seq<Scenario>, seq<real>)>)
    requires forall id :: id in indexed ==> indexed[id].id == id
    ensures r.Accepted? ==>
              && Arranged(env.specs, r.value.0) && ScenariosValid(env, r.value.0, bound)
              && (forall i :: 0 <= i < |env.specs| ==> r.value.0[i] in indexed.Values)
              && r.value.1 == Samples(env, env.specs, r.value.0)
    ensures r.Refused? ==> exists i :: 0 <= i < |env.specs| && Fault(indexed, env.specs[i], bound, r.refusal)
  {
    var order: seq<Scenario> := [];
    var samples: seq<real> := [];
    var i := 0;
    while i < |env.specs|
      invariant 0 <= i == |order| <= |env.specs|
      invariant forall k :: 0 <= k < i ==> order[k].id == env.specs[k].id && order[k] in indexed.Values
      invariant forall k :: 0 <= k < i ==> Credible(order[k], env.specs[k], bound)
      invariant samples == Samples(env, env.specs[..i], order)
    {
      var spec := env.specs[i];
      var checked := CheckOne(env, indexed, spec, bound);
      if checked.Refused? {
        assert Fault(indexed, env.specs[i], bound, checked.refusal);
        return Refused(checked.refusal);
      }
      PrefixGrows(env.specs, i);
      SamplesAppend(env, env.specs[..i], spec, order, checked.value.0);
      order := order + [checked.value.0];
      samples := samples + checked.value.1;
      i := i + 1;
    }
    assert env.specs[..i] == env.specs;
    return Accepted((order, samples));
  }

  /** One specification's scenario, with its rounded samples. */
  method CheckOne(env: Env, indexed: map<string, Scenario>, spec: Spec, bound: Bindings)
    returns (r: Result<(Scenario, seq<real>)>)
    requires forall id :: id in indexed ==> indexed[id].id == id
    ensures r.Accepted? ==>
              && r.value.0.id == spec.id && r.value.0 in indexed.Values
              && Credible(r.value.0, spec, bound)
              && r.value.1 == (if Yields(r.value.0, spec) then [Sample(env, r.value.0)] else [])
    ensures r.Refused? ==> Fault(indexed, spec, bound, r.refusal)
  {
    if spec.id !in indexed {
      return Refused(MissingScenario);
    }
    ScenarioAccepted(env, indexed[spec.id], spec, bound);
    var checked := ValidateScenario(env, indexed[spec.id], spec, bound);
    if checked.Refused? {
      return Refused(checked.refusal);
    }
    return Accepted((indexed[spec.id], Rounded(env, checked.value)));
  }

  ghost predicate Fault(indexed: map<string, Scenario>, spec: Spec, bound: Bindings, refusal: Refusal) {
    if spec.id !in indexed then refusal == MissingScenario
    else !Credible(indexed[spec.id], spec, bound) && ScenarioFault(indexed[spec.id], spec, bound, refusal)
  }

  lemma {:induction false} SamplesAppend(env: Env, specs: seq<Spec>, spec: Spec, order: seq<Scenario>, s: Scenario)
    requires |order| == |specs|
    ensures Samples(env, specs + [spec], order + [s])
         == Samples(env, specs, order) + (if Yields(s, spec) then [Sample(env, s)] else [])
  {
    if specs == [] {
      assert specs + [spec] == [spec] && order + [s] == [s];
    } else {
      assert (specs + [spec])[1..] == specs[1..] + [spec] && (order + [s])[1..] == order[1..] + [s];
      SamplesAppend(env, specs[1..], spec, order[1..], s);
    }
  }

  function AddCounters(a: Counters, b: Counters): Counters {
    Counters(a.providerExecutions + b.providerExecutions, a.exactReuseHits + b.exactReuseHits,
             a.inflightJoins + b.inflightJoins, a.cancellations + b.cancellations, a.falseHits + b.falseHits)
  }

  function AddOne(t: Tally, c: Classification): Tally {
    match c
    case AdmittedSuccess => t.(admitted := t.admitted + 1)
    case SafeRefusal => t.(refused := t.refused + 1)
    case IncorrectHit => t.(incorrect := t.incorrect + 1)
    case IncompleteTrial => t.(incomplete := t.incomplete + 1)
    case UnsupportedHostProfile => t.(unsupported := t.unsupported + 1)
  }

  lemma TotalsAppend(s: seq<Scenario>, x: Scenario)
    ensures CountersOf(s + [x]) == AddCounters(CountersOf(s), x.counters)
    ensures TallyOf(s + [x]) == AddOne(TallyOf(s), x.claim.classification)
  {
    SumAppend(s, x, ProviderExecutions);
    SumAppend(s, x, ExactReuseHits);
    SumAppend(s, x, InflightJoins);
    SumAppend(s, x, Cancellations);
    SumAppend(s, x, FalseHits);
    SumAppend(s, x, Is(AdmittedSuccess));
    SumAppend(s, x, Is(SafeRefusal));
    SumAppend(s, x, Is(IncorrectHit));
    SumAppend(s, x, Is(IncompleteTrial));
    SumAppend(s, x, Is(UnsupportedHostProfile));
  }

  method Totals(order: seq<Scenario>) returns (classes: Tally, counters: Counters)
    ensures classes == TallyOf(order) && counters == CountersOf(order)
  {
    classes, counters := Tally(0, 0, 0, 0, 0), Counters(0, 0, 0, 0, 0);
    var i := 0;
    while i < |order|
      invariant 0 <= i <= |order| && classes == TallyOf(order[..i]) && counters == CountersOf(order[..i])
    {
      TotalsAppend(order[..i], order[i]);
      assert order[..i + 1] == order[..i] + [order[i]];
      classes := AddOne(classes, order[i].claim.classification);
      counters := AddCounters(counters, order[i].counters);
      i := i + 1;
    }
    assert order[..i] == order;
  }

  /** A refusal names something that is really wrong with the trial. */
  ghost predicate Earned(env: Env, t: Trial, look: Inspection, refusal: Refusal) {
    match refusal
    case ParticipantInconsistent => t.participant.simulation && t.participant.outside
    case HarnessMismatch => t.release.harness != env.harness
    case BinaryRefused => look.Inspected? && look.binary.None?
    case PublisherBindingMismatch =>
      t.release.publisher.artifact != t.release.binary || t.release.publisher.source != t.release.source
    case RepositoryDirty => t.repository.dirty
    case RepositoryMismatch => look.Inspected? && !(look.repository && look.stable)
    case PlatformMismatch => look.Inspected? && !look.host
    case AgentRefused => look.Inspected? && look.agent.None?
    case ReceiptsUnsupported => t.receipts != 0
    case ScenarioCount => |t.scenarios| != |env.specs|
    case UnknownScenario => !AllKnown(env.specs, t.scenarios)
    case DuplicateScenario => !DistinctIds(t.scenarios)
    case MissingScenario => false
    case _ => exists i, j :: RefusedAt(env, t, i, j, refusal)
  }

  ghost predicate RefusedAt(env: Env, t: Trial, i: int, j: int, refusal: Refusal) {
    && 0 <= i < |env.specs| && 0 <= j < |t.scenarios| && t.scenarios[j].id == env.specs[i].id
    && !Credible(t.scenarios[j], env.specs[i], Bound(t))
    && ScenarioFault(t.scenarios[j], env.specs[i], Bound(t), refusal)
  }

  /** The checks before the scenarios, in order. */
  method CheckHeader(env: Env, t: Trial, look: Inspection) returns (fault: Option<Refusal>)
    ensures fault.None? <==>
            && HeaderValid(env, t) && |t.scenarios| == |env.specs|
            && (look.Inspected? ==> InspectionPasses(look.(stable := true)))
    ensures fault.Some? ==> Earned(env, t, look, fault.value)
  {
    if t.participant.simulation && t.participant.outside {
      return Some(ParticipantInconsistent);
    }
    if t.release.harness != env.harness {
      return Some(HarnessMismatch);
    }
    if look.Inspected? && look.binary.None? {
      return Some(BinaryRefused);
    }
    if t.release.publisher.artifact != t.release.binary || t.release.publisher.source != t.release.source {
      return Some(PublisherBindingMismatch);
    }
    if t.repository.dirty {
      return Some(RepositoryDirty);
    }
    if look.Inspected? && !look.repository {
      return Some(RepositoryMismatch);
    }
    if look.Inspected? && !look.host {
      return Some(PlatformMismatch);
    }
    if look.Inspected? && look.agent.None? {
      return Some(AgentRefused);
    }
    if t.receipts != 0 {
      return Some(ReceiptsUnsupported);
    }
    if |t.scenarios| != |env.specs| {
      return Some(ScenarioCount);
    }
    return None;
  }

  /** `validate_trial`. It accepts exactly the valid trials; a refusal names something
      that is wrong, and never a missing scenario. */
  method ValidateTrial(env: Env, t: Trial, look: Inspection) returns (r: Result<Verdict>)
    requires DistinctSpecs(env.specs)
    ensures r.Accepted? ==> Validates(env, t, look, r.value)
    ensures r.Refused? ==> Earned(env, t, look, r.refusal) && !HasVerdict(env, t, look)
  {
    var fault := CheckHeader(env, t, look);
    if fault.Some? {
      NoVerdict(env, t, look);
      return Refused(fault.value);
    }
    var ordered := OrderScenarios(env, t, look);
    if ordered.Refused? {
      return Refused(ordered.refusal);
    }
    var order := ordered.value.0;
    var classes, counters := Totals(order);
    if look.Inspected? && !look.stable {
      NoVerdict(env, t, look);
      return Refused(RepositoryMismatch);
    }
    var summary := Summary(|order|, classes, counters, ordered.value.1);
    r := Accepted(Verdict(Normalised(t, look, order), summary, Passes(t, classes)));
    OrderValidates(env, t, look, order, r.value);
  }

  /** The scenarios of a trial, indexed and checked in the fixed order. */
  method OrderScenarios(env: Env, t: Trial, look: Inspection) returns (r: Result<(seq<Scenario>, seq<real>)>)
    requires DistinctSpecs(env.specs) && |t.scenarios| == |env.specs|
    ensures r.Accepted? ==>
              && ListsEachOnce(env, t.scenarios) && ValidOrder(env, t, r.value.0)
              && r.value.1 == Samples(env, env.specs, r.value.0)
    ensures r.Refused? ==> Earned(env, t, look, r.refusal) && !HasVerdict(env, t, look)
  {
    var indexed := Index(env.specs, t.scenarios);
    if indexed.Refused? {
      NoVerdict(env, t, look);
      return Refused(indexed.refusal);
    }
    r := CheckScenarios(env, indexed.value, Bound(t));
    if r.Refused? {
      FaultRefutes(env, t, indexed.value, r.refusal);
      ScenarioCodes(env, t, look, r.refusal);
      NoVerdict(env, t, look);
    }
  }

  lemma NoVerdict(env: Env, t: Trial, look: Inspection)
    requires || !(HeaderValid(env, t) && InspectionPasses(look) && ListsEachOnce(env, t.scenarios))
             || forall order :: !ValidOrder(env, t, order)
    ensures !HasVerdict(env, t, look)
  {
  }

  lemma OrderValidates(env: Env, t: Trial, look: Inspection, order: seq<Scenario>, v: Verdict)
    requires HeaderValid(env, t) && InspectionPasses(look) && ListsEachOnce(env, t.scenarios)
    requires ValidOrder(env, t, order) && v == VerdictOf(env, t, look, order)
    ensures Validates(env, t, look, v)
  {
  }

  lemma FaultRefutes(env: Env, t: Trial, indexed: map<string, Scenario>, refusal: Refusal)
    requires DistinctSpecs(env.specs) && ListsEachOnce(env, t.scenarios)
    requires forall id :: id in indexed <==> HasId(t.scenarios, id)
    requires forall id :: id in indexed ==> indexed[id] in t.scenarios && indexed[id].id == id
    requires exists i :: 0 <= i < |env.specs| && Fault(indexed, env.specs[i], Bound(t), refusal)
    ensures exists i, j :: RefusedAt(env, t, i, j, refusal)
    ensures forall order :: !ValidOrder(env, t, order)
  {
    var i :| 0 <= i < |env.specs| && Fault(indexed, env.specs[i], Bound(t), refusal);
    var id := env.specs[i].id;
    NoneMissing(env.specs, t.scenarios, i);
    assert id in indexed;
    var j :| 0 <= j < |t.scenarios| && t.scenarios[j] == indexed[id];
    assert RefusedAt(env, t, i, j, refusal);
    forall order ensures !ValidOrder(env, t, order) {
      if Arranges(env.specs, t.scenarios, order) {
        SameEntry(env.specs, t.scenarios, order, i, indexed[id]);
      }
    }
  }

  /** The refusals of one scenario are none of the trial's own. */
  lemma ScenarioCodes(env: Env, t: Trial, look: Inspection, refusal: Refusal)
    requires exists i, j :: RefusedAt(env, t, i, j, refusal)
    ensures Earned(env, t, look, refusal)
  {
    var i, j :| RefusedAt(env, t, i, j, refusal);
    assert ScenarioFault(t.scenarios[j], env.specs[i], Bound(t), refusal);
  }

  lemma SameEntry(specs: seq<Spec>, from: seq<Scenario>, order: seq<Scenario>, i: nat, entry: Scenario)
    requires DistinctIds(from) && Arranges(specs, from, order) && i < |specs|
    requires entry in from && entry.id == specs[i].id
    ensures order[i] == entry
  {
    var j :| 0 <= j < |from| && from[j] == order[i];
    var k :| 0 <= k < |from| && from[k] == entry;
  }
}
