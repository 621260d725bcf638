/** The complete six-pair design: validation of a whole matrix, what acceptance
    guarantees about its sums, and what becomes of pairs the live runner builds. */
module Matrix {
  import opened Collections
  import opened Comparison
  import Utf8

  /** The matrix in the order the live loop visits it: clients, then tasks. */
  const DESIGN: seq<PairId> := [
    PairId("claude", "concurrent_checksum_v1"), PairId("claude", "later_checksum_v1"),
    PairId("claude", "marker_locations_v1"), PairId("codex", "concurrent_checksum_v1"),
    PairId("codex", "later_checksum_v1"), PairId("codex", "marker_locations_v1")
  ]

  /** What the evaluation was asked to run, per pair. */
  datatype Plan = Plan(binding: PairId -> Binding, fixture: string)

  function OrderOf(id: PairId): Condition {
    FirstCondition(if id.client == "claude" then 0 else 1,
                   if TaskIndex(id.task).Some? then TaskIndex(id.task).value else 0)
  }

  /** Gateway dispositions never exceed requests. */
  predicate Balanced(s: Stats) { Dispositions(s) <= s.requested }

  /** At most 64 counts, under names of 1 to 256 bytes. */
  predicate TokensPass(tokens: Tokens) {
    && tokens.typed && |tokens.counts| <= 64
    && forall name :: name in tokens.counts ==> 1 <= |Utf8.Encode(name)| <= 256
  }

  predicate RunBound(run: Run, model: string) {
    (run.reportedModel.Some? ==> run.reportedModel.value == model) && TokensPass(run.tokens)
  }

  /** The code for the first run that is not bound, its model checked before its tokens. */
  function RunsRefusal(runs: seq<Run>, model: string): string {
    if runs == [] then ""
    else if runs[0].reportedModel.Some? && runs[0].reportedModel.value != model then "binding_mismatch"
    else if !TokensPass(runs[0].tokens) then "token_accounting"
    else RunsRefusal(runs[1..], model)
  }

  predicate RunsBound(runs: seq<Run>, model: string) {
    forall i :: 0 <= i < |runs| ==> RunBound(runs[i], model)
  }

  predicate Named(workspace: Option<string>) {
    workspace.Some? && workspace.value != ""
  }

  /** The checks on one pair before its workspace identity is looked up; the code
      of the first that fails. */
  function EarlyRefusal(pair: Pair, plan: Plan): Option<string> {
    var verdict := ValidatePair(pair, pair.id);
    if pair.id !in DESIGN then Some("comparison_matrix")
    else if !Normal(pair.baseline.delta) then Some("stats")
    else if !Balanced(pair.baseline.delta) then Some("counter_impossible")
    else if !Normal(pair.enabled.delta) then Some("stats")
    else if !Balanced(pair.enabled.delta) then Some("counter_impossible")
    else if verdict.Refused? then Some(verdict.code)
    else if pair.first != OrderOf(pair.id) then Some("treatment_contamination")
    else if !pair.freshState then Some("workspace_reused")
    else if pair.fixture != plan.fixture then Some("binding_mismatch")
    else if !Named(pair.workspace) then Some("workspace_reused")
    else None
  }

  /** The checks after it. */
  function LateRefusal(pair: Pair, plan: Plan): Option<string> {
    if pair.binding != plan.binding(pair.id) then Some("binding_mismatch")
    else if pair.baseline.workspace != pair.workspace then Some("workspace_reused")
    else if !RunsBound(pair.baseline.runs, pair.binding.model) then
      Some(RunsRefusal(pair.baseline.runs, pair.binding.model))
    else if pair.enabled.workspace != pair.workspace then Some("workspace_reused")
    else if !RunsBound(pair.enabled.runs, pair.binding.model) then
      Some(RunsRefusal(pair.enabled.runs, pair.binding.model))
    else None
  }

  /** Every run of the pair reports the requested model or none, and its token counts are
      typed, at most 64, and named in 1 to 256 bytes. */
  ghost predicate RunsAccounted(pair: Pair) {
    forall run :: run in pair.baseline.runs + pair.enabled.runs ==>
      && run.reportedModel in {None, Some(pair.binding.model)}
      && run.tokens.typed && |run.tokens.counts| <= 64
      && forall name :: name in run.tokens.counts ==> name != "" && |Utf8.Encode(name)| <= 256
  }

  /** A pair fit for the matrix: designed, accepted on its own, in its treatment order, fresh,
      under this plan's fixture and binding, in one named workspace, and accounted for. */
  ghost predicate Fits(pair: Pair, plan: Plan) {
    && pair.id in DESIGN && ExactPair(pair, pair.id) && pair.first == OrderOf(pair.id) && pair.freshState
    && pair.fixture == plan.fixture && pair.binding == plan.binding(pair.id)
    && (exists name :: name != "" && pair.workspace == Some(name))
    && pair.baseline.workspace == pair.workspace && pair.enabled.workspace == pair.workspace
    && Dispositions(pair.enabled.delta) <= pair.enabled.delta.requested
    && RunsAccounted(pair)
  }

  lemma NameBytes(name: string)
    ensures |Utf8.Encode(name)| >= 1 <==> name != ""
  {
  }

  lemma RunsAccountedIff(pair: Pair)
    ensures RunsBound(pair.baseline.runs, pair.binding.model) && RunsBound(pair.enabled.runs, pair.binding.model) <==>
            RunsAccounted(pair)
  {
    var b, e := pair.baseline.runs, pair.enabled.runs;
    forall run: Run, name: string | name in run.tokens.counts
      ensures |Utf8.Encode(name)| >= 1 <==> name != ""
    {
      NameBytes(name);
    }
    if RunsAccounted(pair) {
      forall i | 0 <= i < |b| ensures RunBound(b[i], pair.binding.model) {
        assert b[i] in b + e;
      }
      forall i | 0 <= i < |e| ensures RunBound(e[i], pair.binding.model) {
        assert e[i] in b + e;
      }
    } else {
      var run :| run in b + e && !RunBound(run, pair.binding.model);
      assert run in b || run in e;
    }
  }

  /** The two lists of checks pass exactly the pairs that fit. */
  lemma FitsIff(pair: Pair, plan: Plan)
    ensures EarlyRefusal(pair, plan).None? && LateRefusal(pair, plan).None? <==> Fits(pair, plan)
  {
    EarlyIff(pair, plan);
    LateIff(pair, plan);
    DeltasFit(pair);
    RunsAccountedIff(pair);
  }

  lemma EarlyIff(pair: Pair, plan: Plan)
    ensures EarlyRefusal(pair, plan).None? <==>
            && pair.id in DESIGN && DeltasPass(pair) && pair.first == OrderOf(pair.id) && pair.freshState
            && pair.fixture == plan.fixture && Named(pair.workspace)
  {
  }

  lemma LateIff(pair: Pair, plan: Plan)
    ensures LateRefusal(pair, plan).None? <==>
            && pair.binding == plan.binding(pair.id)
            && pair.baseline.workspace == pair.workspace && pair.enabled.workspace == pair.workspace
            && RunsBound(pair.baseline.runs, pair.binding.model) && RunsBound(pair.enabled.runs, pair.binding.model)
  {
  }

  predicate DeltasPass(pair: Pair) {
    && Normal(pair.baseline.delta) && Balanced(pair.baseline.delta)
    && Normal(pair.enabled.delta) && Balanced(pair.enabled.delta) && ValidatePair(pair, pair.id).Ok?
  }

  lemma DeltasFit(pair: Pair)
    ensures DeltasPass(pair) <==>
            ExactPair(pair, pair.id) && Dispositions(pair.enabled.delta) <= pair.enabled.delta.requested
  {
    PairAccepted(pair, pair.id);
  }

  /** Which pairs are designed: an identity of the design, the concurrent task run twice
      and the others once, and an attempt from 1 on. */
  lemma DesignedIff(pair: Pair, id: PairId)
    ensures Designed(pair, id) <==>
            && id in DESIGN && pair.id == id && pair.attempt >= 1
            && pair.concurrency == (if id.task == "concurrent_checksum_v1" then 2 else 1)
  {
    if id.client in CLIENTS && TaskIndex(id.task).Some? {
      assert id.client == "claude" || id.client == "codex";
      assert id == PairId(id.client, id.task);
      assert id in DESIGN by {
        var t := TaskIndex(id.task).value;
        if id.client == "claude" {
          assert id == DESIGN[t];
        } else {
          assert id == DESIGN[3 + t];
        }
      }
    }
  }

  /** What is wrong with a pair refused under this code. */
  ghost predicate Faulty(pair: Pair, plan: Plan, code: string) {
    var b, e := pair.baseline, pair.enabled;
    || PairFault(pair, pair.id, code)
    || (code == "comparison_matrix" && pair.id !in DESIGN)
    || (code == "counter_impossible" && (!Balanced(b.delta) || !Balanced(e.delta)))
    || (code == "treatment_contamination" && pair.first != OrderOf(pair.id))
    || (code == "workspace_reused" && (!pair.freshState || !Named(pair.workspace)))
    || (code == "workspace_reused" && (b.workspace != pair.workspace || e.workspace != pair.workspace))
    || (code == "binding_mismatch" && (pair.fixture != plan.fixture || pair.binding != plan.binding(pair.id)))
    || (code == "binding_mismatch" && exists run :: run in b.runs + e.runs && OtherModel(run, pair.binding.model))
    || (code == "token_accounting" && exists run :: run in b.runs + e.runs && !TokensPass(run.tokens))
  }

  predicate OtherModel(run: Run, model: string) { run.reportedModel.Some? && run.reportedModel.value != model }

  lemma {:induction false} RunsFault(runs: seq<Run>, model: string)
    requires !RunsBound(runs, model)
    ensures var code := RunsRefusal(runs, model);
            || (code == "binding_mismatch" && exists run :: run in runs && OtherModel(run, model))
            || (code == "token_accounting" && exists run :: run in runs && !TokensPass(run.tokens))
  {
    if RunBound(runs[0], model) {
      assert forall i :: 0 <= i < |runs| - 1 ==> runs[1..][i] == runs[i + 1];
      RunsFault(runs[1..], model);
    } else {
      assert runs[0] in runs;
    }
  }

  lemma RunsFaultEither(pair: Pair, code: string)
    requires var b, e, model := pair.baseline.runs, pair.enabled.runs, pair.binding.model;
             || (!RunsBound(b, model) && code == RunsRefusal(b, model))
             || (!RunsBound(e, model) && code == RunsRefusal(e, model))
    ensures var runs := pair.baseline.runs + pair.enabled.runs;
            || (code == "binding_mismatch" && exists run :: run in runs && OtherModel(run, pair.binding.model))
            || (code == "token_accounting" && exists run :: run in runs && !TokensPass(run.tokens))
  {
    var b, e, model := pair.baseline.runs, pair.enabled.runs, pair.binding.model;
    if !RunsBound(b, model) && code == RunsRefusal(b, model) {
      RunsFault(b, model);
    } else {
      RunsFault(e, model);
    }
    assert forall run :: run in b || run in e ==> run in b + e;
  }

  /** A refusal of one pair names something that is wrong with it. */
  lemma EarlyFault(pair: Pair, plan: Plan)
    requires EarlyRefusal(pair, plan).Some?
    ensures Faulty(pair, plan, EarlyRefusal(pair, plan).value)
  {
    if ValidatePair(pair, pair.id).Refused? {
      PairRefused(pair, pair.id);
    }
  }

  lemma LateFault(pair: Pair, plan: Plan)
    requires LateRefusal(pair, plan).Some?
    ensures Faulty(pair, plan, LateRefusal(pair, plan).value)
  {
    var b, e, model := pair.baseline.runs, pair.enabled.runs, pair.binding.model;
    var code := LateRefusal(pair, plan).value;
    if (!RunsBound(b, model) && code == RunsRefusal(b, model))
      || (!RunsBound(e, model) && code == RunsRefusal(e, model)) {
      RunsFaultEither(pair, code);
    }
  }

  function Ids(pairs: seq<Pair>): (ids: seq<PairId>)
    ensures |ids| == |pairs|
  {
    seq(|pairs|, i requires 0 <= i < |pairs| => pairs[i].id)
  }

  function Workspaces(pairs: seq<Pair>): (workspaces: seq<Option<string>>)
    ensures |workspaces| == |pairs|
  {
    seq(|pairs|, i requires 0 <= i < |pairs| => pairs[i].workspace)
  }

  /** An accepted matrix: six pairs, none repeated, each passing its own checks,
      no two in the same workspace. */
  ghost predicate Exact(pairs: seq<Pair>, plan: Plan) {
    && |pairs| == 6 && Distinct(Ids(pairs)) && Distinct(Workspaces(pairs))
    && forall i :: 0 <= i < |pairs| ==> Fits(pairs[i], plan)
  }

  /** So an accepted matrix is the design, each pair once. */
  lemma ExactIsDesign(pairs: seq<Pair>, plan: Plan)
    requires Exact(pairs, plan)
    ensures multiset(Ids(pairs)) == multiset(DESIGN)
  {
    DesignComplete(Ids(pairs));
    assert Distinct(DESIGN);
    SameElementsIff(Ids(pairs), DESIGN);
  }

  /** What is wrong with a matrix refused under this code. */
  ghost predicate MatrixFault(pairs: seq<Pair>, plan: Plan, code: string) {
    || (code == "duplicate_run" && !Distinct(Ids(pairs)))
    || (code == "missing_baseline_pair" && |pairs| != 6 && exists id :: id in DESIGN && id !in Ids(pairs))
    || (code == "comparison_matrix" && |pairs| != 6 && forall id :: id in DESIGN ==> id in Ids(pairs))
    || (code == "workspace_reused" && !Distinct(Workspaces(pairs)))
    || exists pair :: pair in pairs && Faulty(pair, plan, code)
  }

  /** The same for any per-pair checks. */
  ghost predicate FaultBy(pairs: seq<Pair>, early: Pair -> Option<string>, late: Pair -> Option<string>, code: string) {
    || (code == "duplicate_run" && !Distinct(Ids(pairs)))
    || (code == "missing_baseline_pair" && |pairs| != 6 && exists id :: id in DESIGN && id !in Ids(pairs))
    || (code == "comparison_matrix" && |pairs| != 6 && forall id :: id in DESIGN ==> id in Ids(pairs))
    || (code == "workspace_reused" && !Distinct(Workspaces(pairs)))
    || exists pair :: pair in pairs && (early(pair) == Some(code) || late(pair) == Some(code))
  }

  /** The same for any per-pair checks. */
  ghost predicate ExactBy(pairs: seq<Pair>, early: Pair -> Option<string>, late: Pair -> Option<string>) {
    && |pairs| == 6 && Distinct(Ids(pairs)) && Distinct(Workspaces(pairs))
    && forall i :: 0 <= i < |pairs| ==> early(pairs[i]).None? && late(pairs[i]).None?
  }

  lemma DesignSize()
    ensures |Elements(DESIGN)| == 6
  {
    assert Distinct(DESIGN);
    DistinctSize(DESIGN);
  }

  /** Six distinct designed identities are the whole design, so the source's final
      completeness check cannot fire. */
  lemma DesignComplete(ids: seq<PairId>)
    requires |ids| == 6 && Distinct(ids)
    requires forall i :: 0 <= i < |ids| ==> ids[i] in DESIGN
    ensures Elements(ids) == Elements(DESIGN)
  {
    DistinctSize(ids);
    DesignSize();
    SameSizeSubset(Elements(ids), Elements(DESIGN));
  }

  lemma TakeOneMore(pairs: seq<Pair>, i: nat)
    requires i < |pairs|
    ensures Ids(pairs[..i + 1]) == Ids(pairs[..i]) + [pairs[i].id]
    ensures Workspaces(pairs[..i + 1]) == Workspaces(pairs[..i]) + [pairs[i].workspace]
  {
  }

  lemma DistinctPrefix<T>(s: seq<T>, i: nat)
    requires i <= |s| && !Distinct(s[..i])
    ensures !Distinct(s)
  {
    var j, k :| 0 <= j < k < i && s[..i][j] == s[..i][k];
    assert s[j] == s[k];
  }

  lemma ElementsWithin(a: seq<PairId>, b: seq<PairId>)
    ensures Elements(a) <= Elements(b) <==> forall id :: id in a ==> id in b
  {
    if forall id :: id in a ==> id in b {
      forall id | id in Elements(a) ensures id in Elements(b) {
      }
    } else {
      var id :| id in a && id !in b;
      assert id in Elements(a) && id !in Elements(b);
    }
  }

  /** The loop of `validate_evaluation_matrix` over given per-pair checks. */
  method CheckPairs(pairs: seq<Pair>, early: Pair -> Option<string>, late: Pair -> Option<string>)
    returns (verdict: Result<(nat, nat)>)
    requires forall p :: early(p).None? ==> p.id in DESIGN && p.workspace.Some?
    ensures verdict.Ok? <==> ExactBy(pairs, early, late)
    ensures verdict.Ok? ==> verdict.value == (6, 6)
    ensures verdict.Refused? ==> FaultBy(pairs, early, late, verdict.code)
  {
    DistinctSize(Ids(pairs));
    if |Elements(Ids(pairs))| != |pairs| {
      return Refused("duplicate_run");
    }
    if |pairs| != 6 {
      ElementsWithin(DESIGN, Ids(pairs));
      return Refused(if Elements(DESIGN) <= Elements(Ids(pairs)) then "comparison_matrix" else "missing_baseline_pair");
    }
    var workspaces: set<Option<string>> := {};
    for i := 0 to |pairs|
      invariant forall k :: 0 <= k < i ==> early(pairs[k]).None? && late(pairs[k]).None?
      invariant workspaces == Elements(Workspaces(pairs[..i])) && Distinct(Workspaces(pairs[..i]))
    {
      var pair := pairs[i];
      TakeOneMore(pairs, i);
      DistinctAppend(Workspaces(pairs[..i]), pair.workspace);
      if early(pair).Some? {
        return Refused(early(pair).value);
      }
      if pair.workspace in workspaces {
        assert Workspaces(pairs)[..i + 1] == Workspaces(pairs[..i + 1]);
        DistinctPrefix(Workspaces(pairs), i + 1);
        return Refused("workspace_reused");
      }
      workspaces := workspaces + {pair.workspace};
      if late(pair).Some? {
        return Refused(late(pair).value);
      }
    }
    assert pairs[..|pairs|] == pairs;
    DesignComplete(Ids(pairs));
    DistinctSize(Workspaces(pairs));
    if Elements(Ids(pairs)) != Elements(DESIGN) {
      return Refused("missing_baseline_pair");
    }
    return Ok((|pairs|, |workspaces|));
  }

  /** `validate_evaluation_matrix`: accepts exactly the exact matrices, and then
      reports six pairs in six workspaces; a refusal names something that is wrong, and
      never that an otherwise whole matrix misses a pair. */
  method ValidateMatrix(pairs: seq<Pair>, plan: Plan) returns (verdict: Result<(nat, nat)>)
    ensures verdict.Ok? <==> Exact(pairs, plan)
    ensures verdict.Ok? ==> verdict.value == (6, 6)
    ensures verdict.Refused? ==> MatrixFault(pairs, plan, verdict.code)
  {
    var early, late := (p: Pair) => EarlyRefusal(p, plan), (p: Pair) => LateRefusal(p, plan);
    verdict := CheckPairs(pairs, early, late);
    forall i | 0 <= i < |pairs|
      ensures early(pairs[i]).None? && late(pairs[i]).None? <==> Fits(pairs[i], plan)
    {
      FitsIff(pairs[i], plan);
    }
    if verdict.Refused? {
      FaultNamed(pairs, plan, early, late, verdict.code);
    }
  }

  lemma FaultNamed(pairs: seq<Pair>, plan: Plan, early: Pair -> Option<string>, late: Pair -> Option<string>,
                   code: string)
    requires FaultBy(pairs, early, late, code)
    requires forall p :: early(p) == EarlyRefusal(p, plan) && late(p) == LateRefusal(p, plan)
    ensures MatrixFault(pairs, plan, code)
  {
    if pair :| pair in pairs && (early(pair) == Some(code) || late(pair) == Some(code)) {
      if early(pair) == Some(code) {
        EarlyFault(pair, plan);
      } else {
        LateFault(pair, plan);
      }
      assert Faulty(pair, plan, code);
    }
  }

  // ----- Conservation -----

  /** Over an accepted matrix the gateway's dispositions stay within its requests,
      and so do the confirmed false hits; the baselines saw nothing. */
  lemma {:induction false} SumsConserved(pairs: seq<Pair>, plan: Plan)
    requires forall i :: 0 <= i < |pairs| ==> Fits(pairs[i], plan)
    ensures SumBy(pairs, (p: Pair) => Dispositions(p.enabled.delta)) <=
            SumBy(pairs, (p: Pair) => p.enabled.delta.requested)
    ensures SumBy(pairs, (p: Pair) => p.reconciliation.falseHits) <=
            SumBy(pairs, (p: Pair) => p.enabled.delta.requested)
    ensures SumBy(pairs, (p: Pair) => p.baseline.delta.requested) == 0
  {
    if pairs != [] {
      SumsConserved(pairs[1..], plan);
      FalseHitsWithinRequests(pairs[0], plan);
    }
  }

  lemma FalseHitsWithinRequests(pair: Pair, plan: Plan)
    requires Fits(pair, plan)
    ensures pair.reconciliation.falseHits <= pair.enabled.delta.requested
    ensures pair.baseline.delta == NO_ACTIVITY
  {
    PairAccepted(pair, pair.id);
  }

  // ----- Pairs as the live runner builds them -----

  function Digit(n: nat): char
    requires n < 10
  {
    "0123456789"[n]
  }

  function Decimal(n: nat): string {
    if n < 10 then [Digit(n)] else Decimal(n / 10) + [Digit(n % 10)]
  }

  /** The attempt number padded to four digits. */
  function Padded(n: nat): string {
    var digits := Decimal(n);
    if |digits| < 4 then "0000"[..4 - |digits|] + digits else digits
  }

  /** The number a string of digits spells. */
  function Spelled(digits: string): nat {
    if digits == [] then 0
    else
      var last := digits[|digits| - 1];
      10 * Spelled(digits[..|digits| - 1]) + (if '0' <= last <= '9' then last as int - '0' as int else 0)
  }

  lemma {:induction false} DecimalSpells(n: nat)
    ensures Spelled(Decimal(n)) == n && |Decimal(n)| >= 1
  {
    var digits := Decimal(n);
    if n >= 10 {
      DecimalSpells(n / 10);
      assert digits[..|digits| - 1] == Decimal(n / 10);
    } else {
      assert digits[..0] == [];
    }
  }

  lemma {:induction false} LeadingZeros(zeros: string, digits: string)
    requires forall i :: 0 <= i < |zeros| ==> zeros[i] == '0'
    ensures Spelled(zeros + digits) == Spelled(digits)
    decreases |zeros| + |digits|
  {
    if digits != [] {
      LeadingZeros(zeros, digits[..|digits| - 1]);
      assert (zeros + digits)[..|zeros + digits| - 1] == zeros + digits[..|digits| - 1];
    } else if zeros != [] {
      LeadingZeros(zeros[..|zeros| - 1], []);
      assert (zeros + digits)[..|zeros + digits| - 1] == zeros[..|zeros| - 1] + [];
    }
  }

  /** The padded number has at least four digits and spells the attempt. */
  lemma PaddedSpells(n: nat)
    ensures |Padded(n)| >= 4 && Spelled(Padded(n)) == n
  {
    DecimalSpells(n);
    var digits := Decimal(n);
    if |digits| < 4 {
      LeadingZeros("0000"[..4 - |digits|], digits);
    }
  }

  /** Different attempts of a pair work in different workspaces. */
  lemma AttemptsApart(id: PairId, m: nat, n: nat)
    requires WorkspaceName(id, m) == WorkspaceName(id, n)
    ensures m == n
  {
    var head := id.client + "--" + id.task + "--attempt-";
    assert WorkspaceName(id, m)[|head|..] == Padded(m) && WorkspaceName(id, n)[|head|..] == Padded(n);
    PaddedSpells(m);
    PaddedSpells(n);
  }

  function WorkspaceName(id: PairId, attempt: nat): string {
    id.client + "--" + id.task + "--attempt-" + Padded(attempt)
  }

  /** The record `execute_live_pair` returns for the runs and statistics it
      collected. Its two condition records carry no workspace identity. */
  function LivePair(id: PairId, attempt: nat, baseline: seq<Run>, enabled: seq<Run>, b: Stats, e: Stats,
                    plan: Plan): Result<Pair>
  {
    var derived := Classify(baseline, enabled, e);
    if b != NO_ACTIVITY then Refused("baseline_contaminated")
    else if derived.Refused? then Refused(derived.code)
    else
      var task := TaskIndex(id.task);
      var pair := Pair(id, if task.Some? then TASKS[task.value].concurrency else 0, attempt, OrderOf(id),
                       Arm(baseline, b, None), Arm(enabled, e, None), derived.value,
                       true, Some(WorkspaceName(id, attempt)), plan.fixture, plan.binding(id));
      var verdict := ValidatePair(pair, id);
      if verdict.Refused? then Refused(verdict.code) else Ok(pair)
  }

  ghost predicate IsLive(pair: Pair, plan: Plan) {
    exists attempt: nat, baseline, enabled, b, e ::
      LivePair(pair.id, attempt, baseline, enabled, b, e, plan) == Ok(pair)
  }

  /** Built by the live runner, under some plan. */
  ghost predicate FromRunner(pair: Pair) {
    exists plan :: IsLive(pair, plan)
  }

  /** No matrix of live pairs is ever accepted, whatever plans they were built under:
      the matrix compares each condition's workspace identity with the pair's, and the
      runner records none. */
  lemma LiveMatrixRefused(pairs: seq<Pair>, plan: Plan)
    requires forall i :: 0 <= i < |pairs| ==> FromRunner(pairs[i])
    ensures !Exact(pairs, plan)
  {
    if |pairs| == 6 {
      assert FromRunner(pairs[0]);
      assert pairs[0].baseline.workspace.None?;
    }
  }

  /** The same pair with the identity recorded in both condition records. */
  function Labelled(pair: Pair): Pair {
    pair.(baseline := pair.baseline.(workspace := pair.workspace),
          enabled := pair.enabled.(workspace := pair.workspace))
  }

  function LabelledAll(pairs: seq<Pair>): (labelled: seq<Pair>)
    ensures |labelled| == |pairs|
  {
    seq(|pairs|, i requires 0 <= i < |pairs| => Labelled(pairs[i]))
  }

  /** What the matrix still asks of a labelled live pair. */
  predicate Accountable(pair: Pair) {
    && Balanced(pair.enabled.delta)
    && RunsBound(pair.baseline.runs, pair.binding.model) && RunsBound(pair.enabled.runs, pair.binding.model)
  }

  lemma LabelledFits(pair: Pair, plan: Plan)
    requires IsLive(pair, plan) && pair.id in DESIGN
    ensures Fits(Labelled(pair), plan) <==> Accountable(pair)
  {
    var attempt: nat, baseline, enabled, b, e :| LivePair(pair.id, attempt, baseline, enabled, b, e, plan) == Ok(pair);
    assert |WorkspaceName(pair.id, attempt)| > 0;
    SameVerdict(pair, pair.id);
    FitsByParts(Labelled(pair), plan);
  }

  lemma SameVerdict(pair: Pair, id: PairId)
    ensures ValidatePair(Labelled(pair), id) == ValidatePair(pair, id)
  {
  }

  lemma FitsByParts(pair: Pair, plan: Plan)
    requires pair.id in DESIGN && ValidatePair(pair, pair.id).Ok? && pair.first == OrderOf(pair.id) && pair.freshState
    requires pair.fixture == plan.fixture && Named(pair.workspace) && pair.binding == plan.binding(pair.id)
    requires pair.baseline.workspace == pair.workspace == pair.enabled.workspace
    ensures Fits(pair, plan) <==> Accountable(pair)
  {
    PairAccepted(pair, pair.id);
    RunsAccountedIff(pair);
  }

  lemma NameLetters(id: PairId, n: nat)
    requires |id.client| >= 2 && |id.task| >= 1
    ensures |WorkspaceName(id, n)| > |id.client| + 2
    ensures WorkspaceName(id, n)[1] == id.client[1] && WorkspaceName(id, n)[|id.client| + 2] == id.task[0]
  {
    var head := id.client + "--" + id.task;
    assert WorkspaceName(id, n) == head + ("--attempt-" + Padded(n));
    assert head[1] == id.client[1] && head[|id.client| + 2] == id.task[0];
  }

  lemma DesignLetters(p: PairId, q: PairId)
    requires p in DESIGN && q in DESIGN && p != q
    ensures |p.client| >= 2 && |q.client| >= 2 && |p.task| >= 1 && |q.task| >= 1
    ensures p.client[1] != q.client[1] || (p.client == q.client && p.task[0] != q.task[0])
  {
    assert p.client == "claude" || p.client == "codex";
    assert q.client == "claude" || q.client == "codex";
    assert p.task[0] == 'c' || p.task[0] == 'l' || p.task[0] == 'm';
  }

  lemma NamesApart(p: PairId, q: PairId, m: nat, n: nat)
    requires p in DESIGN && q in DESIGN && p != q
    ensures WorkspaceName(p, m) != WorkspaceName(q, n)
  {
    DesignLetters(p, q);
    NameLetters(p, m);
    NameLetters(q, n);
  }

  /** Recording the identity is the whole repair: labelled, a live matrix over the
      six designed pairs is accepted exactly when every gateway delta balances and
      every run's reported model and token counts pass. */
  lemma LabelledMatrixAccepted(pairs: seq<Pair>, plan: Plan)
    requires |pairs| == 6 && Distinct(Ids(pairs))
    requires forall i :: 0 <= i < |pairs| ==> IsLive(pairs[i], plan) && pairs[i].id in DESIGN
    ensures Exact(LabelledAll(pairs), plan) <==> forall i :: 0 <= i < |pairs| ==> Accountable(pairs[i])
  {
    var labelled := LabelledAll(pairs);
    forall i | 0 <= i < |pairs| ensures Fits(labelled[i], plan) <==> Accountable(pairs[i]) {
      LabelledFits(pairs[i], plan);
    }
    assert Ids(labelled) == Ids(pairs);
    forall i, j | 0 <= i < j < |pairs| ensures Workspaces(labelled)[i] != Workspaces(labelled)[j] {
      assert Ids(pairs)[i] != Ids(pairs)[j];
      WorkspacesApart(pairs[i], pairs[j], plan);
    }
  }

  lemma WorkspacesApart(p: Pair, q: Pair, plan: Plan)
    requires IsLive(p, plan) && IsLive(q, plan) && p.id in DESIGN && q.id in DESIGN && p.id != q.id
    ensures p.workspace != q.workspace
  {
    var m := LiveWorkspace(p, plan);
    var n := LiveWorkspace(q, plan);
    NamesApart(p.id, q.id, m, n);
  }

  lemma LiveWorkspace(p: Pair, plan: Plan) returns (attempt: nat)
    requires IsLive(p, plan)
    ensures p.workspace == Some(WorkspaceName(p.id, attempt))
  {
    var n: nat, baseline, enabled, b, e :| LivePair(p.id, n, baseline, enabled, b, e, plan) == Ok(p);
    attempt := n;
  }
}
