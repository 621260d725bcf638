/** Finishing an interrupted history: which roots one untroubled life completes, and
    that such a life exists under the pair check of the source. */
module JournalResume {
  import opened Collections
  import opened Comparison
  import opened Matrix
  import opened Journal
  import opened LiveLoop
  import opened JournalRuns
  import opened JournalBlocked

  /** The pair is not one still to do that has used up its attempts. */
  predicate HasRoom(dir: Dir, id: PairId) {
    Complete(id) !in dir ==> Started(id, MAX_JOURNAL_ATTEMPTS) !in dir
  }

  /** Nothing on record stops a visit of the pair: it can be started if it is still to do,
      and read if it is complete. */
  predicate Visitable(dir: Dir, cfg: Config, id: PairId) {
    HasRoom(dir, id) && !Unreadable(dir, cfg, id)
  }

  /** A life in which no write fails and every execution of a designed pair succeeds. */
  ghost predicate Untroubled(life: Life, cfg: Config) {
    && (forall t :: life.os(t) == Done)
    && (forall id, n :: id in DESIGN && n >= 1 ==> Succeeds(life, cfg, id, n))
  }

  ghost predicate Succeeds(life: Life, cfg: Config, id: PairId, n: nat) {
    var execution := life.run(id, n);
    execution.Built? && execution.pair.attempt == n && cfg.validate(execution.pair, id).Ok?
  }

  /** The stored pair, if any, sits at its design position. */
  ghost predicate Positioned(dir: Dir, id: PairId) {
    Complete(id) in dir ==> dir[Complete(id)].Envelope? && InPosition(dir[Complete(id)].pair, id)
  }

  /** Pairs the live runner built sit at their positions. */
  lemma LiveIsPositioned(dir: Dir, cfg: Config, id: PairId)
    requires Inv(dir, cfg) && ChecksIdentity(cfg) && AllLive(dir)
    ensures Positioned(dir, id)
  {
    assert PairOk(dir, cfg, id);
    var k: nat :| PairInv(dir, cfg, id, k);
    if Complete(id) in dir {
      LiveOrder(dir[Complete(id)].pair);
    }
  }

  lemma LiveOrder(pair: Pair)
    requires FromRunner(pair)
    ensures pair.first == OrderOf(pair.id)
  {
  }

  lemma StartSucceeds(w: World, os: nat -> WriteFate, cfg: Config, id: PairId, slots: nat, k: nat)
    requires PairInv(w.dir, cfg, id, k) && Complete(id) !in w.dir && k < MAX_JOURNAL_ATTEMPTS
    requires forall t :: os(t) == Done
    ensures StartAttempt(w, os, cfg, id, slots).1 == Returned(k + 1)
  {
    StartIsRestart(w, os, cfg, id, slots, k);
    assert Started(id, k + 1) !in w.dir;
  }

  lemma ConcludeSucceeds(w: World, life: Life, cfg: Config, id: PairId, k: nat)
    requires Underway(w.dir, cfg, id, k) && Succeeds(life, cfg, id, k) && forall t :: life.os(t) == Done
    ensures Conclude(w, life.os, cfg, id, k, life.run(id, k)).1.Returned?
  {
    assert Closed(id, k, Finished) !in w.dir;
  }

  lemma VisitSucceeds(w: World, life: Life, cfg: Config, id: PairId, ledger: Ledger)
    requires Inv(w.dir, cfg) && ChecksIdentity(cfg) && Untroubled(life, cfg) && id in DESIGN
    requires Visitable(w.dir, cfg, id) && Positioned(w.dir, id) && ledger.charged + Slots(id) <= life.maximum
    ensures Visit(w, life, cfg, id, ledger).2.Returned?
  {
    assert PairOk(w.dir, cfg, id);
    var k: nat :| PairInv(w.dir, cfg, id, k);
    LoadIsRecorded(w.dir, cfg, id, k);
    if Complete(id) !in w.dir {
      StartSucceeds(w, life.os, cfg, id, Slots(id), k);
      StartBegins(w, life.os, cfg, id, Slots(id));
      assert Succeeds(life, cfg, id, k + 1);
      ConcludeSucceeds(StartAttempt(w, life.os, cfg, id, Slots(id)).0, life, cfg, id, k + 1);
    }
  }

  /** A pair that has used up its attempts, or whose envelope is above the read bound,
      stops every visit, which then changes nothing. */
  lemma VisitRefused(w: World, life: Life, cfg: Config, id: PairId, ledger: Ledger)
    requires Inv(w.dir, cfg) && !Visitable(w.dir, cfg, id)
    ensures !Visit(w, life, cfg, id, ledger).2.Returned? && Visit(w, life, cfg, id, ledger).0 == w
  {
    assert PairOk(w.dir, cfg, id);
    var k: nat :| PairInv(w.dir, cfg, id, k);
    LoadIsRecorded(w.dir, cfg, id, k);
    StartKeeps(w, life.os, cfg, id, Slots(id), k);
  }

  lemma OthersUntouched(before: Dir, after: Dir, cfg: Config, id: PairId, other: PairId)
    requires Extends(before, after, id) && other != id
    ensures Visitable(after, cfg, other) <==> Visitable(before, cfg, other)
    ensures Positioned(after, other) <==> Positioned(before, other)
  {
  }

  predicate AllVisitable(dir: Dir, cfg: Config, ids: seq<PairId>) {
    forall i :: 0 <= i < |ids| ==> Visitable(dir, cfg, ids[i])
  }

  /** An untroubled loop returns exactly when nothing on record stops one of its pairs. */
  lemma {:induction false} LoopSucceedsIff(w: World, life: Life, cfg: Config, ids: seq<PairId>, ledger: Ledger)
    requires Inv(w.dir, cfg) && ChecksIdentity(cfg) && Untroubled(life, cfg) && Distinct(ids)
    requires forall i :: 0 <= i < |ids| ==> ids[i] in DESIGN && Positioned(w.dir, ids[i])
    requires ledger.charged + SlotSum(ids) <= life.maximum
    ensures VisitAll(w, life, cfg, ids, ledger).2.Returned? <==> AllVisitable(w.dir, cfg, ids)
    decreases |ids|
  {
    if ids != [] {
      var id, rest := ids[0], ids[1..];
      if Visitable(w.dir, cfg, id) {
        VisitSucceeds(w, life, cfg, id, ledger);
        VisitKeeps(w, life, cfg, id, ledger);
        var (w1, ledger1, r) := Visit(w, life, cfg, id, ledger);
        forall i | 0 <= i < |rest|
          ensures Visitable(w1.dir, cfg, rest[i]) <==> Visitable(w.dir, cfg, ids[i + 1])
          ensures Positioned(w1.dir, rest[i])
        {
          assert rest[i] == ids[i + 1] != id;
          OthersUntouched(w.dir, w1.dir, cfg, id, rest[i]);
        }
        assert Distinct(rest);
        VisitableSplits(w.dir, w1.dir, cfg, ids);
        LoopSucceedsIff(w1, life, cfg, rest, ledger1);
      } else {
        VisitRefused(w, life, cfg, id, ledger);
      }
    }
  }

  lemma VisitableSplits(before: Dir, after: Dir, cfg: Config, ids: seq<PairId>)
    requires ids != [] && Visitable(before, cfg, ids[0])
    requires forall i :: 0 <= i < |ids[1..]| ==>
               (Visitable(after, cfg, ids[1..][i]) <==> Visitable(before, cfg, ids[i + 1]))
    ensures AllVisitable(before, cfg, ids) <==> AllVisitable(after, cfg, ids[1..])
  {
    if AllVisitable(after, cfg, ids[1..]) {
      forall i | 0 <= i < |ids| ensures Visitable(before, cfg, ids[i]) {
        if i > 0 {
          assert Visitable(after, cfg, ids[1..][i - 1]);
        }
      }
    }
  }

  /** Any interrupted history of live executions can be finished exactly when its root is
      not stuck, has the life's identity or none, every pair still to do has attempts to
      spare and every completed one is within the read bound: then one untroubled life
      completes all six pairs. */
  lemma ResumeCompletes(lives: seq<Life>, life: Life, base: Config)
    requires ChecksIdentity(base) && Admitted(life) && forall i :: 0 <= i < |lives| ==> RunsLive(lives[i])
    requires Untroubled(life, base.(identity := life.identity))
    ensures var root := RunLives(lives, base);
            var (root1, ledger, r) := RunLife(root, life, base);
            && (r.Returned? <==> !Stuck(root) && (root.manifest.None? || root.manifest.value == life.identity)
                                 && AllVisitable(root.dir, base, DESIGN))
            && (r.Returned? ==> Recorded(root1.dir, DESIGN, ledger.pairs))
  {
    var root := RunLives(lives, base);
    var cfg := base.(identity := life.identity);
    HistoriesSound(lives, base);
    HistoriesStayLive(lives, base);
    EmptyInv(cfg);
    var (ready, opening) := Open(root, life);
    assert life.os(0) == Done;
    assert opening.Returned? <==> !Stuck(root) && (root.manifest.None? || root.manifest.value == life.identity);
    if opening.Returned? {
      ResumesOpened(ready, life, cfg);
      LifeReturns(root, life, base);
    }
  }

  lemma ResumesOpened(ready: Root, life: Life, cfg: Config)
    requires Inv(ready.dir, cfg) && ChecksIdentity(cfg) && AllLive(ready.dir) && Untroubled(life, cfg) && Admitted(life)
    ensures VisitAll(Awake(ready), life, cfg, DESIGN, EMPTY).2.Returned? <==> AllVisitable(ready.dir, cfg, DESIGN)
  {
    DesignSlots();
    DesignDistinct();
    forall i | 0 <= i < |DESIGN| ensures Positioned(ready.dir, DESIGN[i]) {
      LiveIsPositioned(ready.dir, cfg, DESIGN[i]);
    }
    LoopSucceedsIff(Awake(ready), life, cfg, DESIGN, EMPTY);
  }

  // ----- Such a life exists -----

  /** A run as the harness records it when the client simply answers correctly. */
  function CleanRun(id: PairId, condition: Condition, replica: nat, expected: string, tokens: Tokens): Run {
    BuildRecord(id.client, condition, replica,
                Analysis(Process(0, false, false), false, false, true, false, 0, 0, 0, Some(expected), None, tokens))
  }

  function CleanRuns(id: PairId, condition: Condition, count: nat, expected: string, tokens: Tokens): seq<Run> {
    seq(count, i requires 0 <= i < count => CleanRun(id, condition, i, expected, tokens))
  }

  function CleanPair(id: PairId, n: nat, plan: Plan, tokens: Tokens): Result<Pair> {
    var task := TaskIndex(id.task);
    if task.None? then Refused("comparison_pair")
    else
      var count, expected := TASKS[task.value].concurrency, TASKS[task.value].expected;
      LivePair(id, n, CleanRuns(id, Baseline, count, expected, tokens),
               CleanRuns(id, AgainEnabled, count, expected, tokens), NO_ACTIVITY, NO_ACTIVITY, plan)
  }

  lemma {:induction false} NoCalls(runs: seq<Run>)
    requires forall i :: 0 <= i < |runs| ==> runs[i].againCalls == 0
    ensures Calls(runs) == 0
  {
    if runs != [] {
      NoCalls(runs[1..]);
    }
  }

  lemma CleanRunsSound(id: PairId, condition: Condition, count: nat, expected: string, tokens: Tokens)
    ensures var runs := CleanRuns(id, condition, count, expected, tokens);
            && Sound(runs, Exactly(condition, id.client, count)) && Retains(runs, expected) && Calls(runs) == 0
  {
    var runs := CleanRuns(id, condition, count, expected, tokens);
    NoCalls(runs);
    assert Replicas(runs) == Range(count);
  }

  lemma DesignTasks(id: PairId)
    requires id in DESIGN
    ensures id.client in CLIENTS && TaskIndex(id.task).Some?
            && 1 <= TASKS[TaskIndex(id.task).value].concurrency <= MAX_AGENT_RUNS
  {
  }

  /** The live runner builds an accepted pair from such runs, at every attempt. */
  lemma CleanPairAccepted(id: PairId, n: nat, plan: Plan, tokens: Tokens)
    requires id in DESIGN && n >= 1
    ensures var built := CleanPair(id, n, plan, tokens);
            built.Ok? && built.value.attempt == n && ValidatePair(built.value, id).Ok? && FromRunner(built.value)
  {
    DesignTasks(id);
    var task := TASKS[TaskIndex(id.task).value];
    var b := CleanRuns(id, Baseline, task.concurrency, task.expected, tokens);
    var e := CleanRuns(id, AgainEnabled, task.concurrency, task.expected, tokens);
    CleanRunsSound(id, Baseline, task.concurrency, task.expected, tokens);
    CleanRunsSound(id, AgainEnabled, task.concurrency, task.expected, tokens);
    LiveAccepted(id, n, b, e, plan);
    var pair := CleanPair(id, n, plan, tokens).value;
    assert IsLive(pair, plan);
  }

  lemma LiveAccepted(id: PairId, n: nat, b: seq<Run>, e: seq<Run>, plan: Plan)
    requires id in DESIGN && n >= 1 && TaskIndex(id.task).Some?
    requires var task := TASKS[TaskIndex(id.task).value];
             && Sound(b, Exactly(Baseline, id.client, task.concurrency))
             && Sound(e, Exactly(AgainEnabled, id.client, task.concurrency))
             && Retains(b, task.expected) && Retains(e, task.expected)
    requires Calls(b) == 0
    ensures var built := LivePair(id, n, b, e, NO_ACTIVITY, NO_ACTIVITY, plan);
            built.Ok? && built.value.id == id && built.value.attempt == n && ValidatePair(built.value, id).Ok?
  {
    DesignTasks(id);
    var task := TASKS[TaskIndex(id.task).value];
    SoundAnywhere(b, Exactly(Baseline, id.client, task.concurrency));
    SoundAnywhere(e, Exactly(AgainEnabled, id.client, task.concurrency));
    var derived := Classify(b, e, NO_ACTIVITY);
    assert derived.Ok?;
    ClassifyReconciles(b, e, NO_ACTIVITY, derived.value);
    var pair := Pair(id, task.concurrency, n, OrderOf(id), Arm(b, NO_ACTIVITY, None), Arm(e, NO_ACTIVITY, None),
                     derived.value, true, Some(WorkspaceName(id, n)), plan.fixture, plan.binding(id));
    PairAccepted(pair, id);
    assert ExactPair(pair, id);
  }

  function CleanExecution(id: PairId, n: nat, plan: Plan, tokens: Tokens): Execution {
    var built := CleanPair(id, n, plan, tokens);
    if built.Ok? && built.value.attempt == n then Built(built.value) else Killed
  }

  /** A life in which every client answers correctly and reports these token counts. */
  function CleanLife(identity: string, plan: Plan, tokens: Tokens): Life {
    Life((t: nat) => Done, (id: PairId, n: nat) => CleanExecution(id, n, plan, tokens), PLANNED_RUNS, identity)
  }

  /** Under the pair check of the source there are untroubled lives of live executions,
      for every identity, plan and report of tokens. */
  lemma UntroubledExists(base: Config, plan: Plan, tokens: Tokens)
    requires base.validate == ValidatePair
    ensures var life := CleanLife(base.identity, plan, tokens);
            Admitted(life) && RunsLive(life) && Untroubled(life, base)
  {
    var life := CleanLife(base.identity, plan, tokens);
    forall id, n | id in DESIGN && n >= 1 ensures Succeeds(life, base, id, n) {
      CleanPairAccepted(id, n, plan, tokens);
    }
    forall id, n | life.run(id, n).Built? ensures FromRunner(life.run(id, n).pair) {
      CleanFromRunner(id, n, plan, tokens);
    }
  }

  lemma CleanFromRunner(id: PairId, n: nat, plan: Plan, tokens: Tokens)
    ensures var built := CleanPair(id, n, plan, tokens); built.Ok? ==> FromRunner(built.value)
  {
    var built := CleanPair(id, n, plan, tokens);
    if built.Ok? {
      assert IsLive(built.value, plan);
    }
  }

  /** From an empty root such a life completes all six pairs. */
  lemma FreshCompletes(base: Config, plan: Plan, tokens: Tokens)
    requires base.validate == ValidatePair
    ensures var (root1, ledger, r) := RunLife(FRESH_ROOT, CleanLife(base.identity, plan, tokens), base);
            r.Returned? && Recorded(root1.dir, DESIGN, ledger.pairs)
  {
    SourceChecksIdentity(base);
    UntroubledExists(base, plan, tokens);
    ResumeCompletes([], CleanLife(base.identity, plan, tokens), base);
  }
}
