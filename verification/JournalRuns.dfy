/** Theorems over whole histories of the run journal: any number of process lives,
    each interrupted anywhere, each resumed by the next. */
module JournalRuns {
  import opened Collections
  import opened Comparison
  import opened Matrix
  import opened Journal
  import opened LiveLoop

  /** A root without a manifest holds no records; otherwise the records satisfy the
      journal invariant under the manifest's identity. */
  ghost predicate RootInv(root: Root, base: Config) {
    if root.manifest.None? then root.dir == map[] else Inv(root.dir, base.(identity := root.manifest.value))
  }

  /** The source's own configuration meets the theorems' one assumption. */
  lemma SourceChecksIdentity(base: Config)
    requires base.validate == ValidatePair
    ensures ChecksIdentity(base)
  {
    forall pair, id | ValidatePair(pair, id).Ok? ensures Designed(pair, id) {
      PairAccepted(pair, id);
    }
  }

  lemma DesignDistinct()
    ensures Distinct(DESIGN)
  {
  }

  /** One life, however it ends, keeps the root sound, never changes or removes a
      record, adds none to a completed pair, and never rebinds the manifest. */
  lemma LifeKeeps(root: Root, life: Life, base: Config)
    requires RootInv(root, base) && ChecksIdentity(base)
    ensures var root1 := RunLife(root, life, base).0;
            && RootInv(root1, base) && Advances(root.dir, root1.dir)
            && (root.manifest.Some? ==> root1.manifest == root.manifest)
            && (root.manifest.Some? && root.manifest.value != life.identity ==> root1 == root)
  {
    var (ready, r) := Open(root, life);
    EmptyInv(base.(identity := life.identity));
    if Admitted(life) && r.Returned? {
      DesignDistinct();
      LoopKeeps(Awake(ready), life, base.(identity := life.identity), DESIGN, EMPTY);
    }
  }

  /** In every state any history of lives can reach, the journal is sound: for each
      pair the started attempts are exactly 1 .. k with k at most 128, every earlier
      attempt ended exactly once, a finished record implies the envelope, and the
      envelope is valid and names attempt k. */
  lemma {:induction false} HistoriesSound(lives: seq<Life>, base: Config)
    requires ChecksIdentity(base)
    ensures RootInv(RunLives(lives, base), base)
  {
    if lives != [] {
      HistoriesSound(lives[..|lives| - 1], base);
      LifeKeeps(RunLives(lives[..|lives| - 1], base), lives[|lives| - 1], base);
    }
  }

  /** Later lives keep every earlier record, and a completed pair gains nothing: its
      envelope never changes and has no successor. */
  lemma {:induction false} HistoriesAdvance(lives: seq<Life>, n: nat, base: Config)
    requires ChecksIdentity(base) && n <= |lives|
    ensures Advances(RunLives(lives[..n], base).dir, RunLives(lives, base).dir)
    decreases |lives|
  {
    if n == |lives| {
      assert lives[..n] == lives;
    } else {
      var init := lives[..|lives| - 1];
      HistoriesSound(init, base);
      HistoriesAdvance(init, n, base);
      assert init[..n] == lives[..n];
      LifeKeeps(RunLives(init, base), lives[|lives| - 1], base);
      AdvancesTransitive(RunLives(lives[..n], base).dir, RunLives(init, base).dir, RunLives(lives, base).dir);
    }
  }

  /** What a loop over `ids` that returned leaves, and what it did not redo. */
  ghost predicate AllPairsReturned(before: Dir, after: Dir, ids: seq<PairId>, ledger: Ledger) {
    && Recorded(after, ids, ledger.pairs)
    && (forall i :: 0 <= i < |ids| && Complete(ids[i]) in before ==>
          before[Complete(ids[i])].Envelope? && ledger.pairs[i] == before[Complete(ids[i])].pair)
    && ledger.resumed + |ledger.executed| == |ids|
    && ledger.resumed == CompleteCount(before, ids)
  }

  lemma LoopFinishes(w: World, w1: World, ids: seq<PairId>, ledger: Ledger, r: Outcome<()>, cfg: Config, maximum: int)
    requires LoopSpec(w, w1, ids, EMPTY, ledger, r, cfg, maximum)
    ensures forall i :: 0 <= i < |ledger.executed| ==> Complete(ledger.executed[i]) !in w.dir
    ensures r.Returned? ==> AllPairsReturned(w.dir, w1.dir, ids, ledger)
  {
    if r.Returned? {
      assert ledger.pairs[0..] == ledger.pairs;
    }
  }

  /** A life whose loop returns has the six pairs in design order, those completed
      before unchanged; resumed and executed add up to six; nothing completed was
      executed again; and the slots launched stay within the ceiling. */
  lemma LifeReturns(root: Root, life: Life, base: Config)
    requires RootInv(root, base) && ChecksIdentity(base)
    ensures var (root1, ledger, r) := RunLife(root, life, base);
            && (forall i :: 0 <= i < |ledger.executed| ==> Complete(ledger.executed[i]) !in root.dir)
            && (r.Returned? ==> AllPairsReturned(root.dir, root1.dir, DESIGN, ledger))
  {
    var (ready, opening) := Open(root, life);
    var cfg := base.(identity := life.identity);
    EmptyInv(cfg);
    if Admitted(life) && opening.Returned? {
      DesignDistinct();
      var w := Awake(ready);
      LoopKeeps(w, life, cfg, DESIGN, EMPTY);
      var (w1, ledger, r) := VisitAll(w, life, cfg, DESIGN, EMPTY);
      LoopFinishes(w, w1, DESIGN, ledger, r, cfg, life.maximum);
    }
  }

  lemma SlotsWithinCeiling(root: Root, life: Life, base: Config)
    requires RootInv(root, base) && ChecksIdentity(base)
    ensures var ledger := RunLife(root, life, base).1;
            ledger.executed != [] ==> SlotSum(ledger.executed) <= life.maximum
  {
    var (ready, opening) := Open(root, life);
    EmptyInv(base.(identity := life.identity));
    if Admitted(life) && opening.Returned? {
      DesignDistinct();
      LoopKeeps(Awake(ready), life, base.(identity := life.identity), DESIGN, EMPTY);
    }
  }

  // ----- The ceiling inside the loop never binds -----

  lemma {:induction false} CeilingSlack(w: World, life: Life, cfg: Config, ids: seq<PairId>, ledger: Ledger,
                                        maximum: int)
    requires ledger.charged + SlotSum(ids) <= life.maximum && ledger.charged + SlotSum(ids) <= maximum
    ensures VisitAll(w, life, cfg, ids, ledger) == VisitAll(w, life.(maximum := maximum), cfg, ids, ledger)
    decreases |ids|
  {
    if ids != [] {
      VisitIgnoresCeiling(w, life, cfg, ids[0], ledger, maximum);
      var (w1, ledger1, r) := Visit(w, life, cfg, ids[0], ledger);
      if r.Returned? {
        CeilingSlack(w1, life, cfg, ids[1..], ledger1, maximum);
      }
    }
  }

  lemma VisitIgnoresCeiling(w: World, life: Life, cfg: Config, id: PairId, ledger: Ledger, maximum: int)
    requires ledger.charged + Slots(id) <= life.maximum && ledger.charged + Slots(id) <= maximum
    ensures Visit(w, life, cfg, id, ledger) == Visit(w, life.(maximum := maximum), cfg, id, ledger)
    ensures Visit(w, life, cfg, id, ledger).1.charged <= ledger.charged + Slots(id)
  {
  }

  lemma DesignSlots()
    ensures SlotSum(DESIGN) == PLANNED_RUNS
  {
    assert DESIGN[1..][1..][1..][1..][1..] == [DESIGN[5]];
    assert Slots(DESIGN[0]) == 4 && Slots(DESIGN[1]) == 2 && Slots(DESIGN[2]) == 2;
    assert Slots(DESIGN[3]) == 4 && Slots(DESIGN[4]) == 2 && Slots(DESIGN[5]) == 2;
    assert SlotSum(DESIGN[5..]) == 2;
    assert SlotSum(DESIGN[4..]) == 4 by { assert DESIGN[4..][1..] == DESIGN[5..]; }
    assert SlotSum(DESIGN[3..]) == 8 by { assert DESIGN[3..][1..] == DESIGN[4..]; }
    assert SlotSum(DESIGN[2..]) == 10 by { assert DESIGN[2..][1..] == DESIGN[3..]; }
    assert SlotSum(DESIGN[1..]) == 12 by { assert DESIGN[1..][1..] == DESIGN[2..]; }
  }

  /** The entry check already demands a ceiling of sixteen, the whole design's slots,
      so a life runs the same under every admitted ceiling: the check inside the loop
      cannot refuse. */
  lemma CeilingNeverBinds(root: Root, life: Life, base: Config, maximum: int)
    requires Admitted(life) && Admitted(life.(maximum := maximum))
    ensures RunLife(root, life.(maximum := maximum), base) == RunLife(root, life, base)
  {
    DesignSlots();
    var (ready, r) := Open(root, life);
    CeilingSlack(Awake(ready), life, base.(identity := life.identity), DESIGN, EMPTY, maximum);
  }

  // ----- What the journal's pairs are worth to the evaluation -----

  /** Every envelope new in `after` holds a pair that an execution of this life built. */
  ghost predicate BuiltBy(before: Dir, after: Dir, life: Life) {
    forall id :: Complete(id) in after && Complete(id) !in before ==> FromExecution(after, id, life)
  }

  ghost predicate FromExecution(dir: Dir, id: PairId, life: Life)
    requires Complete(id) in dir
  {
    exists n :: dir[Complete(id)].Envelope? && life.run(id, n) == Built(dir[Complete(id)].pair)
  }

  lemma NoneBuilt(before: Dir, after: Dir, id: PairId, life: Life)
    requires Extends(before, after, id) && (Complete(id) in after ==> Complete(id) in before)
    ensures BuiltBy(before, after, life)
  {
  }

  lemma ConcludeBuilds(w: World, life: Life, cfg: Config, id: PairId, k: nat)
    requires Underway(w.dir, cfg, id, k)
    ensures var w1 := Conclude(w, life.os, cfg, id, k, life.run(id, k)).0;
            && BuiltBy(w.dir, w1.dir, life)
            && forall name :: name in w.dir ==> name in w1.dir && w1.dir[name] == w.dir[name]
  {
    ConcludeKeeps(w, life.os, cfg, id, k, life.run(id, k));
    var w1 := Conclude(w, life.os, cfg, id, k, life.run(id, k)).0;
    if Complete(id) in w1.dir {
      assert life.run(id, k) == Built(w1.dir[Complete(id)].pair);
      assert FromExecution(w1.dir, id, life);
    }
  }

  lemma StartBuilds(w: World, life: Life, cfg: Config, id: PairId, ledger: Ledger, k: nat)
    requires PairInv(w.dir, cfg, id, k) && Complete(id) !in w.dir
    ensures var (w1, started) := StartAttempt(w, life.os, cfg, id, Slots(id));
            var w2 := if started.Returned? then Execute(w1, life, cfg, id, started.value, ledger).0 else w1;
            BuiltBy(w.dir, w2.dir, life)
  {
    StartKeeps(w, life.os, cfg, id, Slots(id), k);
    var (w1, started) := StartAttempt(w, life.os, cfg, id, Slots(id));
    NoneBuilt(w.dir, w1.dir, id, life);
    if started.Returned? {
      ConcludeBuilds(w1, life, cfg, id, k + 1);
      BuiltByTransitive(w.dir, w1.dir, Conclude(w1, life.os, cfg, id, k + 1, life.run(id, k + 1)).0.dir, life);
    }
  }

  lemma VisitBuilds(w: World, life: Life, cfg: Config, id: PairId, ledger: Ledger)
    requires Inv(w.dir, cfg) && ChecksIdentity(cfg)
    ensures BuiltBy(w.dir, Visit(w, life, cfg, id, ledger).0.dir, life)
  {
    assert PairOk(w.dir, cfg, id);
    var k: nat :| PairInv(w.dir, cfg, id, k);
    LoadIsRecorded(w.dir, cfg, id, k);
    if Complete(id) !in w.dir {
      StartBuilds(w, life, cfg, id, ledger, k);
    }
  }

  lemma {:induction false} LoopBuilds(w: World, life: Life, cfg: Config, ids: seq<PairId>, ledger: Ledger)
    requires Inv(w.dir, cfg) && ChecksIdentity(cfg)
    ensures BuiltBy(w.dir, VisitAll(w, life, cfg, ids, ledger).0.dir, life)
    decreases |ids|
  {
    if ids != [] {
      VisitKeeps(w, life, cfg, ids[0], ledger);
      VisitBuilds(w, life, cfg, ids[0], ledger);
      var (w1, ledger1, r) := Visit(w, life, cfg, ids[0], ledger);
      if r.Returned? {
        LoopAdvances(w1, life, cfg, ids[1..], ledger1);
        LoopBuilds(w1, life, cfg, ids[1..], ledger1);
        BuiltByTransitive(w.dir, w1.dir, VisitAll(w1, life, cfg, ids[1..], ledger1).0.dir, life);
      }
    }
  }

  lemma BuiltByTransitive(a: Dir, b: Dir, c: Dir, life: Life)
    requires BuiltBy(a, b, life) && BuiltBy(b, c, life)
    requires forall name :: name in b ==> name in c && c[name] == b[name]
    ensures BuiltBy(a, c, life)
  {
    forall id | Complete(id) in c && Complete(id) !in a ensures FromExecution(c, id, life) {
      if Complete(id) in b {
        assert FromExecution(b, id, life);
        var n :| life.run(id, n) == Built(b[Complete(id)].pair);
        assert life.run(id, n) == Built(c[Complete(id)].pair);
      }
    }
  }

  lemma {:induction false} LoopAdvances(w: World, life: Life, cfg: Config, ids: seq<PairId>, ledger: Ledger)
    requires Inv(w.dir, cfg) && ChecksIdentity(cfg)
    ensures Advances(w.dir, VisitAll(w, life, cfg, ids, ledger).0.dir)
    decreases |ids|
  {
    if ids != [] {
      VisitKeeps(w, life, cfg, ids[0], ledger);
      var (w1, ledger1, r) := Visit(w, life, cfg, ids[0], ledger);
      if r.Returned? {
        LoopAdvances(w1, life, cfg, ids[1..], ledger1);
        AdvancesTransitive(w.dir, w1.dir, VisitAll(w1, life, cfg, ids[1..], ledger1).0.dir);
      }
    }
  }

  /** Every execution of the life that builds a pair builds one as the live runner does,
      under whatever plan the life was started with. */
  ghost predicate RunsLive(life: Life) {
    forall id, n :: life.run(id, n).Built? ==> FromRunner(life.run(id, n).pair)
  }

  ghost predicate AllLive(dir: Dir) {
    forall id :: Complete(id) in dir ==> dir[Complete(id)].Envelope? && FromRunner(dir[Complete(id)].pair)
  }

  lemma LifeStaysLive(root: Root, life: Life, base: Config)
    requires RootInv(root, base) && ChecksIdentity(base) && RunsLive(life) && AllLive(root.dir)
    ensures AllLive(RunLife(root, life, base).0.dir)
  {
    var (ready, r) := Open(root, life);
    var cfg := base.(identity := life.identity);
    EmptyInv(cfg);
    if Admitted(life) && r.Returned? {
      var w := Awake(ready);
      LoopBuilds(w, life, cfg, DESIGN, EMPTY);
      LoopAdvances(w, life, cfg, DESIGN, EMPTY);
      BuiltStaysLive(w.dir, VisitAll(w, life, cfg, DESIGN, EMPTY).0.dir, life);
    }
  }

  lemma BuiltStaysLive(before: Dir, after: Dir, life: Life)
    requires BuiltBy(before, after, life) && Advances(before, after) && RunsLive(life) && AllLive(before)
    ensures AllLive(after)
  {
    forall id | Complete(id) in after ensures after[Complete(id)].Envelope? && FromRunner(after[Complete(id)].pair) {
      if Complete(id) !in before {
        assert FromExecution(after, id, life);
        var n :| life.run(id, n) == Built(after[Complete(id)].pair);
      }
    }
  }

  lemma {:induction false} HistoriesStayLive(lives: seq<Life>, base: Config)
    requires ChecksIdentity(base) && forall i :: 0 <= i < |lives| ==> RunsLive(lives[i])
    ensures AllLive(RunLives(lives, base).dir)
  {
    if lives != [] {
      var init := lives[..|lives| - 1];
      HistoriesSound(init, base);
      HistoriesStayLive(init, base);
      LifeStaysLive(RunLives(init, base), lives[|lives| - 1], base);
    }
  }

  /** Whatever the history of interruptions and resumptions, under whatever plans, no
      life of the evaluation gets its matrix accepted: a loop that returns, returns live
      pairs, and a matrix of live pairs is always refused. */
  lemma EvaluationNeverAccepted(lives: seq<Life>, life: Life, base: Config, plan: Plan)
    requires ChecksIdentity(base) && RunsLive(life)
    requires forall i :: 0 <= i < |lives| ==> RunsLive(lives[i])
    ensures var (_, ledger, r) := RunLife(RunLives(lives, base), life, base);
            r.Returned? ==> !Exact(ledger.pairs, plan)
  {
    var root := RunLives(lives, base);
    HistoriesSound(lives, base);
    HistoriesStayLive(lives, base);
    LifeStaysLive(root, life, base);
    LifeReturns(root, life, base);
    var (root1, ledger, r) := RunLife(root, life, base);
    if r.Returned? {
      forall i | 0 <= i < |ledger.pairs| ensures FromRunner(ledger.pairs[i]) {
        assert root1.dir[Complete(DESIGN[i])].pair == ledger.pairs[i];
      }
      LiveMatrixRefused(ledger.pairs, plan);
    }
  }
}
