/** Which records a history leaves and how attempts end. Every record is traced back, both
    ways, to the answers one life met: an attempt was started, abandoned, failed or
    finished, and one that completed its pair may have ended in any of four ways. */
module JournalEndings {
  import opened Collections
  import opened Comparison
  import opened Matrix
  import opened Journal
  import opened LiveLoop
  import opened JournalRuns

  /** The terminal records beside an envelope: finished alone, both, failed alone, none. */
  datatype Ending = Clean | Torn | Spoiled | Silent

  function EndingIn(dir: Dir, id: PairId, k: nat): Ending {
    if Closed(id, k, Finished) in dir then if Closed(id, k, Failed) in dir then Torn else Clean
    else if Closed(id, k, Failed) in dir then Spoiled
    else Silent
  }

  /** What the answers to the writes from the envelope's on lead to, once it took effect. */
  function EndingOf(os: nat -> WriteFate, t: nat): Ending {
    var envelope, next, last := os(t), os(t + 1), os(t + 2);
    if envelope.Done? then
      if next.RaisedAfter? && TakesEffect(last) then Torn
      else if TakesEffect(next) then Clean
      else if next.RaisedBefore? && TakesEffect(last) then Spoiled
      else Silent
    else if envelope.RaisedAfter? && TakesEffect(next) then Spoiled
    else Silent
  }

  /** What is asked of an envelope and of its attempt's ending. */
  type Test = (Record, Ending) -> bool

  ghost predicate Stored(dir: Dir, id: PairId, test: Test) {
    && Complete(id) in dir && dir[Complete(id)].Envelope? && dir[Complete(id)].pair.attempt >= 0
    && test(dir[Complete(id)], EndingIn(dir, id, dir[Complete(id)].pair.attempt))
  }

  // ----- One attempt -----

  /** The executed attempt stores such an envelope. */
  ghost predicate StoresEnd(w: World, life: Life, cfg: Config, id: PairId, n: nat, test: Test) {
    var execution := life.run(id, n);
    && execution.Built? && execution.pair.attempt == n && cfg.validate(execution.pair, id).Ok?
    && TakesEffect(life.os(w.tick))
    && test(Envelope(cfg.identity, cfg.sha(execution.pair), execution.pair), EndingOf(life.os, w.tick))
  }

  lemma ConcludeEnds(w: World, os: nat -> WriteFate, cfg: Config, id: PairId, n: nat, pair: Pair)
    requires Underway(w.dir, cfg, id, n)
    requires pair.attempt == n && cfg.validate(pair, id).Ok? && TakesEffect(os(w.tick))
    ensures var dir := Conclude(w, os, cfg, id, n, Built(pair)).0.dir;
            && Complete(id) in dir && dir[Complete(id)] == Envelope(cfg.identity, cfg.sha(pair), pair)
            && EndingIn(dir, id, n) == EndingOf(os, w.tick)
  {
    var finished, failed := Closed(id, n, Finished), Closed(id, n, Failed);
    assert finished !in w.dir && failed !in w.dir;
  }

  lemma ConcludeStoresNone(w: World, os: nat -> WriteFate, cfg: Config, id: PairId, n: nat, execution: Execution)
    requires Underway(w.dir, cfg, id, n)
    requires execution.Built? && execution.pair.attempt == n && cfg.validate(execution.pair, id).Ok? ==>
               !TakesEffect(os(w.tick))
    ensures Complete(id) !in Conclude(w, os, cfg, id, n, execution).0.dir
  {
  }

  lemma ConclusionStores(w: World, life: Life, cfg: Config, id: PairId, n: nat, test: Test)
    requires Underway(w.dir, cfg, id, n)
    ensures var dir := Conclude(w, life.os, cfg, id, n, life.run(id, n)).0.dir;
            Stored(dir, id, test) <==> StoresEnd(w, life, cfg, id, n, test)
  {
    var execution := life.run(id, n);
    if execution.Built? && execution.pair.attempt == n && cfg.validate(execution.pair, id).Ok?
       && TakesEffect(life.os(w.tick)) {
      ConcludeEnds(w, life.os, cfg, id, n, execution.pair);
    } else {
      ConcludeStoresNone(w, life.os, cfg, id, n, execution);
    }
  }

  /** The attempt's conclusion writes this terminal record. The handler records a failure
      when the execution threw, the pair was refused, or a write raised. */
  ghost predicate EndsAttempt(w: World, life: Life, cfg: Config, id: PairId, n: nat, how: Terminal) {
    var execution, t := life.run(id, n), w.tick;
    if !execution.Built? || execution.pair.attempt != n || !cfg.validate(execution.pair, id).Ok? then
      how.Failed? && !execution.Killed? && TakesEffect(life.os(t))
    else if life.os(t).Done? then
      if how.Finished? then TakesEffect(life.os(t + 1))
      else how.Failed? && Raises(life.os(t + 1)) && TakesEffect(life.os(t + 2))
    else how.Failed? && Raises(life.os(t)) && TakesEffect(life.os(t + 1))
  }

  predicate Raises(fate: WriteFate) { fate.RaisedBefore? || fate.RaisedAfter? }

  lemma ConclusionCloses(w: World, life: Life, cfg: Config, id: PairId, n: nat, m: nat, how: Terminal)
    requires Underway(w.dir, cfg, id, n)
    ensures var dir := Conclude(w, life.os, cfg, id, n, life.run(id, n)).0.dir;
            && (Closed(id, m, how) in dir <==>
                Closed(id, m, how) in w.dir || (m == n && EndsAttempt(w, life, cfg, id, n, how)))
            && (Started(id, m) in dir <==> Started(id, m) in w.dir)
  {
    var execution := life.run(id, n);
    assert Closed(id, n, Finished) !in w.dir && Closed(id, n, Failed) !in w.dir;
    if execution.Built? && execution.pair.attempt == n && cfg.validate(execution.pair, id).Ok? {
      StoringCloses(w, life, cfg, id, n, m, how);
    }
  }

  lemma StoringCloses(w: World, life: Life, cfg: Config, id: PairId, n: nat, m: nat, how: Terminal)
    requires Complete(id) !in w.dir && Closed(id, n, Finished) !in w.dir && Closed(id, n, Failed) !in w.dir
    requires var execution := life.run(id, n);
             execution.Built? && execution.pair.attempt == n && cfg.validate(execution.pair, id).Ok?
    ensures var dir := Conclude(w, life.os, cfg, id, n, life.run(id, n)).0.dir;
            && (Closed(id, m, how) in dir <==>
                Closed(id, m, how) in w.dir || (m == n && EndsAttempt(w, life, cfg, id, n, how)))
            && (Started(id, m) in dir <==> Started(id, m) in w.dir)
  {
    var pair := life.run(id, n).pair;
    var (w1, r) := Write(w, life.os, Complete(id), Envelope(cfg.identity, cfg.sha(pair), pair));
    if r.Returned? {
      var (w2, r2) := Write(w1, life.os, Closed(id, n, Finished), CloseRecord("finished"));
      assert CompleteAttempt(w, life.os, cfg, id, n, pair) == (w2, r2);
    } else {
      assert CompleteAttempt(w, life.os, cfg, id, n, pair) == (w1, r);
    }
  }

  // ----- What may be asked of a directory -----

  /** An envelope with some property, a terminal record, or a start record of a pair. */
  datatype Query = Kept(test: Test) | Ended(number: nat, how: Terminal) | Begun(number: nat)

  ghost predicate Holds(dir: Dir, id: PairId, query: Query) {
    match query
    case Kept(test) => Stored(dir, id, test)
    case Ended(n, how) => Closed(id, n, how) in dir
    case Begun(n) => Started(id, n) in dir
  }

  // ----- One visit -----

  /** The visit finds attempt `n` open and its abandonment takes effect. */
  ghost predicate Abandons(w: World, life: Life, id: PairId, n: nat) {
    LeftOpen(w.dir, id, n) && n < MAX_JOURNAL_ATTEMPTS && TakesEffect(life.os(w.tick))
  }

  /** The visit's start record for attempt `n` takes effect, after the abandonment of the
      attempt before it if that was open. */
  ghost predicate Starts(w: World, life: Life, id: PairId, n: nat) {
    && 1 <= n <= MAX_JOURNAL_ATTEMPTS && Started(id, n) !in w.dir && (n > 1 ==> Started(id, n - 1) in w.dir)
    && if n > 1 && LeftOpen(w.dir, id, n - 1) then life.os(w.tick).Done? && TakesEffect(life.os(w.tick + 1))
       else TakesEffect(life.os(w.tick))
  }

  /** The visit brings such a record about. */
  ghost predicate Brings(w: World, life: Life, cfg: Config, id: PairId, ledger: Ledger, query: Query) {
    && Complete(id) !in w.dir && ledger.charged + Slots(id) <= life.maximum
    && var (w1, started) := StartAttempt(w, life.os, cfg, id, Slots(id));
       match query
       case Kept(test) => started.Returned? && StoresEnd(w1, life, cfg, id, started.value, test)
       case Ended(n, how) =>
         if how.Abandoned? then Abandons(w, life, id, n)
         else started == Returned(n) && EndsAttempt(w1, life, cfg, id, n, how)
       case Begun(n) => Starts(w, life, id, n)
  }

  /** What the start alone brings about. */
  ghost predicate StartBrings(w: World, life: Life, id: PairId, query: Query) {
    match query
    case Kept(_) => false
    case Ended(n, how) => how.Abandoned? && Abandons(w, life, id, n)
    case Begun(n) => Starts(w, life, id, n)
  }

  lemma RestartBrings(w: World, life: Life, cfg: Config, id: PairId, k: nat, query: Query)
    requires PairInv(w.dir, cfg, id, k) && Complete(id) !in w.dir && k < MAX_JOURNAL_ATTEMPTS
    ensures Holds(Restart(w, life.os, id, Slots(id), k).0.dir, id, query) <==>
            Holds(w.dir, id, query) || StartBrings(w, life, id, query)
  {
    if k > 0 {
      EarlierEnded(w.dir, cfg, id, k, k);
    }
    if query.Ended? && LeftOpen(w.dir, id, query.number) {
      EarlierEnded(w.dir, cfg, id, k, query.number);
    }
  }

  lemma StartHolds(w: World, life: Life, cfg: Config, id: PairId, query: Query)
    requires Inv(w.dir, cfg) && Complete(id) !in w.dir
    ensures Holds(StartAttempt(w, life.os, cfg, id, Slots(id)).0.dir, id, query) <==>
            Holds(w.dir, id, query) || StartBrings(w, life, id, query)
  {
    assert PairOk(w.dir, cfg, id);
    var k: nat :| PairInv(w.dir, cfg, id, k);
    if k < MAX_JOURNAL_ATTEMPTS {
      StartIsRestart(w, life.os, cfg, id, Slots(id), k);
      RestartBrings(w, life, cfg, id, k, query);
    } else {
      StartKeeps(w, life.os, cfg, id, Slots(id), k);
      if query.Ended? && LeftOpen(w.dir, id, query.number) {
        EarlierEnded(w.dir, cfg, id, k, query.number);
      }
    }
  }

  /** What the attempt's conclusion brings about. */
  ghost predicate EndBrings(w: World, life: Life, cfg: Config, id: PairId, n: nat, query: Query) {
    match query
    case Kept(test) => StoresEnd(w, life, cfg, id, n, test)
    case Ended(m, how) => m == n && EndsAttempt(w, life, cfg, id, n, how)
    case Begun(_) => false
  }

  lemma ConclusionHolds(w: World, life: Life, cfg: Config, id: PairId, n: nat, query: Query)
    requires Underway(w.dir, cfg, id, n)
    ensures var dir := Conclude(w, life.os, cfg, id, n, life.run(id, n)).0.dir;
            Holds(dir, id, query) <==> Holds(w.dir, id, query) || EndBrings(w, life, cfg, id, n, query)
  {
    match query
    case Kept(test) => ConclusionStores(w, life, cfg, id, n, test);
    case Ended(m, how) => ConclusionCloses(w, life, cfg, id, n, m, how);
    case Begun(m) => ConclusionCloses(w, life, cfg, id, n, m, Failed);
  }

  /** The visit of a pair that is not complete, launched within the ceiling. */
  lemma LaunchHolds(w: World, life: Life, cfg: Config, id: PairId, ledger: Ledger, query: Query)
    requires Inv(w.dir, cfg) && Complete(id) !in w.dir && ledger.charged + Slots(id) <= life.maximum
    ensures var (w1, started) := StartAttempt(w, life.os, cfg, id, Slots(id));
            var dir := if started.Returned?
                       then Conclude(w1, life.os, cfg, id, started.value, life.run(id, started.value)).0.dir
                       else w1.dir;
            Holds(dir, id, query) <==> Holds(w.dir, id, query) || Brings(w, life, cfg, id, ledger, query)
  {
    StartBegins(w, life.os, cfg, id, Slots(id));
    StartHolds(w, life, cfg, id, query);
    var (w1, started) := StartAttempt(w, life.os, cfg, id, Slots(id));
    if started.Returned? {
      ConclusionHolds(w1, life, cfg, id, started.value, query);
    }
  }

  lemma HoldsElsewhere(before: Dir, after: Dir, visited: PairId, id: PairId, query: Query)
    requires Extends(before, after, visited) && visited != id
    ensures Holds(after, id, query) <==> Holds(before, id, query)
  {
    if query.Kept? && Complete(id) in before && before[Complete(id)].Envelope?
       && before[Complete(id)].pair.attempt >= 0 {
      var k := before[Complete(id)].pair.attempt;
      assert forall how :: Closed(id, k, how) in after <==> Closed(id, k, how) in before;
      assert EndingIn(after, id, k) == EndingIn(before, id, k);
    }
  }

  /** A visit brings such a record about exactly when it meets those answers. */
  lemma VisitBrings(w: World, life: Life, cfg: Config, visited: PairId, ledger: Ledger, id: PairId, query: Query)
    requires Inv(w.dir, cfg) && ChecksIdentity(cfg)
    ensures Holds(Visit(w, life, cfg, visited, ledger).0.dir, id, query) <==>
            Holds(w.dir, id, query) || (visited == id && Brings(w, life, cfg, id, ledger, query))
  {
    VisitKeeps(w, life, cfg, visited, ledger);
    if visited != id {
      HoldsElsewhere(w.dir, Visit(w, life, cfg, visited, ledger).0.dir, visited, id, query);
    } else if Complete(id) !in w.dir && ledger.charged + Slots(id) <= life.maximum {
      LaunchHolds(w, life, cfg, id, ledger, query);
    }
  }

  // ----- Loops, lives and histories -----

  /** Some visit of the loop does. */
  ghost predicate LoopBrings(w: World, life: Life, cfg: Config, ids: seq<PairId>, ledger: Ledger, id: PairId,
                             query: Query)
    decreases |ids|
  {
    ids != [] &&
    (|| (ids[0] == id && Brings(w, life, cfg, id, ledger, query))
     || var (w1, ledger1, r) := Visit(w, life, cfg, ids[0], ledger);
        r.Returned? && LoopBrings(w1, life, cfg, ids[1..], ledger1, id, query))
  }

  lemma {:induction false} LoopHolds(w: World, life: Life, cfg: Config, ids: seq<PairId>, ledger: Ledger,
                                     id: PairId, query: Query)
    requires Inv(w.dir, cfg) && ChecksIdentity(cfg)
    ensures Holds(VisitAll(w, life, cfg, ids, ledger).0.dir, id, query) <==>
            Holds(w.dir, id, query) || LoopBrings(w, life, cfg, ids, ledger, id, query)
    decreases |ids|
  {
    if ids != [] {
      VisitBrings(w, life, cfg, ids[0], ledger, id, query);
      VisitKeeps(w, life, cfg, ids[0], ledger);
      var (w1, ledger1, r) := Visit(w, life, cfg, ids[0], ledger);
      if r.Returned? {
        LoopHolds(w1, life, cfg, ids[1..], ledger1, id, query);
      }
    }
  }

  /** The life gets the journal open and its loop brings such a record about. */
  ghost predicate LifeBrings(root: Root, life: Life, base: Config, id: PairId, query: Query) {
    var (ready, r) := Open(root, life);
    && Admitted(life) && r.Returned?
    && LoopBrings(Awake(ready), life, base.(identity := life.identity), DESIGN, EMPTY, id, query)
  }

  lemma LifeHolds(root: Root, life: Life, base: Config, id: PairId, query: Query)
    requires RootInv(root, base) && ChecksIdentity(base)
    ensures Holds(RunLife(root, life, base).0.dir, id, query) <==>
            Holds(root.dir, id, query) || LifeBrings(root, life, base, id, query)
  {
    var (ready, r) := Open(root, life);
    var cfg := base.(identity := life.identity);
    EmptyInv(cfg);
    if Admitted(life) && r.Returned? {
      LoopHolds(Awake(ready), life, cfg, DESIGN, EMPTY, id, query);
    }
  }

  /** The relation of a life to its past in which it brings such a record about. */
  ghost function Bringing(base: Config, id: PairId, query: Query): (seq<Life>, Life) -> bool {
    (past: seq<Life>, life: Life) => LifeBrings(RunLives(past, base), life, base, id, query)
  }

  /** Over every history, whatever is asked of a pair's records: it is so exactly when some
      life brought it about. */
  lemma {:induction false} HoldsIff(lives: seq<Life>, base: Config, id: PairId, query: Query)
    requires ChecksIdentity(base)
    ensures Holds(RunLives(lives, base).dir, id, query) <==> SomeStep(lives, Bringing(base, id, query))
  {
    if lives != [] {
      var init := lives[..|lives| - 1];
      HoldsIff(init, base, id, query);
      StepLater(lives, Bringing(base, id, query));
      HistoriesSound(init, base);
      LifeHolds(RunLives(init, base), lives[|lives| - 1], base, id, query);
    }
  }

  /** Over every history: a failure is on record for an attempt exactly when the handler of
      the life that started it recorded one, and likewise for its finish; an abandonment
      is, exactly when a later start of the pair found the attempt open. */
  lemma TerminalIff(lives: seq<Life>, base: Config, id: PairId, k: nat, how: Terminal)
    requires ChecksIdentity(base)
    ensures Closed(id, k, how) in RunLives(lives, base).dir <==> SomeStep(lives, Bringing(base, id, Ended(k, how)))
  {
    HoldsIff(lives, base, id, Ended(k, how));
  }

  // ----- The four endings -----

  ghost predicate CompletedAs(dir: Dir, id: PairId, k: nat, ending: Ending) {
    && Complete(id) in dir && dir[Complete(id)].Envelope? && dir[Complete(id)].pair.attempt == k
    && EndingIn(dir, id, k) == ending
  }

  ghost function EndsAs(k: nat, ending: Ending): Test {
    (record: Record, e: Ending) => record.Envelope? && record.pair.attempt == k && e == ending
  }

  /** Over every history: attempt `k` completed its pair with this ending exactly when some
      life met the answers that lead to it. */
  lemma EndingIff(lives: seq<Life>, base: Config, id: PairId, k: nat, ending: Ending)
    requires ChecksIdentity(base)
    ensures CompletedAs(RunLives(lives, base).dir, id, k, ending) <==>
            SomeStep(lives, Bringing(base, id, Kept(EndsAs(k, ending))))
  {
    HoldsIff(lives, base, id, Kept(EndsAs(k, ending)));
  }

  /** Two terminal records are always finished and failed, beside the envelope. */
  lemma TwoMeansTorn(dir: Dir, cfg: Config, id: PairId, k: nat)
    requires Inv(dir, cfg)
    ensures Terminals(dir, id, k) >= 2 <==> CompletedAs(dir, id, k, Torn)
  {
    assert PairOk(dir, cfg, id);
    var j: nat :| PairInv(dir, cfg, id, j);
    if Closed(id, k, Abandoned) in dir {
      assert EndedOnce(dir, id, k);
    }
    if 1 <= k < j {
      assert EndedOnce(dir, id, k);
    }
  }

  /** Over every history: an attempt has two terminal records exactly when some life stored
      its envelope, published its finished record by a write that then raised, and
      recorded the failure as well. */
  lemma TwoTerminalsIff(lives: seq<Life>, base: Config, id: PairId, k: nat)
    requires ChecksIdentity(base)
    ensures Terminals(RunLives(lives, base).dir, id, k) >= 2 <==>
            SomeStep(lives, Bringing(base, id, Kept(EndsAs(k, Torn))))
  {
    HistoriesSound(lives, base);
    var root := RunLives(lives, base);
    EmptyInv(base);
    TwoMeansTorn(root.dir, if root.manifest.Some? then base.(identity := root.manifest.value) else base, id, k);
    EndingIff(lives, base, id, k, Torn);
  }

  // ----- All four occur -----

  lemma FirstStart(w: World, os: nat -> WriteFate, cfg: Config, id: PairId, slots: nat)
    requires w.dir == map[] && os(w.tick) == Done
    ensures StartAttempt(w, os, cfg, id, slots) ==
            (World(map[Started(id, 1) := StartRecord(slots)], w.tick + 1, w.litter), Returned(1))
  {
    assert PairInv(map[], cfg, id, 0);
    NumbersAreContiguous(map[], cfg, id, 0, NAME_LIMIT);
    FirstStartAfter(w, os, id, slots);
  }

  lemma FirstStartAfter(w: World, os: nat -> WriteFate, id: PairId, slots: nat)
    requires w.dir == map[] && os(w.tick) == Done
    ensures StartAfter(w, os, id, slots, []) ==
            (World(map[Started(id, 1) := StartRecord(slots)], w.tick + 1, w.litter), Returned(1))
  {
    assert CloseOpen(w, os, id, []) == (w, Returned(()));
  }

  /** The life's first attempt builds a valid pair, and its envelope takes effect. */
  predicate StoresFirst(life: Life, base: Config, pair: Pair) {
    && Admitted(life) && life.os(0) == Done && life.os(1) == Done && TakesEffect(life.os(2))
    && life.run(DESIGN[0], 1) == Built(pair) && pair.attempt == 1 && base.validate(pair, DESIGN[0]).Ok?
  }

  lemma {:induction false} FirstVisitStores(w: World, life: Life, cfg: Config, ids: seq<PairId>, pair: Pair, test: Test)
    requires w.dir == map[] && w.tick == 1 && ids != [] && Slots(ids[0]) <= life.maximum && life.os(1) == Done
    requires life.run(ids[0], 1) == Built(pair) && pair.attempt == 1 && cfg.validate(pair, ids[0]).Ok?
    requires TakesEffect(life.os(2)) && test(Envelope(cfg.identity, cfg.sha(pair), pair), EndingOf(life.os, 2))
    ensures LoopBrings(w, life, cfg, ids, EMPTY, ids[0], Kept(test))
  {
    FirstStart(w, life.os, cfg, ids[0], Slots(ids[0]));
  }

  /** Such a life, from an empty root, stores that envelope with the ending of its answers. */
  lemma FirstLifeStores(life: Life, base: Config, pair: Pair, test: Test)
    requires ChecksIdentity(base) && StoresFirst(life, base, pair)
    requires test(Envelope(life.identity, base.sha(pair), pair), EndingOf(life.os, 2))
    ensures Stored(RunLives([life], base).dir, DESIGN[0], test)
  {
    var ready := Root(0, Some(life.identity), map[]);
    assert Open(FRESH_ROOT, life) == (ready, Returned(()));
    assert Slots(DESIGN[0]) == 4;
    FirstVisitStores(Awake(ready), life, base.(identity := life.identity), DESIGN, pair, test);
    assert [life][..0] == [];
    LifeHolds(FRESH_ROOT, life, base, DESIGN[0], Kept(test));
  }

  /** How the write after the envelope's is answered. */
  function NextFate(ending: Ending): WriteFate {
    match ending
    case Clean => Done
    case Torn => RaisedAfter(false)
    case Spoiled => RaisedBefore(false)
    case Silent => DiedBefore(false)
  }

  /** Every ending is reached in one life from an empty root. In particular an attempt ends
      both finished and failed, and a completed pair's attempt ends as failed only. */
  lemma EndingReachable(base: Config, pair: Pair, ending: Ending) returns (life: Life)
    requires ChecksIdentity(base) && pair.attempt == 1 && base.validate(pair, DESIGN[0]).Ok?
    ensures Admitted(life) && CompletedAs(RunLives([life], base).dir, DESIGN[0], 1, ending)
  {
    life := Life((t: nat) => if t == 3 then NextFate(ending) else Done, (id: PairId, n: nat) => Built(pair),
                 PLANNED_RUNS, base.identity);
    assert EndingOf(life.os, 2) == ending;
    FirstLifeStores(life, base, pair, EndsAs(1, ending));
  }
}
