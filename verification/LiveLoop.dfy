/** The live loop of the evaluation over the run journal: one life visits the six
    designed pairs in order, resuming completed pairs and executing the others. */
module LiveLoop {
  import opened Collections
  import opened Comparison
  import opened Matrix
  import opened Journal

  function Slots(id: PairId): nat {
    var task := TaskIndex(id.task);
    2 * (if task.Some? then TASKS[task.value].concurrency else 0)
  }

  /** Everything outside the harness that one process life meets: the answers to
      its writes, what executing each attempt comes to, the run ceiling and the
      evaluation identity it was started with. */
  datatype Life = Life(os: nat -> WriteFate, run: (PairId, nat) -> Execution, maximum: int, identity: string)

  /** The loop's variables. `executed` lists the pairs whose execution was launched;
      `charged` is the slot count held against the ceiling. */
  datatype Ledger = Ledger(pairs: seq<Pair>, resumed: nat, executed: seq<PairId>, charged: nat)

  const EMPTY := Ledger([], 0, [], 0)

  predicate InPosition(pair: Pair, id: PairId) {
    && pair.id == id && pair.first == OrderOf(id)
    && TaskIndex(id.task).Some? && pair.concurrency == TASKS[TaskIndex(id.task).value].concurrency
  }

  /** One iteration of the loop body. */
  function Visit(w: World, life: Life, cfg: Config, id: PairId, ledger: Ledger): (World, Ledger, Outcome<()>) {
    var loaded := LoadCompleted(w.dir, cfg, id);
    if loaded.Refused? then (w, ledger, Raised(loaded.code))
    else if loaded.value.Some? then
      if !InPosition(loaded.value.value, id) then (w, ledger, Raised("journal_pair"))
      else (w, ledger.(pairs := ledger.pairs + [loaded.value.value], resumed := ledger.resumed + 1), Returned(()))
    else if ledger.charged + Slots(id) > life.maximum then (w, ledger, Raised("maximum_runs"))
    else
      var (w1, started) := StartAttempt(w, life.os, cfg, id, Slots(id));
      if started.Raised? then (w1, ledger, Raised(started.code)) else if started.Dead? then (w1, ledger, Dead)
      else Execute(w1, life, cfg, id, started.value, ledger)
  }

  /** The started attempt: execution, then the `try` block's conclusion. */
  function Execute(w: World, life: Life, cfg: Config, id: PairId, number: nat, ledger: Ledger)
    : (World, Ledger, Outcome<()>)
  {
    var launched := ledger.(executed := ledger.executed + [id]);
    var (w1, r) := Conclude(w, life.os, cfg, id, number, life.run(id, number));
    if r.Returned? then
      (w1, launched.(pairs := launched.pairs + [r.value], charged := launched.charged + Slots(id)), Returned(()))
    else (w1, launched, if r.Raised? then Raised(r.code) else Dead)
  }

  function VisitAll(w: World, life: Life, cfg: Config, ids: seq<PairId>, ledger: Ledger): (World, Ledger, Outcome<()>)
    decreases |ids|
  {
    if ids == [] then (w, ledger, Returned(()))
    else
      var (w1, ledger1, r) := Visit(w, life, cfg, ids[0], ledger);
      if r.Returned? then VisitAll(w1, life, cfg, ids[1..], ledger1) else (w1, ledger1, r)
  }

  // ----- The journal root -----

  /** The run-state directory: how many transaction files were left behind, the
      manifest's identity and the journal records. */
  datatype Root = Root(litter: nat, manifest: Option<string>, dir: Dir)

  const FRESH_ROOT := Root(0, None, map[])

  const PLANNED_RUNS: nat := 16

  /** The entry check on the ceiling. */
  predicate Admitted(life: Life) { PLANNED_RUNS <= life.maximum <= MAX_AGENT_RUNS }

  const MAX_ENTRIES: nat := MAX_JOURNAL_ATTEMPTS * 4 + 16

  /** Everything below an initialised root: the manifest, the two record directories,
      the records and the transaction files left behind. */
  function Entries(root: Root): nat { 3 + |root.dir| + root.litter }

  /** `RunJournal.open`: creates the manifest in an empty root, and refuses a non-empty
      root without one, a foreign identity, or too many entries. */
  function Open(root: Root, life: Life): (Root, Outcome<()>) {
    var fate := life.os(0);
    if root.manifest.None? && root.litter > 0 then (root, Raised("journal_uninitialized"))
    else
      var ready := if root.manifest.Some? then root
                   else root.(manifest := if TakesEffect(fate) then Some(life.identity) else None,
                              litter := root.litter + Litter(fate));
      if root.manifest.None? && (fate.DiedBefore? || fate.DiedAfter?) then (ready, Dead)
      else if root.manifest.None? && !fate.Done? then (ready, Raised("evidence_write"))
      else if ready.manifest != Some(life.identity) then (ready, Raised("journal_identity_mismatch"))
      else if Entries(ready) > MAX_ENTRIES then (ready, Raised("journal_bound"))
      else (ready, Returned(()))
  }

  /** One life on an existing root. `base` supplies the digest and the pair check. */
  function RunLife(root: Root, life: Life, base: Config): (Root, Ledger, Outcome<()>) {
    if !Admitted(life) then (root, EMPTY, Raised("maximum_runs"))
    else
      var (ready, r) := Open(root, life);
      if !r.Returned? then (ready, EMPTY, r)
      else
        var (w, ledger, r1) := VisitAll(Awake(ready), life, base.(identity := life.identity), DESIGN, EMPTY);
        (ready.(dir := w.dir, litter := w.litter), ledger, r1)
  }

  /** The world a life finds once the journal is open; its first write was the manifest's. */
  function Awake(root: Root): World { World(root.dir, 1, root.litter) }

  /** Lives one after another, from a fresh root. */
  function RunLives(lives: seq<Life>, base: Config): Root {
    if lives == [] then FRESH_ROOT else RunLife(RunLives(lives[..|lives| - 1], base), lives[|lives| - 1], base).0
  }

  // ----- What a visit may change -----

  /** Records are kept, and new ones belong to pairs that were not complete. */
  ghost predicate Advances(before: Dir, after: Dir) {
    && (forall name :: name in before ==> name in after && after[name] == before[name])
    && (forall name :: name in after && name !in before ==> Complete(name.id) !in before)
  }

  lemma AdvancesTransitive(a: Dir, b: Dir, c: Dir)
    requires Advances(a, b) && Advances(b, c)
    ensures Advances(a, c)
  {
    forall name | name in c && name !in a ensures Complete(name.id) !in a {
      if name in b {
      } else {
        assert Complete(name.id) !in b;
      }
    }
  }

  /** The pair check accepts a pair only under its own designed identity. */
  ghost predicate ChecksIdentity(cfg: Config) {
    forall pair, id :: cfg.validate(pair, id).Ok? ==>
                         && pair.id == id && TaskIndex(id.task).Some?
                         && pair.concurrency == TASKS[TaskIndex(id.task).value].concurrency
  }

  /** What one visit does, in terms of the directory before it. */
  ghost predicate VisitSpec(w: World, w1: World, id: PairId, ledger: Ledger, ledger1: Ledger, r: Outcome<()>,
                            cfg: Config)
  {
    && Inv(w1.dir, cfg) && Extends(w.dir, w1.dir, id)
    && (r.Returned? ==>
          && Complete(id) in w1.dir && w1.dir[Complete(id)].Envelope?
          && w1.dir[Complete(id)].pair.id == id
          && ledger1.pairs == ledger.pairs + [w1.dir[Complete(id)].pair])
    && (if Complete(id) in w.dir
        then w1 == w && ledger1.executed == ledger.executed && ledger1.charged == ledger.charged
             && (r.Returned? ==> ledger1.resumed == ledger.resumed + 1)
        else ledger1.resumed == ledger.resumed
             && (ledger1.executed == ledger.executed || ledger1.executed == ledger.executed + [id])
             && (r.Returned? ==>
                   ledger1.executed == ledger.executed + [id] && ledger1.charged == ledger.charged + Slots(id)))
  }

  lemma VisitKeeps(w: World, life: Life, cfg: Config, id: PairId, ledger: Ledger)
    requires Inv(w.dir, cfg) && ChecksIdentity(cfg)
    ensures var (w1, ledger1, r) := Visit(w, life, cfg, id, ledger);
            && VisitSpec(w, w1, id, ledger, ledger1, r, cfg)
            && (ledger1.executed != ledger.executed ==> ledger.charged + Slots(id) <= life.maximum)
  {
    assert PairOk(w.dir, cfg, id);
    var k :| PairInv(w.dir, cfg, id, k);
    LoadIsRecorded(w.dir, cfg, id, k);
    if Complete(id) !in w.dir && ledger.charged + Slots(id) <= life.maximum {
      StartBegins(w, life.os, cfg, id, Slots(id));
      var (w1, started) := StartAttempt(w, life.os, cfg, id, Slots(id));
      if started.Returned? {
        ExecuteKeeps(w, w1, life, cfg, id, started.value, ledger);
      }
    }
  }

  lemma ExecuteKeeps(w: World, w1: World, life: Life, cfg: Config, id: PairId, k: nat, ledger: Ledger)
    requires Inv(w.dir, cfg) && Inv(w1.dir, cfg) && ChecksIdentity(cfg) && Extends(w.dir, w1.dir, id)
    requires Underway(w1.dir, cfg, id, k) && Complete(id) !in w.dir
    ensures var (w2, ledger2, r) := Execute(w1, life, cfg, id, k, ledger);
            VisitSpec(w, w2, id, ledger, ledger2, r, cfg)
  {
    var execution := life.run(id, k);
    ConcludeKeeps(w1, life.os, cfg, id, k, execution);
    var (w2, r) := Conclude(w1, life.os, cfg, id, k, execution);
    InvExtends(w1.dir, w2.dir, id, cfg, k);
    ExtendsTransitive(w.dir, w1.dir, w2.dir, id);
  }

  // ----- One life -----

  /** How many of `ids` were already complete. */
  ghost function CompleteCount(dir: Dir, ids: seq<PairId>): nat {
    if ids == [] then 0 else (if Complete(ids[0]) in dir then 1 else 0) + CompleteCount(dir, ids[1..])
  }

  function SlotSum(ids: seq<PairId>): nat {
    if ids == [] then 0 else Slots(ids[0]) + SlotSum(ids[1..])
  }

  /** `pairs` are the recorded pairs of `ids`, in order. */
  ghost predicate Recorded(dir: Dir, ids: seq<PairId>, pairs: seq<Pair>) {
    && |pairs| == |ids|
    && forall i :: 0 <= i < |ids| ==>
         && Complete(ids[i]) in dir && dir[Complete(ids[i])].Envelope?
         && dir[Complete(ids[i])].pair == pairs[i] && pairs[i].id == ids[i]
  }

  lemma {:induction false} CountStays(before: Dir, after: Dir, id: PairId, ids: seq<PairId>)
    requires Extends(before, after, id) && id !in ids
    ensures CompleteCount(after, ids) == CompleteCount(before, ids)
  {
    if ids != [] {
      CountStays(before, after, id, ids[1..]);
    }
  }

  lemma {:induction false} SlotSumAppend(ids: seq<PairId>, id: PairId)
    ensures SlotSum(ids + [id]) == SlotSum(ids) + Slots(id)
  {
    if ids == [] {
      assert [id][1..] == [];
    } else {
      SlotSumAppend(ids[1..], id);
      assert (ids + [id])[1..] == ids[1..] + [id];
    }
  }

  /** What `after` adds to `before`: visited pairs that had no envelope. */
  ghost predicate NewlyExecuted(dir: Dir, ids: seq<PairId>, before: seq<PairId>, after: seq<PairId>) {
    && before <= after
    && forall i :: |before| <= i < |after| ==> after[i] in ids && Complete(after[i]) !in dir
  }

  /** What visiting `ids` does to the directory and the ledger. */
  ghost predicate LoopSpec(w: World, w1: World, ids: seq<PairId>, ledger: Ledger, ledger1: Ledger, r: Outcome<()>,
                           cfg: Config, maximum: int)
  {
    && Inv(w1.dir, cfg) && Advances(w.dir, w1.dir)
    && NewlyExecuted(w.dir, ids, ledger.executed, ledger1.executed)
    && (ledger1.executed != ledger.executed ==> SlotSum(ledger1.executed) <= maximum)
    && (r.Returned? ==>
          && ledger.pairs <= ledger1.pairs && Recorded(w1.dir, ids, ledger1.pairs[|ledger.pairs|..])
          && ledger1.charged == SlotSum(ledger1.executed)
          && ledger1.resumed == ledger.resumed + CompleteCount(w.dir, ids)
          && |ledger1.executed| == |ledger.executed| + |ids| - CompleteCount(w.dir, ids))
  }

  lemma {:induction false} LoopKeeps(w: World, life: Life, cfg: Config, ids: seq<PairId>, ledger: Ledger)
    requires Inv(w.dir, cfg) && ChecksIdentity(cfg) && Distinct(ids) && ledger.charged == SlotSum(ledger.executed)
    ensures var (w1, ledger1, r) := VisitAll(w, life, cfg, ids, ledger);
            LoopSpec(w, w1, ids, ledger, ledger1, r, cfg, life.maximum)
    decreases |ids|
  {
    if ids == [] {
      assert ledger.pairs[|ledger.pairs|..] == [];
    } else {
      var id := ids[0];
      VisitKeeps(w, life, cfg, id, ledger);
      SlotSumAppend(ledger.executed, id);
      var (w1, ledger1, r) := Visit(w, life, cfg, id, ledger);
      assert Advances(w.dir, w1.dir);
      if r.Returned? {
        assert Distinct(ids[1..]) && id !in ids[1..];
        LoopKeeps(w1, life, cfg, ids[1..], ledger1);
        var (w2, ledger2, r2) := VisitAll(w1, life, cfg, ids[1..], ledger1);
        LoopJoin(w, w1, w2, ids, ledger, ledger1, ledger2, r, r2, cfg, life.maximum);
      }
    }
  }

  lemma LoopJoin(w: World, w1: World, w2: World, ids: seq<PairId>, ledger: Ledger, ledger1: Ledger, ledger2: Ledger,
                 r: Outcome<()>, r2: Outcome<()>, cfg: Config, maximum: int)
    requires ids != [] && ids[0] !in ids[1..] && r.Returned? && Advances(w.dir, w1.dir)
    requires VisitSpec(w, w1, ids[0], ledger, ledger1, r, cfg)
    requires LoopSpec(w1, w2, ids[1..], ledger1, ledger2, r2, cfg, maximum)
    requires ledger1.executed != ledger.executed ==> SlotSum(ledger1.executed) <= maximum
    ensures LoopSpec(w, w2, ids, ledger, ledger2, r2, cfg, maximum)
  {
    var id := ids[0];
    AdvancesTransitive(w.dir, w1.dir, w2.dir);
    CountStays(w.dir, w1.dir, id, ids[1..]);
    ExecutedJoin(w.dir, w1.dir, ids, ledger.executed, ledger1.executed, ledger2.executed);
    if r2.Returned? {
      RecordedJoin(w1.dir, w2.dir, ids, ledger.pairs, ledger1.pairs, ledger2.pairs);
    }
  }

  lemma RecordedJoin(dir1: Dir, dir2: Dir, ids: seq<PairId>, a: seq<Pair>, b: seq<Pair>, c: seq<Pair>)
    requires ids != [] && Advances(dir1, dir2) && Complete(ids[0]) in dir1 && dir1[Complete(ids[0])].Envelope?
    requires dir1[Complete(ids[0])].pair.id == ids[0] && b == a + [dir1[Complete(ids[0])].pair]
    requires b <= c && Recorded(dir2, ids[1..], c[|b|..])
    ensures a <= c && Recorded(dir2, ids, c[|a|..])
  {
    assert c[|a|..] == [dir1[Complete(ids[0])].pair] + c[|b|..];
  }

  lemma ExecutedJoin(dir: Dir, dir1: Dir, ids: seq<PairId>, a: seq<PairId>, b: seq<PairId>, c: seq<PairId>)
    requires ids != [] && Advances(dir, dir1) && NewlyExecuted(dir1, ids[1..], b, c)
    requires b == a || (b == a + [ids[0]] && Complete(ids[0]) !in dir)
    ensures NewlyExecuted(dir, ids, a, c)
  {
    forall i | |a| <= i < |c| ensures c[i] in ids && Complete(c[i]) !in dir {
      if i < |b| {
        assert c[i] == b[i] == ids[0];
      } else {
        assert c[i] in ids[1..] && Complete(c[i]) !in dir1;
      }
    }
  }
}
