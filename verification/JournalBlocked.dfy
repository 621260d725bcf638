/** When a run journal can never be opened again: transaction files that failed writes
    leave behind count as entries, and nothing ever removes them. */
module JournalBlocked {
  import opened Collections
  import opened Comparison
  import opened Matrix
  import opened Journal
  import opened LiveLoop
  import opened JournalRuns

  /** Something lies in the root, and there is no manifest. */
  predicate Blocked(root: Root) { root.manifest.None? && root.litter > 0 }

  predicate Full(root: Root) { Entries(root) > MAX_ENTRIES }

  predicate Stuck(root: Root) { Blocked(root) || Full(root) }

  // ----- A stuck root stays as it is -----

  lemma StuckRefuses(root: Root, life: Life, base: Config)
    requires RootInv(root, base) && Stuck(root)
    ensures Open(root, life).0 == root && !Open(root, life).1.Returned?
    ensures RunLife(root, life, base).0 == root
  {
  }

  /** A stuck root is stuck for good: no later life changes it. */
  lemma {:induction false} StuckForever(lives: seq<Life>, more: seq<Life>, base: Config)
    requires ChecksIdentity(base) && Stuck(RunLives(lives, base))
    ensures RunLives(lives + more, base) == RunLives(lives, base)
    decreases |more|
  {
    if more == [] {
      assert lives + more == lives;
    } else {
      var init := more[..|more| - 1];
      StuckForever(lives, init, base);
      assert (lives + more)[..|lives + more| - 1] == lives + init;
      HistoriesSound(lives, base);
      StuckRefuses(RunLives(lives, base), more[|more| - 1], base);
    }
  }

  /** No life after any continuation gets the journal open. */
  ghost predicate NeverOpens(lives: seq<Life>, base: Config) {
    forall more, life :: !Open(RunLives(lives + more, base), life).1.Returned?
  }

  /** A life whose writes all succeed. */
  function Healthy(identity: string): Life {
    Life((t: nat) => Done, (id: PairId, n: nat) => Killed, PLANNED_RUNS, identity)
  }

  lemma OpensHealthy(root: Root, base: Config)
    requires RootInv(root, base) && !Stuck(root)
    ensures Open(root, Healthy(if root.manifest.Some? then root.manifest.value else "")).1.Returned?
  {
  }

  /** After any history the journal can never be opened again if and only if it is
      stuck, which a caller can read off the directory: something there without a
      manifest, or more entries than the bound. */
  lemma NeverOpensIffStuck(lives: seq<Life>, base: Config)
    requires ChecksIdentity(base)
    ensures NeverOpens(lives, base) <==> Stuck(RunLives(lives, base))
  {
    var root := RunLives(lives, base);
    HistoriesSound(lives, base);
    if Stuck(root) {
      forall more, life ensures !Open(RunLives(lives + more, base), life).1.Returned? {
        StuckForever(lives, more, base);
        StuckRefuses(root, life, base);
      }
    } else {
      OpensHealthy(root, base);
      assert lives + [] == lives;
      var identity := if root.manifest.Some? then root.manifest.value else "";
      assert Open(RunLives(lives + [], base), Healthy(identity)).1.Returned?;
    }
  }

  // ----- Which histories block it -----

  /** The life gets as far as the manifest and leaves the root as empty as it was. */
  predicate Misses(life: Life) { Admitted(life) ==> !TakesEffect(life.os(0)) && Litter(life.os(0)) == 0 }

  /** The life fails to write the manifest and leaves its transaction file behind. */
  predicate Litters(life: Life) { Admitted(life) && !TakesEffect(life.os(0)) && Litter(life.os(0)) == 1 }

  ghost predicate AllMiss(lives: seq<Life>) { forall i :: 0 <= i < |lives| ==> Misses(lives[i]) }

  /** Life `n` is the first to reach the root, and it litters. */
  ghost predicate BlocksAt(lives: seq<Life>, n: int) {
    0 <= n < |lives| && Litters(lives[n]) && AllMiss(lives[..n])
  }

  lemma FirstLife(root: Root, life: Life, base: Config)
    requires root == FRESH_ROOT
    ensures var root1 := RunLife(root, life, base).0;
            && (root1.manifest.None? && root1.litter == 0 <==> Misses(life))
            && (Misses(life) ==> root1 == FRESH_ROOT)
            && (Blocked(root1) <==> Litters(life))
  {
  }

  lemma LaterLife(root: Root, life: Life, base: Config)
    requires RootInv(root, base) && (root.manifest.Some? || Blocked(root))
    ensures var root1 := RunLife(root, life, base).0;
            (root1.manifest.Some? <==> root.manifest.Some?) && (Blocked(root1) <==> Blocked(root))
  {
    if Blocked(root) {
      StuckRefuses(root, life, base);
    }
  }

  lemma BlocksLater(lives: seq<Life>)
    requires lives != []
    ensures var init, last := lives[..|lives| - 1], lives[|lives| - 1];
            && (AllMiss(lives) <==> AllMiss(init) && Misses(last))
            && ((exists n :: BlocksAt(lives, n)) <==>
                (exists n :: BlocksAt(init, n)) || (AllMiss(init) && Litters(last)))
  {
    var init, last := lives[..|lives| - 1], lives[|lives| - 1];
    assert lives == init + [last];
    forall n | 0 <= n < |init| ensures lives[..n] == init[..n] {
    }
    if n :| BlocksAt(lives, n) {
      if n < |init| {
        assert BlocksAt(init, n);
      }
    }
    if n :| BlocksAt(init, n) {
      assert BlocksAt(lives, n);
    }
    if AllMiss(init) && Litters(last) {
      assert BlocksAt(lives, |init|);
    }
  }

  /** For every history: the root is still empty exactly when no life touched it, and it
      is blocked exactly when the first life that touched it failed to write the manifest
      and left its transaction file behind, by a death or by a failed cleanup. */
  lemma {:induction false} BlockedExactly(lives: seq<Life>, base: Config)
    requires ChecksIdentity(base)
    ensures RunLives(lives, base) == FRESH_ROOT <==> AllMiss(lives)
    ensures Blocked(RunLives(lives, base)) <==> exists n :: BlocksAt(lives, n)
    ensures RunLives(lives, base).manifest.None? && RunLives(lives, base).litter == 0 ==>
              RunLives(lives, base) == FRESH_ROOT
  {
    if lives != [] {
      var init, last := lives[..|lives| - 1], lives[|lives| - 1];
      BlockedExactly(init, base);
      BlocksLater(lives);
      HistoriesSound(init, base);
      var root := RunLives(init, base);
      if root == FRESH_ROOT {
        FirstLife(root, last, base);
      } else {
        LaterLife(root, last, base);
      }
    }
  }

  /** It happens after one life: the manifest write dies, or raises and is not cleaned up. */
  lemma BlockedReached(life: Life, base: Config)
    requires ChecksIdentity(base) && Admitted(life)
    requires life.os(0) == DiedBefore(true) || life.os(0) == RaisedBefore(true)
    ensures Blocked(RunLives([life], base)) && NeverOpens([life], base)
  {
    assert [life][..0] == [];
    assert BlocksAt([life], 0);
    BlockedExactly([life], base);
    NeverOpensIffStuck([life], base);
  }

  // ----- Filling up -----

  function Again(life: Life, n: nat): seq<Life> { seq(n, _ => life) }

  /** A life that dies inside its first record write and leaves the transaction file. */
  predicate DiesStarting(life: Life) {
    Admitted(life) && life.os(0) == Done && life.os(1) == DiedBefore(true)
  }

  lemma StartDies(w: World, os: nat -> WriteFate, cfg: Config, id: PairId, slots: nat)
    requires w.dir == map[] && os(w.tick) == DiedBefore(true)
    ensures StartAttempt(w, os, cfg, id, slots) == (World(map[], w.tick + 1, w.litter + 1), Dead)
  {
    assert PairInv(map[], cfg, id, 0);
    NumbersAreContiguous(map[], cfg, id, 0, NAME_LIMIT);
    StartAfterDies(w, os, id, slots);
  }

  lemma StartAfterDies(w: World, os: nat -> WriteFate, id: PairId, slots: nat)
    requires w.dir == map[] && os(w.tick) == DiedBefore(true)
    ensures StartAfter(w, os, id, slots, []) == (World(map[], w.tick + 1, w.litter + 1), Dead)
  {
    assert CloseOpen(w, os, id, []) == (w, Returned(()));
  }

  lemma LoopDies(w: World, life: Life, cfg: Config, ids: seq<PairId>)
    requires DiesStarting(life) && w.dir == map[] && w.tick == 1 && ids != [] && Slots(ids[0]) <= life.maximum
    ensures VisitAll(w, life, cfg, ids, EMPTY) == (World(map[], 2, w.litter + 1), EMPTY, Dead)
  {
    StartDies(w, life.os, cfg, ids[0], Slots(ids[0]));
  }

  lemma LifeFills(root: Root, life: Life, base: Config)
    requires DiesStarting(life) && root.dir == map[] && (root == FRESH_ROOT || root.manifest == Some(life.identity))
    requires Entries(root) <= MAX_ENTRIES
    ensures RunLife(root, life, base).0 == Root(root.litter + 1, Some(life.identity), map[])
  {
    var ready := Root(root.litter, Some(life.identity), map[]);
    assert Open(root, life) == (ready, Returned(()));
    assert Slots(DESIGN[0]) == 4;
    LoopDies(Awake(ready), life, base.(identity := life.identity), DESIGN);
  }

  lemma {:induction false} FillingUp(life: Life, n: nat, base: Config)
    requires DiesStarting(life) && 1 <= n <= MAX_ENTRIES - 2
    ensures RunLives(Again(life, n), base) == Root(n, Some(life.identity), map[])
  {
    var lives := Again(life, n);
    assert lives[..n - 1] == Again(life, n - 1);
    if n > 1 {
      FillingUp(life, n - 1, base);
    }
    LifeFills(RunLives(Again(life, n - 1), base), life, base);
  }

  /** A journal without a single record is full after 526 such deaths. */
  lemma FullReached(life: Life, base: Config)
    requires ChecksIdentity(base) && DiesStarting(life)
    ensures var lives := Again(life, 526);
            RunLives(lives, base).dir == map[] && Full(RunLives(lives, base)) && NeverOpens(lives, base)
  {
    FillingUp(life, 526, base);
    NeverOpensIffStuck(Again(life, 526), base);
  }
}
