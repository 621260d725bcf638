/** The read bound of the journal. Envelopes are written without a bound and read under
    one, so a pair can be completed and never be read again: when that happens, that no
    life recovers from it, and what else decides whether a history can still be finished. */
module JournalUnreadable {
  import opened Collections
  import opened Comparison
  import opened Matrix
  import opened Journal
  import opened LiveLoop
  import opened JournalRuns
  import opened JournalBlocked
  import opened JournalResume
  import opened JournalEndings
  import Utf8

  // ----- Which histories store one -----

  ghost function TooLarge(base: Config): Test {
    (record: Record, ending: Ending) => !Readable(record, base)
  }

  lemma EnvelopeInPlace(root: Root, base: Config, id: PairId)
    requires RootInv(root, base) && Complete(id) in root.dir
    ensures root.dir[Complete(id)].Envelope? && root.dir[Complete(id)].pair.attempt >= 0
  {
    assert PairOk(root.dir, base.(identity := root.manifest.value), id);
  }

  lemma StoredTooLarge(root: Root, base: Config, id: PairId)
    requires RootInv(root, base)
    ensures Unreadable(root.dir, base, id) <==> Stored(root.dir, id, TooLarge(base))
  {
    if Complete(id) in root.dir {
      EnvelopeInPlace(root, base, id);
    }
  }

  /** Over every history: a pair's envelope is above the read bound exactly when some life
      stored one so. */
  lemma UnreadableIff(lives: seq<Life>, base: Config, id: PairId)
    requires ChecksIdentity(base)
    ensures Unreadable(RunLives(lives, base).dir, base, id) <==>
            SomeStep(lives, Bringing(base, id, Kept(TooLarge(base))))
  {
    HistoriesSound(lives, base);
    StoredTooLarge(RunLives(lives, base), base, id);
    HoldsIff(lives, base, id, Kept(TooLarge(base)));
  }

  // ----- No life gets past it -----

  /** A pair that stops its visit stops the loop, and goes on to. */
  lemma {:induction false} LoopStops(w: World, life: Life, cfg: Config, ids: seq<PairId>, ledger: Ledger, id: PairId)
    requires Inv(w.dir, cfg) && ChecksIdentity(cfg) && id in ids && !Visitable(w.dir, cfg, id)
    ensures var (w1, _, r) := VisitAll(w, life, cfg, ids, ledger);
            !r.Returned? && !Visitable(w1.dir, cfg, id)
    decreases |ids|
  {
    if ids[0] == id {
      VisitRefused(w, life, cfg, id, ledger);
    } else {
      VisitKeeps(w, life, cfg, ids[0], ledger);
      var (w1, ledger1, r) := Visit(w, life, cfg, ids[0], ledger);
      OthersUntouched(w.dir, w1.dir, cfg, ids[0], id);
      if r.Returned? {
        LoopStops(w1, life, cfg, ids[1..], ledger1, id);
      }
    }
  }

  lemma LifeStops(root: Root, life: Life, base: Config, id: PairId)
    requires RootInv(root, base) && ChecksIdentity(base) && id in DESIGN && !Visitable(root.dir, base, id)
    ensures var (root1, _, r) := RunLife(root, life, base);
            !r.Returned? && !Visitable(root1.dir, base, id)
  {
    var (ready, r) := Open(root, life);
    var cfg := base.(identity := life.identity);
    assert !Visitable(root.dir, cfg, id) && root.manifest.Some?;
    if Admitted(life) && r.Returned? {
      LoopStops(Awake(ready), life, cfg, DESIGN, EMPTY, id);
    }
  }

  lemma OneLifeMore(lives: seq<Life>, more: seq<Life>, base: Config)
    requires more != []
    ensures RunLives(lives + more, base) ==
            RunLife(RunLives(lives + more[..|more| - 1], base), more[|more| - 1], base).0
  {
    assert (lives + more)[..|lives + more| - 1] == lives + more[..|more| - 1];
  }

  lemma {:induction false} StopsForever(lives: seq<Life>, more: seq<Life>, base: Config, id: PairId)
    requires ChecksIdentity(base) && id in DESIGN && !Visitable(RunLives(lives, base).dir, base, id)
    ensures !Visitable(RunLives(lives + more, base).dir, base, id)
    decreases |more|
  {
    if more == [] {
      assert lives + more == lives;
    } else {
      var init := more[..|more| - 1];
      StopsForever(lives, init, base, id);
      HistoriesSound(lives + init, base);
      LifeStops(RunLives(lives + init, base), more[|more| - 1], base, id);
      OneLifeMore(lives, more, base);
    }
  }

  /** The life returns, after this history and its continuation. */
  ghost predicate Finishes(lives: seq<Life>, more: seq<Life>, life: Life, base: Config) {
    RunLife(RunLives(lives + more, base), life, base).2.Returned?
  }

  /** Once a designed pair's envelope is above the read bound, or a designed pair has used
      up its attempts without one, no later life ever returns. */
  lemma NeverReturns(lives: seq<Life>, more: seq<Life>, life: Life, base: Config, id: PairId)
    requires ChecksIdentity(base) && id in DESIGN && !Visitable(RunLives(lives, base).dir, base, id)
    ensures !Finishes(lives, more, life, base)
  {
    StopsForever(lives, more, base, id);
    HistoriesSound(lives + more, base);
    LifeStops(RunLives(lives + more, base), life, base, id);
  }

  // ----- What decides whether a history can still be finished -----

  lemma StuckNeverReturns(lives: seq<Life>, more: seq<Life>, life: Life, base: Config)
    requires ChecksIdentity(base) && Stuck(RunLives(lives, base))
    ensures !Finishes(lives, more, life, base)
  {
    StuckForever(lives, more, base);
    HistoriesSound(lives, base);
    StuckRefuses(RunLives(lives, base), life, base);
  }

  lemma CleanLifeFinishes(lives: seq<Life>, base: Config, plan: Plan, tokens: Tokens)
    requires base.validate == ValidatePair && forall i :: 0 <= i < |lives| ==> RunsLive(lives[i])
    requires !Stuck(RunLives(lives, base)) && AllVisitable(RunLives(lives, base).dir, base, DESIGN)
    ensures exists life :: RunsLive(life) && Finishes(lives, [], life, base)
  {
    var root := RunLives(lives, base);
    var identity := if root.manifest.Some? then root.manifest.value else base.identity;
    var life := CleanLife(identity, plan, tokens);
    UntroubledExists(base.(identity := identity), plan, tokens);
    SourceChecksIdentity(base);
    UntroubledFinishes(lives, life, base);
  }

  lemma UntroubledFinishes(lives: seq<Life>, life: Life, base: Config)
    requires ChecksIdentity(base) && forall i :: 0 <= i < |lives| ==> RunsLive(lives[i])
    requires !Stuck(RunLives(lives, base)) && AllVisitable(RunLives(lives, base).dir, base, DESIGN)
    requires Admitted(life) && Untroubled(life, base.(identity := life.identity))
    requires var root := RunLives(lives, base); root.manifest.None? || root.manifest.value == life.identity
    ensures Finishes(lives, [], life, base)
  {
    ResumeCompletes(lives, life, base);
    assert lives + [] == lives;
  }

  /** After any history of live executions, some continuation and life still return if and
      only if the journal is not stuck, no pair still to do has used up its attempts and no
      completed pair is above the read bound: all of it legible in the directory. */
  lemma FinishableIff(lives: seq<Life>, base: Config, plan: Plan)
    requires base.validate == ValidatePair && forall i :: 0 <= i < |lives| ==> RunsLive(lives[i])
    ensures (exists more, life :: Finishes(lives, more, life, base)) <==>
            !Stuck(RunLives(lives, base)) && AllVisitable(RunLives(lives, base).dir, base, DESIGN)
  {
    SourceChecksIdentity(base);
    var root := RunLives(lives, base);
    if Stuck(root) {
      forall more, life ensures !Finishes(lives, more, life, base) {
        StuckNeverReturns(lives, more, life, base);
      }
    } else if !AllVisitable(root.dir, base, DESIGN) {
      var i :| 0 <= i < |DESIGN| && !Visitable(root.dir, base, DESIGN[i]);
      forall more, life ensures !Finishes(lives, more, life, base) {
        NeverReturns(lives, more, life, base, DESIGN[i]);
      }
    } else {
      CleanLifeFinishes(lives, base, plan, Tokens(map[], true));
    }
  }

  // ----- It happens -----

  /** Bytes of a character in a JSON string whose non-ASCII characters are escaped. */
  function EscapedSize(c: char): nat {
    var n := c as int;
    if c == '"' || c == '\\' || n in {8, 9, 10, 12, 13} then 2
    else if 0x20 <= n < 0x7F then 1
    else if n < 0x1_0000 then 6
    else 12
  }

  function EscapedLength(s: string): nat {
    if s == [] then 0 else EscapedSize(s[0]) + EscapedLength(s[1..])
  }

  /** Some baseline run of the pair reports a token count under this name. */
  ghost predicate Reports(pair: Pair, name: string) {
    exists i :: 0 <= i < |pair.baseline.runs| && name in pair.baseline.runs[i].tokens.counts
  }

  /** A record's file spells out every name under which its runs report tokens. */
  ghost predicate SpellsNames(size: Record -> nat) {
    forall identity, digest, pair, name | Reports(pair, name) ::
      size(Envelope(identity, digest, pair)) >= EscapedLength(name)
  }

  /** A character of two bytes in UTF-8, six when escaped. */
  const WIDE: char := 0xE9 as char

  function Wide(n: nat): string { seq(n, _ => WIDE) }

  lemma {:induction false} WideLengths(n: nat)
    ensures EscapedLength(Wide(n)) == 6 * n && |Utf8.Encode(Wide(n))| == 2 * n
  {
    if n > 0 {
      assert Wide(n)[1..] == Wide(n - 1);
      WideLengths(n - 1);
    }
  }

  function LongName(n: nat): string { "token" + Wide(n) }

  const LONG_NAME: string := LongName(1_400_000)

  lemma {:induction false} AsciiFirst(prefix: string, s: string)
    requires forall i :: 0 <= i < |prefix| ==> EscapedSize(prefix[i]) == 1 && prefix[i] as int < 0x80
    ensures EscapedLength(prefix + s) == |prefix| + EscapedLength(s)
    ensures |Utf8.Encode(prefix + s)| == |prefix| + |Utf8.Encode(s)|
  {
    if prefix == [] {
      assert prefix + s == s;
    } else {
      assert (prefix + s)[1..] == prefix[1..] + s;
      AsciiFirst(prefix[1..], s);
    }
  }

  lemma LongNameLength(n: nat)
    ensures |Utf8.Encode(LongName(n))| == 5 + 2 * n && EscapedLength(LongName(n)) == 5 + 6 * n
  {
    WideLengths(n);
    AsciiFirst("token", Wide(n));
  }

  /** One such name takes less than the 4 MiB a client's output line may have, and more
      than the 8 MiB a journal file may have. */
  lemma LongNameLengths()
    ensures |Utf8.Encode(LONG_NAME)| == 2_800_005 < 4 * 1024 * 1024
    ensures EscapedLength(LONG_NAME) == 8_400_005 > MAX_JOURNAL_FILE_BYTES
  {
    LongNameLength(1_400_000);
  }

  lemma CleanPairReports(id: PairId, n: nat, plan: Plan, tokens: Tokens, name: string)
    requires id in DESIGN && n >= 1 && name in tokens.counts
    ensures CleanPair(id, n, plan, tokens).Ok? && Reports(CleanPair(id, n, plan, tokens).value, name)
  {
    CleanPairAccepted(id, n, plan, tokens);
    DesignTasks(id);
    var runs := CleanPair(id, n, plan, tokens).value.baseline.runs;
    assert runs[0].tokens == tokens;
  }

  /** A first life in which every write succeeds and every client answers correctly, one
      under a long token name, completes all six pairs and returns. Its journal is not
      stuck, yet no later life ever returns: the first pair is above the read bound. */
  lemma UnreadableReached(base: Config, plan: Plan)
    requires base.validate == ValidatePair && SpellsNames(base.size)
    ensures var life := CleanLife(base.identity, plan, Tokens(map[LONG_NAME := 0], true));
            && RunLife(FRESH_ROOT, life, base).2.Returned?
            && Unreadable(RunLives([life], base).dir, base, DESIGN[0])
            && forall more, later :: !Finishes([life], more, later, base)
  {
    var tokens := Tokens(map[LONG_NAME := 0], true);
    var life := CleanLife(base.identity, plan, tokens);
    SourceChecksIdentity(base);
    FreshCompletes(base, plan, tokens);
    LongEnvelopeStored(base, plan, tokens, life);
    forall more, later ensures !Finishes([life], more, later, base) {
      NeverReturns([life], more, later, base, DESIGN[0]);
    }
  }

  lemma LongEnvelopeStored(base: Config, plan: Plan, tokens: Tokens, life: Life)
    requires base.validate == ValidatePair && SpellsNames(base.size) && ChecksIdentity(base)
    requires LONG_NAME in tokens.counts && life == CleanLife(base.identity, plan, tokens)
    ensures Unreadable(RunLives([life], base).dir, base, DESIGN[0])
  {
    CleanPairAccepted(DESIGN[0], 1, plan, tokens);
    CleanPairReports(DESIGN[0], 1, plan, tokens, LONG_NAME);
    LongNameLengths();
    var pair := CleanPair(DESIGN[0], 1, plan, tokens).value;
    assert life.run(DESIGN[0], 1) == Built(pair);
    assert !Readable(Envelope(base.identity, base.sha(pair), pair), base);
    FirstLifeStores(life, base, pair, TooLarge(base));
  }
}
