/** The crash-resumable run journal: a directory of write-once records, driven by
    one process life after another, any of which may die between two writes. */
module Journal {
  import opened Collections
  import opened Comparison

  const MAX_JOURNAL_ATTEMPTS: nat := 128
  const MAX_JOURNAL_FILE_BYTES: nat := 8 * 1024 * 1024

  // ----- The directory -----

  datatype Terminal = Abandoned | Failed | Finished

  /** The file names of the journal. */
  datatype Name =
    | Started(id: PairId, number: nat)
    | Closed(id: PairId, number: nat, how: Terminal)
    | Complete(id: PairId)

  datatype Record =
    | StartRecord(slots: nat)
    | CloseRecord(code: string)
    | Envelope(identity: string, digest: string, pair: Pair)

  type Dir = map<Name, Record>

  /** `identity` is the evaluation's identity digest, `sha` the digest of a pair's
      canonical bytes, `size` the length of a record's file and `validate` the pair check,
      `ValidatePair` in the source. */
  datatype Config = Config(
    identity: string, sha: Pair -> string, size: Record -> nat,
    validate: (Pair, PairId) -> Result<Reconciliation>)

  // ----- Exclusive writes -----

  /** How the operating system answers one exclusive write. Publication links a
      complete file in one step, so a write that raises or dies has either taken effect
      entirely or not at all; `litter` says whether its transaction file stays behind, by
      a death or by a failed cleanup. Module WriteFates proves that these are exactly the
      ways the writer of module LinkPublication can end. */
  datatype WriteFate =
    | Done
    | RaisedBefore(litter: bool) | RaisedAfter(litter: bool)
    | DiedBefore(litter: bool) | DiedAfter(litter: bool)

  /** The records, the number of writes answered so far in this life, and the number
      of transaction files left behind. */
  datatype World = World(dir: Dir, tick: nat, litter: nat)

  datatype Outcome<T> = Returned(value: T) | Raised(code: string) | Dead

  predicate TakesEffect(fate: WriteFate) {
    fate.Done? || fate.RaisedAfter? || fate.DiedAfter?
  }

  function Litter(fate: WriteFate): nat {
    if !fate.Done? && fate.litter then 1 else 0
  }

  /** `write_json_exclusive`: an existing name is never replaced. */
  function Write(w: World, os: nat -> WriteFate, name: Name, record: Record): (World, Outcome<()>) {
    var fate := os(w.tick);
    var dir := if name !in w.dir && TakesEffect(fate) then w.dir[name := record] else w.dir;
    (World(dir, w.tick + 1, w.litter + Litter(fate)),
     if fate.DiedBefore? || fate.DiedAfter? then Dead
     else if fate.Done? && name !in w.dir then Returned(())
     else Raised("evidence_write"))
  }

  // ----- Journal operations -----

  /** `read_bounded_json_object` refuses a file above the bound. Nothing bounds a write. */
  predicate Readable(record: Record, cfg: Config) { cfg.size(record) <= MAX_JOURNAL_FILE_BYTES }

  /** `load_completed`: the stored pair, re-validated from its evidence. */
  function LoadCompleted(dir: Dir, cfg: Config, id: PairId): Result<Option<Pair>> {
    if Complete(id) !in dir then Ok(None)
    else
      var record := dir[Complete(id)];
      if !Readable(record, cfg) then Refused("journal_unsafe")
      else if !record.Envelope? then Refused("journal_pair")
      else
        var verdict := cfg.validate(record.pair, id);
        if verdict.Refused? then Refused(verdict.code)
        else if record != Envelope(cfg.identity, cfg.sha(record.pair), record.pair) then Refused("journal_pair")
        else Ok(Some(record.pair))
  }

  /** The attempt numbers below `limit` that have a started record, in name order;
      file names carry four digits, so every number is below 10000. */
  function Numbers(dir: Dir, id: PairId, limit: nat): seq<nat>
    decreases limit, dir
  {
    if limit == 0 then []
    else Numbers(dir, id, limit - 1) + (if Started(id, limit - 1) in dir then [limit - 1] else [])
  }

  const NAME_LIMIT: nat := 10000

  function Terminals(dir: Dir, id: PairId, n: nat): nat {
    (if Closed(id, n, Abandoned) in dir then 1 else 0)
    + (if Closed(id, n, Failed) in dir then 1 else 0)
    + (if Closed(id, n, Finished) in dir then 1 else 0)
  }

  /** Marks every listed attempt without a terminal record as abandoned. */
  function CloseOpen(w: World, os: nat -> WriteFate, id: PairId, numbers: seq<nat>): (World, Outcome<()>)
    decreases |numbers|
  {
    if numbers == [] then (w, Returned(()))
    else
      var n := numbers[0];
      var terminals := Terminals(w.dir, id, n);
      if terminals > 1 then (w, Raised("journal_attempt"))
      else if terminals == 1 then CloseOpen(w, os, id, numbers[1..])
      else
        var (w1, r) := Write(w, os, Closed(id, n, Abandoned), CloseRecord("abandoned"));
        if r.Returned? then CloseOpen(w1, os, id, numbers[1..]) else (w1, r)
  }

  function Last(numbers: seq<nat>): nat {
    if numbers == [] then 0 else numbers[|numbers| - 1]
  }

  /** `start_attempt`. */
  function StartAttempt(w: World, os: nat -> WriteFate, cfg: Config, id: PairId, slots: nat): (World, Outcome<nat>) {
    var loaded := LoadCompleted(w.dir, cfg, id);
    if loaded.Refused? then (w, Raised(loaded.code))
    else if loaded.value.Some? then (w, Raised("journal_pair_complete"))
    else
      StartAfter(w, os, id, slots, Numbers(w.dir, id, NAME_LIMIT))
  }

  /** The rest of it, given the attempts already started. */
  function StartAfter(w: World, os: nat -> WriteFate, id: PairId, slots: nat, numbers: seq<nat>)
    : (World, Outcome<nat>)
  {
    if |numbers| >= MAX_JOURNAL_ATTEMPTS then (w, Raised("journal_bound"))
    else
      var (w1, closed) := CloseOpen(w, os, id, numbers);
      if closed.Raised? then (w1, Raised(closed.code)) else if closed.Dead? then (w1, Dead)
      else
        var number := Last(numbers) + 1;
        if number > MAX_JOURNAL_ATTEMPTS then (w1, Raised("journal_bound"))
        else
          var (w2, r) := Write(w1, os, Started(id, number), StartRecord(slots));
          (w2, if r.Returned? then Returned(number) else if r.Raised? then Raised(r.code) else Dead)
  }

  /** `complete_attempt`: the envelope first, then the finished record. */
  function CompleteAttempt(w: World, os: nat -> WriteFate, cfg: Config, id: PairId, number: nat, pair: Pair)
    : (World, Outcome<()>)
  {
    if pair.attempt != number then (w, Raised("journal_pair"))
    else
      var verdict := cfg.validate(pair, id);
      if verdict.Refused? then (w, Raised(verdict.code))
      else
        var (w1, r) := Write(w, os, Complete(id), Envelope(cfg.identity, cfg.sha(pair), pair));
        if !r.Returned? then (w1, r)
        else Write(w1, os, Closed(id, number, Finished), CloseRecord("finished"))
  }

  /** `fail_attempt`. */
  function FailAttempt(w: World, os: nat -> WriteFate, id: PairId, number: nat, code: string): (World, Outcome<()>) {
    Write(w, os, Closed(id, number, Failed), CloseRecord(code))
  }

  /** What executing a pair came to: a pair, an exception, or the death of the
      process. */
  datatype Execution = Built(pair: Pair) | Threw(code: string) | Killed

  /** The live loop's `try` block: complete the executed attempt, or record its
      failure and re-raise. */
  function Conclude(w: World, os: nat -> WriteFate, cfg: Config, id: PairId, number: nat, execution: Execution)
    : (World, Outcome<Pair>)
  {
    match execution
    case Killed => (w, Dead)
    case Threw(code) => Reraise(w, os, id, number, code)
    case Built(pair) =>
      var (w1, r) := CompleteAttempt(w, os, cfg, id, number, pair);
      if r.Returned? then (w1, Returned(pair))
      else if r.Dead? then (w1, Dead)
      else Reraise(w1, os, id, number, r.code)
  }

  function Reraise(w: World, os: nat -> WriteFate, id: PairId, number: nat, code: string): (World, Outcome<Pair>) {
    var (w1, r) := FailAttempt(w, os, id, number, code);
    (w1, if r.Dead? then Dead else Raised(if r.Returned? then code else r.code))
  }

  // ----- The invariant -----

  /** Attempt `n` ended without completing the pair: abandoned or failed, not both,
      and not finished. */
  predicate EndedOnce(dir: Dir, id: PairId, n: nat) {
    && (Closed(id, n, Abandoned) in dir) != (Closed(id, n, Failed) in dir)
    && Closed(id, n, Finished) !in dir
  }

  ghost predicate ValidEnvelope(record: Record, cfg: Config, id: PairId, k: nat) {
    && record.Envelope? && record == Envelope(cfg.identity, cfg.sha(record.pair), record.pair)
    && cfg.validate(record.pair, id).Ok? && record.pair.attempt == k
  }

  /** The records of one pair after `k` started attempts. */
  ghost predicate PairInv(dir: Dir, cfg: Config, id: PairId, k: nat) {
    && k <= MAX_JOURNAL_ATTEMPTS
    && (forall n: nat :: Started(id, n) in dir <==> 1 <= n <= k)
    && (forall n: nat, how :: Closed(id, n, how) in dir ==> 1 <= n <= k)
    && (forall n: nat :: 1 <= n < k ==> EndedOnce(dir, id, n))
    && (Closed(id, k, Abandoned) in dir ==> EndedOnce(dir, id, k))
    && (Closed(id, k, Finished) in dir ==> Complete(id) in dir)
    && (Complete(id) in dir ==>
          k >= 1 && ValidEnvelope(dir[Complete(id)], cfg, id, k) && Closed(id, k, Abandoned) !in dir)
  }

  ghost predicate PairOk(dir: Dir, cfg: Config, id: PairId) {
    exists k :: PairInv(dir, cfg, id, k)
  }

  ghost predicate Inv(dir: Dir, cfg: Config) {
    forall id :: PairOk(dir, cfg, id)
  }

  /** `after` keeps every record of `before` and adds records of pair `id` only. */
  ghost predicate Extends(before: Dir, after: Dir, id: PairId) {
    && (forall name :: name in before ==> name in after && after[name] == before[name])
    && (forall name :: name in after && name !in before ==> name.id == id)
  }

  lemma ExtendsTransitive(a: Dir, b: Dir, c: Dir, id: PairId)
    requires Extends(a, b, id) && Extends(b, c, id)
    ensures Extends(a, c, id)
  {
  }

  lemma OtherPairsKept(before: Dir, after: Dir, id: PairId, other: PairId, cfg: Config, k: nat)
    requires Extends(before, after, id) && other != id && PairInv(before, cfg, other, k)
    ensures PairInv(after, cfg, other, k)
  {
    assert forall n: nat, how :: Closed(other, n, how) in after <==> Closed(other, n, how) in before;
    assert forall n: nat :: EndedOnce(after, other, n) <==> EndedOnce(before, other, n);
  }

  lemma InvExtends(before: Dir, after: Dir, id: PairId, cfg: Config, k: nat)
    requires Inv(before, cfg) && Extends(before, after, id) && PairInv(after, cfg, id, k)
    ensures Inv(after, cfg)
  {
    forall other ensures PairOk(after, cfg, other) {
      if other != id {
        assert PairOk(before, cfg, other);
        var j :| PairInv(before, cfg, other, j);
        OtherPairsKept(before, after, id, other, cfg, j);
      }
    }
  }

  lemma EmptyInv(cfg: Config)
    ensures Inv(map[], cfg)
  {
    forall id ensures PairOk(map[], cfg, id) {
      assert PairInv(map[], cfg, id, 0);
    }
  }

  lemma WriteExtends(w: World, os: nat -> WriteFate, name: Name, record: Record)
    ensures var (w1, r) := Write(w, os, name, record);
            && Extends(w.dir, w1.dir, name.id)
            && (w1.dir == w.dir || (name !in w.dir && w1.dir == w.dir[name := record]))
            && (r.Returned? ==> name !in w.dir && w1.dir == w.dir[name := record])
  {
  }

  // ----- What each operation keeps -----

  /** The pair is complete, but its envelope is above the bound under which it is read. */
  predicate Unreadable(dir: Dir, cfg: Config, id: PairId) {
    Complete(id) in dir && !Readable(dir[Complete(id)], cfg)
  }

  /** In a sound directory loading finds no pair exactly when none is complete, and gives
      the stored pair exactly when its envelope is within the read bound. */
  lemma LoadIsRecorded(dir: Dir, cfg: Config, id: PairId, k: nat)
    requires PairInv(dir, cfg, id, k)
    ensures LoadCompleted(dir, cfg, id) ==
            if Complete(id) !in dir then Ok(None)
            else if Unreadable(dir, cfg, id) then Refused("journal_unsafe")
            else Ok(Some(dir[Complete(id)].pair))
  {
  }

  /** The listed attempt numbers are exactly 1 .. k. */
  lemma {:induction false} NumbersAreContiguous(dir: Dir, cfg: Config, id: PairId, k: nat, limit: nat)
    requires PairInv(dir, cfg, id, k) && limit >= 1
    ensures var numbers := Numbers(dir, id, limit);
            && |numbers| == (if k < limit then k else limit - 1)
            && forall i :: 0 <= i < |numbers| ==> numbers[i] == i + 1
    decreases limit
  {
    if limit > 1 {
      NumbersAreContiguous(dir, cfg, id, k, limit - 1);
    } else {
      assert Numbers(dir, id, 0) == [];
    }
  }

  ghost predicate Unended(dir: Dir, id: PairId, k: nat) {
    forall how :: Closed(id, k, how) !in dir
  }

  /** Attempt `k` is the last one started and nothing is recorded of its end. */
  ghost predicate Underway(dir: Dir, cfg: Config, id: PairId, k: nat) {
    PairInv(dir, cfg, id, k) && k >= 1 && Unended(dir, id, k) && Complete(id) !in dir
  }

  lemma {:induction false} CloseOpenKeeps(w: World, os: nat -> WriteFate, cfg: Config, id: PairId, k: nat,
                                          numbers: seq<nat>)
    requires PairInv(w.dir, cfg, id, k) && Complete(id) !in w.dir
    requires forall i :: 0 <= i < |numbers| ==> 1 <= numbers[i] <= k
    ensures var (w1, r) := CloseOpen(w, os, id, numbers);
            && Extends(w.dir, w1.dir, id) && PairInv(w1.dir, cfg, id, k) && Complete(id) !in w1.dir
            && (r.Raised? ==> r.code == "evidence_write")
            && (r.Returned? ==> forall i :: 0 <= i < |numbers| ==> EndedOnce(w1.dir, id, numbers[i]))
    decreases |numbers|
  {
    if numbers != [] {
      var n := numbers[0];
      if Terminals(w.dir, id, n) == 0 {
        var name := Closed(id, n, Abandoned);
        WriteExtends(w, os, name, CloseRecord("abandoned"));
        var (w1, r) := Write(w, os, name, CloseRecord("abandoned"));
        AbandonKeeps(w.dir, w1.dir, cfg, id, k, n);
        if r.Returned? {
          CloseOpenKeeps(w1, os, cfg, id, k, numbers[1..]);
          var w2 := CloseOpen(w1, os, id, numbers[1..]).0;
          ExtendsTransitive(w.dir, w1.dir, w2.dir, id);
          EndedStays(w1.dir, w2.dir, cfg, id, k, n);
        }
      } else {
        CloseOpenKeeps(w, os, cfg, id, k, numbers[1..]);
        EndedStays(w.dir, CloseOpen(w, os, id, numbers[1..]).0.dir, cfg, id, k, n);
      }
    }
  }

  lemma AbandonKeeps(before: Dir, after: Dir, cfg: Config, id: PairId, k: nat, n: nat)
    requires PairInv(before, cfg, id, k) && Complete(id) !in before && 1 <= n <= k && Terminals(before, id, n) == 0
    requires after == before || after == before[Closed(id, n, Abandoned) := CloseRecord("abandoned")]
    ensures PairInv(after, cfg, id, k)
    ensures after != before ==> EndedOnce(after, id, n)
  {
    assert n < k ==> EndedOnce(before, id, n);
    assert forall m: nat :: m != n ==> (EndedOnce(after, id, m) <==> EndedOnce(before, id, m));
  }

  lemma EndedStays(before: Dir, after: Dir, cfg: Config, id: PairId, k: nat, n: nat)
    requires Extends(before, after, id) && PairInv(after, cfg, id, k) && 1 <= n <= k && Complete(id) !in after
    requires Terminals(before, id, n) >= 1
    ensures EndedOnce(after, id, n)
  {
  }

  // ----- What starting an attempt writes -----

  /** Attempt `n` was started and nothing is recorded of its end. */
  predicate LeftOpen(dir: Dir, id: PairId, n: nat) {
    Started(id, n) in dir && Terminals(dir, id, n) == 0
  }

  /** `after` keeps every record of `before`, and what it adds are abandonments of listed
      attempts that had no terminal record. */
  ghost predicate OnlyAbandons(before: Dir, after: Dir, id: PairId, numbers: seq<nat>) {
    && (forall name :: name in before ==> name in after && after[name] == before[name])
    && (forall name :: name in after && name !in before ==>
          && name.Closed? && name.id == id && name.how == Abandoned && after[name] == CloseRecord("abandoned")
          && name.number in numbers && Terminals(before, id, name.number) == 0)
  }

  /** In any directory: closing the open attempts only abandons, and if it returns, every
      listed attempt has exactly one terminal record. */
  lemma {:induction false} CloseOpenAbandons(w: World, os: nat -> WriteFate, id: PairId, numbers: seq<nat>)
    ensures var (w1, r) := CloseOpen(w, os, id, numbers);
            && OnlyAbandons(w.dir, w1.dir, id, numbers)
            && (r.Returned? ==> forall n :: n in numbers ==> Terminals(w1.dir, id, n) == 1)
    decreases |numbers|
  {
    if numbers != [] {
      var n, rest := numbers[0], numbers[1..];
      var (w1, r) := Write(w, os, Closed(id, n, Abandoned), CloseRecord("abandoned"));
      if Terminals(w.dir, id, n) == 1 {
        CloseOpenAbandons(w, os, id, rest);
        AbandonsOneMore(w.dir, w.dir, CloseOpen(w, os, id, rest).0.dir, id, numbers);
      } else if Terminals(w.dir, id, n) == 0 && r.Returned? {
        CloseOpenAbandons(w1, os, id, rest);
        AbandonsOneMore(w.dir, w1.dir, CloseOpen(w1, os, id, rest).0.dir, id, numbers);
      }
    }
  }

  lemma AbandonsOneMore(before: Dir, between: Dir, after: Dir, id: PairId, numbers: seq<nat>)
    requires numbers != [] && OnlyAbandons(before, between, id, numbers[..1])
    requires Terminals(between, id, numbers[0]) == 1 && OnlyAbandons(between, after, id, numbers[1..])
    ensures OnlyAbandons(before, after, id, numbers) && Terminals(after, id, numbers[0]) == 1
  {
    forall name | name in after && name !in before
      ensures name.Closed? && name.number in numbers && Terminals(before, id, name.number) == 0
    {
      if name in between {
        assert name.number in numbers[..1];
      } else {
        assert name.number in numbers[1..];
      }
    }
  }

  /** What starting may add to any directory: abandonments of attempts that were open, and
      start records. */
  ghost predicate StartAdds(before: Dir, after: Dir, id: PairId, slots: nat) {
    forall name :: name in after && name !in before ==>
      if name.Started? then name.id == id && after[name] == StartRecord(slots)
      else name.Closed? && name.id == id && name.how == Abandoned && after[name] == CloseRecord("abandoned")
           && LeftOpen(before, id, name.number)
  }

  /** Exactly the attempts that were open have been abandoned. */
  ghost predicate ClosesAll(before: Dir, after: Dir, id: PairId) {
    forall n: nat :: LeftOpen(before, id, n) <==>
      Closed(id, n, Abandoned) in after && Closed(id, n, Abandoned) !in before
  }

  lemma {:induction false} NumbersStarted(dir: Dir, id: PairId, limit: nat, n: nat)
    ensures n in Numbers(dir, id, limit) <==> n < limit && Started(id, n) in dir
    decreases limit
  {
    if limit > 0 {
      NumbersStarted(dir, id, limit - 1, n);
    }
  }

  lemma StartAfterAdds(w: World, os: nat -> WriteFate, id: PairId, slots: nat, numbers: seq<nat>)
    requires forall n :: n in numbers ==> Started(id, n) in w.dir
    ensures StartAdds(w.dir, StartAfter(w, os, id, slots, numbers).0.dir, id, slots)
  {
    CloseOpenAbandons(w, os, id, numbers);
  }

  /** In any directory: starting writes nothing but abandonments and a start record. */
  lemma StartAttemptAdds(w: World, os: nat -> WriteFate, cfg: Config, id: PairId, slots: nat)
    ensures StartAdds(w.dir, StartAttempt(w, os, cfg, id, slots).0.dir, id, slots)
  {
    var numbers := Numbers(w.dir, id, NAME_LIMIT);
    forall n | n in numbers ensures Started(id, n) in w.dir {
      NumbersStarted(w.dir, id, NAME_LIMIT, n);
    }
    StartAfterAdds(w, os, id, slots, numbers);
  }

  /** In a sound directory only the last attempt can be open, so starting comes to this:
      abandon it if it is, then start the next one. */
  function Restart(w: World, os: nat -> WriteFate, id: PairId, slots: nat, k: nat): (World, Outcome<nat>) {
    var (w1, closed) := if LeftOpen(w.dir, id, k) then Write(w, os, Closed(id, k, Abandoned), CloseRecord("abandoned"))
                        else (w, Returned(()));
    if closed.Raised? then (w1, Raised(closed.code)) else if closed.Dead? then (w1, Dead)
    else
      var (w2, r) := Write(w1, os, Started(id, k + 1), StartRecord(slots));
      (w2, if r.Returned? then Returned(k + 1) else if r.Raised? then Raised(r.code) else Dead)
  }

  lemma {:induction false} CloseOpenSkips(w: World, os: nat -> WriteFate, id: PairId, numbers: seq<nat>)
    requires numbers != [] && forall i :: 0 <= i < |numbers| - 1 ==> Terminals(w.dir, id, numbers[i]) == 1
    ensures CloseOpen(w, os, id, numbers) == CloseOpen(w, os, id, [numbers[|numbers| - 1]])
    decreases |numbers|
  {
    if |numbers| == 1 {
      assert numbers == [numbers[0]];
    } else {
      CloseOpenSkips(w, os, id, numbers[1..]);
    }
  }

  lemma CloseOpenLast(w: World, os: nat -> WriteFate, id: PairId, n: nat)
    requires Terminals(w.dir, id, n) <= 1
    ensures CloseOpen(w, os, id, [n]) ==
            if Terminals(w.dir, id, n) == 1 then (w, Returned(()))
            else Write(w, os, Closed(id, n, Abandoned), CloseRecord("abandoned"))
  {
    assert [n][1..] == [];
    assert forall v: World :: CloseOpen(v, os, id, []) == (v, Returned(()));
  }

  lemma EarlierEnded(dir: Dir, cfg: Config, id: PairId, k: nat, n: nat)
    requires PairInv(dir, cfg, id, k) && Complete(id) !in dir && 1 <= n <= k
    ensures Terminals(dir, id, n) <= 1 && (n < k ==> Terminals(dir, id, n) == 1)
    ensures LeftOpen(dir, id, n) <==> Terminals(dir, id, n) == 0
  {
    assert n < k ==> EndedOnce(dir, id, n);
  }

  lemma StartAfterIsRestart(w: World, os: nat -> WriteFate, cfg: Config, id: PairId, slots: nat, k: nat,
                            numbers: seq<nat>)
    requires PairInv(w.dir, cfg, id, k) && Complete(id) !in w.dir && k < MAX_JOURNAL_ATTEMPTS
    requires |numbers| == k && forall i :: 0 <= i < k ==> numbers[i] == i + 1
    ensures StartAfter(w, os, id, slots, numbers) == Restart(w, os, id, slots, k)
  {
    if k > 0 {
      forall i | 0 <= i < k - 1 ensures Terminals(w.dir, id, numbers[i]) == 1 {
        EarlierEnded(w.dir, cfg, id, k, numbers[i]);
      }
      EarlierEnded(w.dir, cfg, id, k, k);
      CloseOpenSkips(w, os, id, numbers);
      CloseOpenLast(w, os, id, k);
    }
  }

  lemma StartIsRestart(w: World, os: nat -> WriteFate, cfg: Config, id: PairId, slots: nat, k: nat)
    requires PairInv(w.dir, cfg, id, k) && Complete(id) !in w.dir && k < MAX_JOURNAL_ATTEMPTS
    ensures StartAttempt(w, os, cfg, id, slots) == Restart(w, os, id, slots, k)
  {
    LoadIsRecorded(w.dir, cfg, id, k);
    NumbersAreContiguous(w.dir, cfg, id, k, NAME_LIMIT);
    StartAfterIsRestart(w, os, cfg, id, slots, k, Numbers(w.dir, id, NAME_LIMIT));
  }

  lemma RestartCloses(w: World, os: nat -> WriteFate, cfg: Config, id: PairId, slots: nat, k: nat)
    requires PairInv(w.dir, cfg, id, k) && Complete(id) !in w.dir
    ensures var (w1, r) := Restart(w, os, id, slots, k);
            r.Returned? ==> ClosesAll(w.dir, w1.dir, id)
  {
    forall n: nat | LeftOpen(w.dir, id, n) ensures n == k {
      EarlierEnded(w.dir, cfg, id, k, n);
    }
  }

  /** The code under which a completed pair is not started again. */
  function CompleteCode(dir: Dir, cfg: Config, id: PairId): string {
    if Unreadable(dir, cfg, id) then "journal_unsafe" else "journal_pair_complete"
  }

  /** `start_attempt` keeps the invariant whatever happens; every terminal record it adds
      abandons an attempt that was open; and when it returns, all of those are abandoned
      and the next attempt has been started, with nothing yet recorded of its end. */
  lemma StartKeeps(w: World, os: nat -> WriteFate, cfg: Config, id: PairId, slots: nat, k: nat)
    requires PairInv(w.dir, cfg, id, k)
    ensures var (w1, r) := StartAttempt(w, os, cfg, id, slots);
            && Extends(w.dir, w1.dir, id)
            && (PairInv(w1.dir, cfg, id, k) || PairInv(w1.dir, cfg, id, k + 1))
            && (Complete(id) in w1.dir <==> Complete(id) in w.dir)
            && (Complete(id) in w.dir ==> w1 == w && r == Raised(CompleteCode(w.dir, cfg, id)))
            && (r.Returned? ==> r.value == k + 1 && PairInv(w1.dir, cfg, id, k + 1) && Unended(w1.dir, id, k + 1))
            && (k >= MAX_JOURNAL_ATTEMPTS && Complete(id) !in w.dir ==> w1 == w && r == Raised("journal_bound"))
            && StartAdds(w.dir, w1.dir, id, slots) && (r.Returned? ==> ClosesAll(w.dir, w1.dir, id))
  {
    LoadIsRecorded(w.dir, cfg, id, k);
    StartAttemptAdds(w, os, cfg, id, slots);
    if Complete(id) !in w.dir {
      if k < MAX_JOURNAL_ATTEMPTS {
        StartIsRestart(w, os, cfg, id, slots, k);
        RestartCloses(w, os, cfg, id, slots, k);
      }
      NumbersAreContiguous(w.dir, cfg, id, k, NAME_LIMIT);
      StartAfterKeeps(w, os, cfg, id, slots, k, Numbers(w.dir, id, NAME_LIMIT));
    }
  }

  lemma StartAfterKeeps(w: World, os: nat -> WriteFate, cfg: Config, id: PairId, slots: nat, k: nat, numbers: seq<nat>)
    requires PairInv(w.dir, cfg, id, k) && Complete(id) !in w.dir
    requires |numbers| == k && forall i :: 0 <= i < k ==> numbers[i] == i + 1
    ensures var (w1, r) := StartAfter(w, os, id, slots, numbers);
            && Extends(w.dir, w1.dir, id) && Complete(id) !in w1.dir
            && (PairInv(w1.dir, cfg, id, k) || PairInv(w1.dir, cfg, id, k + 1))
            && (r.Returned? ==> r.value == k + 1 && PairInv(w1.dir, cfg, id, k + 1) && Unended(w1.dir, id, k + 1))
            && (k >= MAX_JOURNAL_ATTEMPTS ==> w1 == w && r == Raised("journal_bound"))
  {
    if k < MAX_JOURNAL_ATTEMPTS {
      CloseOpenKeeps(w, os, cfg, id, k, numbers);
      var (w1, closed) := CloseOpen(w, os, id, numbers);
      if closed.Returned? {
        AllEnded(w1.dir, id, k, numbers);
        BeginKeeps(w1, os, cfg, id, slots, k);
        var w2 := Write(w1, os, Started(id, k + 1), StartRecord(slots)).0;
        ExtendsTransitive(w.dir, w1.dir, w2.dir, id);
      }
    }
  }

  lemma AllEnded(dir: Dir, id: PairId, k: nat, numbers: seq<nat>)
    requires |numbers| == k && forall i :: 0 <= i < k ==> numbers[i] == i + 1
    requires forall i :: 0 <= i < k ==> EndedOnce(dir, id, numbers[i])
    ensures forall n: nat :: 1 <= n <= k ==> EndedOnce(dir, id, n)
  {
    forall n: nat | 1 <= n <= k ensures EndedOnce(dir, id, n) {
      assert EndedOnce(dir, id, numbers[n - 1]);
    }
  }

  lemma BeginKeeps(w: World, os: nat -> WriteFate, cfg: Config, id: PairId, slots: nat, k: nat)
    requires PairInv(w.dir, cfg, id, k) && Complete(id) !in w.dir && k < MAX_JOURNAL_ATTEMPTS
    requires forall n: nat :: 1 <= n <= k ==> EndedOnce(w.dir, id, n)
    ensures var (w1, r) := Write(w, os, Started(id, k + 1), StartRecord(slots));
            && Extends(w.dir, w1.dir, id) && Complete(id) !in w1.dir
            && (PairInv(w1.dir, cfg, id, k) || PairInv(w1.dir, cfg, id, k + 1))
            && (r.Returned? ==> PairInv(w1.dir, cfg, id, k + 1) && Unended(w1.dir, id, k + 1))
  {
    var name := Started(id, k + 1);
    WriteExtends(w, os, name, StartRecord(slots));
    var w1 := Write(w, os, name, StartRecord(slots)).0;
    if w1.dir != w.dir {
      assert forall n: nat, how :: Closed(id, n, how) in w1.dir <==> Closed(id, n, how) in w.dir;
      assert forall n: nat :: EndedOnce(w1.dir, id, n) <==> EndedOnce(w.dir, id, n);
      assert PairInv(w1.dir, cfg, id, k + 1);
    }
  }

  /** What starting an attempt does to a sound directory. Failed and finished records are
      untouched; abandoned ones are added exactly for attempts that were open. */
  ghost predicate Begins(before: Dir, after: Dir, cfg: Config, id: PairId, slots: nat, r: Outcome<nat>) {
    && Extends(before, after, id) && (Complete(id) in after <==> Complete(id) in before)
    && (Complete(id) in before ==> after == before && r == Raised(CompleteCode(before, cfg, id)))
    && (r.Returned? ==> Underway(after, cfg, id, r.value) && Started(id, r.value) !in before)
    && StartAdds(before, after, id, slots) && (r.Returned? ==> ClosesAll(before, after, id))
    && (forall n: nat, how :: how != Abandoned ==> (Closed(id, n, how) in after <==> Closed(id, n, how) in before))
  }

  lemma StartBegins(w: World, os: nat -> WriteFate, cfg: Config, id: PairId, slots: nat)
    requires Inv(w.dir, cfg)
    ensures var (w1, r) := StartAttempt(w, os, cfg, id, slots);
            Begins(w.dir, w1.dir, cfg, id, slots, r) && Inv(w1.dir, cfg)
  {
    assert PairOk(w.dir, cfg, id);
    var k: nat :| PairInv(w.dir, cfg, id, k);
    StartKeeps(w, os, cfg, id, slots, k);
    InvOneMore(w.dir, StartAttempt(w, os, cfg, id, slots).0.dir, id, cfg, k);
  }

  lemma InvOneMore(before: Dir, after: Dir, id: PairId, cfg: Config, k: nat)
    requires Inv(before, cfg) && Extends(before, after, id)
    requires PairInv(after, cfg, id, k) || PairInv(after, cfg, id, k + 1)
    ensures Inv(after, cfg)
  {
    if PairInv(after, cfg, id, k) {
      InvExtends(before, after, id, cfg, k);
    } else {
      InvExtends(before, after, id, cfg, k + 1);
    }
  }

  /** What completing an attempt under way does. */
  ghost predicate Completes(before: Dir, after: Dir, cfg: Config, id: PairId, k: nat, pair: Pair, r: Outcome<()>) {
    && Extends(before, after, id) && PairInv(after, cfg, id, k)
    && (Complete(id) in after ==> after[Complete(id)].Envelope? && after[Complete(id)].pair == pair)
    && (r.Returned? ==> Complete(id) in after && Closed(id, k, Finished) in after)
    && (forall name :: name in after && name !in before ==> name == Complete(id) || name == Closed(id, k, Finished))
    && (Closed(id, k, Finished) in after ==> after[Closed(id, k, Finished)] == CloseRecord("finished"))
  }

  /** `complete_attempt` on the open attempt keeps the invariant; the envelope, if
      written, holds exactly the given pair. */
  lemma CompleteKeeps(w: World, os: nat -> WriteFate, cfg: Config, id: PairId, k: nat, pair: Pair)
    requires Underway(w.dir, cfg, id, k)
    ensures var (w1, r) := CompleteAttempt(w, os, cfg, id, k, pair);
            Completes(w.dir, w1.dir, cfg, id, k, pair, r)
  {
    if pair.attempt == k && cfg.validate(pair, id).Ok? {
      var envelope := Envelope(cfg.identity, cfg.sha(pair), pair);
      WriteExtends(w, os, Complete(id), envelope);
      var (w1, r) := Write(w, os, Complete(id), envelope);
      assert forall n: nat :: EndedOnce(w1.dir, id, n) <==> EndedOnce(w.dir, id, n);
      assert PairInv(w1.dir, cfg, id, k);
      if r.Returned? {
        var finished := Closed(id, k, Finished);
        WriteExtends(w1, os, finished, CloseRecord("finished"));
        var w2 := Write(w1, os, finished, CloseRecord("finished")).0;
        assert forall n: nat :: n != k ==> (EndedOnce(w2.dir, id, n) <==> EndedOnce(w1.dir, id, n));
        ExtendsTransitive(w.dir, w1.dir, w2.dir, id);
      }
    }
  }

  ghost predicate Failable(dir: Dir, cfg: Config, id: PairId, k: nat) {
    PairInv(dir, cfg, id, k) && k >= 1 && Closed(id, k, Abandoned) !in dir && Closed(id, k, Failed) !in dir
  }

  /** What failing an attempt does. */
  ghost predicate Fails(before: Dir, after: Dir, cfg: Config, id: PairId, k: nat, code: string, fate: WriteFate) {
    && Extends(before, after, id) && PairInv(after, cfg, id, k)
    && (Complete(id) in after <==> Complete(id) in before)
    && (Closed(id, k, Failed) in after <==> TakesEffect(fate))
    && (forall name :: name in after && name !in before ==>
          name == Closed(id, k, Failed) && after[name] == CloseRecord(code))
  }

  lemma FailKeeps(w: World, os: nat -> WriteFate, cfg: Config, id: PairId, k: nat, code: string)
    requires Failable(w.dir, cfg, id, k)
    ensures Fails(w.dir, FailAttempt(w, os, id, k, code).0.dir, cfg, id, k, code, os(w.tick))
  {
    var failed := Closed(id, k, Failed);
    WriteExtends(w, os, failed, CloseRecord(code));
    var w1 := FailAttempt(w, os, id, k, code).0;
    assert forall n: nat :: n != k ==> (EndedOnce(w1.dir, id, n) <==> EndedOnce(w.dir, id, n));
  }

  /** What concluding an attempt under way does. */
  ghost predicate Concludes(before: Dir, after: Dir, cfg: Config, id: PairId, k: nat, execution: Execution,
                            r: Outcome<Pair>)
  {
    && Extends(before, after, id) && PairInv(after, cfg, id, k)
    && (Complete(id) in after ==>
          execution.Built? && after[Complete(id)].Envelope? && after[Complete(id)].pair == execution.pair)
    && (r.Returned? ==> execution == Built(r.value) && Complete(id) in after)
    && (Closed(id, k, Failed) in after ==>
          !execution.Killed? && after[Closed(id, k, Failed)] == CloseRecord(FailureCode(cfg, id, k, execution)))
    && (r.Raised? ==> !execution.Killed? && r.code in {FailureCode(cfg, id, k, execution), "evidence_write"})
  }

  /** The code under which an attempt fails: that of the exception, of the pair check, or
      of the write that raised. */
  function FailureCode(cfg: Config, id: PairId, k: nat, execution: Execution): string
    requires !execution.Killed?
  {
    if execution.Threw? then execution.code
    else if execution.pair.attempt != k then "journal_pair"
    else if cfg.validate(execution.pair, id).Refused? then cfg.validate(execution.pair, id).code
    else "evidence_write"
  }

  /** Concluding an attempt keeps the invariant under every answer of the operating
      system; a returned pair is the one now on record. */
  lemma ConcludeKeeps(w: World, os: nat -> WriteFate, cfg: Config, id: PairId, k: nat, execution: Execution)
    requires Underway(w.dir, cfg, id, k)
    ensures var (w1, r) := Conclude(w, os, cfg, id, k, execution);
            Concludes(w.dir, w1.dir, cfg, id, k, execution, r)
  {
    match execution
    case Killed =>
    case Threw(code) => FailKeeps(w, os, cfg, id, k, code);
    case Built(pair) =>
      CompleteKeeps(w, os, cfg, id, k, pair);
      var (w1, r) := CompleteAttempt(w, os, cfg, id, k, pair);
      if r.Raised? {
        FailKeeps(w1, os, cfg, id, k, r.code);
        ExtendsTransitive(w.dir, w1.dir, FailAttempt(w1, os, id, k, r.code).0.dir, id);
      }
  }

  /** One attempt ends up both finished and failed exactly when its finished record
      was published by a write that then raised, and the failure record the handler
      writes in response took effect. */
  lemma DoubleTerminalIff(w: World, os: nat -> WriteFate, cfg: Config, id: PairId, k: nat, pair: Pair)
    requires Underway(w.dir, cfg, id, k)
    ensures var dir := Conclude(w, os, cfg, id, k, Built(pair)).0.dir;
            (Closed(id, k, Finished) in dir && Closed(id, k, Failed) in dir) <==>
            (pair.attempt == k && cfg.validate(pair, id).Ok? && os(w.tick) == Done
             && os(w.tick + 1).RaisedAfter? && TakesEffect(os(w.tick + 2)))
  {
    CompleteKeeps(w, os, cfg, id, k, pair);
    var (w1, r) := CompleteAttempt(w, os, cfg, id, k, pair);
    if r.Raised? {
      FailKeeps(w1, os, cfg, id, k, r.code);
    }
  }
}
