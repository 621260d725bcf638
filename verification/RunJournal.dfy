/** The journal as the object the source has: methods that add files to a directory,
    and the live loop that drives them. Each computes the corresponding function of
    modules Journal and LiveLoop, and each states what it keeps of a sound directory. */
module RunJournal {
  import opened Collections
  import opened Comparison
  import J = Journal
  import L = LiveLoop

  class RunJournal {
    var dir: J.Dir
    var tick: nat
    var litter: nat
    const cfg: J.Config
    const os: nat -> J.WriteFate

    constructor (world: J.World, cfg: J.Config, os: nat -> J.WriteFate)
      ensures World() == world && this.cfg == cfg && this.os == os
    {
      this.dir, this.tick, this.litter, this.cfg, this.os := world.dir, world.tick, world.litter, cfg, os;
    }

    /** The records, the writes answered so far and the transaction files left behind. */
    function World(): J.World
      reads this
    {
      J.World(dir, tick, litter)
    }

    /** The records of every pair are sound. */
    ghost predicate Valid()
      reads this
    {
      J.Inv(dir, cfg)
    }

    /** One record write. Nothing existing changes; the record is there afterwards exactly
        when it took effect under a free name, and a return means that it did. */
    method WriteExclusive(name: J.Name, record: J.Record) returns (r: J.Outcome<()>)
      modifies this
      ensures (World(), r) == J.Write(old(World()), os, name, record)
      ensures J.Extends(old(dir), dir, name.id)
      ensures forall other :: other in dir && other !in old(dir) ==> other == name && dir[name] == record
      ensures name in dir <==> name in old(dir) || J.TakesEffect(os(old(tick)))
      ensures r.Returned? ==> name !in old(dir) && name in dir && litter == old(litter)
    {
      var fate := os(tick);
      var absent := name !in dir;
      if absent && J.TakesEffect(fate) {
        dir := dir[name := record];
      }
      tick := tick + 1;
      if !fate.Done? && fate.litter {
        litter := litter + 1;
      }
      if fate.DiedBefore? || fate.DiedAfter? {
        return J.Dead;
      }
      return if fate.Done? && absent then J.Returned(()) else J.Raised("evidence_write");
    }

    /** The attempt numbers found in the listing of the directory. */
    method ListStarted(id: PairId, limit: nat) returns (numbers: seq<nat>)
      ensures numbers == J.Numbers(dir, id, limit)
    {
      numbers := [];
      for n := 0 to limit
        invariant numbers == J.Numbers(dir, id, n)
      {
        if J.Started(id, n) in dir {
          numbers := numbers + [n];
        }
      }
    }

    /** The loop of `start_attempt` over the earlier attempts. It only ever abandons listed
        attempts without a terminal record; if it returns, each has exactly one. */
    method CloseOpen(id: PairId, numbers: seq<nat>) returns (r: J.Outcome<()>)
      modifies this
      ensures (World(), r) == J.CloseOpen(old(World()), os, id, numbers)
      ensures J.OnlyAbandons(old(dir), dir, id, numbers)
      ensures r.Returned? ==> forall n :: n in numbers ==> J.Terminals(dir, id, n) == 1
    {
      J.CloseOpenAbandons(World(), os, id, numbers);
      var i := 0;
      assert numbers[0..] == numbers;
      while i < |numbers|
        invariant 0 <= i <= |numbers|
        invariant J.CloseOpen(World(), os, id, numbers[i..]) == J.CloseOpen(old(World()), os, id, numbers)
      {
        var n := numbers[i];
        assert numbers[i..][0] == n && numbers[i..][1..] == numbers[i + 1..];
        var terminals := J.Terminals(dir, id, n);
        if terminals > 1 {
          return J.Raised("journal_attempt");
        }
        if terminals == 0 {
          r := WriteExclusive(J.Closed(id, n, J.Abandoned), J.CloseRecord("abandoned"));
          if !r.Returned? {
            return;
          }
        }
        i := i + 1;
      }
      return J.Returned(());
    }

    /** On a sound journal: it stays sound whatever happens, only this pair gains records,
        a completed pair is refused, and a return starts the next attempt. */
    method StartAttempt(id: PairId, slots: nat) returns (r: J.Outcome<nat>)
      modifies this
      ensures (World(), r) == J.StartAttempt(old(World()), os, cfg, id, slots)
      ensures old(Valid()) ==> J.Begins(old(dir), dir, cfg, id, slots, r)
      ensures old(Valid()) ==> Valid()
    {
      ghost var before := World();
      var loaded := J.LoadCompleted(dir, cfg, id);
      if loaded.Refused? {
        r := J.Raised(loaded.code);
      } else if loaded.value.Some? {
        r := J.Raised("journal_pair_complete");
      } else {
        var numbers := ListStarted(id, J.NAME_LIMIT);
        r := StartAfter(id, slots, numbers);
      }
      assert (World(), r) == J.StartAttempt(before, os, cfg, id, slots);
      if J.Inv(before.dir, cfg) {
        J.StartBegins(before, os, cfg, id, slots);
      }
    }

    method StartAfter(id: PairId, slots: nat, numbers: seq<nat>) returns (r: J.Outcome<nat>)
      modifies this
      ensures (World(), r) == J.StartAfter(old(World()), os, id, slots, numbers)
    {
      if |numbers| >= J.MAX_JOURNAL_ATTEMPTS {
        return J.Raised("journal_bound");
      }
      var closed := CloseOpen(id, numbers);
      if closed.Raised? {
        return J.Raised(closed.code);
      }
      if closed.Dead? {
        return J.Dead;
      }
      var number := J.Last(numbers) + 1;
      if number > J.MAX_JOURNAL_ATTEMPTS {
        return J.Raised("journal_bound");
      }
      var written := WriteExclusive(J.Started(id, number), J.StartRecord(slots));
      return if written.Returned? then J.Returned(number)
             else if written.Raised? then J.Raised(written.code)
             else J.Dead;
    }

    /** On an attempt not yet failed or abandoned: the journal stays sound, the envelope is
        untouched, and the failure is on record exactly when its write took effect. */
    method FailAttempt(id: PairId, number: nat, code: string) returns (r: J.Outcome<()>)
      modifies this
      ensures (World(), r) == J.FailAttempt(old(World()), os, id, number, code)
      ensures J.Failable(old(dir), cfg, id, number) ==> J.Fails(old(dir), dir, cfg, id, number, code, os(old(tick)))
      ensures old(Valid()) && J.Failable(old(dir), cfg, id, number) ==> Valid()
    {
      ghost var before := World();
      r := WriteExclusive(J.Closed(id, number, J.Failed), J.CloseRecord(code));
      if J.Failable(before.dir, cfg, id, number) {
        J.FailKeeps(before, os, cfg, id, number, code);
        if J.Inv(before.dir, cfg) {
          J.InvExtends(before.dir, dir, id, cfg, number);
        }
      }
    }

    /** On the attempt under way: the journal stays sound, the envelope if written holds
        exactly the given pair, and a return means envelope and finished record are there. */
    method CompleteAttempt(id: PairId, number: nat, pair: Pair) returns (r: J.Outcome<()>)
      modifies this
      ensures (World(), r) == J.CompleteAttempt(old(World()), os, cfg, id, number, pair)
      ensures J.Underway(old(dir), cfg, id, number) ==> J.Completes(old(dir), dir, cfg, id, number, pair, r)
      ensures old(Valid()) && J.Underway(old(dir), cfg, id, number) ==> Valid()
    {
      ghost var before := World();
      if pair.attempt != number {
        r := J.Raised("journal_pair");
      } else {
        var verdict := cfg.validate(pair, id);
        if verdict.Refused? {
          r := J.Raised(verdict.code);
        } else {
          r := WriteExclusive(J.Complete(id), J.Envelope(cfg.identity, cfg.sha(pair), pair));
          if r.Returned? {
            r := WriteExclusive(J.Closed(id, number, J.Finished), J.CloseRecord("finished"));
          }
        }
      }
      assert (World(), r) == J.CompleteAttempt(before, os, cfg, id, number, pair);
      if J.Underway(before.dir, cfg, id, number) {
        J.CompleteKeeps(before, os, cfg, id, number, pair);
        if J.Inv(before.dir, cfg) {
          J.InvExtends(before.dir, dir, id, cfg, number);
        }
      }
    }

    /** The loop's `try` block around an executed attempt. On the attempt under way: the
        journal stays sound, an envelope holds the executed pair, and a returned pair is
        the one executed and now on record. */
    method Conclude(id: PairId, number: nat, execution: J.Execution) returns (r: J.Outcome<Pair>)
      modifies this
      ensures (World(), r) == J.Conclude(old(World()), os, cfg, id, number, execution)
      ensures J.Underway(old(dir), cfg, id, number) ==> J.Concludes(old(dir), dir, cfg, id, number, execution, r)
      ensures old(Valid()) && J.Underway(old(dir), cfg, id, number) ==> Valid()
    {
      ghost var before := World();
      r := Attempted(id, number, execution);
      if J.Underway(before.dir, cfg, id, number) {
        J.ConcludeKeeps(before, os, cfg, id, number, execution);
        if J.Inv(before.dir, cfg) {
          J.InvExtends(before.dir, dir, id, cfg, number);
        }
      }
    }

    method Attempted(id: PairId, number: nat, execution: J.Execution) returns (r: J.Outcome<Pair>)
      modifies this
      ensures (World(), r) == J.Conclude(old(World()), os, cfg, id, number, execution)
    {
      var code;
      match execution {
        case Killed =>
          return J.Dead;
        case Threw(thrown) =>
          code := thrown;
        case Built(pair) =>
          var completed := CompleteAttempt(id, number, pair);
          if completed.Returned? {
            return J.Returned(pair);
          }
          if completed.Dead? {
            return J.Dead;
          }
          code := completed.code;
      }
      var failed := FailAttempt(id, number, code);
      return if failed.Dead? then J.Dead else J.Raised(if failed.Returned? then code else failed.code);
    }

    /** One pair of the matrix. On a sound journal: a completed pair is only resumed, any
        other is launched at most once and only within the ceiling, and a return means its
        envelope is on record and its pair is the next of the ledger. */
    method Visit(life: L.Life, id: PairId, ledger: L.Ledger) returns (next: L.Ledger, r: J.Outcome<()>)
      requires os == life.os
      modifies this
      ensures (World(), next, r) == L.Visit(old(World()), life, cfg, id, ledger)
      ensures old(Valid()) && L.ChecksIdentity(cfg) ==>
                && Valid() && L.VisitSpec(old(World()), World(), id, ledger, next, r, cfg)
                && (next.executed != ledger.executed ==> ledger.charged + L.Slots(id) <= life.maximum)
    {
      ghost var before := World();
      next, r := Visited(life, id, ledger);
      if J.Inv(before.dir, cfg) && L.ChecksIdentity(cfg) {
        L.VisitKeeps(before, life, cfg, id, ledger);
      }
    }

    method Visited(life: L.Life, id: PairId, ledger: L.Ledger) returns (next: L.Ledger, r: J.Outcome<()>)
      requires os == life.os
      modifies this
      ensures (World(), next, r) == L.Visit(old(World()), life, cfg, id, ledger)
    {
      next := ledger;
      var loaded := J.LoadCompleted(dir, cfg, id);
      if loaded.Refused? {
        return next, J.Raised(loaded.code);
      }
      if loaded.value.Some? {
        if !L.InPosition(loaded.value.value, id) {
          return next, J.Raised("journal_pair");
        }
        next := next.(pairs := next.pairs + [loaded.value.value], resumed := next.resumed + 1);
        return next, J.Returned(());
      }
      if next.charged + L.Slots(id) > life.maximum {
        return next, J.Raised("maximum_runs");
      }
      var started := StartAttempt(id, L.Slots(id));
      if started.Raised? {
        return next, J.Raised(started.code);
      }
      if started.Dead? {
        return next, J.Dead;
      }
      next := next.(executed := next.executed + [id]);
      var concluded := Conclude(id, started.value, life.run(id, started.value));
      if concluded.Returned? {
        next := next.(pairs := next.pairs + [concluded.value], charged := next.charged + L.Slots(id));
        return next, J.Returned(());
      }
      return next, if concluded.Raised? then J.Raised(concluded.code) else J.Dead;
    }

    /** The live loop of `evaluate` over a list of pairs. On a sound journal: records are
        kept and completed pairs gain none, only uncompleted pairs are launched, within the
        ceiling, and a return has all pairs on record, in order, and counted. */
    method LiveLoop(life: L.Life, ids: seq<PairId>) returns (ledger: L.Ledger, r: J.Outcome<()>)
      requires os == life.os
      modifies this
      ensures (World(), ledger, r) == L.VisitAll(old(World()), life, cfg, ids, L.EMPTY)
      ensures old(Valid()) && L.ChecksIdentity(cfg) && Distinct(ids) ==>
                Valid() && L.LoopSpec(old(World()), World(), ids, L.EMPTY, ledger, r, cfg, life.maximum)
    {
      ghost var before := World();
      ledger, r := LoopAll(life, ids);
      if J.Inv(before.dir, cfg) && L.ChecksIdentity(cfg) && Distinct(ids) {
        L.LoopKeeps(before, life, cfg, ids, L.EMPTY);
      }
    }

    method LoopAll(life: L.Life, ids: seq<PairId>) returns (ledger: L.Ledger, r: J.Outcome<()>)
      requires os == life.os
      modifies this
      ensures (World(), ledger, r) == L.VisitAll(old(World()), life, cfg, ids, L.EMPTY)
    {
      ledger := L.EMPTY;
      var i := 0;
      assert ids[0..] == ids;
      while i < |ids|
        invariant 0 <= i <= |ids|
        invariant L.VisitAll(World(), life, cfg, ids[i..], ledger) == L.VisitAll(old(World()), life, cfg, ids, L.EMPTY)
      {
        assert ids[i..][0] == ids[i] && ids[i..][1..] == ids[i + 1..];
        ledger, r := Visit(life, ids[i], ledger);
        if !r.Returned? {
          return;
        }
        i := i + 1;
      }
      r := J.Returned(());
    }
  }
}
