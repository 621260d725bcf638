/** The run journal treats one exclusive write as a single step with a fate. This module
    shows that those fates are exactly what the evaluation's writer can do, call by call:
    every ended run of the writer is one fate, and every fate is met by a run. */
module WriteFates {
  import F = FileSystem
  import L = LinkPublication
  import J = Journal

  /** The ended run left what this fate makes of the write: the same name present, the same
      transaction file left behind, the same outcome. */
  ghost predicate Agrees(end: L.State, job: F.Job, w: J.World, name: J.Name, record: J.Record, fate: J.WriteFate) {
    var (w1, r) := J.Write(w, (t: nat) => fate, name, record);
    && L.Ended(end.pc)
    && (name in w1.dir <==> job.final in end.fs.names)
    && w1.litter == w.litter + (if job.staging in end.fs.names then 1 else 0)
    && (r.Returned? <==> end.pc.Returned?) && (r.Raised? <==> end.pc.Raised?) && (r.Dead? <==> end.pc.Dead?)
  }

  /** The fate of an ended run. */
  function FateOf(end: L.State, job: F.Job): J.WriteFate {
    var litter := job.staging in end.fs.names;
    var effect := F.Bound(end.fs, job.final, job.created);
    if end.pc.Returned? then J.Done
    else if end.pc.Raised? then if effect then J.RaisedAfter(litter) else J.RaisedBefore(litter)
    else if effect then J.DiedAfter(litter) else J.DiedBefore(litter)
  }

  /** Every ended run that nobody disturbed is one write of the journal under its fate,
      whether the record's name was free or taken. */
  lemma RunIsFate(job: F.Job, s: L.State, actions: seq<L.Action>, w: J.World, name: J.Name, record: J.Record)
    requires L.Initial(s, job) && job.staging !in s.fs.names && (job.final in s.fs.names <==> name in w.dir)
    requires L.Undisturbed(actions) && L.Ended(L.Run(L.Evaluation, job, s, actions).pc)
    ensures var end := L.Run(L.Evaluation, job, s, actions);
            Agrees(end, job, w, name, record, FateOf(end, job))
  {
    L.AllOrNothing(L.Evaluation, job, s, actions);
    L.Atomic(L.Evaluation, job, s, actions);
  }

  /** Every fate is met by a run, whether the record's name was free or taken. */
  lemma FateIsRun(job: F.Job, s: L.State, w: J.World, name: J.Name, record: J.Record, fate: J.WriteFate)
      returns (actions: seq<L.Action>)
    requires L.Initial(s, job) && job.staging !in s.fs.names && (job.final in s.fs.names <==> name in w.dir)
    ensures L.Undisturbed(actions) && Agrees(L.Run(L.Evaluation, job, s, actions), job, w, name, record, fate)
  {
    if name !in w.dir && J.TakesEffect(fate) {
      actions := Effective(job, s, fate);
    } else {
      actions := Ineffective(job, s, fate.DiedBefore? || fate.DiedAfter?, !fate.Done? && fate.litter);
    }
  }

  /** Runs that leave the final name as it was, by a death or a refusal, with or without
      the transaction file. */
  lemma Ineffective(job: F.Job, s: L.State, dies: bool, litter: bool) returns (actions: seq<L.Action>)
    requires L.Initial(s, job) && job.staging !in s.fs.names
    ensures var end := L.Run(L.Evaluation, job, s, actions);
            && L.Undisturbed(actions) && (if dies then end.pc.Dead? else end.pc.Raised?)
            && (job.staging in end.fs.names <==> litter) && (job.final in end.fs.names <==> job.final in s.fs.names)
  {
    if litter && !dies {
      actions := L.CloseLeaks(L.Evaluation, job, s);
    } else {
      actions := if litter then [L.Call(L.Success(1))] else [];
      if litter {
        L.RunStep(L.Evaluation, job, s, [], L.Call(L.Success(1)));
        assert [] + actions == actions;
      }
      var last := if dies then L.Crash else L.Call(L.Failure);
      L.RunStep(L.Evaluation, job, s, actions, last);
      actions := actions + [last];
    }
  }

  /** The record is linked, and the transaction file still there. */
  ghost predicate Linked(s: L.State, job: F.Job) {
    s.pc.SyncingLink? && job.final in s.fs.names && job.staging in s.fs.names && job.staging != job.final
  }

  lemma Link(job: F.Job, s: L.State) returns (actions: seq<L.Action>)
    requires L.Initial(s, job) && job.staging !in s.fs.names && job.final !in s.fs.names
    ensures L.Undisturbed(actions) && Linked(L.Run(L.Evaluation, job, s, actions), job)
  {
    actions := L.Prepare(L.Evaluation, job, s);
    actions := L.Then(L.Evaluation, job, s, actions, L.Call(L.Success(1)), L.Call(L.Success(1)));
  }

  /** The two calls after the link, answered with success, drop the transaction file. */
  lemma Dropped(job: F.Job, s: L.State)
    requires Linked(s, job)
    ensures var ok := L.Call(L.Success(1));
            var s2 := L.Next(L.Evaluation, job, L.Next(L.Evaluation, job, s, ok), ok);
            s2.pc.SyncingDrop? && job.final in s2.fs.names && job.staging !in s2.fs.names
  {
  }

  /** A directory sync that fails leads to the cleanup. */
  lemma CleanedUp(job: F.Job, s: L.State, litter: bool)
    requires Linked(s, job)
    ensures var cleaned := L.Call(if litter then L.Failure else L.Success(1));
            var s2 := L.Next(L.Evaluation, job, L.Next(L.Evaluation, job, s, L.Call(L.Failure)), cleaned);
            s2.pc.Raised? && job.final in s2.fs.names && (job.staging in s2.fs.names <==> litter)
  {
  }

  /** Runs that publish the record, by a return, a refusal or a death. */
  lemma Effective(job: F.Job, s: L.State, fate: J.WriteFate) returns (actions: seq<L.Action>)
    requires L.Initial(s, job) && job.staging !in s.fs.names && job.final !in s.fs.names && J.TakesEffect(fate)
    ensures var end := L.Run(L.Evaluation, job, s, actions);
            && L.Undisturbed(actions) && job.final in end.fs.names
            && (job.staging in end.fs.names <==> !fate.Done? && fate.litter)
            && (if fate.Done? then end.pc.Returned? else if fate.RaisedAfter? then end.pc.Raised? else end.pc.Dead?)
  {
    actions := Link(job, s);
    var linked := L.Run(L.Evaluation, job, s, actions);
    if fate.RaisedAfter? {
      CleanedUp(job, linked, fate.litter);
      var cleaned := L.Call(if fate.litter then L.Failure else L.Success(1));
      actions := L.Then(L.Evaluation, job, s, actions, L.Call(L.Failure), cleaned);
    } else {
      if fate.Done? || !fate.litter {
        Dropped(job, linked);
        actions := L.Then(L.Evaluation, job, s, actions, L.Call(L.Success(1)), L.Call(L.Success(1)));
      }
      var last := if fate.Done? then L.Call(L.Success(1)) else L.Crash;
      L.RunStep(L.Evaluation, job, s, actions, last);
      actions := actions + [last];
    }
  }
}
