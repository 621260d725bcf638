/** Link-style publication, one transition per system call: write a private staging
    file, sync and close it, link it to the final name, and drop the staging name. Any call may
    fail, `link` and `unlink` may fail after taking effect, other processes act
    between calls, and the process may die at any point. */
module LinkPublication {
  import opened FileSystem

  /** The three harnesses differ in how they clean up: the evaluation always drops a
      remaining staging file, the chaos harness only before publication, the release
      gate while it still holds the name. */
  datatype Variant = Evaluation | Chaos | Gate

  datatype Pc =
    | Opening | Writing | Syncing | Closing | Linking | SyncingLink | Dropping | SyncingDrop
    | Releasing | Cleaning | Returned | Raised | Dead

  /** An answer of the operating system; `n` matters to `write` only. */
  datatype Answer = Success(n: nat) | Failure | FailureAfter

  datatype Action = Call(answer: Answer) | Others(names: map<Name, Ino>) | Crash

  /** `failures` counts failed calls; `fault` is where the last one happened and
      `tookEffect` whether its effect was there all the same. */
  datatype State = State(fs: Fs, pc: Pc, failures: nat, fault: Pc, tookEffect: bool)

  predicate Ended(pc: Pc) { pc.Returned? || pc.Raised? || pc.Dead? }

  predicate Failed(answer: Answer) { !answer.Success? }

  function Fail(s: State, next: Pc, effect: bool): State {
    s.(pc := next, failures := s.failures + 1, fault := s.pc, tookEffect := effect)
  }

  /** Where a failure after the link leads. */
  function AfterLink(variant: Variant): Pc {
    if variant.Chaos? then Raised else Cleaning
  }

  /** A collision on the exclusive open: the evaluation opens outside its cleanup. */
  function AfterOpen(variant: Variant): Pc {
    if variant.Evaluation? then Raised else Cleaning
  }

  function Bind(s: State, name: Name, ino: Ino): State {
    s.(fs := s.fs.(names := s.fs.names[name := ino]))
  }

  function Drop(s: State, name: Name): State {
    s.(fs := s.fs.(names := Unbind(s.fs.names, name)))
  }

  /** One system call of the protocol. The cleanup first closes a descriptor that is still
      open, again if the close after the sync failed; when that raises, it is over. */
  function Step(variant: Variant, job: Job, s: State, answer: Answer): State {
    match s.pc
    case Opening =>
      if Failed(answer) || job.staging in s.fs.names then Fail(s, AfterOpen(variant), false)
      else Bind(s, job.staging, job.created).(pc := Writing)
    case Writing =>
      if |s.fs.data.content| >= |job.payload| then s.(pc := Syncing)
      else if Failed(answer) || answer.n == 0 then Fail(s, Releasing, false)
      else
        var from := |s.fs.data.content|;
        var to := if from + answer.n <= |job.payload| then from + answer.n else |job.payload|;
        s.(fs := s.fs.(data := s.fs.data.(content := s.fs.data.content + job.payload[from..to])))
    case Syncing =>
      if Failed(answer) then Fail(s, Releasing, false)
      else s.(fs := s.fs.(data := s.fs.data.(synced := true)), pc := Closing)
    case Closing => if Failed(answer) then Fail(s, Releasing, false) else s.(pc := Linking)
    case Linking =>
      if answer.Failure? || job.final in s.fs.names then Fail(s, Cleaning, false)
      else if answer.FailureAfter? then Fail(Bind(s, job.final, job.created), Cleaning, true)
      else Bind(s, job.final, job.created).(pc := SyncingLink)
    case SyncingLink =>
      if Failed(answer) then Fail(s, AfterLink(variant), false)
      else s.(fs := s.fs.(durable := s.fs.names), pc := Dropping)
    case Dropping =>
      if answer.Failure? then Fail(s, AfterLink(variant), false)
      else if answer.FailureAfter? then Fail(Drop(s, job.staging), AfterLink(variant), true)
      else Drop(s, job.staging).(pc := SyncingDrop)
    case SyncingDrop =>
      if Failed(answer) then Fail(s, if variant.Evaluation? then Cleaning else Raised, false)
      else s.(fs := s.fs.(durable := s.fs.names), pc := Returned)
    case Releasing => if Failed(answer) then Fail(s, Raised, false) else s.(pc := Cleaning)
    case Cleaning =>
      if answer.Failure? then Fail(s, Raised, job.staging !in s.fs.names) else Drop(s, job.staging).(pc := Raised)
    case _ => s
  }

  /** One transition of the whole system. A disallowed move of others is no move. */
  ghost function Next(variant: Variant, job: Job, s: State, action: Action): State {
    match action
    case Call(answer) => Step(variant, job, s, answer)
    case Others(names) => if OthersMay(s.fs.names, names, job) then s.(fs := s.fs.(names := names)) else s
    case Crash => if Ended(s.pc) then s else s.(pc := Dead)
  }

  ghost function Run(variant: Variant, job: Job, s: State, actions: seq<Action>): State {
    if actions == [] then s
    else Next(variant, job, Run(variant, job, s, actions[..|actions| - 1]), actions[|actions| - 1])
  }

  /** The inode does not exist yet; the staging name may already be someone else's. */
  ghost predicate Initial(s: State, job: Job) {
    && job.staging != job.final && s.pc == Opening && s.failures == 0
    && s.fs.data == Inode([], false, 0)
    && (forall n :: n in s.fs.names ==> s.fs.names[n] != job.created)
    && (forall n :: n in s.fs.durable ==> s.fs.durable[n] != job.created)
  }

  // ----- The invariant -----

  /** The staging name is certainly ours. */
  predicate Holding(pc: Pc) {
    pc.Writing? || pc.Syncing? || pc.Closing? || pc.Linking? || pc.SyncingLink? || pc.Dropping? || pc.Releasing?
  }

  predicate Synced(pc: Pc) { pc.Closing? || pc.Linking? || Linked(pc) }

  predicate Linked(pc: Pc) { pc.SyncingLink? || pc.Dropping? || pc.SyncingDrop? || pc.Returned? }

  predicate Whole(data: Inode, job: Job) { data.content == job.payload && data.synced }

  ghost predicate Inv(s: State, job: Job) {
    && job.staging != job.final
    && OnlyOurNames(s.fs.names, job) && OnlyOurNames(s.fs.durable, job)
    && s.fs.data.content <= job.payload
    && (Bound(s.fs, job.final, job.created) ==> Whole(s.fs.data, job))
    && (job.final in s.fs.durable && s.fs.durable[job.final] == job.created ==> Whole(s.fs.data, job))
    && (s.pc.Opening? ==> forall n :: n in s.fs.names ==> s.fs.names[n] != job.created)
    && (Holding(s.pc) ==> Bound(s.fs, job.staging, job.created))
    && (s.pc.Syncing? ==> s.fs.data.content == job.payload)
    && (Synced(s.pc) ==> Whole(s.fs.data, job))
    && ((s.pc.SyncingDrop? || s.pc.Returned?) ==> job.staging !in s.fs.names)
  }

  /** The calls that change which names are bound. */
  predicate Naming(pc: Pc) { pc.Opening? || pc.Linking? || pc.Dropping? || pc.Cleaning? }

  lemma NamingKeeps(variant: Variant, job: Job, s: State, answer: Answer)
    requires Inv(s, job) && Naming(s.pc)
    ensures Inv(Step(variant, job, s, answer), job)
  {
    match s.pc
    case Opening =>
    case Linking =>
    case Dropping =>
    case Cleaning =>
  }

  lemma OtherCallsKeep(variant: Variant, job: Job, s: State, answer: Answer)
    requires Inv(s, job) && !Naming(s.pc)
    ensures Inv(Step(variant, job, s, answer), job)
  {
  }

  lemma NextKeeps(variant: Variant, job: Job, s: State, action: Action)
    requires Inv(s, job)
    ensures Inv(Next(variant, job, s, action), job)
  {
    if action.Call? {
      if Naming(s.pc) {
        NamingKeeps(variant, job, s, action.answer);
      } else {
        OtherCallsKeep(variant, job, s, action.answer);
      }
    }
  }

  /** Atomicity: in every reachable state, whatever failed, whoever interfered and
      wherever the process died, the final name is bound to the created inode, live
      or on disk, only once that inode holds the whole synced payload. */
  lemma {:induction false} Atomic(variant: Variant, job: Job, s: State, actions: seq<Action>)
    requires Initial(s, job)
    ensures Inv(Run(variant, job, s, actions), job)
  {
    if actions == [] {
    } else {
      Atomic(variant, job, s, actions[..|actions| - 1]);
      NextKeeps(variant, job, Run(variant, job, s, actions[..|actions| - 1]), actions[|actions| - 1]);
    }
  }

  /** After a power loss each name keeps its last or its synced binding; neither shows
      a partial file under the final name. */
  lemma PowerLossSafe(variant: Variant, job: Job, s: State, actions: seq<Action>, survived: map<Name, Ino>)
    requires Initial(s, job)
    requires var fs := Run(variant, job, s, actions).fs;
             forall n :: n in survived ==>
               (n in fs.names && survived[n] == fs.names[n]) || (n in fs.durable && survived[n] == fs.durable[n])
    ensures job.final in survived && survived[job.final] == job.created ==>
              Whole(Run(variant, job, s, actions).fs.data, job)
  {
    Atomic(variant, job, s, actions);
  }

  /** No call of ours ever rebinds or removes an existing name other than the staging
      name: publication never replaces anything. */
  lemma NeverReplaces(variant: Variant, job: Job, s: State, answer: Answer)
    requires Inv(s, job)
    ensures KeepsBindings(s.fs.names, Step(variant, job, s, answer).fs.names, job)
  {
  }

  // ----- Undisturbed runs -----

  ghost predicate Undisturbed(actions: seq<Action>) {
    forall i :: 0 <= i < |actions| ==> !actions[i].Others?
  }

  /** What an undisturbed run has done to the final name and to the directory on disk: the
      final name is on disk before the staging name is dropped. */
  ghost predicate Faithful(s: State, start: State, job: Job) {
    && (if job.final in start.fs.names then Bound(s.fs, job.final, start.fs.names[job.final])
        else job.final in s.fs.names ==> s.fs.names[job.final] == job.created)
    && (Linked(s.pc) ==> Bound(s.fs, job.final, job.created))
    && (s.pc.Dropping? || s.pc.SyncingDrop? || s.pc.Returned? ==>
          job.final in s.fs.durable && s.fs.durable[job.final] == job.created)
    && (s.pc.Returned? ==> s.fs.durable == s.fs.names)
  }

  /** Without interference the write is all or nothing: an occupied final name is left
      as it was and refused; otherwise a return means the whole payload is on disk under
      it, and a refusal or a death means it is bound to the whole payload or not at all.
      This is the behaviour the run journal relies on. */
  lemma {:induction false} AllOrNothing(variant: Variant, job: Job, s: State, actions: seq<Action>)
    requires Initial(s, job) && Undisturbed(actions)
    ensures var end := Run(variant, job, s, actions);
            && Faithful(end, s, job)
            && (end.pc.Returned? ==> Bound(end.fs, job.final, job.created) && end.fs.durable == end.fs.names
                                     && Whole(end.fs.data, job) && job.final !in s.fs.names)
            && (job.final in s.fs.names ==> Bound(end.fs, job.final, s.fs.names[job.final]))
            && (job.final !in s.fs.names && job.final in end.fs.names ==>
                  Bound(end.fs, job.final, job.created) && Whole(end.fs.data, job))
  {
    Atomic(variant, job, s, actions);
    if actions != [] {
      var init := actions[..|actions| - 1];
      AllOrNothing(variant, job, s, init);
      Atomic(variant, job, s, init);
      assert !actions[|actions| - 1].Others?;
      FaithfulStep(variant, job, Run(variant, job, s, init), s, actions[|actions| - 1]);
    }
  }

  lemma FaithfulStep(variant: Variant, job: Job, s: State, start: State, action: Action)
    requires Inv(s, job) && Faithful(s, start, job) && !action.Others?
    requires forall n :: n in start.fs.names ==> start.fs.names[n] != job.created
    ensures Faithful(Next(variant, job, s, action), start, job)
  {
    if action.Call? {
      if Naming(s.pc) {
        FaithfulNaming(variant, job, s, start, action.answer);
      } else {
        FaithfulOther(variant, job, s, start, action.answer);
      }
    }
  }

  lemma FaithfulNaming(variant: Variant, job: Job, s: State, start: State, answer: Answer)
    requires Inv(s, job) && Faithful(s, start, job) && Naming(s.pc)
    requires forall n :: n in start.fs.names ==> start.fs.names[n] != job.created
    ensures Faithful(Step(variant, job, s, answer), start, job)
  {
    match s.pc
    case Opening =>
    case Linking =>
    case Dropping =>
    case Cleaning =>
  }

  lemma FaithfulOther(variant: Variant, job: Job, s: State, start: State, answer: Answer)
    requires Inv(s, job) && Faithful(s, start, job) && !Naming(s.pc)
    ensures Faithful(Step(variant, job, s, answer), start, job)
  {
  }

  // ----- What is left behind -----

  /** The failure came after the link and before the staging name was dropped. */
  predicate LeakPoint(s: State) {
    s.fault.SyncingLink? || (s.fault.Dropping? && !s.tookEffect)
  }

  /** The last failure is one that no unlink of the staging name follows. */
  predicate LeftBehind(s: State, variant: Variant) {
    s.fault.Releasing? || (s.fault.Cleaning? && !s.tookEffect) || (variant.Chaos? && LeakPoint(s))
  }

  ghost predicate Residue(s: State, job: Job, variant: Variant) {
    && (job.staging in s.fs.names ==> s.fs.names[job.staging] == job.created)
    && (s.failures == 0 ==> !s.pc.Releasing? && !s.pc.Cleaning? && !s.pc.Raised?)
    && (s.failures > 0 ==> s.pc.Releasing? || s.pc.Cleaning? || s.pc.Raised? || s.pc.Dead?)
    && (s.failures == 1 ==> !s.fault.Releasing? && !s.fault.Cleaning?)
    && (s.pc.Releasing? || s.pc.Cleaning? ==> !LeftBehind(s, variant))
    && (s.pc.Raised? ==> (job.staging in s.fs.names <==> LeftBehind(s, variant)))
  }

  lemma ResidueNaming(variant: Variant, job: Job, s: State, answer: Answer)
    requires Inv(s, job) && Residue(s, job, variant) && Naming(s.pc)
    ensures Residue(Step(variant, job, s, answer), job, variant)
  {
    match s.pc
    case Opening =>
    case Linking =>
    case Dropping =>
    case Cleaning =>
  }

  lemma ResidueOther(variant: Variant, job: Job, s: State, answer: Answer)
    requires Inv(s, job) && Residue(s, job, variant) && !Naming(s.pc)
    ensures Residue(Step(variant, job, s, answer), job, variant)
  {
  }

  lemma ResidueStep(variant: Variant, job: Job, s: State, action: Action)
    requires Inv(s, job) && Residue(s, job, variant)
    ensures Residue(Next(variant, job, s, action), job, variant)
  {
    if action.Call? {
      if Naming(s.pc) {
        ResidueNaming(variant, job, s, action.answer);
      } else {
        ResidueOther(variant, job, s, action.answer);
      }
    }
  }

  /** However many calls failed, a refusal leaves the staging file behind exactly when the
      last of them was the cleanup's own close or its unlink without effect, or, in the
      chaos harness, the directory sync after the link or the drop without effect. With one
      failed call that leaves only the chaos harness. */
  lemma {:induction false} StagingResidue(variant: Variant, job: Job, s: State, actions: seq<Action>)
    requires Initial(s, job) && job.staging !in s.fs.names
    ensures var end := Run(variant, job, s, actions);
            && Residue(end, job, variant)
            && (end.pc.Raised? && end.failures == 1 ==>
                  (job.staging in end.fs.names <==> variant.Chaos? && LeakPoint(end)))
  {
    if actions != [] {
      var init := actions[..|actions| - 1];
      StagingResidue(variant, job, s, init);
      Atomic(variant, job, s, init);
      ResidueStep(variant, job, Run(variant, job, s, init), actions[|actions| - 1]);
    }
  }

  lemma RunStep(variant: Variant, job: Job, s: State, actions: seq<Action>, last: Action)
    ensures Run(variant, job, s, actions + [last]) == Next(variant, job, Run(variant, job, s, actions), last)
  {
    assert (actions + [last])[..|actions|] == actions;
  }

  /** The staging file is written and synced; nothing has failed. */
  ghost predicate Prepared(end: State, start: State, job: Job) {
    && end.pc.Closing? && end.failures == 0 && Whole(end.fs.data, job)
    && end.fs.names == start.fs.names[job.staging := job.created]
  }

  /** Every variant gets there, whatever the payload. */
  lemma Prepare(variant: Variant, job: Job, s: State) returns (actions: seq<Action>)
    requires Initial(s, job) && job.staging !in s.fs.names
    ensures Undisturbed(actions) && Prepared(Run(variant, job, s, actions), s, job)
  {
    var ok := Call(Success(|job.payload|));
    actions := Fill(variant, job, s);
    actions := Then(variant, job, s, actions, ok, ok);
  }

  /** The staging file is opened and written in one go. */
  lemma Fill(variant: Variant, job: Job, s: State) returns (actions: seq<Action>)
    requires Initial(s, job) && job.staging !in s.fs.names
    ensures var end := Run(variant, job, s, actions);
            && Undisturbed(actions) && end.pc.Writing? && end.failures == 0 && end.fs.data.content == job.payload
            && end.fs.names == s.fs.names[job.staging := job.created]
  {
    var ok := Call(Success(|job.payload|));
    RunStep(variant, job, s, [], ok);
    actions := [] + [ok];
    if job.payload != [] {
      RunStep(variant, job, s, actions, ok);
      actions := actions + [ok];
      assert [] + job.payload[0..|job.payload|] == job.payload;
    }
  }

  /** From there two more calls, answered as given. */
  lemma Then(variant: Variant, job: Job, s: State, actions: seq<Action>, a: Action, b: Action)
      returns (longer: seq<Action>)
    requires Undisturbed(actions) && !a.Others? && !b.Others?
    ensures Undisturbed(longer)
    ensures Run(variant, job, s, longer) == Next(variant, job, Next(variant, job, Run(variant, job, s, actions), a), b)
  {
    RunStep(variant, job, s, actions, a);
    RunStep(variant, job, s, actions + [a], b);
    longer := actions + [a] + [b];
  }

  /** The chaos harness's leak happens for every payload: everything succeeds up to the
      directory sync after the link. */
  lemma ChaosLeaks(job: Job, s: State) returns (actions: seq<Action>)
    requires Initial(s, job) && job.staging !in s.fs.names && job.final !in s.fs.names
    ensures var end := Run(Chaos, job, s, actions);
            && end.pc.Raised? && end.failures == 1
            && Bound(end.fs, job.staging, job.created) && Bound(end.fs, job.final, job.created)
  {
    actions := Prepare(Chaos, job, s);
    actions := Then(Chaos, job, s, actions, Call(Success(1)), Call(Success(1)));
    RunStep(Chaos, job, s, actions, Call(Failure));
    actions := actions + [Call(Failure)];
  }

  /** When the close after the sync fails, the cleanup closes once more; when that fails
      too, every writer leaves its staging file, for every payload. */
  lemma CloseLeaks(variant: Variant, job: Job, s: State) returns (actions: seq<Action>)
    requires Initial(s, job) && job.staging !in s.fs.names
    ensures var end := Run(variant, job, s, actions);
            && Undisturbed(actions) && end.pc.Raised? && Bound(end.fs, job.staging, job.created)
            && (job.final in end.fs.names <==> job.final in s.fs.names)
  {
    actions := Prepare(variant, job, s);
    actions := Then(variant, job, s, actions, Call(Failure), Call(Failure));
  }

  /** A staging name that already belongs to someone else. */
  ghost predicate Collided(s: State, start: State, job: Job, variant: Variant)
    requires job.staging in start.fs.names
  {
    && !Holding(s.pc) && !Linked(s.pc)
    && (s.pc.Opening? ==> s.failures == 0) && (s.pc.Cleaning? ==> !variant.Evaluation? && s.failures == 1)
    && (s.pc.Raised? ==> s.failures >= 1)
    && (if s.pc.Raised? && !variant.Evaluation? && s.failures == 1 then job.staging !in s.fs.names
        else Bound(s.fs, job.staging, start.fs.names[job.staging]))
  }

  /** A collision is always refused. The evaluation leaves the foreign file alone; the
      other two clean up by name and have removed it exactly when they raise after a
      cleanup that did not fail. */
  lemma {:induction false} StagingCollision(variant: Variant, job: Job, s: State, actions: seq<Action>)
    requires Initial(s, job) && job.staging in s.fs.names
    ensures Collided(Run(variant, job, s, actions), s, job, variant)
  {
    if actions != [] {
      StagingCollision(variant, job, s, actions[..|actions| - 1]);
    }
  }

  /** They do remove it when the cleanup succeeds. */
  lemma ForeignStagingRemoved(variant: Variant, job: Job, s: State)
    requires Initial(s, job) && job.staging in s.fs.names && !variant.Evaluation?
    ensures var end := Run(variant, job, s, [Call(Success(1)), Call(Success(1))]);
            end.pc.Raised? && job.staging !in end.fs.names
  {
    var a1 := [Call(Success(1))];
    assert a1[..0] == [] && [Call(Success(1)), Call(Success(1))][..1] == a1;
    assert Run(variant, job, s, a1).pc == Cleaning;
  }

  // ----- Progress -----

  ghost predicate Succeeding(actions: seq<Action>) {
    forall i :: 0 <= i < |actions| ==> actions[i].Call? && actions[i].answer.Success? && actions[i].answer.n >= 1
  }

  /** Nothing has failed, and nothing is in the way. */
  ghost predicate Smooth(s: State, job: Job) {
    && !s.pc.Releasing? && !s.pc.Cleaning? && !s.pc.Raised? && !s.pc.Dead?
    && |s.fs.data.content| <= |job.payload|
    && (s.pc.Opening? ==> job.staging !in s.fs.names && s.fs.data.content == [])
    && (s.pc.Opening? || s.pc.Writing? || s.pc.Syncing? || s.pc.Closing? || s.pc.Linking? ==>
          job.final !in s.fs.names)
  }

  /** How many successful calls are still needed at most. */
  function Remaining(s: State, job: Job): int {
    match s.pc
    case Opening => 8 + |job.payload|
    case Writing => 7 + |job.payload| - |s.fs.data.content|
    case Syncing => 6
    case Closing => 5
    case Linking => 4
    case SyncingLink => 3
    case Dropping => 2
    case SyncingDrop => 1
    case _ => 0
  }

  lemma SmoothStep(variant: Variant, job: Job, s: State, n: nat)
    requires Smooth(s, job) && job.staging != job.final && n >= 1
    ensures var next := Step(variant, job, s, Success(n));
            && Smooth(next, job) && (Remaining(s, job) > 0 ==> Remaining(next, job) < Remaining(s, job))
            && (Remaining(s, job) <= 0 ==> next.pc.Returned?)
  {
  }

  lemma {:induction false} SmoothRun(variant: Variant, job: Job, s: State, actions: seq<Action>)
    requires Initial(s, job) && job.staging !in s.fs.names && job.final !in s.fs.names && Succeeding(actions)
    ensures var end := Run(variant, job, s, actions);
            Smooth(end, job) && (Remaining(end, job) <= 0 || Remaining(end, job) <= 8 + |job.payload| - |actions|)
  {
    if actions != [] {
      var init, last := actions[..|actions| - 1], actions[|actions| - 1];
      SmoothRun(variant, job, s, init);
      assert last.Call? && last.answer.Success?;
      SmoothStep(variant, job, Run(variant, job, s, init), last.answer.n);
    }
  }

  /** Undisturbed and without failures the write returns, however short its writes. */
  lemma Progress(variant: Variant, job: Job, s: State, actions: seq<Action>)
    requires Initial(s, job) && job.staging !in s.fs.names && job.final !in s.fs.names && Succeeding(actions)
    requires |actions| >= 8 + |job.payload|
    ensures Run(variant, job, s, actions).pc.Returned?
  {
    SmoothRun(variant, job, s, actions);
    var end := Run(variant, job, s, actions);
    assert Remaining(end, job) <= 0;
  }
}
