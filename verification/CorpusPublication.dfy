/** The corpus harness's publication: stage, link, drop the staging name, read the
    final file back through a fresh descriptor, and roll everything back by identity
    on any refusal. One transition per system call; an identity check followed by an
    unlink is one call. Once the file is public, other processes may also write it. */
module CorpusPublication {
  import opened Collections
  import opened FileSystem

  datatype Pc =
    | Opening | Identifying | Writing | Checking | Linking | Reconciling | Dropping | SyncingDir
    | OpeningFinal | Inspecting | Reading | Rechecking
    | CleaningStaging | CleaningFinal | CleaningSync | Returned | Refused | Dead

  /** `n` is how much of the payload a failing write got out; `nameExists` says that the
      error is FileExistsError. */
  datatype Answer = Success | Failure(n: nat) | FailureAfter(nameExists: bool)

  datatype Action = Call(answer: Answer) | Others(names: map<Name, Ino>, scribble: Scribble) | Crash

  datatype Scribble = Nothing | Overwrite(content: seq<Byte>)

  /** What `fstat` shows of the created inode. */
  datatype Snapshot = Snapshot(links: nat, size: nat, version: nat)

  /** The function's variables: whether it still holds a staging name whose file it has
      identified, whether it knows the file to be published, the inode its final descriptor
      is open on, the first `fstat` and the bytes read through it, and the cleanup verdict.
      `unidentified` records that the staging file was created but not identified;
      `ambiguous` and `missed` record the two ways a completed link goes unnoticed;
      `failures` and `cleanupFailures` count failed calls before and during cleanup. */
  datatype State = State(fs: Fs, pc: Pc, local: Local, report: Report)

  datatype Local = Local(staging: bool, published: bool, fd: Ino, seen: Snapshot, read: seq<Byte>)

  datatype Report = Report(
    cleanup: bool, unidentified: bool, ambiguous: bool, missed: bool, failures: nat, cleanupFailures: nat)

  /** `sha` is the digest the read-back is compared by. */
  datatype Task = Task(job: Job, sha: seq<Byte> -> nat)

  function Stat(s: State, job: Job): Snapshot {
    Snapshot(LinkCount(s.fs.names, job.created), |s.fs.data.content|, s.fs.data.version)
  }

  function Fail(s: State): State {
    s.(pc := CleaningStaging, report := s.report.(failures := s.report.failures + 1))
  }

  /** A link whose effect is not yet known. */
  function Unclear(s: State): State {
    s.(pc := Reconciling, report := s.report.(failures := s.report.failures + 1))
  }

  function Unnamed(s: State): State {
    s.(report := s.report.(unidentified := true))
  }

  function Overlooked(s: State, ambiguous: bool, missed: bool): State {
    s.(report := s.report.(ambiguous := ambiguous, missed := missed))
  }

  /** A cleanup call failed; the cleanup goes on. */
  function Incomplete(s: State, next: Pc): State {
    s.(pc := next, report := s.report.(cleanup := false, cleanupFailures := s.report.cleanupFailures + 1))
  }

  function Refuse(s: State): State {
    s.(pc := CleaningStaging)
  }

  function Rename(s: State, names: map<Name, Ino>): State {
    s.(fs := s.fs.(names := names))
  }

  function Publish(s: State, job: Job): State {
    Rename(s, s.fs.names[job.final := job.created])
  }

  /** Removes `name` only if it is bound to the created inode. */
  function UnlinkOurs(s: State, name: Name, job: Job): State {
    if Bound(s.fs, name, job.created) then Rename(s, Unbind(s.fs.names, name)) else s
  }

  /** One system call, up to the drop of the staging name. */
  function StageStep(job: Job, s: State, answer: Answer): State {
    match s.pc
    case Opening =>
      if !answer.Success? then Fail(s)
      else Rename(s, s.fs.names[job.staging := job.created]).(pc := Identifying)
    case Identifying =>
      if answer.Success? then s.(local := s.local.(staging := true), pc := Writing)
      else Unnamed(Fail(s))
    case Writing =>
      if answer.Success? then s.(fs := s.fs.(data := Inode(job.payload, true, 1)), pc := Checking)
      else
        var n := if answer.Failure? && answer.n < |job.payload| then answer.n else |job.payload|;
        Fail(s.(fs := s.fs.(data := Inode(job.payload[..n], false, 1))))
    case Checking =>
      if !answer.Success? then Fail(s)
      else if Stat(s, job).links != 1 || Stat(s, job).size != |job.payload| then Refuse(s)
      else s.(pc := Linking)
    case Linking =>
      var free := job.final !in s.fs.names;
      if answer.Success? then
        if free then Publish(s, job).(local := s.local.(published := true), pc := Dropping) else Fail(s)
      else if answer.Failure? then Unclear(s)
      else
        var linked := if free then Publish(s, job) else s;
        if answer.nameExists then Overlooked(Fail(linked), free, false)
        else Unclear(linked)
    case Reconciling =>
      if answer.Success? then Refuse(s.(local := s.local.(published := Bound(s.fs, job.final, job.created))))
      else Overlooked(Fail(s), false, Bound(s.fs, job.final, job.created))
    case Dropping =>
      if answer.Failure? then Fail(s)
      else
        var dropped := Rename(s, Unbind(s.fs.names, job.staging));
        if answer.Success? then dropped.(local := s.local.(staging := false), pc := SyncingDir) else Fail(dropped)
    case _ => s
  }

  /** The read-back of the published file. */
  function VerifyStep(task: Task, s: State, answer: Answer): State {
    var job := task.job;
    match s.pc
    case SyncingDir =>
      if !answer.Success? then Fail(s) else s.(fs := s.fs.(durable := s.fs.names), pc := OpeningFinal)
    case OpeningFinal =>
      if !answer.Success? then Fail(s)
      else if job.final !in s.fs.names then Refuse(s)
      else s.(local := s.local.(fd := s.fs.names[job.final]), pc := Inspecting)
    case Inspecting =>
      if !answer.Success? then Fail(s) else s.(local := s.local.(seen := Stat(s, job)), pc := Reading)
    case Reading =>
      if !answer.Success? then Fail(s) else s.(local := s.local.(read := s.fs.data.content), pc := Rechecking)
    case Rechecking =>
      if !answer.Success? then Fail(s)
      else if s.local.fd != job.created || Stat(s, job) != s.local.seen || s.local.seen.links != 1
              || |s.local.read| != |job.payload| || task.sha(s.local.read) != task.sha(job.payload) then Refuse(s)
      else s.(pc := Returned)
    case _ => s
  }

  /** The rollback after a refusal. */
  function CleanStep(job: Job, s: State, answer: Answer): State {
    match s.pc
    case CleaningStaging =>
      if !s.local.staging then s.(pc := CleaningFinal)
      else if answer.Success? then UnlinkOurs(s, job.staging, job).(pc := CleaningFinal)
      else
        var tried := if answer.FailureAfter? then UnlinkOurs(s, job.staging, job) else s;
        Incomplete(tried, CleaningFinal)
    case CleaningFinal =>
      if !s.local.published then s.(pc := CleaningSync)
      else if answer.Success? then UnlinkOurs(s, job.final, job).(pc := CleaningSync)
      else
        var tried := if answer.FailureAfter? then UnlinkOurs(s, job.final, job) else s;
        Incomplete(tried, CleaningSync)
    case CleaningSync =>
      if answer.Success? then s.(fs := s.fs.(durable := s.fs.names), pc := Refused)
      else Incomplete(s, Refused)
    case _ => s
  }

  function Step(task: Task, s: State, answer: Answer): State {
    if Staging(s.pc) then StageStep(task.job, s, answer)
    else if AfterDrop(s.pc) then VerifyStep(task, s, answer)
    else CleanStep(task.job, s, answer)
  }

  predicate Ended(pc: Pc) { pc.Returned? || pc.Refused? || pc.Dead? }

  /** Others rename as they may; once the created inode is public they may write it. */
  ghost predicate OthersAllowed(s: State, action: Action, job: Job)
    requires action.Others?
  {
    && OthersMay(s.fs.names, action.names, job) && !Ended(s.pc)
    && (action.scribble.Overwrite? ==> Bound(s.fs, job.final, job.created))
  }

  ghost function Next(task: Task, s: State, action: Action): State {
    match action
    case Call(answer) => Step(task, s, answer)
    case Crash => if Ended(s.pc) then s else s.(pc := Dead)
    case Others(names, scribble) =>
      if !OthersAllowed(s, action, task.job) then s
      else
        var moved := Rename(s, names);
        if scribble.Nothing? then moved
        else moved.(fs := moved.fs.(data := Inode(scribble.content, false, s.fs.data.version + 1)))
  }

  ghost function Run(task: Task, s: State, actions: seq<Action>): State {
    if actions == [] then s else Next(task, Run(task, s, actions[..|actions| - 1]), actions[|actions| - 1])
  }

  /** The staging name is one the retry loop found unused. */
  ghost predicate Initial(s: State, job: Job) {
    && job.staging != job.final && job.staging !in s.fs.names && s.pc == Opening
    && !s.local.staging && !s.local.published && s.report == Report(true, false, false, false, 0, 0)
    && (forall n :: n in s.fs.names ==> s.fs.names[n] != job.created)
    && (forall n :: n in s.fs.durable ==> s.fs.durable[n] != job.created)
  }

  // ----- The invariant -----

  predicate BeforeLink(pc: Pc) { pc.Writing? || pc.Checking? || pc.Linking? }

  predicate Staging(pc: Pc) { pc.Opening? || pc.Identifying? || Holding(pc) }

  predicate Holding(pc: Pc) { BeforeLink(pc) || pc.Reconciling? || pc.Dropping? }

  predicate AfterDrop(pc: Pc) {
    pc.SyncingDir? || pc.OpeningFinal? || pc.Inspecting? || pc.Reading? || pc.Rechecking? || pc.Returned?
  }

  predicate Cleaning(pc: Pc) { pc.CleaningStaging? || pc.CleaningFinal? || pc.CleaningSync? || pc.Refused? }

  /** Which names the created inode can still have, by program point. */
  ghost predicate NamesInv(s: State, job: Job) {
    && job.staging != job.final && OnlyOurNames(s.fs.names, job)
    && (job.staging in s.fs.names ==> s.fs.names[job.staging] == job.created)
    && (job.staging in s.fs.names ==> s.local.staging || s.pc.Identifying? || s.pc.Dead? || s.report.unidentified)
    && (s.report.unidentified ==> job.staging in s.fs.names && !s.local.staging)
    && (s.pc.Opening? || s.pc.Identifying? ==>
          !s.local.staging && !s.local.published && !Bound(s.fs, job.final, job.created))
    && (s.pc.Opening? ==> job.staging !in s.fs.names) && (s.pc.Identifying? ==> job.staging in s.fs.names)
    && (Holding(s.pc) ==> s.local.staging && job.staging in s.fs.names)
    && (BeforeLink(s.pc) ==> !s.local.published && !Bound(s.fs, job.final, job.created))
    && (AfterDrop(s.pc) ==> !s.local.staging && s.local.published) && (s.pc.Dropping? ==> s.local.published)
    && (s.pc.Reconciling? ==> !s.local.published)
    && (Cleaning(s.pc) && Bound(s.fs, job.final, job.created) ==>
          s.local.published || s.report.ambiguous || s.report.missed)
    && ((s.pc.CleaningFinal? || s.pc.CleaningSync? || s.pc.Refused?) && s.report.cleanup ==>
          (job.staging in s.fs.names <==> s.report.unidentified))
    && ((s.pc.CleaningSync? || s.pc.Refused?) && s.report.cleanup && Bound(s.fs, job.final, job.created) ==>
          s.report.ambiguous || s.report.missed)
  }

  /** How the failure counters explain the flags. */
  ghost predicate CountInv(s: State) {
    && (s.report.cleanup <==> s.report.cleanupFailures == 0)
    && (s.report.ambiguous ==> s.report.failures >= 1) && (s.report.missed ==> s.report.failures >= 2)
    && (!Cleaning(s.pc) && !s.pc.Dead? ==> s.report.failures == if s.pc.Reconciling? then 1 else 0)
    && (!Cleaning(s.pc) && !s.pc.Dead? ==>
          s.report.cleanup && !s.report.unidentified && !s.report.ambiguous && !s.report.missed)
  }

  /** What the read-back established: while the version stands still, the bytes read
      are the bytes stored. */
  ghost predicate ReadInv(s: State, task: Task) {
    && (s.pc.Reading? || s.pc.Rechecking? ==> s.local.seen.version <= s.fs.data.version)
    && (s.pc.Rechecking? && s.local.seen.version == s.fs.data.version ==> s.local.read == s.fs.data.content)
    && (s.pc.Returned? ==>
          && Bound(s.fs, task.job.final, task.job.created) && LinkCount(s.fs.names, task.job.created) == 1
          && |s.fs.data.content| == |task.job.payload| && task.sha(s.fs.data.content) == task.sha(task.job.payload))
  }

  lemma StageNames(job: Job, s: State, answer: Answer)
    requires NamesInv(s, job) && CountInv(s) && Staging(s.pc)
    ensures NamesInv(StageStep(job, s, answer), job)
  {
    if s.pc.Linking? || s.pc.Reconciling? || s.pc.Dropping? {
      PublishNames(job, s, answer);
    } else {
      PrepareNames(job, s, answer);
    }
  }

  lemma PrepareNames(job: Job, s: State, answer: Answer)
    requires NamesInv(s, job) && CountInv(s) && Staging(s.pc) && !s.pc.Linking? && !s.pc.Reconciling? && !s.pc.Dropping?
    ensures NamesInv(StageStep(job, s, answer), job)
  {
    match s.pc
    case Opening =>
    case Identifying =>
    case Writing =>
    case Checking =>
  }

  lemma PublishNames(job: Job, s: State, answer: Answer)
    requires NamesInv(s, job) && CountInv(s) && (s.pc.Linking? || s.pc.Reconciling? || s.pc.Dropping?)
    ensures NamesInv(StageStep(job, s, answer), job)
  {
    match s.pc
    case Linking =>
    case Reconciling =>
    case Dropping =>
  }

  lemma VerifyNames(task: Task, s: State, answer: Answer)
    requires NamesInv(s, task.job) && CountInv(s) && AfterDrop(s.pc)
    ensures NamesInv(VerifyStep(task, s, answer), task.job)
  {
    match s.pc
    case SyncingDir =>
    case OpeningFinal =>
    case Inspecting =>
    case Reading =>
    case Rechecking =>
    case _ =>
  }

  lemma CleanNames(job: Job, s: State, answer: Answer)
    requires NamesInv(s, job) && CountInv(s) && !Staging(s.pc) && !AfterDrop(s.pc)
    ensures NamesInv(CleanStep(job, s, answer), job)
  {
    if s.pc.CleaningStaging? {
      CleanStagingNames(job, s, answer);
    } else if s.pc.CleaningFinal? {
      CleanFinalNames(job, s, answer);
    }
  }

  lemma CleanStagingNames(job: Job, s: State, answer: Answer)
    requires NamesInv(s, job) && s.pc.CleaningStaging?
    ensures NamesInv(CleanStep(job, s, answer), job)
  {
  }

  lemma CleanFinalNames(job: Job, s: State, answer: Answer)
    requires NamesInv(s, job) && s.pc.CleaningFinal?
    ensures NamesInv(CleanStep(job, s, answer), job)
  {
  }

  lemma NamesNext(task: Task, s: State, action: Action)
    requires NamesInv(s, task.job) && CountInv(s)
    ensures NamesInv(Next(task, s, action), task.job)
  {
    if action.Call? {
      if Staging(s.pc) {
        StageNames(task.job, s, action.answer);
      } else if AfterDrop(s.pc) {
        VerifyNames(task, s, action.answer);
      } else {
        CleanNames(task.job, s, action.answer);
      }
    }
  }

  lemma StageCount(job: Job, s: State, answer: Answer)
    requires CountInv(s) && Staging(s.pc)
    ensures CountInv(StageStep(job, s, answer))
  {
    match s.pc
    case Opening =>
    case Identifying =>
    case Writing =>
    case Checking =>
    case Linking =>
    case Reconciling =>
    case Dropping =>
    case _ =>
  }

  lemma VerifyCount(task: Task, s: State, answer: Answer)
    requires CountInv(s) && AfterDrop(s.pc)
    ensures CountInv(VerifyStep(task, s, answer))
  {
    match s.pc
    case SyncingDir =>
    case OpeningFinal =>
    case Inspecting =>
    case Reading =>
    case Rechecking =>
    case _ =>
  }

  lemma CleanCount(job: Job, s: State, answer: Answer)
    requires CountInv(s) && !Staging(s.pc) && !AfterDrop(s.pc)
    ensures CountInv(CleanStep(job, s, answer))
  {
    match s.pc
    case CleaningStaging =>
    case CleaningFinal =>
    case CleaningSync =>
    case _ =>
  }

  lemma CountNext(task: Task, s: State, action: Action)
    requires CountInv(s)
    ensures CountInv(Next(task, s, action))
  {
    if action.Call? {
      if Staging(s.pc) {
        StageCount(task.job, s, action.answer);
      } else if AfterDrop(s.pc) {
        VerifyCount(task, s, action.answer);
      } else {
        CleanCount(task.job, s, action.answer);
      }
    }
  }

  lemma VerifyRead(task: Task, s: State, answer: Answer)
    requires NamesInv(s, task.job) && CountInv(s) && ReadInv(s, task) && AfterDrop(s.pc)
    ensures ReadInv(VerifyStep(task, s, answer), task)
  {
    LinkCountByNames(s.fs.names, task.job);
  }

  /** The other phases never reach the read-back's states. */
  lemma ElsewhereRead(task: Task, s: State, answer: Answer)
    requires !AfterDrop(s.pc)
    ensures ReadInv(Step(task, s, answer), task)
  {
    if Staging(s.pc) {
      StageStays(task.job, s, answer);
    } else {
      CleanStays(task.job, s, answer);
    }
  }

  lemma StageStays(job: Job, s: State, answer: Answer)
    requires Staging(s.pc)
    ensures var pc := StageStep(job, s, answer).pc;
            !pc.Reading? && !pc.Rechecking? && !pc.Returned?
  {
    match s.pc
    case Opening =>
    case Identifying =>
    case Writing =>
    case Checking =>
    case Linking =>
    case Reconciling =>
    case Dropping =>
    case _ =>
  }

  lemma CleanStays(job: Job, s: State, answer: Answer)
    requires !Staging(s.pc) && !AfterDrop(s.pc)
    ensures var pc := CleanStep(job, s, answer).pc;
            !pc.Reading? && !pc.Rechecking? && !pc.Returned?
  {
    match s.pc
    case CleaningStaging =>
    case CleaningFinal =>
    case CleaningSync =>
    case _ =>
  }

  lemma ReadNext(task: Task, s: State, action: Action)
    requires NamesInv(s, task.job) && CountInv(s) && ReadInv(s, task)
    ensures ReadInv(Next(task, s, action), task)
  {
    if action.Call? {
      if AfterDrop(s.pc) {
        VerifyRead(task, s, action.answer);
      } else {
        ElsewhereRead(task, s, action.answer);
      }
    }
  }

  /** The directory has been synced since the staging name was dropped. */
  predicate AfterSync(pc: Pc) { AfterDrop(pc) && !pc.SyncingDir? }

  /** What is on disk: after the sync the final name, if it still is ours, and not the
      staging name; after a complete cleanup exactly what the directory shows. */
  ghost predicate DiskInv(s: State, job: Job) {
    && OnlyOurNames(s.fs.durable, job)
    && (AfterSync(s.pc) ==> job.staging !in s.fs.durable)
    && (AfterSync(s.pc) && Bound(s.fs, job.final, job.created) ==>
          job.final in s.fs.durable && s.fs.durable[job.final] == job.created)
    && (s.pc.Refused? && s.report.cleanup ==> s.fs.durable == s.fs.names)
  }

  lemma StageDisk(job: Job, s: State, answer: Answer)
    requires DiskInv(s, job) && Staging(s.pc)
    ensures DiskInv(StageStep(job, s, answer), job)
  {
    match s.pc
    case Opening =>
    case Identifying =>
    case Writing =>
    case Checking =>
    case Linking =>
    case Reconciling =>
    case Dropping =>
    case _ =>
  }

  lemma DiskNext(task: Task, s: State, action: Action)
    requires NamesInv(s, task.job) && CountInv(s) && DiskInv(s, task.job)
    ensures DiskInv(Next(task, s, action), task.job)
  {
    if action.Call? && Staging(s.pc) {
      StageDisk(task.job, s, action.answer);
    }
  }

  lemma {:induction false} Invariant(task: Task, s: State, actions: seq<Action>)
    requires Initial(s, task.job)
    ensures var end := Run(task, s, actions);
            NamesInv(end, task.job) && CountInv(end) && ReadInv(end, task) && DiskInv(end, task.job)
  {
    if actions != [] {
      var init := actions[..|actions| - 1];
      Invariant(task, s, init);
      var before := Run(task, s, init);
      NamesNext(task, before, actions[|actions| - 1]);
      CountNext(task, before, actions[|actions| - 1]);
      ReadNext(task, before, actions[|actions| - 1]);
      DiskNext(task, before, actions[|actions| - 1]);
    }
  }

  // ----- The theorems -----

  /** On a normal return, whatever others did meanwhile, the final name is bound to the
      created inode, that is its only name, no staging name is left, both in the directory
      and on disk, and its content has the payload's length and digest; it is the payload
      when the digest admits no other. */
  lemma ReturnedMeansPublished(task: Task, s: State, actions: seq<Action>)
    requires Initial(s, task.job)
    ensures var end := Run(task, s, actions);
            end.pc.Returned? ==>
              && Bound(end.fs, task.job.final, task.job.created) && LinkCount(end.fs.names, task.job.created) == 1
              && task.job.staging !in end.fs.names && task.job.staging !in end.fs.durable
              && task.job.final in end.fs.durable && end.fs.durable[task.job.final] == task.job.created
              && LinkCount(end.fs.durable, task.job.created) == 1
              && |end.fs.data.content| == |task.job.payload|
              && task.sha(end.fs.data.content) == task.sha(task.job.payload)
              && ((forall b :: task.sha(b) == task.sha(task.job.payload) ==> b == task.job.payload) ==>
                    end.fs.data.content == task.job.payload)
  {
    Invariant(task, s, actions);
    LinkCountByNames(Run(task, s, actions).fs.durable, task.job);
  }

  predicate Whole(s: State, job: Job) { s.fs.data.content == job.payload && s.fs.data.synced }

  /** Undisturbed, the inode is whole from its check on, and before it gets its final name. */
  ghost predicate WholeInv(s: State, job: Job) {
    && (s.pc.Checking? || s.pc.Linking? || s.pc.Reconciling? || s.pc.Dropping? || AfterDrop(s.pc) ==> Whole(s, job))
    && (Bound(s.fs, job.final, job.created) ==> Whole(s, job))
    && (job.final in s.fs.durable && s.fs.durable[job.final] == job.created ==> Whole(s, job))
  }

  lemma WholeNext(task: Task, s: State, action: Action)
    requires NamesInv(s, task.job) && CountInv(s) && WholeInv(s, task.job) && !action.Others?
    requires s.pc.Writing? ==> !(task.job.final in s.fs.durable && s.fs.durable[task.job.final] == task.job.created)
    ensures WholeInv(Next(task, s, action), task.job)
  {
    if action.Call? && Staging(s.pc) {
      StageWhole(task.job, s, action.answer);
    }
  }

  lemma StageWhole(job: Job, s: State, answer: Answer)
    requires NamesInv(s, job) && WholeInv(s, job) && Staging(s.pc)
    requires s.pc.Writing? ==> !(job.final in s.fs.durable && s.fs.durable[job.final] == job.created)
    ensures WholeInv(StageStep(job, s, answer), job)
  {
    match s.pc
    case Opening =>
    case Identifying =>
    case Writing =>
    case Checking =>
    case Linking =>
    case Reconciling =>
    case Dropping =>
    case _ =>
  }

  ghost predicate OffDisk(s: State, job: Job) { forall n :: n in s.fs.durable ==> s.fs.durable[n] != job.created }

  lemma OffDiskNext(task: Task, s: State, action: Action)
    requires Staging(s.pc) ==> OffDisk(s, task.job)
    ensures Staging(Next(task, s, action).pc) ==> OffDisk(Next(task, s, action), task.job)
  {
    if action.Call? {
      if Staging(s.pc) {
        StageKeepsDisk(task.job, s, action.answer);
      } else {
        StagingOver(task, s, action.answer);
      }
    }
  }

  lemma StagingOver(task: Task, s: State, answer: Answer)
    requires !Staging(s.pc)
    ensures !Staging(Step(task, s, answer).pc)
  {
  }

  /** Nothing of the created inode is on disk before the directory is first synced. */
  lemma {:induction false} NotYetOnDisk(task: Task, s: State, actions: seq<Action>)
    requires Initial(s, task.job)
    ensures Staging(Run(task, s, actions).pc) ==> OffDisk(Run(task, s, actions), task.job)
  {
    if actions != [] {
      var init := actions[..|actions| - 1];
      NotYetOnDisk(task, s, init);
      OffDiskNext(task, Run(task, s, init), actions[|actions| - 1]);
    }
  }

  lemma StageKeepsDisk(job: Job, s: State, answer: Answer)
    ensures StageStep(job, s, answer).fs.durable == s.fs.durable
  {
    match s.pc
    case Opening =>
    case Identifying =>
    case Writing =>
    case Checking =>
    case Linking =>
    case Reconciling =>
    case Dropping =>
    case _ =>
  }

  /** When nobody interferes, the final name shows the created inode, in the directory or on
      disk, only while that holds the whole synced payload; and a return means it does. */
  lemma {:induction false} UndisturbedWhole(task: Task, s: State, actions: seq<Action>)
    requires Initial(s, task.job) && Undisturbed(actions)
    ensures var end := Run(task, s, actions);
            WholeInv(end, task.job) && (end.pc.Returned? ==> Whole(end, task.job))
  {
    if actions != [] {
      var init := actions[..|actions| - 1];
      UndisturbedWhole(task, s, init);
      Invariant(task, s, init);
      NotYetOnDisk(task, s, init);
      assert !actions[|actions| - 1].Others?;
      WholeNext(task, Run(task, s, init), actions[|actions| - 1]);
    }
  }

  /** After a power loss each name keeps its last or its synced binding; neither shows
      anything but the whole payload under the final name. */
  lemma PowerLossSafe(task: Task, s: State, actions: seq<Action>, survived: map<Name, Ino>)
    requires Initial(s, task.job) && Undisturbed(actions)
    requires var fs := Run(task, s, actions).fs;
             forall n :: n in survived ==>
               (n in fs.names && survived[n] == fs.names[n]) || (n in fs.durable && survived[n] == fs.durable[n])
    ensures var end := Run(task, s, actions);
            && (task.job.final in survived && survived[task.job.final] == task.job.created ==> Whole(end, task.job))
  {
    UndisturbedWhole(task, s, actions);
  }

  /** The created inode goes unnoticed in one of three ways. */
  predicate Exempt(s: State) { s.report.unidentified || s.report.ambiguous || s.report.missed }

  /** A refusal that reports its cleanup complete has left no name on the created inode, in
      the directory or on disk, unless the new staging file could not be identified, a link that took effect raised
      FileExistsError, or the check of what an unclear link had done itself failed. */
  lemma CompleteCleanupIsClean(task: Task, s: State, actions: seq<Action>)
    requires Initial(s, task.job)
    ensures var end := Run(task, s, actions);
            end.pc.Refused? && end.report.cleanup && !Exempt(end) ==>
              LinkCount(end.fs.names, task.job.created) == 0 && LinkCount(end.fs.durable, task.job.created) == 0
  {
    Invariant(task, s, actions);
    LinkCountByNames(Run(task, s, actions).fs.names, task.job);
  }

  /** In particular one failing call, itself not part of the cleanup, leaves nothing
      behind, also when it is a link or an unlink that took effect; the exceptions are a
      completed link reported as FileExistsError and a new file that is not identified. */
  lemma OneFailureLeavesNothing(task: Task, s: State, actions: seq<Action>)
    requires Initial(s, task.job)
    ensures var end := Run(task, s, actions);
            && end.pc.Refused? && end.report.failures <= 1 && end.report.cleanupFailures == 0
            && !end.report.ambiguous && !end.report.unidentified ==>
              LinkCount(end.fs.names, task.job.created) == 0 && LinkCount(end.fs.durable, task.job.created) == 0
  {
    Invariant(task, s, actions);
    CompleteCleanupIsClean(task, s, actions);
  }

  ghost predicate Undisturbed(actions: seq<Action>) {
    forall i :: 0 <= i < |actions| ==> !actions[i].Others?
  }

  /** An overlooked link stays in place. */
  ghost predicate Overlooks(s: State, job: Job) {
    s.report.ambiguous || s.report.missed ==> !s.local.published && Bound(s.fs, job.final, job.created)
  }

  lemma OverlooksNext(task: Task, s: State, action: Action)
    requires NamesInv(s, task.job) && CountInv(s) && Overlooks(s, task.job) && !action.Others?
    ensures Overlooks(Next(task, s, action), task.job)
  {
    match s.pc
    case Identifying =>
    case Linking =>
    case Reconciling =>
    case Dropping =>
    case CleaningStaging =>
    case CleaningFinal =>
    case _ =>
  }

  lemma {:induction false} OverlooksAlways(task: Task, s: State, actions: seq<Action>)
    requires Initial(s, task.job) && Undisturbed(actions)
    ensures Overlooks(Run(task, s, actions), task.job)
  {
    if actions != [] {
      var init := actions[..|actions| - 1];
      OverlooksAlways(task, s, init);
      Invariant(task, s, init);
      OverlooksNext(task, Run(task, s, init), actions[|actions| - 1]);
    }
  }

  /** Both ways, when nobody interferes: a refusal with complete cleanup leaves nothing
      behind exactly when the staging file was identified and no completed link was
      overlooked. */
  lemma CleanExactlyUnlessOverlooked(task: Task, s: State, actions: seq<Action>)
    requires Initial(s, task.job) && Undisturbed(actions)
    ensures var end := Run(task, s, actions);
            end.pc.Refused? && end.report.cleanup ==>
              (LinkCount(end.fs.names, task.job.created) == 0 <==> !Exempt(end))
  {
    Invariant(task, s, actions);
    OverlooksAlways(task, s, actions);
    CompleteCleanupIsClean(task, s, actions);
    LinkCountByNames(Run(task, s, actions).fs.names, task.job);
  }

  /** In every reachable state a call of ours leaves every name that is bound to someone
      else's inode exactly as it was. */
  lemma OthersNeverUnbound(task: Task, s: State, actions: seq<Action>, answer: Answer)
    requires Initial(s, task.job)
    ensures var before := Run(task, s, actions);
            KeepsForeign(before.fs.names, Step(task, before, answer).fs.names, task.job)
  {
    Invariant(task, s, actions);
    var before := Run(task, s, actions);
    if Staging(before.pc) {
      StageForeign(task.job, before, answer);
    } else if !AfterDrop(before.pc) {
      CleanForeign(task.job, before, answer);
    } else {
      VerifyForeign(task, before, answer);
    }
  }

  ghost predicate KeepsForeign(before: map<Name, Ino>, after: map<Name, Ino>, job: Job) {
    forall n :: n in before && before[n] != job.created ==> n in after && after[n] == before[n]
  }

  lemma StageForeign(job: Job, s: State, answer: Answer)
    requires NamesInv(s, job) && Staging(s.pc)
    ensures KeepsForeign(s.fs.names, StageStep(job, s, answer).fs.names, job)
  {
    match s.pc
    case Opening =>
    case Identifying =>
    case Writing =>
    case Checking =>
    case Linking =>
    case Reconciling =>
    case Dropping =>
    case _ =>
  }

  lemma VerifyForeign(task: Task, s: State, answer: Answer)
    ensures KeepsForeign(s.fs.names, VerifyStep(task, s, answer).fs.names, task.job)
  {
    match s.pc
    case SyncingDir =>
    case OpeningFinal =>
    case Inspecting =>
    case Reading =>
    case Rechecking =>
    case _ =>
  }

  lemma CleanForeign(job: Job, s: State, answer: Answer)
    ensures KeepsForeign(s.fs.names, CleanStep(job, s, answer).fs.names, job)
  {
    match s.pc
    case CleaningStaging =>
    case CleaningFinal =>
    case CleaningSync =>
    case _ =>
  }

  /** The exception occurs: a completed link reported as FileExistsError is refused with
      the cleanup reported complete, and the file stays published. */
  lemma UnnoticedLink(task: Task, s: State) returns (actions: seq<Action>)
    requires Initial(s, task.job) && task.job.final !in s.fs.names
    ensures var end := Run(task, s, actions);
            && end.pc.Refused? && end.report.cleanup && end.report.failures == 1 && end.report.cleanupFailures == 0
            && Bound(end.fs, task.job.final, task.job.created)
  {
    var ok, clash := Call(Success), Call(FailureAfter(true));
    actions := [];
    var s0, s1, s2, s3, s4 := UpToClash(task, s);
    RunStep(task, s, actions, ok);
    actions := actions + [ok];
    RunStep(task, s, actions, ok);
    actions := actions + [ok];
    RunStep(task, s, actions, ok);
    actions := actions + [ok];
    RunStep(task, s, actions, ok);
    actions := actions + [ok];
    RunStep(task, s, actions, clash);
    actions := actions + [clash];
    assert Run(task, s, actions) == s4;
    var s5, s6, s7 := AfterClash(task, s4);
    RunStep(task, s, actions, ok);
    actions := actions + [ok];
    RunStep(task, s, actions, ok);
    actions := actions + [ok];
    RunStep(task, s, actions, ok);
    actions := actions + [ok];
  }

  lemma UpToClash(task: Task, s: State) returns (s0: State, s1: State, s2: State, s3: State, s4: State)
    requires Initial(s, task.job) && task.job.final !in s.fs.names
    ensures s0 == Step(task, s, Success) && s1 == Step(task, s0, Success)
    ensures s2 == Step(task, s1, Success) && s3 == Step(task, s2, Success)
    ensures s4 == Step(task, s3, FailureAfter(true))
    ensures s4.pc.CleaningStaging? && Bound(s4.fs, task.job.final, task.job.created) && !s4.local.published
    ensures s4.report.cleanup && s4.report.failures == 1 && s4.report.cleanupFailures == 0
  {
    var job := task.job;
    s0 := Step(task, s, Success);
    s1 := Step(task, s0, Success);
    s2 := Step(task, s1, Success);
    assert s2.pc == Checking && s2.fs.names == s.fs.names[job.staging := job.created];
    LinkCountByNames(s2.fs.names, job);
    s3 := Step(task, s2, Success);
    s4 := Step(task, s3, FailureAfter(true));
  }

  lemma AfterClash(task: Task, s4: State) returns (s5: State, s6: State, s7: State)
    requires task.job.staging != task.job.final
    requires s4.pc.CleaningStaging? && Bound(s4.fs, task.job.final, task.job.created) && !s4.local.published
    ensures s5 == Step(task, s4, Success) && s6 == Step(task, s5, Success) && s7 == Step(task, s6, Success)
    ensures s7.pc.Refused? && s7.report == s4.report && Bound(s7.fs, task.job.final, task.job.created)
  {
    s5 := Step(task, s4, Success);
    s6 := Step(task, s5, Success);
    s7 := Step(task, s6, Success);
  }

  /** A new staging file whose `fstat` fails is refused with the cleanup reported complete,
      and stays. */
  lemma UnidentifiedStaging(task: Task, s: State) returns (actions: seq<Action>)
    requires Initial(s, task.job)
    ensures var end := Run(task, s, actions);
            && end.pc.Refused? && end.report.cleanup && end.report.failures == 1 && end.report.cleanupFailures == 0
            && Bound(end.fs, task.job.staging, task.job.created)
  {
    var ok, fail := Call(Success), Call(Failure(0));
    RunStep(task, s, [], ok);
    actions := [] + [ok];
    RunStep(task, s, actions, fail);
    actions := actions + [fail];
    assert Run(task, s, actions).pc.CleaningStaging?;
    RunStep(task, s, actions, ok);
    actions := actions + [ok];
    assert Run(task, s, actions).pc.CleaningFinal?;
    RunStep(task, s, actions, ok);
    actions := actions + [ok];
    assert Run(task, s, actions).pc.CleaningSync?;
    RunStep(task, s, actions, ok);
    actions := actions + [ok];
  }

  lemma RunStep(task: Task, s: State, actions: seq<Action>, last: Action)
    ensures Run(task, s, actions + [last]) == Next(task, Run(task, s, actions), last)
  {
    assert (actions + [last])[..|actions|] == actions;
  }

  // ----- Progress -----

  ghost predicate Succeeding(actions: seq<Action>) {
    forall i :: 0 <= i < |actions| ==> actions[i] == Call(Success)
  }

  /** Nothing has failed, and the file is ours alone. */
  ghost predicate Smooth(s: State, task: Task) {
    var job := task.job;
    && NamesInv(s, job) && Remaining(s.pc) >= 0
    && (s.pc.Opening? || s.pc.Identifying? || BeforeLink(s.pc) ==> job.final !in s.fs.names)
    && (s.pc.Dropping? || AfterDrop(s.pc) ==> Bound(s.fs, job.final, job.created))
    && (AfterDrop(s.pc) ==> job.staging !in s.fs.names)
    && (Remaining(s.pc) <= 8 ==> s.fs.data.content == job.payload)
    && (Remaining(s.pc) <= 3 ==> s.local.fd == job.created)
    && (s.pc.Reading? || s.pc.Rechecking? ==> s.local.seen == Stat(s, job))
    && (s.pc.Rechecking? ==> s.local.read == s.fs.data.content)
  }

  /** How many successful calls are still needed; negative once something failed. */
  function Remaining(pc: Pc): int {
    match pc
    case Opening => 11
    case Identifying => 10
    case Writing => 9
    case Checking => 8
    case Linking => 7
    case Dropping => 6
    case SyncingDir => 5
    case OpeningFinal => 4
    case Inspecting => 3
    case Reading => 2
    case Rechecking => 1
    case Returned => 0
    case _ => -1
  }

  lemma SmoothStage(task: Task, s: State)
    requires Smooth(s, task) && Staging(s.pc) && CountInv(s)
    ensures var next := StageStep(task.job, s, Success);
            Smooth(next, task) && Remaining(next.pc) == Remaining(s.pc) - 1
  {
    StageNames(task.job, s, Success);
    LinkCountByNames(s.fs.names, task.job);
  }

  lemma SmoothVerify(task: Task, s: State)
    requires Smooth(s, task) && AfterDrop(s.pc) && CountInv(s)
    ensures var next := VerifyStep(task, s, Success);
            Smooth(next, task) && Remaining(next.pc) == (if s.pc.Returned? then 0 else Remaining(s.pc) - 1)
  {
    VerifyNames(task, s, Success);
    LinkCountByNames(s.fs.names, task.job);
  }

  lemma {:induction false} SmoothRun(task: Task, s: State, actions: seq<Action>)
    requires Initial(s, task.job) && task.job.final !in s.fs.names && Succeeding(actions)
    ensures var end := Run(task, s, actions);
            Smooth(end, task) && Remaining(end.pc) == if |actions| >= 11 then 0 else 11 - |actions|
  {
    if actions != [] {
      var init := actions[..|actions| - 1];
      SmoothRun(task, s, init);
      Invariant(task, s, init);
      assert actions[|actions| - 1] == Call(Success);
      var before := Run(task, s, init);
      if Staging(before.pc) {
        SmoothStage(task, before);
      } else {
        SmoothVerify(task, before);
      }
    }
  }

  /** Undisturbed and without failures the write returns after eleven calls. */
  lemma Progress(task: Task, s: State, actions: seq<Action>)
    requires Initial(s, task.job) && task.job.final !in s.fs.names && Succeeding(actions) && |actions| >= 11
    ensures Run(task, s, actions).pc.Returned?
  {
    SmoothRun(task, s, actions);
  }
}
