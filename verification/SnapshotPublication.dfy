/** The execute-only snapshot's publication: create the final name directly, write it
    in place, check twice that the name still shows the created file, and otherwise
    remove the name again if it is still ours. */
module SnapshotPublication {
  import opened FileSystem

  datatype Pc =
    | Opening | Identifying | Writing | Syncing | Checking | SyncingDir | ComparingDir | Rechecking
    | Releasing | Removing | Returned | Refused | Dead

  datatype Answer = Success(n: nat) | Failure | FailureAfter

  datatype Action = Call(answer: Answer) | Others(names: map<Name, Ino>) | Crash

  /** Why a refusal left the created file under its name, if it did: the file could not be
      identified after it was created, the handler could not close it, the removal itself
      failed, or everything was done and checked but the last close failed. */
  datatype Leftover = Nothing | NotIdentified | NotReleased | NotRemoved | NotClosed

  /** `at` is where the process died. */
  datatype State = State(fs: Fs, pc: Pc, left: Leftover, at: Pc)

  predicate Ended(pc: Pc) { pc.Returned? || pc.Refused? || pc.Dead? }

  function Bind(s: State, names: map<Name, Ino>): State {
    s.(fs := s.fs.(names := names))
  }

  /** `_require_output_name_identity`: the name shows the created inode, singly linked
      and of full size. */
  predicate Shows(s: State, job: Job) {
    && Bound(s.fs, job.final, job.created) && LinkCount(s.fs.names, job.created) == 1
    && |s.fs.data.content| == |job.payload|
  }

  function Refuse(s: State, left: Leftover): State { s.(pc := Refused, left := left) }

  /** One call. The last close belongs to the second check, since what others do between the
      two no longer matters to the writer: it failed if that call fails after its effect. */
  function Step(job: Job, s: State, answer: Answer): State {
    match s.pc
    case Opening =>
      if !answer.Success? || job.final in s.fs.names then s.(pc := Refused)
      else Bind(s, s.fs.names[job.final := job.created]).(pc := Identifying)
    case Identifying => if answer.Success? then s.(pc := Writing) else Refuse(s, NotIdentified)
    case Writing =>
      if |s.fs.data.content| >= |job.payload| then s.(pc := Syncing)
      else if !answer.Success? || answer.n == 0 then s.(pc := Releasing)
      else
        var from := |s.fs.data.content|;
        var to := if from + answer.n <= |job.payload| then from + answer.n else |job.payload|;
        s.(fs := s.fs.(data := s.fs.data.(content := s.fs.data.content + job.payload[from..to])))
    case Syncing =>
      if !answer.Success? then s.(pc := Releasing)
      else s.(fs := s.fs.(data := s.fs.data.(synced := true)), pc := Checking)
    case Checking => s.(pc := if answer.Success? && Shows(s, job) then SyncingDir else Releasing)
    case SyncingDir =>
      if !answer.Success? then s.(pc := Releasing)
      else s.(fs := s.fs.(durable := s.fs.names), pc := ComparingDir)
    case ComparingDir => s.(pc := if answer.Success? then Rechecking else Releasing)
    case Rechecking =>
      if answer.Failure? || !Shows(s, job) then s.(pc := Releasing)
      else if answer.Success? then s.(pc := Returned)
      else Refuse(s, NotClosed)
    case Releasing => if answer.Success? then s.(pc := Removing) else Refuse(s, NotReleased)
    case Removing =>
      var removed := if Bound(s.fs, job.final, job.created) then Bind(s, Unbind(s.fs.names, job.final)) else s;
      if answer.Failure? then Refuse(s, NotRemoved)
      else removed.(pc := Refused)
    case _ => s
  }

  ghost function Next(job: Job, s: State, action: Action): State {
    match action
    case Call(answer) => Step(job, s, answer)
    case Others(names) => if OthersMay(s.fs.names, names, job) && !Ended(s.pc) then Bind(s, names) else s
    case Crash => if Ended(s.pc) then s else s.(pc := Dead, at := s.pc)
  }

  ghost function Run(job: Job, s: State, actions: seq<Action>): State {
    if actions == [] then s else Next(job, Run(job, s, actions[..|actions| - 1]), actions[|actions| - 1])
  }

  ghost predicate Initial(s: State, job: Job) {
    && job.staging != job.final && s.pc == Opening && s.left.Nothing? && s.fs.data == Inode([], false, 0)
    && (forall n :: n in s.fs.names ==> s.fs.names[n] != job.created)
  }

  /** Where the protocol stands, or stood when the process died. */
  function Point(s: State): Pc { if s.pc.Dead? then s.at else s.pc }

  predicate AfterWriting(pc: Pc) {
    pc.Syncing? || pc.Checking? || pc.SyncingDir? || pc.ComparingDir? || pc.Rechecking? || pc.Returned?
  }

  /** The name is exposed before all of the payload need be there. */
  predicate Open(pc: Pc) { pc.Identifying? || pc.Writing? || pc.Releasing? || pc.Removing? }

  ghost predicate Inv(s: State, job: Job) {
    && (forall n :: n in s.fs.names && s.fs.names[n] == job.created ==> n == job.final)
    && s.fs.data.content <= job.payload && (s.pc.Dead? ==> !Ended(s.at))
    && (Point(s).Opening? ==> !Bound(s.fs, job.final, job.created))
    && (Point(s).Opening? || Point(s).Identifying? || s.left.NotIdentified? ==> s.fs.data.content == [])
    && (s.left.NotClosed? ==> s.fs.data.content == job.payload && s.fs.data.synced)
    && (!s.left.Nothing? ==> s.pc.Refused?)
    && (AfterWriting(Point(s)) ==> s.fs.data.content == job.payload)
    && (AfterWriting(Point(s)) && !Point(s).Syncing? ==> s.fs.data.synced)
    && (s.pc.ComparingDir? || s.pc.Rechecking? || s.pc.Returned? || s.left.NotClosed? ==>
          (Bound(s.fs, job.final, job.created) ==>
             job.final in s.fs.durable && s.fs.durable[job.final] == job.created))
    && (s.pc.Returned? ==> Shows(s, job))
    && (s.pc.Refused? && Bound(s.fs, job.final, job.created) ==> !s.left.Nothing?)
  }

  lemma NextKeeps(job: Job, s: State, action: Action)
    requires Inv(s, job)
    ensures Inv(Next(job, s, action), job)
  {
  }

  /** Over every run: a return means the final name is bound to the created inode, singly
      linked, holding the whole synced payload, also on disk; a refusal leaves the created inode without
      a name unless one of four failures kept it there. */
  lemma {:induction false} Sound(job: Job, s: State, actions: seq<Action>)
    requires Initial(s, job)
    ensures var end := Run(job, s, actions);
            && Inv(end, job)
            && (end.pc.Returned? ==> Shows(end, job) && end.fs.data.content == job.payload && end.fs.data.synced
                                     && job.final in end.fs.durable && end.fs.durable[job.final] == job.created)
            && (end.pc.Refused? && end.left.Nothing? ==>
                  forall n :: n in end.fs.names ==> end.fs.names[n] != job.created)
  {
    if actions != [] {
      Sound(job, s, actions[..|actions| - 1]);
      NextKeeps(job, Run(job, s, actions[..|actions| - 1]), actions[|actions| - 1]);
    }
  }

  /** Neither the creation nor the removal touches a name bound to another inode. */
  lemma OthersNeverUnbound(job: Job, s: State, answer: Answer)
    requires Inv(s, job)
    ensures var after := Step(job, s, answer);
            forall n :: n in s.fs.names && s.fs.names[n] != job.created ==>
              n in after.fs.names && after.fs.names[n] == s.fs.names[n]
  {
  }

  // ----- The partial file -----

  /** The final name shows less than the payload. */
  predicate Partial(s: State, job: Job) {
    Bound(s.fs, job.final, job.created) && s.fs.data.content != job.payload
  }

  lemma RunStep(job: Job, s: State, actions: seq<Action>, last: Action)
    ensures Run(job, s, actions + [last]) == Next(job, Run(job, s, actions), last)
  {
    assert (actions + [last])[..|actions|] == actions;
  }

  /** The file is created and identified. */
  lemma Create(job: Job, s: State) returns (actions: seq<Action>)
    requires Initial(s, job) && job.final !in s.fs.names
    ensures var end := Run(job, s, actions);
            && Undisturbed(actions) && end.pc.Writing? && end.fs.data.content == []
            && Bound(end.fs, job.final, job.created)
  {
    var ok := Call(Success(1));
    RunStep(job, s, [], ok);
    RunStep(job, s, [] + [ok], ok);
    actions := [] + [ok] + [ok];
  }

  /** Unlike link-style publication this is not atomic: a death while writing can leave
      every proper prefix of the payload, the empty one included, under the final name. */
  lemma PartialFileVisible(job: Job, s: State, n: nat) returns (actions: seq<Action>)
    requires Initial(s, job) && job.final !in s.fs.names && n < |job.payload|
    ensures var end := Run(job, s, actions);
            end.pc.Dead? && Bound(end.fs, job.final, job.created) && end.fs.data.content == job.payload[..n]
  {
    actions := Create(job, s);
    assert Run(job, s, actions).pc.Writing? && Run(job, s, actions).fs.data.content == [];
    if n > 0 {
      RunStep(job, s, actions, Call(Success(n)));
      actions := actions + [Call(Success(n))];
      assert [] + job.payload[0..n] == job.payload[..n];
    }
    RunStep(job, s, actions, Crash);
    actions := actions + [Crash];
  }

  ghost predicate DiesPartial(job: Job, s: State, actions: seq<Action>) {
    var end := Run(job, s, actions);
    end.pc.Dead? && Partial(end, job)
  }

  /** With the final name free, some run dies with a partial file under it if and only if
      the payload is not empty. */
  lemma DiesPartialIff(job: Job, s: State)
    requires Initial(s, job) && job.final !in s.fs.names
    ensures (exists actions :: DiesPartial(job, s, actions)) <==> job.payload != []
  {
    if job.payload != [] {
      var actions := PartialFileVisible(job, s, 0);
      assert DiesPartial(job, s, actions);
    } else {
      forall actions ensures !DiesPartial(job, s, actions) {
        Sound(job, s, actions);
      }
    }
  }

  /** The window is exactly from the creation to the end of the write loop, and the
      rollback: wherever else a run stands, or stood when it died, the final name shows the
      whole payload or not our file. The one other place is a refusal that left the file
      behind, other than by its last close. */
  lemma WholeOutsideWriting(job: Job, s: State, actions: seq<Action>)
    requires Initial(s, job)
    ensures var end := Run(job, s, actions);
            Partial(end, job) ==> Open(Point(end)) || (end.pc.Refused? && !end.left.Nothing? && !end.left.NotClosed?)
  {
    Sound(job, s, actions);
  }

  ghost predicate Undisturbed(actions: seq<Action>) {
    forall i :: 0 <= i < |actions| ==> !actions[i].Others?
  }

  predicate Exposed(s: State) {
    Open(Point(s)) || AfterWriting(Point(s)) || (s.pc.Refused? && !s.left.Nothing?)
  }

  lemma {:induction false} StaysBound(job: Job, s: State, actions: seq<Action>)
    requires Initial(s, job) && Undisturbed(actions)
    ensures var end := Run(job, s, actions);
            Exposed(end) ==> Bound(end.fs, job.final, job.created)
  {
    if actions != [] {
      var init := actions[..|actions| - 1];
      StaysBound(job, s, init);
      Sound(job, s, init);
      assert !actions[|actions| - 1].Others?;
      BoundStep(job, Run(job, s, init), actions[|actions| - 1]);
    }
  }

  lemma BoundStep(job: Job, s: State, action: Action)
    requires Inv(s, job) && !action.Others? && (Exposed(s) ==> Bound(s.fs, job.final, job.created))
    ensures var next := Next(job, s, action);
            Exposed(next) ==> Bound(next.fs, job.final, job.created)
  {
  }

  /** Both ways, when nobody interferes: a refusal left the created file under its name if
      and only if one of the four failures kept it there. */
  lemma RefusedLeavesIff(job: Job, s: State, actions: seq<Action>)
    requires Initial(s, job) && Undisturbed(actions)
    ensures var end := Run(job, s, actions);
            end.pc.Refused? ==> (Bound(end.fs, job.final, job.created) <==> !end.left.Nothing?)
  {
    StaysBound(job, s, actions);
    Sound(job, s, actions);
  }

  lemma Then(job: Job, s: State, actions: seq<Action>, a: Action, b: Action) returns (longer: seq<Action>)
    requires Undisturbed(actions) && !a.Others? && !b.Others?
    ensures Undisturbed(longer) && Run(job, s, longer) == Next(job, Next(job, Run(job, s, actions), a), b)
  {
    RunStep(job, s, actions, a);
    RunStep(job, s, actions + [a], b);
    longer := actions + [a] + [b];
  }

  /** The write loop runs to its end. */
  lemma Fill(job: Job, s: State) returns (actions: seq<Action>)
    requires Initial(s, job) && job.final !in s.fs.names
    ensures Undisturbed(actions) && Run(job, s, actions).pc.Syncing?
  {
    var all := Call(Success(|job.payload|));
    actions := Create(job, s);
    if job.payload != [] {
      RunStep(job, s, actions, all);
      actions := actions + [all];
    }
    assert |Run(job, s, actions).fs.data.content| == |job.payload|;
    RunStep(job, s, actions, all);
    actions := actions + [all];
  }

  lemma ShowsUndisturbed(job: Job, s: State, actions: seq<Action>)
    requires Initial(s, job) && Undisturbed(actions)
    requires AfterWriting(Run(job, s, actions).pc)
    ensures Shows(Run(job, s, actions), job)
  {
    StaysBound(job, s, actions);
    Sound(job, s, actions);
    OneLink(Run(job, s, actions), job);
  }

  /** The second check is reached. */
  lemma Verify(job: Job, s: State) returns (actions: seq<Action>)
    requires Initial(s, job) && job.final !in s.fs.names
    ensures Undisturbed(actions) && Run(job, s, actions).pc.Rechecking?
  {
    var ok := Call(Success(1));
    actions := Fill(job, s);
    RunStep(job, s, actions, ok);
    actions := actions + [ok];
    ShowsUndisturbed(job, s, actions);
    RunStep(job, s, actions, ok);
    actions := actions + [ok];
    actions := Then(job, s, actions, ok, ok);
  }

  /** All four happen, for every payload. */
  lemma LeavesFile(job: Job, s: State, left: Leftover) returns (actions: seq<Action>)
    requires Initial(s, job) && job.final !in s.fs.names && !left.Nothing?
    ensures var end := Run(job, s, actions);
            end.pc.Refused? && end.left == left && Bound(end.fs, job.final, job.created)
  {
    var ok, fail := Call(Success(1)), Call(Failure);
    match left {
      case NotIdentified =>
        actions := Then(job, s, [], ok, fail);
      case NotReleased =>
        actions := Fill(job, s);
        actions := Then(job, s, actions, fail, fail);
      case NotRemoved =>
        actions := Fill(job, s);
        actions := Then(job, s, actions, fail, ok);
        RunStep(job, s, actions, fail);
        actions := actions + [fail];
      case NotClosed =>
        actions := Verify(job, s);
        ShowsUndisturbed(job, s, actions);
        RunStep(job, s, actions, Call(FailureAfter));
        actions := actions + [Call(FailureAfter)];
    }
    RefusedLeavesIff(job, s, actions);
  }

  /** Both ways, when nobody interferes: a process that died left a partial file under the
      final name if and only if it died between creation and the end of the write loop, or
      in the rollback, before all of the payload was written. */
  lemma DiedPartialIff(job: Job, s: State, actions: seq<Action>)
    requires Initial(s, job) && Undisturbed(actions)
    ensures var end := Run(job, s, actions);
            end.pc.Dead? ==>
              (Partial(end, job) <==> Open(end.at) && end.fs.data.content != job.payload)
  {
    WholeOutsideWriting(job, s, actions);
    StaysBound(job, s, actions);
  }

  // ----- Progress -----

  ghost predicate Succeeding(actions: seq<Action>) {
    forall i :: 0 <= i < |actions| ==> actions[i].Call? && actions[i].answer.Success? && actions[i].answer.n >= 1
  }

  /** Nothing has failed, and the file is ours alone. */
  ghost predicate Smooth(s: State, job: Job) {
    && Inv(s, job) && !s.pc.Releasing? && !s.pc.Removing? && !s.pc.Refused? && !s.pc.Dead?
    && (if s.pc.Opening? then job.final !in s.fs.names else Bound(s.fs, job.final, job.created))
  }

  /** How many successful calls are still needed at most. */
  function Remaining(s: State, job: Job): int {
    match s.pc
    case Opening => 8 + |job.payload|
    case Identifying => 7 + |job.payload|
    case Writing => 6 + |job.payload| - |s.fs.data.content|
    case Syncing => 5
    case Checking => 4
    case SyncingDir => 3
    case ComparingDir => 2
    case Rechecking => 1
    case _ => 0
  }

  lemma OneLink(s: State, job: Job)
    requires Inv(s, job) && Bound(s.fs, job.final, job.created)
    ensures LinkCount(s.fs.names, job.created) == 1
  {
    assert Links(s.fs.names, job.created) == {job.final};
  }

  lemma SmoothStep(job: Job, s: State, n: nat)
    requires Smooth(s, job) && n >= 1
    ensures var next := Step(job, s, Success(n));
            && Smooth(next, job) && (Remaining(s, job) > 0 ==> Remaining(next, job) < Remaining(s, job))
            && (Remaining(s, job) <= 0 ==> next.pc.Returned?)
  {
    NextKeeps(job, s, Call(Success(n)));
    if !s.pc.Opening? {
      OneLink(s, job);
    }
  }

  lemma {:induction false} SmoothRun(job: Job, s: State, actions: seq<Action>)
    requires Initial(s, job) && job.final !in s.fs.names && Succeeding(actions)
    ensures var end := Run(job, s, actions);
            Smooth(end, job) && (Remaining(end, job) <= 0 || Remaining(end, job) <= 8 + |job.payload| - |actions|)
  {
    if actions != [] {
      var init, last := actions[..|actions| - 1], actions[|actions| - 1];
      SmoothRun(job, s, init);
      assert last.Call? && last.answer.Success?;
      SmoothStep(job, Run(job, s, init), last.answer.n);
    }
  }

  /** Undisturbed and without failures the write returns, however short its writes. */
  lemma Progress(job: Job, s: State, actions: seq<Action>)
    requires Initial(s, job) && job.final !in s.fs.names && Succeeding(actions) && |actions| >= 8 + |job.payload|
    ensures Run(job, s, actions).pc.Returned?
  {
    SmoothRun(job, s, actions);
    assert Remaining(Run(job, s, actions), job) <= 0;
  }
}
