# Verified models of the Again evidence harnesses

Again is a local agent gateway. Its `bench/` directory holds the harnesses that decide what counts
as evidence about it: they publish files that must never be seen half written, keep a journal of
paid runs across crashes, read an untrusted child process, walk untrusted JSON and directories,
recompute BLAKE3 commitments, and re-derive every total before a gate may pass. This project models
that logic in Dafny and proves what the harnesses rely on, over every input, every run or every
reachable state.

* **Publication** (`FileSystem`, `LinkPublication`, `CorpusPublication`, `SnapshotPublication`,
  `WriteFates`).
  The exclusive writers are state machines over file-system calls. Each step is one call whose
  answer is chosen by the environment: success, a short write, a failure before or after its effect,
  a death of the process, or an act of somebody else on the same directory. The theorems range over
  all sequences of such answers; `WriteFates` ties the evaluation's writer to the run journal.
* **Run journal** (`Journal`, `LiveLoop`, `JournalRuns`, `JournalBlocked`, `JournalResume`,
  `JournalEndings`, `JournalUnreadable`, `RunJournal`). `RunJournal` is the class the source has:
  each method states what it keeps of a sound journal and which specification function it computes. The other modules
  prove theorems about those functions over any number of lives of the process, each dying or raising
  at any write, with or without leaving its transaction file behind.
* **Pairs and matrices** (`Comparison`, `Matrix`). Which stored pairs and matrices are accepted.
* **Streams and trees** (`Framing`, `JsonWalk`, `Descendants`, `Discovery`, `NativeSearch`, `Utf8`).
  Loops over a stream, an explicit stack, a frontier or a queue are proved equal to the recursive
  or declarative meaning they stand for.
* **Commitments** (`Bits`, `Blake3Words`, `Blake3Compress`, `LittleEndian`, `Blake3Chunk`,
  `Commitment`, and `BitVectors`, `MachineWords`, `Blake3Machine`, `Blake3Vector`). Masked integer
  arithmetic is given its bit-level meaning; the compression rounds are bijections that follow a
  written-out schedule; integer arithmetic is that of machine words, on which one published digest is
  derived; the commitment encoding is injective.
* **Gates** (`AlphaTrial`, `Aggregate`, `ReleaseGate`, `CrossedRelease`). Counting, permutation and
  pigeonhole arguments about the trial gate and the release gate.
* `Collections`, `Sorting` and `Judgement` hold what the modules share: facts about sequences,
  multisets and `sorted`, and the result of a validator.

What the operating system, the clock or an executed agent answers is a parameter everywhere: a
function of the call number in the journal, an action sequence in the publication machines, a
schedule in the reader, a tree in the discovery. SHA-256, the length of a journal file, `str.lower`,
float division and rounding are function parameters, so the theorems hold for whatever they compute;
the few that need division and rounding to be exact say so.

Some expected properties are false of the code. Each is kept as a result: a lemma gives the input,
and another says exactly when the property does hold, or that it never does.

* An attempt that completed its pair can end finished and failed, failed only, or not at all. All
  endings are reached in one life (`JournalEndings.EndingReachable`), and each occurs in a history
  exactly when some life met the answers that lead to it (`JournalEndings.EndingIff`,
  `JournalEndings.TwoTerminalsIff`, `Journal.DoubleTerminalIff` for one attempt).
* A completed pair cannot always be read back: envelopes are written without a bound and read under one
  of 8 MiB. A life that completes all six pairs can leave a journal that no later life gets through
  (`JournalUnreadable.UnreadableReached`, `JournalUnreadable.NeverReturns`). It happens exactly when
  some life stored such an envelope (`JournalUnreadable.UnreadableIff`), and
  `JournalUnreadable.FinishableIff` says exactly which histories can still be finished.
* A journal can become impossible to open. One failed manifest write that leaves its transaction file
  does it (`JournalBlocked.BlockedReached`), and so do 526 deaths inside a record write
  (`JournalBlocked.FullReached`). It can never be opened again exactly when it is stuck
  (`JournalBlocked.NeverOpensIffStuck`), and `JournalBlocked.BlockedExactly` says which histories
  leave it without a manifest and blocked.
* The live runner records no workspace identity for its conditions, and the matrix demands it, so no
  live evaluation is accepted (`Matrix.LiveMatrixRefused`, `JournalRuns.EvaluationNeverAccepted`);
  recording it is the whole repair (`Matrix.LabelledMatrixAccepted`).
* The ceiling test inside the live loop cannot refuse (`JournalRuns.CeilingNeverBinds`).
* The chaos writer leaves its staging name behind after one late failure (`LinkPublication.ChaosLeaks`),
  every link writer when its close fails (`LinkPublication.CloseLeaks`); `LinkPublication.StagingResidue`
  says exactly when. Two writers remove a foreign staging file they collided with
  (`LinkPublication.ForeignStagingRemoved`, `LinkPublication.StagingCollision`).
* The corpus writer reports a complete cleanup while its file stays: when a completed link is reported as
  already existing (`CorpusPublication.UnnoticedLink`) and when the new staging file cannot be identified
  (`CorpusPublication.UnidentifiedStaging`); `CorpusPublication.CleanExactlyUnlessOverlooked` says exactly
  when.
* The snapshot writer can be refused and leave its file, for four reasons (`SnapshotPublication.LeavesFile`,
  `SnapshotPublication.RefusedLeavesIff`), and after a death it can show every proper prefix of its payload
  (`SnapshotPublication.PartialFileVisible`): for some run exactly when the payload is not empty
  (`SnapshotPublication.DiesPartialIff`), and in a given undisturbed run exactly when it died between
  creation and the end of the write loop, or in the rollback, before everything was written
  (`SnapshotPublication.DiedPartialIff`).
* A search answer can be marked truncated although nothing was cut off (`NativeSearch.FlaggedUncut`):
  exactly when the matches fit the budget and are as many as the maximum
  (`NativeSearch.FlaggedUncutIff`).
* The process-tree loop need not stop (`Descendants.SelfParentedLoops`): it stops exactly when the
  root is not its own descendant (`Descendants.TerminatesIffRootNotOnCycle`).
* A single trial report can pass while it counts false hits (`AlphaTrial.PassingFalseHits`,
  `AlphaTrial.PassingWithFalseHits`); the gate over five reports cannot (`Aggregate.GatePasses`).
* An accepted subject need not have the bundle of its own name, nor an accepted archive the target in
  its name (`CrossedRelease.CrossedAccepted`). The assignments accepted are exactly the permutations
  (`ReleaseGate.BundlesPermutable`, `ReleaseGate.TargetsPermutable`), and the whole gate passes under
  each of them (`CrossedRelease.PermutedGate`).

## Model

| member | source | states |
|---|---|---|
| `LinkPublication.Atomic` | bench/agent_gateway_real_agent_eval.py:2657-2710 | in every reachable state of every variant, under any failures, interference or death, the final name is bound to the created inode, live or on disk, only once that inode holds the whole synced payload |
| `LinkPublication.PowerLossSafe` | bench/agent_gateway_real_agent_eval.py:2657-2710 | after a power loss that keeps for each name its last or its synced binding, the final name never shows a partial payload |
| `LinkPublication.NeverReplaces` | bench/local_beta_gate.py:242-305 | no call rebinds or removes an existing name other than the staging name |
| `LinkPublication.AllOrNothing` | bench/agent_gateway_real_agent_eval.py:2657-2710 | without interference an occupied final name is kept and refused; a return means the whole payload is on disk; a refusal or a death means the whole payload or nothing |
| `LinkPublication.StagingResidue` | bench/agent_gateway_chaos_soak.py:1628-1692 | however many calls failed, a refusal leaves the staging name exactly when the last failure was the close or the unlink of the cleanup or, in the chaos writer, the directory sync after the link or a drop without effect; with one failure only the chaos writer can |
| `LinkPublication.ChaosLeaks` | bench/agent_gateway_chaos_soak.py:1668-1692 | for every payload a run of one failure in which the staging name stays |
| `LinkPublication.CloseLeaks` | bench/agent_gateway_real_agent_eval.py:2681-2708 | for every writer and payload a failing close leaves the staging file, once the cleanup's own close fails too |
| `LinkPublication.StagingCollision` | bench/agent_gateway_chaos_soak.py:1628-1692 | a staging name already taken is always refused; the foreign file is gone exactly when a writer other than the evaluation's raised after a cleanup that did not fail |
| `LinkPublication.ForeignStagingRemoved` | bench/local_beta_gate.py:242-305 | the other two remove the foreign staging file when their cleanup succeeds |
| `LinkPublication.Progress` | bench/agent_gateway_real_agent_eval.py:2657-2710 | undisturbed and without failures every variant returns, however short its writes |
| `CorpusPublication.Invariant` | bench/agent_gateway_real_repository_corpus.py:275-455 | which names the created inode has, its link count and what was verified, in every reachable state of write, verify and rollback |
| `CorpusPublication.ReturnedMeansPublished` | bench/agent_gateway_real_repository_corpus.py:275-455 | on return, whatever others did, the final name is the inode's only name and no staging name is left, in the directory and on disk, and length and digest are the payload's |
| `CorpusPublication.UndisturbedWhole` | bench/agent_gateway_real_repository_corpus.py:275-455 | without interference the final name shows the created inode, in the directory or on disk, only while that holds the whole synced payload |
| `CorpusPublication.PowerLossSafe` | bench/agent_gateway_real_repository_corpus.py:275-455 | after a power loss that keeps for each name its last or its synced binding, the final name never shows a partial payload |
| `CorpusPublication.CompleteCleanupIsClean` | bench/agent_gateway_real_repository_corpus.py:405-455 | a refusal with complete cleanup left no name on the inode, in the directory or on disk, outside three named cases |
| `CorpusPublication.OneFailureLeavesNothing` | bench/agent_gateway_real_repository_corpus.py:275-455 | one failing call outside the cleanup leaves nothing behind, in the directory or on disk, also when it took effect, except a completed link reported as existing and a new file that cannot be identified |
| `CorpusPublication.CleanExactlyUnlessOverlooked` | bench/agent_gateway_real_repository_corpus.py:275-455 | without interference, complete cleanup leaves nothing if and only if the staging file was identified and no completed link was overlooked |
| `CorpusPublication.OthersNeverUnbound` | bench/agent_gateway_real_repository_corpus.py:275-455 | no call changes a name bound to somebody else's inode |
| `CorpusPublication.UnnoticedLink` | bench/agent_gateway_real_repository_corpus.py:330-455 | a run that is refused with complete cleanup while the file stays published |
| `CorpusPublication.UnidentifiedStaging` | bench/agent_gateway_real_repository_corpus.py:294-311 | a run that is refused with complete cleanup while the staging file stays |
| `CorpusPublication.Progress` | bench/agent_gateway_real_repository_corpus.py:275-455 | undisturbed and without failures the write returns, its read-back included |
| `SnapshotPublication.Sound` | bench/linux_pytest_execute_only_snapshot.py:697-786 | a return means the whole synced payload under the final name, singly linked, also on disk; a refusal leaves no name outside four named failures |
| `SnapshotPublication.RefusedLeavesIff` | bench/linux_pytest_execute_only_snapshot.py:740-786 | undisturbed, a refusal left the file if and only if it was not identified, not closed by the handler, not removed, or not closed at the end |
| `SnapshotPublication.LeavesFile` | bench/linux_pytest_execute_only_snapshot.py:740-786 | each of the four happens, for every payload |
| `SnapshotPublication.OthersNeverUnbound` | bench/linux_pytest_execute_only_snapshot.py:789-822 | neither creation nor removal touches a name of another inode |
| `SnapshotPublication.PartialFileVisible` | bench/linux_pytest_execute_only_snapshot.py:697-786 | every proper prefix of the payload, the empty one included, can be what a death leaves under the final name |
| `SnapshotPublication.DiesPartialIff` | bench/linux_pytest_execute_only_snapshot.py:697-786 | with the final name free, some run dies with a partial file under it if and only if the payload is not empty |
| `SnapshotPublication.DiedPartialIff` | bench/linux_pytest_execute_only_snapshot.py:697-786 | undisturbed, a dead process left a partial file if and only if it died between creation and the end of the write loop, or in the rollback, before all of the payload was written |
| `SnapshotPublication.WholeOutsideWriting` | bench/linux_pytest_execute_only_snapshot.py:697-786 | in every run, a partial file shows only where the run stands, or stood when it died, between creation and the end of the write loop or in the rollback, or after a refusal that left it other than by its last close |
| `SnapshotPublication.Progress` | bench/linux_pytest_execute_only_snapshot.py:697-786 | undisturbed and without failures the write returns, however short its writes |
| `WriteFates.RunIsFate` | bench/agent_gateway_real_agent_eval.py:2657-2710 | every undisturbed, ended run of the evaluation's writer is one journal write under one fate: same name present, same transaction file left, same outcome |
| `WriteFates.FateIsRun` | bench/agent_gateway_real_agent_eval.py:2657-2710 | every fate of a journal write is met by a run of the writer, whether the name was free or taken |
| `Journal.LoadIsRecorded` | bench/agent_gateway_real_agent_eval.py:2849-2868 | in a sound directory loading returns nothing exactly when no pair is stored, the stored pair exactly when its file is within the read bound, and otherwise refuses |
| `Journal.NumbersAreContiguous` | bench/agent_gateway_real_agent_eval.py:2870-2922 | the attempt numbers listed from the directory are exactly 1 to k |
| `Journal.StartKeeps` | bench/agent_gateway_real_agent_eval.py:2870-2922 | starting keeps the invariant at every failure, returns k + 1 unended, refuses a completed pair, readable or not, and the 129th attempt without writing; every terminal record it adds abandons an attempt that was open, and a return has abandoned exactly those |
| `Journal.CloseOpenAbandons` | bench/agent_gateway_real_agent_eval.py:2885-2906 | in any directory, sound or not: closing adds nothing but abandonments of listed attempts that were open, keeps every other record, and a return leaves each listed attempt exactly one terminal record |
| `Journal.StartIsRestart` | bench/agent_gateway_real_agent_eval.py:2870-2922 | in a sound journal, starting an uncompleted pair is abandoning the last attempt if it is open and then starting the next |
| `Journal.CompleteKeeps` | bench/agent_gateway_real_agent_eval.py:2939-2973 | completing keeps the invariant; the envelope, if written, holds the given pair |
| `Journal.FailKeeps` | bench/agent_gateway_real_agent_eval.py:2924-2937 | failing keeps the invariant and the envelope, and is on record exactly when its write took effect |
| `Journal.ConcludeKeeps` | bench/agent_gateway_real_agent_eval.py:2446-2473 | the try block around an attempt keeps the invariant under every answer; a returned pair is the one on record |
| `Journal.DoubleTerminalIff` | bench/agent_gateway_real_agent_eval.py:2463-2472 | an attempt is both finished and failed if and only if its finished record was published by a write that raised and the failure record took effect |
| `Journal.StartBegins` | bench/agent_gateway_real_agent_eval.py:2870-2922 | starting keeps the whole journal sound, adds no failed or finished record, abandons only open attempts and, if it returns, has abandoned exactly those and put an attempt not started before under way |
| `LiveLoop.VisitKeeps` | bench/agent_gateway_real_agent_eval.py:2416-2476 | one pair of the matrix: soundness kept, a completed pair only resumed, a launch only within the ceiling |
| `LiveLoop.LoopKeeps` | bench/agent_gateway_real_agent_eval.py:2414-2476 | the loop: launches only uncompleted pairs, within the ceiling; if it returns, the pairs in order, resumed plus launched, and the slots charged |
| `JournalRuns.SourceChecksIdentity` | bench/agent_gateway_real_agent_eval.py:1623-1702 | the pair validation of the source meets the one assumption of the theorems below |
| `JournalRuns.LifeKeeps` | bench/agent_gateway_real_agent_eval.py:2793-2973 | one life, however it ends, keeps the root sound, changes no record, adds none to a completed pair and never rebinds the manifest; a foreign identity changes nothing |
| `JournalRuns.HistoriesSound` | bench/agent_gateway_real_agent_eval.py:2781-2973 | after any history of lives: attempts contiguous and at most 128, earlier ones ended exactly once, finished implies the envelope, the envelope valid and naming the last attempt |
| `JournalRuns.HistoriesAdvance` | bench/agent_gateway_real_agent_eval.py:2781-2973 | every record is kept by all later lives and a completed pair never gains one |
| `JournalRuns.LifeReturns` | bench/agent_gateway_real_agent_eval.py:2414-2476 | a life that returns has the six pairs in design order, earlier ones unchanged, resumed plus executed is six, and nothing completed was executed again |
| `JournalRuns.SlotsWithinCeiling` | bench/agent_gateway_real_agent_eval.py:2263-2277 | the agent slots a life launches stay within its ceiling |
| `JournalRuns.CeilingNeverBinds` | bench/agent_gateway_real_agent_eval.py:2263-2277 | a life behaves the same under every admitted ceiling |
| `JournalBlocked.StuckForever` | bench/agent_gateway_real_agent_eval.py:2793-2835 | a root with an entry but no manifest, or with too many entries, is changed by no later life |
| `JournalBlocked.NeverOpensIffStuck` | bench/agent_gateway_real_agent_eval.py:2793-2835 | after any history, no continuation and no life opens the journal again if and only if it is stuck so |
| `JournalBlocked.BlockedExactly` | bench/agent_gateway_real_agent_eval.py:2793-2826 | for every history: the root is blocked without a manifest if and only if the first life that touched it failed to write the manifest and left its transaction file |
| `JournalBlocked.BlockedReached` | bench/agent_gateway_real_agent_eval.py:2697-2708 | one life reaches it, by a death or by a failed cleanup |
| `JournalBlocked.FullReached` | bench/agent_gateway_real_agent_eval.py:2828-2835 | 526 deaths inside the first record write leave a journal without records that never opens again |
| `JournalRuns.EvaluationNeverAccepted` | bench/agent_gateway_real_agent_eval.py:2478-2487 | after any history of live executions under any plans, no returning life has its matrix accepted |
| `JournalResume.ResumeCompletes` | bench/agent_gateway_real_agent_eval.py:2414-2476 | after any history of live executions, an untroubled life completes all six pairs if and only if the root is not stuck, has its identity or none, every pair still to do has attempts to spare and every completed one is within the read bound |
| `JournalResume.LoopSucceedsIff` | bench/agent_gateway_real_agent_eval.py:2414-2476 | an untroubled loop over designed pairs of a sound journal, within the ceiling, returns if and only if every pair still to do has attempts to spare and every completed one is within the read bound |
| `JournalResume.UntroubledExists` | bench/agent_gateway_real_agent_eval.py:2041-2192 | such lives exist under the source's pair check, for every identity, plan and report of tokens |
| `JournalResume.FreshCompletes` | bench/agent_gateway_real_agent_eval.py:2414-2476 | from an empty root such a life completes all six pairs |
| `JournalEndings.HoldsIff` | bench/agent_gateway_real_agent_eval.py:2414-2476 | over every history, for an envelope that passes a test, a start or a terminal record: it is on record if and only if some life brought it about |
| `JournalEndings.TerminalIff` | bench/agent_gateway_real_agent_eval.py:2446-2473 | over every history: an attempt is recorded as failed, or finished, if and only if the life that started it recorded that, and as abandoned if and only if a later start of the pair found it open |
| `JournalEndings.EndingIff` | bench/agent_gateway_real_agent_eval.py:2446-2473 | over every history: an attempt completed its pair and ended finished, finished and failed, failed only or not at all if and only if some life met the answers that lead there |
| `JournalEndings.TwoTerminalsIff` | bench/agent_gateway_real_agent_eval.py:2463-2472 | over every history: an attempt has two terminal records if and only if some life stored its envelope, published its finished record by a write that raised, and recorded the failure |
| `JournalEndings.VisitBrings` | bench/agent_gateway_real_agent_eval.py:2416-2476 | a visit brings such an envelope or record about exactly when it meets the answers that lead there |
| `JournalEndings.EndingReachable` | bench/agent_gateway_real_agent_eval.py:2463-2472 | each of the four endings is reached in one life from an empty root |
| `JournalUnreadable.UnreadableIff` | bench/agent_gateway_real_agent_eval.py:2713-2755 | over every history: a pair's envelope is above the read bound if and only if some life stored one so |
| `JournalUnreadable.NeverReturns` | bench/agent_gateway_real_agent_eval.py:2849-2876 | once a designed pair is above the read bound, or out of attempts, no later life returns, whatever comes in between |
| `JournalUnreadable.FinishableIff` | bench/agent_gateway_real_agent_eval.py:2793-2973 | after any history of live executions, some continuation and life still return if and only if the journal is not stuck, no pair still to do is out of attempts and no completed one is above the read bound |
| `JournalUnreadable.UnreadableReached` | bench/agent_gateway_real_agent_eval.py:1202-1225 | a first life without a failure, whose clients report tokens under one long name, completes all six pairs, and no later life returns |
| `JournalUnreadable.LongNameLengths` | bench/agent_gateway_real_agent_eval.py:1228-1236 | that name fits a line of client output and, with its characters escaped, exceeds the read bound |
| `RunJournal.RunJournal.WriteExclusive` | bench/agent_gateway_real_agent_eval.py:2657-2710 | nothing existing changes, no other name appears, the record is there exactly when the name was taken or the write took effect, and a return means a free name and no transaction file left |
| `RunJournal.RunJournal.ListStarted` | bench/agent_gateway_real_agent_eval.py:2874-2885 | the numbers of the started attempts, in order |
| `RunJournal.RunJournal.CloseOpen` | bench/agent_gateway_real_agent_eval.py:2885-2906 | the loop that abandons unended attempts equals its specification, adds only abandonments of attempts that were open, and on return leaves each attempt one terminal record |
| `RunJournal.RunJournal.StartAttempt` | bench/agent_gateway_real_agent_eval.py:2870-2922 | a sound journal stays sound, only this pair gains records, none of them failed or finished, a completed pair is refused untouched, and a return has abandoned exactly the open attempts and put one not started before under way |
| `RunJournal.RunJournal.FailAttempt` | bench/agent_gateway_real_agent_eval.py:2924-2937 | on an attempt neither failed nor abandoned: soundness and the envelope are kept and the failure is on record exactly when its write took effect |
| `RunJournal.RunJournal.CompleteAttempt` | bench/agent_gateway_real_agent_eval.py:2939-2973 | on the attempt under way: soundness is kept, an envelope holds exactly the given pair, and a return means envelope and finished record are there |
| `RunJournal.RunJournal.Conclude` | bench/agent_gateway_real_agent_eval.py:2446-2473 | on the attempt under way: soundness is kept, an envelope holds the executed pair, and a returned pair is the executed one, on record |
| `RunJournal.RunJournal.Visit` | bench/agent_gateway_real_agent_eval.py:2416-2476 | on a sound journal: a completed pair is only resumed, another is launched once and within the ceiling, and a return has its pair on record and in the ledger |
| `RunJournal.RunJournal.LiveLoop` | bench/agent_gateway_real_agent_eval.py:2414-2476 | the loop equals the recursive specification; on a sound journal completed pairs gain nothing, launches stay within the ceiling, and a return has all pairs on record, in order and counted |
| `Comparison.ValidatedEligibleCohort` | bench/agent_gateway_real_agent_eval.py:1494-1527 | the cohort loop equals its specification, refusal codes included |
| `Comparison.CohortAccepts` | bench/agent_gateway_real_agent_eval.py:1494-1527 | a cohort is accepted if and only if its runs are eligible, consistent and its replicas a permutation of the expected range |
| `Comparison.EligibleIff` | bench/agent_gateway_real_agent_eval.py:1457-1491 | a run is eligible if and only if none of the six failures holds, and otherwise the reason given is the first that does |
| `Comparison.HonestFlags` | bench/agent_gateway_real_agent_eval.py:1494-1527 | the flags stored with a built run agree with it, and no other flag or reason does |
| `Comparison.CohortSetAside` | bench/agent_gateway_real_agent_eval.py:1494-1527 | a cohort is set aside, not refused, if and only if its size is wrong or its first unfit run is honestly ineligible |
| `Comparison.OrderAlternates` | bench/agent_gateway_real_agent_eval.py:2026-2029 | the treatment order starts with the baseline and alternates along tasks and between clients |
| `Comparison.ClassifyReconciles` | bench/agent_gateway_real_agent_eval.py:1530-1620 | the reconciliation derived is the only one whose class, tally, observability and false hits each hold under exactly the stated counts; false hits are positive if and only if every request was reused and some result was wrong |
| `Comparison.PairAccepted` | bench/agent_gateway_real_agent_eval.py:1623-1702 | a pair is accepted if and only if both cohorts are sound, the baseline saw nothing of the gateway and the stored reconciliation is the one these counts call for |
| `Comparison.PairRefused` | bench/agent_gateway_real_agent_eval.py:1623-1702 | a refusal names something that is wrong with the pair |
| `Comparison.EligibleBuiltRun` | bench/agent_gateway_real_agent_eval.py:1373-1491 | an eligible run built by the harness met no environment refusal |
| `Comparison.ClassFromCounts` | bench/agent_gateway_real_agent_eval.py:1530-1620 | the class of an accepted pair depends only on the enabled client's calls and the gateway's requests |
| `Matrix.DesignComplete` | bench/agent_gateway_real_agent_eval.py:1821-1828 | six distinct designed identities are the whole design, so the final completeness test cannot refuse |
| `Matrix.CheckPairs` | bench/agent_gateway_real_agent_eval.py:1705-1828 | the loop over pairs accepts if and only if every pair passes and identities and workspaces are distinct |
| `Matrix.FitsIff` | bench/agent_gateway_real_agent_eval.py:1705-1820 | the checks of one pair pass if and only if it is designed, accepted, in its order, fresh, under the plan's fixture and binding, in one named workspace, balanced, and every run accounted for |
| `Matrix.DesignedIff` | bench/agent_gateway_real_agent_eval.py:1623-1660 | which identities, concurrencies and attempts the design admits |
| `Matrix.ExactIsDesign` | bench/agent_gateway_real_agent_eval.py:1705-1828 | an exact matrix has each designed pair once |
| `Matrix.ValidateMatrix` | bench/agent_gateway_real_agent_eval.py:1705-1828 | accepts exactly the exact matrices and then reports six pairs in six workspaces; a refusal names something wrong with the matrix |
| `Matrix.SumsConserved` | bench/agent_gateway_real_agent_eval.py:1705-1828 | over an accepted matrix dispositions and false hits stay within the requests and the baselines saw none |
| `Matrix.FalseHitsWithinRequests` | bench/agent_gateway_real_agent_eval.py:1530-1620 | the same for one pair |
| `Matrix.LiveMatrixRefused` | bench/agent_gateway_real_agent_eval.py:2041-2192 | no matrix of pairs as the live runner builds them, under any plans, is accepted |
| `Matrix.LabelledMatrixAccepted` | bench/agent_gateway_real_agent_eval.py:1790-1800 | with the identity recorded, a live matrix is accepted if and only if every delta balances and every run's model and tokens pass |
| `Matrix.WorkspacesApart` | bench/agent_gateway_real_agent_eval.py:2041-2192 | live pairs of different identities have different workspaces, whatever their attempt numbers |
| `Matrix.AttemptsApart` | bench/agent_gateway_real_agent_eval.py:2041-2192 | and so have different attempts of one pair |
| `Framing.FindIsFirst` | bench/agent_gateway_chaos_soak.py:428-461 | the newline found is the first, or there is none |
| `Framing.FramesPartitionStream` | bench/agent_gateway_chaos_soak.py:428-461 | frames followed by the leftover are the stream |
| `Framing.FramesAreLines` | bench/agent_gateway_chaos_soak.py:428-461 | every frame is one whole line of at most the bound plus one byte |
| `Framing.FinalRefusal` | bench/agent_gateway_chaos_soak.py:428-461 | the leftover's length alone decides between oversized, truncated and end of stream |
| `Framing.FramingTestOnFrames` | bench/agent_gateway_chaos_soak.py:167-171 | of the lines returned, the parser refuses exactly those one byte over the bound or ending in CR LF |
| `Framing.Session.ReadLine` | bench/agent_gateway_chaos_soak.py:428-461 | whatever the buffering and scheduling, the reading is the one the unread stream determines, and a timeout loses nothing |
| `Framing.Session.ReadLines` | bench/agent_gateway_chaos_soak.py:428-461 | any number of calls returns the leading frames, and all of them once a call refuses for good |
| `Framing.StderrCapture.Drain` | bench/agent_gateway_chaos_soak.py:414-426 | the capture is the clipped stream and the flag says whether anything was dropped |
| `JsonWalk.ValidateJsonBounds` | bench/linux_pytest_execute_only_snapshot.py:161-174 | the stack loop accepts exactly when node count, depth and leaves are within limits, and each refusal names a broken limit |
| `JsonWalk.WalkJson` | bench/agent_gateway_real_agent_eval.py:1173-1183 | the stack loop emits the recursive pre-order of objects |
| `JsonWalk.RejectNestedAuthorityClaims` | bench/linux_pytest_execute_only_snapshot.py:244-261 | refuses exactly when some authority-named key of some object at any depth holds a value other than false |
| `JsonWalk.PopAndPush` | bench/agent_gateway_alpha_trial.py:167-185 | replacing a node by its children keeps the totals of the bounds check |
| `JsonWalk.WalkStep` | bench/agent_gateway_real_agent_eval.py:1173-1183 | what is emitted and what the stack still stands for stay the whole pre-order |
| `Descendants.DescendsIffInLevel` | bench/agent_gateway_chaos_soak.py:808-832 | descendants are exactly the pids of the levels below the root |
| `Descendants.LevelsDisjoint` | bench/agent_gateway_chaos_soak.py:808-832 | without a cycle through the root no pid is met in two levels |
| `Descendants.FrontierRunsDry` | bench/agent_gateway_chaos_soak.py:808-832 | then the frontier is empty after at most one round more than the table has rows |
| `Descendants.TerminatesIffRootNotOnCycle` | bench/agent_gateway_chaos_soak.py:808-832 | the frontier empties if and only if the root is not its own descendant |
| `Descendants.DescendantSnapshot` | bench/agent_gateway_chaos_soak.py:808-832 | the loop returns exactly the descendants with their parents and groups |
| `Descendants.SelfParentedLoops` | bench/agent_gateway_chaos_soak.py:819-831 | a table whose root is its own parent, on which no round empties the frontier |
| `Discovery.FoundIffReachable` | bench/agent_gateway_real_repository_corpus.py:633-668 | the walk finds exactly the marked directories some root reaches within the depth, through readable directories |
| `Discovery.Scan` | bench/agent_gateway_real_repository_corpus.py:646-653 | refused exactly when the entries seen exceed the entry budget, also when the scan then fails |
| `Discovery.Enqueue` | bench/agent_gateway_real_repository_corpus.py:654-668 | enqueues the children before the first unreadable entry, refused exactly when they exceed the directory budget |
| `Discovery.BelowIff` | bench/agent_gateway_real_repository_corpus.py:654-668 | a child is below a directory if and only if marker and listing could be read and it is a readable directory, no link and not `.git`, listed in name order before the first entry whose kind cannot be read |
| `Discovery.BelowByName` | bench/agent_gateway_real_repository_corpus.py:654-668 | with distinct names, an unreadable entry cuts off exactly the names after its own, whatever the order of the scan |
| `Discovery.ErrsIff` | bench/agent_gateway_real_repository_corpus.py:634-672 | a directory is recorded as unreadable if and only if its marker, or, within the depth limit, its listing or the kind of an entry other than `.git`, cannot be read |
| `Discovery.Visit` | bench/agent_gateway_real_repository_corpus.py:634-672 | one directory contributes exactly its share, and is stopped exactly at a budget |
| `Discovery.VisitConserves` | bench/agent_gateway_real_repository_corpus.py:633-672 | a visit moves its share from the pending work to the work done and leaves its children pending |
| `Discovery.Search` | bench/agent_gateway_real_repository_corpus.py:628-674 | the breadth-first loop returns the totals of the recursive walk, stopping early exactly when the candidates leave no room; every other refusal names a budget the whole walk exceeds |
| `Discovery.Discover` | bench/agent_gateway_real_repository_corpus.py:591-674 | for all arguments: it returns if and only if the arguments are in order, the whole walk stays within every budget and the candidates before its last directory leave room; then with the exact totals and unreadable directories; every refusal is justified |
| `Discovery.LevelsCoverWalk` | bench/agent_gateway_real_repository_corpus.py:628-672 | the breadth-first order finds and visits exactly what the recursive walk does |
| `Discovery.OrderShifts` | bench/agent_gateway_real_repository_corpus.py:633-668 | popping the head and appending its children advances the level order by one directory |
| `Utf8.EncodeCharWellFormed` | bench/agent_gateway_real_repository_corpus.py:998-1021 | a character's encoding is a well-formed sequence of section 3 of RFC 3629 spelling that character |
| `Utf8.WellFormedEncodes` | bench/agent_gateway_real_repository_corpus.py:998-1021 | every well-formed sequence is the encoding of the character it spells |
| `Utf8.DecodeEncode` | bench/agent_gateway_real_repository_corpus.py:998-1021 | strict decoding inverts encoding |
| `Utf8.EncodeDecode` | bench/agent_gateway_real_repository_corpus.py:998-1021 | strict decoding accepts nothing but encodings |
| `Utf8.PrefixFree` | bench/agent_gateway_real_repository_corpus.py:998-1021 | encodings that begin alike encode texts that begin alike |
| `Utf8.FitCountIsLongest` | bench/agent_gateway_real_repository_corpus.py:998-1021 | the snippet is the longest prefix of whole characters that fits, wasting at most three bytes |
| `Utf8.PartialCharacterRefused` | bench/agent_gateway_real_repository_corpus.py:998-1021 | no cut between that prefix and the limit decodes |
| `Utf8.CutLine` | bench/agent_gateway_real_repository_corpus.py:998-1021 | the loop that drops bytes until decoding succeeds returns that prefix, and reports a cut exactly when bytes exceed the limit |
| `NativeSearch.SplitLinesPartition` | bench/agent_gateway_real_repository_corpus.py:944-948 | splitting loses nothing and leaves no line feed in a line |
| `NativeSearch.RustLinesRebuild` | bench/agent_gateway_real_repository_corpus.py:944-948 | the lines, each with its ending put back, are the text; a line loses the one carriage return its ending has and no other, and the text's last line feed opens no line |
| `NativeSearch.SearchLines` | bench/agent_gateway_real_repository_corpus.py:996-1026 | the loop over a file's lines extends the matches, or cuts all matches at the limits |
| `NativeSearch.SearchFiles` | bench/agent_gateway_real_repository_corpus.py:981-1043 | the loop over files answers as specified, errors included |
| `NativeSearch.Search` | bench/agent_gateway_real_repository_corpus.py:951-1043 | refused arguments, blocked trees and answered searches, for all roots and entries |
| `NativeSearch.CutUnique` | bench/agent_gateway_real_repository_corpus.py:1009-1026 | the limits leave exactly one prefix and one flag |
| `NativeSearch.FlaggedUncutIff` | bench/agent_gateway_real_repository_corpus.py:1009-1026 | the flag is set with nothing cut if and only if the matches fit the budget and are as many as the maximum |
| `NativeSearch.FlaggedUncut` | bench/agent_gateway_real_repository_corpus.py:1024-1026 | a search whose one match is returned whole and marked truncated |
| `NativeSearch.AnswerUnique` | bench/agent_gateway_real_repository_corpus.py:951-1043 | the specification determines the answer |
| `NativeSearch.WalkOrderIrrelevant` | bench/agent_gateway_real_repository_corpus.py:951-980 | the order in which the walk yields distinct paths cannot show |
| `Blake3Words.MaskWord` | bench/agent_gateway_onboarding_smoke.py:147-161 | masking with 0xFFFF_FFFF is reduction modulo 2^32 |
| `Blake3Words.RotateBit` | bench/agent_gateway_onboarding_smoke.py:147-148 | the masked shifts rotate the 32 bits |
| `Blake3Words.RotateUndo` | bench/agent_gateway_onboarding_smoke.py:147-148 | rotating by 32 minus the count undoes a rotation |
| `Blake3Words.PythonLawful` | bench/agent_gateway_onboarding_smoke.py:147-161 | the source's masked addition, exclusive or and rotation each have their inverse |
| `Blake3Words.UnhalfHalf` | bench/agent_gateway_onboarding_smoke.py:151-161 | half a mix can be undone |
| `Blake3Words.HalfUnhalf` | bench/agent_gateway_onboarding_smoke.py:151-161 | and every quadruple is reached |
| `Blake3Words.QuarterInverse` | bench/agent_gateway_onboarding_smoke.py:151-161 | the mix is a bijection on four words for all message words |
| `Blake3Compress.MixesCommute` | bench/agent_gateway_onboarding_smoke.py:169-177 | the four column mixes commute, and so do the four diagonal mixes |
| `Blake3Compress.MixesInverse` | bench/agent_gateway_onboarding_smoke.py:169-177 | any number of the eight calls of a round is a bijection on states |
| `Blake3Compress.RoundsBijective` | bench/agent_gateway_onboarding_smoke.py:164-178 | any number of rounds, with the message permuted, is a bijection on states; up to seven are the rounds of the schedule |
| `Blake3Compress.MessageAt` | bench/agent_gateway_onboarding_smoke.py:168-178 | word k of the block permuted r times is the block word the written-out schedule of seven rounds names |
| `Blake3Compress.RoundsFollowSchedule` | bench/agent_gateway_onboarding_smoke.py:167-178 | for every block, permuting the message between rounds gives the rounds of that schedule |
| `Blake3Compress.RoundWrittenOut` | bench/agent_gateway_onboarding_smoke.py:170-177 | a round mixes the four columns, each as it was, and then the four diagonals of the result |
| `Blake3Compress.FeedForwardInvertible` | bench/agent_gateway_onboarding_smoke.py:179-182 | the final exclusive ors lose nothing, given the chaining value |
| `Blake3Compress.CompressSeparates` | bench/agent_gateway_onboarding_smoke.py:164-182 | with equal chaining value and words, compressions that differ in length or flags differ in output |
| `Blake3Compress.MixInPlace` | bench/agent_gateway_onboarding_smoke.py:151-161 | the eight updates in place are the mix of the four lanes and change nothing else |
| `Blake3Compress.MixesInPlace` | bench/agent_gateway_onboarding_smoke.py:169-177 | the calls of a round in place |
| `Blake3Compress.RoundsInPlace` | bench/agent_gateway_onboarding_smoke.py:167-178 | the round loop in place computes the permuted rounds and, up to seven, those of the schedule |
| `Blake3Compress.CompressInPlace` | bench/agent_gateway_onboarding_smoke.py:164-182 | the whole compression: seven rounds of the schedule and the final exclusive ors |
| `MachineWords.AddIsMachine` | bench/agent_gateway_onboarding_smoke.py:154-160 | masked addition of integers is addition of 32-bit machine words |
| `MachineWords.XorIsMachine` | bench/agent_gateway_onboarding_smoke.py:154-161 | exclusive or of integers is that of machine words |
| `MachineWords.RotateIsMachine` | bench/agent_gateway_onboarding_smoke.py:147-148 | the four rotations of a mix are those of machine words |
| `Blake3Machine.RoundExact` | bench/agent_gateway_onboarding_smoke.py:169-177 | a round on integers is the round on any machine words with such operations |
| `LittleEndian.BytesToInteger` | bench/agent_gateway_onboarding_smoke.py:209-210 | reading back the bytes of an integer that fits gives the integer |
| `LittleEndian.IntegerToBytes` | bench/agent_gateway_onboarding_smoke.py:193-196 | writing the integer of some bytes gives the bytes |
| `Blake3Chunk.BlocksPartition` | bench/agent_gateway_onboarding_smoke.py:190-190 | the blocks concatenate to the input, all full but the last |
| `Blake3Chunk.WordsInjective` | bench/agent_gateway_onboarding_smoke.py:193-197 | padded words and length determine the block |
| `Blake3Chunk.FlagsMeaning` | bench/agent_gateway_onboarding_smoke.py:198-200 | exactly the first block carries the start flag, exactly the last the end and root flags |
| `Blake3Chunk.OutputByteAt` | bench/agent_gateway_onboarding_smoke.py:202-202 | byte 4i + j of the output is byte j, from the lowest, of output word i |
| `Blake3Chunk.ChunkLoop` | bench/agent_gateway_onboarding_smoke.py:191-205 | the block loop computes recursive chaining |
| `Blake3Chunk.Blake3SingleChunk` | bench/agent_gateway_onboarding_smoke.py:185-206 | the digest is the recursive hash, refused exactly above one chunk, and its bytes are those of the first eight output words |
| `Blake3Vector.AbcDigest` | bench/test_agent_gateway_onboarding_smoke.py:106-114 | the digest of `abc` is the published one, with the sixteen state words after each of the seven rounds |
| `Commitment.DecodeEncode` | bench/agent_gateway_onboarding_smoke.py:209-232 | a decoder recovers the fields of every commitment with lengths below 2^64 |
| `Commitment.CommitmentInjective` | bench/agent_gateway_onboarding_smoke.py:217-232 | equal commitments have equal fields |
| `Commitment.Commit` | bench/agent_gateway_onboarding_smoke.py:224-231 | the loop that extends the commitment computes the encoding, refused exactly for an unencodable length |
| `Commitment.ExpectedOwnershipDigest` | bench/agent_gateway_onboarding_smoke.py:217-232 | the digest of the four-field commitment |
| `AlphaTrial.Index` | bench/agent_gateway_alpha_trial.py:735-747 | the dictionary by identifier, accepted exactly when every scenario is known and none repeats |
| `AlphaTrial.NoneMissing` | bench/agent_gateway_alpha_trial.py:735-753 | as many distinct known scenarios as specifications: none is missing |
| `AlphaTrial.ScenarioAccepted` | bench/agent_gateway_alpha_trial.py:517-600 | a scenario is accepted if and only if its ranges, bindings, claim, streams, counters and proof hold, and yields the cold duration over the warm one exactly if it is a timed success; a refusal names what is wrong |
| `AlphaTrial.CheckScenarios` | bench/agent_gateway_alpha_trial.py:749-763 | the scenarios in fixed order, each credible, with the rounded cold over warm durations of exactly the timed successes, or a refusal that some scenario earns |
| `AlphaTrial.Totals` | bench/agent_gateway_alpha_trial.py:765-768 | the Counter loops compute the sums |
| `AlphaTrial.ValidateTrial` | bench/agent_gateway_alpha_trial.py:606-831 | accepts exactly the valid trials, with their verdict; a refusal names something wrong with the trial, and never a missing scenario |
| `AlphaTrial.VerdictUnique` | bench/agent_gateway_alpha_trial.py:606-831 | a trial has one verdict |
| `AlphaTrial.NormalisedRevalidates` | bench/agent_gateway_alpha_trial.py:606-852 | the stored trial validates again, without inspection, to the same trial, summary and class |
| `AlphaTrial.NothingLost` | bench/agent_gateway_alpha_trial.py:749-815 | stored scenarios are a permutation of the submitted ones, every attempt is classified once, totals are those of the submission |
| `AlphaTrial.SamplesCount` | bench/agent_gateway_alpha_trial.py:551-574 | admitted successes are at most the samples plus the untimed scenarios |
| `AlphaTrial.PassingFalseHits` | bench/agent_gateway_alpha_trial.py:575-586 | a passing report has no false hit if and only if its unsupported scenarios report none |
| `AlphaTrial.PassingWithFalseHits` | bench/agent_gateway_alpha_trial.py:584-586 | a trial that passes while counting false hits |
| `Aggregate.VerifyDocument` | bench/agent_gateway_alpha_trial.py:834-852 | every report it writes reconciles when aggregated |
| `Aggregate.CheckReport` | bench/agent_gateway_alpha_trial.py:878-911 | accepts exactly the reports that follow from their own trial and claim nothing |
| `Aggregate.MedianHalves` | bench/agent_gateway_alpha_trial.py:855-862 | at least half of the values are no smaller and at least half no larger than the median |
| `Aggregate.MedianIsMiddle` | bench/agent_gateway_alpha_trial.py:855-862 | the middle of any sorted list of the values, for an even count the mean of the two |
| `Aggregate.MedianNegates` | bench/agent_gateway_alpha_trial.py:855-862 | negating all values negates the median |
| `Aggregate.OrderIrrelevant` | bench/agent_gateway_alpha_trial.py:865-1010 | permuting reports with their digests changes neither acceptance nor the aggregate |
| `Aggregate.FiftyAttempts` | bench/agent_gateway_alpha_trial.py:944-951 | accepted reports are exactly fifty attempts, and thirty-five successes force fifteen samples |
| `Aggregate.GateExactly` | bench/agent_gateway_alpha_trial.py:952-961 | the gate passes if and only if every report passes, no false hit is counted, and successes and median suffice |
| `Aggregate.GatePasses` | bench/agent_gateway_alpha_trial.py:952-961 | then every scenario of every report counts no false hit and at least half of at least fifteen samples reach 3 |
| `Aggregate.SampleDecides` | bench/agent_gateway_alpha_trial.py:580-582 | with exact division, rounded to nine places, a sample reaches 3 if and only if the cold run took three times as long as the warm one |
| `Aggregate.VerdictMeasures` | bench/agent_gateway_alpha_trial.py:749-815 | the samples of an accepted trial are as many as its timed successes, and those of at least 3 as many as ran three times faster warm |
| `Aggregate.GateMeansFaster` | bench/agent_gateway_alpha_trial.py:952-961 | a passing gate has at least fifteen timed successes, and at least half of them ran three times faster warm |
| `Aggregate.Collect` | bench/agent_gateway_alpha_trial.py:878-943 | the loop over reports collects the totals, rejected exactly when a report fails or an identifier repeats, with a code that says which |
| `Aggregate.AggregateReports` | bench/agent_gateway_alpha_trial.py:865-1010 | accepts exactly the acceptable reports and returns their aggregate; a rejection names something wrong, and never the attempt count |
| `ReleaseGate.SubjectsDistinct` | bench/local_beta_gate.py:708-717 | for every tag the seven subject names are distinct |
| `ReleaseGate.SubjectsAreNotBundles` | bench/local_beta_gate.py:768-774 | no subject is a bundle name, so the intersection test is redundant |
| `ReleaseGate.SevenBundles` | bench/local_beta_gate.py:737-777 | an accepted release has seven distinct subjects and seven distinct bundles, all fourteen different |
| `ReleaseGate.OneArchivePerTarget` | bench/local_beta_gate.py:757-772 | an accepted release has exactly one archive for each target |
| `ReleaseGate.ValidateRelease` | bench/local_beta_gate.py:720-786 | accepts exactly the exact releases; no dictionary entry overrides another; a refusal names something wrong with the release |
| `ReleaseGate.BundlesPermutable` | bench/local_beta_gate.py:755-771 | an exact release stays exact under other bundle names if and only if they are a permutation of the expected ones |
| `ReleaseGate.TargetsPermutable` | bench/local_beta_gate.py:757-772 | an exact release stays exact under other targets on its archives if and only if they are a permutation of the four |
| `CrossedRelease.PermutedExact` | bench/local_beta_gate.py:737-777 | for every tag, every permutation of bundles and targets makes an exact release |
| `CrossedRelease.PermutedGate` | bench/local_beta_gate.py:789-834 | for every tag and permutation the whole gate passes, with native reports matched to archives named for other targets |
| `CrossedRelease.CrossedAccepted` | bench/local_beta_gate.py:755-777 | an accepted release with a crossed bundle and a crossed target |
| `ReleaseGate.SortedTargets` | bench/local_beta_gate.py:802-806 | the sorted native targets equal the list if and only if they are a permutation of it |
| `ReleaseGate.GateBijection` | bench/local_beta_gate.py:789-834 | an accepted gate pairs exactly one native report with exactly one archive for each target, with equal digests |
| `ReleaseGate.QualifiedIsInstalled` | bench/local_beta_gate.py:816-834 | the qualified binary is the one installed natively for the product's target |
| `ReleaseGate.BuildGate` | bench/local_beta_gate.py:789-868 | passes exactly when the gate holds and lists one native digest per target; a refusal names what is missing |

## Left out

- The gateway, its store and service in Rust, and the Cloudflare worker: only the evidence harnesses under `bench/` are modelled.
- Child processes, sockets, credentials, fixtures, Git probes and timing: their answers are parameters, and the code that asks for them would add only easy members.
- JSON decoding, canonical encoding and the field-by-field schema tests: documents are typed records, and the flags `valid`, `attested`, `identified`, `typed` stand for such tests. Patterns of digests, tags and identifiers belong here too.
- Hexadecimal rendering of digests.
- The length of a journal file is a function parameter; of its JSON encoding only the escaping of token names is modelled. The manifest is read under the same bound, but it holds only digests, short platform names, versions of at most 256 characters and identifiers of at most 128, so the bound cannot refuse it and is not modelled there.
- Closing a directory descriptor, which was only read, is assumed not to fail. Closing a written file is a call like any other.
- Credential scanning of published documents, and the retry of the staging name under sixteen random suffixes: a state machine covers one attempt at a name.
- Floating point: speedups and medians are reals; division and rounding of samples are parameters, and the mean of the two middle samples is exact.
- Root canonicalisation and the later inspection of found repositories in the discovery.
- The other reports of the release gate (`validate_scenario`, `validate_chaos`, `validate_real_agent`): they enter as records with a `valid` flag.
- The descriptive summary of the evaluation and the reconciliation of gateway counters.
- Descendants.DescendantSnapshot: requires that the root is not its own descendant, because the loop of the source does not end otherwise (`Descendants.TerminatesIffRootNotOnCycle`).
- AlphaTrial.ValidateTrial: when several things are wrong, which of them is reported is not part of the contract; the same holds of ReleaseGate.ValidateRelease, ReleaseGate.BuildGate and Aggregate.AggregateReports.
- Publication machines and the journal's specification are written as transition systems over values, not as methods: what they add over the loops of the source is the choice of a failure or a death at every call.
