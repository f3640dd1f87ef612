# Evidence and execution protocols, verified

This Dafny 4.11 project models the stateful protocols of the repository: the CEO journey evidence store
and its three stages, nested deadlines and bounded polling, the attester supervisor, the CI workload
inventory, at-most-once job submission, two watchdogs, outgoing-commit coverage, the sign-in store, the
metrics registry and printer, permission reconciliation, and duration strings. Each is proved over every
input, every run or every interleaving. `dafny verify dfyconfig.toml` checks the whole project.

## How the program is represented

- **Concurrency and crashes.** Protocols between processes are transition systems with one system call
  (or one database transaction) per step. Processes may stop before any step. For the artifact store, the
  evidence journey and the holdout directory a loss of power is a step too: it ends every process and drops
  what no sync covered.
- **Loops and objects.** Loops are methods with invariants, proved against a specification function or an
  if-and-only-if; `Process`, `Store`, `Auth`, `HistogramState`, `Registry`, `Collection` and `Server` are
  classes with the fields the code updates.
- **Inputs from outside.** Clocks, provider answers, Git's object database and the child process's life are
  inputs, arbitrary except for stated honesty (a sleep lasts at least as long as asked; clocks that are
  called monotonic do not run backwards).
- **Hashes and encodings.** SHA-256 and token hashes are injective; canonical JSON is represented by its
  bytes. Time and probabilities are real numbers.

| file | subject |
|---|---|
| `Registers.dfy` | write-once registers that a loss of power may empty |
| `JourneyStore.dfy`, `JourneyStoreSafety.dfy`, `JourneyStoreRuns.dfy`, `JourneyStoreBudget.dfy`, `JourneyStoreLosses.dfy`, `JourneyStoreProgress.dfy`, `JourneyStoreWitnesses.dfy` | the registers in files: directories, names, inodes and link counts; budget scan; what lone calls answer |
| `Evidence.dfy`, `EvidenceChecks.dfy`, `Journey.dfy`, `JourneyPromises.dfy`, `JourneyAnswers.dfy`, `JourneyWitnesses.dfy`, `FactualText.dfy`, `FactualReading.dfy` | captured snapshots and their verifier; snapshot, explanation and saved record on the registers; the explanation's text and how it reads |
| `DeadlineBudgets.dfy`, `DeadlineShapes.dfy`, `GuestReadiness.dfy` | nested deadlines on one timer; how late they can be; the readiness poll |
| `TextReader.dfy`, `TextEncoding.dfy`, `Supervisor.dfy`, `SupervisorProofs.dfy`, `SupervisorOutcomes.dfy` | reading UTF-8 while it grows; incremental line parser fused with the admission state machine |
| `Inventory.dfy`, `InventoryChecks.dfy`, `InventoryProofs.dfy` | builder, checker and consumer of the workload inventory |
| `HoldoutCreation.dfy` | durable intent before an irrevocable call, time reserves |
| `JobMonitor.dfy`, `BoundedVm.dfy`, `BoundedVmHistory.dfy` | the two watchdogs |
| `Publication.dfy`, `PublicationMeaning.dfy` | what a push publishes and what is scanned |
| `AuthStore.dfy`, `AuthRuns.dfy` | challenges, logins and sessions |
| `Exposition.dfy`, `Histograms.dfy` | sample lines; histogram aggregates |
| `RolePermissions.dfy`, `Decimals.dfy`, `Wrappers.dfy` | reconciliation; decimal strings and durations; shared values |

## What the proofs found

Where a promise does not hold of the code on all inputs, the model keeps the code, exhibits an input or a run,
and proves when the promise does hold.

- A value returned by `read` need not have been covered by a directory sync and may be lost and replaced
  (`ReturnedReadIsLost`).
- An acknowledged write may be lost too: a `write` that finds its subject's directory syncs that directory but not
  its entry in the root, and so does a constructor that finds the root (`AcknowledgedWriteIsLost`,
  `AnchoredOnlyByItsMaker`). An artifact
  outlives every power loss exactly when three syncs have been done: of its directory after the artifact, of the root
  after the directory, and of the parent after the root (`SurvivesLossIffSafe`, `AcknowledgedForGoodIff`).
- After a loss of power a returned explanation may be replaced by another (`GivenExplanationIsLost`), and a record
  may outlive the explanation it embeds, after which `save` refuses for good (`StuckSaveHappens`,
  `MismatchIsForGood`). No loss can part a record or an explanation from what it rests on
  exactly when the earlier stages have been synced (`EveryLossKeepsOrderIff`).
- A writer killed between link and unlink blocks the store for good: no later write is admitted and the
  artifact is never readable (`StuckHappens`, `KilledBeforeUnlink`, `StuckForever`).
- `verify_row` refuses timestamps of more than 30 digits, which a valid campaign may contain
  (`LongTimestampIsRefused`, `CapturedIsAccepted`).
- An enclosing deadline can be overrun by more than the inner budget (`LateShape`). Which blocks keep that
  bound for all durations is decided by their shape (`InnerBudgetBoundIff`); in general the overrun is the
  sum of the nested budgets plus cleanup (`LateByAtMost`), and nearly attained (`SumIsApproached`). A nested
  block that comes before any work and is no longer than the one around it does no harm
  (`FirstBlockIsHarmless`). A budget of zero is no deadline (`ZeroBudgetNeverExpires`).
- `prepare` does not check the bounds of the checker (`EmptyAuditIsRefused`): its proposal is accepted exactly
  when it is within them (`PreparedIsAccepted`).
- A push of an object that names no commit, such as a tag on a blob, is accepted and not scanned
  (`BlobPushEscapes`); a line is covered exactly when its object names a commit or brings nothing new
  (`CoveredIffCommit`).
- `bounded_vm` checks the remaining time only at the handshake: a parent delayed past the watchdog's deadline
  before its start call can leave normally on the receipt of a stop made before the start
  (`LateStartHappens`); started in time, it cannot (`NeverLeftUnverified`).
- An interruption that lands between the protected statements of the cleanup, or in one of their handlers,
  leaves the machine without a read-back (`EscapeHappens`), and nothing else does (`BackedIffNothingEscaped`).
- Declaring a histogram again with new bounds leaves the new buckets of existing series at zero
  (`RedeclaredHistogram`, `RenderedIff`).
- The supervisor's text file decodes each read by itself: output whose record contains an accented letter, or whose
  lines end in CR LF, fails when a read happens to end inside the letter or the line end, and is delivered otherwise
  (`CutReadHappens`, `DeliveredIffCleanReads`); ASCII without carriage returns is safe (`AsciiReadsAreClean`).
- A duration of digits and a long s (U+017F) matches the pattern that ignores case and then raises a KeyError
  (`DurationMeaning`).
- A progress record of an unknown event that carries terminal fields ends a delivery, since the code looks at
  those fields after the events it names (`UnknownEventIsTerminal`).

## Model

| member | source | states |
|---|---|---|
| JourneyStoreSafety.StepKeepsInv | backend/app/ceo_journey_store.py:42-159 | Every system call of every constructor, writer and reader, a kill before any of them and a loss of power keep the store invariant: names lie in directories that exist, link counts equal the number of names, only one process is past the lock, a published name stands for whole flushed canonical bytes, and each process may rely on what its program point says |
| JourneyStoreSafety.ReachableInv | backend/app/ceo_journey_store.py:42-159 | The invariant holds after every possible run, from before the store's root is made |
| JourneyStoreRuns.OneValuePerName | backend/app/ceo_journey_store.py:135-159 | Without power loss, in every interleaving, all `read` and `write` calls on one name that succeed return the same whole canonical value |
| JourneyStoreRuns.BoundForGood | backend/app/ceo_journey_store.py:152-157 | Without power loss, once a name is published, at every later moment of the run it names the same inode with the same bytes |
| JourneyStoreRuns.AcknowledgedWritesAgree | backend/app/ceo_journey_store.py:52-64 | Power may fail any number of times: once a write is acknowledged, and the entries of its directory in the root and of the root in its parent are synced before the first loss, every later call on that name that succeeds returns its value |
| JourneyStoreRuns.AcknowledgedForGoodIff | backend/app/ceo_journey_store.py:52-64 | Between the acknowledgement of a write and the first loss of power, the name stands for its value in every possible continuation if and only if both entries above its directory have been synced |
| JourneyStoreRuns.SurvivesLossIffSafe | backend/app/ceo_journey_store.py:42-64 | A published name survives every possible power loss exactly when syncs have covered it in its directory, its directory in the root, and the root in its parent |
| JourneyStoreRuns.RootedIff | backend/app/ceo_journey_store.py:56-61 | A directory's entry in the root is covered exactly when, while the directory was there, a `write` that had just made its own subject's directory synced the root, and the root was not lost since; a `write` that finds its directory syncs no root |
| JourneyStoreLosses.MadeOnce | backend/app/ceo_journey_store.py:56-61 | Two makings of one subject's directory have a loss of power between them: everybody else finds it |
| JourneyStoreLosses.AnchoredOnlyByItsMaker | backend/app/ceo_journey_store.py:42-50 | In every run the root's entry is covered only by the constructor that made the root: one that finds it, or comes after the maker was killed, syncs nothing above it |
| JourneyStoreLosses.KilledMakerLeavesItUncovered | backend/app/ceo_journey_store.py:42-50 | A constructor killed between making the root and syncing its parent leaves a root that nobody syncs in any continuation without a loss of power |
| JourneyStoreLosses.NothingGoesOn | backend/app/ceo_journey_store.py:42-64 | A loss of power ends every call and every constructor: whatever happens next is a new root, a new call, or another loss |
| JourneyStoreLosses.ArtifactsAreSized | backend/app/ceo_journey_store.py:66-94 | In every run what a name stands for is canonical and has 1 to 262144 bytes |
| JourneyStoreWitnesses.AcknowledgedWriteIsLost | backend/app/ceo_journey_store.py:52-64 | A reachable run: the maker of a directory is killed before it syncs the root, another write finds the directory and is acknowledged, the power fails, and the same name is written and acknowledged with another value |
| JourneyStoreWitnesses.ReturnedReadIsLost | backend/app/ceo_journey_store.py:140-159 | A reachable run in which a `read` returns a value before the writer's directory sync, the power fails, and the same name is then written, acknowledged and returned with another value |
| JourneyStoreRuns.SafeForGood | backend/app/ceo_journey_store.py:52-64 | An artifact covered by the three syncs keeps its value through everything that follows, power losses included |
| JourneyStoreRuns.KilledBeforeUnlink | backend/app/ceo_journey_store.py:153-157 | Killing a writer between its link and its unlink leaves an inode with two names and nobody to remove one |
| JourneyStoreWitnesses.StuckHappens | backend/app/ceo_journey_store.py:143-157 | The complete run, from the empty store, that ends in that state |
| JourneyStoreRuns.StuckForever | backend/app/ceo_journey_store.py:122-127 | From then on, without power loss, no file and no name ever changes, so the store never grows, and no call on that name returns |
| JourneyStoreRuns.ReaderBetweenLinkAndUnlink | backend/app/ceo_journey_store.py:80-84 | A reader that opened a name whose writer stands between link and unlink can only be refused as unavailable, or be killed |
| JourneyStoreRuns.RefinesRegisters | backend/app/ceo_journey_store.py:73-159 | Each step either leaves the table of published values alone or lets a `write` fill its own empty register with its own value; calls return the register's value, and Missing is reported only for an empty register |
| JourneyStoreRuns.FilesRefineRegisters | backend/app/ceo_journey_store.py:42-159 | Simulation: every run of the files, with its kills and losses, is from any of its moments on a run of fills, syncs and losses on a table of write-once registers |
| JourneyStoreRuns.WholeRunRefinesRegisters | backend/app/ceo_journey_store.py:42-159 | In particular every run of the files, from before the root is made, is a run of the registers from the empty table that the journey starts on |
| JourneyStoreRuns.EveryLossIsPossible | backend/app/ceo_journey_store.py:42-64 | Conversely, every loss that the registers allow can happen to the files, so the abstraction loses nothing |
| JourneyStoreRuns.AnswerIsRegister | backend/app/ceo_journey_store.py:73-94 | What a call returns is the content of its register at that moment; for a `write` the register is covered by a sync of its directory |
| JourneyStoreRuns.WriteIsFillSyncRead | backend/app/ceo_journey_store.py:135-159 | A `write` that succeeds has published or found its artifact, then synced its directory, then read its register, in this order |
| JourneyStoreProgress.LoneWriteAnswersStored | backend/app/ceo_journey_store.py:135-159 | From every state of the store invariant in which a name is published and singly linked, a `write` of any value of good size on it, run alone from its start, can return the stored value; it changes no file and no name, and syncs the directory |
| JourneyStoreProgress.LoneWriteAnswersOwn | backend/app/ceo_journey_store.py:73-159 | From every state with the lock free and the store within its limits, a `write` of any value of good size on a name not published, run alone from its start, can return its own value; the name then stands for it, synced, and no other name, file or value is changed |
| JourneyStoreProgress.LateWriteAnswersStored | backend/app/ceo_journey_store.py:135-159 | A `write` that saw no artifact, and comes to the lock after another has published one, can return the other's value; its own file loses its only name, and no name and no published value changes |
| JourneyStoreProgress.LoneReadAnswers | backend/app/ceo_journey_store.py:73-94 | A `read` of a published, singly linked name, run alone from its start, can return the stored value |
| Registers.KeptForGoodIff | backend/app/ceo_journey_store.py:42-64 | A register keeps its value through every continuation exactly when its three syncs have been done |
| JourneyStoreBudget.ScanStep | backend/app/ceo_journey_store.py:122-130 | One scanned entry is a file not counted before, so the running count and size are those of the distinct files seen |
| JourneyStoreBudget.ScanComplete | backend/app/ceo_journey_store.py:113-131 | A finished scan has counted every file and byte of the store and found every link count 1; the empty store is safe without a check |
| JourneyStoreBudget.NeverOverBudget | backend/app/ceo_journey_store.py:99-158 | In every reachable state without power loss, mid-write and after kills included, there are at most MAX_FILES distinct files and MAX_STORE_BYTES bytes |
| JourneyStoreBudget.AdmittedWithinLimits | backend/app/ceo_journey_store.py:99-158 | With any number of power losses, a writer past its scan finds room for one more file and its own bytes, so no write is admitted to a store over its limits |
| JourneyStoreBudget.WriteBudget | backend/app/ceo_journey_store.py:113-131 | The short-circuiting double loop admits a write exactly when the whole-store check does |
| Evidence.GroupIsSession | backend/app/ceo_journey_evidence.py:28-34 | The group of a session lists exactly the campaign's rows of that session, in order |
| Evidence.Prepared | backend/app/ceo_journey_evidence.py:28-37 | The prepared window is placed around the first row at or above the transformer threshold; it is refused exactly when no row is |
| Evidence.WindowShowsFirstAlert | backend/app/ceo_journey_evidence.py:33-42 | The first alert lies in the window's page at an index of at most 16 and below the limit |
| Evidence.VerifySnapshot | backend/app/ceo_journey_evidence.py:56-79 | The running `previous` ordinal accepts exactly the snapshots whose hash and fields are right and whose context is the run of earlier rows that ends just before the selected one |
| EvidenceChecks.AcceptedSnapshotIff | backend/app/ceo_journey_evidence.py:56-106 | Exactly which snapshots are accepted under an identifier, field by field, with both frozen thresholds, the alert as the comparison with them, and a context of at most sixteen consecutive rows that ends just before the selected one |
| EvidenceChecks.AcceptedExplanationIff | backend/app/ceo_journey_evidence.py:124-132 | An explanation is accepted for a snapshot exactly when it is the one `explain` makes at some time and its text has at most 4096 characters |
| EvidenceChecks.AcceptedRecordIff | backend/app/ceo_journey.py:71-80 | A record is accepted under an identifier exactly when it is the bundle, made at some time, of an accepted snapshot and an accepted explanation of it |
| EvidenceChecks.PageIff | backend/app/research/saved_scores.py:87-105 | A window can be paged exactly when no two runs share a hash, its session has a row, it starts no later than the session ends and its limit is 1 to 100; the page is then the session's rows from the offset on |
| Evidence.CapturedIsAccepted | backend/app/ceo_journey.py:34-55 | Every snapshot assembled by `capture` from pages of a valid campaign is accepted exactly when all its timestamps have at most 30 digits |
| Evidence.CaptureCopiesTheCampaign | backend/app/ceo_journey.py:40-53 | Over the saved rows alone: the selected row and every context row of an assembled snapshot carry the fields of the campaign row they name as their source, both detectors' scores of that very row and their comparisons with the frozen thresholds; the context is the run of the session's rows that ends just before the selected one |
| Evidence.CaptureSucceedsIff | backend/app/ceo_journey.py:40-47 | A capture assembles a snapshot exactly when the window can be paged and one of its rows carries the target and is an alert of the selected detector |
| Evidence.LongTimestampIsRefused | backend/app/ceo_journey_evidence.py:88-88 | A concrete valid campaign whose captured snapshot is refused for a 31-digit timestamp |
| Journey.StepKeepsInv | backend/app/ceo_journey.py:34-94 | Each store call of capture, explain, save and record, each sync and each loss of power keeps every stored artifact sound; all but a loss also keep it resting on the stored earlier stages |
| Journey.StepIsRegisterOp | backend/app/ceo_journey.py:34-94 | Each event of the journey is at most one operation on the registers that the files are shown to implement |
| Journey.LossKeepsOrderIff | backend/app/ceo_journey.py:60-94 | A loss of power leaves every stored artifact resting on its earlier stages exactly when it takes no stage from under a later one |
| Journey.EveryLossKeepsOrderIff | backend/app/ceo_journey.py:60-94 | No possible loss takes a stage from under a later one exactly when every stored artifact's earlier stages have been synced |
| Journey.BuildingOnSyncedIsOrderly | backend/app/ceo_journey.py:60-94 | A run in which explanations and records are published only on synced earlier stages is orderly, however often power fails |
| JourneyPromises.SavedEmbedsItsJourney | backend/app/ceo_journey.py:81-94 | In every run whose losses are orderly (so in every run without one) a saved record exists only over a stored explanation and snapshot, and embeds exactly those two |
| JourneyPromises.ExplanationNeedsSnapshot | backend/app/ceo_journey.py:60-69 | In every such run a stored explanation exists only over the stored snapshot it explains, with that snapshot's factual text |
| JourneyPromises.ListingNeverRefuses | backend/app/ceo_journey.py:96-100 | In every run, after any losses, `record` refuses no saved artifact, so every saved identifier can be listed |
| JourneyPromises.RefusesIffMisfit | backend/app/ceo_journey.py:60-94 | In every run, after any losses, a store call of `explain` or `save` ends in a refusal exactly when the stored explanation is of another snapshot than the one read, or the stored record embeds other parts than those read |
| FactualText.ExplainAndSaveNeverRefuse | backend/app/ceo_journey.py:60-94 | In every run whose losses are orderly, no store call of `explain` or `save` refuses an artifact that a journey has stored |
| JourneyAnswers.CaptureAnswers | backend/app/ceo_journey.py:34-57 | Run alone on any sound store, `capture` stores and gives its snapshot if there is none, gives it again if it is the stored one, and refuses any other |
| JourneyAnswers.ExplainAnswers | backend/app/ceo_journey.py:60-69 | Run alone on any sound store, `explain` finds nothing exactly when no snapshot is stored; otherwise it gives the stored explanation if it is of that snapshot, refuses one of another, and stores and gives a fresh one if there is none |
| JourneyAnswers.SaveAnswers | backend/app/ceo_journey.py:81-94 | Run alone on any sound store, `save` finds nothing exactly when the snapshot or the explanation is not stored; otherwise it refuses misfits, gives the stored record if it embeds both, and stores and gives a fresh one if there is none |
| JourneyAnswers.ReachableIsSound | backend/app/ceo_journey.py:34-100 | Every store that any run of journeys, syncs and losses reaches is sound, so the three characterisations hold of it |
| JourneyPromises.SuccessfulCallsAgree | backend/app/ceo_journey.py:60-94 | Without power loss, all successful `explain` calls for one identifier agree, and so do all `save` and `record` calls, whatever their clocks |
| JourneyPromises.GivenArtifactsFit | backend/app/ceo_journey.py:57-94 | Without power loss, an explanation that was returned explains the snapshot that was captured, and a returned record bundles exactly both |
| JourneyPromises.GivenForGoodIff | backend/app/ceo_journey.py:60-94 | Until the first loss, what a call gave stands in every continuation exactly when its three syncs have been done |
| JourneyPromises.GivenAndSafeIsGivenAgain | backend/app/ceo_journey.py:60-94 | Once what a call gave is safe before the first loss, every later successful call for that stage gives the same artifact, however often power fails |
| JourneyPromises.AcknowledgedSaveIsForGood | backend/app/ceo_journey.py:81-94 | A `save` that wrote its record and returned it leaves the record, its explanation and its snapshot stored for good, once the entries above the subject's directory are synced |
| JourneyWitnesses.GivenExplanationIsLost | backend/app/ceo_journey.py:60-69 | A run in which one `explain` returns an explanation not yet synced, the power fails, and a later `explain` returns another one for the same identifier |
| JourneyWitnesses.StuckSaveHappens | backend/app/ceo_journey.py:81-94 | A run in which a loss takes an explanation from under its record and the next `explain` writes another, all of it synced |
| JourneyPromises.MismatchIsForGood | backend/app/ceo_journey.py:81-94 | From such a state on, without a further loss, no `save` of that identifier ever succeeds |
| FactualText.FactualTextFits | backend/app/ceo_journey_evidence.py:109-122 | The factual text of every snapshot that `verify_snapshot` accepts has at most 1000 characters, far below the limit of 4096 |
| FactualReading.NineGReads | backend/app/ceo_journey_evidence.py:109-115 | Reading a printed score by the grammar of decimal numerals gives the score back with a relative error of at most 5 / 10^9 |
| FactualReading.FactualTextReports | backend/app/ceo_journey_evidence.py:109-122 | The text of every accepted snapshot has, side by side, one sentence for each detector under its own name, with numerals that read as its own probability and frozen threshold, and with the decision that those two numbers give |
| DeadlineBudgets.EnclosingDeadline | scripts/mlflow_readiness_window.py:44-60 | Being watched by an enclosing deadline all the time is the same as finishing before it |
| DeadlineBudgets.CompletesIffInTime | scripts/mlflow_readiness_window.py:44-60 | For any tree of nested blocks, saving and restoring the one timer completes exactly when the program is in time for its own and every enclosing deadline, and then takes its full duration and leaves the timer armed for precisely the deadline it had |
| DeadlineBudgets.TimerKeptOrSpent | scripts/mlflow_readiness_window.py:53-60 | However a run ends, the timer is as it was, or disarmed with its deadline passed |
| DeadlineBudgets.LateByAtMost | scripts/mlflow_readiness_window.py:56-60 | An enclosing deadline is overrun by at most the sum of the budgets nested below it, plus cleanup |
| DeadlineShapes.SumIsApproached | scripts/mlflow_readiness_window.py:56-60 | That bound cannot be improved: blocks nested in each other overrun by the sum of their budgets, less as little as one likes |
| DeadlineShapes.PromptEndsInTime | scripts/mlflow_readiness_window.py:44-60 | A program that nests no block able to spend time, and no cleanup able to run after time was spent, never runs past its deadline |
| DeadlineShapes.InnerBudgetBoundIff | scripts/mlflow_readiness_window.py:56-60 | Over all durations of all pieces of work, a block whose body starts with some work delays every enclosing deadline by no more than its own budget if and only if its body is of that shape; for every other shape durations are constructed that exceed it |
| DeadlineShapes.FirstBlockIsHarmless | scripts/mlflow_readiness_window.py:56-60 | A nested block that comes before any work, and is no longer than the block around it, keeps the bound |
| DeadlineShapes.PromptBlockKeepsPromise | scripts/mlflow_readiness_window.py:56-60 | Under every enclosing deadline, a block of that shape ends strictly less than its own budget after it |
| DeadlineBudgets.Process.Execute | scripts/mlflow_readiness_window.py:44-60 | The imperative save and restore of clock, timer and signal handler computes `Run`, and the handler is always back in place |
| GuestReadiness.PacedFromStart | scripts/mlflow_readiness_guest.py:74-123 | Poll k starts at least k seconds after the first, or after the deadline |
| GuestReadiness.LastPollIsDecisive | scripts/mlflow_readiness_guest.py:75-82 | By poll 121 the deadline has passed whatever the answers and clocks, so that poll raises |
| GuestReadiness.VerdictMeans | scripts/mlflow_readiness_guest.py:78-122 | A result means both containers are up and healthy, everything reachable and permitted, in time and with 435 s left; the two deadline errors are told apart exactly by which bound set the deadline |
| GuestReadiness.ReadyIff | scripts/mlflow_readiness_guest.py:112-122 | A poll made before the deadline gives a result if and only if its answer shows all of that in time |
| GuestReadiness.RaisedIff | scripts/mlflow_readiness_guest.py:78-121 | Which failure a poll raises: the most urgent one its answer shows, in the order host key, authentication, response, probe, sudo, health check; and the wait goes on exactly when it shows none and is not ready |
| GuestReadiness.WaitForGuest | scripts/mlflow_readiness_guest.py:72-124 | The loop returns the verdict of the first decisive poll and never reaches its poll-limit error |
| Supervisor.SplitAppend | scripts/transformer_confirmation_supervisor.py:63-67 | Splitting text as it arrives gives the lines and remainder of splitting it at once |
| Supervisor.Consume | scripts/transformer_confirmation_supervisor.py:66-98 | The inner loop handles exactly the complete lines of the buffer, in order, up to the first error |
| Supervisor.SuperviseLoop | scripts/transformer_confirmation_supervisor.py:60-113 | The supervision loop, decoding by itself what each read finds new, returns the verdict of the rounds and saves one status for each round it entered |
| TextReader.BoundaryIff | scripts/transformer_confirmation_supervisor.py:60-63 | In well-formed UTF-8 a prefix decodes exactly when it ends before a byte that continues no character, and then so does the rest |
| TextReader.CutIsHarmlessIff | scripts/transformer_confirmation_supervisor.py:60-63 | Two reads hand out together what one read of both would exactly when the cut is inside no character and not between a CR and its LF |
| TextEncoding.DecodeIff | scripts/transformer_confirmation_supervisor.py:60-63 | The reader accepts exactly the UTF-8 encodings, and hands out the text that was encoded |
| TextEncoding.NewlinesAre | scripts/transformer_confirmation_supervisor.py:60-63 | No carriage return is handed out; a text without one is unchanged; CR LF and CR become one line feed each |
| SupervisorProofs.DeliveredIsSound | scripts/transformer_confirmation_supervisor.py:60-112 | If supervision ends delivered, however reads cut the output, the child exited 0 and its entire output, not only what was read, decodes to complete lines that the record loop accepts without an error, with exactly one terminal record, delivered and with a well-formed job id, and some record published the context; uses that poll precedes read |
| SupervisorProofs.AcceptedIff | scripts/transformer_confirmation_supervisor.py:66-98 | The record loop gets through a text exactly when every line parses to an acceptable record (marked progress from the right stage, or a delivered and not failed terminal) and at most one is terminal |
| SupervisorProofs.DeliveredIff | scripts/transformer_confirmation_supervisor.py:99-112 | The whole output and exit code are a delivery exactly when the output is a complete delivery and the code is 0 |
| SupervisorOutcomes.RoundOutcome | scripts/transformer_confirmation_supervisor.py:60-108 | Every round of every supervision ends as its text and clock say, with this precedence: an undecodable read, too much output, a line that is not acceptable, the exit (delivered exactly for a complete delivery with code 0), and the deadlines only while the child runs |
| SupervisorOutcomes.GoingIff | scripts/transformer_confirmation_supervisor.py:60-113 | A supervision goes on exactly while every look found acceptable text within the bound, no exit, and neither deadline passed |
| SupervisorOutcomes.WindowBegins | scripts/transformer_confirmation_supervisor.py:78-84 | The admission window begins when the round read its records that first read an invitation, and ends `ready_seconds` later, whatever is read afterwards |
| SupervisorProofs.DeliveredIffCleanReads | scripts/transformer_confirmation_supervisor.py:60-112 | Of a child whose whole output and exit code amount to a delivery, a supervision that settles is delivered if and only if none of its reads ends inside a character or between a CR and its LF |
| SupervisorProofs.CutReadFails | scripts/transformer_confirmation_supervisor.py:60-112 | For every such output and every other cut: one read after the exit delivers, and one more read that ends at the cut makes it a failure |
| SupervisorProofs.CutReadHappens | scripts/transformer_confirmation_supervisor.py:60-112 | A concrete output with an accented letter and a CR LF, and its delivered and failed supervisions |
| SupervisorProofs.AsciiReadsAreClean | scripts/transformer_confirmation_supervisor.py:60-63 | Output in ASCII without carriage returns is cut cleanly wherever its reads end |
| SupervisorProofs.ReadBeforePollIsUnsound | scripts/transformer_confirmation_supervisor.py:62-63 | With read before poll, any acceptable text would be called delivered although the child then wrote a malformed line |
| SupervisorProofs.SettledIsFinal | scripts/transformer_confirmation_supervisor.py:60-112 | A supervision that settles, other than by a timeout or the output bound, after clean reads of well-formed output, gives the verdict and flags of the child's whole output and exit code |
| SupervisorProofs.ReadsDoNotMatter | scripts/transformer_confirmation_supervisor.py:60-112 | Timeouts and the output bound aside, two supervisions of children that wrote the same well-formed output and exited alike end in the same verdict, error and flags, however they were polled and wherever their reads cut the output cleanly |
| SupervisorProofs.GoingReadsDoNotMatter | scripts/transformer_confirmation_supervisor.py:60-98 | While they go on, two supervisions that have read the same output hold the same state, flags and remainder, wherever their reads cut it |
| SupervisorProofs.SameLineBreaksAll | scripts/transformer_confirmation_supervisor.py:68-98 | Output that broke one supervision by a line, after clean reads, breaks every supervision of any well-formed continuation with the same error and flags |
| SupervisorProofs.StatusesKeepAdmission | scripts/transformer_confirmation_supervisor.py:72-98 | Closing is monotone, ready implies open, and the admission expiry is set once and never moved |
| SupervisorProofs.StatusSaysTheRecords | scripts/transformer_confirmation_supervisor.py:73-90 | Over the records read so far: a going status is closed exactly when one of them is an attester waiting at the intent, an observation, a publication start or a publication; it is ready exactly when the last state-setting record is a waiting at the provider, after an announcement, before any that closes |
| SupervisorProofs.ClosedForGood | scripts/transformer_confirmation_supervisor.py:37-46 | `inspect` admits no status after one that is closed, and all admissions fall in the one window that ends ready_seconds after the attester was first seen waiting |
| Decimals.TimeoutRoundTrip | scripts/submit_market_data_stage_job.py:339-342 | Parsing a formatted timeout gives the number back, for every n >= 0 |
| Decimals.DurationMeaning | scripts/lightgbm_wave1.py:1283-1292 | For every text: it is n seconds exactly when it is digits, or digits with h, m or s in either case, that amount to n; it raises a KeyError exactly when it is digits with a long s (U+017F); everything else is refused |
| Inventory.ClassifyFile | scripts/prepare_ci_workload_inventory.py:21-29 | One source's definitions become its test rows in order; refused exactly when an audited definition's hash differs; the audited nodes met are exactly the audited ones among them |
| Inventory.Prepare | scripts/prepare_ci_workload_inventory.py:9-46 | The builder succeeds exactly when the audit is the one named by its digest and counts its nodes rightly, every source is readable, parses if it holds tests and matches the audit, every audited node is defined, and the destination does not exist; it then writes the rows in chunks of 128 under their pinned names beside the index |
| Inventory.AddRows | scripts/ci_workload_policy.py:127-133 | The rows of a chunk are added exactly when every path is new |
| Inventory.ReadRecords | scripts/ci_workload_policy.py:112-133 | The chunk loop succeeds exactly when chunk names are valid and distinct, hashes match, sizes are in bounds and no source path repeats, and then holds every row by its path |
| Inventory.CheckTests | scripts/ci_workload_policy.py:142-152 | The listed tests of a file are accepted exactly when they are its definitions, each once, with their hashes |
| Inventory.CheckSources | scripts/ci_workload_policy.py:137-152 | The source loop accepts exactly when every record has its file's hash and tests and the file parses if it holds tests, and collects the classification |
| Inventory.Validate | scripts/ci_workload_policy.py:96-156 | The checker accepts exactly the accepted inventories: the independent declarative predicate |
| InventoryProofs.HoldsTestsIff | scripts/ci_workload_policy.py:141-141 | For every directory and every slash-free name, the path below backend/tests holds tests exactly when the name begins with test_ |
| InventoryProofs.TestFilesAreListed | scripts/ci_workload_policy.py:137-152 | For every such path: what parsing defines there is what the prepared row lists, in order and with its digests, and what an accepted inventory lists for it, each exactly once |
| InventoryProofs.OtherFilesListNone | scripts/prepare_ci_workload_inventory.py:18-28 | No path outside backend/tests lists a test, in a prepared row or an accepted one |
| InventoryChecks.ModelsAre | scripts/prepare_ci_workload_inventory.py:14-16 | The audit's dictionary has exactly the listed nodes, as many as there are entries exactly when no node is listed twice, and then each with its own digest |
| InventoryChecks.PreparedByTheAudit | scripts/prepare_ci_workload_inventory.py:20-27 | What is prepared classifies a definition as a model workload exactly when the audit lists its node |
| InventoryChecks.ChunkReadIff | scripts/ci_workload_policy.py:113-128 | Exactly when a chunk is read and as what: its name, its presence, its size, its digest, its decoding and 1 to 128 rows |
| InventoryProofs.ChunkNamesDiffer | scripts/prepare_ci_workload_inventory.py:35-36 | Chunk numbers, padded to two digits or not, give distinct names |
| InventoryProofs.ReadsBack | scripts/prepare_ci_workload_inventory.py:34-41 | Reading the written chunks gives back the rows, in order |
| InventoryProofs.OwnRowsPass | scripts/ci_workload_policy.py:137-152 | The rows that `prepare` builds for a tree pass all per-source checks on that tree |
| InventoryProofs.ClassificationIsAudit | scripts/prepare_ci_workload_inventory.py:24-32 | The resulting classification marks as model workload exactly the audited nodes |
| InventoryProofs.PreparedIsAccepted | scripts/ci_workload_policy.py:96-156 | A prepared and pinned proposal is accepted by the checker exactly when it is within the checker's bounds (1 to 32 chunks, readable chunk files and index, 1 to 1000 model definitions), and its model nodes are exactly the audited set |
| InventoryProofs.EmptyAuditIsRefused | scripts/prepare_ci_workload_inventory.py:31-44 | From an audit that names no model definition `prepare` writes a proposal for any readable tree whose tests parse, and the checker refuses it |
| InventoryProofs.UnparsableTestIsRefused | scripts/ci_workload_policy.py:69-70 | For a tree with a test file that does not parse nothing is proposed, whatever the audit, and nothing accepted, whatever the pin |
| InventoryProofs.PinFixesTheTree | scripts/ci_workload_policy.py:104-140 | One pin accepts one tree: adding, dropping or changing any source is rejected under whatever inventory files |
| InventoryProofs.AcceptedCoversOnce | scripts/ci_workload_policy.py:127-152 | Acceptance means that records cover each source path exactly once and each test definition exactly once |
| InventoryProofs.ParametersInherit | scripts/ci_workload_policy.py:159-162 | The node of a parametrized item is the node of its function |
| InventoryProofs.SelectItems | scripts/ci_pytest_guard.py:18-30 | Items are split in order by classification; one unclassified item or any authorization refuses them all |
| InventoryProofs.Collection.ModifyItems | scripts/ci_pytest_guard.py:33-41 | The hook replaces the collection by its inert items and deselects the others, or refuses and changes nothing |
| InventoryProofs.PickedPartition | scripts/ci_pytest_guard.py:22-30 | Selected and excluded items together are all items, none twice |
| InventoryProofs.NoModelNodeRuns | scripts/ci_pytest_guard.py:18-30 | End to end: with a prepared, pinned and accepted inventory no audited model node is ever selected and nothing else is excluded |
| HoldoutCreation.StepKeepsInv | scripts/watch_transformer_holdout.py:63-112 | Every system call of every concurrent, crashing or restarted run, and every loss of power, keeps the protocol invariant |
| HoldoutCreation.AtMostOneCommand | scripts/watch_transformer_holdout.py:194-249 | Over all runs in one directory the creation command is given at most once, and only by the run whose intent record is complete and safe from power loss |
| HoldoutCreation.IssuedInOrder | scripts/watch_transformer_holdout.py:77-95 | In every run, a command is given only after its own process has, in this order, found its reserves, created the intent, flushed it, synced the directory, and found its reserves again |
| HoldoutCreation.SupervisorNeverSubmits | scripts/watch_transformer_holdout.py:245-245 | A process that was not asked to submit takes no intent and gives no command, whatever happens |
| HoldoutCreation.CaughtIff | scripts/watch_transformer_holdout.py:63-112 | At every moment of every run, an error is survived exactly within a call that has not yet decided to give its command |
| HoldoutCreation.IssuedWithinReserves | scripts/watch_transformer_holdout.py:76-89 | At the decision at least create_to_terminal_seconds + 300 of access is left and the timeout lies in 1..90; if the subprocess is back in time, 30 s of the admission budget remain, less the gap between the clock reading and the start of the command |
| HoldoutCreation.IssuedTimeoutIsLongest | scripts/watch_transformer_holdout.py:84-90 | A command that was given had the longest whole timeout that the time left at its decision, less 30 s, allowed, up to 90 s |
| HoldoutCreation.ProceedsIff | scripts/watch_transformer_holdout.py:84-90 | The reserves let a call go on exactly when at least one spare second is left beyond 30 s and access lasts 300 s beyond the job |
| HoldoutCreation.ConsumedForGood | scripts/watch_transformer_holdout.py:79-84 | Once the intent is durable and its run has submitted, raised or died, no command is ever given again |
| HoldoutCreation.RetainedRecordStopsLaterRuns | scripts/watch_transformer_holdout.py:201-203 | Any of the four records, once durable, keeps every later run from getting past its checks and from submitting |
| HoldoutCreation.LoneRunSubmits | scripts/watch_transformer_holdout.py:194-249 | In an unused directory a run whose reserves suffice can submit, so the guarantees are not met by never submitting |
| HoldoutCreation.IntentHadReserve | scripts/watch_transformer_holdout.py:77-82 | In every run, whoever takes the intent had both reserves at that moment |
| HoldoutCreation.LetInHadAccess | scripts/watch_transformer_holdout.py:55-60 | In every run, no submitting process gets past its checks without enough access left at that moment |
| HoldoutCreation.RefusedCallMayRetry | scripts/watch_transformer_holdout.py:63-83 | A call that is refused before it takes the intent spends nothing: after any time the same run can call again and submit if the reserves then suffice |
| HoldoutCreation.AccessDeadline | scripts/watch_transformer_holdout.py:43-60 | The deadline is the earliest end of access of the two buckets, neither of which has less than the reserve left at the last reading; insufficient access is reported only when one of them has |
| JobMonitor.Monitor | scripts/lightgbm_wave1.py:687-764 | Refuses an interval outside (0, 60]; otherwise the loop returns the verdict of the first decisive poll, cancels at most once and only at elapsed 900 or more, and sleeps min(poll, 900 - elapsed) after each undecided poll |
| JobMonitor.CompletedIff | scripts/lightgbm_wave1.py:726-751 | COMPLETED means, in both directions: a completed status within 900 s effective elapsed, at least one observed context, and every observed context the expected one |
| JobMonitor.OtherVerdictsIff | scripts/lightgbm_wave1.py:715-755 | When each other verdict is given, by the answers and the two clocks alone; a cancel is tried exactly when the job goes on at the limit by one of the clocks, and the verdict says whether it succeeded |
| JobMonitor.PollsBounded | scripts/lightgbm_wave1.py:698-764 | With clocks that advance by at least each sleep, at most ceil(900 / poll) polls are undecided, so there are at most that many plus one |
| JobMonitor.BoundIsAttained | scripts/lightgbm_wave1.py:754-764 | A job that never ends, polled every 60 s, is cancelled at its 16th poll |
| Publication.Outgoing | scripts/publication_secret_scan.py:51-76 | The loops refuse exactly lines that are malformed or name unknown objects, and otherwise return the union of the commits each line pushes beyond the known tips and its own old value; an object that names no commit adds none |
| Publication.OutgoingIff | scripts/publication_secret_scan.py:72-76 | A commit is outgoing exactly when some live line's tip reaches it and neither a known advertised tip nor that line's old value does |
| PublicationMeaning.OutgoingMeans | scripts/publication_secret_scan.py:66-77 | A commit is outgoing exactly when the object of some line names a commit from which a chain of parents leads to it, while no such chain leads to it from an advertised object known here or from the object that the line replaces |
| PublicationMeaning.RefusedIff | scripts/publication_secret_scan.py:52-76 | The lines are refused exactly when one is malformed, or pushes something while its own or its replaced object is not known here |
| Publication.UnknownTipsEnlarge | scripts/publication_secret_scan.py:63-71 | Knowing fewer advertised tips only enlarges the result |
| Publication.PushVersions | scripts/publication_secret_scan.py:91-96 | One version per outgoing commit, with every path that `diff-tree` lists for it |
| Publication.Captured | scripts/publication_secret_scan.py:97-127 | Succeeds exactly when every path may be published, every changed path lists nothing or a regular file within the bound (a directory, link or submodule is refused), and every gathered text is scannable; no content is read before every path has been checked and found publishable |
| PublicationMeaning.CapturedIff | scripts/publication_secret_scan.py:104-126 | The versions fit exactly when every changed path holds nothing, or a plain or executable file of at most 900000 characters, and no directory; the material fits exactly when each entry is text of that size |
| Publication.ReplacementByDirectoryIsRefused | scripts/publication_secret_scan.py:103-108 | A commit that replaces a file by a directory of the same name is refused |
| Publication.PostimageIsScanned | scripts/publication_secret_scan.py:101-114 | The content of every changed file of every version is one contiguous piece of what is scanned under its path |
| Publication.MessagesAreScanned | scripts/publication_secret_scan.py:115-119 | Every commit message is one contiguous piece of what is scanned, under one name that is no captured path, and no captured material is changed by it |
| Publication.EveryPushedFileIsScannedOrKnown | scripts/publication_secret_scan.py:51-119 | Every file of every commit that a line's object reaches is either scanned in one piece under its path or held unchanged at that path by a commit the remote already reaches |
| Publication.CoveredIffCommit | scripts/publication_secret_scan.py:72-76 | The push of a line is covered exactly when its object names a commit, or carries nothing that the remote does not have already |
| Publication.BlobPushEscapes | scripts/publication_secret_scan.py:72-76 | A tag on a blob pushed to an empty remote is accepted, has no outgoing commit, and leaves unscanned |
| BoundedVm.StepKeepsInv | scripts/nebius_mlflow_watchdog.py:88-201 | Every step of parent and watchdog keeps the protocol invariant: a statement that completes, fails, is interrupted inside or outside a protected `try`, or never runs because its process died |
| BoundedVm.NeverLeftUnverified | scripts/nebius_mlflow_watchdog.py:154-201 | If the start call came before the watchdog's deadline and the cleanup ran to its end, `bounded_vm` is left only with a STOPPED read-back made after that start, or with the stop-unverified error, which is raised exactly when the emergency stop is unverified and outranks every other error |
| BoundedVm.ExitIs | scripts/nebius_mlflow_watchdog.py:168-201 | Over every trace, from its events: an orderly exit is, in this order, StopUnverified when the emergency stop gave up or was interrupted, Interruption when a protected statement was interrupted, BodyError when the body failed, EvidenceLost when errors could not be retained, and Normal otherwise |
| BoundedVm.EmergencyIff | scripts/nebius_mlflow_watchdog.py:178-190 | The emergency stop runs exactly when a cleanup statement before it failed or the watchdog's receipt does not verify the stop |
| BoundedVmHistory.ReceiptIs | scripts/nebius_mlflow_watchdog.py:88-101 | Over every trace: the watchdog's receipt is verified exactly when it read the machine back as stopped before it saved the receipt, and it ends with code 0 exactly when, besides, the saving went well |
| BoundedVmHistory.ParentIs | scripts/nebius_mlflow_watchdog.py:73-201 | Over every trace: the stop is requested exactly when the marker was touched; the machine counts as seen stopped exactly when it was read back after the last start call; the parent makes at most three stop calls, gives up only after three, and holds its stop for verified exactly when it read it back |
| BoundedVmHistory.OwnStopEnds | scripts/nebius_mlflow_watchdog.py:73-85 | The parent's own stop ends verified if it succeeds after fewer than three failed attempts and is given up after three, whatever failed in them |
| BoundedVmHistory.WatchdogStopEnds | scripts/nebius_mlflow_watchdog.py:73-101 | So does the watchdog's, from its deadline or the request on, with the receipt and the exit code that say so |
| BoundedVmHistory.ParentAloneLeaves | scripts/nebius_mlflow_watchdog.py:146-201 | A parent whose watchdog died after arming can still start, fail or finish its body and leave: with the body's error or normally after its own verified stop, or with the stop unverified after three failures |
| BoundedVmHistory.WatchdogAloneStops | scripts/nebius_mlflow_watchdog.py:88-101 | When the parent dies after starting the machine, its watchdog stops the machine from the deadline on, and its receipt says whether that was verified |
| BoundedVm.BackedIffNothingEscaped | scripts/nebius_mlflow_watchdog.py:154-201 | Of a session that started in time and did not raise the stop-unverified error, the machine had been read back as stopped if and only if no interruption landed outside a protected `try` before that |
| BoundedVm.EscapeHappens | scripts/nebius_mlflow_watchdog.py:154-173 | A run in which a machine started in time is left, with no read-back and no stop call, by an interruption before the first `try` of the cleanup |
| BoundedVm.LateStartEscapes | scripts/nebius_mlflow_watchdog.py:147-149 | From any state in which the deadline passed before the start call, the parent can leave normally with no read-back after the start: the earlier receipt is accepted |
| BoundedVm.LateStartHappens | scripts/nebius_mlflow_watchdog.py:125-201 | The complete run, from the spawned watchdog, in which ten minutes pass between handshake and start call |
| BoundedVm.StartedAfterHandshake | scripts/nebius_mlflow_watchdog.py:103-149 | The start call follows the armed watchdog's handshake with at least 590 s left, so a parent that takes less than 590 s from there starts in time |
| BoundedVm.ArmedWatchdogStops | scripts/nebius_mlflow_watchdog.py:73-100 | An armed watchdog that is not killed can always take its next step from its deadline on, whatever becomes of the parent; its second step at the latest is a stop call, it ends within nine steps, and only after one to three stop calls |
| AuthStore.Store.IssueChallenge | backend/app/ceo_auth_store.py:81-87 | Fails, changing nothing, exactly when 1000 unexpired challenges are outstanding, a token is malformed, or the token is in use; otherwise the nonce can be claimed under this origin for 300 s, only unexpired challenges remain, and what every other token is worth from now on is unchanged |
| AuthStore.Store.Consume | backend/app/ceo_auth_store.py:89-94 | Returns the nonce exactly for a present, unexpired challenge of the same origin, and removes the challenge whatever it was worth |
| AuthStore.Store.CreateSession | backend/app/ceo_auth_store.py:96-102 | Fails, changing nothing, exactly when 1000 unexpired sessions are open, the token is malformed, or it is in use; otherwise the token stands for this user until the expiry, and of the other sessions exactly the expired ones are gone |
| AuthStore.Store.Revoke | backend/app/ceo_auth_store.py:109-111 | The token stands for no session any more; no other session and no challenge changes; a malformed token changes nothing |
| AuthStore.Auth.Login | backend/app/ceo_auth.py:96-124 | Opens a session exactly when the challenge was worth a nonce, the claims carry it and are accepted, and there is room; the challenge is spent whatever follows |
| AuthStore.AcceptsIff | backend/app/ceo_auth.py:103-126 | Claims open a session exactly when they are trusted and unexpired, carry the very nonce of the challenge, and identify a user: subject, allowed lower-case address, and the name or else the address; the session ends at the earlier of two ends |
| AuthStore.TokenIff | backend/app/ceo_auth_store.py:11-17 | A token is 43 characters of the base64url alphabet, whichever they are |
| AuthStore.Auth.Session | backend/app/ceo_auth.py:126-139 | Serves an unexpired session of an allowed address, or makes sure the token is never served again |
| AuthRuns.NeverOverCapacity | backend/app/ceo_auth_store.py:81-102 | Over all interleavings neither table holds more than 1000 rows |
| AuthRuns.EachChallengeAdmitsOne | backend/app/ceo_auth_store.py:89-94 | Two logins get past the nonce stage with one token only if it was issued anew in between |
| AuthRuns.ServedSessionIsSound | backend/app/ceo_auth.py:96-139 | A served session goes back to a login that presented, under its origin and before expiry, a challenge not presented before, with accepted claims carrying its nonce; it has not been revoked since and expires no later than the claims and login time + session seconds |
| AuthRuns.OneSessionPerLogin | backend/app/ceo_auth.py:121-124 | One login opens at most one session |
| AuthRuns.LoneLoginIsServed | backend/app/ceo_auth.py:90-128 | From any state with room, a challenge presented within 300 s under its own origin lets accepted claims with its nonce log in; the session is served until it expires, and never once revoked |
| Histograms.HistogramState.Observe | backend/app/metrics.py:18-23 | After observing, every bucket, the count and the total are those of the observed values with the new one |
| Histograms.Registry.Observe | backend/app/metrics.py:71-75 | Each series aggregates exactly the values observed under its key, in every sequence of calls; other series are untouched |
| Histograms.AtMostCounts | backend/app/metrics.py:21-23 | A bucket counts the positions of values at or below its bound, whatever their order |
| Histograms.RenderedBucketsAreCumulative | backend/app/metrics.py:98-101 | The rendered lines, for increasing bounds the series was created with, never decrease, and the +Inf line is the number of observations |
| Histograms.RenderedIff | backend/app/metrics.py:95-101 | A rendered bucket is right exactly when its series was created with its bound or no value is at or below it |
| Histograms.RedeclaredHistogram | backend/app/metrics.py:52-101 | Declare, observe 0.5, declare again with one more bound, render: the buckets read 1, 0, and +Inf 1 |
| Exposition.ThreeReplacesEscapeEach | backend/app/metrics.py:153-154 | Three replacements in sequence escape each character once |
| Exposition.SampleRoundTrip | backend/app/metrics.py:128-136 | Reading a printed sample line gives back its name, labels and number for arbitrary label values |
| Exposition.PrintIsInjective | backend/app/metrics.py:128-136 | Different samples print different lines |
| Exposition.PrintIsOneLine | backend/app/metrics.py:128-136 | A printed sample holds no line feed, whatever its label values |
| Exposition.PageRoundTrip | backend/app/metrics.py:91-104 | Reading a page of sample lines joined by line feeds gives exactly the samples back: no label value can forge a sample, a series or a line |
| RolePermissions.Reconcile | deployments/mlflow/exporter_bootstrap.py:72-122 | From any role one pass ends in the target, makes no call exactly when the role is already there, and touches only stale or desired resources |
| RolePermissions.TargetMeaning | deployments/mlflow/exporter_bootstrap.py:93-122 | The target holds the desired permission on exactly the desired managed resources and leaves unmanaged ones untouched |
| RolePermissions.TargetIsStable | deployments/mlflow/exporter_bootstrap.py:72-122 | The target of a target is itself, so a second pass makes no calls |
| RolePermissions.ConvergesFromAnyStop | deployments/mlflow/exporter_bootstrap.py:94-122 | Of the calls a pass makes, any first part leaves a role from which a fresh pass ends exactly where the whole pass ends |

## Left out

- JourneyStoreBudget.NeverOverBudget: covers runs without power loss, since a lost machine may come back with temporary files that had been unlinked; kills at every step are included, and `AdmittedWithinLimits` covers power losses.
- JourneyStoreRuns.OneValuePerName: covers runs without power loss, for the reason `SurvivesLossIffSafe` gives; `AcknowledgedWritesAgree` covers runs with it.
- JourneyStoreRuns.BoundForGood: covers the part of a run without power loss; `SafeForGood` covers runs with it.
- JourneyPromises.SuccessfulCallsAgree: covers runs without power loss, since `GivenExplanationIsLost` shows it fails with one; `GivenAndSafeIsGivenAgain` covers runs with it.
- JourneyPromises.GivenArtifactsFit: covers runs without power loss, for the same reason; `AcknowledgedSaveIsForGood` covers runs with it.
- JourneyPromises.SavedEmbedsItsJourney: covers runs whose losses are orderly, since `StuckSaveHappens` shows it fails otherwise; so do `ExplanationNeedsSnapshot` and `FactualText.ExplainAndSaveNeverRefuse`.
- The scan's limit on the number of directories in the root, which is in `JourneyStoreBudget.WriteBudget` and not in the runs: there a scan may succeed that the limit would refuse.
- The parent of the store's root, and the holdout's execution directory, are made by others and taken to be safe.
- HoldoutCreation.IssuedWithinReserves: the 30 s are less the time between the clock reading and the start of the subprocess, which the code does not measure.
- DeadlineBudgets.Process.Execute: timers are one-shot (the interval field is not modelled), entering and leaving a block takes no time, and the signal arrives exactly at the deadline.
- JobMonitor.Monitor: the provider's answer is already parsed, and a cancel call's answer is one input; logs and the evidence file are not modelled.
- Ownership, permission and symlink checks of files and directories, except link count, size, existence and exclusivity.
- The JSON decoder and encoder: canonical values stand for their bytes, and malformed JSON is an input that fails to parse.
- The `test_nodes` AST walk and `_stable_ast_dump`: whether a source parses, and its definitions, are a function of its bytes.
- `normalized` in the readiness guest, the probe script and the response size bound: a poll's answer is already parsed, or malformed.
- Encodings other than UTF-8 for the attester's output file: the locale is taken to be a UTF-8 one.
- The identity and heartbeat checks of `inspect`, readiness.json, and terminating the child in the supervisor's `finally`.
- The journey's `listing` sort order, the campaign loader and its hashes, and the FastAPI routes.
- `public_path`'s list of private names, the pre-commit mode of `captured`, and the external scanners: what may be published is a parameter.
- The ordering of `outgoing` and of versions: results are sets, and coverage does not depend on order.
- The watcher behind `create_once`, provider polling in `cli`, context delivery and cancellation: `create_once` may be called any number of times.
- What `bounded_vm` checks before the watchdog is spawned, and the contents of its receipts beyond the stop verdict.
- Messages of annotated tags, which are pushed beside the commits and blobs that are modelled.
- Probabilities that are not binary64 numbers: a positive real below 1e-400 is no input of the text.
- Google token verification, cookies and HTTP headers; SQLite failures inside a transaction, which leave the tables as they were.
- Counters, gauges, HELP and TYPE lines, float formatting, and infinite or NaN values in the metrics registry.
- The bootstrap of users and passwords around permission reconciliation, and the server's transaction details.
- Cloud, Docker, MLflow, S3 and Git command lines, the Java kernel, the feature pipeline, model training and the user interface.
