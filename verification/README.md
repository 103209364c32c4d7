# Verification of remoteslurm's durable machinery

remoteslurm drives a Slurm cluster through a small stub on the login node. Its promises are about
what survives: work is never silently submitted twice, a committed snapshot never changes, a cancel
that overtakes its request is not lost, a watch speaks at most once. This project models the code
behind those promises in Dafny and proves them over every run, with a crash allowed between any
two durable effects.

## What is modelled

| files | what they model |
|---|---|
| `Attempts` | the attempts of a submission record, the scheduler's answers, the recovery of an ambiguous submission; shared by campaigns and durable tasks |
| `CampaignLedger`, `CampaignConservation`, `CampaignReservations`, `CampaignRecovery` | the execution ledger as a machine of single durable steps, and what every run of it keeps |
| `CampaignOps`, `CampaignGuarantees` | the two ledger operations as functions of the files, the scheduler and the moment the process dies; that they are runs of that machine; the guarantees for them |
| `CampaignAnswers` | what the two operations answer and leave behind, said of the request and the files alone |
| `CampaignRun` | the same operations step by step on a class with the durable files as fields |
| `CampaignStore`, `CampaignHistory`, `CampaignCommits`, `CampaignExactlyOnce`, `CampaignProgress` | the versioned store: every write and rename of a commit, the linear history, exactly-once commits, and when a commit completes |
| `CampaignReaders`, `CampaignChanges` | pinned reads, backward event pages, forward change pages |
| `CampaignPages` | when the readers fail, what they refuse and what a page carries, said of the history alone |
| `CampaignLimits` | inputs, each from an empty store, at which the store's operations stop working |
| `CampaignStoreRun` | the store's operations step by step on a class with the directory's files as fields |
| `LogLines`, `LogScanner` | the lines of a whole log, and the chunked incremental scanner with its client loop |
| `CancelRegistry` | the server's registries and every interleaving of serve loop, workers and cancels |
| `DurableTask`, `TaskClient`, `TaskRun` | the durable-task record, the client that issues receipts, and both step by step |
| `TaskAnswers` | what the task operations and their client answer and leave behind, said of the record, the calls and the evidence alone |
| `JobWatch` | the watch store and the monitor's tick, interleaved with stops and deaths of the daemon |
| `SessionMux` | the client session over one process at a time |
| `ArrayExpand` | the bounded expander of array specifications |
| `Common` | an `Option`, ids ordered as their hexadecimal strings are, and sorting them |

An operation is given as a function of the old state and of a budget `life`: the number of durable
effects the process lives to make. What is proved for every `life` is proved for a crash at any
point. The classes run the source's statements one by one, and each of their methods is proved to
leave exactly the state that function gives.

## What the code relies on

- The directory leases give mutual exclusion, and a crash releases them.
- A file replacement or a rename happens as a whole or not at all.
- SHA-256 is injective; so is the digest of a document or of a request.
- Attempt ids are fresh. Markers hold only the first ten characters of each id; where a result needs
  them not to collide it says so (`MarkersUnique`, or the markers of one record being distinct).
  Those are the markers of one ledger or one task. A query is taken to report only jobs submitted
  from that ledger or task: jobs of another run or task whose marker has the same prefixes are
  assumed not to exist.
- A scheduler query reports only jobs that exist; it may miss any of them.
- A non-zero exit of `sbatch` may hide a job (`Rejected(hidden)`). The results about accepted
  submissions name that case as the only way to REJECTED.
- One client at a time works on a durable task. One monitor runs at a time.
- Request ids and processes are fresh, as the source makes them.

## Where a promise fails, and exactly when it holds

- **Reopening.** `op_campaign_attempt_update` accepts INTENDED, and the attempt is then submitted
  again (`ReopenedAttemptIsSubmittedAgain`). Every bound counts such updates; without them the
  bounds are the promised ones.
- **Imported ledgers.** Two imported groups may both wait to submit one unit
  (`ImportedOverspends`). Conservation holds for the unit exactly when at most one does
  (`ConservedExactlyWhen`, `ImportedConservation`).
- **Stuck transactions.** A crash between making a transaction's directory and writing its request
  stops every later commit of that id, and one inside a quarantine the next
  (`CompletesExactlyWhen`, `CrashLeavesDirectory`, `CrashInsideQuarantine`). An empty set of documents always does, and so
  does a document whose path is a directory of another's (`ClashNeverCommits`,
  `ClashingIsRefused`).
- **Large journals.** A commit may carry 64 MiB, and its journal holds all its events, but no file
  over 4 MiB is read back. Once the history has such a journal, event pages stop at it, change
  pages fail when it is within their byte bound, replays without a recorded result fail when they
  must walk past it, and so do pinned reads at it or behind it (`BigIsCommitted` and the lemmas
  after it). The exact conditions are in `PagingEndsExactlyWhen`, `WalkExact`, `PageIsHonest`,
  `ReplayIsExact`, `CompletesExactlyWhen` and `PinnedReadIsStable`.
- **Long histories.** Event pages reach the end exactly when the history is within the traversal
  limit and has no such journal (`PagingEndsExactlyWhen`), and a replay finds a committed transaction
  without a recorded result exactly when the newer commits are (`ReplayIsExact`).
- **Resuming a log scan.** After a hit on an unfinished line the returned offset is inside that line
  (`HitOffsetIsLineStart`, `ResumeInsideLine`). After every other reply it is a line start.
- **Cancels.** Only the first process registered after a cancel is killed (`SecondSpawnSurvives`),
  except for `srun`. A mark outlives its request exactly when an exception other than a reported
  error ends it (`CrashLeavesMark`, `MarkLeftOnlyByCrash`).
- **Watches.** A terminal observation is overwritten by UNKNOWN exactly when a report that knows
  the job's state has lost one of its tasks (`OverwrittenExactly`, `TerminalOverwritten`).
- **Sessions.** `start` over a dead process with requests pending leaves them to the next process
  (`StartOwnExactly`, `StartStrands`); `submit` never does.

## Model

| member | source | states |
|---|---|---|
| `Attempts.FindCurrent` | src/remoteslurm/stub.py:2805-2810 | The backward search finds the last attempt carrying the current id, or none when no attempt carries it. |
| `Attempts.Reconcile` | src/remoteslurm/stub.py:2813-2833 | An ambiguous submission takes the job of the only match and becomes ACCEPTED; with no match or several it becomes UNKNOWN; the record takes the attempt's state. |
| `Attempts.TouchKeepsCurrent` | src/remoteslurm/stub.py:2805-2833 | Moving one attempt never changes which attempt is the current one. |
| `CampaignRun.CheckMapping` | src/remoteslurm/stub.py:3167-3179 | A contract's mapping is accepted exactly when it is non-empty and repeats no unit. |
| `CampaignRun.IndexClaims` | src/remoteslurm/stub.py:3367-3379 | Retry claims are accepted exactly when each is for a unit of the group and no unit is claimed twice; the index then holds exactly the claims. |
| `CampaignRun.RunDirectory.LoadLedger` | src/remoteslurm/stub.py:3182-3239 | The ledger file, or the import of the per-group records; none exactly when a record with a current attempt has an unusable mapping. |
| `CampaignRun.RunDirectory.ImportRecord` | src/remoteslurm/stub.py:3219-3239 | One record is imported, or refused exactly when it has a current attempt and an unusable mapping. |
| `CampaignRun.RunDirectory.ReserveImported` | src/remoteslurm/stub.py:3228-3238 | A unit goes to the group whose current attempt is at least as new as the one that holds it. |
| `CampaignRun.RunDirectory.WriteExecution` | src/remoteslurm/stub.py:3242-3259 | The ledger is replaced, then the group's mirror; the process may die before either. |
| `CampaignRun.RunDirectory.QueryJobs` | src/remoteslurm/stub.py:2741-2785 | A query reports only real jobs created by calls that carried the marker; it may miss some. |
| `CampaignRun.RunDirectory.CollectReplacements` | src/remoteslurm/stub.py:3386-3393 | The groups that already replaced a claimed attempt, one for each used authorization. |
| `CampaignRun.RunDirectory.CheckReservations` | src/remoteslurm/stub.py:3414-3441 | Refused exactly when some requested unit's claim no longer matches its reservation; otherwise the blocking groups are those holding an unclaimed unit. |
| `CampaignRun.RunDirectory.BindUnits` | src/remoteslurm/stub.py:3485-3501 | Every unit of the mapping is reserved to the new attempt, and exactly the claimed authorizations are recorded for it. |
| `CampaignRun.RunDirectory.DriveAttempt` | src/remoteslurm/stub.py:3267-3332 | Recover, then SUBMITTING on disk, then one scheduler call, then its answer on disk; with the process dying between any two of them. |
| `CampaignRun.RunDirectory.EnsureAttempt` | src/remoteslurm/stub.py:3335-3512 | The whole ensure operation, branch by branch and in the source's order, on the durable files. |
| `CampaignRun.RunDirectory.SetAttemptState` | src/remoteslurm/stub.py:3515-3538 | The update operation: refused for an unknown group or another attempt, otherwise attempt and record take the state together. |
| `CampaignAnswers.EnsureOpensExactly` | src/remoteslurm/stub.py:3376-3503 | An admissible request opens an attempt if and only if no authorization it claims was used, every unit it maps is free and claimed for no group or reserved to exactly the group and attempt its claim expects, and its group has the same contract; the ledger then holds exactly that attempt, its reservations and its authorizations, each with the reservation it replaces; otherwise nothing is opened, reserved or used. |
| `CampaignAnswers.EnsureRefusesExactly` | src/remoteslurm/stub.py:3344-3470 | A request is invalid exactly when it is malformed or the records to import are unusable, and a conflict exactly when a claim expects another reservation than there is, or nothing is in its way but another contract of its group; a refused request changes nothing. |
| `CampaignAnswers.EnsureDrivesExisting` | src/remoteslurm/stub.py:3386-3457 | An answered request that opens nothing has driven exactly the groups that replaced an attempt under an authorization it claims or, when none did, those that hold a unit it does not claim, in the order of their ids; it names as submitted exactly those whose call was accepted. |
| `CampaignAnswers.EnsureSubmits` | src/remoteslurm/stub.py:3470-3512 | An answered request that opens an attempt has made one call, for it; ledger and mirror hold it ACCEPTED with the job returned, UNKNOWN or REJECTED exactly as the scheduler accepted, answered unreadably or refused; the group is named as submitted exactly when it accepted. |
| `CampaignAnswers.DriveOutcome` | src/remoteslurm/stub.py:3267-3332 | The same for any drive: an INTENDED attempt is handed over once and takes its answer, a SUBMITTING one without a job takes the only job a query shows or becomes UNKNOWN, any other is left alone; and exactly how long the process must live for that. |
| `CampaignAnswers.DriveFrames` | src/remoteslurm/stub.py:3267-3332 | Wherever it stops, a drive has changed nothing on disk but the state and the job of its group's current attempt. |
| `CampaignAnswers.ReservationsChangeByAuthorization` | src/remoteslurm/stub.py:3485-3501 | Over every run of the operations, a command that changes a unit's reservation has recorded a new use of an authorization for the unit, which names the reservation as it was. |
| `CampaignAnswers.UpdateExactly` | src/remoteslurm/stub.py:3515-3538 | An update is refused for a state no campaign attempt has, without a current attempt, or for another attempt; otherwise it sets the state of that attempt and of its group, in ledger and mirror, and nothing else. |
| `CampaignAnswers.ImportPicksExactly` | src/remoteslurm/stub.py:3214-3239 | An import leaves each unit to the record with a current attempt that maps it, to the newest of several, and of several as new to the one whose group id comes last. |
| `CampaignOps.EnsureRefines` | src/remoteslurm/stub.py:3335-3512 | Whatever an ensure request leaves behind when it ends, dies or is refused is reached by steps of the small-step ledger machine. |
| `CampaignOps.UpdateRefines` | src/remoteslurm/stub.py:3515-3538 | The same for a state update. |
| `CampaignOps.ExecRefines` | src/remoteslurm/stub.py:3335-3538 | The same for every sequence of ensure requests and updates, each of which may die anywhere. |
| `CampaignConservation.StepKeepsPotential` | src/remoteslurm/stub.py:3267-3332 | No step lowers a unit's balance: authorizations used for it, its first reservation and the reopenings of its attempts, less the calls made for it, the groups waiting to submit it and the call about to be made. |
| `CampaignConservation.ClaimedUnitUsesNewAuthorization` | src/remoteslurm/stub.py:3386-3441 | A unit that is reserved again uses at least one authorization that was never used for it before. |
| `CampaignConservation.SubmissionsConserved` | src/remoteslurm/stub.py:3376-3503 | In every run from an empty ledger with crashes anywhere, the calls covering a unit are at most one plus the authorizations used for it plus the reopenings of its attempts. |
| `CampaignConservation.ConservedExactlyWhen` | src/remoteslurm/stub.py:3182-3239 | From a ledger that already exists, the same bound holds for a unit in every run if and only if at most one drivable group is waiting to submit it. |
| `CampaignConservation.TwoSubmissions` | src/remoteslurm/stub.py:3425-3448 | With two such groups there is a run that submits the unit twice without an authorization. |
| `CampaignConservation.ReopenedAttemptIsSubmittedAgain` | src/remoteslurm/stub.py:3515-3538 | An update that sets INTENDED lets the same attempt be handed to the scheduler a second time. |
| `CampaignGuarantees.NeverSilentlyResubmitted` | src/remoteslurm/stub.py:3335-3512 | Conservation for the operations themselves: over every sequence of ensures, replays, regroupings, updates and crashes from an empty run directory. |
| `CampaignGuarantees.AttemptSubmittedAtMostOnce` | src/remoteslurm/stub.py:3267-3299 | An attempt is handed to the scheduler at most once over all runs, plus once for each update that reopened it. |
| `CampaignRecovery.SubmittedAtMostOnce` | src/remoteslurm/stub.py:3278-3299 | The same on the small-step machine, from any ledger; an attempt still INTENDED has its one call before it. |
| `CampaignRecovery.RecoveryBindsOwnJob` | src/remoteslurm/stub.py:2813-2833 | With markers that do not collide, every job id in the ledger is of a job the scheduler created for that very attempt. |
| `CampaignRecovery.AcceptedSubmissionFate` | src/remoteslurm/stub.py:3267-3332 | An attempt that no client updated and for which the scheduler created a job has made one call, is never INTENDED again, and is REJECTED only if that call exited non-zero although the job exists. |
| `CampaignGuarantees.LedgerHoldsOwnJobs` | src/remoteslurm/stub.py:2741-2833 | The same binding for every sequence of the operations. |
| `CampaignGuarantees.AcceptedHoldsItsJob` | src/remoteslurm/stub.py:2813-2833 | With markers that do not collide, over every sequence of the operations, an ACCEPTED attempt that no client updated made one call, and holds the one job that call created. |
| `CampaignGuarantees.SubmissionNeverForgotten` | src/remoteslurm/stub.py:3267-3332 | The same fate for every sequence of the operations; an ACCEPTED attempt holds a job, and with unique markers the one its call created. |
| `CampaignReservations.RunKeepsSound` | src/remoteslurm/stub.py:3408-3503 | In every run a reserved unit belongs to its group's contract and names the group's current attempt, every used authorization names a group that covers the unit, and a group's state is its current attempt's. |
| `CampaignReservations.RunExtends` | src/remoteslurm/stub.py:3485-3503 | Along every run reservations are never dropped, used authorizations are never rewritten, and attempts keep their id, marker and creation time. |
| `CampaignReservations.OnlyUpdatesReopen` | src/remoteslurm/stub.py:3267-3332 | No step but a client's update makes an attempt INTENDED again. |
| `CampaignGuarantees.LedgerStaysSound` | src/remoteslurm/stub.py:3335-3538 | Soundness and permanence for every sequence of the operations, from any sound ledger. |
| `CampaignGuarantees.ImportIsSound` | src/remoteslurm/stub.py:3182-3239 | An imported ledger has sound reservations, and every unit of a group with a current attempt is reserved to a newest such attempt; its states agree exactly when the records' do. |
| `CampaignGuarantees.ImportedConservation` | src/remoteslurm/stub.py:3182-3239 | After an import, conservation holds for a unit if and only if at most one imported group is waiting to submit it. |
| `CampaignGuarantees.ImportedOverspends` | src/remoteslurm/stub.py:3219-3239 | It can fail: importing two INTENDED records, of units 5 and 6 and of units 5 and 7, leaves both waiting for unit 5, and a run submits it twice. |
| `CampaignGuarantees.ReservedIsFound` | src/remoteslurm/stub.py:3386-3448 | Once an intent is journaled, the same request finds exactly its own group, whatever driving has done since. |
| `CampaignGuarantees.ReplayChangesNothing` | src/remoteslurm/stub.py:3335-3512 | Replaying an ensure request that completed changes no file and calls the scheduler no more. |
| `CampaignStoreRun.StoreDirectory.FindReachable` | src/remoteslurm/stub.py:3648-3680 | The walk along recorded parents: found, missing, or given up at the commit limit, the byte limit or a journal over the read limit. |
| `CampaignStoreRun.StoreDirectory.SetAside` | src/remoteslurm/stub.py:3625-3645 | The quarantine: directory, view, journal and note are moved one after the other, and the writer may die before each. |
| `CampaignStoreRun.StoreDirectory.OpenTransaction` | src/remoteslurm/stub.py:3782-3790 | The directory, which must be new, and then the request. |
| `CampaignStoreRun.StoreDirectory.StageDocuments` | src/remoteslurm/stub.py:3791-3797 | The documents one file at a time, until one's path is a directory of another's. |
| `CampaignStoreRun.StoreDirectory.PublishStaged` | src/remoteslurm/stub.py:3798-3802 | The events file and the rename of the view, which fails when nothing was staged or a view is in the way. |
| `CampaignStoreRun.StoreDirectory.Commit` | src/remoteslurm/stub.py:3714-3834 | The commit operation under the lease, branch by branch, with the writer dying before any write or rename. |
| `CampaignCommits.HeadKeeps` | src/remoteslurm/stub.py:3739-3757 | HEAD is only ever set to a journal whose recorded parent is the HEAD it replaces; the history is then the old one with the commit on top. |
| `CampaignCommits.QuarantineKeeps` | src/remoteslurm/stub.py:3625-3645 | Wherever it stops, the quarantine touches no published journal and no view of one. |
| `CampaignCommits.QuarantineLosesNothing` | src/remoteslurm/stub.py:3625-3645 | Wherever it stops, the quarantine has lost nothing: directory, view and journal are where they were or in one new orphan; run to its end it has moved all of them and left a note. |
| `CampaignHistory.HistoryIsLinear` | src/remoteslurm/stub.py:3648-3680 | HEAD at revision n reaches exactly n commits with revisions n down to 1 and distinct transactions, each with its journal and its view, each recording the next one as its parent. |
| `CampaignExactlyOnce.RunKeepsSafe` | src/remoteslurm/stub.py:3714-3834 | After every sequence of commits, replays and crashes the directory is valid, and every commit made before is still there, unchanged, in its place. |
| `CampaignExactlyOnce.ReachableExact` | src/remoteslurm/stub.py:3648-3680 | The walk finds a transaction exactly when fewer commits than the limit are newer and their journals can be read, within the byte budget if there is one; it misses it exactly when it walks the whole history and the transaction is not there. |
| `CampaignExactlyOnce.CommitReports` | src/remoteslurm/stub.py:3714-3834 | A commit that returns reports the revision after the expected one, and the transaction stands in the history with the request that was made. |
| `CampaignExactlyOnce.ResultIsRecorded` | src/remoteslurm/stub.py:3727-3833 | A commit that returns, written anew, linked or found again, has left its result on disk, with its revision and the HEAD it made. |
| `CampaignExactlyOnce.AnsweredForGood` | src/remoteslurm/stub.py:3719-3737 | From then on, after any run, by a writer with any life and whatever the traversal limit, the same content is answered with that result, and nothing is written. |
| `CampaignExactlyOnce.AnswerIsLabelled` | src/remoteslurm/stub.py:3727-3757 | The answer says idempotent exactly when the transaction was in the history before, and recovered exactly when its journal was published before, unless a result was recorded already. |
| `CampaignExactlyOnce.ReplayIsExact` | src/remoteslurm/stub.py:3719-3737 | Once committed, different content is refused without a change; the same content reports the same revision, and fails exactly when no result was recorded and the walk cannot reach the commit: too many commits are newer, or one of them has a journal over the read limit. |
| `CampaignExactlyOnce.CommittedOnce` | src/remoteslurm/stub.py:3714-3834 | After a commit that returned, at any later point of any run, the transaction stands in the history with its content, and another commit of its id writes nothing: with the same content it returns the same result, with any other it is a conflict. |
| `CampaignProgress.CompletesExactlyWhen` | src/remoteslurm/stub.py:3759-3834 | Given enough time and the expected HEAD, a commit completes if and only if no crash left its directory without a request or its view without a directory, a replay can search the history (short enough, every journal within the read limit), and it stages a document with no path a directory of another's, unless its journal and view are published already. |
| `CampaignProgress.CommitConflictsExactly` | src/remoteslurm/stub.py:3719-3768 | A commit is a conflict exactly when the id was used for other content, or HEAD is not at the expected revision and the transaction has no result and, searched to its end, the history does not have it; a conflict changes nothing. |
| `CampaignProgress.FreshCommitLeaves` | src/remoteslurm/stub.py:3782-3834 | A commit written anew leaves its directory with request, events and result, its view, its journal on the HEAD it found, and HEAD on its journal; every other transaction, view and journal is as it was. |
| `CampaignProgress.ClashNeverCommits` | src/remoteslurm/stub.py:3791-3797 | No run ever commits a transaction with a path that is a directory of another's. |
| `CampaignLimits.CrashLeavesDirectory` | src/remoteslurm/stub.py:3782-3783 | A writer that dies after making its directory leaves a transaction that every replay refuses, changing nothing. |
| `CampaignLimits.CrashInsideQuarantine` | src/remoteslurm/stub.py:3625-3645 | A replay that dies inside its quarantine can leave the view without the directory, and the next replay fails. |
| `CampaignLimits.ClashingIsRefused` | src/remoteslurm/stub.py:3791-3797 | A commit of a file and of another file below its path passes every check before the lease, and no run commits it. |
| `CampaignLimits.BigIsCommitted` | src/remoteslurm/stub.py:3693-3707 | A first commit with five mebibytes of events is accepted and committed. |
| `CampaignLimits.BigStopsEvents` | src/remoteslurm/stub.py:4009-4009 | After it no event page can be read. |
| `CampaignLimits.BigStopsChanges` | src/remoteslurm/stub.py:3945-3947 | After it no change page from the empty run on can be read. |
| `CampaignLimits.BigStopsReplay` | src/remoteslurm/stub.py:3672-3674 | After it a transaction that dies after its request can never be replayed, although HEAD stays at the revision it expects. |
| `CampaignLimits.BigStopsEarlierReplay` | src/remoteslurm/stub.py:3672-3674 | A commit that died before its result was recorded cannot be reported again once such a commit follows it. |
| `CampaignStoreRun.StoreDirectory.ReadDocument` | src/remoteslurm/stub.py:3837-3862 | The document of HEAD or of a pinned commit within the limits on its size and its journal's, checked against the digest the commit recorded. |
| `CampaignReaders.PinnedReadIsStable` | src/remoteslurm/stub.py:3837-3862 | A pinned read, after any later commits, failures and recoveries, succeeds if and only if the walk reaches the commit within its limits and budget, the commit has the document, and document and journal are within the read limits; it then returns the value that commit published, whose digest it recorded. |
| `CampaignPages.HeadReadExactly` | src/remoteslurm/stub.py:3848-3862 | Without a commit the read is of HEAD: not found in an empty run or without the document, too large exactly for a document or a journal over the limits, otherwise the value HEAD's commit published. |
| `CampaignPages.UnknownPinExactly` | src/remoteslurm/stub.py:3840-3847 | A read pinned to a commit that is not in the history is a conflict if the whole history can be walked within the limits, and too large otherwise. |
| `CampaignReaders.CommitStays` | src/remoteslurm/stub.py:3784-3829 | The journal and the view of a commit are never changed or removed. |
| `CampaignStoreRun.StoreDirectory.PageByTurns` | src/remoteslurm/stub.py:4007-4029 | The page loop of the event reader, turn by turn. |
| `CampaignStoreRun.StoreDirectory.Events` | src/remoteslurm/stub.py:3981-4035 | The event reader: limits, cursors, unreachable cursors and the page. |
| `CampaignReaders.LoopExact` | src/remoteslurm/stub.py:4007-4029 | A page is the next events of the stream, and its cursor continues exactly where it ends; a page with a cursor is full; it fails only when the history is too long or has a journal over the read limit. |
| `CampaignReaders.FollowExact` | src/remoteslurm/stub.py:3981-4035 | Following the cursors, with any limits and with commits landing between pages, yields the events of the stream as it was at the first page, in order and each once; a page fails only when the history, as it is by then, is too long or has a journal over the read limit. |
| `CampaignReaders.ReadingIsComplete` | src/remoteslurm/stub.py:3981-4035 | A whole reading, from a call without a cursor on, with any limits and with commits landing between pages, yields the events of the commits reachable from the HEAD the first page saw, newest commit first, in batch order, each once: a start of them while a cursor is left, then all. |
| `CampaignReaders.StreamIsBatches` | src/remoteslurm/stub.py:4007-4029 | The stream is the batches of the commits reachable from HEAD, newest commit first. |
| `CampaignReaders.PagingEndsExactlyWhen` | src/remoteslurm/stub.py:4026-4029 | On a store at rest, paging reaches the end if and only if the history is no longer than the traversal limit and every journal of it is within the read limit. |
| `CampaignPages.PageFailsExactly` | src/remoteslurm/stub.py:4007-4029 | An event page fails if and only if it comes to a commit whose journal is over the read limit, or takes a commit's events to the end and HEAD is too far ahead of the next commit or has a journal over the read limit on the way there. |
| `CampaignPages.EventsFailExactly` | src/remoteslurm/stub.py:3981-4006 | An event request is refused for a limit not from 1 to 500, a cursor the walk does not reach, and a cursor with another revision than its commit's; otherwise it fails exactly as its page does. |
| `CampaignStoreRun.StoreDirectory.WalkBack` | src/remoteslurm/stub.py:3934-3962 | The backward walk of the change reader within its commit and byte bounds, which fails at a journal over the read limit. |
| `CampaignStoreRun.StoreDirectory.SelectChanges` | src/remoteslurm/stub.py:3963-3971 | The entries of a page up to both of its limits. |
| `CampaignStoreRun.StoreDirectory.ChangesAfter` | src/remoteslurm/stub.py:3923-3978 | The change reader. |
| `CampaignChanges.SelectExact` | src/remoteslurm/stub.py:3963-3971 | The selection is a start of the list within both limits, and one more entry would break one of them. |
| `CampaignChanges.WalkExact` | src/remoteslurm/stub.py:3934-3962 | The walk fails exactly when a commit newer than the known one and within the bounds has a journal over the read limit; otherwise it has walked as many of the newer commits as are within the bounds, and reaches the known one if and only if all are. |
| `CampaignChanges.PageIsHonest` | src/remoteslurm/stub.py:3923-3978 | A page fails exactly when a commit within the bounds has a journal over the read limit or the oldest of them an entry over the page limit; otherwise it is complete exactly when the commits after the known one are within the bounds, and then it is the run of commits right after it, in revision order, names its last one, and says whether more follow. |
| `CampaignPages.PageCarriesExactly` | src/remoteslurm/stub.py:3962-3978 | Complete or with a gap, a change page carries the oldest of the commits walked, as many as fit its limits and no fewer, and goes on after the last of them. |
| `CampaignPages.ChangesLimit` | src/remoteslurm/stub.py:3929-3930 | A change request is refused for a limit not from 1 to 8. |
| `CampaignChanges.UnknownPageIsGap` | src/remoteslurm/stub.py:3937-3943 | After a commit that the store does not have, every page reports a gap. |
| `CampaignChanges.CollectVisitsAll` | src/remoteslurm/stub.py:3923-3978 | While coverage stays complete, asking again after each page visits every commit in revision order, none skipped or repeated, although commits land in between; when no more follow, HEAD has been reached. |
| `LogLines.FirstMatchIsReal` | src/remoteslurm/stub.py:2295-2299 | The reference match is the start of a line, finished, and matches. |
| `LogLines.NoEarlierMatch` | src/remoteslurm/stub.py:2295-2299 | No finished line before it matches. |
| `LogLines.UnfinishedIs` | src/remoteslurm/stub.py:2293-2294 | The unfinished line starts where a line starts and holds no newline. |
| `LogScanner.LogScanner.SearchLines` | src/remoteslurm/stub.py:2291-2299 | The lines of one buffer in order, until one matches; and the unfinished rest. |
| `LogScanner.LogScanner.ReadAll` | src/remoteslurm/stub.py:2284-2301 | The read loop, with its chunks, its budget and the bound on the kept partial line. |
| `LogScanner.LogScanner.Check` | src/remoteslurm/stub.py:2263-2313 | One check of the file: where it starts or starts over, what it reads, and what it reports. |
| `LogScanner.LogScanner.WaitFor` | src/remoteslurm/stub.py:2335-2352 | The wait loop: check, final check after the exit, time-out, cancel. |
| `LogScanner.WaitForCalls` | src/remoteslurm/cluster.py:704-725 | The client's loop of bounded calls, each resuming at the offset of the last. |
| `LogScanner.ReadOnExact` | src/remoteslurm/stub.py:2284-2301 | With lines that fit the bound, any chunking finds the first matching line of the whole file, or has read up to its bound without one. |
| `LogScanner.LookExact` | src/remoteslurm/stub.py:2263-2313 | One check of a file that has only grown reports the first match of the whole file with its true offset; a final check that reports nothing has seen every line. |
| `LogScanner.WaitIsHonest` | src/remoteslurm/stub.py:2335-2352 | The same for a whole call; an exit without a match means that no line matches. |
| `LogScanner.ResumesAtUnfinished` | src/remoteslurm/stub.py:2319-2321 | The offset of a call that ran out of time is the start of the first line it has not finished. |
| `LogScanner.StartsExactly` | src/remoteslurm/stub.py:2274-2275 | A first check starts at the offset asked for or at the end of a shorter file; a negative offset counts from the end, and is the start of a file with fewer bytes. |
| `LogScanner.StartsOver` | src/remoteslurm/stub.py:2276-2277 | A file shorter than what was read of it is read from its start. |
| `LogScanner.LookSettles` | src/remoteslurm/stub.py:2282-2312 | A check reads up to its budget, the final one to the end; an unfinished line is a hit only when nothing was appended since the last check or the writer has exited, and then whenever it matches. |
| `LogScanner.WaitEndsExactly` | src/remoteslurm/stub.py:2335-2352 | A wait that matches nothing ends as its first turn says that does not go on: exited, out of time or cancelled. |
| `LogScanner.FollowResumes` | src/remoteslurm/cluster.py:704-725 | The client calls again exactly when the last call ran out of time, from the offset that call returned. |
| `LogScanner.FollowIsHonest` | src/remoteslurm/cluster.py:704-725 | The same for a whole client wait: it skips no line and repeats no finished one. |
| `LogScanner.HitOffsetIsLineStart` | src/remoteslurm/stub.py:2307-2310 | The offset that comes with a hit is a line start if and only if the hit was a finished line. |
| `LogScanner.ResumeInsideLine` | src/remoteslurm/stub.py:2303-2310 | A call that resumes after an unfinished hit can report the rest of that line as a line. |
| `LogScanner.HitsAreReal` | src/remoteslurm/stub.py:2263-2313 | Whatever the lengths of the lines, a hit is text of the file at its offset, matches, and ends where a line or the file ends. |
| `CancelRegistry.Server.Note` | src/remoteslurm/stub.py:4784-4789 | The serve loop notes a cancellable request as it reads it. |
| `CancelRegistry.Server.Register` | src/remoteslurm/stub.py:4618-4627 | A process registers; early when a cancel was already accepted. |
| `CancelRegistry.Server.RegisterEvent` | src/remoteslurm/stub.py:4633-4639 | An event registers, and is set at once after an early cancel. |
| `CancelRegistry.Server.TakeCancelled` | src/remoteslurm/stub.py:4645-4650 | The mark is taken, and whether it was there. |
| `CancelRegistry.Server.Cancel` | src/remoteslurm/stub.py:4652-4685 | The four answers of a cancel, and what each marks. |
| `CancelRegistry.Server.Clean` | src/remoteslurm/stub.py:4754-4759 | The last section of a request. |
| `CancelRegistry.StepKeeps` | src/remoteslurm/stub.py:4590-4797 | Every step of every interleaving of the serve loop, the workers and the cancels keeps the registry's invariant. |
| `CancelRegistry.CancelAcceptedExactly` | src/remoteslurm/stub.py:4652-4685 | A cancel is refused if and only if its target is not a cancellable request in flight or its registered process has exited; accepted, it is remembered. |
| `CancelRegistry.OvertakingCancelIsNotLost` | src/remoteslurm/stub.py:4618-4639 | An accepted cancel either still waits with nothing registered, or has flagged the request, set its event and stopped its process. |
| `CancelRegistry.RegistrationKills` | src/remoteslurm/stub.py:4618-4627 | A registering process is killed at once if and only if a cancel overtook the request, or it is an srun already cancelled. |
| `CancelRegistry.SecondSpawnSurvives` | src/remoteslurm/stub.py:4618-4627 | A plain request that spawns a second process after an accepted cancel is not stopped again. |
| `CancelRegistry.EndLeavesNothing` | src/remoteslurm/stub.py:4730-4759 | A request that is done is in none of the registries, and exactly one terminal frame was sent for it, after every other frame of it. |
| `CancelRegistry.NoEarlyTerminal` | src/remoteslurm/stub.py:4692-4759 | No terminal frame is sent for a request in flight before it is answered. |
| `CancelRegistry.FlagIsExact` | src/remoteslurm/stub.py:4730-4738 | The terminal frame says cancelled exactly when the operation returned a result and an accepted cancel met something registered. |
| `CancelRegistry.CrashLeavesMark` | src/remoteslurm/stub.py:4741-4753 | An exception that is not a reported error leaves the mark of a cancel behind. |
| `CancelRegistry.MarkLeftOnlyByCrash` | src/remoteslurm/stub.py:4730-4753 | Nothing else does. |
| `CancelRegistry.AbandonedAreCancelled` | src/remoteslurm/stub.py:4792-4796 | At the end of the input every allocation request still known has its cancel accepted, however the workers' steps fall between the cancels, unless it had finished, or its process exited, when its cancel came. |
| `TaskRun.TaskDirectory.FindJobs` | src/remoteslurm/stub.py:2741-2785 | A query reports only real jobs created by calls that carried the marker. |
| `TaskRun.TaskDirectory.EnsureRecord` | src/remoteslurm/stub.py:2860-2961 | The ensure operation, write by write, with the stub dying before any of them. |
| `TaskRun.TaskDirectory.UpdateRecord` | src/remoteslurm/stub.py:2964-2999 | The update operation with the updates it refuses and those it ignores. |
| `TaskRun.TaskDirectory.EnsureTask` | src/remoteslurm/tasks.py:387-652 | The client operation, step by step on the record. |
| `TaskRun.TaskDirectory.Validate` | src/remoteslurm/tasks.py:541-652 | From a completed job to INVALID or a receipt. |
| `TaskAnswers.EnsureAnswersExactly` | src/remoteslurm/stub.py:2860-2961 | An ensure call that ends has recovered the current attempt as a query shows, and opened another if and only if there was none, or it has failed, is invalid or was rejected and retry is set, or it is unknown and retry_unknown is set; then one call was made, and the record is ACCEPTED with the job returned, UNKNOWN or REJECTED exactly as the scheduler answered. |
| `TaskAnswers.UpdateExactly` | src/remoteslurm/stub.py:2964-2999 | An update is refused without a record, for a state no task has or for another attempt; ignored exactly when it would go back in the order of progress or forget a result; otherwise made, with its view and its receipt. |
| `TaskAnswers.ReportsExactly` | src/remoteslurm/tasks.py:452-652 | A client call that reaches its end reports UNKNOWN, PENDING, RUNNING or FAILED exactly as the job's last known view says lost or registry only, queued, executing or ended without completing, and INVALID or VERIFIED exactly as the evidence on a completed job is; the record takes that state and that view unless the update is one the service ignores. |
| `DurableTask.EnsureSteps` | src/remoteslurm/stub.py:2860-2961 | An ensure call keeps the record's state equal to its current attempt's, makes at most one scheduler call, and opens another attempt only if a retry was allowed. |
| `DurableTask.OpensExactlyWhen` | src/remoteslurm/stub.py:2883-2895 | Given enough time it opens an attempt if and only if there is none, or the judged state is FAILED, INVALID or REJECTED and retry is set, or it is UNKNOWN and retry_unknown is set. |
| `DurableTask.UpdateSteps` | src/remoteslurm/stub.py:2964-2999 | An update moves only the current attempt, and never back. |
| `DurableTask.RunKeeps` | src/remoteslurm/stub.py:2836-2999 | Over all runs with crashes the record's state is its current attempt's, and scheduler calls and attempts number at most one plus the retries granted. |
| `DurableTask.RunEvolves` | src/remoteslurm/stub.py:2836-2999 | Between any two moments attempts are only added, keep id, marker and job, move forward, and are left alone once another is open. |
| `DurableTask.NeverReentered` | src/remoteslurm/stub.py:2978-2984 | Within an attempt the progress states never go back and are never entered again once left; no operation replaces COMPLETED, VERIFIED, INVALID or FAILED by UNKNOWN. |
| `DurableTask.AttemptHoldsItsOwnJob` | src/remoteslurm/stub.py:2813-2833 | With markers that do not collide among the attempts of the task, the job an attempt holds is the one its own single call created, read or recovered. |
| `TaskClient.EnsureTaskKeeps` | src/remoteslurm/tasks.py:387-652 | A client call keeps the record sound and its receipt sticky, wherever it stops. |
| `TaskClient.VerifiedExactly` | src/remoteslurm/tasks.py:480-652 | A call that reaches its end reports VERIFIED if and only if the job was seen completed, the outputs appeared, the validation passed and the fingerprints are those of the earlier receipt, if any; the receipt then holds the fingerprints just taken. |
| `TaskClient.VisitsSound` | src/remoteslurm/tasks.py:387-652 | After any visits, each stopped anywhere, a receipt names the current attempt and its job, which completed and passed its validation; a verified record has one. |
| `TaskClient.VisitsPreserve` | src/remoteslurm/tasks.py:596-652 | No receipt is ever replaced by another for the same attempt; a later attempt moves it to the history. |
| `TaskClient.WaitForOutputs` | src/remoteslurm/tasks.py:365-384 | The poll returns nothing missing exactly when some look no later than the deadline missed nothing; otherwise what the look at the deadline missed. |
| `JobWatch.WatchStore.Insert` | src/remoteslurm/job_monitor.py:84-88 | A watch that exists is left as it is, whatever its status. |
| `JobWatch.WatchStore.Stop` | src/remoteslurm/job_monitor.py:115-129 | Only an active watch is stopped. |
| `JobWatch.WatchStore.Save` | src/remoteslurm/job_monitor.py:144-156 | A save changes a row only while it is active, and says whether it did. |
| `JobWatch.WatchStore.Deliver` | src/remoteslurm/job_monitor.py:158-165 | The outcome of a notification. |
| `JobWatch.SelectDue` | src/remoteslurm/job_monitor.py:304-317 | The watches a tick takes on are of the host of the first one due, in order, each exactly when the jobs of all taken before it and its own stay within the query limit. |
| `JobWatch.ObserveJobs` | src/remoteslurm/job_monitor.py:343-360 | The merge of a report with what was kept, job by job, and whether any failed and all ended. |
| `JobWatch.TickOne` | src/remoteslurm/job_monitor.py:337-373 | What a tick makes of one watch: each job kept as report and earlier observation say; finished, with its verdict, if and only if every job has ended or one has failed and the watch does not wait for all; delivery uncertain if and only if it then notifies. |
| `JobWatch.OwedExactly` | src/remoteslurm/job_monitor.py:370-381 | In every interleaving, the watch's row takes what the tick leaves, and is due again after its interval, exactly when it is still active; a notification is owed if and only if that save took, the watch finished and it notifies. |
| `JobWatch.TerminalExactly` | src/remoteslurm/job_monitor.py:346-358 | A merged observation is terminal if and only if the old one was and the report knows nothing, or the report is terminal and names every task seen before. |
| `JobWatch.OverwrittenExactly` | src/remoteslurm/job_monitor.py:346-358 | A terminal observation becomes UNKNOWN if and only if a report that knows the job's state has lost one of its tasks. |
| `JobWatch.TerminalOverwritten` | src/remoteslurm/job_monitor.py:350-358 | It does happen. |
| `JobWatch.NeverActiveAgain` | src/remoteslurm/job_monitor.py:84-156 | A stopped or finished watch is never active again, under every interleaving of starts, stops, saves and deaths of the daemon, and keeps its verdict and observations. |
| `JobWatch.NotifiedAtMostOnce` | src/remoteslurm/job_monitor.py:370-381 | At most one notification is ever sent for a watch, and only for one that finished and asked for it. |
| `JobWatch.SeenTasksOnlyGrow` | src/remoteslurm/job_monitor.py:343-360 | The array tasks a watch has kept are kept by every later state of it. |
| `JobWatch.VerdictIsBorneOut` | src/remoteslurm/job_monitor.py:360-369 | A finished watch has one observation of each job, and its verdict is theirs. |
| `JobWatch.AllTerminalIsSound` | src/remoteslurm/job_monitor.py:343-369 | A tick finds all jobs terminal only if each was reported terminal with every task seen before, or was terminal before and the report knows nothing of it. |
| `JobWatch.StopWins` | src/remoteslurm/job_monitor.py:144-156 | A stop that races a tick wins: the save changes nothing and no notification is owed. |
| `SessionMux.ClientSession.FailAll` | src/remoteslurm/session.py:185-193 | Every pending future not done yet fails, and every stream is woken. |
| `SessionMux.ClientSession.KillProcess` | src/remoteslurm/session.py:174-183 | The process is dropped and killed, and what was pending fails. |
| `SessionMux.ClientSession.SubmitRequest` | src/remoteslurm/session.py:297-317 | A dead process is replaced, the id is kept unique, the request registered and written, and undone when the write fails. |
| `SessionMux.ClientSession.PopFuture` | src/remoteslurm/session.py:250-277 | A terminal frame takes its future out of the table before it completes it. |
| `SessionMux.ClientSession.EndReader` | src/remoteslurm/session.py:237-248 | The end of a reader fails what is pending only if its process is still the current one. |
| `SessionMux.ClientSession.ForgetFuture` | src/remoteslurm/session.py:363-367 | A future is dropped under whatever id it is registered. |
| `SessionMux.StepKeeps` | src/remoteslurm/session.py:174-317 | Every step completes only futures that are not complete, and never changes an outcome. |
| `SessionMux.CompletedAtMostOnce` | src/remoteslurm/session.py:250-283 | Under every interleaving a future is completed at most once. |
| `SessionMux.CompletedByItsOwn` | src/remoteslurm/session.py:174-283 | A future is completed only by a terminal frame carrying its id or by the end of the process it was sent on, as long as start is not called over a dead process with requests pending. |
| `SessionMux.FrameFromItsOwnProcess` | src/remoteslurm/session.py:250-283 | When no id is sent to two processes, the frame came from the process the request was sent on. |
| `SessionMux.OldReaderFailsNothing` | src/remoteslurm/session.py:237-248 | The exit of an old reader fails nothing; that of the current one fails exactly what is pending on it. |
| `SessionMux.FrameCompletes` | src/remoteslurm/session.py:250-283 | A terminal frame for a pending request completes that request's future with what the frame says and touches no other; one for any other id changes nothing. |
| `SessionMux.StartOwnExactly` | src/remoteslurm/session.py:116-135 | A start, ready or not, keeps every pending request on its own process, and fails none by the end of another, if and only if it is not called over a dead process with requests pending; if it is and does not become ready, the new process's end fails them all. |
| `SessionMux.StartStrands` | src/remoteslurm/session.py:116-135 | Such a start leaves a request to be failed by the end of another process. |
| `ArrayExpand.ExpandArrayTasks` | src/remoteslurm/slurm.py:172-212 | The expander returns exactly the first tasks, up to its limit, of the distinct tasks of the full expansion, while iterating over at most one value more than the limit in each range. |
| `ArrayExpand.DistinctIs` | src/remoteslurm/slurm.py:189-194 | The full answer has every listed task once, in the order of first occurrence. |
| `ArrayExpand.ListedExactly` | src/remoteslurm/slurm.py:196-211 | A single task lists itself; a range lists its first value and every one at the distance written in the part, or at distance one when none or zero is written, up to its end. |
| `ArrayExpand.ExpandsInOrder` | src/remoteslurm/slurm.py:194-212 | The parts are expanded one behind the other. |
| `ArrayExpand.BoundingIsSafe` | src/remoteslurm/slurm.py:204-209 | Bounding a range before it is iterated does not change the answer, however many of its values were seen before. |
| `ArrayExpand.BoundedRange` | src/remoteslurm/slurm.py:206-207 | A bounded range is a start of the full one with at most one value more than the limit. |

## Left out

- CampaignRun.RunDirectory.EnsureAttempt: the shape checks of script, flags, directory and ids are one flag of the request, because each is a regular expression or a type test.
- CampaignRun.RunDirectory.LoadLedger: does not model the limits of 10000 groups, of 64 MiB for the ledger and of 4 MiB for a record, whose errors leave the files as a death at that point would; nor a record whose group_id differs from its directory's name; such records are left out before the import.
- CampaignRun.RunDirectory.DriveAttempt: does not model the script file, whose bytes no ledger decision reads.
- CampaignStoreRun.StoreDirectory.Commit: begins when the lease is taken; the size limits checked before are the predicate Accepted, and document paths are taken in normalized form; the other argument checks and the fault-injection switches are not modelled. The size of a journal is given with the commit, not computed from its events.
- CampaignStoreRun.StoreDirectory.Events: asks for a valid directory, so the branches for a journal that is missing or names another commit, which no valid directory reaches, are not modelled.
- CampaignStoreRun.StoreDirectory.ChangesAfter: asks for a valid directory, for the same reason.
- CampaignReaders.PinnedReadIsStable: the value is compared with the digest as an injective function of it; the bytes and their canonical form are not modelled.
- LogScanner.LogScanner.Check: matching is a predicate on the bytes of a line; decoding and the truncation of the reported line are not modelled. Splitting a buffer is the search for one newline after another.
- LogScanner.LookExact: speaks of files whose lines fit the bound on the kept partial line and that only grow; for other files HitsAreReal is what remains.
- LogScanner.LogScanner.WaitFor: a wait for a path or a process alone, without a pattern, is not modelled.
- CancelRegistry.Server.Cancel: the signals sent after the lock is left, and their grace period, are one step that kills the process.
- CancelRegistry.StepKeeps: the frames of the cancel requests themselves, undecodable lines and a broken pipe are not modelled.
- TaskRun.TaskDirectory.EnsureRecord: the canonical form of the contract and its hash are not modelled; a task id stands for one contract.
- TaskRun.TaskDirectory.EnsureTask: the resolution of the manifest, the activity journal, the local job registry and the wording of reasons and actions are not modelled.
- JobWatch.TickOne: the collection of reports, their cache and the host's identity are an arbitrary outcome.
- SessionMux.ClientSession.SubmitRequest: the wait for readiness is one outcome of starting; deadlines are choices of the environment.
- SessionMux.StepKeeps: the contents of stream queues are not modelled, only who registers and wakes them.
- ArrayExpand.ExpandArrayTasks: takes the parts of a well-formed specification; splitting the text and reading its numbers are not modelled.
- The directory leases, real files, JSON, SHA-256 and regular expressions belong to the assumptions above.
- Subprocess handling, signals, pipe draining, detached processes, SSH transport, the daemon's sockets, file synchronisation and the user interfaces are plumbing.
- The parsers of Slurm's output, aggregation of array states, quota tables and duration parsing would add only case analysis.
- The campaign manager, the activity journal and the workspace observer appear only as the arbitrary requests they may send.
