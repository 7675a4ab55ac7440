# Account hosting: a verified model

A *cell* is one `Supervisor` and one `Orchestrator`. It owns account runtimes, the directories
they play in, and three journals: source fences, archive adoptions and settings-only bindings. A
fourth file, the controller fence, holds the highest control epoch. A runtime moves between cells
by fencing and stopping the source at epoch *e*, reserving and restoring the target at *e+1*,
placing it there, activating it and reconciling. Each of these may fail at a directory sync, be
repeated, or be cut by a crash. This project models those rules and the smaller state machines
around them, and proves what every run of them keeps.

## How it is built

A file that is replaced by write, rename and directory sync is a `Journals.Disk`: the document a
running machine reads back, and the set of documents a power loss may leave. A crash picks any of
them; a bare process exit reads the visible one.

Each stateful part comes in two forms. The *specification* is a function or relation on values
(`CellSpec`, `ReconcileSpec`, `PersistenceSpec`, `LedgerSpec`, `CompressionSpec`, `PurchaseSpec`,
`FormationSpec`, `TenantSpec`), with the theorems about it in the files named `…Proofs` and in the
files listed below. Longer runs that break a property are in the files named `…Example`. Those named
`…Answers` say which answer each request gets, as equivalences over the request and the state it
meets. The *class* (`Supervisor`, `Controller`, `Orchestrator`, `PersistenceWorker`,
`AttackLaunchLedger`, `CompressingWriter`, `PurchaseMarker`, `FormationBuilder`,
`TenantAuthenticator`) works in place with the program's own loops and early returns; each method's
contract equates the new state and answer with the specification.

For the handover core the proof goes through one more layer. `RuntimeSlice` is the machine of a
single runtime on a single cell, with the inductive invariant: how every version of the three
journals that may be on disk relates to every other and to the account tables. `CellProjection`
shows that each step of a whole cell is, for each runtime, one permitted move of that machine.
`CellInvariant` adds the rules that span runtimes. From there:

| file | result |
|---|---|
| `CellInvariant`, `CellJournals`, `Loaders` | every document a run can leave on disk is accepted by the loaders |
| `Acknowledgement`, `Requests`, `ActivationOnDisk` | what a success answer promises after any later crash |
| `EpochChain` | epochs, states and generations only advance |
| `Blocking`, `BlockingExample` | fenced and retired directories stay closed, and the one way into them |
| `Capacity`, `CapacityExample` | the account limit, its exact condition, and the two ways around it |
| `DirectoryOwnership` | account tables and directories correspond one to one |
| `World` | at most one cell runs a runtime |
| `SourceAnswers`, `TargetAnswers`, `AdmissionAnswers`, `AccountAnswers` | exactly which requests are answered, and with what |
| `DocumentAnswers` | exactly which journals the loaders accept |

Eleven properties hold only under a condition. For each the code is kept as it is, an input or a
run that breaks the property is a lemma, and the exact condition is another:

- An archive generation that is active in memory is active on disk, except when the process exits
  (without a power loss) after an activation was renamed but not synced: `ExitKeepsActiveDurable`,
  broken by `ActivationCanBeLost`.
- An acknowledged restore survives every later crash, except that the answer to a repeated request
  for an already active generation does if and only if that activation is on disk:
  `RepeatedRestoreSurvives`, broken by `RepeatedReceiptCanBeLost`.
- The account limit holds throughout a run if and only if no restart reads documents that promise
  more slots than there are: `LimitHoldsExactly`. A restart takes back no free slot if and only if
  the documents it reads release every free runtime (`RestartReclaimsNothing`), and no crash can if
  and only if that release is on disk journal by journal (`CrashesReclaimNothing`). Broken by a lost
  fence in `LimitCanBePassed` and, behind a synced fence, by a lost activation in
  `LimitCanBePassedBehindFence`.
- A session starts on a configured application if and only if the assignment is unmanaged or the
  application is still the one that was checked: `StartIsConfigured`. A rebind in between breaks it:
  `StartCanBeUnconfigured`.
- A managed application stays behind the configuration gate through every run without a rebind, and
  through a rebind if and only if it was first started under a managed assignment:
  `RebindKeepsManaged`, broken by `RebindCanLoseTheGate`.
- The formation builder's stock check covers all copies if and only if no item's count passes
  2^63 - 1: `BuiltFitsStock`, broken by `OverflowPasses`.
- A save acknowledged above the subscription baseline makes every change durable that its commit's
  event names, whatever happens before and after: `AcknowledgementHolds`. A changed entry of a component
  that has files can be missing from an acknowledged save if and only if its commit did not name it
  (`LostIffUnnamed`), and one answer covers all changes if and only if its flush rewrites the unnamed
  ones anyway (`AcknowledgedExactly`). A commit that declares every component runs without change
  tracking and names, for example, no movement and no report: broken by `BroadMoveCanBeLost` and,
  alone in its batch, by `BroadReportIsLost`.
- A save acknowledged at or below that baseline covers all changes up to its revision if and only if
  each is saved already, or no earlier manifest is kept, or its component is rewritten whole, or its
  key is in the batch: `DefensiveRequest`, broken by `DefensiveRequestCanBePartial` and, without any
  write, by `DefensiveRequestCanBeEmpty`.
- A blocked directory, and every directory inside or around it, is open to a runtime if and only if it
  is that runtime's own active settings-only binding: `BlockedForever`. The exception is real:
  `BlockedCanBeOpened` is a run after which a second runtime of the same player may be added to the
  directory that the first one's stopped fence blocks.
- Once a receipt reports a gap, no window that starts at or before it is answered by this or any later
  process if and only if the mark reached the store or the store's boundary was already as late:
  `GapIsNotAnswered`, broken by `UnmarkedGapIsAnswered`.
- A session opens its runtime if and only if it is unexpired, the runtime is registered, and the
  registrations since are a multiple of 2^64 - 1: `SessionOpens`. Short of a whole turn that means
  "never revoked"; `WrapRevives` is the family of runs in which it does not.

What `World` assumes of the backend: for one runtime it places epoch *e+1* only while it holds the
stop receipt of epoch *e*; it sends adds, reconciles and activations only with epochs at which it
placed the runtime on that cell, but possibly old ones, repeated and in any order.

## Model

| member | source | states |
|---|---|---|
| CellInvariant.WrittenIsAccepted | Server/Accounts/ProfileAdoption.go:64-115 | after any run from a fresh data root, every fence, adoption and binding document a restart can find is one the loaders accept, adoptions with this cell's id |
| CellInvariant.StepKeepsCellInv | Server/Accounts/ProfileAdoption.go:422-502 | every step (accounts, fence, reserve, restore, activate, settings-only, exit, crash) keeps the cell invariant: accepted journals, owned directories and agreeing versions for every runtime |
| CellInvariant.RunKeepsCellInv | Server/Accounts/ProfileAdoption.go:315-561 | the same over every finite sequence of steps |
| CellInvariant.ReservationFits | Server/Accounts/ProfileAdoption.go:460-500 | a successful reservation leaves a document that meets the loader's full predicate |
| CellInvariant.StateFits | Server/Accounts/ProfileAdoption.go:409-418 | saving the restored or active state of a current generation keeps the document acceptable |
| CellInvariant.LocalDirectoryUnshared | Server/Accounts/LocalProfileSwitch.go:189-198 | a settings-only reservation never takes the directory of another binding, which the loader would refuse |
| CellJournals.StatesAccepted | Server/Accounts/ProfileAdoption.go:86-113 | the adoption loader does not depend on states: documents that differ only there are accepted alike |
| CellJournals.StepKeepsDirectories | Server/Accounts/Supervisor.go:408-445 | every account step keeps the three tables disjoint and the directory table in bijection with them |
| CellProjection.StepMoves | Server/Accounts/HandoverFence.go:196-355 | refinement: whatever a cell does is, for every runtime, one permitted move of the single-runtime machine |
| CellInvariant.StepKeepsSlices | Server/Accounts/ProfileAdoption.go:231-272 | after any step of a cell the single-runtime invariant holds again for every runtime |
| RuntimeSlice.MoveKeepsAgreement | Server/Accounts/ProfileAdoption.go:422-455 | after every permitted move, each possible fence, adoption and binding version of a runtime agree with each other |
| RuntimeSlice.MoveKeepsLiveness | Server/Accounts/Supervisor.go:389-432 | after every permitted move a live runtime is still in its own directory with no stopped fence against it |
| RuntimeSlice.NewFenceIsLater | Server/Accounts/HandoverFence.go:211-238 | a fence whose identity replaces another's has a strictly later epoch |
| Loaders.LoadFences | Server/Accounts/HandoverFence.go:62-97 | the loader's loop accepts exactly the fence documents whose entries are valid under their own key |
| Loaders.CheckOperations | Server/Accounts/ProfileAdoption.go:86-93 | exactly whether every operation is a valid profile under its own key whose runtime has a current entry |
| Loaders.CheckCurrent | Server/Accounts/ProfileAdoption.go:94-107 | a current entry passes exactly if it names a record of its runtime, the staging place is retired to it, and every older generation has a smaller epoch, the same account, tenant, cell and profile, and a directory retired to the runtime |
| Loaders.CheckRetired | Server/Accounts/ProfileAdoption.go:108-113 | exactly whether every retired directory is a valid place of its owner and not the owner's current one |
| Loaders.LoadAdoptions | Server/Accounts/ProfileAdoption.go:64-115 | the three loops together accept exactly `AcceptAdoptions` |
| Loaders.LoadLocals | Server/Accounts/LocalProfileSwitch.go:40-72 | accepts exactly valid bindings under their own runtime with pairwise distinct directories |
| Acknowledgement.StopReceiptSurvives | Server/Accounts/HandoverFence.go:305-354 | once a stop is confirmed, every fence journal any later restart can find holds this stopped fence or one of a later epoch |
| Requests.PrepareReceiptSurvives | Server/Accounts/HandoverFence.go:196-355 | the same for a whole source request: fence, drain, stop, confirm |
| Requests.PreparedIsNotLive | Server/Accounts/HandoverFence.go:284-354 | a SourceStopped answer means the runtime is in none of the account tables |
| Requests.FencedOwnsNothing | Server/Accounts/HandoverFence.go:211-291 | once its fence is published the runtime has neither an active import nor an active binding |
| Acknowledgement.RestoreSurvives | Server/Accounts/ProfileAdoption.go:397-418 | a published restore is in every later document as that generation, restored or active, or as a later generation |
| Requests.RestoreReceiptSurvives | Server/Accounts/ProfileAdoption.go:315-419 | the same for a whole restore request, new or repeated, unless it finds its generation active already |
| Requests.RepeatedRestoreSurvives | Server/Accounts/ProfileAdoption.go:340-354 | the answer for an already active generation survives every run if and only if that activation is on disk |
| Requests.RepeatedReceiptCanBeLost | Server/Accounts/ProfileAdoption.go:340-354 | the run in which that answer is given and a power loss turns the generation back |
| SourceAnswers.PreparedExactly | Server/Accounts/HandoverFence.go:196-355 | a stop request is answered if and only if its fence is allowed, what runs is stopped and waited for, the place is then free and keeps its identity, and both saves are synced; the receipt is the stopped fence of this request for the place the runtime ran in |
| SourceAnswers.FencedExactly | Server/Accounts/HandoverFence.go:206-291 | a first fence needs the runtime running here under exactly the identity's tenant, epoch, revision and digest with its configuration applied, a repeat publishes the stored fence, and both need ownership of the profile; the fence stands in memory even when its save fails |
| SourceAnswers.UnfencedKeepsRunning | Server/Accounts/HandoverFence.go:284-299 | nothing is stopped before its fence is durable: a request whose fence is refused or not synced leaves every account table as it was |
| SourceAnswers.LockedExactly | Server/Accounts/ProfileAdoption.go:242-255 | a runtime is locked if and only if it has a binding, an import or a fence and neither binding nor import lets it run |
| SourceAnswers.RemovedExactly | Server/Accounts/Supervisor.go:600-658 | a removal succeeds if and only if what runs was stopped and waited for, and frees exactly the directory it ran in |
| SourceAnswers.ConfirmedExactly | Server/Accounts/HandoverFence.go:300-354 | the stop is confirmed if and only if the place is free, readable, still of the identity it had, and the save is synced |
| TargetAnswers.RestoredExactly | Server/Accounts/ProfileAdoption.go:315-419 | a restore is answered if and only if the receipt is good, the configuration proved, the operation new and reservable or known as this very request, and, unless it is active and has not departed, the archive is intact and both saves are synced; the answer is the generation of this receipt, epoch, cell and place |
| TargetAnswers.ReservableExactly | Server/Accounts/ProfileAdoption.go:422-497 | a new generation is reservable if and only if the runtime is unbound, idle, has room, has left its history behind, and every place it may have lived in can be retired |
| TargetAnswers.ReservationStands | Server/Accounts/ProfileAdoption.go:356-396 | whatever becomes of its saves and its archive, a new request that may be restored leaves its generation and the retired places in memory, and any other leaves nothing |
| TargetAnswers.ActivatedExactly | Server/Accounts/ProfileAdoption.go:507-561 | an activation is answered if and only if it names the newest generation, restored with an intact archive or active and not departed, and its save is synced; only the first one makes the cell forget the assignment |
| AdmissionAnswers.AdmittedExactly | Server/Accounts/Supervisor.go:389-432 | a runtime is admitted to a directory if and only if its assignment places it here at a configuration no older than the transferred one, no handover keeps it out, the profile is the one received, it is idle, there is room, and nobody is in the directory |
| AdmissionAnswers.OpenExactly | Server/Accounts/HandoverFence.go:139-176 | exactly which places the journals leave open to a runtime |
| AdmissionAnswers.DirectoryExactly | Server/Accounts/Supervisor.go:835-865 | the profile is in the binding's place, else the import's, else the player's, else the staging place |
| AdmissionAnswers.RoomExactly | Server/Accounts/Supervisor.go:558-568 | there is room if and only if there is no limit or fewer other runtimes are live or promised a slot |
| AdmissionAnswers.BoundExactly | Server/Accounts/Supervisor.go:756-814 | a player is bound if and only if the runtime has no player, binding or import and neither place is claimed |
| AdmissionAnswers.ReservedExactly | Server/Accounts/LocalProfileSwitch.go:123-242 | a settings-only reservation is answered if and only if it repeats the one held, or history is left behind, the profile is there, nobody is in its place and there is room; the answer is that binding, which stands in memory even when its save fails |
| AdmissionAnswers.BindingActivatedExactly | Server/Accounts/LocalProfileSwitch.go:244-276 | a binding is activated if and only if it is the reservation held, no fence has reached its epoch, its profile is there and the save is synced |
| AccountAnswers.AddedExactly | Server/Accounts/Supervisor.go:433-488 | an admitted runtime is started if and only if its application was constructed; a failed construction, or one that met a closed supervisor, leaves no trace |
| AccountAnswers.LateReleaseAgrees | Server/Accounts/Supervisor.go:600-687 | a removal that gave up waiting and one that waited leave the same state behind once the application has ended |
| AccountAnswers.WatchedOnce | Server/Accounts/Supervisor.go:661-671 | only the first caller gets to watch a stopping application |
| AccountAnswers.OtherApplicationIsKept | Server/Accounts/Supervisor.go:673-679 | a late watcher releases neither an application that has not ended nor another one in its place |
| AccountAnswers.ClosedForGood | Server/Accounts/Supervisor.go:881-895 | over any steps of a closed supervisor no runtime is admitted or started |
| AccountAnswers.RestartedExactly | Server/Accounts/ProfileAdoption.go:64-115 | what a bare exit and a power loss leave: nothing running, and the visible or one possible document of each journal |
| AccountAnswers.WrittenExactly | Server/Accounts/HandoverFence.go:101-137 | after a replacement of a file a power loss finds the old documents, or these and the new one, or the new one alone |
| DocumentAnswers.AdoptionsExactly | Server/Accounts/ProfileAdoption.go:86-113 | the adoption loader accepts exactly the journals whose records, newest entries and retired places are good, field by field |
| DocumentAnswers.FencesExactly | Server/Accounts/HandoverFence.go:39-60 | the same for source fences |
| DocumentAnswers.LocalsExactly | Server/Accounts/LocalProfileSwitch.go:40-72 | the same for settings-only bindings |
| DocumentAnswers.CanonicalExactly | Server/Accounts/Supervisor.go:44-50 | an id is canonical if and only if it is one to 64 small letters, digits, hyphens and underscores and starts with a letter or digit |
| DocumentAnswers.DigestExactly | Server/Accounts/Orchestrator.go:1440-1446 | a digest is valid if and only if it is 64 small hexadecimal digits |
| DocumentAnswers.ComponentExactly | Server/Accounts/HandoverFence.go:51-55 | a directory name is valid if and only if it is not empty, a dot or two, and has no slash, backslash, colon or zero |
| Acknowledgement.ActivationSurvives | Server/Accounts/ProfileAdoption.go:507-561 | an acknowledged activation is active in every later document, or replaced by a later generation |
| Acknowledgement.LocalReservationSurvives | Server/Accounts/LocalProfileSwitch.go:123-242 | an acknowledged settings-only reservation survives every later crash |
| Acknowledgement.LocalActivationSurvives | Server/Accounts/LocalProfileSwitch.go:244-276 | an acknowledged settings-only activation stays active in every later document |
| Acknowledgement.StepKeepsFloors | Server/Accounts/HandoverFence.go:101-137 | no step lets any possible journal version fall back behind a fence, generation or binding that all versions had reached |
| ActivationOnDisk.ActiveInMemoryIsOnDisk | Server/Accounts/ProfileAdoption.go:543-551 | crashes included, a generation active in memory is active or replaced by a later one in every document on disk, when no process exit meets a pending activation |
| ActivationOnDisk.ExitKeepsActiveDurable | Server/Accounts/ProfileAdoption.go:64-115 | after a bare process exit it holds if and only if no activation was renamed without being adopted in memory |
| ActivationOnDisk.ActivationCanBeLost | Server/Accounts/ProfileAdoption.go:133-155 | the run that fails: an unsynced activation, an exit, and a document that a power loss turns back |
| EpochChain.StepOnlyAdvances | Server/Accounts/ProfileAdoption.go:340-360 | between restarts a fence changes identity only for a later epoch, adoption state never regresses, a binding never loses activation, and the retired set never shrinks |
| EpochChain.DepartedStaysInactive | Server/Accounts/ProfileAdoption.go:231-240 | a generation whose departure was acknowledged is never active again, after any steps and crashes |
| EpochChain.GenerationsAreChained | Server/Accounts/ProfileAdoption.go:424-455 | a new generation continues every version of the old journals: old target epoch ≤ fence epoch < new source epoch, the same owner and profile |
| EpochChain.LocalExcludesImport | Server/Accounts/LocalProfileSwitch.go:145-188 | a runtime with a settings-only binding has no active import, in any combination of documents a restart can find |
| EpochChain.DocumentsAgree | Server/Accounts/ProfileAdoption.go:242-272 | any three documents a crash may combine agree for every runtime |
| EpochChain.StoppedIsNotLive | Server/Accounts/HandoverFence.go:139-176 | a stopped fence without an active import or binding means the runtime is not live |
| EpochChain.ActivationFindsNoRuntime | Server/Accounts/ProfileAdoption.go:530-559 | the first activation of a generation finds a live runtime only where an active settings-only binding runs it, and then the generation has departed |
| Blocking.BlockedForever | Server/Accounts/HandoverFence.go:139-176 | once every document blocks a directory, after every run that binds its runtime nowhere else: a directory equal to it, inside it or around it is open to a runtime if and only if it is that runtime's own active binding, and no other runtime is admitted |
| Blocking.SavedFenceBlocks | Server/Accounts/HandoverFence.go:101-137 | a durable fence blocks its directory in that sense, when no document binds the runtime elsewhere |
| Blocking.SavedRetirementBlocks | Server/Accounts/ProfileAdoption.go:460-500 | a durable reservation blocks every directory it retired |
| Blocking.ReplacedFenceIsRetired | Server/Accounts/HandoverFence.go:227-237 | when a fence is replaced, its directory is already retired in every version of the adoption journal |
| Blocking.ClosedOnlyGrows | Server/Accounts/HandoverFence.go:139-176 | while the process runs, a directory fenced, retired or bound for a runtime stays closed, saved or not, as long as it is retired or the runtime is bound nowhere else |
| Blocking.BlockedIsRefused | Server/Accounts/HandoverFence.go:139-176 | in one state: the fence check passes a directory related to a blocked one if and only if it is the runtime's own active binding |
| BlockingExample.BlockedCanBeOpened | Server/Accounts/LocalProfileSwitch.go:189-198 | a run from a fresh root after which a second runtime of the same player may be added to a directory blocked by the first one's synced, stopped fence |
| Capacity.RunKeepsLimit | Server/Accounts/ProfileAdoption.go:170-214 | from within the limit, accounts, pending, stopping and reserved slots never pass MaxAccounts over any run whose restarts release the free runtimes |
| Capacity.LimitHoldsExactly | Server/Accounts/Supervisor.go:558-568 | over any run: the limit holds in every state if and only if no restart reads documents that promise too many slots |
| Capacity.StepKeepsLimit | Server/Accounts/Supervisor.go:420-432 | one step: reservations turn into runtimes and back without a slot being counted twice or lost; a restart keeps the limit when it takes back no free slot |
| Capacity.RestartReclaimsNothing | Server/Accounts/ProfileAdoption.go:189-213 | a restart takes back no free slot if and only if the documents it reads release every free runtime |
| Capacity.CrashesReclaimNothing | Server/Accounts/ProfileAdoption.go:170-214 | no document a power loss may leave takes back a free slot if and only if, for each free runtime, no possible binding is merely reserved, no possible generation is unfinished, and every departure is on disk |
| Capacity.CrashKeepsSlotFree | Server/Accounts/ProfileAdoption.go:170-214 | the same for one runtime and every combination of its journal entries |
| Capacity.ExitKeepsSlotFree | Server/Accounts/ProfileAdoption.go:170-214 | through a bare exit a slot stays free if and only if the visible entries release it |
| Capacity.ArchiveReleasedOnDisk | Server/Accounts/ProfileAdoption.go:205-210 | for a runtime without a binding the release is on disk if and only if its activation and its departure are |
| Capacity.SettledJournalsRelease | Server/Accounts/HandoverFence.go:101-137 | journals without an unsynced version release every free runtime in any restart |
| Capacity.CountOf | Server/Accounts/Supervisor.go:558-568 | the code's sum of table sizes and reserved slots is the number of distinct other runtimes that hold a slot |
| CapacityExample.LimitCanBePassed | Server/Accounts/HandoverFence.go:101-137 | one slot, two holders: a fence that was never synced frees a slot which a power loss takes back |
| CapacityExample.LimitCanBePassedBehindFence | Server/Accounts/LocalProfileSwitch.go:75-98 | one slot, two holders although fence and stop are synced: the binding whose activation was not comes back as reserved |
| DirectoryOwnership.DirectoriesMatchRuntimes | Server/Accounts/Supervisor.go:408-445 | in every reachable state no two live runtimes share a directory, the directory table holds exactly the live ones, and sizes agree |
| DirectoryOwnership.DirectoryHeldUntilFinished | Server/Accounts/Supervisor.go:600-687 | a running or stopping runtime keeps its directory through every request and watcher until its application's Wait has completed |
| DirectoryOwnership.StaleDirectoryIsRefused | Server/Accounts/Supervisor.go:385-397 | a directory looked up any number of steps before the lock is the present one, the staging place, or refused by the fence check |
| World.SingleRunner | Server/Accounts/ProfileAdoption.go:242-272 | for any number of cells and any interleaving, a live runtime is on the cell it was last placed on and on no other |
| World.StepKeepsWorldInv | Server/Accounts/HandoverFence.go:196-355 | every permitted step of any cell or of the backend keeps the invariant behind it |
| World.ClosedAfterReceipt | Server/Accounts/ProfileAdoption.go:257-272 | a cell that gave a stop receipt for its latest placement does not run the runtime |
| World.LiveIsLast | Server/Accounts/Supervisor.go:389-432 | a cell that runs the runtime is the one it was placed on last |
| Supervisor.Supervisor.constructor | Server/Accounts/Supervisor.go:146-270 | a fresh data root starts with empty tables and journals |
| Supervisor.Supervisor.ActiveProfile | Server/Accounts/ProfileAdoption.go:231-240 | the current generation, active if its state is and no fence is at or past its target epoch |
| Supervisor.Supervisor.RuntimeHandoverFenced | Server/Accounts/ProfileAdoption.go:242-255 | locked exactly if a binding is inactive, or an import exists or a fence stands without an active import |
| Supervisor.Supervisor.ValidateAdoptedAssignment | Server/Accounts/ProfileAdoption.go:257-272 | an imported runtime accepts exactly assignments with its own tenant, target epoch and pinned configuration |
| Supervisor.Supervisor.LocalSlots | Server/Accounts/ProfileAdoption.go:170-188 | the first loop counts the bindings that reserve a slot, each runtime once |
| Supervisor.Supervisor.ImportSlots | Server/Accounts/ProfileAdoption.go:189-213 | the second loop counts the imports of runtimes without a binding |
| Supervisor.Supervisor.ReservedProfileSlots | Server/Accounts/ProfileAdoption.go:170-214 | together they count the set of reserved runtimes without double counting |
| Supervisor.Supervisor.HasRoomFor | Server/Accounts/Supervisor.go:420-424 | capacity counts live runtimes and other runtimes' reservations; zero means unlimited |
| Supervisor.Supervisor.AccountDataDir | Server/Accounts/Supervisor.go:835-865 | a binding decides the directory, else the current import, else the player binding, else the staging place |
| Supervisor.Supervisor.SourceProfileFenced | Server/Accounts/HandoverFence.go:139-176 | the four scans with early exits decide exactly whether some binding, generation, retirement or fence claims a related directory |
| Supervisor.AnyGenerationRelated | Server/Accounts/HandoverFence.go:162-168 | found exactly if some generation other than the runtime's own active one is in a related directory |
| Supervisor.AnyRetiredRelated | Server/Accounts/HandoverFence.go:156-161 | found exactly if a retired directory equals, contains or is inside the one asked for |
| Supervisor.AnyFenceRelated | Server/Accounts/HandoverFence.go:169-174 | found exactly if a fence is the runtime's own without an active import, or in a related directory |
| Supervisor.AnyLocalRelated | Server/Accounts/HandoverFence.go:144-149 | found exactly if some settings-only binding is in a related directory |
| Supervisor.Supervisor.BeginAddAccount | Server/Accounts/Supervisor.go:389-432 | the checks under the lock on a directory looked up before it, and the directory and pending entries that an admitted add takes |
| Supervisor.Supervisor.FinishAddAccount | Server/Accounts/Supervisor.go:435-497 | after construction the runtime moves from pending to accounts, or everything it took is given back |
| Supervisor.Supervisor.ClaimStopWatcher | Server/Accounts/Supervisor.go:661-671 | only the first caller for a stopping application gets to watch it |
| Supervisor.Supervisor.ReleaseStoppedAccount | Server/Accounts/Supervisor.go:673-687 | after Wait, the entry and its directory are released, but only for the same application and owner |
| Supervisor.Supervisor.RemoveAccount | Server/Accounts/Supervisor.go:600-658 | success only if stop and Wait both succeeded; a timed-out Wait leaves the directory with the watcher |
| Supervisor.Supervisor.BindToPlayer | Server/Accounts/Supervisor.go:756-814 | the bind step of a rebind happens exactly if neither place is claimed by a handover |
| Supervisor.Supervisor.SaveSourceFence | Server/Accounts/HandoverFence.go:101-137 | memory holds the fence whatever happens to the file; success means durable |
| Supervisor.Supervisor.FenceToPublish | Server/Accounts/HandoverFence.go:196-283 | a retry publishes the fence in memory, a new identity only with ownership of the placement and the live runtime's directory |
| Supervisor.Supervisor.PublishFence | Server/Accounts/HandoverFence.go:284-291 | a published fence is in memory and in every possible document before anything is stopped |
| Supervisor.Supervisor.ConfirmSourceStopped | Server/Accounts/HandoverFence.go:305-354 | the stop is published only when the directory is free and still holds the identity it had |
| Supervisor.Supervisor.PrepareSourceHandover | Server/Accounts/HandoverFence.go:188-355 | the whole request, with every failure point, equals the specification whose receipts survive |
| Supervisor.Supervisor.MayUseDirectory | Server/Accounts/ProfileAdoption.go:471-495 | a directory is reservable exactly if no live runtime is related to it, no other runtime's generation or retirement has it, and an existing old place is explained by a fence |
| Supervisor.Supervisor.RetireOldDirectories | Server/Accounts/ProfileAdoption.go:460-497 | if all places are reservable the old ones are retired to the runtime, else nothing is changed |
| Supervisor.Supervisor.ReserveTargetProfile | Server/Accounts/ProfileAdoption.go:422-502 | the reservation is in memory as the new current generation before it is saved |
| Supervisor.Supervisor.SaveProfileState | Server/Accounts/ProfileAdoption.go:543-551 | a state is adopted in memory only after its document is durable |
| Supervisor.Supervisor.RestoreTargetProfile | Server/Accounts/ProfileAdoption.go:315-419 | the whole restore, repeated requests included, equals the specification whose receipts survive |
| Supervisor.NewestIsCurrent | Server/Accounts/ProfileAdoption.go:498-500 | after a reservation the runtime's current generation is the new one, in state reserved, and the operation table is still keyed |
| Supervisor.Supervisor.ActivateTargetProfile | Server/Accounts/ProfileAdoption.go:507-561 | activation checks identity and generation, saves, then forgets the old assignment once |
| Supervisor.Supervisor.ActiveLocalProfile | Server/Accounts/LocalProfileSwitch.go:100-109 | the binding, active if its state is and no fence is at or past its target epoch |
| Supervisor.Supervisor.SaveLocalProfileBinding | Server/Accounts/LocalProfileSwitch.go:75-98 | memory changes before the file is durable; the answer comes only with durability |
| Supervisor.Supervisor.PreviousHasStopped | Server/Accounts/LocalProfileSwitch.go:145-188 | what this runtime did here before must have stopped under the same owner at an earlier epoch |
| Supervisor.Supervisor.PrepareLocalProfile | Server/Accounts/LocalProfileSwitch.go:123-242 | the whole reservation, repeated requests included, equals the specification whose receipts survive |
| Supervisor.Supervisor.ActivateLocalProfile | Server/Accounts/LocalProfileSwitch.go:244-276 | only the reserved binding, not departed and with its identity on disk, becomes active |
| ControlFence.AdmittedEpochsRise | Server/Accounts/ControlFence.go:87-153 | over requests, overlapping processes, failed syncs and crashes, admitted epochs never decrease and none is unfenced after a positive one |
| ControlFence.AdmittedIsDurable | Server/Accounts/ControlFence.go:128-152 | an admitted epoch is in every possible document before the handler runs, and never below memory or file |
| ControlFence.VisibleIsNotDurable | Server/Accounts/ControlFence.go:143-151 | why an equal epoch is written again: the run where the file reads back but may still be lost |
| ControlFence.EventKeepsHighWater | Server/Accounts/ControlFence.go:87-153 | no request, restart or crash brings any possible file below an admitted epoch |
| ControlFence.HeaderEpochAccepts | Server/Accounts/ControlFence.go:88-101 | the header names an epoch exactly if it is absent or the one canonical decimal in 1 to 2^63 - 1 |
| ControlFence.AnsweredExactly | Server/Accounts/ControlFence.go:87-153 | an epoch is admitted if and only if it is named, the file is readable, neither memory nor file is past it, and a positive one is synced; each refusal likewise |
| ControlFence.ParseHeader | Server/Accounts/ControlFence.go:88-101 | parse, range check and print-back accept exactly those headers |
| ControlFence.FenceFile.Replace | Server/Accounts/ControlFence.go:58-81 | the file after a save that may fail before or after its rename |
| ControlFence.Controller.WithControlFence | Server/Accounts/ControlFence.go:87-153 | memory, file and answer of one request |
| Decimal.ValueOfFormat | Server/Accounts/ControlFence.go:96-97 | printed numbers read back as themselves |
| Decimal.FormatOfValue | Server/Accounts/ControlFence.go:96-97 | digits without a leading zero are what their value prints as |
| Decimal.ParseUint | Server/Accounts/TenantAuth.go:400-403 | the digit loop with its range check gives the value exactly for digit strings within the maximum |
| ReconcileProofs.ReadyMeansApplied | Server/Accounts/Orchestrator.go:1401-1416 | in every reachable state a live application with a ready gate has acknowledged exactly its assignment's epoch, revision and digest, for this application instance |
| ReconcileProofs.PublishSetsGates | Server/Accounts/Orchestrator.go:538-567 | publication gates every live application by its new tuple and leaves preserved ones alone |
| ReconcileProofs.StartIsConfigured | Server/Accounts/Orchestrator.go:1418-1438 | a session start meets a configured application if and only if the assignment is unmanaged or the application is still the one that was checked |
| ReconcileProofs.RebindSpoilsStart | Server/Accounts/Supervisor.go:756-814 | a rebind between check and start of a managed runtime always makes the start unconfigured |
| ReconcileProofs.StartCanBeUnconfigured | Server/Accounts/Orchestrator.go:1418-1438 | a run from a new cell that starts a session of a managed runtime on an application that acknowledged nothing |
| ReconcileProofs.EventKeepsManaged | Server/Accounts/Orchestrator.go:542-552 | every event but a rebind keeps managed applications behind a gate |
| ReconcileProofs.RunKeepsManaged | Server/Accounts/Orchestrator.go:585-613 | every run without a rebind keeps managed applications behind a gate |
| ReconcileProofs.RebindKeepsManaged | Server/Accounts/Supervisor.go:756-814 | a rebind does if and only if the application was first started under a managed assignment |
| ReconcileProofs.RebindCanLoseTheGate | Server/App/Application.go:141-170 | a run after which a managed application executes everything |
| ReconcileHistory.RefusalsChangeNothing | Server/Accounts/Orchestrator.go:439-530 | every answer before publication leaves revision, assignments and acknowledgements, and an equal revision is accepted only with identical assignments |
| ReconcileHistory.PublicationFollowsHistory | Server/Accounts/Orchestrator.go:491-567 | a publication installs exactly the desired set, retained runtimes keep tenant and epoch order, new ones were started by it |
| ReconcileHistory.PreservedIsUntouched | Server/Accounts/Orchestrator.go:458-567 | a preserved runtime keeps assignment, application, gate and acknowledgement and is never constructed |
| ReconcileHistory.RevisionsRise | Server/Accounts/Orchestrator.go:439-571 | accepted revisions never decrease over any run |
| ReconcileHistory.RetainedKeepsOwner | Server/Accounts/Orchestrator.go:491-503 | over any run a runtime that stays desired keeps its tenant and its epoch never falls |
| ReconcileAnswers.RefusedExactly | Server/Accounts/Orchestrator.go:439-530 | a request gets each refusal if and only if that is its first failing condition: its form, a stale revision, its preserve list, the limit, a runtime locked by a handover, a reused revision, an owner change, a stale epoch |
| ReconcileAnswers.AcceptedExactly | Server/Accounts/Orchestrator.go:439-616 | a request with none of them is found in force, or published if and only if everything new starts and registers |
| ReconcileAnswers.InstalledExactly | Server/Accounts/Orchestrator.go:457-560 | what is then in force: the listed assignments, the preserved ones that were there, and nothing else |
| ReconcileAnswers.ForgetsExactly | Server/Accounts/Orchestrator.go:547-560 | exactly the acknowledgements of removed and of unmanaged runtimes are forgotten |
| ReconcileAnswers.AcknowledgedExactly | Server/Accounts/Orchestrator.go:898-967 | ready if and only if the tuple is in force, does not go back, and was installed now or before by this application |
| ReconcileAnswers.StartsExactly | Server/Accounts/Orchestrator.go:1418-1438 | a session start passes its check if and only if the placement is in force, wants a session, and its configuration is acknowledged or not required |
| ReconcileAnswers.FencedStaysClosed | Server/Accounts/HandoverFence.go:292-295 | behind its source fence an application stays at the pending gate over every run without a request, an acknowledgement of its own, or its restart |
| ReconcileAnswers.ForgottenStaysOut | Server/Accounts/ProfileAdoption.go:552-559 | once the cell forgot an assignment, no acknowledgement and no session start of that runtime passes until the next request |
| ReconcileAnswers.RemovedStaysGone | Server/Accounts/Supervisor.go:600-687 | a removed application is gone until a request starts it again |
| ReconcileAnswers.OthersAreUntouched | Server/Accounts/Orchestrator.go:898-967 | what concerns one runtime leaves every other one's assignment, acknowledgement and application as they are |
| Orchestrator.ValidateRuntimes | Server/Accounts/Orchestrator.go:618-704 | the validation loop accepts exactly lists of valid assignments with distinct runtimes, and indexes them |
| Orchestrator.Orchestrator.ValidateReconcile | Server/Accounts/Orchestrator.go:618-704 | a request is valid exactly under the specification's conditions |
| Orchestrator.SameAssignments | Server/Accounts/Orchestrator.go:1382-1399 | size and one-sided comparison decide equality of the two maps |
| Orchestrator.FindLocked | Server/Accounts/Orchestrator.go:474-484 | found exactly if a desired, not preserved runtime is locked by a handover |
| Orchestrator.CheckRetained | Server/Accounts/Orchestrator.go:491-503 | exactly whether all retained runtimes keep their tenant, and whether none falls behind its epoch |
| Orchestrator.Orchestrator.Reconcile | Server/Accounts/Orchestrator.go:439-616 | one reconcile with its rollback paths equals the specification |
| Orchestrator.Orchestrator.SetGates | Server/Accounts/Orchestrator.go:542-552 | the gate loop changes exactly the live desired applications that are not preserved |
| Orchestrator.GatedTwice | Server/Accounts/Orchestrator.go:585-594 | the second gate pass after publication finds every gate already as it would set it |
| Orchestrator.Orchestrator.HandleConfigurationSync | Server/Accounts/Orchestrator.go:898-967 | an acknowledgement is recorded and the gate opened only for the current epoch, revision and digest |
| Orchestrator.Orchestrator.IsReady | Server/Accounts/Orchestrator.go:1401-1416 | configured exactly if unmanaged or acknowledged for this tuple and instance |
| Orchestrator.Orchestrator.RestartRebound | Server/Accounts/Supervisor.go:756-814 | a rebound application is a new instance with the gate of its first start |
| PersistenceProofs.AcknowledgementHolds | Server/App/Application.go:718-824 | for any order of commits, publications, deliveries, timer flushes, failed and unsynced writes and requests, a nil answer above the baseline makes every change that its commit named, up to that revision, durable for good |
| PersistenceProofs.AcknowledgedIsDurable | Server/App/Application.go:784-803 | the step behind it: nil means durable up to the requested revision |
| PersistenceProofs.AcknowledgedExactly | Server/State/ComponentPersistence.go:591-604 | such an answer covers all changes, named or not, if and only if its flush reaches the unnamed ones: saved already, component without files, replaced, all rewritten for want of keys, or a key of another commit |
| PersistenceProofs.LostIffUnnamed | Server/State/PersistenceBatch.go:51-160 | from any settled worker, for a component with files and more than one entry: some run acknowledges a changed entry without having saved it if and only if the entry's commit did not name it |
| PersistenceProofs.DurableIsKept | Server/State/ComponentPersistence.go:87-111 | no later step loses a durable change |
| PersistenceProofs.RefusedIsRetryable | Server/State/PersistenceBatch.go:179-193 | after a failed answer nothing synced has changed and everything still waits, and the next working request succeeds |
| PersistenceProofs.PublishCovers | Server/State/Store.go:950-1022 | folding a full channel into one event loses nothing that a commit named |
| PersistenceProofs.FlushSavesNamed | Server/App/Application.go:748-767 | a successful flush makes everything named and observed so far durable |
| PersistenceProofs.TimerComes | Server/App/Application.go:737-824 | after any run, failed flushes included, whatever waits has the timer running, and its next working flush saves it all and stops the timer |
| PersistenceProofs.DefensiveRequest | Server/App/Application.go:773-803 | at or below the baseline: all changes up to the answered revision are durable if and only if each is saved already or rewritten, which holds when no earlier manifest is kept |
| PersistenceExample.DefensiveRequestCanBePartial | Server/App/Application.go:773-783 | two movements change before the subscription; the request for the second is answered and the kept manifest has the first one's old file |
| PersistenceExample.DefensiveRequestCanBeEmpty | Server/App/Application.go:799-803 | a later flush makes such a request look covered, and it is answered without a write |
| PersistenceExample.BroadMoveCanBeLost | Server/State/Store.go:1190-1197 | a commit without change tracking shares its batch with a keyed one, and only the keyed movement is written |
| PersistenceExample.BroadReportIsLost | Server/State/ComponentPersistence.go:1047-1060 | a report changed by such a commit is not written even when the commit is alone |
| PersistenceAnswers.FilesAreEntries | Server/State/ComponentPersistence.go:409-653 | over any run, failed and unsynced saves included: a saved entry has a file if and only if the generation it was saved from has that entry |
| PersistenceAnswers.SavedExactly | Server/State/ComponentPersistence.go:316-653 | a save writes exactly the dirty and new components, of these the named entries, or all of them when none has a file or none is named where that means all; everything else stays as in the manifest it continues |
| PersistenceAnswers.FlushedExactly | Server/App/Application.go:748-767 | a flush fails if and only if something waits and its write is not synced, except that a batch older than the last save needs no sync; what each ending keeps, empties and counts as saved |
| PersistenceAnswers.QueueIsBounded | Server/State/Store.go:950-998 | at most 128 events wait, however many commits are published before one is delivered |
| PersistenceAnswers.FoldedExactly | Server/State/Store.go:997-1085 | folded events name exactly what some of them named |
| PersistenceAnswers.GatheredExactly | Server/State/PersistenceBatch.go:69-158 | a batch names exactly what it named before or the event names |
| PersistenceAnswers.ObservedExactly | Server/State/PersistenceBatch.go:51-66 | an event without components passes by, every other one joins the batch and starts the timer |
| Persistence.PersistenceWorker.PublishEvent | Server/State/Store.go:950-998 | one stored commit on the bounded channel |
| Persistence.PersistenceWorker.CoalesceEvents | Server/State/Store.go:997-1085 | the loop merges components, replacement flags and keys of all queued events |
| Persistence.PersistenceWorker.GatherMarks | Server/State/PersistenceBatch.go:69-158 | per component: a replacement drops gathered keys and takes no more, else keys are joined |
| Persistence.PersistenceWorker.AccumulateEvent | Server/State/PersistenceBatch.go:51-160 | the batch gains the event's components and keys and the newest revision, and arms the timer |
| Persistence.PersistenceWorker.SaveComponent | Server/State/ComponentPersistence.go:591-653 | of one component exactly its own file and all or the named entries are rewritten, and entries that are gone lose their file |
| Persistence.PersistenceWorker.SaveComponents | Server/State/ComponentPersistence.go:409-535 | the loop does this for exactly the dirty components |
| Persistence.PersistenceWorker.SaveSnapshot | Server/State/ComponentPersistence.go:316-589 | the new manifest is the writer's or the disk's with the dirty components rewritten; an older generation is skipped, and a manifest that outranks the process is set aside |
| Persistence.PersistenceWorker.FlushPending | Server/App/Application.go:748-767 | the batch empties and coverage rises only on success |
| Persistence.PersistenceWorker.ForceRevision | Server/App/Application.go:768-804 | drain through the requested revision, or add the earlier event with every component dirty and its own keys, then flush unless covered |
| LedgerProofs.AnswerOverRuns | Server/App/AttackLaunchLedger.go:221-244 | from any opening, through any receipts with a clock that never goes back, an available answer is the number of distinct accepted rows in the window |
| LedgerProofs.AnswerIsNaive | Server/App/AttackLaunchLedger.go:221-244 | the same in any valid ledger |
| LedgerProofs.CompletedCountedOnce | Server/App/AttackLaunchLedger.go:98-128 | an operation whose receipts carry its completion time adds each launch in the window to an available answer exactly once, whatever other receipts do, even when repeated after its key was pruned or the ledger reopened |
| LedgerProofs.LaunchesAreCounted | Server/App/AttackLaunchLedger.go:98-128 | such an operation adds to its channel's answer the most launches that one of its receipts reports, or that were stored before |
| LedgerProofs.ShareOfOperation | Server/App/AttackLaunchLedger.go:108-128 | the same launch by launch, and nothing in any other channel |
| LedgerProofs.ReceiptAdds | Server/App/AttackLaunchLedger.go:108-160 | a receipt adds exactly its launches, numbered from zero, that are not remembered; without a name or channel, or out of reach, it adds none |
| LedgerProofs.AnsweredExactly | Server/App/AttackLaunchLedger.go:221-238 | an answer is given if and only if the window has begun, reaches back at most two days, and starts after the boundary |
| LedgerProofs.ForgetsHourly | Server/App/AttackLaunchLedger.go:141-177 | once an hour, and not more often, everything out of reach is forgotten |
| LedgerProofs.EventKeepsValid | Server/App/AttackLaunchLedger.go:141-216 | slices stay sorted and match the log, and remembered keys are those of the rows in reach |
| LedgerProofs.InsertCounts | Server/App/AttackLaunchLedger.go:189-202 | inserting keeps a slice sorted and adds one to exactly the windows that contain the time |
| LedgerProofs.PruneCounts | Server/App/AttackLaunchLedger.go:204-216 | cutting a slice keeps it sorted and changes no later window |
| LedgerProofs.NothingDropped | Server/App/AttackLaunchLedger.go:141-177 | rows handed to the store plus rows waiting are, in order, the accepted rows, through failed appends |
| LedgerProofs.CoverageOnlyRises | Server/App/AttackLaunchLedger.go:179-186 | the coverage boundary never moves back, and a gap moves it to the present |
| LedgerProofs.GapIsNotAnswered | Server/App/AttackLaunchLedger.go:179-186 | through any later receipts and processes, no window that starts at or before a gap is answered if and only if its mark reached the store or the store's boundary was as late |
| LedgerProofs.UnmarkedGapIsAnswered | Server/App/AttackLaunchLedger.go:179-186 | the run that fails: the mark is lost, and the next process answers the window that starts at the gap |
| LedgerProofs.ReopenedAnswersAlike | Server/App/AttackLaunchLedger.go:55-96 | reopened from the store, the ledger gives the answer it gave before |
| AttackLaunchLedger.SearchAfter | Server/App/AttackLaunchLedger.go:189-202 | binary search for the first later time |
| AttackLaunchLedger.SearchNotBefore | Server/App/AttackLaunchLedger.go:204-216 | binary search for the first time not earlier |
| AttackLaunchLedger.CutSlices | Server/App/AttackLaunchLedger.go:204-216 | every slice is cut at its own bound and stays sorted |
| AttackLaunchLedger.AttackLaunchLedger.constructor | Server/App/AttackLaunchLedger.go:55-96 | stored rows are inserted in order with repeats dropped |
| AttackLaunchLedger.AttackLaunchLedger.InsertLaunch | Server/App/AttackLaunchLedger.go:189-202 | a known key changes nothing; a new one goes to its sorted place |
| AttackLaunchLedger.AttackLaunchLedger.PruneLaunches | Server/App/AttackLaunchLedger.go:204-216 | slices and keys before the horizon go |
| AttackLaunchLedger.AttackLaunchLedger.RecordReceipt | Server/App/AttackLaunchLedger.go:141-177 | gap, rows, append and hourly prune of one receipt |
| AttackLaunchLedger.AttackLaunchLedger.CountLaunchesSince | Server/App/AttackLaunchLedger.go:221-244 | refused outside coverage or retention, else the length of the slice's tail |
| CompressionProofs.SameAsIdentity | Server/API/Compression.go:87-262 | for any calls, the finished response has the identity writer's statuses in order, the final one before any body part, and its decoded body is the concatenation of all writes |
| CompressionProofs.CodedExactlyWhenAsked | Server/API/Compression.go:107-225 | for any calls: the body is coded if and only if the header in force at the final status and that status allow it, and it reaches 1024 bytes or is flushed with something in it before it is flushed empty |
| CompressionProofs.CodedExactlyWhenLong | Server/API/Compression.go:162-181 | an unflushed body is coded if and only if that header and status allow it and it reaches 1024 bytes |
| CompressionProofs.EncodingNamesTheCoding | Server/API/Compression.go:183-199 | Content-Encoding is gzip if and only if the body goes through gzip (section 8.4.1.3 of RFC 9110) |
| CompressionProofs.HeaderIsHandlers | Server/API/Compression.go:107-199 | the header that is sent is the handler's with one Vary entry for a compressible type, and for a coded body with its encoding named, its length dropped and a strong tag made weak |
| CompressionProofs.FlushDelivers | Server/API/Compression.go:201-225 | after a flush everything written so far is sent, and the coder, if used, was flushed before the connection |
| CompressionProofs.RunStands | Server/API/Compression.go:89-225 | the invariant of every call: what was sent and what is buffered are together the writes so far |
| CompressingWriter.CompressingWriter.WriteStatus | Server/API/Compression.go:89-104 | informational statuses pass through, the first final one decides, later ones are ignored |
| CompressingWriter.CompressingWriter.DecideMode | Server/API/Compression.go:107-129 | when a response may be coded, and the Vary header it then carries |
| CompressingWriter.CompressingWriter.WriteBody | Server/API/Compression.go:162-181 | buffer below the threshold, switch to gzip at it |
| CompressingWriter.CompressingWriter.BeginGzip | Server/API/Compression.go:183-199 | header first, then the buffered bytes through gzip |
| CompressingWriter.CompressingWriter.FlushBody | Server/API/Compression.go:204-225 | a flush commits a buffered response to gzip |
| CompressingWriter.CompressingWriter.FinishBody | Server/API/Compression.go:235-262 | a short buffer goes out unencoded, a gzip stream is closed |
| PurchaseProofs.OnePurchasePerWindow | Server/App/AutoBoosterIntents.go:253-328 | over any run two operations never both pass dispatch for one effect window unless a step between them clears the first: its own disarm or reject while unresolved, the game's error answer, or an open ending with a later snapshot that shows the window unboosted |
| PurchaseProofs.StampedWasCovered | Server/App/AutoBoosterIntents.go:142-189 | over any run: a stamped marker was stamped by a dispatch of its own operation, at that time, when the balance above the reserve covered the cost of an open, unboosted window |
| PurchaseProofs.StepKeepsTaken | Server/Ingest/EventScoreReducers.go:526-632 | no snapshot, acknowledgement, mutation or reconciliation other than such a clearing step lets another operation take a window that is taken |
| PurchaseProofs.ClearsExactly | Server/App/AutoBoosterIntents.go:253-387 | a held marker goes or is rejected exactly by its own disarm or reject while unresolved, by the game's error answer, or by an open ending with a later snapshot that shows the window unboosted |
| PurchaseProofs.EndingDecides | Server/App/AutoBoosterIntents.go:330-387 | an accepted exchange makes a waiting marker accepted, an open ending rejects it on later evidence only, and everything else leaves it |
| PurchaseProofs.AnswerDecides | Server/Ingest/EventScoreReducers.go:600-632 | the game's answer settles the record it belongs to by its code, and no other |
| PurchaseProofs.BoostConfirms | Server/Ingest/EventScoreReducers.go:489-568 | a boosted status confirms the record of its window, or records one of its own |
| PurchaseProofs.ArmedExactly | Server/App/AutoBoosterIntents.go:253-292 | arming passes if and only if the purchase is approved, current, open, affordable and the window is free |
| PurchaseProofs.DispatchedExactly | Server/App/AutoBoosterIntents.go:292-304 | dispatch passes if and only if it is the marker's own while unresolved and the purchase is still covered; the first pass stamps it |
| PurchaseProofs.ArmedMayDispatch | Server/App/AutoBoosterIntents.go:253-304 | what was just armed passes dispatch |
| PurchaseMarker.PurchaseMarker.ContextHolds | Server/App/AutoBoosterIntents.go:124-197 | the early returns accept exactly the specification's context |
| PurchaseMarker.PurchaseMarker.MutatePurchase | Server/App/AutoBoosterIntents.go:253-328 | arm, dispatch, disarm and reject as one transaction on the record |
| PurchaseMarker.PurchaseMarker.ReconcilePurchase | Server/App/AutoBoosterIntents.go:330-387 | the marker takes the ending of its own operation's receipt, and an undispatched one is dropped |
| FormationProofs.FormationConserves | Server/App/AttackIntents.go:716-786 | the emitted waves and courtyard slots take of each item exactly what the request asked for |
| FormationProofs.RowsAreFixed | Server/App/AttackIntents.go:814-914 | every troop and tool row of every wave and of the courtyard has its fixed capacity, and a place holds the item and quantity of its own slot, or the empty marker if and only if no item is requested for it |
| FormationProofs.BuiltExactly | Server/App/AttackIntents.go:716-914 | a request is built if and only if it is wanted at least once, has 1 to 30 waves of sound rows, the troop counter of its waves ends above zero, and the counters show enough stock of every item asked for |
| FormationProofs.WrapShows | Server/App/AttackIntents.go:877-878 | those counters show the one 64-bit number that differs from the true count by whole turns |
| FormationProofs.BuiltFitsStock | Server/App/AttackIntents.go:775-784 | for a built formation, all copies fit the stock if and only if no item's count passes 2^63 - 1 |
| FormationProofs.OverflowPasses | Server/App/AttackIntents.go:775-784 | the request that passes the check with more than the stock |
| FormationBuilder.FormationBuilder.PlaceSlot | Server/App/AttackIntents.go:848-880 | one slot is checked, counted with 64-bit wrap-around, and put at its place |
| FormationBuilder.FormationBuilder.BuildPairs | Server/App/AttackIntents.go:832-882 | a row is built exactly if all slots are valid; the shared map grows by exactly what the row takes |
| FormationBuilder.FormationBuilder.BuildLane | Server/App/AttackIntents.go:814-830 | troops and tools of one lane |
| FormationBuilder.FormationBuilder.BuildWaves | Server/App/AttackIntents.go:737-757 | all waves in order, their troop total and their share of the map |
| FormationBuilder.FormationBuilder.BuildSupportTools | Server/App/AttackIntents.go:884-914 | courtyard tools in their own places, one of each counted |
| FormationBuilder.FormationBuilder.CheckStock | Server/App/AttackIntents.go:775-784 | the final loop accepts exactly if every requested item is covered for all copies in 64-bit arithmetic |
| FormationBuilder.FormationBuilder.BuildFormation | Server/App/AttackIntents.go:716-786 | built exactly if slots are valid, a troop is present and the stock covers |
| SessionText.SessionRoundTrip | Server/Accounts/TenantAuth.go:426-436 | a minted session string reads back as exactly the runtime, generation and expiry it was minted for |
| SessionText.SplitJoin | Server/Accounts/TenantAuth.go:391-395 | splitting at dots gives back the dotless parts that were joined |
| SessionText.JoinSplit | Server/Accounts/TenantAuth.go:411-414 | joining the parts of any string gives the string back |
| SessionText.ReadIsSigned | Server/Accounts/TenantAuth.go:406-414 | whatever reads as a claim carries a valid signature over its own first four parts |
| SessionText.ReadExactly | Server/Accounts/TenantAuth.go:391-414 | a string reads as a claim if and only if it spells it: version, runtime, generation, expiry, and the signature of these four |
| Decimal.ParsedIntExactly | Server/Accounts/TenantAuth.go:402-405 | a text stands for a 64-bit number if and only if it is its digits or they follow one sign |
| SessionText.SessionIsSignedPayload | Server/Accounts/TenantAuth.go:434-436 | the string is its payload, a dot, and the coded signature of that payload |
| TenantProofs.SessionLives | Server/Accounts/TenantAuth.go:391-436 | short of a whole turn of the counter: it opens its runtime if and only if it is unexpired and the runtime was not revoked since |
| TenantProofs.WrapRevives | Server/Accounts/TenantAuth.go:141-147 | revoked and registered any number of times, a session opens again exactly after whole turns |
| TenantProofs.OnlySignedOpens | Server/Accounts/TenantAuth.go:391-424 | only a signed string opens a session, and only for a registered runtime |
| TenantProofs.SessionOpens | Server/Accounts/TenantAuth.go:126-149 | over any run: a minted session opens its runtime if and only if it is unexpired, the runtime is registered, and the registrations since are a multiple of 2^64 - 1 |
| TenantProofs.EventKeepsValid | Server/Accounts/TenantAuth.go:126-268 | grant hashes stay pairwise distinct and apart from login tokens, login tokens belong to registered runtimes, and there are at most 256 |
| TenantProofs.BearerIsUnambiguous | Server/Accounts/TenantAuth.go:341-359 | in every reachable registry a bearer token opens at most one runtime, and a login token none |
| TenantProofs.TokenIsSpent | Server/Accounts/TenantAuth.go:364-389 | a login token opens nothing after its login until the same token is installed again |
| TenantAnswers.GrantOpens | Server/Accounts/TenantAuth.go:154-189 | a grant that was set opens its runtime, alone among bearer tokens, until it expires, over every run that neither revokes nor replaces it |
| TenantAnswers.RevokedIsClosed | Server/Accounts/TenantAuth.go:256-268 | a revoked runtime is opened by no bearer token until it is given a grant again |
| TenantAnswers.TokenOpens | Server/Accounts/TenantAuth.go:364-389 | an installed login token logs in its runtime, and no other, until it expires, over every run that neither spends, reinstalls nor revokes it |
| TenantAnswers.RegisteredExactly | Server/Accounts/TenantAuth.go:126-149 | a registration takes effect if and only if the runtime is canonical and has none, starts without a grant, and touches no other runtime and no token |
| TenantAnswers.GrantExactly | Server/Accounts/TenantAuth.go:154-189 | each refusal of a grant if and only if it is the first failing condition, and what a set grant changes |
| TenantAnswers.TokenExactly | Server/Accounts/TenantAuth.go:195-232 | the same for login tokens |
| TenantAnswers.LoginExactly | Server/Accounts/TenantAuth.go:364-389 | a token logs in if and only if it is the runtime's own unexpired grant or login token, and the latter is then gone |
| TenantAnswers.RevokedExactly | Server/Accounts/TenantAuth.go:256-268 | revocation takes the credential and the runtime's tokens and nothing else |
| TenantAuth.TenantAuthenticator.RegisterRuntime | Server/Accounts/TenantAuth.go:126-149 | a new generation for a canonical, unregistered runtime; a repeat changes nothing |
| TenantAuth.TenantAuthenticator.SetDashboardGrant | Server/Accounts/TenantAuth.go:154-189 | each refusal in its order, and the runtime's one grant |
| TenantAuth.TenantAuthenticator.SetDashboardBootstrap | Server/Accounts/TenantAuth.go:195-232 | each refusal in its order, the sweep of expired tokens, and the new token |
| TenantAuth.TenantAuthenticator.Sweep | Server/Accounts/TenantAuth.go:218-226 | in any order of the map, only expired tokens go; all of them unless the token turns up active |
| TenantAuth.TenantAuthenticator.RevokeRuntime | Server/Accounts/TenantAuth.go:256-268 | the runtime's credential and all its login tokens go, and its generation stays |
| TenantAuth.TenantAuthenticator.AuthenticateToken | Server/Accounts/TenantAuth.go:341-359 | opens exactly if some runtime holds the token as a live grant, and names that runtime |
| TenantAuth.TenantAuthenticator.AuthenticateLoginToken | Server/Accounts/TenantAuth.go:364-389 | opens exactly by the live grant or an own unexpired login token, which is then gone |
| TenantAuth.TenantAuthenticator.NewSession | Server/Accounts/TenantAuth.go:426-436 | the printed string is the session of the runtime's present generation |
| TenantAuth.TenantAuthenticator.AuthenticateSession | Server/Accounts/TenantAuth.go:391-424 | the early returns accept exactly well-formed, unexpired, signed strings of the runtime's present generation |

## Left out

- Desktop composition: accounts with an explicit data directory of their own, and static tenant manifests.
- Document formats: JSON and canonical-bytes checks, journal size limits, symlink and permission checks, temporary file names. A document is written whole; the write may fail before or after its rename.
- Archives: capture, hashing, transfer and installation of profile contents are one receipt and yes/no answers; HTTP and event streams are not part of this model.
- Digests and signatures: a digest is injective, a signature is uninterpreted, and its text coding decodes what it encoded and has no dot.
- Goroutines, timers and locks: critical sections are atomic steps in any order.
- Rebinding: moving and merging a player's files is not modelled; a rebind is its bind step in the account tables and its restart step for the configuration gate. The player-binding file may come back with any valid bindings on a restart.
- A directory's profile id is taken never to change.
- Blocking.BlockedForever: a directory closed by a fence alone is followed only while its runtime is not bound to another directory, because a player-binding file that comes back changed can move the runtime there and its next fence then replaces the old one.
- Supervisor.Supervisor.BeginAddAccount: explicit data directories, which only the desktop composition sets, are left out.
- Orchestrator.Orchestrator.ValidateReconcile: the checks on dashboard and metrics grants are one yes/no answer.
- Orchestrator.Orchestrator.Reconcile: the disconnect policy is compared without letter case or spaces being normalised; an owner change is reported before a stale epoch where one shared loop reports whichever it meets first; metrics grants are one yes/no answer.
- Persistence.PersistenceWorker.SaveSnapshot: file contents are the generation they were taken from; the quarantined copy of a manifest that is set aside, the skipped rewrite of an unchanged automations file, and inventories whose six part files are incomplete are left out. Map coordinates, cooldown keys and Storm targets are named by the file they are saved in.
- Persistence.PersistenceWorker.ForceRevision: a request that ends because the worker is shut down gets no answer here.
- CompressingWriter.CompressingWriter.BeginGzip: the coder is abstracted to parts that decode to what was given; writes that fail underneath and hijacked connections are left out.
- FormationBuilder.FormationBuilder.PlaceSlot: the resolution of troop families through the game catalog is a yes/no answer.
- PurchaseMarker.PurchaseMarker.MutatePurchase: the ruby evidence fields and texts of a purchase record are left out.
- Tenant requests: the order in which headers, subprotocols and cookies are tried, the login page and dashboard origins.
- Alliance targets, API projections, wording, metrics, checkpoints and the remaining intent planners.
