# Crash-safe ownership in proxyscene, verified

proxyscene (`internal/manager`) changes files it does not own alone: system proxy files an administrator may edit at
any moment, user configurations of npm, Git and OpenClaw, systemd drop-ins, and its own Store of proxy nodes. It
records what it took over, replaces values only where it still finds what it expects, and finishes or undoes an
interrupted change later. This project models that machinery and proves what it keeps, in Dafny. Code that updates
state in the program is a class or a method here, proved against a specification; the results a reader cares about are
lemmas about those specifications and methods that run the whole protocol.

How the parts are modelled:

- **Directories** (`Artifacts`). A file name and its hidden quarantine name. Every operation of the program is one
  atomic move that may fail or be the last thing the process does, and before each one the administrator may edit the
  final name any number of times. Edits and moves are kept as a history, so the laws speak about whole executions.
- **Compare-and-set** (`TwoNameCas`, `DropInCas`). The retry loops over claim, install, put back and retire, for the
  global proxy files and the Store, and the second implementation for systemd drop-ins.
- **Runtime transactions** (`StoreFiles`, `RoutePlan`, `RuntimeTransition`). A receipt on disk, the steps, the Store
  commit with backup first and main last, compensation in reverse, recovery. Digests are taken to be injective and
  whole-file writes to be atomic. A step has one abstract value: original, applied, or anything in between. Fields of
  the receipt that hold the plans of single resources are not part of it, except for the global proxy below.
- **Global proxy ownership** (`JournalCopies`, `GlobalOwnership`, `GlobalReceipt`, `GlobalJournal`,
  `GlobalCompensation`). The journal in two copies, the apply and restore calls on top of the compare-and-set, and the
  undoing of such a call inside a runtime transaction.
- **JSON5 editing** (`Json5Text`, `Json5Tree`, `Json5RoundTrip`, `Json5Parser`, `Json5Lines`, `Json5Edit`,
  `Json5Spans`, `Json5Sites`, `Json5Lexemes`, `Json5Insertion`, `Json5Values`, `Json5Editor`, `Json5Anywhere`,
  `OpenClawProxy`, `OpenClawEditor`). A concrete syntax tree in which every character has a place, its printer, the
  offset parser proved to find exactly that tree, and the edits on offsets proved to be edits of the tree, for an
  object anywhere in a document.
- **Subscriptions** (`SourceLists`, `Subscriptions`, `Snapshots`, `Reconciliation`, `ReconciliationLaws`,
  `SelectionLaws`, `MergeLaws`, `Idempotence`, `StoreUpdate`, `StoreCheck`). The merge of downloaded subscriptions
  into the Store, as a specification with its laws and as the passes over mutable tables that compute it.
- **Four smaller parts**: the resumable Git restoration (`GitRestore`), the npm configuration (`NpmScalar` decodes and
  encodes scalars, `NpmEditor` edits lines of any meaning, `NpmConfig` gives lines the meaning npm gives them), the
  resolution of systemd aliases (`UnitAlias`), and two arithmetic normal forms (`PortList`, `SessionSpace`).
  `Wrappers`, `Strings` and `Scenes` hold what several parts share.

Results that differ from what one might expect of the code:

- A write by compare-and-set is not one atomic step when the administrator deletes the new file before the quarantine
  is retired: the old value is in view again and then vanishes (`TwoNameCas.DeletionRace`).
  `TwoNameCas.RetireAtomicIff` says exactly which retiring steps are atomic. Everything else the calls promise holds
  under any interleaving.
- Without faults no call leaves a file it may not touch hidden in quarantine, except when the administrator interferes
  with every attempt up to the limit (`TwoNameCas.HiddenAtLimit`).
- The drop-in write refuses a file that already holds the new data when no quarantine explains it
  (`DropInCas.WriteConverges`), so a second call after a completed one reports a conflict and changes nothing.
- A restore gives back what it saw in a file, unless that is a template of the journal; so a deletion or a return to
  an earlier state that the restore saw stays (`GlobalOwnership.Returned`, `GlobalJournal.RestoreAtRest`). But it
  computes the values it may overwrite before it adopts an administrator's edit as the new original. An administrator
  who goes back to the previous original in between is overwritten with the adopted state
  (`GlobalJournal.RevertedEditIsOverwritten`).
- Any call can pass over an administrator's edit that comes while it runs: exactly a value it may replace, or a
  deletion when there is something to replace (`TwoNameCas.PassesOverIff`). After an apply that passes over a deletion
  nothing shows the deletion any more (`GlobalOwnership.DeletionIsForgotten`).
- An edit made while no call is running, in view and not a template of either copy of the journal, survives everything
  that follows undisturbed (`GlobalJournal.EditsAtRestComeBack`). Either copy, because an older main copy can outlive
  the backup and be in force again (`GlobalJournal.OldCopyTakesItBack`).
- While a scene moves to another address, its attached route leads nowhere between the core's step and the scene's own
  (`RoutePlan.MovedIsUnserved`). Every other scene is served throughout, and `RoutePlan.RunServesIff` says so for each
  mutation of any run that starts from an installation with nothing enabled.
- An adopted edit can leave the earlier original in quarantine with nothing that explains it
  (`GlobalJournal.AdoptionOrphansQuarantine`).
- A restore that has to remove a file standing beside a quarantine reports a change and needs a second call. An
  undisturbed restore succeeds if and only if `Returnable` holds before it (`GlobalJournal.GlobalProxy.Restore`).
- When the finished Store of a runtime mutation cannot be encoded, compensation cannot record itself either, because
  the receipt no longer passes its own check; the receipt stays for recovery (`sound` in
  `RuntimeTransition.Coordinator.Commit`).
- Removing the two journal copies goes on when main cannot be unlinked, so an older main copy can outlive the backup.
  The restore still holds what it promises with any copy that survives (`GlobalJournal.GlobalProxy.DropJournal`).
- The path marks of the alias resolver report a cycle for some aliases that resolve when followed without marks
  (`UnitAlias.EarlyCycle`). `UnitAlias.MarksOnlyCut` gives the answer as an equation: the walk's, or a cycle exactly
  when the walk enters a name or path that is marked at that moment.
- The laws of a subscription merge need at least one download, which its callers provide: with none, a managed node
  without a source would be dropped and nothing would stand in for it.

## Model

| member | source | states |
|---|---|---|
| Artifacts.Directory.Claim | internal/manager/global_journal.go:513-524 | renaming the final name to the quarantine name replaces nothing and takes whatever the administrator left there last; any outcome but success can also mean that it was done |
| Artifacts.Directory.Install | internal/manager/global_journal.go:352-395 | a new file is linked to the final name only where there is none |
| Artifacts.Directory.PutBack | internal/manager/global_journal.go:407-419 | the quarantined file goes back only where nothing has taken its place |
| Artifacts.Directory.Retire | internal/manager/global_journal.go:397-405 | unlinking the quarantine leaves the final name alone |
| Artifacts.StepKeeps | internal/manager/global_journal.go:437-592 | one move that is atomic, or a late retiring after a deletion, keeps the register law, keeps every foreign value and invents no value, whatever the administrator does before it |
| Artifacts.CallsCompose | internal/manager/global_journal.go:594-624 | two stretches that each behave as one register behave so together |
| TwoNameCas.CalmCas | internal/manager/global_journal.go:437-592 | an undisturbed call succeeds exactly from the slots an interrupted call can leave, ends with the desired value and no quarantine, and otherwise leaves what a reader saw under the final name, a quarantine it may not touch put back included |
| TwoNameCas.ClaimedTurn | internal/manager/global_journal.go:457-492 | a turn that finds a quarantine keeps the laws of the whole call, takes one of the courses in `LastTurn` and `OtherTurn` and, undisturbed, gets closer to settling |
| TwoNameCas.FreshTurn | internal/manager/global_journal.go:494-524 | a turn that finds no quarantine keeps the laws of the whole call, takes one of those courses and, undisturbed, gets closer to settling |
| TwoNameCas.Mismatch | internal/manager/global_journal.go:421-431 | a quarantine the call may not touch is put back, or kept beside the file that has taken its place; without faults it is never left hidden |
| TwoNameCas.WriteCas | internal/manager/global_journal.go:437-527 | under any edits and interruptions: a value that was not expected is never lost, every move is atomic or a late retiring, and unless the last edit is a deletion a reader is left with what the edits and the atomic moves give; success means the desired value or the administrator's later edit is in place, reached by the courses in `Completes`; without faults a file it may not touch is left hidden only when every attempt was used up; without an administrator every move is atomic, a resumable slot stays resumable and the retry limit is never reached; an undisturbed call that fails leaves under the final name what a reader saw before |
| TwoNameCas.RemoveCas | internal/manager/global_journal.go:529-592 | the same for removal, and the report whether something was removed is right |
| TwoNameCas.WriteUntilDone | internal/manager/global_journal.go:437-527 | any number of interrupted writes and one undisturbed write end with the desired value and no quarantine, by atomic moves only |
| TwoNameCas.RemoveUntilDone | internal/manager/global_journal.go:529-592 | any number of interrupted removals and one undisturbed removal end with both names gone |
| TwoNameCas.WriteRepeatedly | internal/manager/global_journal.go:437-527 | any number of writes, each cut short anywhere while the administrator edits, behave together as one register, by good moves only |
| TwoNameCas.RetireAtomicIff | internal/manager/global_journal.go:491-491 | retiring an expected quarantine is atomic if and only if the final name is still there or the call removes |
| TwoNameCas.DeletionRace | internal/manager/global_journal.go:481-491 | a course of one write, turn by turn, in which it is not atomic: claim, install, deletion by the administrator, late retiring |
| TwoNameCas.HiddenAtLimit | internal/manager/global_journal.go:437-527 | for any values a run without faults in which every attempt is used up and the last claim leaves the administrator's file hidden |
| TwoNameCas.OverwritingRun | internal/manager/global_journal.go:457-524 | for any expected value: a course of one successful write that passes over the administrator's edit to that value, and over a deletion after it |
| TwoNameCas.PassesOverIff | internal/manager/global_journal.go:437-592 | some run of a call succeeds with a last edit and leaves another value if and only if the edit is not the desired value and is one the call may replace, or a deletion while there is another value to replace |
| DropInCas.CalmWrite | internal/manager/telegram_journal.go:650-739 | when an undisturbed drop-in write succeeds, what it leaves, and that a refusal leaves under the final name what a reader saw |
| DropInCas.WriteConverges | internal/manager/telegram_journal.go:650-739 | from every slot an interrupted write can leave, one undisturbed write puts the data in place without quarantine; it reports success unless they were there already |
| DropInCas.ReplayQuarantine | internal/manager/telegram_journal.go:650-684 | a quarantine left behind is finished, resumed or refused without losing a foreign value |
| DropInCas.WriteDropIn | internal/manager/telegram_journal.go:686-739 | the register and safekeeping laws for the drop-in write, its undisturbed outcome, and that without faults a file it may not touch is never left hidden |
| DropInCas.CalmRemove | internal/manager/telegram_journal.go:433-519 | when an undisturbed drop-in removal succeeds, what it leaves, and that a refusal leaves under the final name what a reader saw |
| DropInCas.RemoveDropIn | internal/manager/telegram_journal.go:433-519 | the register and safekeeping laws for the drop-in removal; undisturbed it succeeds if and only if some expected content is not empty and each name holds an expected value or nothing; without faults a file it may not touch is never left hidden |
| DropInCas.RemoveDropInUntilDone | internal/manager/telegram_journal.go:433-519 | any number of interrupted removals and one undisturbed removal end with both names gone |
| StoreFiles.ReadEvidence | internal/manager/runtime_transition.go:63-72 | what the receipt may conclude from reading a Store file |
| StoreFiles.Settle | internal/manager/runtime_transition_store.go:130-163 | a leftover quarantine is put back or retired exactly when the receipt names it, and the file in view stays the same |
| StoreFiles.StoreCas | internal/manager/runtime_transition_store.go:56-66 | one Store file goes from its recorded evidence to the new Store, or stays; cut short it is somewhere on that way and shows no third content |
| RoutePlan.PlanScenes | internal/manager/runtime_transition.go:328-337 | exactly the affected scenes, each once: those switched or resting on something that differs in every mode, the named one, and with all also those enabled, taken over or with targets |
| RoutePlan.PlanSteps | internal/manager/runtime_transition.go:357-372 | disabled scenes, then the core, then enabled scenes |
| RoutePlan.RenderedIs | internal/manager/runtime_core.go:379-396 | the core is to run exactly if a scene is enabled, and to listen for each enabled scene at its address and nowhere else |
| RoutePlan.CoreStepIff | internal/manager/runtime_core.go:401-403 | the core step is left out if and only if its file, what it runs and its other files all are the candidate's |
| RoutePlan.RoutesAreServed | internal/manager/runtime_transition.go:357-372 | in every state between forward steps and between reverse compensations the loaded core listens at the address an attached route uses, for every scene that keeps its address |
| RoutePlan.MovedIsUnserved | internal/manager/runtime_transition.go:253-264 | for every scene that moves there is such a state in which its attached route leads to an address the core has left |
| RoutePlan.RoutesAreServedIff | internal/manager/runtime_transition.go:328-372 | a scene is served in all these states if and only if its address does not change, in terms of the two configurations |
| RoutePlan.RunServesIff | internal/manager/runtime_core.go:401-403 | the same for every mutation of every run of finished and undone mutations from an installation with nothing enabled, where the core step is left out exactly when it would change nothing |
| RuntimeTransition.Coordinator.Plan | internal/manager/runtime_transition.go:277-326 | a plan exists, faults aside, exactly when the Store on disk is the one the mutation starts from and two generations are left; it binds both files and takes the next generation |
| RuntimeTransition.Coordinator.WriteRecord | internal/manager/runtime_transition.go:116-128 | only a valid receipt is ever on disk |
| RuntimeTransition.ReceiptSays | internal/manager/runtime_transition.go:148-226 | what makes a receipt valid: rising generations, the old body in the compensation, phase and steps |
| RuntimeTransition.Coordinator.RunStep | internal/manager/runtime_transition.go:456-472 | a step is marked before it runs; afterwards the transaction is pending with that step applied, or undone; without faults a failed step is undone at once with all before it, and one that may still be running leaves the receipt |
| RuntimeTransition.Coordinator.CommitCandidate | internal/manager/runtime_transition.go:473-520 | the finished candidate is committed, or the transaction stays pending or is undone |
| RuntimeTransition.Coordinator.PersistStore | internal/manager/runtime_transition_store.go:68-103 | backup first, main last; success means both hold the candidate |
| RuntimeTransition.Coordinator.SettleStores | internal/manager/runtime_transition_store.go:105-128 | putting both quarantines right keeps the world fitting its receipt |
| RuntimeTransition.Coordinator.Commit | internal/manager/runtime_transition.go:427-520 | a commit is rejected without any effect, or leaves the world pending or terminal; success means committed; without faults a failed step rolls everything back at once and only one that may still be running leaves the receipt; with steps that succeed and no faults a plannable mutation commits |
| RuntimeTransition.ObservedOnDisk | internal/manager/runtime_transition_store.go:203-246 | the Store a mutation may start from: main if it decodes, otherwise the backup if that does, the empty one without any file, and none otherwise |
| RuntimeTransition.CommitsExactly | internal/manager/runtime_transition.go:427-520 | a mutation nothing stands in the way of commits if and only if the files hold the Store it starts from, two generations are left and its steps are at most four different ones; then both files hold the finished Store under the next generation |
| RuntimeTransition.FirstCommit | internal/manager/runtime_transition_store.go:203-246 | a new installation without any Store file commits its first mutation as generation 1 |
| RuntimeTransition.Coordinator.Compensate | internal/manager/runtime_transition.go:522-557 | undoing keeps the transaction pending or rolls it back, and without faults always rolls it back |
| RuntimeTransition.Coordinator.RestoreSteps | internal/manager/runtime_transition.go:537-555 | started steps are undone in reverse, each recorded, and every state in between fits the receipt |
| RuntimeTransition.Coordinator.FinishCompensation | internal/manager/runtime_transition.go:585-644 | both files end untouched, or both hold the one reserved compensation |
| RuntimeTransition.Coordinator.Reserve | internal/manager/runtime_transition.go:600-613 | the compensation generation fits and is the one the start reserved |
| RuntimeTransition.Coordinator.StoresCompensable | internal/manager/runtime_transition.go:559-584 | compensation goes on only from the states the receipt allows |
| RuntimeTransition.Coordinator.Recover | internal/manager/runtime_transition.go:646-677 | recovery keeps the world pending or terminal, says whether there was a receipt, and without faults always ends the transaction |
| RuntimeTransition.AllOrNothing | internal/manager/runtime_transition.go:427-677 | a commit cut short anywhere, any number of interrupted recoveries and one undisturbed one: candidate in both files and every step applied, or every step undone and both files untouched or holding the one compensation |
| RuntimeTransition.History | internal/manager/runtime_transition.go:600-633 | over all mutations, failures and recoveries no generation gets two contents, and the files show the highest generation used; every candidate and compensation put under either name counts |
| RuntimeTransition.TerminalIsFresh | internal/manager/runtime_transition.go:89-108 | however a transaction ends, its generations are spent and the next one starts above them |
| RuntimeTransition.CompensationFits | internal/manager/runtime_transition.go:522-532 | from every point before the commit the receipt may turn to compensating |
| RuntimeTransition.SettledMainIsNotCandidate | internal/manager/runtime_transition_store.go:130-163 | putting a quarantine back never makes an uncommitted candidate appear committed |
| RuntimeTransition.PendingRoutesAreServed | internal/manager/runtime_transition.go:427-557 | at every instant of a pending transaction the loaded core listens at the address an attached route uses, for scenes that keep their address |
| JournalCopies.Copies.Load | internal/manager/global_journal.go:811-840 | reading gives the last version whose backup landed; equal generations never conflict; there is no journal exactly when both copies are gone |
| JournalCopies.NewerCounts | internal/manager/global_journal.go:811-840 | of two readable copies the newer one counts, whichever it is, and two different ones of the same generation are refused |
| JournalCopies.Copies.DamagedLoad | internal/manager/global_journal.go:811-840 | a copy that cannot be read or decoded: damage to main loses nothing once a backup has landed, damage to the backup shows main, reading is refused exactly when no copy can be read but one is there, and no damage makes the journal seem gone |
| JournalCopies.Copies.Save | internal/manager/global_journal.go:842-865 | backup first: cut short anywhere, a reader sees the old version or the new one, and the backup is never behind main |
| JournalCopies.Copies.Remove | internal/manager/global_journal.go:867-878 | success removes both copies; a failure of one unlink does not stop the other |
| JournalCopies.RecoveryGeneration | internal/manager/runtime_transition_resources.go:100-105 | the reserved generation is past every write of the step and one more still fits |
| GlobalOwnership.ApplyKeeps | internal/manager/global_journal.go:1045-1050 | an apply's compare-and-set keeps every state under the two names traceable, and the administrator's last novel edit in view or on record |
| GlobalOwnership.AdoptKeeps | internal/manager/global_journal.go:1085-1115 | taking an unknown current state as the new original keeps that invariant although the administrator may have edited since |
| GlobalOwnership.RestoreKeeps | internal/manager/global_journal.go:1123-1127 | so does giving a file back with the expected values of the older journal; when it lands, the file is at rest and holds what the restore saw, the original for the program's own, or a later edit |
| GlobalOwnership.ActiveKeeps | internal/manager/global_journal.go:1054-1063 | when a pending value has landed it may be recorded as the managed one |
| GlobalOwnership.RestedKeeps | internal/manager/global_journal.go:867-878 | a file at rest satisfies any copy of the journal that survives removal |
| GlobalOwnership.GivableIff | internal/manager/global_journal.go:1085-1127 | an undisturbed restore of a file has a legible file and a compare-and-set that succeeds if and only if both reads are legible and the file is not a removal beside a quarantine |
| GlobalOwnership.ManagedIsPair | internal/manager/global_journal.go:776-784 | the values a valid journal calls the program's are a pair of templates for the same settings |
| GlobalOwnership.SurveyRecords | internal/manager/global_journal.go:1085-1115 | a survey records every state it sees but a template of the journal as the original; the administrator's last own state, if that is novel or was settled at rest |
| GlobalOwnership.RestoreReturns | internal/manager/global_journal.go:1083-1127 | a landed restore leaves what it saw, the original for a template of the journal; or a later edit; it can pass over a later edit only if that is a deletion or a value the restore may replace |
| GlobalOwnership.RestoreMisses | internal/manager/global_journal.go:1123-1127 | for every such value but the recorded one, with or without a deletion after it, a course of a successful restore that passes over it |
| GlobalOwnership.RestorePassesOverIff | internal/manager/global_journal.go:1083-1127 | which last edit a successful restore can pass over, whatever it has seen |
| GlobalOwnership.ApplyPassesOverIff | internal/manager/global_journal.go:1045-1072 | which last edit a successful apply can pass over: one it may replace, or a deletion unless nothing but the new template may be replaced |
| GlobalOwnership.DeletionIsForgotten | internal/manager/global_journal.go:481-491 | for every such apply a run after which neither file nor journal shows the administrator's deletion |
| GlobalJournal.GlobalProxy.Begin | internal/manager/global_journal.go:880-906 | ownership begins with both files as read, durable before anything is written; undisturbed it succeeds if and only if both can be read |
| GlobalJournal.GlobalProxy.Renew | internal/manager/global_journal.go:984-1008 | new settings are prepared only over files that are still what the program left; otherwise nothing is written; undisturbed it succeeds if and only if they are and a generation is left |
| GlobalJournal.GlobalProxy.Prepare | internal/manager/global_journal.go:954-1008 | afterwards a prepared journal for these settings is in force; from a quiescent journal that takes at most one write; exactly when it succeeds undisturbed, and when it refuses without writing |
| GlobalJournal.GlobalProxy.Admissible | internal/manager/global_journal.go:1017-1039 | the check of one file before either is replaced changes nothing and passes if and only if the pending value or one that may be replaced is in place without quarantine, or a readable file beside a quarantine the journal explains |
| GlobalJournal.GlobalProxy.Install | internal/manager/global_journal.go:1045-1072 | both pending values land and then become the managed ones |
| GlobalJournal.GlobalProxy.Apply | internal/manager/global_journal.go:1010-1072 | success means an active journal whose managed values are the new templates and files that hold them or a later edit; a failed attempt is undone; at most three journal writes from a quiescent journal; undisturbed it succeeds if and only if `Appliable` holds before it; when `Refuses` holds, a prepared journal over files not in place included, it writes neither file and keeps the journal as it is; an undisturbed step stays undoable |
| GlobalJournal.GlobalProxy.Survey | internal/manager/global_journal.go:1085-1116 | both logical reads and the journal that follows from them |
| GlobalJournal.GlobalProxy.Decide | internal/manager/global_journal.go:1098-1121 | the decision is durable before either file is touched |
| GlobalJournal.GlobalProxy.RestoreFile | internal/manager/global_journal.go:340-346 | one file goes back to its original, or stays traceable |
| GlobalJournal.GlobalProxy.DropJournal | internal/manager/global_journal.go:867-878 | whichever copy survives a failed removal still describes the files |
| GlobalJournal.GlobalProxy.Restore | internal/manager/global_journal.go:1074-1140 | success means no journal and both files at rest, each holding what the restore saw there, the original for a template of the journal, or a later edit that it could not pass over; undisturbed it succeeds if and only if both files can be read and given back and a generation is left when the journal has to be written; an undisturbed step stays undoable |
| GlobalJournal.Ownership | internal/manager/global_journal.go:954-1140 | over any history of applies with changing settings, restores, crashes, pauses and edits: when a restore that finds the journal succeeds, each file holds its state from when ownership began or one the administrator put there since: the last one, when that is novel or was settled at rest; and always what the restore saw there, the original for the program's own, or a later edit it could not pass over |
| GlobalJournal.RestoreAtRest | internal/manager/global_journal.go:1074-1140 | what an undisturbed restore that succeeds leaves of each file, deletions and returns to earlier states included; the file is left alone if and only if it is no template of the journal, or its original, and no deletion beside a quarantine |
| GlobalJournal.EditsAtRestComeBack | internal/manager/global_journal.go:954-1140 | a state at rest that no copy of the journal takes for the program's stays in view or on record through any history of undisturbed applies and restores that fail or die anywhere, and is what a restore that succeeds leaves |
| GlobalJournal.OldCopyTakesItBack | internal/manager/global_journal.go:867-878 | a journal copy that survives a removal fits the file that was given back, and a restore from it leaves the file alone if and only if the copy does not take it for the program's |
| GlobalJournal.RevertedEditIsOverwritten | internal/manager/global_journal.go:1083-1127 | for every journal and adopted state a run in which the administrator goes back to the earlier original, the restore succeeds and the adopted state is left |
| GlobalJournal.AdoptionOrphansQuarantine | internal/manager/global_journal.go:594-624 | after an adoption the logical read refuses the quarantine that held the earlier original |
| GlobalReceipt.InStepIsCompensable | internal/manager/runtime_transition_resources.go:241-284 | wherever an undisturbed Global step stops, its files and journal are within the receipt |
| GlobalReceipt.QuietKept | internal/manager/global_journal.go:340-346 | giving a file back leaves only values the receipt allows under its two names |
| GlobalReceipt.UndoableKept | internal/manager/runtime_transition_resources.go:286-299 | an interrupted undoing of a file can be taken up again, for every expected value the undoing uses |
| GlobalCompensation.Capture | internal/manager/runtime_transition_resources.go:135-189 | a receipt is taken exactly when no call is unfinished, both files are what the journal says and three generations are left; it describes the present state and allows each file exactly its present value, the new template and the original |
| GlobalCompensation.PutBack | internal/manager/runtime_transition_resources.go:286-299 | one file goes back to its recorded state, untouched if it is there already |
| GlobalCompensation.PutJournal | internal/manager/runtime_transition_resources.go:300-318 | the journal says again what it said, under a generation past the reserved one and past any in use, or is gone if there was none; it is left alone if nothing was changed and it says that already |
| GlobalCompensation.Examine | internal/manager/runtime_transition_resources.go:250-280 | the check of journal and both files against the receipt is exact and changes nothing |
| GlobalCompensation.Compensate | internal/manager/runtime_transition_resources.go:241-319 | anything outside the receipt stops it before it changes anything; success means both files and the journal are back, the journal under a fresh generation; what is back already is not touched; undisturbed it succeeds from every state within the receipt; an interruption stays within it |
| GlobalCompensation.StepUndone | internal/manager/runtime_transition_resources.go:135-319 | a Global step cut short anywhere, any number of interrupted undoings and one undisturbed one give back both files and the journal's content, ownership goes on as before, and every state that was safe still is |
| Json5Text.SkipOver | internal/manager/openclaw_json5.go:260-304 | skipping trivia goes over white space and comments and on into what follows |
| Json5RoundTrip.DocumentRound | internal/manager/openclaw_json5.go:46-231 | a text is accepted with a tree if and only if the tree is well formed and the text is its text |
| Json5Lexemes.AcceptedIff | internal/manager/openclaw_json5.go:46-304 | a text is accepted with a tree if and only if it is the text of that tree, every scalar and key is a quoted or bare token and everything between them white space and closed comments, character by character |
| Json5Lexemes.QuotesAreRead | internal/manager/openclaw_json5.go:233-258 | between two single or two double quotes any characters, escaped ones included, are one scalar where a value stands and one key where a key stands |
| Json5Lexemes.TriviaIff | internal/manager/openclaw_json5.go:260-304 | what is skipped is exactly a run of white characters, byte order marks and closed comments |
| Json5Parser.Parser.SkipTrivia | internal/manager/openclaw_json5.go:260-304 | the cursor moves behind all white space, byte order marks and comments |
| Json5Parser.Parser.ScanString | internal/manager/openclaw_json5.go:233-258 | the cursor moves behind the closing quote, escapes and escaped line breaks included |
| Json5Parser.Parser.ParseValue | internal/manager/openclaw_json5.go:91-124 | offsets and nodes are those of the tree's value |
| Json5Parser.Parser.ParseMember | internal/manager/openclaw_json5.go:136-184 | key, colon and value of one member with their offsets |
| Json5Parser.Parser.ParseObject | internal/manager/openclaw_json5.go:126-200 | members, commas and the closing brace at the tree's offsets, failure exactly where the grammar fails |
| Json5Parser.Parser.ParseArray | internal/manager/openclaw_json5.go:202-231 | the same for arrays |
| Json5Parser.ParseText | internal/manager/openclaw_json5.go:46-67 | the parser accepts exactly the texts of well-formed trees and returns the nodes of that tree |
| Json5Edit.RemovedKeeps | internal/manager/openclaw_json5.go:561-608 | the tree without a member is well formed and has the same other members, in order, with the same keys and values |
| Json5Edit.InsertedKeeps | internal/manager/openclaw_json5.go:510-559 | the tree with a member added is well formed and has the old members and the new one at the end |
| Json5Edit.InsertedThenRemoved | internal/manager/openclaw_json5.go:510-608 | adding and removing a member gives back the same members, and the same tree when the closing brace stands on its own line |
| Json5Spans.OwnLineSpan | internal/manager/openclaw_json5.go:610-631 | whether a span fills whole lines, and which |
| Json5Sites.RemovalIsEdit | internal/manager/openclaw_json5.go:561-608 | removal by offsets, with its comma and line rules, is removal from the tree |
| Json5Insertion.FirstIsEdit | internal/manager/openclaw_json5.go:517-550 | insertion by offsets into an empty object is insertion into the tree |
| Json5Edit.EndsInSpaceByteIs | internal/manager/openclaw_json5.go:517-550 | whether a space is put before the first member depends on the last byte before the brace, read as a character |
| Json5Insertion.NextIsEdit | internal/manager/openclaw_json5.go:517-558 | insertion by offsets behind the last member, with or without a trailing comma, is insertion into the tree |
| Json5Editor.RemoveMember | internal/manager/openclaw_json5.go:561-608 | wherever an object stands, the text without one member is the text around it with the text of its tree without that member |
| Json5Editor.InsertMember | internal/manager/openclaw_json5.go:510-559 | wherever an object stands, the text with a member added is the text around it with the text of its tree with that member |
| Json5Anywhere.PutText | internal/manager/openclaw_json5.go:633-639 | replacing a value inside members and elements at any depth changes the text there and nowhere else |
| Json5Anywhere.ElsewhereStays | internal/manager/openclaw_json5.go:633-639 | and every value that is neither inside it nor around it |
| Json5Anywhere.ReachIs | internal/manager/openclaw_json5.go:126-200 | the node reached through members is the node of the value at that place |
| Json5Anywhere.RemoveAnywhere | internal/manager/openclaw_json5.go:561-608 | for every accepted document and every object in it, inside members and array elements: what is written is accepted and read as the document with exactly that member removed |
| Json5Anywhere.InsertAnywhere | internal/manager/openclaw_json5.go:510-559 | and as the document with exactly that member added |
| Json5Anywhere.AddedThenRemovedAnywhere | internal/manager/openclaw_json5.go:510-608 | a member added to any object of any document and removed again: the same document when the closing brace stands on a line of its own, and otherwise the same members |
| Json5Values.WithValueKeeps | internal/manager/openclaw_json5.go:633-639 | replacing a value changes that member only |
| OpenClawProxy.PrunedWhen | internal/manager/openclaw_json5.go:468-508 | a container goes with the proxy if and only if it is recorded that the program made it and nothing but white space is left in it, no comment in particular |
| OpenClawProxy.TakeOverThenGiveBack | internal/manager/openclaw_json5.go:401-559 | setting the proxy and giving it back: the same tree when the proxy was there before; otherwise the same members at every level, containers the program created gone, and the same tree when the edited object's closing brace stands on its own line |
| OpenClawEditor.FindField | internal/manager/openclaw_json5.go:310-326 | the one member of a meaning, or that there is none or more than one |
| OpenClawEditor.AddOrReplace | internal/manager/openclaw_json5.go:435-466 | the text with the proxy set is the text of the tree with the proxy set |
| OpenClawEditor.RemoveProxy | internal/manager/openclaw_json5.go:468-508 | the text without the proxy is the text of the tree without it, emptied containers pruned unless they were there before, mention a comment or hold something else |
| OpenClawEditor.ContainsComment | internal/manager/openclaw_json5.go:663-666 | whether an object's text mentions a comment |
| OpenClawEditor.SetProxy | internal/manager/openclaw_json5.go:405-433 | the whole operation: refused, unchanged or the text of the edited tree, and what it produces is accepted again |
| OpenClawEditor.SetThenRestored | internal/manager/openclaw_json5.go:401-559 | setting and then restoring the recorded value, lexeme and container presence: every member is back with its lexeme, and the text is identical when the proxy was there before or the closing brace stood on its own line |
| Subscriptions.FindIndex | internal/manager/store.go:456-463 | finding a node by its identifier |
| SourceLists.ReplacedTwice | internal/manager/subscription.go:331-341 | replacing the refreshed sources of a node a second time changes nothing |
| Snapshots.GatherCarries | internal/manager/subscription.go:250-290 | the gathered snapshot carries an identity for a source exactly if the source lists it |
| Snapshots.GatherSubscriptions | internal/manager/subscription.go:250-290 | known subscriptions keep their order and new ones follow once each |
| Snapshots.FirstWins | internal/manager/subscription.go:276-288 | the first entry of an identity in a batch decides its link |
| Snapshots.AdmitsWhen | internal/manager/subscription.go:258-280 | what is asked of a download, entry by entry: some nodes, all understood and with a link, and complete if the subscription is known |
| ReconciliationLaws.KeeperUnique | internal/manager/subscription.go:291-322 | no identity has two keepers |
| ReconciliationLaws.KeeperExists | internal/manager/subscription.go:291-322 | every identity in the Store has a keeper |
| ReconciliationLaws.KeeperIs | internal/manager/subscription_identity.go:37-48 | without a pinned node the keeper is the first of its identity when those in use come before others, of the others unmanaged ones before managed ones, and earlier ones before later ones |
| ReconciliationLaws.PinnedKeeperIs | internal/manager/subscription.go:307-322 | with pinned nodes it is the last of these |
| ReconciliationLaws.InUseLeaves | internal/manager/subscription.go:291-346 | a node in use of a wanted identity leaves only for another one in use or a pinned one, which stays |
| ReconciliationLaws.SelectedIdIs | internal/manager/store.go:481-489 | the node a scene uses: its own if that exists, otherwise the default one, otherwise the first |
| ReconciliationLaws.MembersAre | internal/manager/subscription.go:331-341 | which sources a node ends up with |
| ReconciliationLaws.DroppedWhen | internal/manager/subscription.go:331-346 | a node leaves if and only if it is managed, no unrefreshed source carries it and it is not the keeper of a wanted identity |
| ReconciliationLaws.RefreshedWhen | internal/manager/subscription.go:353-364 | a node changes its link only as a managed keeper of a wanted identity, and its name only with the link and only if that was the old link's name |
| ReconciliationLaws.NameOfLink | internal/manager/subscription.go:436-441 | a link's own name, or one made from its protocol |
| ReconciliationLaws.UrlsStayDistinct | internal/manager/subscription.go:307-382 | links stay unique although a keeper takes the fresh link of its identity |
| ReconciliationLaws.IdsStayDistinct | internal/manager/subscription.go:366-382 | identifiers stay unique |
| ReconciliationLaws.NodeStaysValid | internal/manager/store.go:197-308 | every node stays valid: protocol, known and duplicate-free sources |
| SelectionLaws.NowIs | internal/manager/subscription.go:350-380 | the node that stands for an identity after the merge |
| SelectionLaws.SuccessorStandsIn | internal/manager/subscription.go:386-413 | something stands in for every removed node, of the same identity when there is one |
| MergeLaws.ValidPreserved | internal/manager/subscription.go:250-434 | a permitted merge of a valid Store is valid: unique identifiers and links, limits, and all selections resolve |
| MergeLaws.ExactReplacement | internal/manager/subscription.go:291-382 | a refreshed source is on exactly one node of each identity it lists and on no other node |
| MergeLaws.OthersStay | internal/manager/subscription.go:328-365 | unmanaged nodes and nodes of unrefreshed sources stay with those sources |
| MergeLaws.SelectionsFollow | internal/manager/subscription.go:386-427 | a scene keeps its node while that survives and otherwise moves to the same identity when any node has it |
| Idempotence.KeeperAgain | internal/manager/subscription_identity.go:40-48 | the second merge picks the same keepers although selections, and so priorities, may have moved |
| Idempotence.Idempotent | internal/manager/subscription.go:250-434 | merging the same complete downloads again is permitted and leaves the Store exactly as it was |
| StoreUpdate.Collect | internal/manager/subscription.go:250-290 | the first pass accepts exactly the acceptable downloads and gathers their snapshot |
| StoreUpdate.ChooseKeepers | internal/manager/subscription.go:298-322 | the table of keepers the priority pass computes |
| StoreUpdate.Sweep | internal/manager/subscription.go:323-365 | the pass over the stored nodes: survivors, removed identifiers, standing nodes |
| StoreUpdate.Extend | internal/manager/subscription.go:366-382 | the pass that adds nodes for new identities under fresh identifiers |
| StoreUpdate.Succeed | internal/manager/subscription.go:394-409 | the successor of a removed node |
| StoreUpdate.Replace | internal/manager/subscription.go:386-413 | where the selections of all removed nodes go |
| StoreUpdate.LiveStore.Reconcile | internal/manager/subscription.go:250-434 | the whole merge succeeds exactly when permitted, then makes the Store what the specification says, and otherwise leaves it alone |
| StoreCheck.Check | internal/manager/store.go:197-308 | the validator accepts exactly the Stores with unique identifiers and links, fitting protocols, known sources, resolving selections and sizes within the limits |
| StoreCheck.ValidStoreIs | internal/manager/store.go:197-308 | these conditions spelled out on the Store's lists and maps |
| GitRestore.FirstPlan | internal/manager/dev.go:660-678 | the first plan is valid, starts from the values found and aims at the original ones followed by the unmanaged ones |
| GitRestore.UnmanagedKeeps | internal/manager/dev.go:795-812 | managed values are gone and every other value is kept as often as it was |
| GitRestore.UnmanagedInOrder | internal/manager/dev.go:795-803 | unmanaged values keep their order |
| GitRestore.StepsDiffer | internal/manager/dev.go:725-733 | a step's two lists of values differ, so a resume can tell a step that was done from one that was not and makes no edit twice |
| GitRestore.Settings.Mutate | internal/manager/dev_config_io.go:435-522 | Git's edit happens only on the expected values |
| GitRestore.Settings.Step | internal/manager/dev.go:681-721 | a step is taken only where the plan expects it and recorded only when the last look at the values showed it; elsewhere nothing is written |
| GitRestore.Settings.Advance | internal/manager/dev.go:681-722 | the steps go on, the number of steps left falls, and values on track stay on track |
| GitRestore.Settings.Restore | internal/manager/dev.go:646-723 | one attempt from whatever an earlier one left; undisturbed values on track are finished; values the plan does not know are left alone with the plan |
| GitRestore.Attempts | internal/manager/dev.go:646-733 | any number of interrupted attempts and one undisturbed one end with the original values followed by the unmanaged ones in order if there was a managed one, and otherwise with the values untouched; each edit is made once |
| NpmEditor.LineStays | internal/manager/dev_config_io.go:156-175 | a line keeps its effect whatever text follows it, also where a carriage return meets a line feed |
| NpmEditor.WithoutReads | internal/manager/dev_config_io.go:283-300 | without the lines of one key the rest reads as before |
| NpmEditor.EditReads | internal/manager/dev_config_io.go:283-306 | the edited text, checks on the whole text included, gives the key the new value exactly if that value survives being written, and leaves the other key alone |
| NpmEditor.Parse | internal/manager/dev_config_io.go:156-241 | the reading loop finds the settings and the lines that set them, or refuses, also for a NUL or a line separator of Unicode anywhere, for any meaning of a line |
| NpmEditor.Cut | internal/manager/dev_config_io.go:291-299 | copying between the key's lines leaves exactly the text without them |
| NpmEditor.Change | internal/manager/dev_config_io.go:273-306 | when the change is foreign, needless, refused or made, each if and only if; and what it then says; for any meaning of a line and any encoding that keep the program's lines on one line |
| NpmScalar.EncodeReads | internal/manager/dev_config_io.go:121-154 | a value written as a JSON string is read back as that value, whatever it holds |
| NpmScalar.BareReads | internal/manager/dev_config_io.go:113-154 | a scalar without quotes between any white space: three escapes, a comment ends it, and it is trimmed |
| NpmScalar.QuotesRead | internal/manager/dev_config_io.go:121-136 | a scalar in quotes between any white space: the JSON string, or the raw text where that is malformed |
| NpmScalar.UnquoteStep | internal/manager/dev_config_io.go:121-136 | JSON strings: plain characters stand for themselves, control characters are refused and the closing quote must be the last character |
| NpmScalar.UnquoteEscape | internal/manager/dev_config_io.go:121-136 | the eight letters that may be escaped and what each means; any other is refused |
| NpmScalar.UnquotePair | internal/manager/dev_config_io.go:121-136 | two surrogates in hexadecimal digits of either case are one character |
| NpmScalar.UnquoteLone | internal/manager/dev_config_io.go:121-136 | a surrogate without its partner is the replacement character |
| NpmConfig.PlainLineReads | internal/manager/dev_config_io.go:175-238 | a proxy key and its value with any white space around either |
| NpmConfig.OtherLineReads | internal/manager/dev_config_io.go:195-211 | any other key means nothing; an array or a missing value is refused |
| NpmConfig.SectionReads | internal/manager/dev_config_io.go:175-194 | a section header, refused when it would make an object of a proxy key |
| NpmConfig.HeaderIff | internal/manager/dev_config_io.go:180-183 | a line is a section header if and only if it starts with a bracket and only white space follows the first closing one |
| NpmConfig.CommentsAreSkipped | internal/manager/dev_config_io.go:174-178 | blank lines and comments mean nothing |
| NpmConfig.SettingIs | internal/manager/dev_config_io.go:216-234 | which values mean that nothing is set, which are refused and which stand for themselves |
| NpmConfig.ValidIs | internal/manager/dev.go:1102-1110 | a value that may be stored: not empty, at most 65536 bytes, no white space at its ends and no NUL |
| NpmConfig.WrittenReads | internal/manager/dev_config_io.go:192-233 | how a line the program writes is read back |
| NpmConfig.ProgramWrites | internal/manager/dev_config_io.go:283-290 | the lines the program writes are single lines that set their key or are refused |
| NpmConfig.FaithfulIff | internal/manager/dev_config_io.go:213-233 | a value survives being written and read if and only if it is valid, no control character or interpolation is in it, and it is none of the words npm reads otherwise |
| NpmConfig.ChangeSetting | internal/manager/dev_config_io.go:261-306 | the change of a proxy key with npm's scalars: refused, foreign, needless, each if and only if; when made, the key reads as desired and the other key as before |
| UnitAlias.FirstRootDecides | internal/manager/telegram_discovery.go:409-417 | the first root that has the exact name decides, whatever it has there |
| UnitAlias.AbsentIff | internal/manager/telegram_discovery.go:392-417 | absent exactly when no root has the name, nor its template for an instance |
| UnitAlias.ResolvedIsFile | internal/manager/telegram_discovery.go:419-497 | a resolved name is a nonempty regular file that is what its path really is |
| UnitAlias.MarksOnlyCut | internal/manager/telegram_discovery.go:392-497 | the answer is the walk's without marks if no name or path the walk enters is marked when it is entered, and a cycle otherwise |
| UnitAlias.CycleReportedIff | internal/manager/telegram_discovery.go:392-497 | a name that resolves without marks is reported as a cycle if and only if its walk enters a marked name or path |
| UnitAlias.EarlyCycle | internal/manager/telegram_discovery.go:419-497 | an alias that resolves but is reported as a cycle, because its walk enters a marked path |
| UnitAlias.TemplateOf | internal/manager/telegram_discovery.go:1110-1128 | the template of an instance is a template of its own |
| UnitAlias.KindIs | internal/manager/telegram_discovery.go:1110-1128 | plain, template and instance names by their parts, and that the template of an instance keeps what stands before the @ |
| UnitAlias.NameInIs | internal/manager/telegram_discovery.go:419-497 | a path names a service only directly under a root and by a safe name |
| UnitAlias.Resolver.Name | internal/manager/telegram_discovery.go:392-407 | terminates on every finite graph, computes the specification and takes its marks back |
| UnitAlias.Resolver.Exact | internal/manager/telegram_discovery.go:409-417 | the loop over the roots |
| UnitAlias.Resolver.Follow | internal/manager/telegram_discovery.go:419-497 | following one path, with the path noted as evidence |
| PortList.CanonicalUnique | internal/manager/node_hysteria2_options.go:92-156 | a set of ports has one canonical list |
| PortList.NormalIs | internal/manager/node_hysteria2_options.go:133-141 | sorting and merging gives a canonical list of the same ports |
| PortList.SizeIsCount | internal/manager/node_hysteria2_options.go:142-154 | the counter is the number of ports |
| PortList.SameTextIffSamePorts | internal/manager/node_hysteria2_options.go:92-156 | two accepted lists are written the same if and only if they denote the same ports |
| PortList.Normalize | internal/manager/node_hysteria2_options.go:92-156 | accepted exactly when every part is read and there are not too many ports, and then written canonically |
| PortList.RangeReads | internal/manager/node_hysteria2_options.go:100-132 | a part is read as a range if and only if it is one port, or two with a dash between, the second not before the first |
| PortList.ListReads | internal/manager/node_hysteria2_options.go:92-132 | a text is read as a list of ranges if and only if it is their texts with commas between them, within the limits |
| PortList.RangeTextIs | internal/manager/node_hysteria2_options.go:148-152 | one port is written alone, several as the first and the last with a dash between |
| PortList.ReadOption | internal/manager/node_hysteria2_options.go:70-90 | the conflict check over several keys is exact |
| SessionSpace.Raise | internal/manager/node_xhttp_limits.go:298-306 | the capped power, without overflow |
| SessionSpace.SizeIsAlphabet | internal/manager/node_xhttp_limits.go:280-296 | the size of a named table is that of the alphabet it names |
| SessionSpace.ValidSessionSpace | internal/manager/node_xhttp_limits.go:280-315 | true if and only if the sum of the powers reaches 2^31, with every value within 64 bits |

## Left out

- Hashing, file descriptors, locks, fsync errors, ACLs, symbolic link checks and process inspection: only the durable effect or an abstract outcome of such an operation is modelled.
- The administrator edits final names only; nobody but the program touches quarantine names, journals, receipts or the Store.
- Size limits and read errors that depend on size are part of the value Odd.
- Mode and owner of a file are part of the content that is compared.
- Core execution and readiness: the core is one step with an apply and a repeatable compensation; the receipt is not rewritten while it is compensated. In between the core has loaded the old or the new configuration.
- The finishing of single resources between commit and removal of the receipt: it can only fail and leave the receipt for recovery.
- The compensation of the developer tools' settings: its allowed states have no case for original plus administrator-added values.
- The compensation of Telegram targets.
- `saveStore` outside a runtime transaction: no caller reaches that branch with a planned mutation.
- Installation identity and configuration inside receipt and plan, and the conditions on a Store without a runtime configuration.
- The adoption of legacy global proxy files before a journal exists.
- The journals of Telegram targets and OpenClaw are saved and loaded like the global one, with an empty journal instead of none; only the global one is modelled.
- Damage to a journal's copies while calls run: what a reader makes of it is `JournalCopies.Copies.DamagedLoad`, but the calls meet sound copies.
- The phase machine around the OpenClaw edits.
- The validation of a document by the JSON5 library: the model keeps only that a plain token holds no slash and that a block comment is closed, and takes the decoding of keys and of scalar values as parameters.
- Bytes: texts are sequences of characters, and a byte order mark is one character.
- npm: what JSON gives inside single quotes is a parameter. Invalid UTF-8 cannot occur in a sequence of characters, and the write to disk with its reading back is not modelled.
- Node URL parsing: a link is its text, the identity it parses to and the name it carries.
- Links are taken to parse again as they once did, and the counters the update prints are not computed.
- Changes to the file system while aliases are resolved, except that the result Changed exists.
- Unit file contents beyond empty, readable and too large.
- User identity checks of the Git and npm restorations.
- TwoNameCas.WriteCas: not atomic in the deletion race, as `TwoNameCas.DeletionRace` shows; without an administrator it is. What a reader is left with is promised unless the last edit is a deletion.
- DropInCas.RemoveDropIn: does not model the removal of an emptied drop-in directory after the drop-in.
- RoutePlan.RunServesIff: the core is changed by this program only, and is running while a scene is enabled.
- StoreCheck.Check: does not model the limits and characters of node names, the length and white space of links, the syntax of subscription links and of identifiers, Telegram targets, the runtime configuration and the texts of speed results; a scene outside the three known ones cannot occur.
- GlobalJournal.Ownership: the administrator's last own state is not promised for an edit a call can pass over (`GlobalOwnership.RestorePassesOverIff`, `GlobalOwnership.ApplyPassesOverIff`), nor for a deletion beside a quarantine or a template of the journal, which `GlobalJournal.RestoreAtRest` says.
- TwoNameCas.PassesOverIff: of calls that begin without a quarantine.
- GlobalCompensation.StepUndone: asks for enough generations for every interruption, because each interrupted undoing may write the journal once.
- GitRestore.Attempts: no other writer during the attempts; with one, `GitRestore.Settings.Restore` says what still holds.
