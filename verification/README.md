# WitShield: verified model of the privileged remediation path

WitShield lets a Controller authorise a typed action, an Agent carry it, and a root Helper
run it. What the host looks like afterwards has to be reported honestly through failed
system calls, crashes, power losses and replays. This Dafny project models the parts of
that path whose correctness is not visible in any one function, and proves what they
promise for all inputs and all runs. `dafny verify dfyconfig.toml` checks everything.

| file | component |
|---|---|
| `prelude.dfy` | Option, Result, the outcomes of a durable write, a few facts about sets and decimals |
| `ssh_config.dfy` | the text transformation that disables password logins, and the first-value-wins reading of an sshd configuration |
| `ssh_rollback.dfy` | the dead-man switch: journal, live file, timers, crashes, power losses, foreign edits |
| `engine.dfy` | the Helper's action engine: phases, receipts, sealed rollback state |
| `receipt_cache.dfy` | at-most-once execution: started and final records, eviction, crashes |
| `command_results.dfy` | the Controller's classification of a device's result |
| `action_store.dfy` | the Controller's rows for actions, commands and bans, one transaction at a time |
| `auth_log.dfy` | the windowed log reader against a plain line splitter |
| `event_delivery.dfy` | poll, enqueue, save checkpoint, flush, with crashes between any two steps |
| `package_plan.dfy` | the parser of APT's locked plan, and what the guard allows |
| `package_upgrade.dfy` | upgrade, partial execution, rollback |
| `ip_ban.dfy` | refreshing and rolling back a kernel timeout |
| `file_permission.dfy` | chown and chmod that may stop half way on an opened inode |
| `process_suspend.dfy` | journal, timers and signals for a suspended process |
| `work_limits.dfy` | a sliding-window budget of weighted work |
| `proof_encoding.dfy` | the messages that a device signs |

Code that changes state step by step is a class whose methods make the same calls in the
same order. A system call is a method whose outcome is chosen nondeterministically: it may
fail, take effect, or take effect and report a failure. Where durability matters, the disk
is a sequence of candidate states (the last one is live, the earlier ones may come back
after a power loss), and a trail of disk states records every point at which a crash may
strike. Each such class ends in a driver method over an arbitrary sequence of events
(`Run` or `RunAll`), whose postcondition is the safety statement over whole runs. Where
failing is always allowed, a constant `smooth` (or a parameter of that name) stands for runs
in which every call succeeds, and the contracts then state when the operation succeeds too,
so that giving up is not a way to satisfy them. Likewise `calm` stands for runs in which
nobody else acts while an operation is under way, and `steady` for a wall clock that does
not jump.

## What does not hold

Proving the obvious statements turned up inputs for which they fail. The model keeps what
the code does, shows the failure on an input or a run, and states exactly when the
property does hold.

- **SSH power loss.** A Rollback that renames the snapshot into place but cannot sync the
  directory reports an error; the retry finds the snapshot there, writes nothing, and
  unlinks the journal. A power loss can then bring the hardened file back with no journal:
  `SshRollback.PowerLossCanStrandAChange` runs Apply and the two Rollbacks. Rollback,
  Expire and Apply keep every surviving state recoverable except exactly when the snapshot
  was found already in place while the write of the hardened file, or of the file over it,
  had not been followed by one that returned durably (`SshRollback.Playbook.Unlink`,
  `SshRollback.Playbook.Rollback`, `SshRollback.ClaimsAreUnsettled`). Process crashes are
  always safe.
- **Changed lines.** The count reported by the SSH hardening can be 0 although the bytes
  change (`SshConfig.ChangeCanReportZero`). It tells changed from unchanged exactly for the
  texts that report something or are already in the managed form
  (`SshConfig.CountTellsChangeIff`).
- **Reserved words.** A playbook that fails before its mutation boundary with exactly the
  reserved interruption text is filed as an unknown outcome
  (`CommandResults.ReservedWordsMislead`). `CommandResults.UnknownMatchesRun` gives the
  exact condition.
- **Late success.** A successful execution whose safety deadline is out of order on arrival
  is filed as failed and its rollback state is dropped, although the change is on the host
  (`CommandResults.LateSuccessLosesState`). `CommandResults.StateKeptIff` gives the exact
  condition.
- **Half-written receipt.** A crash between creating and writing a started record leaves a
  file that keeps the Helper down (`ReceiptCache.Helper.CrashInBeginKeepsHelperDown` runs
  it). When no call fails, the Helper starts exactly when no file is damaged and the
  unfinished records fit the bounds (`ReceiptCache.Helper.Restart`).
- **Plan longer than the limit.** The APT plan reader drops what follows its size limit
  instead of refusing it: a printed plan padded to the limit is accepted whatever is
  appended (`PackagePlan.TailIsIgnored`). What is read agrees with what was sent for every
  input up to a length exactly when that length is within the limit
  (`PackagePlan.LimitIsExact`).
- **Ban residue.** A predecessor with less than a millisecond left is stored as 0 ms. That
  happens (`IpBan.ResidueCanBeLost`), it happens exactly when the time left lies strictly
  between zero and a millisecond (`IpBan.Kernel.Settle`, `IpBan.Kernel.Apply`), and exactly
  such a state is refused by Rollback (`IpBan.Kernel.Rollback`).
- **Permission rollback.** A failed rollback of a completed change can leave a mixture that
  no later rollback recognises (`FilePermission.FailedRollbackStrands` runs it), exactly
  when both mode and owner were changed
  (`FilePermission.CompleteStateRecognizesMixturesIff`, `FilePermission.FileSystem.Rollback`).
- **Moved executable.** When the executable of a suspended process is renamed or deleted,
  its inspected path changes and the process is taken for a replacement: its journal is
  dropped and it stays stopped (`ProcessSuspend.Playbook.MovedExecutableStrands` runs it).
  When no call fails, a process held by the action is left stopped without its journal
  exactly when it shows another start time or path than the record
  (`ProcessSuspend.Playbook.Release`).

## Model

| member | source | states |
|---|---|---|
| SshConfig.HardenSSHConfig | internal/action/ssh_hardening.go:418-454 | The line loop returns the managed marker and directive followed by every other line in order, in the input's line ends, and counts the lines it touched. |
| SshConfig.HardenIsIdempotent | internal/action/ssh_hardening.go:418-454 | Hardening twice is hardening once, byte for byte, for LF, CRLF and mixed input. |
| SshConfig.HardenedLines | internal/action/ssh_hardening.go:418-454 | The output splits back into marker, directive and exactly the kept lines, and keeps the kind of line end. |
| SshConfig.JoinOfLines | internal/action/ssh_hardening.go:423-424 | Lines joined again are the text, so splitting loses nothing. |
| SshConfig.LinesOfUnix | internal/action/ssh_hardening.go:420-423 | Replacing the line ends takes exactly one carriage return off each line that has an end and one before it. |
| SshConfig.FieldsOfLayout | internal/action/ssh_hardening.go:433 | Words laid out with any white space before, between and after them are found again. |
| SshConfig.LaidOut | internal/action/ssh_hardening.go:433 | Every text is its fields, laid out with white space. |
| SshConfig.UnchangedIff | internal/action/ssh_hardening.go:191-197 | Hardening leaves a text alone exactly when it starts with the managed lines, repeats neither, and uses one line end throughout. |
| SshConfig.UnchangedReportsZero | internal/action/ssh_hardening.go:418-454 | A text that hardening leaves alone reports no changed line. |
| SshConfig.CountTellsChangeIff | internal/action/ssh_hardening.go:418-454 | A reported count of zero means "unchanged" exactly for the texts that report something or already have the managed form. |
| SshConfig.ChangeCanReportZero | internal/action/ssh_hardening.go:431-452 | With both managed lines further down, no change is reported although the bytes change. |
| SshConfig.ParseSSHD | internal/scanner/scanner.go:283-300 | The scanner's reading of a configuration: for each key, the first value wins. |
| SshConfig.EntryOfLayout | internal/scanner/scanner.go:286-295 | A line sets its first word, in lower case, to its second, unless it has fewer words, is a comment, or starts with "match" and a blank. |
| SshConfig.HardenedMeaning | internal/action/ssh_hardening.go:418-454 | The hardened text reads as the original did, with passwordauthentication set to "no" and every other key unchanged. |
| SshRollback.PowerLossCanStrandAChange | internal/action/ssh_hardening.go:394-410 | A run of the model, for any file that hardening changes: Apply, a Rollback whose directory sync fails, a second Rollback that succeeds; a state that a power loss can leave then holds the claimed hardened file and no journal. |
| SshRollback.ClaimsAreUnsettled | internal/action/ssh_hardening.go:394-410 | With its journal still there, no surviving file is an unconfirmed hardened one exactly when no hardened file awaits a durable write over it, or its Confirm came. |
| SshRollback.ForeignStays | internal/action/ssh_hardening.go:400-414 | In a run, a configuration that the pending journal did not write is left as it is by every request, expiry and restart. |
| SshRollback.EditKeepsUnclaimed | internal/action/ssh_hardening.go:400-414 | An external edit, of content or of metadata only, ends an Apply's claim on the file and never creates one. |
| SshRollback.ReleaseSettles | internal/action/ssh_hardening.go:331-368 | Once Confirm unlinked the only journal, nothing that can survive is unconfirmed. |
| SshRollback.RemovingTheOnlyJournal | internal/action/ssh_hardening.go:713-729 | At most one journal exists, so removing one leaves none. |
| SshRollback.Playbook.Apply | internal/action/ssh_hardening.go:154-263 | An error without state left file and journals as they were; beside a journal nothing is written; success with a change means the file is the hardened snapshot, covered by a durable journal that carries it, with a deadline the requested delay ahead of a moment of the call (on a steady clock) and a timer that runs until then; success without one means hardening changes nothing; without a pending journal and failing calls it succeeds; repeated for its own journal it succeeds exactly as PendingApply says. |
| SshRollback.Playbook.ApplyFresh | internal/action/ssh_hardening.go:179-208 | Without a journal: snapshot, harden, journal first, then write; the deadline is the wall clock plus the requested or default delay; every failing step is undone or leaves its journal; the file is as found or hardened; the steps are exactly: validate, write, validate, reload. |
| SshRollback.Playbook.ApplyChange | internal/action/ssh_hardening.go:216-234 | A journal whose write is uncertain keeps its state and, if it is visible, its timer; only a journal proven absent is an error without state; a journal that did not get written means an error without state, one that is visible but unsynced an error with state and timer. |
| SshRollback.Playbook.ApplyJournaled | internal/action/ssh_hardening.go:235-262 | After the journal is durable: a failed write, validation or reload restores the snapshot or keeps the journal and arms the timer. |
| SshRollback.Playbook.UndoChange | internal/action/ssh_hardening.go:209-257 | A failed step is reported without state only when the snapshot is back and the journal gone, which with no failing call it always is; a reload is repeated exactly if one had been tried. |
| SshRollback.Playbook.PendingApply | internal/action/ssh_hardening.go:159-178 | An Apply repeated for its own journal succeeds only with the same parameters, the applied content in place, and the deadline ahead; it changes nothing; with no failing call and no edit it succeeds exactly then. |
| SshRollback.Playbook.Rollback | internal/action/ssh_hardening.go:296-329 | Success means the snapshot that the journal carried is in place and no journal remains; a failed Rollback removes the journal only after that same restoration; somebody else's file is a conflict and left alone with its journal; power safety is lost exactly when the snapshot was found in place over an unsettled hardened file; with no failing call and no edit it succeeds exactly when the file is the applied or the restored one; before success is reported the file was validated and sshd reloaded. |
| SshRollback.Playbook.Confirm | internal/action/ssh_hardening.go:331-368 | Confirm never writes the file; it commits exactly when it unlinks the journal, for the same parameters, even if it then reports a sync error; before that it looked at the clock, verified the file, and looked again, and both times the deadline was ahead; with no failing call, no edit and a steady clock it succeeds whenever the applied content is there and the deadline still ahead at its end. |
| SshRollback.Playbook.CommitConfirmation | internal/action/ssh_hardening.go:360-368 | The journal is unlinked only if the clock, looked at last, shows the deadline ahead; with no failing call exactly then. |
| SshRollback.Playbook.RestoreSnapshotIfApplied | internal/action/ssh_hardening.go:394-416 | The snapshot is restored only over the content and metadata that Apply wrote; a file that is the snapshot already is not written; any other content, owner or mode is never overwritten and never reported as restored; a conflict means exactly such a file. |
| SshRollback.Playbook.Expire | internal/action/ssh_hardening.go:678-711 | Each expiry leaves the snapshot in place or leaves somebody else's file alone, or some call failed and it is due again in a minute; power safety is lost exactly as by Rollback. |
| SshRollback.Playbook.ExpireJournal | internal/action/ssh_hardening.go:686-704 | An expiry retries exactly when the restoration itself failed, leaves somebody else's file alone with its journal, and drops the journal only with the snapshot in place or after an edit. |
| SshRollback.Playbook.Unlink | internal/action/ssh_hardening.go:630-639 | A journal is removed only for cause: the file equals its snapshot, was edited, or its Confirm saw the deadline ahead. Removal without Confirm keeps every state that can survive a power loss recoverable exactly when no durable write is missing over its hardened file. |
| SshRollback.Playbook.WriteConfig | internal/action/ssh_hardening.go:491-529 | A write takes effect at the rename and is durable only after the directory sync. |
| SshRollback.Playbook.WriteJournal | internal/action/ssh_hardening.go:557-590 | The journal exists from the rename on and is durable after the directory sync. |
| SshRollback.Playbook.Schedule | internal/action/ssh_hardening.go:661-676 | The timer runs until the deadline; one that has passed fires at once, one beyond the longest rollback delay is cut to it; other timers are untouched. |
| SshRollback.Playbook.DelayIsTheRequestedOne | internal/action/ssh_hardening.go:115-125 | The delay asked for is accepted exactly if it is zero, meaning the default, or a whole number of seconds within the bounds, and then used as it is. |
| SshRollback.Playbook.RejectOtherPendingJournal | internal/action/ssh_hardening.go:713-729 | It passes only when no other action has a journal. |
| SshRollback.Playbook.Verify | internal/action/ssh_hardening.go:265-294 | A positive verification saw the applied content, ran the validation and read the effective setting; with no failing call and no edit the applied content is verified. |
| SshRollback.Playbook.Restart | internal/action/ssh_hardening.go:641-659 | Every journal gets a timer again, or the process refuses to start; when no call fails it starts. |
| SshRollback.Playbook.Crash | internal/action/ssh_hardening.go:641-659 | A crash at any disk state of the current operation loses the timers and nothing that is needed to recover. |
| SshRollback.Playbook.Run | internal/action/ssh_hardening.go:154-729 | Over any sequence of requests, expiries, edits, crashes, power losses and restarts: every unconfirmed hardened file has its journal, every idle state has its timer, at most one journal exists, and each was removed for cause; each step starts where the last ended, and without an edit changes the file only by an Apply where no journal is, or by playing a journal back over the very file it says was written; the run ends at a power loss only after an exposed removal; sshd is reloaded only right after a successful validation. |
| Engine.MacMessageInjective | internal/action/engine.go:329-341 | The bytes under the MAC determine action, type, parameter digest and payload. |
| Engine.Engine.SealedOpens | internal/action/engine.go:301-327 | A sealed state opens again for its own action and yields its payload. |
| Engine.Engine.OpensOnlyForItsAction | internal/action/engine.go:311-327 | A state that opens under a MAC made by this engine belongs to that action, type, parameters and payload. |
| Engine.Engine.OpensExactlyWhatWasSealed | internal/action/engine.go:311-327 | A request's state opens exactly if this engine sealed it for that action, type and parameters, unaltered and within the bound. |
| Engine.Screen | internal/action/engine.go:97-132 | The exact admission condition of a request: identity, JSON parameters, known type, valid parameters, state only where it belongs and only if this engine sealed it. |
| Engine.RunApply | internal/action/engine.go:147-176 | Usable state is sealed and kept; unusable state after the mutation boundary makes the receipt indeterminate. |
| Engine.RunExecute | internal/action/engine.go:238-260 | The receipt of a full lifecycle describes the path it took. |
| Engine.RunApplyAlone | internal/action/engine.go:198-202 | The receipt of a single Apply describes the path it took. |
| Engine.Run | internal/action/engine.go:80-265 | For every playbook behaviour and every request, the receipt tells what happened: success, indeterminate, the steps, the error text, and the sealed state exactly where it may still be needed. |
| Engine.FailureMeansUnchanged | internal/action/types.go:84-98 | If the playbook honours its contract, a receipt that claims neither success nor an unknown outcome means the host is as before, and no state is kept. |
| ReceiptCache.Helper.Scan | cmd/witshield-helper/receipt_cache.go:196-240 | The count and total of the files other than the one replaced, the set of removable records, and a refusal of any damaged file. |
| ReceiptCache.Helper.EnsureCapacity | cmd/witshield-helper/receipt_cache.go:195-263 | Success means both bounds hold with the new record; what was deleted are final records only, the shortest oldest-first run that suffices; it succeeds exactly when the unfinished records leave room, unless a call fails or a file is damaged. |
| ReceiptCache.TrimMore | cmd/witshield-helper/receipt_cache.go:248-258 | Deleting the oldest final record while the rest does not fit keeps the run oldest-first and shortest. |
| ReceiptCache.TrimmedKeeps | cmd/witshield-helper/receipt_cache.go:237-257 | Eviction never touches a started record nor the record being replaced. |
| ReceiptCache.Evicted | cmd/witshield-helper/receipt_cache.go:249-258 | Deleting a final record keeps every run accounted for in every directory state that may survive. |
| ReceiptCache.Helper.Begin | cmd/witshield-helper/receipt_cache.go:118-160 | The engine may run only once a started record is part of the only surviving directory state; a failed begin leaves every other unfinished record alone; with no failing call it succeeds on an undamaged cache exactly when the unfinished records leave room for this one. |
| ReceiptCache.Helper.WriteStarted | cmd/witshield-helper/receipt_cache.go:133-160 | Writing the started record passes through a state in which the file exists and is empty; success means it is durable, failure leaves the other records alone; with no other failing call than the write itself, a failed one leaves no file. |
| ReceiptCache.Helper.Save | cmd/witshield-helper/receipt_cache.go:127-187 | The started record stays until the final response replaces it by rename; a reported success is durable; with no failing call it succeeds on an undamaged cache exactly when the unfinished records leave room for the response. |
| ReceiptCache.Helper.RunOnce | cmd/witshield-helper/main.go:584-588 | The run is counted, and its answer becomes the one the record may carry. |
| ReceiptCache.Helper.Handle | cmd/witshield-helper/main.go:566-609 | A recorded attempt is never run again: it gets its stored response if it asks for the same thing, and a refusal otherwise; an unrecorded one runs at most once, and only over an undamaged cache; with no failing call the stored response is given, a first attempt over an undamaged cache runs exactly when the unfinished records leave room for its record, and its answer is the receipt of the run, kept as final, exactly when they leave room for that too. |
| ReceiptCache.Helper.Serve | cmd/witshield-helper/main.go:566-608 | Exactly executions, rollbacks and confirmations go through the cache; every other operation only runs and is answered with its receipt. |
| ReceiptCache.Helper.Restart | cmd/witshield-helper/receipt_cache.go:34-57 | The Helper starts only on a readable cache within its bounds; with no failing call it starts exactly when no file is damaged and the unfinished records fit. |
| ReceiptCache.Helper.CrashInBeginKeepsHelperDown | cmd/witshield-helper/receipt_cache.go:133-160 | A run of the model: a crash after the started record was created and before it was written, and a restart that fails although no call does. |
| ReceiptCache.RunsBounded | cmd/witshield-helper/receipt_cache.go:76-187 | In any good state every run that was not evicted is on record in every surviving directory state, and an attempt was run at most once more than runs of it had their final record evicted. |
| ReceiptCache.Helper.RunAll | cmd/witshield-helper/main.go:564-606 | Both over any sequence of requests, crashes at each durable write, power losses and restarts; a run whose eviction a power loss undid counts once. |
| CommandResults.Classify | internal/store/action_results.go:448-550 | The reassigned verdict, error, kept state and flags are exactly: proven success, unknown outcome, first failing check, state that a receipt vouches for. |
| CommandResults.ProvenIff | internal/store/action_results.go:452-532 | A submission counts as a success exactly if its claim, or the report that its receipt could not be kept, comes with a receipt of that very action, operation and parameters that shows every step done, vouches for the state, and has its deadline in order. |
| CommandResults.UnknownIff | internal/store/action_results.go:499-541 | It counts as unknown exactly if it says so in the reserved words, or comes with a receipt of that very action that shows a failed undo with its state, or a broken or failed step that left none. |
| CommandResults.ReservedTexts | cmd/witshield-helper/main.go:597-606 | The interruption and the cache-failure texts reach the Controller only where they are meant. |
| CommandResults.OnlyEchoes | internal/action/engine.go:155-190 | A failed run can carry the interruption text only by repeating the playbook's own words. |
| CommandResults.UnknownMatchesRun | internal/store/action_results.go:499-537 | For every run, with its receipt saved or not, the Controller says "unknown" exactly when the engine did, or when a playbook failed before its mutation in the reserved words. |
| CommandResults.SuccessMatchesRun | internal/store/action_results.go:452-520 | For every run, the Controller says "succeeded" exactly when the run completed and its safety deadline, if any, fits its type and lies in its window. |
| CommandResults.FailedVerdictMeansUnchanged | internal/store/action_results.go:452-541 | With deadlines in order, a verdict of "failed" means the host is as it was before the execution. |
| CommandResults.KeptStateOpens | internal/store/action_results.go:509-551 | Whatever rollback state the Controller stores after an execution, the engine opens it for that action's rollback. |
| CommandResults.StateKeptIff | internal/store/action_results.go:509-551 | The Controller stores the sealed state exactly where the run left one, except for a success whose safety deadline is out of order. |
| CommandResults.LateSuccessLosesState | internal/store/action_results.go:509-551 | A success that arrives outside its safety window is filed as failed, without its state, while the change is on the host. |
| CommandResults.ReservedWordsMislead | internal/store/action_results.go:499-507 | A precheck that fails in the reserved words, with the host untouched, is filed as unknown. |
| CommandResults.PendingOfExecution | internal/store/action_results.go:845-854 | In a successful execution the confirmation flag is the one of its Verify step. |
| ActionStore.Store.StartActionCommand | internal/store/action_results.go:123-305 | Authorisation is given exactly to an unfinished, readable action command of a device that does not merely observe, which runs already or is in time and allowed by policy; a denial, under its exact condition, finishes the command, leaves its action cancelled with nobody waiting for it, and cancels its pending ban except for a refused grant; an error changes nothing; rows, bans and audit of every other action stay; message and audit say why it was denied. |
| ActionStore.Store.MarkStarted | internal/store/action_results.go:253-300 | Starting succeeds unless a ban's time to live is unreadable; it moves an approved action to executing, records the start, and extends exactly a pending ban to the time to live from now. |
| ActionStore.CancelKeepsConsistent | internal/store/action_results.go:155-209 | Cancelling a command leaves nobody waiting for its action. |
| ActionStore.ObserverCancelReachesAction | internal/store/action_results.go:155-170 | The cancellation for observer mode, which would miss an executing action, always reaches it and its pending ban: no command runs on an observing device in any consistent state. |
| ActionStore.ModeChangeKeepsConsistentIff | internal/store/auth_devices.go:308-316 | A change of a device's mode keeps the rows consistent exactly unless it makes it an observer while one of its commands runs. |
| ActionStore.Store.Enroll | internal/store/auth_devices.go:301-329 | A device is enrolled again exactly unless it was revoked, or its mode would change while an action command of it has no result; nothing else changes. |
| ActionStore.Store.CompleteCommandAndAction | internal/store/action_results.go:378-784 | A finished command accepts only the result it is bound to and changes nothing; a started one can be finished, once: the answer and the stored verdict and text are the derived ones, never the device's claim, the action's row and its ban become the projected ones, with only the vouched-for rollback state, and the audit grows by exactly the events of the result; an action sent rolling back at once has the command for it queued; everything of other actions stays. |
| ActionStore.Store.SettleExecute | internal/store/action_results.go:632-699 | An execution's result moves its action from executing, and a ban turns active only by a success whose earliest kernel expiry lies ahead. |
| ActionStore.Store.SettleRollback | internal/store/action_results.go:700-726 | A rollback's result moves its action from rolling back and its ban accordingly. |
| ActionStore.Store.SettleConfirm | internal/store/action_results.go:727-748 | A confirmation's result moves its action from confirming and touches no ban. |
| ActionStore.Store.RevokeDevice | internal/store/auth_devices.go:590-683 | Every command of the device ends; what had started makes its action indeterminate, what had not is cancelled, and its ban and audit follow; no action without an unfinished command of the device is touched, nor its ban or audit; it succeeds exactly for a device that is not revoked yet, which then is; each command is closed with the text that says whether it may have run. |
| ActionStore.RevokedKeepsConsistent | internal/store/auth_devices.go:629-681 | Ending one command ends its action, settles its ban, records it in the audit, and touches no other action, ban or audit entry. |
| ActionStore.Store.Request | internal/store/settings_actions_defense.go:235-346 | Exactly an action at rest in a state that allows the request is moved to a waiting state, so at most one command ever waits for it; bans and other actions stay; an admitted request goes through exactly then; the queued command is of the requested kind, for the action's device, and the audit names it. |
| ActionStore.Store.ExpireConfirmation | internal/store/settings_actions_defense.go:352-387 | An applied change is cancelled exactly when its confirmation window is over; no command, ban or other action changes. |
| ActionStore.FinishKeepsConsistent | internal/store/action_results.go:616-748 | Finishing the one command that waits for an action keeps all rows consistent, whatever the action becomes. |
| ActionStore.QueueKeepsConsistent | internal/store/settings_actions_defense.go:301-324 | A command may be queued for an action that nobody waits for. |
| ActionStore.Store.Run | internal/store/action_results.go:123-784 | Over any sequence of transactions: each unfinished command finds its action in the state that waits for it, a finished command stays exactly as it was finished, a start or result of a finished command changes nothing at all, and every step changes rows, bans and audit only of the actions it is about. |
| ActionStore.UntouchedKeepsRows | internal/store/action_results.go:123-784 | Over a whole run, an action that no step was about keeps its row and its ban, and no audit entry about it was added. |
| AuthLog.ReadSlice | internal/agent/sshwatch.go:144-150 | One buffered read ends at the next newline, the buffer's end, or the window's end, and says which. |
| AuthLog.TakeFragment | internal/agent/sshwatch.go:151-190 | One fragment, which may extend, complete or overflow the current line or belong to a discarded one, keeps what was reported in step with the plain splitter. |
| AuthLog.ScanWindow | internal/agent/sshwatch.go:133-196 | One window reports exactly the plain splitter's events between two checkpoints, and advances whenever a complete or oversized line is available; it fails only if a read does, and then reports nothing; neither the window nor the number of events exceeds its bound. |
| AuthLog.Resume | internal/agent/sshwatch.go:56-131 | Where a poll starts: the saved checkpoint of the same file, the offset of a legacy checkpoint, the start of a new generation, or the end of a file seen first; and exactly when it refuses. |
| AuthLog.Poll | internal/agent/sshwatch.go:56-197 | One whole poll from a saved checkpoint; with no failing read it succeeds exactly where the file can be resumed. |
| AuthLog.RunReportsEveryLine | internal/agent/sshwatch.go:133-196 | For any polls over a growing file, however cut by fragments, windows and event caps, the reported events are the plain splitter's for the bytes consumed. |
| AuthLog.DrainedRunReportsAll | internal/agent/sshwatch.go:133-196 | A generation read to its end has reported one event per matching line and one per oversized line, in order. |
| AuthLog.EventsAreDistinct | internal/agent/sshwatch.go:243-252 | Events of a generation have strictly increasing offsets, so their identities differ. |
| AuthLog.EventsOfPrefix | internal/agent/sshwatch.go:133-196 | What was reported up to a checkpoint stays reported as the file grows. |
| AuthLog.RepolledEventsAgree | internal/agent/sshwatch.go:97-131 | Polling again from the same checkpoint reports the same events with the same identities. |
| AuthLog.OversizeStep | internal/agent/sshwatch.go:158-181 | The first fragment past the line limit reports the line once, at its start, and discards the rest. |
| AuthLog.DiscardStep | internal/agent/sshwatch.go:151-160 | Fragments of a discarded line report nothing until its newline. |
| AuthLog.TextOfLine | internal/agent/sshwatch.go:175-176 | The reported text of a line is what stands before its line end, in either style; one carriage return only is dropped. |
| EventDelivery.Agent.Enqueue | internal/agent/queue.go:49-106 | Only a durable entry is reported as queued, and nothing kept is lost; the queue grows by exactly that entry, and never past its bound. |
| EventDelivery.Agent.Flush | internal/agent/queue.go:128-191 | Entries go out in name order, none before an older one, and leave the queue only when acknowledged; with no failing call the queue is emptied; every entry sent but the last has left the queue. |
| EventDelivery.Agent.Send | internal/agent/queue.go:140-188 | An entry is removed only after the Controller has it; a lost answer leaves it queued. |
| EventDelivery.Agent.Commit | internal/agent/sshwatch.go:289-337 | A checkpoint takes effect at its rename and may only cover events that are kept. |
| EventDelivery.Agent.PollSecurityEvents | internal/agent/runner.go:354-395 | Events are durable in the queue before the checkpoint moves over their bytes, and the checkpoint never moves back; with no failing call and room in the queue it succeeds exactly where the file can be resumed, and the saved checkpoint is the one that poll reached. |
| EventDelivery.MarkKeepsSafe | internal/agent/runner.go:370-394 | Saving a checkpoint is safe once every event it newly covers is kept. |
| EventDelivery.ChangeKeepsSafe | internal/agent/queue.go:49-191 | A queue change is safe if every event it drops was delivered. |
| EventDelivery.SuccessorOwes | internal/agent/sshwatch.go:97-131 | The next checkpoint owes exactly the events reported on top of the last, and is not before it in generation and offset. |
| EventDelivery.Agent.PowerLoss | internal/agent/queue.go:70-104 | Any combination of unsynced checkpoint and queue states that may survive still keeps every owed event. |
| EventDelivery.Agent.Run | internal/agent/runner.go:354-405 | Over any sequence of tasks, log changes, crashes and power losses, every event behind a surviving checkpoint is in the queue or delivered, and the oldest checkpoint that may survive never moves back. |
| PackagePlan.ReadLineSplits | internal/action/package_plan_guard.go:351-365 | A read takes one line with its end off the text and nothing else is lost; the end is reported only where at most a lone carriage return is left, a refusal only for an over-long first line. |
| PackagePlan.SkipConfiguration | internal/action/package_plan_guard.go:279-290 | The configuration block ends at its empty line, or the plan is refused. |
| PackagePlan.CollectActions | internal/action/package_plan_guard.go:291-348 | The two maps filled line by line amount to: the plan described by the set of actions, refused exactly when no plan of allowed size fits them. |
| PackagePlan.ParseVersion3Plan | internal/action/package_plan_guard.go:273-349 | The parser returns the one plan that the input describes, and refuses exactly the inputs that describe none. |
| PackagePlan.WordsAreActions | internal/action/package_plan_guard.go:303-321 | The words of a line are read as an action exactly if they are the nine words of a proper one: a package present before or after, in one architecture and Multi-Arch kind ("none" and "no" being the same), unpacked from an absolute .deb path, removed or configured. |
| PackagePlan.PatternsAre | internal/action/package_upgrade.go:18-20 | Names, architectures and versions are exactly the texts of the three patterns. |
| PackagePlan.DescribesOne | internal/action/package_plan_guard.go:291-348 | Actions describe at most one plan. |
| PackagePlan.NoPlanAfterConflict | internal/action/package_plan_guard.go:322-334 | Two disagreeing actions settle that no plan fits, whatever follows. |
| PackagePlan.GrownPlanIsTooLarge | internal/action/package_plan_guard.go:336-338 | A plan past the entry limit stays past it. |
| PackagePlan.PrintThenParse | internal/action/package_plan_guard.go:273-349 | Reading back any printed list of actions, up to the last byte of the size limit, gives exactly the plan it describes; a configure action without its archive action, or two conflicting actions, is refused. |
| PackagePlan.OnlyTheSetMatters | internal/action/package_plan_guard.go:293-348 | Order and repetition of actions do not matter. |
| PackagePlan.TailIsIgnored | internal/action/package_plan_guard.go:274 | A printed plan padded with empty lines to the size limit is accepted whatever is appended to it. |
| PackagePlan.LimitIsExact | internal/action/package_plan_guard.go:273-274 | What the parser accepts agrees with a reading of the whole input, for all inputs up to a length, exactly when that length is within the size limit. |
| PackagePlan.ValidateLockedPlan | internal/action/package_plan_guard.go:392-428 | Package by package, the guard agrees exactly to a plan of upgrades of authorised packages from their recorded versions, or of recorded downgrades. |
| PackagePlan.ValidateSpec | internal/action/package_plan_guard.go:249-272 | A transaction may be prepared exactly for readable versions of which at most 64 are authorised as installed, or for 1 to 512 readable transitions. |
| PackagePlan.IsCanonicalPackage | internal/action/package_upgrade.go:445-448 | Cutting a name at its first colon finds exactly the names made of a base name, a colon and an architecture. |
| PackageUpgrade.DowngradesUndo | internal/action/package_upgrade.go:281-291 | Whatever part of an allowed plan was executed, Rollback asks for exactly the inverse of that part, and executing it restores the whole inventory. |
| PackageUpgrade.DowngradesStayInside | internal/action/package_plan_guard.go:411-423 | The rollback guard lets through only recorded downgrades, so every partial execution stays one that Rollback recognises, and reaching the recorded versions restores the whole inventory. |
| PackageUpgrade.DowngradesAllowed | internal/action/package_plan_guard.go:263-266 | Within the guard's bound of entries, what Rollback asks for is a transaction that its own guard accepts. |
| PackageUpgrade.AllowedUpgrades | internal/action/package_plan_guard.go:394-410 | An allowed plan upgrades installed, authorised packages from their recorded versions and nothing else. |
| PackageUpgrade.PlanDecodes | internal/action/package_upgrade.go:341-352 | The state written for a plan passes Rollback's own decoding. |
| PackageUpgrade.Decodes | internal/action/package_upgrade.go:341-352 | A rollback state is accepted exactly if it records the same readable packages before and after. |
| PackageUpgrade.Host.Guard | internal/action/package_plan_guard.go:156-182 | The hook agrees only to an allowed plan, and only with a durable result. |
| PackageUpgrade.Host.Apply | internal/action/package_upgrade.go:129-216 | An error without state changed nothing; every other state records how to get back to what APT found under its lock, or is a marker no Rollback accepts; with no failing call and nobody else at work it succeeds exactly when the plan APT makes is empty (a no-op), or is allowed and its state fits the size bound, and then the plan is executed in full. |
| PackageUpgrade.Host.CheckPlan | internal/action/package_upgrade.go:188-215 | Success is claimed only when every package of the plan is at its target. |
| PackageUpgrade.Host.ProveNoOp | internal/action/package_upgrade.go:218-239 | A run without a hook result is a no-op only if the whole inventory is identical to the baseline. |
| PackageUpgrade.Host.Rollback | internal/action/package_upgrade.go:269-331 | Success means every recorded package is back, and with nobody else at work the whole inventory is; with an APT that obeys its hook a failed rollback can be retried; with no failing call any partial execution within the guard's bound is rolled back; a transaction that its guard would refuse is not tried. |
| PackageUpgrade.Host.ApplyThenRollBack | internal/action/package_upgrade.go:129-331 | Upgrade and any number of rollback attempts: once one succeeds the whole inventory equals the one before; with no failing call one attempt suffices, unless the upgrade's state did not fit. |
| IpBan.ParseTimespec | internal/action/ip_ban.go:509-545 | The 64-bit running sum returns the exact total, or nothing when it would overflow or the text is malformed. |
| IpBan.RenderThenParse | internal/action/ip_ban.go:509-545 | Reading a rendered remaining time yields its parts again. |
| IpBan.PartsAreWritten | internal/action/ip_ban.go:509-545 | What is read is what was written: digits, each group with its unit, and nothing else. |
| IpBan.TotalOfUnits | internal/action/ip_ban.go:509-545 | A total counts days, hours, minutes, seconds and milliseconds in nanoseconds. |
| IpBan.LeftIsAccounted | internal/action/ip_ban.go:287-306 | What is subtracted from the predecessor between its reading and the refresh is right to a millisecond, the capture latency and the noting latency. |
| IpBan.CapturedAccounts | internal/action/ip_ban.go:234-246 | A captured predecessor is never remembered as lasting longer than it did when read. |
| IpBan.Kernel.Capture | internal/action/ip_ban.go:230-262 | A refresh that would shorten the ban is refused, with no failing call exactly such a one or one over an unreadable element, and the state written beforehand passes the validity check. |
| IpBan.Kernel.Apply | internal/action/ip_ban.go:221-318 | A refresh never shortens the ban (to the millisecond of the reading); every state returned passes the validity check and accounts for the predecessor; without state nothing live differs; with no failing call the refresh is committed exactly when it does not shorten what was read, and reported unless it is over by then; a transaction that fails without effect leaves no state if the element shows nobody's change. |
| IpBan.Kernel.Settle | internal/action/ip_ban.go:287-311 | The settled record keeps its validity and accounts for the predecessor from above and below; a residue of zero is stored exactly when less than a millisecond of a predecessor was left. |
| IpBan.ResidueCanBeLost | internal/action/ip_ban.go:287-306 | A predecessor of one millisecond, refreshed half a millisecond after its capture, is stored in a valid state as zero. |
| IpBan.Kernel.RestorePredecessor | internal/action/ip_ban.go:391-422 | The predecessor returns for what its record and the wall clock leave, rounded up to a second; it is refused exactly if the record proves nothing or what is left exceeds the bound, and left out exactly if nothing is left. |
| IpBan.Kernel.Reckon | internal/action/ip_ban.go:391-412 | What is left of the predecessor is the less of what its record and the age of the element leave, and what the wall clock leaves. |
| IpBan.Kernel.Rollback | internal/action/ip_ban.go:350-449 | Invalid states are refused; otherwise what the element showed decides: gone, already the predecessor's, somebody else's, past its horizon, or this action's, which is undone exactly unless its predecessor's residue was stored as zero; nobody else's element is touched. |
| IpBan.Kernel.RefreshThenRollBack | internal/action/ip_ban.go:221-434 | Whatever the wall clock says, the restored predecessor ends at most one second, one millisecond and the two read-to-write latencies after its original expiry; with a steady clock it does not end early either; with no failing call a readable refresh is rolled back exactly unless the residue was lost. |
| IpBan.RestoredInTime | internal/action/ip_ban.go:391-420 | The accounting of Apply and the elapsed time of Rollback compose to that bound. |
| FilePermission.CompleteStateRecognizesMixturesIff | internal/action/file_permission.go:611-619 | After completion it recognises all mixtures exactly when not both mode and owner were changed. |
| FilePermission.FailedRollbackStrands | internal/action/file_permission.go:417-446 | A run of the model, for any change of both mode and owner: Apply, a Rollback whose chmod and chown back fail, and a Rollback without failing calls that refuses the mixture left. |
| FilePermission.FileSystem.Mutate | internal/action/file_permission.go:513-531 | Wherever chown or chmod fails, the opened inode holds a mixture of old and new and no other inode differs; the mode is only changed once the owner is the wanted one, nothing at all unless the file is as expected and was just seen through its path. |
| FilePermission.FileSystem.SetAndVerify | internal/action/file_permission.go:553-572 | Success leaves exactly the target; failure a mixture. |
| FilePermission.FileSystem.RestoreExact | internal/action/file_permission.go:533-538 | Restores only from the exact tuple it was left in. |
| FilePermission.FileSystem.RestoreRecognized | internal/action/file_permission.go:540-551 | Restores from any mixture of the two tuples, and from nothing else. |
| FilePermission.FileSystem.VerifyPath | internal/action/file_permission.go:574-591 | The path leads to the same inode with the expected tuple. |
| FilePermission.FileSystem.Apply | internal/action/file_permission.go:241-332 | An error without state leaves every inode as before; an error with state leaves a tuple that Rollback recognises; success changes exactly the opened inode to the requested tuple; with no failing call and a steady path it succeeds; a single failing change is undone and leaves no state; success was seen through the path after the change. |
| FilePermission.FileSystem.Rollback | internal/action/file_permission.go:385-462 | Success restores the recorded tuple of the recorded inode, still under its path; failure leaves a mixture, which a later rollback recognises unless the change was complete and of both mode and owner; an unrecognised tuple or a replaced file is left alone; with no failing call and a steady path a recognised tuple is restored. |
| FilePermission.FileSystem.ApplyThenRollBack | internal/action/file_permission.go:241-462 | After any number of rollback attempts, a reported success means every inode is as before the change; with no failing call one attempt suffices. |
| ProcessSuspend.HappeningKeepsCover | internal/action/process_suspend.go:225-245 | Exits, PID reuse, executions, renames and deletions of the executable, and foreign signals never leave a held process without its journal. |
| ProcessSuspend.TrimmedMark | internal/action/process_suspend.go:113 | One mark of deletion at the end of a path is dropped, and nothing else. |
| ProcessSuspend.Playbook.Apply | internal/action/process_suspend.go:142-174 | The journal is durable and the timer armed for the requested time before the stop signal; success means the process with that PID is stopped; with no failing call and nothing else happening it succeeds exactly when the PID belongs to the approved process. |
| ProcessSuspend.Playbook.Prepare | internal/action/process_suspend.go:149-163 | Only the exact approved process gets a journal, which names it and its resume time; with no failing call it gets one whenever the PID is that process. |
| ProcessSuspend.Playbook.Stop | internal/action/process_suspend.go:164-173 | Nobody but this action gains a hold, and only on the inspected process. |
| ProcessSuspend.Playbook.ResumeExact | internal/action/process_suspend.go:225-245 | A continue signal follows only an inspection that matches the record; success means the action answers for nobody any more; with no failing call a process it held is left stopped exactly when it shows another start time or path than the record. |
| ProcessSuspend.Playbook.Release | internal/action/process_suspend.go:208-245 | Resuming and then dropping the journal: with no failing call a process it held is left stopped without its journal exactly when it shows another start time or path than the record. |
| ProcessSuspend.Playbook.MovedExecutableStrands | internal/action/process_suspend.go:225-245 | A run of the model: the executable moves while the process is stopped, and the resume leaves it stopped, unsignalled and without a journal. |
| ProcessSuspend.Playbook.Rollback | internal/action/process_suspend.go:198-223 | Success means the action answers for nobody and has neither journal nor timer; with no failing call it succeeds, and leaves a held process stopped exactly when it shows another start time or path than the record. |
| ProcessSuspend.Playbook.Expire | internal/action/process_suspend.go:360-385 | After an expiry the action answers for nobody, or some call failed and its timer is due again in a minute; with no failing call a held process is left stopped exactly under the same condition. |
| ProcessSuspend.Playbook.Schedule | internal/action/process_suspend.go:345-358 | The delay is the time to resume, clamped between zero and a quarter hour; deadlines are wall-clock times, timers are not. |
| ProcessSuspend.Playbook.WriteJournal | internal/action/process_suspend.go:251-282 | A journal replaces an older one of its action without uncovering anybody. |
| ProcessSuspend.Playbook.DeleteJournal | internal/action/process_suspend.go:314-323 | A journal is removed only when its action answers for nobody. |
| ProcessSuspend.Playbook.Restart | internal/action/process_suspend.go:325-343 | Every journal gets a timer again, or the Helper does not start; when no call fails it starts. |
| ProcessSuspend.Playbook.Run | internal/action/process_suspend.go:142-385 | Over any operations, expiries, crashes and happenings: a process that the action stopped and that has not run since has a journal that names it and, while the Helper is up, a timer, unless the action saw another start time or path than it had recorded; every continue signal was meant for the process inspected. |
| WorkLimits.Limiter.AllowDeviceAndGlobal | internal/httpapi/agent_limits.go:40-93 | Admission takes from both budgets and only when both allow it; affordable work is refused only for a device without unexpired work when the table is full; the table never exceeds maxKeys+1 keys. |
| WorkLimits.Limiter.Charge | internal/httpapi/agent_limits.go:68-92 | Admission exactly when both window totals allow the cost. |
| WorkLimits.Limiter.Prune | internal/httpapi/agent_limits.go:68-83 | Pruning drops exactly what has expired and returns the cost of the rest. |
| WorkLimits.Limiter.Sweep | internal/httpapi/agent_limits.go:47-62 | A sweep leaves exactly the keys with unexpired attempts, with exactly those, and changes nothing that still counts. |
| WorkLimits.Limiter.Filter | internal/httpapi/agent_limits.go:69-76 | The in-place filter keeps the unexpired attempts in order and adds up their cost. |
| WorkLimits.SpentIsAlive | internal/httpapi/agent_limits.go:84-85 | The unexpired cost in the table is what was admitted in the window ending now. |
| WorkLimits.AnyWindow | internal/httpapi/agent_limits.go:40-93 | In every window, ending at any time, the admitted cost of a device or of all devices is within the limit of the window's last admission. |
| WorkLimits.EmptyWindow | internal/httpapi/agent_limits.go:40-93 | A window with no admission at or before its end admitted nothing. |
| WorkLimits.DevicesAddUp | internal/httpapi/agent_limits.go:89-91 | In every window the Controller-wide cost is the sum of the devices' costs. |
| WorkLimits.KeysDiffer | internal/httpapi/agent_limits.go:63-64 | The table keys of two devices, or of a device and the whole, never coincide. |
| ProofEncoding.EncodeLengthPrefixedFields | internal/identity/enrollment.go:299-312 | The loop encodes every list whose fields fit 32-bit lengths, refuses every other, and its output decodes to the fields. |
| ProofEncoding.EncodeThenDecode | internal/identity/enrollment.go:299-312 | Decoding is a left inverse of encoding on all field lists. |
| ProofEncoding.SecurityEventBatchMessage | internal/identity/enrollment.go:272-288 | The batch message decodes to version, device, count and five fields per event in order. |
| ProofEncoding.RenderedDetermines | internal/identity/enrollment.go:284 | A time rendered by section 5.6 of RFC 3339, with trailing fraction zeros dropped, determines the instant to the nanosecond. |
| ProofEncoding.MessageDetermines | internal/identity/enrollment.go:101-288 | A signed message of any of the four kinds determines its kind and every field. |
| ProofEncoding.SameEvents | internal/identity/enrollment.go:281-286 | The fields of a batch determine its events. |

## Left out

- SshRollback.Playbook.PowerLoss: covers the runs in which no journal was removed while an unsynced file could still reappear, because the code does not guard against that; the failing run is named above.
- SshRollback.Playbook.Confirm: the deadline is compared before the unlink and time may pass in between, as in the code; "before the deadline" is the time of that comparison.
- SshRollback.Playbook.Verify: what sshd reports as its effective setting is an outcome of the command, not parsed.
- SshRollback.Playbook.ReadConfig: symlink, owner and permission checks of the file and its directory, and the size limit, appear only as a failed read.
- SshConfig.HardenedMeaning: text is ASCII, and the scanner's limit on the length of a line is not modelled; the meaning is the scanner's reading, which ignores Match blocks.
- Engine.Run: times, receipt identifiers and summaries are not modelled; every playbook behaviour is a value fixed before the run, and the payload of a sealed state is taken to be compact JSON, which is what the playbooks write.
- Engine.Engine.OpensOnlyForItsAction: HMAC (RFC 2104) and SHA-256 are injective constructors, JSON validity and parameter digests uninterpreted functions.
- CommandResults.Classify: the legacy completion digests and the rewriting of stored audit receipts are not modelled.
- ReceiptCache.Helper.Handle: sockets, authentication, operations that are not cached, and checks of file ownership are left out; the digest stored with a record determines what was asked.
- ReceiptCache.Helper.Begin: the size of a record is an uninterpreted function of what was asked and answered; the numbers of runs are history, not bytes on disk.
- ReceiptCache.Helper.EvictUntilFits: removes the oldest remaining record at each step instead of sorting first, which gives the same order.
- ActionStore.Store.CompleteCommandAndAction: a completed command without a bound result is answered with a conflict unless its outcome is unknown, where the code has further compatibility branches that change no action.
- ActionStore.Store.StartActionCommand: the lookups of defence policy and policy grants are one parameter that says whether the policy allows the action.
- ActionStore.Store.Request: the approval nonce, its age, and the bound on a device's unfinished actions are one parameter that says whether the request is admitted.
- ActionStore.Store.Enroll: enrolment tokens, challenges and identities are left out.
- ActionStore.Store.Run: sweeps of stale commands, response plans, notifications and maintenance are left out; queueing is modelled as far as it concerns actions and commands.
- AuthLog.Poll: assumes that a file only grows within a generation, because a file truncated and regrown between two polls cannot be told apart; the match of a failed login is an uninterpreted function of the line's text.
- EventDelivery.Agent.LogChanges: carries that same assumption about the file that a saved checkpoint covers.
- EventDelivery.Agent.Enqueue: the byte bound of the queue and the encoding of items appear only as a failed enqueue.
- PackagePlan.ParseVersion3Plan: text is ASCII, white space and patterns are the ASCII ones; error texts are not modelled.
- PackageUpgrade.Host.Apply: dpkg's output format, precheck, preview and verification are left out; other administrators may act until APT holds its lock, but not between its end and the reading of the versions; JSON errors after the mutation do not occur.
- PackageUpgrade.Host.RunApt: an APT that was refused by its hook and reports an error is taken not to have changed anything, as the code assumes; that a failed rollback can be retried is claimed for an APT that runs its hook before it changes anything.
- IpBan.Kernel.Apply: address validation, the nftables tables and chains, and the regular expressions around an element's time are left out; the kernel keeps exact times and shows whole milliseconds.
- FilePermission.FileSystem.Apply: path approval, allowed modes and special bits appear only as refusals; nobody else changes the mode or owner of the opened inode during one operation, while the path may be changed at any moment.
- ProcessSuspend.Playbook.Run: assumes one fixed parameter set per action, that Rollback gets the state of the latest Apply, and no reboot with journals; the compatibility path for states without an action is left out.
- ProcessSuspend.Playbook.ResumeExact: who was stopped by which action is history kept for the statements, not read by the operations; a process replaced between the inspection and the signal may receive the signal; the statement is about the process inspected.
- WorkLimits.Limiter.AllowDeviceAndGlobal: requires a clock that does not run backwards; the mutex and the reuse of slices in place are not modelled.
- ProofEncoding.MessageDetermines: SHA-256 is an injective function, Ed25519 and base64 are left out.
- The unweighted window limiter, login limiter, scheduler, AI budget, scan scoring and notification outbox: their properties would only be easy copies of the ones above.
- Sockets, HTTP, TLS, mail, DNS and the web application: plumbing.
- The journald log source and the host, network and process baselines of the Agent: other producers for the same queue.
- Precheck, Preview and Verify of the permission, ban, process and package playbooks: read-only checks before and after the modelled steps.
