# LabGate, modelled and verified in Dafny

LabGate lends lab desktops to students. A server keeps a table of machines and a table of credentials ("generations"
of the guest password); it issues and revokes a generation on a desktop over SSH, and the desktop reports back through
heartbeats and a durable queue of events. Either side may crash, and commands, replies and reports may be lost,
repeated or late.

`dafny verify dfyconfig.toml` checks the whole project.

## How the model is built

**Server.** `Tables`, `Holds`, `Reservation`, `Webhook` and `Registry` give every transaction as one function of the
tables: what commits, what aborts, what the two partial unique indexes refuse; `Outcomes` says of each what it comes to
in rows, holds, statuses, answers and audit rows, and `AuditTrail` what of it a student's history shows.
`Server.Service` is the same code over mutable tables, statement by statement, and each of its transactions is proved
equal to its function. `ServerRuns` is the automaton: every transaction and every bare read is one step, every running
checkout and expiry has a position, remote calls return anything, a commit may be lost or take effect and still be
reported as failed, a call may vanish, and any other step may fall in between. `ServerHistory` and `Delivery` state
what runs and repeated reports do to holds, versions and rows.

**Desktop.** `Desktop.Runtime` is the privileged helper, effect by effect. Every command and file operation may fail,
may take effect and still report failure, and may be the last thing the process does; another process may decommission
the desktop in between. A ghost flag records whether any effect of the running process failed, so each operation is
stated both ways: what its success means, and that without a failure it succeeds exactly under the stated condition. A
ghost trace shows that whatever happens is a history of legal single effects, each justified by what the running call
was called for: the command it carries out, the login it accepts, the session it ends. `DesktopHistory` states what all
histories keep. `OutboxQueue` and `LegacyOutbox` are the event queue and the one-time compaction of its older form,
`Codec` the text formats, `Deadline` the login deadline.

**Both.** `Joint` runs the server automaton and any number of desktops together. Commands, acknowledgements and reports
are messages that, once sent, may arrive at any later time, any number of times, or never; an issue command is taken up
only before its deadline, and what a call has taken up it may carry out until it gives up. A desktop may get a new host
key and keeps its state. `HelperRuns` shows that each call of a helper is a run of this model, from whatever world it
begins in, once its command was sent. `Availability` and `LateReports` say what the server's view of a machine implies
about the lock of its desktop, and what it does not. `Posting` joins the event queue to the webhook.

**Activity log.** `ActivityLog` is the paged audit listing.

Names of helpers follow the program. Time, random ids, random tokens, the clock readings, the outcome of system
commands, of SSH and of HTTP calls are parameters or nondeterministic choices. Email addresses are lower-cased by a
checkout, and the index on students and the startup check compare them lower-cased, as the code does.

## Model

| member | source | states |
|---|---|---|
| Holds.ConflictIsNoGeneration | internal/core/core.go:18-20 | The value stored for a conflict can never be a credential id, so no report or revoke can be about it. |
| Holds.Merge | internal/core/core.go:187-192 | A merge always leaves a hold, and a conflict absorbs every further generation. |
| Holds.Reconcile | internal/core/core.go:193-198 | A live heartbeat ends in no hold or in the conflict, never in another generation's hold. |
| Holds.MergeIsLeastUpperBound | internal/core/core.go:187-192 | In the flat order free < one generation < conflict, merge is the least upper bound of the hold and the generation. |
| Holds.MergeOrderIrrelevant | internal/core/core.go:187-192 | Two merges commute and a repeated merge changes nothing. |
| Holds.JoinOneMore | internal/core/lifecycle.go:194-198 | Merging one more row into a hold is joining one more element of a set: the order in which rows arrive does not matter. |
| Holds.JoinIsLeastUpperBound | internal/core/lifecycle.go:194-198 | The hold left by the merging loop is the least one above the old hold and above every merged generation. |
| Holds.JoinAbsorbs | internal/core/lifecycle.go:194-198 | Joining a generation that was already joined changes nothing. |
| Tables.RevokeAll | internal/core/lifecycle.go:199-201 | Revoking the current rows of a machine deletes none and leaves the machine without an unrevoked credential. |
| Tables.LocalKeepsInv | internal/store/store.go:98-103 | A transaction on one machine that makes a row unrevoked only where the unique indexes allow it keeps the whole-table invariant. |
| Tables.InvPassesStartupCheck | internal/store/store.go:98-103 | The invariant kept by every run implies the three counting checks made at startup, students compared by lower-cased address. |
| Tables.StartupCheckAsksLess | internal/store/store.go:98-103 | The startup check also accepts tables that no run reaches: an offline machine with an unrevoked credential. |
| Tables.StartupCheckCounts | internal/store/store.go:98-103 | The startup check passes exactly if no machine and no lower-cased address has two unrevoked credentials, counted, and no available machine has a hold or an unrevoked credential. |
| Tables.LowerTwice | internal/core/lifecycle.go:11 | Lower-casing is idempotent, so the address a checkout stores is the one the index compares. |
| Tables.CurrentAtMostOne | internal/migration/migrate.go:32 | The partial index on machines makes the set of current credentials of a machine empty or a singleton. |
| Reservation.ReservesExactlyFreeMachines | internal/core/checkout.go:30-54 | A reservation commits exactly for a machine that is available, visible, pinned, unheld and seen from 120 s before to 30 s after now, and a student without another unrevoked credential whatever the case of the address; the indexes cannot object to a new id. It adds exactly the row with this machine, student and expiry, occupies the machine, changes nothing else, can be confirmed at once, and a refusal says whether it is for the student or for the machine. |
| Reservation.ReserveKeeps | internal/core/checkout.go:30-54 | The reserving transaction keeps the table invariant and deletes no row. |
| Reservation.ConfirmKeeps | internal/core/checkout.go:64-82 | The confirming transaction keeps the table invariant. |
| Reservation.PrepareKeeps | internal/core/checkout.go:92-117 | Preparing a compensation keeps the table invariant even though it may make a revoked row unrevoked again. |
| Reservation.FinishKeeps | internal/core/checkout.go:122-145 | Finishing a compensation keeps the table invariant. |
| Reservation.ExpireCommitKeeps | internal/core/checkout.go:176-212 | The transaction of an expiry keeps the table invariant. |
| Reservation.PrepareHoldsTheGeneration | internal/core/checkout.go:92-117 | After a committed preparation on an unchanged identity the machine is occupied with a hold at or above the generation, and the credential is the only current one with its deadline no later than the failure, or another generation is current and the hold is the conflict. |
| Reservation.FinishFreesOnlyItsOwn | internal/core/checkout.go:122-145 | A finished compensation releases the machine only after an acknowledged revoke on an unchanged identity with nothing current, never touches another credential, and never touches a machine held for another generation. |
| Reservation.ExpireTouchesOnlyItsOwn | internal/core/checkout.go:173-212 | The commit of an expiry revokes exactly an unrevoked, unopened, due credential on an unchanged identity, changes no other row, and releases exactly when no other generation is held; each of its answers has its exact condition: still active, already revoked or not due, to be retried because address or pin changed, held, released. |
| Webhook.CredsAfterLocal | internal/core/lifecycle.go:101-141 | A report never lowers a version, never makes a row unrevoked, never moves a row, and keeps version, revocation and opening coupled. |
| Webhook.ApplyLocal | internal/core/lifecycle.go:53-213 | Every branch of the webhook is local to the authenticated machine and leaves it occupied unless nothing is held or current. |
| Webhook.DeliverKeeps | internal/core/lifecycle.go:53-188 | Any report with any token keeps the table invariant. |
| Webhook.TokenNamesOneMachine | internal/migration/migrate.go:30 | A token authenticates at most one machine. |
| Delivery.ConflictEndsOnlySafely | internal/core/lifecycle.go:70-90 | A report clears the conflict exactly when it is a heartbeat that says locked and no session and leaves no unrevoked credential; otherwise the conflict stays. |
| Delivery.HoldEndsOnlyByEvidence | internal/core/lifecycle.go:122-163 | A report clears a hold on one generation exactly when it is such a safe heartbeat, terminal evidence for that generation, or a valid live heartbeat of it; otherwise the hold stays or becomes the conflict. |
| Delivery.StrayIsHeld | internal/core/lifecycle.go:189-213 | A live report of a generation that is not current leaves the machine occupied, drained of credentials, and held at least for that generation and for every generation that was current. |
| Delivery.OpenedOnlyWhenCurrent | internal/core/lifecycle.go:101-121 | A session is recorded as opened only for an unrevoked, unopened credential of the reporting machine, and a report never changes a revoked row or another machine's row. |
| Delivery.ApplyTwice | internal/core/lifecycle.go:53-213 | On every endpoint and in every branch, applying a report again changes nothing but the heartbeat time and the audit log. |
| Delivery.DeliverTwice | internal/core/lifecycle.go:53-188 | The webhook is idempotent, authentication included. |
| Delivery.AtLeastOnceIsExactlyOnce | internal/machine/network.go:85-90 | A stream in which each event is delivered one or more times before the next leaves the same credentials, statuses and holds as exactly-once delivery. |
| Registry.EnrollKeeps | internal/core/core.go:286-316 | Enrolment keeps the table invariant and the uniqueness of names, addresses, pins and tokens. |
| Registry.RekeyKeeps | internal/core/core.go:257-285 | A rekey replaces the identity of a drained machine only and keeps the table invariant. |
| Registry.SetHiddenKeeps | internal/core/core.go:215-239 | Hiding or showing a machine keeps the table invariant. |
| Registry.EnrollTwice | internal/core/core.go:304-315 | Enrolling the same identity again returns the same token and changes nothing. |
| Registry.EnrollByMatches | internal/core/core.go:286-316 | An enrolment is decided by the set of machines that share a name, an address or a pin with the identity: none inserts it, exactly one that agrees in all three answers with its token, anything else is refused. |
| Outcomes.OpeningIsRecorded | internal/core/lifecycle.go:106-130 | A session-open or an active heartbeat of an unrevoked credential on its machine records it: version 2, opened now unless it was before, machine occupied and seen; a session-open that opens leaves the hold on it, a heartbeat settles it, any other hold becomes the conflict; the first is answered as activated, later ones as already active. |
| Outcomes.WaitingIsRecorded | internal/core/lifecycle.go:111-128 | A pending heartbeat of an unrevoked, unopened credential confirms it at version 1, occupies the machine and settles the hold. |
| Outcomes.StrayIsContained | internal/core/lifecycle.go:189-213 | Every other live report revokes all unrevoked credentials of the machine now and leaves the least hold that covers the old one, those credentials and the reported one, with the answer for a pending, a stale or an unknown generation. |
| Outcomes.EndIsRecorded | internal/core/lifecycle.go:131-186 | A report of an end revokes its own credential now, if the machine has it unrevoked, and no other; when it clears the hold, when it frees the machine, makes it offline, occupies it or leaves its status, and each answer, have their exact conditions. |
| Outcomes.EndIsLogged | internal/core/lifecycle.go:131-178 | The audit log gains a row for an end that revokes or that is of a generation the machine never had, named after the report, and a timeout as well if the credential was never opened. |
| Outcomes.EmptyBeatIsRecorded | internal/core/lifecycle.go:70-91 | A heartbeat without a generation frees a locked machine without unrevoked credentials and leaves the rows alone; unlocked, it revokes everything now and leaves the conflict. |
| Outcomes.ReportsCarryTheirStage | internal/core/lifecycle.go:21-52 | A report with a generation is accepted exactly if its id has the right form and its version is the stage it reports (1 waiting, 2 open, 3 ended); a heartbeat has to be active exactly when it says open and locked exactly when it says ended. |
| Outcomes.ReportsSayOneThing | internal/core/lifecycle.go:21-52 | Every accepted report with a generation says exactly one of: open, waiting, ended. |
| Outcomes.ConfirmsExactlyTheIntact | internal/core/checkout.go:64-82 | A confirmation commits exactly for an unrevoked, unopened credential, whatever heartbeats it has seen, on an occupied machine without a hold whose address and pin are those reserved; it changes only the version. |
| Outcomes.HeartbeatKeepsIntact | internal/core/checkout.go:73 | A pending heartbeat that arrives between reservation and confirmation keeps the confirmation possible. |
| Outcomes.ReservedIsIntact | internal/core/checkout.go:30-82 | What a reservation leaves meets everything a confirmation asks. |
| Outcomes.PreparesUnlessTaken | internal/core/checkout.go:92-117 | A preparation does nothing on a changed identity and is refused only where making the credential unrevoked again would give its student a second one. |
| Outcomes.PreparesExactly | internal/core/checkout.go:92-117 | On an unchanged identity a preparation occupies the machine, leaves the least hold that covers the old one, the generation and whatever is unrevoked there, and, if nothing else is, the credential unrevoked and due from now; it changes nothing else. |
| Outcomes.FinishesExactly | internal/core/checkout.go:122-145 | After an acknowledged revoke on an unchanged identity a finished compensation revokes the credential now and releases the machine exactly if nothing else is unrevoked or held there; otherwise it changes neither rows nor machines. |
| Outcomes.OpenedIsNotExpired | internal/core/checkout.go:165-194 | Once a session was reported open, an expiry of its credential answers that it is active and changes nothing. |
| Outcomes.EnrolsExactly | internal/core/core.go:286-316 | An enrolment commits exactly for an identity that shares nothing with any machine, with a new id and token, or that is one machine's in all three parts and no other's in any. |
| Outcomes.EnrolmentAdds | internal/core/core.go:311-314 | A new identity adds one machine with it and the answered token, offline, unseen, visible and free, and changes nothing else. |
| Outcomes.EnrolmentRepeats | internal/core/core.go:304-310 | A known identity changes nothing and is answered with the token of its machine. |
| Outcomes.RekeysExactly | internal/core/core.go:257-285 | A rekey commits exactly for an available machine without a hold or an unrevoked credential, whose identity the caller names, and an identity and token no other machine has; it stores them, makes the machine offline and unseen, and changes nothing else. A refusal names, in this order, a missing machine, another present identity, an undrained machine, or a taken identity or token. |
| Outcomes.RekeyReplacesTheToken | internal/core/core.go:276-283 | After a rekey the token answered authenticates this machine alone, and a different former one nobody. |
| Outcomes.HidesExactly | internal/core/core.go:215-239 | Changing visibility changes nothing else and is answered as a change exactly if it is one; a hidden machine cannot be reserved. |
| AuditTrail.ReservationIsShown | internal/core/activity.go:32 | A reservation adds exactly one line to the history: a web checkout of the student on the machine at the time it was asked for. |
| AuditTrail.OpeningIsShown | internal/core/activity.go:32 | Of the reports of an open session, the first on an unrevoked credential is shown as a physical login of its student, and no other. |
| AuditTrail.EndIsShown | internal/core/activity.go:32 | A report that revokes a student's credential is shown as a logout if it closes the session, as a timeout if it expires the credential unopened, and not at all otherwise. |
| AuditTrail.WaitingIsNotShown | internal/core/activity.go:32 | No other report is shown. |
| AuditTrail.ExpiryIsShown | internal/core/checkout.go:214-217 | An expiry is shown as a timeout of the student exactly if it revoked the credential. |
| AuditTrail.ConfirmationIsNotShown | internal/core/activity.go:32 | A confirmation is not part of the history. |
| AuditTrail.CompensationIsNotShown | internal/core/activity.go:32 | Neither is a compensation. |
| AuditTrail.AdministrationIsNotShown | internal/core/activity.go:32 | Nor are enrolments, rekeys and changes of visibility. |
| ServerRuns.StepKeeps | internal/core/checkout.go:17-220 | Every step of every interleaving keeps the system invariant: tables, positions of running calls, acknowledgements. |
| ServerRuns.RunKeeps | internal/core/checkout.go:17-220 | The same along every run; rows are never deleted and keep their machine and student. |
| ServerRuns.EveryRunIsSafe | internal/store/store.go:98-103 | For every interleaving from an empty store: at most one unrevoked credential per machine and per student, whatever the case of the address, no hold and no unrevoked credential on a machine that is not occupied, versions coupled, the startup check passes, and every generation ended by an expiry or a compensation was acknowledged by the desktop. |
| ServerHistory.HoldClearedOnlyByEvidence | internal/core/lifecycle.go:70-204 | Along runs, a step clears a hold exactly when it carries the evidence for it: a safe heartbeat, terminal or live evidence for that generation, or a committed end of that generation after an acknowledged revoke; every other step keeps the hold or raises it to the conflict. |
| ServerHistory.ConflictStep | internal/core/lifecycle.go:70-90 | One step ends a conflict exactly if it is a safe heartbeat of that machine. |
| ServerHistory.ConflictOutlivesTheRun | internal/core/lifecycle.go:70-90 | Along any run without a safe heartbeat a conflict stays and the machine stays occupied. |
| ServerHistory.ConflictOutlivesEveryRun | internal/core/lifecycle.go:70-90 | The same for a conflict that arose in any run from an empty store. |
| ServerHistory.AvailableOnlyByEvidence | internal/core/lifecycle.go:70-161 | Along runs a machine becomes available only on a valid report of its own that shows nothing alive, or when a compensation or an expiry ends after an acknowledged revoke behind the stored pin; it counts as seen only on a valid report of its own. |
| ServerHistory.UnseenUntilReport | internal/core/checkout.go:38 | Along every run without a valid report of its own, a machine never seen stays unseen and cannot be reserved at any time. |
| ServerHistory.NewIdentityAwaitsReport | internal/core/core.go:278-313 | In any run from an empty store, a machine just enrolled or rekeyed is offline and unseen, and stays impossible to reserve through every continuation until a valid report of its own arrives. |
| ServerHistory.IdsStayValid | internal/core/core.go:20 | Every stored credential id keeps matching the id pattern through any step. |
| ServerHistory.RunIdsStayValid | internal/core/core.go:20 | The same along every run. |
| ServerHistory.VersionFallsOnlyInCompensation | internal/core/checkout.go:111 | A step lowers a credential's version only if it is the preparation of that credential's own compensation. |
| ServerHistory.ExpiryMovesOnlyInCompensation | internal/core/checkout.go:111 | No step moves a credential's expiry except the preparation of that credential's own compensation. |
| ServerHistory.CheckoutsStartFresh | internal/core/checkout.go:28-50 | No step starts a checkout of a credential that already exists. |
| ServerHistory.VersionIsMonotone | internal/core/checkout.go:111 | Once its checkout has returned, a credential's version never decreases in any continuation. |
| ServerHistory.ExpiryIsExact | internal/core/checkout.go:157-220 | In every run from an empty store, the commit of an expiry never revokes an opened credential, never touches another credential or a hold of another generation, and releases a machine only after the desktop behind the pin that is still stored acknowledged the revoke. |
| Server.Service.ReserveTx | internal/core/checkout.go:30-54 | The reserving statements have exactly the effect of the reserving function: tables, result and error. |
| Server.Service.ConfirmTx | internal/core/checkout.go:64-82 | The confirming statements have exactly the effect of the confirming function. |
| Server.Service.PrepareTx | internal/core/checkout.go:92-117 | The preparing statements, with their merging loop, have exactly the effect of the preparing function, index conflicts included. |
| Server.Service.MergeEach | internal/core/checkout.go:104-108 | A loop over the current rows in any order computes the join of the hold with the set of generations. |
| Server.Service.FinishTx | internal/core/checkout.go:122-145 | The finishing statements have exactly the effect of the finishing function. |
| Server.Service.ExpireTx | internal/core/checkout.go:173-212 | The statements of the expiry's transaction have exactly the effect of its function, verdict included. |
| Server.Service.Webhook | internal/core/lifecycle.go:53-188 | The webhook, branch by branch, has exactly the effect of a delivery: tables, audit rows and answer; it refuses exactly an ill-formed report or a token no machine has, without effect. |
| Server.Service.EmptyHeartbeat | internal/core/lifecycle.go:70-91 | A heartbeat without a generation frees a drained locked machine or, unlocked, revokes everything and leaves a conflict. |
| Server.Service.LiveReport | internal/core/lifecycle.go:106-130 | A valid live report has exactly the effect of a delivery. |
| Server.Service.TerminalReport | internal/core/lifecycle.go:131-186 | Terminal evidence has exactly the effect of a delivery. |
| Server.Service.Unsafe | internal/core/lifecycle.go:189-213 | A live report of a generation that is not current has exactly the effect of a delivery. |
| Server.Service.EnrollTx | internal/core/core.go:286-316 | The enrolling statements have exactly the effect of the enrolling function. |
| Server.Service.RekeyTx | internal/core/core.go:257-285 | The rekeying statements have exactly the effect of the rekeying function. |
| Server.Service.SetVisibility | internal/core/core.go:215-239 | The visibility statements have exactly the effect of their function. |
| Server.Service.Step | internal/store/store.go:187-199 | Every step of the automaton is carried out by the statements of one transaction or one read. |
| Server.Service.Checkout | internal/core/checkout.go:17-87 | With any other steps in between, a password is handed out only if, at the confirming commit, the credential is unrevoked, unopened and the machine's only current one, and the machine is occupied, without a hold and still the machine that was reserved. A reservation that is refused is without effect and answered with its error; one whose commit is reported as failed is there whole or not at all. When nothing else happens, a password is handed out exactly if the issue succeeds and no commit fails; otherwise the call ends as compensated exactly if its two commits succeed, and then the machine is free exactly if the revoke was acknowledged, and else held for the generation. |
| Server.Service.AwaitConfirm | internal/core/checkout.go:64-86 | A confirming commit that is reached and reported refuses the password only if the credential is revoked or opened, or the machine is held, free or another one by then. |
| Server.Service.Compensate | internal/core/checkout.go:88-150 | A compensation, with any other steps in between, ends the call with one of its two errors; when it completes after an acknowledged revoke on an unchanged identity, the credential is revoked, and the machine is available and free unless another generation is current or held. When nothing else happens to an intact reservation, it completes exactly if both commits succeed. |
| Server.FinishSettles | internal/core/checkout.go:122-149 | The committed end of a compensation leaves exactly that state. |
| Server.Service.Expire | internal/core/checkout.go:157-220 | With any other steps in between, an expiry reports a revocation or a release only of an unopened credential that is revoked now, on a machine behind whose stored pin the desktop acknowledged the revoke; that a credential is already released only if it is gone, revoked or not due; that it is active only if it is unrevoked and opened. It fails only with its commit, retries without an acknowledgement, and, for a credential that is not due, changes nothing and says why. When nothing else happens, a due credential whose revoke is acknowledged is revoked and its machine freed exactly unless held for another generation. |
| Server.ConfirmGrants | internal/core/checkout.go:64-86 | Whenever the credential is unrevoked and unopened on an unchanged, occupied machine without a hold, the confirmation commits and its tables justify handing out the password. |
| DesktopHistory.HistoryKeepsInv | internal/machine/files.go:224-247 | At every point of every history: unlocked implies a live untombstoned record, a revoked record is tombstoned, events are about ended generations or the recorded one, and are grouped. |
| DesktopHistory.UnlockedOnlyForLiveGeneration | internal/machine/lifecycle.go:73-131 | With any failure and a crash between any two effects, an unlocked account implies a durable pending or active record of a generation without a tombstone. |
| DesktopHistory.StagesNeverGoBack | internal/machine/files.go:224-247 | Along every history a generation only moves from unseen to pending to active to ended. |
| DesktopHistory.RevokedForever | internal/machine/lifecycle.go:73-131 | After an acknowledged revoke the generation is never pending or active again, and the account is never unlocked for it, even if its own issue arrives later. |
| DesktopHistory.NeverReturns | internal/machine/files.go:228-235 | A generation that left the record never returns to it pending or active. |
| DesktopHistory.GroupedIsBlocks | internal/machine/lifecycle.go:198-273 | Publishing under the record's rules, event by event, yields one contiguous block per generation with at most one opening, at its start. |
| DesktopHistory.EventsFormBlocks | internal/machine/lifecycle.go:198-334 | The events published over any history form one block per generation, with at most one session-open, first in its block. |
| DesktopHistory.EventIdsAreValid | internal/machine/files.go:262-264 | Every event published in any history is about a generation whose id matches the pattern. |
| DesktopHistory.SessionsEndLawfully | internal/machine/lifecycle.go:246-336 | Along a history in which an active session changes only for a lawful reason, a session without such a reason stays exactly as it was. |
| DesktopHistory.RetiredStaysLocked | internal/machine/lifecycle.go:59-63 | While the decommission marker exists, a desktop that is locked and whose lock holder has not passed the marker check stays locked in every continuation. |
| Desktop.Runtime.Account | internal/machine/lifecycle.go:26-132 | A successful issue leaves a fresh pending record of exactly that generation and deadline and an unlocked account with exactly the password that was sent, only for an untombstoned generation, a deadline in the window and no session; a successful revoke leaves a locked account and a tombstoned revoked record; without a failure both succeed exactly when the arguments, the deadline, the sessions, the tombstones and the record allow it; an active session is never touched, no event is published, and a decommissioned sealed desktop stays sealed. All its effects rest on its own command alone, an issue's only if its deadline was ahead. A command that is not accepted leaves record, lock, marker and tombstones exactly as they were. |
| Desktop.Runtime.IssueAccount | internal/machine/lifecycle.go:33-111 | The same for an issue whose arguments and password are read. |
| Desktop.Runtime.RevokeAccount | internal/machine/lifecycle.go:54-131 | The same for a revoke whose argument is read. |
| Desktop.IssuableIsWritable | internal/machine/lifecycle.go:79-81 | The issues a desktop accepts are exactly those whose pending record its record's rules allow once the account is secured. |
| Desktop.RevocableIsWritable | internal/machine/lifecycle.go:113-131 | The revokes it accepts are exactly those without an active session whose revoked record the rules allow after the tombstone. |
| Desktop.AskedExactly | internal/machine/lifecycle.go:38-53 | For any password the desktop can read, an issue needs nothing but the configured length and a deadline from the next second to 86460 seconds ahead. |
| Desktop.LoginsAreDecided | internal/machine/lifecycle.go:209-223 | A login of a pending generation on an open account is in time or late by the deadline alone. |
| Desktop.ForeignExactly | internal/machine/lifecycle.go:247-250 | A close is foreign exactly if the marker it can read was written by a login of another context. |
| Desktop.ClosesOnce | internal/machine/lifecycle.go:265-271 | Closing a session publishes its close; once it is closed and its marker gone, no further close publishes anything; a close cut off before it removed the marker is made up for by the next. |
| Desktop.Runtime.IssueLocked | internal/machine/lifecycle.go:59-111 | The same for the part of an issue under the lock; on a decommissioned desktop it changes nothing at all. |
| Desktop.Runtime.OpenAccount | internal/machine/lifecycle.go:92-111 | Rotating the password and unlocking touches neither record nor tombstones, succeeds only with the account confirmed unlocked, and fails only on a failed operation. A failure that is not a crash has commanded the lock last, unless only the recovery note could not be removed. |
| Desktop.Runtime.RevokeLocked | internal/machine/lifecycle.go:113-131 | The same for the part of a revoke under the lock; it never unlocks and refuses an active or different live generation. |
| Desktop.Runtime.WriteState | internal/machine/files.go:224-247 | Replacing the record buries a generation before it leaves and a revoked one before it is recorded, refuses to displace a live generation, and either leaves the old record or the new one. The new record carries the clock reading of the write. |
| Desktop.Runtime.Bury | internal/machine/files.go:206-223 | A tombstone is added, never removed; success means it is there. |
| Desktop.Runtime.Secure | internal/machine/lifecycle.go:82-85 | Securing may fail at any command, never unlocks, and succeeds only with the account confirmed locked. |
| Desktop.Runtime.FailSecure | internal/machine/lifecycle.go:180-185 | Failing safe touches only the lock, the marker and the recovery note and always commands the lock, in a process that still runs; without a failure it leaves a locked account, no marker and a note. |
| Desktop.Runtime.PamOpen | internal/machine/lifecycle.go:198-245 | A login succeeds only for a pending generation before its deadline on an unlocked account and leaves the marker and an active record with the same deadline; without a failure it succeeds exactly then and publishes exactly the opening; a second open changes nothing about the session; a late one locks, ends the generation and reports exactly the timeout. The session becomes active only on a login accepted before the deadline. Without a failure, a login that is refused leaves a locked account without a marker, unless a session is active. |
| Desktop.Runtime.OpenSession | internal/machine/lifecycle.go:224-245 | The steps of a login publish at most one opening, and only after the active record is durable. |
| Desktop.Runtime.ExpireAtLogin | internal/machine/lifecycle.go:212-223 | A late login publishes the timeout only after the revoked record is durable. |
| Desktop.Runtime.PamClose | internal/machine/lifecycle.go:246-273 | A close of another context leaves record, marker, lock and events alone; any other successful close leaves a locked account, a revoked record and no marker, and, without a failure, publishes the close exactly once unless everything was closed before. Without a failure, every close that is not of another context leaves a locked account without a marker, with or without a record. |
| Desktop.Runtime.Cleanup | internal/machine/lifecycle.go:277-336 | An active session ends only at boot or when no session is seen 120 seconds or more after the last change; a success ends every generation that is due, with its event, and at boot leaves the account locked with nothing live on record. Without a failure, a cleanup that has nothing to end leaves everything as it was; one that cannot tell whether a session exists only leaves a note; one that finds no record or a clock that went back locks; it is refused only for a clock that went back or an unknown session. |
| Desktop.CleanupsAreDecided | internal/machine/lifecycle.go:277-336 | What a cleanup decides: an end exactly for a generation that is due, abandoned or there at boot; nothing for a pending generation before its deadline and for 120 seconds after a session's last change. |
| Desktop.Runtime.LogInAndClean | internal/machine/lifecycle.go:303-315 | As long as the clock does not go back while a login is handled, a session accepted at some second is left exactly as it is by every cleanup, unless at boot, in the 120 seconds from then. |
| Desktop.Runtime.Heartbeat | internal/machine/network.go:103-149 | A posted heartbeat reports exactly the record on disk, the true lock state and the sessions seen, and without a record only a locked account with no marker; without a failure it is posted exactly when the sessions are known or the record is active. Without a failure it leaves a desktop with a record as it was and locks one without. |
| Desktop.Runtime.Queue | internal/machine/files.go:261-308 | An event is published at most once per call and only where the record allows it. |
| Desktop.Runtime.PassCheck | internal/machine/lifecycle.go:59-63 | Only an issue that finds no decommission marker under the lock may unlock. |
| Desktop.Runtime.Uninstall | internal/machine/uninstall.go:97-133 | Once the boot cleanup of an uninstall has succeeded, the desktop is decommissioned and sealed, whatever other helpers do meanwhile, including issues that were already waiting for the lock; success also means no session, no marker and no recovery note at the check. It is refused while a session is seen; without a failure its cleanup succeeds, and it succeeds exactly if no session, marker or note is found at the check. |
| Desktop.Runtime.Others | internal/machine/lifecycle.go:54-63 | Any number of other helpers, in any order, failing and crashing anywhere, keep a decommissioned sealed desktop decommissioned and sealed, and leave an active session as it was unless its end was warranted by a close that is not of another context, a boot cleanup, or a cleanup that saw no session 120 seconds or more after the last change. |
| Desktop.Runtime.TraceIsWarranted | internal/machine/lifecycle.go:73-131 | Every single effect of a helper is legal, brings a generation into the record or unlocks the account for it only on a command that was taken up with that deadline, makes a session active only after a login before the deadline, and ends an active session only for a lawful reason; the effects of the running call rest on what that call itself was called for. |
| OutboxQueue.StaircaseCollapses | internal/machine/network.go:60-100 | Deliveries that never skip ahead and never go back by more than a repeat are, repeats dropped, exactly the positions in order. |
| OutboxQueue.ReceivedIsPrefix | internal/machine/network.go:60-100 | What such deliveries bring is a prefix of what was published. |
| OutboxQueue.FirstIsOldest | internal/machine/network.go:56-72 | The first name of a directory listing is the oldest event that remains. |
| OutboxQueue.Outbox.Queue | internal/machine/files.go:261-308 | With a crash or a failure at either write, the queue gains exactly the event or nothing, under the number after the last one ever persisted; without a failure it gains the event exactly unless the numbers are used up. |
| OutboxQueue.Outbox.Highest | internal/machine/files.go:270-299 | The scan over the files never finds a number above the persisted counter, so the counter alone is the last number used. |
| OutboxQueue.Outbox.Entries | internal/machine/network.go:56-72 | Listing by name yields the remaining events in publication order. |
| OutboxQueue.Outbox.Flush | internal/machine/network.go:50-102 | A flush, with other processes queueing during every post, keeps the queue valid, loses and reorders nothing, on success has removed everything that was listed, fails only on a failed operation, and does nothing exactly while another flush runs. |
| OutboxQueue.Outbox.Send | internal/machine/network.go:72-99 | One event is removed only after its acknowledgement, and only the oldest; without a failure it is removed. |
| OutboxQueue.Outbox.DeliveredThenRemaining | internal/machine/network.go:85-90 | At every moment the events received, repeats collapsed, are a prefix of the published ones ending at the first remaining file or right behind it; the removed events followed by the remaining ones are all that was published, under increasing numbers. |
| LegacyOutbox.Host.Migrate | machine-setup/labgate-common.sh:1203-1281 | One attempt, killed or failing anywhere: every affected generation is still in an old file, the journal or the record, or has both its tombstone and its close event; a successful attempt leaves no old file and no journal; without a failure an attempt succeeds exactly unless the journal names a generation twice, and no such journal is ever written. |
| LegacyOutbox.Host.Compact | machine-setup/labgate-common.sh:1251-1281 | After the journal is durable it stays until every generation in it is tombstoned and reported closed. |
| LegacyOutbox.Host.Collect | machine-setup/labgate-common.sh:1215-1249 | The journal names exactly the generations of the old journal, the old files and the record, each once. |
| LegacyOutbox.Host.CloseAll | machine-setup/labgate-common.sh:1262-1265 | A generation is reported closed only after its tombstone; success means all of them are done. |
| LegacyOutbox.Host.Archive | machine-setup/labgate-common.sh:1267-1273 | Old files leave one by one; those that remain are unchanged. |
| LegacyOutbox.Host.MigrateUntilDone | machine-setup/labgate-common.sh:1199-1281 | After any number of killed or failed attempts, with any other helpers running between them, a successful one has tombstoned and closed every generation that the old files or the journal named, and the one that was on record too, unless a helper replaced that record meanwhile; then it is tombstoned. |
| Codec.SplitUndoesJoin | internal/machine/files.go:184 | Splitting recovers the fields of every line whose fields avoid the separator. |
| Codec.JoinUndoesSplit | internal/machine/files.go:184 | Every text is the join of the fields it is split into, and none of them holds the separator. |
| Codec.TimesAreExact | internal/machine/files.go:188-195 | A time is accepted exactly as at most twelve digits, leading zeros included, of a positive number. |
| Codec.ReadUndoesPrint | internal/machine/files.go:183-198 | Reading the state file recovers every record that was printed into it. |
| Codec.RecordsAreExact | internal/machine/files.go:183-198 | A state file is read as a record exactly if it is one line of that record's five fields, with the version of its phase. |
| Codec.MarkerKeyUndoesText | internal/machine/lifecycle.go:247-249 | Reading the PAM marker recovers the context that wrote it. |
| Codec.MarkersAreExact | internal/machine/lifecycle.go:247-249 | A marker belongs to a context exactly if it is the text some login of that context writes. |
| Codec.FlushReadsWhatQueueWrote | internal/machine/network.go:77-84 | The flush recovers every event the queue wrote. |
| Codec.EventsAreExact | internal/machine/network.go:77-84 | An event file is accepted exactly for a well-formed generation with the version its endpoint reports. |
| Codec.NamesSortLikeNumbers | internal/machine/files.go:307 | Lexicographic order of the 18-digit names equals the order of the numbers up to the largest sequence. |
| Codec.NamesListInPublicationOrder | internal/machine/network.go:56-72 | The one listing of event files sorted by name is in publication order. |
| Codec.OutboxListsInPublicationOrder | internal/machine/network.go:56-72 | Any listing of the files of an outbox, sorted by name, is in publication order, at any moment. |
| Codec.IssueArrivesIntact | internal/machine/network.go:150-169 | The dispatcher and the helper recover exactly the generation, deadline and password of the command and input the server sends. |
| Codec.RevokeArrivesIntact | internal/machine/network.go:155-157 | The dispatcher and the helper recover exactly the generation of a revoke command. |
| Codec.DispatchIsExact | internal/machine/network.go:150-169 | The dispatcher runs nothing but the account helper, and that exactly for a revoke of a well-formed generation or an issue of one with a deadline in digits and a readable password. |
| Codec.PasswordsAreExact | internal/machine/lifecycle.go:13-25 | A password is read exactly from one line of five to 128 allowed characters. |
| Deadline.DeadlineAccepted | internal/core/checkout.go:22-61 | For every configured lifetime the truncated deadline passes the window check on any clock from 60 s behind to 59 s ahead of the reservation. |
| Deadline.MarginsAreTight | internal/machine/lifecycle.go:38-40 | One second beyond either margin, some configured lifetime is refused. |
| Deadline.LoginsEndBeforeExpiry | internal/machine/lifecycle.go:208-212 | On a common clock, every login before the desktop's deadline is strictly before the server's expiry. |
| Joint.TakeKeeps | internal/core/provision.go:15-18 | Every step of server, desktop or network keeps the joint invariant: what the server can have learned is true of the desktops, a live record carries the deadline that was sent to that desktop, and an unrevoked credential is on the machine with the pin it was reserved for. |
| Joint.OpeningReported | internal/core/lifecycle.go:111-115 | The server records an opening only on a report from the very desktop the generation was reserved on, and only of a generation that was active on it. |
| Joint.OpenedWasActive | internal/machine/lifecycle.go:224-245 | A generation counts as having been active on a desktop only if, at some moment of the run, that desktop's record was active for it. |
| Joint.BeatIsGenuine | internal/machine/network.go:139-148 | A heartbeat says what the desktop observed, and the server accepts it exactly when a session is seen just for an active record and the account is locked just for a revoked one. |
| Joint.BeatsAreExact | internal/core/lifecycle.go:34-52 | The heartbeats the server accepts are exactly those of coherent observations: a session just for an active record, the lock just for a revoked one. |
| Joint.EventsAreExact | internal/core/lifecycle.go:25-33 | The other reports it accepts are exactly those with the generation and version of some event of an outbox. |
| Joint.EventIsGenuine | internal/machine/network.go:81-87 | Every event published in any history is posted truthfully and in a form the server accepts. |
| Joint.EveryJointRunIsSafe | internal/core/checkout.go:121-213 | For every joint run with late, repeated, reordered and lost messages and replaced host keys: a generation ended by an expiry or a compensation has ended on its desktop; an unlocked desktop runs a generation that the server issued to exactly that desktop, with the deadline it sent, and has not ended; and the server records a session only if, at an earlier moment of the run, it was active on the desktop the generation was reserved on. |
| Joint.EndedStaysDead | internal/machine/lifecycle.go:73-131 | A generation the server ended stays dead on its desktop in every continuation, late and repeated issue commands and new host keys included. |
| Joint.TerminalEvidenceIsTrue | internal/core/lifecycle.go:131-141 | When terminal evidence closes a generation on the server, the generation has reached its last stage on the desktop behind the stored pin. |
| Joint.ReleasedMeansDead | internal/core/checkout.go:138-213 | When an expiry or a compensation makes a machine available, the generation it ended has reached its last stage on the desktop behind the stored pin. |
| Joint.LoginsPrecedeExpiry | internal/machine/lifecycle.go:208-245 | In every joint run, every session that was active on a desktop had been logged into in a second that lies, to its last millisecond, before the expiry the server sent to that desktop and still stores, unless the checkout was compensated. |
| Joint.ExpiryStands | internal/core/checkout.go:111 | In every joint run, the expiry stored for an issued generation is the one its deadline was computed from, unless the compensation of its checkout was prepared in that run. |
| HelperRuns.HelperIsJoint | internal/machine/lifecycle.go:26-132 | Whatever the running call of a helper has done since it began can be played in the joint model as steps of its desktop, from any world in which the desktop is as the call found it and the command the call carries out is in hand, the revoke sent or the login accepted; earlier calls and their commands do not matter. |
| HelperRuns.HistoryIsJoint | internal/machine/lifecycle.go:26-132 | The same for any stretch of any history, from any of its states. |
| HelperRuns.IssueIsGranted | internal/machine/lifecycle.go:38-40 | The deadline check that an issue passes is the one under which the joint model lets its command be taken up, and taking it up is all the issue relies on. |
| HelperRuns.RevokeIsGranted | internal/machine/lifecycle.go:54-58 | A revoke relies only on a revoke command that was sent to one of the desktop's pins. |
| HelperRuns.RevokeIsAcknowledged | internal/machine/lifecycle.go:113-131 | A revoke that the helper carried out can be acknowledged to the server, under whichever pin of the desktop it was sent to. |
| HelperRuns.NewKeyKeepsTheDesk | machine-setup/setup-machine.sh:597-602 | A desktop whose host key is replaced keeps its state and the commands sent to it, and is behind both pins. |
| HelperRuns.LoginIsGranted | internal/machine/lifecycle.go:208-212 | A login that finds a pending generation before its deadline is one the joint model accepts, and relies on nothing else. |
| HelperRuns.LastEffectWasEnabled | internal/machine/lifecycle.go:26-132 | Each single effect of a helper is an enabled step of the joint model, whatever else happens between two effects of its call. |
| Availability.StaysLockedExactly | internal/machine/lifecycle.go:38-111 | In every reachable joint state, a desktop whose clock shows a given second and does not go back stays locked, whatever it still does with the commands sent to it and even if it is set up again, if and only if it is locked and every generation issued to it has a tombstone, is active behind a lock, or is past its deadline with no call left that took it up before. |
| Availability.AvailableStaysLockedExactly | internal/machine/network.go:147-148 | The same for the desktop behind the pin stored for an available machine. |
| LateReports.AvailableButUnlocked | internal/machine/network.go:147-148 | Available does not imply locked: a run of twenty-four steps ends with the machine available, free and without an unrevoked credential while its desktop is unlocked. |
| LateReports.SampleRun | internal/machine/network.go:147-148 | The same run with every name spelled out. |
| Posting.RepeatsCollapse | internal/machine/network.go:85-90 | However often and at whatever times positions of the event log are posted before the next one, the tables end as if each had been posted once, at its first time. |
| Posting.OutboxPostsExactlyOnce | internal/machine/network.go:60-100 | Whatever an outbox has delivered, its crashes and lost acknowledgements included, has left the server's tables as exactly-once, in-order delivery of the oldest published events leaves them: those of the removed files and at most one more. |
| ActivityLog.NewerIsTotalOrder | internal/core/activity.go:80 | Descending time, then descending id, is a strict total order. |
| ActivityLog.ListingIsUnique | internal/core/activity.go:80 | A set of rows has only one listing. |
| ActivityLog.SelectsNothing | internal/core/activity.go:48-58 | A pair of filters selects no event at all exactly for web timeouts and physical checkouts. |
| ActivityLog.MatchesTheWanted | internal/core/activity.go:48-66 | The rows that match are exactly those with a student and a listed event, of the address asked for whatever its case, the source and the action. |
| ActivityLog.RestIsOlder | internal/core/activity.go:79 | What is left after a page is exactly what is older than its last row: the cursor neither loses nor repeats a row. |
| ActivityLog.CursorFalls | internal/core/activity.go:79 | Each cursor is strictly older than the one before it. |
| ActivityLog.PageStep | internal/core/activity.go:79-108 | The pages shown so far, then the next page, then what its cursor leaves, account for every row that was there when the walk began, in order, whatever arrived meanwhile. |
| ActivityLog.PageCursor | internal/core/activity.go:103-108 | The cursor of a page that is not the last names its last row and leaves exactly what the page left, which is less than before. |
| ActivityLog.ArrivalsAreInvisibleExactly | internal/core/activity.go:79 | Rows that arrive leave a continuation unchanged if and only if none that matches is older than its cursor; before the first page, if and only if none matches. |
| ActivityLog.ArrivalsHideNothing | internal/core/activity.go:79 | Whatever arrives, the rows there were before remain to be shown exactly as they did. |
| ActivityLog.AuditLog.Activity | internal/core/activity.go:34-112 | A request is refused exactly for an unknown filter, an address of more than 254 characters or a bad cursor. Otherwise every entry is of the student, source and action asked for and shows its row's student, machine and the meaning of its event; every such row with a student and a listed event that the cursor leaves is on the page or older than all of it; the page is sorted, has at most fifty entries, and a cursor at the last one exactly when rows are left. |
| ActivityLog.AuditLog.FollowAll | internal/core/activity.go:59-110 | With any number of rows of any times arriving between pages, following the cursors ends and shows, newest first and each at most once, exactly the matching rows that were there at the start or arrived while the cursor was still newer than they are; none that arrived if all of those are later than all there was. Every entry is of the student, source and action asked for, and every such row there was is shown. |

## Findings

- "The server shows the machine as available" does not imply "the desktop is locked": a safe heartbeat may free a
  machine while an issue command is still under way, because heartbeats are posted after the lock is released
  (`internal/machine/network.go:147-148`). `LateReports.AvailableButUnlocked` is the run;
  `Availability.StaysLockedExactly` says exactly when a desktop is certain to stay locked.
- `ServerRuns.EveryRunIsSafe` is stronger than the startup check: the check looks at available machines only, the
  invariant also covers offline ones and the coupling of versions (`Tables.StartupCheckAsksLess`).
- Audit rows do not arrive in the order of their times: an expiry takes its time before it waits for SSH
  (`internal/core/checkout.go:165-217`), a checkout before it waits for the transaction. A row that arrives during a
  walk through the activity log is shown in it if and only if it is older than the cursor at that moment
  (`ActivityLog.ArrivalsAreInvisibleExactly`); otherwise the walk skips it, even if its time is not the newest.

## Left out

- Sweep (`internal/core/checkout.go:230-277`): its selection of four due credentials and its counters; every credential
  it selects goes through Expire, which is modelled. Its fairness is not claimed.
- The domain check and the choice of the password in a checkout, and the format checks of an enrolment's name, address
  and pin: the model starts from well-formed values.
- The SQL engine: tables are maps, a transaction is one atomic method. Lower-casing folds the letters A to Z; other
  letters, which the database and the code fold differently, are not modelled.
- Ids, tokens and detail texts of audit rows.
- The machine list shown to students and administrators, pairing of command-line clients, sessions, OIDC, the web and
  terminal interfaces, and the installer.
- Transport: SSH and HTTP calls deliver, fail, or deliver without an answer; the server's own check of the password
  alphabet is a subset of the desktop's and is not repeated.
- A connection made under an old host key: in `Joint` a message sent to any pin a desktop ever had may still arrive.
- How a desktop comes by its token: in `Joint` a report authenticated by a machine's token comes from the desktop behind
  that machine's pin, as setup arranges.
- System commands: securing the account, preparing the home and reading sessions may fail; a success means what the
  code checks after it.
- PAM calls for other users and of other types, which return at once without touching anything.
- Rewriting of PAM files, backups and unit files in an uninstall; the model follows the marker, the cleanup and the
  verification.
- Walks over file permissions; a file that fails them is unreadable in the model.
- Power loss after a rename whose directory was not synced: a completed rename is durable in the model.
- Clock readings are parameters; nothing relates two readings unless a member says so.
- Desktop.Runtime.Others: does not run a flush between helpers, because a flush touches only the queue, whose own
  methods let other processes queue at every point.
- The encoding of the activity cursor as base64 and JSON, the check for unknown or repeated query parameters, and the
  reading of a filter's text: a decoded cursor and filter are parameters.
- The lifetime as a fractional number of minutes: the model takes whole milliseconds.
- JSON encoding of reports.
- Removal of the decommission marker by a new setup: it appears only as a legal effect of `DesktopHistory`.
