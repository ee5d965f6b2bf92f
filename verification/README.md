# Rustymail relay: a Dafny model

Rustymail is an SMTP server with a durable relay queue. This project models how a message becomes a
durable responsibility of the server, is leased and transmitted, and ends in one honest state, and it
proves the promises the system is built on, for every input and every run.

- **The relay as a transition system.** `Tables`, `Queue`, `Acceptance`, `LocalDelivery`, `Notification` and
  `Identity` are the transactions of the store as functions on its tables. `RelaySystem` puts the SMTP
  attempts, body readers, crashes and commits with lost answers around them: a run is any sequence of
  steps. `Moves` names the few ways a delivery row can change; `Growth`, `Ledger`, `Reports` and
  `Transactions` show that every transaction is made of such moves and keeps the cross-table invariant;
  `RelayRuns` and `AttemptRuns` do the same for every step. The results are in `Guarantees`, `Permanence`,
  `Capacity`, `Fairness`, `Backlog`, `Replay`, `Charges`, `Timekeeping` and `Integrity`; `Records`, `Assignments`,
  `Schedules`, `Notices` and `Rights` say exactly what each operation answers and leaves behind.
- **The store as an object.** `LiveStore.Store` is the imperative store: fields updated in place, loops over
  candidates and recipients, each method proved equal to the function that specifies it.
- **Files before rows.** `Staging`, `Durability`, `Maintenance` and `Verified` model staged files, syncs, renames,
  the row commit, garbage collection and verified reading, with a crash possible between any two steps.
  `Custody` runs files and relay together: the relay inserts only messages whose files are durable.
- **The wire.** `Framing`, `Transfer`, `Headers`, `Messages`, `Reception`, `Session` and `Commands` model CRLF framing
  under any chunking, transparency, header filtering, the DATA phase, the session machine and command
  parsing. Loops and objects are methods and classes proved against whole-stream specifications.
- **Authority.** `Identity`, `Permanence` and `Revocation` cover principals and the sessions that watch them.

Conventions: tables are maps and a transaction is an all-or-nothing update whose commit has a `Fate`
(confirmed, applied but unreported, lost). Clock readings, fresh identifiers, random bytes, disk space,
network replies and the outcome of every commit are parameters, so every theorem holds for all of them.
SHA-256 is an arbitrary function. Ids are 32 hex digits read as a number, which keeps their order. Accounts
are keyed by their unique login and credentials by their unique selector.

Findings while modelling:

- A revocation whose commit is applied but reported as an unknown outcome is not published
  (`change_authority` returns before it bumps the version), so a parked session of the revoked principal stays
  parked; one whose check is in flight at that moment parks when the answer arrives, and a later published
  change heals either. `Revocation.WatchfulExactly` and `Revocation.UnnoticedExactly` give the exact conditions
  over all runs, `Revocation.UnreportedRevocation` and `Revocation.UnreportedDuringCheck` are runs that break the
  promise. Only revocations, disabled accounts and send rights are published; creating a credential is not.
- A DATA command that is refused does not end the transaction; only a DATA that is let in does
  (`Session.RefusedDataKeepsTransaction`).
- A relayed submission that names one recipient both as local and as remote fails as a whole, because a message
  has one row per recipient (`Charges.SharedRecipientFails`). The server splits recipients by domain, so only a
  direct caller of `accept_relay_submission` can ask for it.
- With a buffer limit of zero `append` would not terminate; the store's option check rules it out, and
  `Staging.Sizes.Valid` states what is needed.

## Model

| member | source | states |
|---|---|---|
| Guarantees.NoUnapprovedDuplicate | crates/server/src/relay.rs:216-275 | In every run, the attempts of a delivery that sent the final dot without a recorded 4xx/5xx number at most one plus the retries recorded with duplicate consent |
| Guarantees.BodyOnlyAfterMark | crates/client/src/smtp.rs:346-361 | While body or final dot may go out, the body phase is durable for the attempt's own valid lease |
| Guarantees.FinishAcceptsEveryResult | crates/store/src/queue.rs:665-729 | Whatever an attempt ended with, recording it is never refused: only unreadable clocks or the commit can fail |
| Guarantees.UnflaggedMeansUndelivered | crates/store/src/queue.rs:693-724 | A row that is not flagged, delivered or leased has no attempt that could have delivered it, so a failure is certain |
| Guarantees.OneValidLease | crates/store/src/queue.rs:300-310 | Of all leases ever issued for a delivery at most one passes the lease check |
| Guarantees.OneOwner | crates/store/src/queue.rs:467-617 | While a lease or body reader of a delivery is alive there is no second one |
| Guarantees.RunsAreGood | crates/store/src/queue.rs:445-841 | The cross-table invariant, the ownership invariant and the accounting of dots hold in every reachable state |
| Records.StatesAreEarned | crates/store/src/queue.rs:693-729 | In every run a failed relay row has expired or carries a 5xx, a delivered one a 2xx, a deferred one no reply or a 4xx, and a failure goes unreported only if its message is no submission, has no sender or no account |
| Records.RepliesAreRecorded | crates/store/src/queue.rs:693-729 | In every run, once the final dot is answered and the attempt finished, the row carries that answer: 2xx delivered, 4xx deferred, 5xx failed, anything else uncertain, and a possibly delivered row stays uncertain unless delivered |
| Records.RefusalMeans | crates/client/src/smtp.rs:507-513 | A refusal before the body is temporary, permanent or a lost connection by its code |
| Records.FailuresMean | crates/server/src/relay.rs:216-275 | How an attempt ends without a reply: held for its contents, put off for its setup, or as a lost connection |
| Records.TickedExactly | crates/store/src/queue.rs:262-283 | An unreadable clock is refused as bad input, a jump as a changed clock, and a trusted time is the reading itself |
| Records.FinishRecords | crates/store/src/queue.rs:665-729 | A confirmed finish is refused exactly for a stale lease or an impossible result; else it writes state, code, reason and next attempt of that result into that row alone and ends the lease |
| Records.ExpireExactly | crates/store/src/queue.rs:445-462 | A confirmed expiry gives up exactly the earliest overdue waiting rows its limit allows, whenever their next attempt is due, and touches nothing else |
| Records.RecoverRecords | crates/store/src/queue.rs:467-500 | A confirmed recovery returns only leased rows without a live owner, by their phase, half an hour later, and touches nothing else |
| Records.RenewRecords | crates/store/src/queue.rs:619-633 | A renewal is let in exactly for the valid lease, a legal period and a representable end, and leaves the later of both ends |
| Records.MarkRecords | crates/store/src/queue.rs:637-647 | The body mark is let in exactly for the valid lease and changes its phase alone |
| Records.HoldRecords | crates/store/src/queue.rs:731-762 | Exactly which rows can be held, the held row and its log entry |
| Records.RetryRecords | crates/store/src/queue.rs:764-805 | Exactly which rows can be retried with which consents, the new due time and expiry, and the log entry |
| Records.CloseRecords | crates/store/src/queue.rs:808-841 | Exactly which rows can be closed, the closed row and its log entry |
| Assignments.LeasesTellTheMail | crates/store/src/queue.rs:580-597 | In every run every lease ever issued repeats the recipient and domain of its row, the sender, kind and blob of its message and its body mode |
| Assignments.ClaimAssigns | crates/store/src/queue.rs:541-597 | Every lease of a claim does so, and its row is leased to it until now plus the lease period, with a retry delay within the policy's step and jitter |
| Assignments.ClaimFills | crates/store/src/queue.rs:524-601 | A claim keeps to its limit and the free slots, and uses them up or has examined its whole batch |
| Schedules.AcceptedIsScheduled | crates/store/src/queue.rs:312-335 | Every relay row an acceptance adds is pending, untried, due at once and expires after the age queued with its message |
| Schedules.EnqueuedIsScheduled | crates/store/src/queue.rs:312-335 | The same for an enqueue |
| Schedules.ReportedIsScheduled | crates/store/src/queue.rs:312-335 | The same for a report, from the trusted time |
| Schedules.AcceptedMailIsTried | crates/store/src/queue.rs:502-617 | At any time before its age is up, N+1 claims on N due rows that find a free slot lease each relay row of an accepted message, or find its owner or its domain at its share |
| Moves.MoveKeepsRow | crates/store/src/queue.rs:864-866 | Every move of a delivery row, given by the columns it changes, keeps the row invariant, its mail and its report, and never leaves a terminal state |
| Transactions.ExpireSound | crates/store/src/queue.rs:445-462 | Expiry moves only waiting rows, to failed or (if possibly delivered) uncertain, and keeps every invariant, whatever the commit's fate |
| Transactions.RecoverSound | crates/store/src/queue.rs:467-500 | Recovery touches only leased rows without a live owner and keeps every invariant |
| Moves.ClaimScans | crates/store/src/queue.rs:541-595 | The candidate loop moves each row at most once, never one with an owner, hands out leases with the token and generation of their rows, and stays within the free slots and domain shares |
| Transactions.HoldSound | crates/store/src/queue.rs:731-762 | An administrator's hold is one logged move that keeps the invariants and never touches a leased row |
| Transactions.RetrySound | crates/store/src/queue.rs:764-805 | A retry is one logged move; leaving uncertain or hold needs a recorded duplicate consent |
| Transactions.CloseSound | crates/store/src/queue.rs:808-841 | Closing is one logged move of a possibly delivered row to closed-uncertain |
| Transactions.AcceptSound | crates/store/src/lib.rs:407-522 | Acceptance adds one message with its rows or nothing, and keeps every invariant |
| Transactions.EnqueueSound | crates/store/src/queue.rs:339-416 | The same for enqueue |
| Transactions.CommitReportSound | crates/store/src/notification.rs:235-292 | The same for a committed failure report, which also marks its failure as reported |
| Transactions.NextSound | crates/store/src/notification.rs:141-212 | Choosing the next failure suppresses, plans or puts it off without touching any state |
| Notices.NextExactly | crates/store/src/notification.rs:141-212 | The next work is none exactly if no unreported failure is due; else the first by due time and id is passed over for good exactly if nobody is to be told, planned for its message's sender, local by the sender's domain, or put off |
| Notices.FailedRecords | crates/store/src/notification.rs:216-231 | Backing off moves the time of an unreported failure by a minute, and nothing else |
| Notices.CommitReportTells | crates/store/src/notification.rs:235-292 | A new report is a generated message from nobody with one delivery, to the planned recipient, about a certain and unreported failure of that sender's submission, which is marked as reported |
| Notices.CommitReportExactly | crates/store/src/notification.rs:235-292 | With new ids it is committed exactly for such a failure, if its reader's account has room or, for a remote reader, its expiry is representable |
| Transactions.ChangeSound | crates/store/src/identity.rs:94-220 | Account, credential, quota and send-right changes keep every invariant |
| Permanence.TerminalForever | crates/store/src/queue.rs:717-841 | Delivered, failed and closed-uncertain rows keep their state in every continuation of every run |
| Permanence.OneReport | crates/store/src/notification.rs:235-292 | A reported failure keeps that one report for ever, stays failed, and no attempt of it is unresolved |
| Permanence.NoReportAboutReports | crates/store/src/notification.rs:154-168 | Every report is about a failed submission that certainly was not delivered, and no report's own delivery is ever reported |
| Permanence.LostAuthorityIsFinal | crates/store/src/identity.rs:37-41 | A principal that was current and stops being so is never current again in any run |
| Permanence.ChangesEndAuthority | crates/store/src/identity.rs:139-220 | Revoking, disabling and changing send rights end exactly the principals of that account |
| Rights.RightsExactly | crates/store/src/identity.rs:188-220 | After a send-as change exactly the account concerned holds the right for the address, and only if enabled; all other rights stay, and no other change moves one |
| Rights.PrincipalsExactly | crates/store/src/identity.rs:94-220 | Exactly which principals are current after each change |
| Rights.MaySendExactly | crates/store/src/identity.rs:43-52 | Sending needs a mail credential, a current principal and the account's own right, and nothing else |
| Rights.CurrentExactly | crates/store/src/identity.rs:37-41 | Being current needs an active account of that epoch and its own unrevoked credential of that scope |
| Rights.SubmissionsExactly | crates/store/src/lib.rs:415-444 | A request is refused as malformed or as not permitted exactly on those grounds, and then changes nothing |
| Capacity.GuardsWithinPolicy | crates/store/src/queue.rs:516-529 | Under a fixed policy, live leases and readers never exceed the concurrency in total nor the share of a domain |
| Capacity.ClaimsMeetNoDamage | crates/store/src/queue.rs:562-572 | In no run does a claim report a damaged address or a missing reference |
| Fairness.EveryDueRowIsReached | crates/store/src/queue.rs:530-610 | Rounds of the scan that resume the cursor while nothing becomes due examine every one of N due rows within N+1 rounds |
| Fairness.ReachedIsServed | crates/store/src/queue.rs:541-595 | An examined row is leased unless it has an owner, has expired, has used up its counters or its own domain is full |
| Backlog.CallsFollow | crates/store/src/queue.rs:502-617 | Two whole calls of queue_claim, with clock tick, recovery batch and expiry batch, are two such rounds |
| Backlog.ClaimsServeEveryDueRow | crates/store/src/queue.rs:502-617 | N+1 calls of queue_claim that find a free slot deal with each of N due rows: it has expired, or a call examines it and leases it or meets its live owner, its used-up counters or its full domain |
| Fairness.RecoveryCompletes | crates/store/src/queue.rs:494-500 | On a reopened store, recovery leaves no leased row as soon as a call reports fewer rows than its limit |
| Fairness.RecoveryIsBounded | crates/store/src/queue.rs:467-500 | Confirmed calls on a reopened store leave exactly the leased rows their limits together do not cover: n rows and limit L take n/L calls, rounded up |
| Replay.RetriesConverge | crates/store/src/lib.rs:440-478 | From the moment a run applied an acceptance, answered or not, every later retry with the same terms gets its receipt, every other accept or enqueue under its key is refused, nothing changes, and the key names that one message |
| Replay.ImportsConverge | crates/store/src/queue.rs:359-415 | The same from the moment a run applied an enqueue |
| Replay.AppliedImportIsRecorded | crates/store/src/queue.rs:396-415 | An applied enqueue is recorded as an import on the asked terms, whether or not its answer arrived |
| Replay.AppliedIsRecorded | crates/store/src/lib.rs:479-521 | An applied acceptance is recorded exactly as asked, whether or not its answer arrived |
| Replay.AnswerIsRecorded | crates/store/src/lib.rs:407-522 | Every acceptance answered with success is recorded exactly as asked |
| Replay.RecordedRefusesImport | crates/store/src/queue.rs:359-395 | Enqueue under a recorded key answers with that message exactly if it was an import on the same terms, and never changes anything |
| Replay.AcceptFindsItsOwn | crates/store/src/lib.rs:440-478 | Accept resolves a used key only to a message of its own kind |
| Replay.EnqueueFindsItsOwn | crates/store/src/queue.rs:359-395 | Enqueue answers only with imported messages |
| Replay.ReportFindsItsOwn | crates/store/src/notification.rs:247-259 | A report commit answers only with the report of its own failure |
| Charges.DeliverAllExactly | crates/store/src/local_delivery.rs:13-83 | Delivery to all recipients succeeds exactly when each is reachable and each account has room for its whole share, aliases included; then each account pays exactly its share |
| Charges.AcceptExactly | crates/store/src/lib.rs:485-513 | With new ids, a new request succeeds exactly when every local account can hold its copies and, with remote recipients, the expiry is representable and none of them is a local one too; otherwise nothing changes |
| Charges.SharedRecipientFails | crates/store/src/queue.rs:312-333 | A request that is accepted alone and fails as a whole once its local recipient is named among the remote ones too |
| Integrity.IntegrityCheckIsClean | crates/store/src/lib.rs:565-568 | In every reachable state the counters of the integrity check are zero, used bytes stay within quota, UIDs and event numbers are unique |
| Ledger.DeliverKeepsLedger | crates/store/src/local_delivery.rs:58-83 | One delivery uses the next UID and the next event number once and charges exactly its size |
| Transactions.ChangeLedger | crates/store/src/lib.rs:204-225 | Account changes keep used bytes, UIDs and event counters, start new accounts empty and never put a quota below its use |
| Clock.TrustedTimes | crates/store/src/queue.rs:262-283 | For any readings, trusted times never go back and stay within 60 s of the baseline plus elapsed time |
| Clock.JumpIsPermanent | crates/store/src/queue.rs:262-283 | After a detected jump no reading of that store is trusted again |
| Clock.JumpExactly | crates/store/src/queue.rs:262-283 | A jump is detected exactly at a reading that breaks one of the rules |
| Timekeeping.RunsKeepTime | crates/store/src/queue.rs:262-283 | In every run the guarded clock is what the readings taken since the store was last opened make of it |
| Timekeeping.FinishDueIsTrusted | crates/store/src/queue.rs:670-680 | In every run a finished attempt is recorded with the latest trusted time of the readings taken since the store was last opened, however the clocks jump |
| LiveStore.Store.Now | crates/store/src/queue.rs:262-283 | The guarded clock does what its specification says |
| LiveStore.Store.QueueExpire | crates/store/src/queue.rs:445-462 | The expiry loop expires exactly its batch |
| LiveStore.RecoverLoop | crates/store/src/queue.rs:477-490 | The recovery loop recovers exactly the ownerless rows of its batch, or fails on the first unrepresentable time |
| LiveStore.RecoverEachIs | crates/store/src/queue.rs:477-490 | Recovering row by row is recovering the whole set at once |
| LiveStore.Store.QueueRecover | crates/store/src/queue.rs:467-500 | Recovery prunes, recovers and moves its cursor as specified |
| LiveStore.ScanLoop | crates/store/src/queue.rs:541-595 | The candidate loop with its running domain counters computes the specified scan |
| LiveStore.CountDomains | crates/store/src/queue.rs:516-521 | The counters are the live slots of every domain |
| LiveStore.Store.QueueClaim | crates/store/src/queue.rs:502-617 | A claim recovers, expires, scans, commits and registers as specified |
| LiveStore.Store.QueueRenew | crates/store/src/queue.rs:619-633 | Renewal never shortens a lease and needs the valid one |
| LiveStore.Store.QueueMarkBody | crates/store/src/queue.rs:637-647 | The body mark needs the valid lease |
| LiveStore.Store.QueueFinish | crates/store/src/queue.rs:665-729 | Finishing maps phase and result to the specified row |
| LiveStore.Store.QueueHold | crates/store/src/queue.rs:731-762 | Holding does what its specification says |
| LiveStore.Store.QueueRetry | crates/store/src/queue.rs:764-805 | Retrying does what its specification says |
| LiveStore.Store.QueueCloseUnknown | crates/store/src/queue.rs:808-841 | Closing does what its specification says |
| LiveStore.Store.Accept | crates/store/src/lib.rs:407-522 | Acceptance with its loops over local and remote recipients does what its specification says |
| LiveStore.Store.Enqueue | crates/store/src/queue.rs:339-416 | Enqueue does what its specification says |
| LiveStore.DeliverLoop | crates/store/src/lib.rs:493-495 | The loop over local recipients delivers to all or fails with the first failure |
| LiveStore.RelayLoop | crates/store/src/queue.rs:325-333 | The loop over remote recipients inserts all rows or fails |
| LiveStore.Store.NotificationNext | crates/store/src/notification.rs:141-212 | Choosing the next failure does what its specification says |
| LiveStore.Store.NotificationFailed | crates/store/src/notification.rs:216-231 | Backing off changes only an unreported failure |
| LiveStore.Store.NotificationCommit | crates/store/src/notification.rs:235-292 | Committing a report, with its local delivery or its relay loop, does what its specification says |
| Durability.RowsNameDurableFiles | crates/store/src/blob.rs:291-344 | In every run with crashes anywhere, each committed row names a file on stable storage with the recorded length and hash |
| Custody.HalvesAreRuns | crates/store/src/lib.rs:407-522 | In a joint run of relay and files, each half is a run of its own, so what is proved of one alone holds here |
| Custody.EveryMessageIsKept | crates/store/src/lib.rs:479-521 | In every joint run, every message row of the relay's database has its contents on stable storage with the recorded size and hash |
| Custody.AcceptedMailIsKept | crates/store/src/lib.rs:479-521 | Once an acceptance was applied, answered or not, its message stays on record with the asked terms and its contents on stable storage, whatever follows |
| Durability.CommitSafe | crates/store/src/lib.rs:482-513 | A row is committed only for a file that is whole, synced, renamed and in a synced directory |
| Durability.CollectSafe | crates/store/src/maintenance.rs:94-206 | Collecting a file on an idle store breaks no row |
| Durability.CollectionWaits | crates/store/src/maintenance.rs:67-78 | While a stage or prepared message is alive, collection does nothing |
| Maintenance.Collect | crates/store/src/maintenance.rs:94-206 | The collection loop runs exactly when idle, valid and healthy, and takes exactly the old staging files and the old unreferenced blobs up to the limit |
| Maintenance.CollectDirectory | crates/store/src/maintenance.rs:117-196 | One directory: first candidates up to the limit, exact counters, and the flag for more |
| Maintenance.CollectionIsSafe | crates/store/src/maintenance.rs:208-214 | A whole collection keeps every committed row valid |
| Maintenance.CollectedAreOld | crates/store/src/maintenance.rs:117-196 | Taken files have rested for the minimum age and no row names a taken blob; a run below its limit takes all such files |
| Staging.StageIsConcatenation | crates/store/src/blob.rs:237-281 | After any appends and faults the stage is whole exactly if all succeeded; file plus buffer are the chunks, hashed and counted, and the buffer is within its limit |
| Staging.PreparedIsConcatenation | crates/store/src/blob.rs:291-316 | A prepared file is exactly the appended chunks; a poisoned stage is never prepared |
| Staging.StagedMessage.AppendBytes | crates/store/src/blob.rs:237-281 | Appending does what its specification says |
| Staging.FlushLoop | crates/store/src/blob.rs:255-276 | The buffering loop writes out exactly the whole buffers, or stops at the failing one |
| Staging.BudgetIsExact | crates/store/src/blob.rs:166-216 | Reserved bytes are the sum of the live reservations and within the temporary budget |
| Staging.ReserveExactly | crates/store/src/blob.rs:166-216 | A reservation is let in exactly if it keeps the budget and leaves both the reserved bytes and the reserved share of the disk free |
| Verified.AcceptsExactly | crates/store/src/verified.rs:43-74 | End of file is reported exactly for the recorded length and hash, however the file is read |
| Verified.EndMeansVerified | crates/store/src/verified.rs:43-74 | After any reads, verified means matching bytes, and nothing beyond the recorded size is accepted |
| Verified.VerifiedReader.ReadChunk | crates/store/src/verified.rs:43-74 | One read does what its specification says |
| Verified.CommittedBlobsVerify | crates/store/src/verified.rs:43-74 | Every committed blob reads back verified in every run |
| Framing.ConsumeSound | crates/protocol/src/lib.rs:52-76 | Frames plus buffered bytes are the input consumed, every frame is a legal line within the limit, and an error is the first offence |
| Framing.AcceptsExactlyLines | crates/protocol/src/lib.rs:52-76 | Decoding fails exactly on streams that are not legal lines followed by the start of one |
| Framing.ConsumeFrames | crates/protocol/src/lib.rs:52-76 | A stream of legal lines is taken apart into exactly those lines |
| Framing.ConsumeConcat | crates/protocol/src/lib.rs:32-37 | Decoding in pieces is decoding at once |
| Framing.LineDecoder.FeedBuffered | crates/protocol/src/lib.rs:52-76 | Feeding takes at most one line and stops at the first error |
| Framing.LineDecoder.TakeLine | crates/protocol/src/lib.rs:40-48 | A completed line is handed over without its ending |
| Framing.DecodeChunks | crates/protocol/src/lib.rs:16-90 | For every chunking, frames, leftover and first error are those of the whole stream |
| Framing.DecodersAgree | crates/protocol/src/lib.rs:384-412 | The owned and the borrowed DATA decoders agree on every line |
| Transfer.SendBody | crates/client/src/smtp.rs:425-485 | For every reading, the body goes out whole exactly when the message is sendable; only whole stuffed lines ever go out, and one read's output stays within B + B/3 + 2048 |
| Transfer.RoundTrip | crates/client/src/smtp.rs:425-485 | Output plus final dot, decoded by the receiving end, gives exactly the lines of the message without its omitted line, with nothing left over |
| Transfer.NoEarlyEnd | crates/client/src/smtp.rs:425-485 | No prefix of anything written contains the DATA terminator |
| Headers.HeaderFilter.Retain | crates/protocol/src/headers.rs:22-45 | One line through the filter, malformed lines included |
| Headers.FilterStep | crates/protocol/src/headers.rs:22-45 | The filter's two flags track the field a line belongs to: exactly the lines of private fields go |
| Headers.FieldLine | crates/protocol/src/headers.rs:22-45 | Name, colon and text make a field of that name |
| Headers.FieldLineOnly | crates/protocol/src/headers.rs:22-45 | No other line is a field |
| Headers.ContinuationLine | crates/protocol/src/headers.rs:22-45 | A blank before a text continues a field |
| Headers.PrivateNames | crates/protocol/src/headers.rs:22-45 | Return-Path always goes, Bcc and Resent-Bcc on submission, in any case, and nothing else |
| Messages.Prepare | crates/client/src/message.rs:20-83 | For every chunking the snapshot is the specified one: fields that stay, then separator and body byte for byte |
| Messages.ScannedIs | crates/client/src/message.rs:45-72 | The filtering loop computes the whole-message specification and gives up exactly on bad headers |
| Messages.PrepareIsIdempotent | crates/client/src/message.rs:20-83 | Preparing a prepared message changes nothing |
| Reception.Receive | crates/server/src/lib.rs:916-1000 | For every chunking the DATA loop stages the specified mail or fails with the first refusal, and takes no byte after the terminator |
| Reception.FillLine | crates/server/src/lib.rs:346-370 | One line is read, across reads, and not a byte more |
| Reception.ReceivedExactly | crates/server/src/lib.rs:916-1000 | A message is received exactly when terminated and admissible; what is staged is prefix, remaining fields, separator and body |
| Reception.StagedWithinBudget | crates/server/src/trace.rs:54-60 | What is staged is at most the message limit plus 2048 bytes |
| Reception.IdentifiedExactly | crates/server/src/lib.rs:1002-1063 | A submission names its author exactly if it has one unfolded From field with one mailbox and no Sender or Resent field |
| Reception.ClaimsByName | crates/server/src/lib.rs:1002-1063 | From claims its mailbox, Sender and the Resent fields are forbidden, in any case, and no other field says anything |
| Reception.MailboxReads | crates/server/src/lib.rs:1002-1063 | An address alone or in angle brackets after a plain display name is read as itself |
| Reception.RelayedIntact | crates/client/src/smtp.rs:425-485 | A relayed message is received by the next server exactly when its lines are admissible there and, on submission, name their author; it then arrives with every line that may stay, byte for byte |
| Session.Session.ApplyCommand | crates/protocol/src/lib.rs:283-348 | Applying a command does what its specification says |
| Session.Session.RoutedRecipient | crates/protocol/src/lib.rs:354-379 | Recording a routed recipient, with its duplicate search, does what its specification says |
| Session.DataCarriesItsTransaction | crates/protocol/src/lib.rs:335-347 | DATA is let in exactly when the open transaction has an accepted recipient, and carries that MAIL and the recipients the router knew and the session accepted: every one, no other, pairwise distinct, in order, within the cap |
| Session.RefusedDataKeepsTransaction | crates/protocol/src/lib.rs:335-347 | A transcript in which a refused DATA leaves the transaction open and a later DATA carries it |
| Session.RoutedExactly | crates/protocol/src/lib.rs:354-379 | A routed recipient is answered 503 exactly without an open MAIL, 550 exactly if unknown, 452 exactly if new at the cap, 250 otherwise, and only then is a new one added |
| Session.MailExactly | crates/protocol/src/lib.rs:309-333 | MAIL is answered 503 exactly before a greeting, 555 exactly for parameters after HELO, 552 exactly over the size limit, 250 otherwise; it ends any transaction and opens one only then |
| Session.OthersExactly | crates/protocol/src/lib.rs:283-334 | Every other command's answer, and whether it keeps or ends the transaction |
| Session.OnlyDataBegins | crates/protocol/src/lib.rs:283-348 | Nothing but DATA starts a message |
| Commands.MailRoundTrip | crates/client/src/smtp.rs:306-320 | The MAIL line the client prints is read back as exactly its sender, size and body mode |
| Commands.RcptRoundTrip | crates/client/src/smtp.rs:321 | The RCPT line the client prints is read back as exactly its recipient |
| Commands.LinesFit | crates/server/src/lib.rs:463 | Both lines fit the server's line limit |
| Commands.SpokenVerbs | crates/protocol/src/lib.rs:127-206 | Greetings, VRFY, NOOP and HELP are read as themselves in any case, with or without the arguments they need |
| Commands.BareVerbs | crates/protocol/src/lib.rs:127-206 | DATA, RSET, QUIT and STARTTLS are read as themselves and refuse arguments |
| Commands.ReadParameterLoop | crates/protocol/src/lib.rs:153-183 | The MAIL parameter loop reads all parameters or fails at the first bad one |
| Addresses.ParsedIsCanonical | crates/core/src/lib.rs:35-51 | What parses is stored in a form that parses to itself |
| Addresses.AddressCharacters | crates/core/src/lib.rs:35-51 | An address carries no space, control character or angle bracket |
| Addresses.LowerKeepsDomain | crates/core/src/lib.rs:20-32 | Folding case keeps a domain valid |
| Revocation.WatchfulExactly | crates/server/src/revocation.rs:19-42 | In every run a session that parks has been checked after the last authority change and is current, exactly unless such a change was applied without being reported since the check it last relied on was answered |
| Revocation.UnnoticedExactly | crates/server/src/revocation.rs:19-42 | In every run a parked session has lost its authority exactly when one of those unreported changes was of its own account |
| Revocation.NeverParksUnchecked | crates/server/src/worker.rs:113-125 | So with every authority change reported the promise holds, under any interleaving of changes, cancelled waits and checks |
| Revocation.CheckHeals | crates/server/src/revocation.rs:19-42 | After any run, a reported authority change of any account and the check it causes restore the promise |
| Revocation.UnreportedDuringCheck | crates/server/src/admin.rs:205-231 | A run in which the unreported change falls between a check's answer and its arrival: acknowledging it parks a session that is no longer current |
| Revocation.UnreportedRevocation | crates/server/src/worker.rs:113-125 | A concrete run in which a disabled account's session stays parked |

## Left out

- TLS, certificates, STARTTLS transport and authentication exchanges: thin wrappers over other libraries.
- Argon2, base64, UUID and SHA-256 internals: drawn values and an arbitrary hash function stand for them.
- Tokio scheduling, sockets and timeouts: only cancellation, lost connections and chunking are modelled, as steps.
- SQLite, SQL text, indexes and pragmas: transactions are atomic, and only the commit may leave its outcome unknown.
- Injected test faults that fail before the commit: they roll back and change nothing.
- Parsing of server replies and EHLO capabilities (`response` in crates/client/src/smtp.rs): an attempt receives the reply code as a value.
- Text of failure reports and trace headers: only their size bounds matter here.
- `recover_blob`: it only restores a missing referenced file, which no modelled run can reach.
- Path, symlink and permission checks, disk-space reporting: operating system behaviour, parameters where they decide.
- Configuration range checks: preconditions where a theorem needs them.
