# MailHook: a verified model of its protocols

MailHook is an IMAP gateway: it watches mailboxes, runs every new message through a set of scanners, decides what the results mean together, and moves, deletes or flags the message while keeping a database row in step with it. This project models the parts of it that are hard to get right, and proves what they promise. `dafny verify dfyconfig.toml` checks everything.

The concurrent parts (listener, scanner fan-out, feed refreshes, bulk actions) are labelled transition systems: a schedule is any sequence of labels, a label that is not enabled does nothing, and so a theorem about all label sequences is a theorem about all interleavings. What servers, databases, scanners and clocks answer is carried by labels and parameters or chosen nondeterministically, so it is arbitrary. The parts that the program writes as loops over mutable state are classes and methods, each tied to a specification function or to a run of the transition system.

| file | what it models |
|---|---|
| `ListenerProtocol.dfy` | the dispatch protocol of one mailbox: in-flight set, two lossy channels, dispatch and scan semaphores, workers, reconnects, the recovery scan |
| `ListenerSafety.dfy` | what holds in every interleaving of it |
| `ListenerCode.dfy` | the loops of the listener, each shown to be a run of the protocol |
| `ListenerLimits.dfy` | exactly when a message is dispatched again and when listener workers overlap, and which stronger claims fail |
| `ListenerRecovery.dfy` | the recovery scan beside the listener: what it can hand out, and exactly when the two overlap |
| `ListenerRounds.dfy` | the rounds of `fetchUnseen`: what one adds, and exactly when the loop ends |
| `ListenerProgress.dfy` | what the listener gets done, and what interruptions and full capacities do |
| `FanOut.dfy` | one goroutine per scanner, panics included, and the result channel |
| `Verdict.dfy`, `VerdictLaws.dfy` | the verdict engine and its laws |
| `VerdictEvidence.dfy` | what it decides, said of the scan results in plain values |
| `ImapActions.dfy` | MOVE, delete and flag with retries over a server that may act and still report an error |
| `Process.dfy` | one message through the pipeline: rows, IMAP commands, audit entries, and how they agree |
| `Feeds.dfy` | the flat threat index beside the per-feed sets, with failing and overlapping refreshes |
| `BulkAction.dfy` | grouping, semaphore, outcome channel and tally of a bulk action |
| `RetroSweep.dfy` | keyset paging over a table that the sweep itself changes |
| `LoginLimiter.dfy` | the login rate limiter over whole runs |
| `Proofpoint.dfy` | the Proofpoint link decoders |
| `ClamAv.dfy` | the INSTREAM framing and its reader |
| `MimeBudget.dfy` | size budgets of the parser, URL extraction, the merge of QR URLs |
| `Keys.dfy`, `Migration.dfy` | the dedup key, and its crash-safe rebuild |
| `Options.dfy` | an optional value |

Results that a reader of the code might not expect:

- At-most-once dispatch fails within one connection even with an honest server, no dropped signal and every STORE in full effect (`AtMostOnceFails`). It holds exactly as long as one of two guards does: a round can dispatch a message if and only if it is neither in flight nor flagged \Seen (`RoundDispatchesExactly`), and a second dispatch needs a consumed confirmation followed by a SEARCH that still finds the message unflagged (`RedispatchNeedsUnmarked`).
- Across a reconnect two listener workers can hold the same message (`ReconnectAllowsOverlap`); a new connection keeps them apart if and only if no unconfirmed worker is left over (`OverlapExactly`), and with an honest server if and only if every leftover worker's message is flagged already (`HonestOverlapExactly`).
- The recovery scan can hand out a message that a listener worker holds if and only if the message has no row when the scan looks (`RecoveryOverlapsExactly`, with `RecoveryAllowsOverlap` as a reachable instance).
- `fetchUnseen` need not end: an unflagged message without a body keeps it going for ever (`EmptyMessageNeverEnds`). With the same messages listed again it ends at the next search if and only if no listed message outside the in-flight set is empty (`LoopEndsExactly`).
- A move or an expunge can take effect and still be reported as failed. The row then goes back to the inbox although the message is gone from there, and this happens exactly if the command was cut off after it acted (`SettledExactly` in the contract of `Pipeline.Process`); for a move the existence check must have failed as well.
- A \Seen flag means that some onEmail call returned, not that the message was scanned (`SeenWithoutScan`, `SeenOnlyAfterScan`).
- A panic after the row is written is recovered by a second insert. It leaves a second row exactly when the first one has followed its message into quarantine, and a panic between row and action leaves a row with the status of a decision that was not carried out (`SecondRowExactly` and `InAgreement` in the contract of `Pipeline.Process`).
- More evidence lowers a decision in exactly one family of cases (`MonotoneExceptFailClosed`, `FailClosedIsNotTotal`).
- `ProcessBackfill` documents that its rows have source "backfill". The whitelist bypass leaves the column at its default, so this holds of a new row exactly when the run did not take the bypass (an `ensures` of `Pipeline.Process`).
- A refresh loses a feed exactly when it failed to fetch it and had not seen it in its snapshot (`LosesFeedExactly`, with `OverlapLosesFeed` as an instance), and puts back an older set exactly when it failed to fetch the feed and its snapshot holds another set (`RepublishesOlderExactly`, with `OverlapPutsBackOlder` as an instance).
- The host key trims "www." before lower-casing and the URL key after, which differ exactly for a prefix such as "WWW." (`HostKeyAgreesExactly`).
- The v3 link decoder loses exactly the encodings that contain a newline or their own end marker (`V3RoundTripExactly`, `LiteralEndCutsShort`).
- The policy comment of the limiter reads "5 attempts per 5 minutes"; the code bounds failures by 5 per window and by 10 in an arbitrary interval of five minutes, and a lockout begins only with an attempt after the fifth failure (`AtMostTenInFiveMinutes`, `LockoutEarned`). Ten is attained (`TenIsAttained`), and more than five always straddle two windows (`MoreThanFiveStraddle`).

## Model

| member | source | states |
|---|---|---|
| `ListenerProtocol.SlotBounds` | app/imap/listener.go:262-289 | in every interleaving, over reconnects and recovery scans, the slots in use equal the live workers: at most 50 of the listener, at most 50 of the recovery scan, at most the configured number of scans |
| `ListenerProtocol.StepKeepsSlotsAccounted` | app/imap/listener.go:262-289 | every step keeps each semaphore equal to the number of goroutines that hold one of its slots, so each slot is returned once on return and on cancellation |
| `ListenerProtocol.ReleaseKeepsSlots` | app/imap/listener.go:272-273 | a worker that ends gives back exactly the one slot it held |
| `ListenerProtocol.SpawnKeepsSlots` | app/imap/recovery.go:138-148 | a worker that starts takes exactly one slot, from the semaphore of the goroutine that started it |
| `ListenerSafety.SeenOnlyAfterReturn` | app/imap/listener.go:298-321 | over all runs a UID carries \Seen only if some onEmail call for it returned earlier in the run, after its scan or because it was cancelled while it waited for a scan slot |
| `ListenerSafety.SeenOnlyAfterScan` | app/imap/listener.go:272-283 | if no call for this message is cancelled before its scan, a flagged message has been scanned to the end |
| `ListenerSafety.StepKeepsMarksEarned` | app/imap/recovery.go:128-163 | every step keeps: for whatever is on its way to a \Seen flag, in seenCh, in a drained batch or in the recovery scan after its wait, some onEmail call has returned |
| `ListenerSafety.ReturnedMeansReturned` | app/imap/listener.go:272-274 | the history set of UIDs whose onEmail returned holds exactly those for which the schedule contains such a return |
| `ListenerSafety.NoOverlap` | app/imap/listener.go:187-293 | in every run of one connection that starts without leftover workers each UID a listener worker is processing is in flight and no two unconfirmed listener workers hold the same UID |
| `ListenerSafety.StepKeepsSingleClaim` | app/imap/listener.go:195-290 | every step other than a reconnect keeps at most one claim per in-flight UID: a worker, a pending confirmation, or the wait for a slot, settled UIDs of leftover workers aside |
| `ListenerSafety.SingleClaimFrom` | app/imap/listener.go:195-290 | stale confirmations of an earlier connection are drained before anything is admitted, so in a new connection the claims on every UID that no leftover worker has stay single |
| `ListenerSafety.RedispatchAfterConfirm` | app/imap/listener.go:195-290 | between two dispatches of one UID in a connection the first worker's onEmail returned, and after that its confirmation was consumed |
| `ListenerSafety.GuardOpenExactly` | app/imap/listener.go:195-204 | once a UID is in flight, and until it is admitted again, the in-flight guard is open for it exactly if its confirmation has been consumed |
| `ListenerSafety.WorkerNeverBlocks` | app/imap/listener.go:278-288 | a worker that has its scan slot can always take its next step; both channel sends are non-blocking |
| `ListenerSafety.NoDeadlock` | app/imap/listener.go:262-290 | in every reachable state with work under way some goroutine can take a step that is not a cancellation |
| `ListenerLimits.AtMostOnceFails` | app/imap/listener.go:195-204 | a run of one clean connection to an honest server, with no signal dropped and every STORE in full effect, that dispatches the same UID twice: its confirmation is consumed while its mark still waits in seenCh |
| `ListenerLimits.RedispatchNeedsUnmarked` | app/imap/listener.go:187-293 | between two dispatches of one UID in a connection to an honest server lie, in this order, the return of the first onEmail, the consumption of its confirmation, and a SEARCH that lists the UID because it is not flagged \Seen |
| `ListenerLimits.RoundDispatchesExactly` | app/imap/listener.go:207-290 | in a round about to search, with a free slot, an honest server can bring about a dispatch of a UID if and only if it is neither in flight nor flagged \Seen |
| `ListenerLimits.UnmarkedIsDispatched` | app/imap/listener.go:213-272 | a UID that is neither in flight nor flagged is dispatched by an honest continuation of the round |
| `ListenerLimits.ReconnectAllowsOverlap` | app/imap/listener.go:97-101 | a reachable run across a reconnect, with an honest server, in which two listener workers hold the same UID |
| `ListenerLimits.OverlapExactly` | app/imap/listener.go:97-101 | right after a connection is established, every run of that connection keeps its listener workers apart if and only if no unconfirmed worker is left over from an earlier one |
| `ListenerLimits.LeftoverOverlaps` | app/imap/listener.go:97-101 | each leftover worker can be joined by a second one for its message, without a cancellation, and by an honest server if the message is not flagged |
| `ListenerLimits.HonestOverlapExactly` | app/imap/listener.go:97-101 | with an honest server every run of a new connection keeps its listener workers apart if and only if they are apart to begin with and every leftover one has a message flagged \Seen |
| `ListenerRecovery.RecoveryAllowsOverlap` | app/imap/recovery.go:131-149 | a reachable run, with an honest server and right lookups, in which the recovery scan hands out a message that a listener worker is processing and that has no row yet |
| `ListenerRecovery.RecoveryOverlapsExactly` | app/imap/recovery.go:99-148 | a scan that begins while a listener worker holds a message can hand it out, with that worker still holding it, if and only if the message has no row when the scan looks |
| `ListenerRecovery.NeverHandsOutRecorded` | app/imap/recovery.go:99-148 | in every run, a message that the scan hands out was listed by the start of that same scan and had no row then |
| `ListenerRecovery.SeenWithoutScan` | app/imap/recovery.go:150-163 | a run that flags a message \Seen although its only call was cancelled before its scan |
| `ListenerRounds.RoundAdds` | app/imap/listener.go:243-290 | a round that gets to the next search, whatever the workers do meanwhile, has added exactly the non-empty messages to the in-flight set |
| `ListenerRounds.LoopEndsExactly` | app/imap/listener.go:187-292 | with the same messages listed again the loop ends at the next search if and only if no listed message outside the in-flight set is empty |
| `ListenerRounds.RoundCompletes` | app/imap/listener.go:243-292 | with a slot for every message a round does get to the next search |
| `ListenerRounds.EmptyMessageNeverEnds` | app/imap/listener.go:250-253 | an unflagged message without a body keeps the loop going for any number of rounds, each ending in the state it began in, with an honest server and nothing going wrong |
| `ListenerProgress.NotifiedIsDispatched` | app/imap/listener.go:150-163 | from IDLE, with a message that is neither in flight nor flagged and a free slot, an honest schedule that begins with the announcement and needs no reconnect dispatches it |
| `ListenerProgress.MessageCompletes` | app/imap/listener.go:150-321 | a message goes all the way from announcement to \Seen flag, after which every slot, channel and claim is as before, with an honest server and nothing dropped |
| `ListenerProgress.Reconnects` | app/imap/listener.go:97-130 | a lost connection, a failed attempt and a good one lead back to the top of the loop with nothing in flight and everything else as it was |
| `ListenerProgress.Interrupted` | app/imap/listener.go:189-269 | a cancelled context, a failed SEARCH or FETCH and a cancelled wait end the round and change nothing else |
| `ListenerProgress.WaitsExactly` | app/imap/listener.go:262-269 | the loop waits for a slot exactly while fifty listener workers are alive, a worker for a scan slot exactly while the configured number of scans is under way, the recovery scan exactly while fifty of its workers are alive |
| `ListenerProgress.DroppedExactly` | app/imap/listener.go:278-288 | a signal is dropped exactly if 256 are pending |
| `ListenerRecovery.ScanCompletes` | app/imap/recovery.go:128-163 | a scan with a slot to work with deals with every message it has listed and is then about to flag exactly those with a body |
| `ListenerCode.Listener.DrainSeen` | app/imap/listener.go:298-321 | drainSeen empties seenCh, flags any part of what was in it, and is a run of the protocol |
| `ListenerCode.Listener.DrainConfirmed` | app/imap/listener.go:197-204 | the confirmation loop removes exactly the confirmed UIDs from the in-flight set and is a run of the protocol |
| `ListenerCode.Listener.PreFilter` | app/imap/listener.go:219-224 | the pre-filter returns the search result without the UIDs in flight, in order |
| `ListenerCode.FilterExact` | app/imap/listener.go:219-224 | a UID passes the filter exactly if it was listed and is not in flight |
| `ListenerCode.Listener.DispatchOne` | app/imap/listener.go:243-290 | one turn of the dispatch loop as a run of the protocol: an empty or in-flight message is skipped; any other is admitted and gets a worker and a slot, or, with no slot to be had, waits, or gives up when cancelled |
| `ListenerCode.DrainSeenRuns` | app/imap/listener.go:298-321 | pulling every mark, leaving the loop and storing leads to exactly the state after drainSeen |
| `ListenerCode.DrainConfirmedRuns` | app/imap/listener.go:197-204 | pulling every confirmation leads to exactly the state after the confirmation loop |
| `FanOut.SendNeverBlocks` | app/pipeline/pipeline.go:320-356 | in every reachable state a scanner that has not delivered finds room in the result channel |
| `FanOut.OneResultPerScanner` | app/pipeline/pipeline.go:318-361 | in every complete run the collected results are a rearrangement of one result per scanner: what it returned, or an error in its name if it panicked |
| `FanOut.NeverStuck` | app/pipeline/pipeline.go:318-361 | an incomplete run can always go on, by a step that leaves less to do |
| `FanOut.CompleteRunIsPermutation` | app/pipeline/pipeline.go:320-361 | with distinct names the collected results have distinct scanners and are exactly what the scanners sent |
| `FanOut.ScheduleIndependent` | app/pipeline/pipeline.go:318-367 | for every two complete schedules of the same scanners, panics included, decision, class and confidence are the same, and the reason differs only where it names a URL hit or a failed scanner |
| `FanOut.PanicNeverPasses` | app/pipeline/pipeline.go:326-333 | a panic of ClamAV, YARA or rspamd never lets a message pass, whatever the interleaving and the other scanners |
| `Verdict.Decide` | app/pipeline/verdict.go:37-236 | the loop and the priority chain take each decision exactly on its evidence, and compute the specification that the laws below are about |
| `Verdict.ExecutableExtensions` | app/pipeline/verdict.go:259-269 | the loop returns the distinct dangerous extensions in order of first appearance |
| `Verdict.DecisionTable` | app/pipeline/verdict.go:133-235 | each of the four decisions is taken exactly on its evidence, for all thresholds and results |
| `VerdictLaws.MonotoneExceptFailClosed` | app/pipeline/verdict.go:133-235 | raising evidence lowers the decision if and only if a critical scanner failed, no weak signal was there before, and one weak signal is all there is after |
| `VerdictLaws.Monotone` | app/pipeline/verdict.go:133-235 | with no critical error, raising any signals never lowers the decision |
| `VerdictLaws.FailClosed` | app/pipeline/verdict.go:216-232 | after a critical error nothing passes, and the decision is below quarantine exactly when one weak signal is all there is |
| `VerdictLaws.FailClosedIsNotTotal` | app/pipeline/verdict.go:216-232 | clamd down with one weak signal is flagged, although clamd down with none is quarantined |
| `VerdictEvidence.DownNeverPasses` | app/pipeline/verdict.go:219-232 | when ClamAV, YARA or rspamd reports an error nothing passes, and without any weak signal the message is quarantined or deleted |
| `VerdictEvidence.MalwareDeletes` | app/pipeline/verdict.go:133-148 | a malicious report of ClamAV, YARA, MalwareBazaar or IP reputation, or of VirusTotal with three engines, deletes as malware |
| `VerdictEvidence.RejectScoreDeletes` | app/pipeline/verdict.go:150-155 | an rspamd score at the reject threshold deletes |
| `VerdictEvidence.StrongQuarantines` | app/pipeline/verdict.go:157-183 | a phishing report, a spam score, an executable attachment or HTML smuggling quarantines at least |
| `VerdictEvidence.WeakNeverPasses` | app/pipeline/verdict.go:185-218 | a weak report or missing authentication never passes, and missing authentication beside a suspicious AI verdict quarantines at least |
| `VerdictEvidence.TwoWeakQuarantine` | app/pipeline/verdict.go:195-215 | two weak reports quarantine at least |
| `VerdictEvidence.PassesExactly` | app/pipeline/verdict.go:65-235 | a message passes exactly if it is authenticated, has no executable attachment and every report is harmless, a silent rspamd counting as score zero |
| `VerdictEvidence.ClassTable` | app/pipeline/verdict.go:133-235 | which class a decision carries, exactly, by the signals |
| `VerdictEvidence.ConfidenceTable` | app/pipeline/verdict.go:133-235 | how sure a decision is, by class and signal |
| `VerdictEvidence.ScaleEnds` | app/pipeline/verdict.go:248-257 | the scaled confidence is 0.70 at the lower threshold and 0.99 from the upper one on |
| `VerdictEvidence.ReasonIsTrue` | app/pipeline/verdict.go:133-235 | the reason names what it rests on: a report with its detail, a score and its threshold, a scanner that is down |
| `VerdictLaws.ConfidenceBounds` | app/pipeline/verdict.go:133-257 | confidence lies in [0.40, 1.0] for all inputs and thresholds |
| `VerdictLaws.ScaleBounds` | app/pipeline/verdict.go:248-257 | the scaled confidence lies in [0.70, 0.99] for a score at or above the lower threshold |
| `VerdictLaws.ScaleMonotone` | app/pipeline/verdict.go:248-257 | a higher score never lowers the scaled confidence |
| `VerdictLaws.OrderIndependent` | app/pipeline/verdict.go:65-236 | the same results in any order decide the same, up to the text of a URL or failed-scanner reason |
| `VerdictLaws.CollectReadsOff` | app/pipeline/verdict.go:65-131 | with distinct scanners the collected signals are what the individual reports say |
| `Verdict.FirstCriticalExact` | app/pipeline/verdict.go:226-232 | the fail-closed loop finds a critical error exactly if there is one, and names a scanner that had one |
| `VerdictLaws.ExtensionsExact` | app/pipeline/verdict.go:259-269 | the extension list names each dangerous extension once and nothing else |
| `ImapActions.MoveConserves` | app/imap/actions.go:65-81 | a MOVE keeps the set of messages, leaves each in one place, and relocates only the one moved |
| `ImapActions.MoveAgain` | app/imap/actions.go:231-246 | a further attempt after a move that may or may not have happened amounts to at most one move |
| `ImapActions.MovedOrNotValid` | app/imap/actions.go:231-246 | after any attempts nothing is lost or duplicated, and a message still at its source means nothing happened |
| `ImapActions.LeftMeansRelocated` | app/imap/actions.go:65-96 | a message that left its source under any attempts is in the destination and nowhere else |
| `ImapActions.Actions.AttemptMove` | app/imap/actions.go:66-81 | one attempt moves the message or not whatever it reports; a COPYUID it returns is where the message is; after a reported failure the message is gone exactly if the move was cut off after it acted; the answer is recorded |
| `ImapActions.Actions.MessageExists` | app/imap/actions.go:100-113 | a check that does not fail is right |
| `ImapActions.Actions.MoveToQuarantine` | app/imap/actions.go:65-96 | under any retry pattern at most one move happens; success means the message left the source, a non-zero UID is its place in quarantine, an error means it is still in the source or the check failed, and after an error it is gone exactly if a move was cut off after it acted; the UID it returns is the COPYUID of the attempt that succeeded, and it fails only after three attempts unless cancelled |
| `ImapActions.Actions.DeleteMessage` | app/imap/actions.go:129-144 | nothing but the one message can disappear; success means it has, and after a reported failure it has exactly if an expunge was cut off after it acted; it fails only after three attempts unless cancelled |
| `ImapActions.Actions.FlagMessage` | app/imap/actions.go:147-159 | no message moves; success means the flag is set; it fails only after three attempts unless cancelled |
| `Process.Pipeline.Process` | app/pipeline/pipeline.go:128-479 | with a panic at any stage or none: one slot is taken and returned; no IMAP command precedes a committed row; a backfill issues none and leaves its rows in the inbox; other rows, other messages and the audit log are left alone; nothing is lost unless the decision is delete; if no write fails, row, mailbox and audit log agree exactly if no move or expunge was cut off after it acted, unless the panic strikes between row and action; a late panic leaves a second row exactly if the first one followed its message; what a live run does is spelled out by the facts (panic, parse failure and blocklist before whitelist before verdict), a moved row gets the COPYUID the server gave, and a scan that runs to its end writes the last audit entry |
| `Process.Pipeline.Handle` | app/pipeline/pipeline.go:200-464 | what the branches between taking and returning the slot leave: parse failure, blocklist, whitelist bypass, full scan, each with a panic at any later stage |
| `Process.Pipeline.RecordAndQuarantine` | app/pipeline/pipeline.go:200-282 | row first, then quarantine; the insert succeeds exactly if the key is free and no write fails; afterwards a QUARANTINED row and the message in the quarantine folder, or an INBOX row at the source with a new IMAP_FAIL entry, which is orphaned exactly if a move was cut off after it acted |
| `Process.Pipeline.QuarantineRecorded` | app/pipeline/pipeline.go:229-240 | after a committed row: the row follows the message, or goes back to INBOX with a new IMAP_FAIL entry, and other rows stay |
| `Process.Pipeline.Follow` | app/pipeline/pipeline.go:550-582 | the row takes the new place of its message; if that write fails the desync is audited unless that write fails too |
| `Process.Pipeline.RecordAndAct` | app/pipeline/pipeline.go:382-464 | a scanned message: upsert, act on the decision, audit; only the one row and the one message are touched, and they agree afterwards exactly if no action was cut off after it acted |
| `Process.Pipeline.ActOnVerdict` | app/pipeline/pipeline.go:406-427 | the IMAP side of the decision touches only the one message; the row is reverted when it fails, and is orphaned by that exactly if the action was cut off after it acted |
| `Process.Pipeline.RecordBypass` | app/pipeline/pipeline.go:287-302 | the whitelist bypass adds at most one INBOX row, with the default source, and does nothing else |
| `Process.Pipeline.TakeQuarantine` | app/pipeline/pipeline.go:505-522 | four rounds of MoveToQuarantine amount to at most one move; an error without a failed check means the message is still there, and after an error it is gone exactly if a move was cut off after it acted; it fails only after twelve attempts unless cancelled |
| `Process.Pipeline.TakeDelete` | app/pipeline/pipeline.go:489-503 | four rounds of deletion touch only the one message; after a failure it is gone exactly if an expunge was cut off after it acted; it fails only after twelve attempts unless cancelled |
| `Process.Pipeline.TakeFlag` | app/pipeline/pipeline.go:524-538 | four rounds of flagging change at most the flag of the one message; it fails only after twelve attempts unless cancelled |
| `Process.Pipeline.UpdateQuarantineUID` | app/pipeline/pipeline.go:550-562 | mailbox always, UID and key only with a COPYUID; on failure nothing changes |
| `Process.Pipeline.Upsert` | app/pipeline/pipeline.go:390-404 | on conflict the existing row keeps its coordinates and source and takes the new status; keys stay unique |
| `Process.Pipeline.Create` | app/pipeline/pipeline.go:208-225 | a plain insert adds exactly one row or fails, and fails if the key is taken |
| `Process.Pipeline.Revert` | app/pipeline/pipeline.go:411-423 | status back to INBOX and an IMAP_FAIL entry; either statement may fail alone, as the transaction ignores their errors |
| `Process.Pipeline.Recover` | app/pipeline/pipeline.go:134-182 | the handler after a late panic inserts a second row and quarantines again exactly if the source key has become free, and in all at most one move happens |
| `Process.KeyFreeExactly` | app/pipeline/pipeline.go:134-182 | after a committed row the source key is free exactly if the row has followed its message into quarantine |
| `Process.RecoveredRunCleanly` | app/pipeline/pipeline.go:134-182 | if no write fails, a late panic leaves agreement and second row as promised, whatever stage it struck at |
| `Process.RecoveredRun` | app/pipeline/pipeline.go:134-182 | with or without failing writes, a run and its handler only observe in a backfill and touch nothing else |
| `Process.NothingLost` | app/pipeline/pipeline.go:485-542 | whatever a run and its handler do to the server, no message is lost or duplicated unless the decision is delete |
| `Process.WorkCommitsFirst` | app/pipeline/pipeline.go:128-464 | in the event log of a run every IMAP command comes after a committed row |
| `Feeds.IndexRefinesFeeds` | app/feeds/manager.go:73-146 | under any interleaving of refreshes with arbitrary failures the published index is the union of the published feed sets and never holds the empty key |
| `Feeds.ContainsAgreesWithLookup` | app/feeds/manager.go:194-275 | the flat index answers exactly as the feed sets do, and an exact hit is a hit |
| `Feeds.NoAmnesia` | app/feeds/manager.go:84-124 | after any sequence of non-overlapping refreshes each feed holds exactly the keys of its latest successful fetch, and is absent if it never succeeded |
| `Feeds.NoAmnesiaOneAtATime` | app/feeds/manager.go:73-146 | the same for every schedule of begin, fetch and publish steps in which refreshes do not overlap |
| `Feeds.OneAtATimeIsRounds` | app/feeds/manager.go:73-146 | under every such schedule the published sets are those of the published refreshes taken one after the other |
| `Feeds.LosesFeedExactly` | app/feeds/manager.go:80-146 | in every reachable state, publishing drops a feed exactly when this refresh failed to fetch it and its snapshot lacked it |
| `Feeds.RepublishesOlderExactly` | app/feeds/manager.go:80-146 | publishing replaces a set without having fetched the feed exactly when the fetch failed and the snapshot holds another set, which is put back |
| `Feeds.SnapshotIsCurrent` | app/feeds/manager.go:78-82 | a snapshot differs from what is published only if another refresh has published since |
| `Feeds.OverlapLosesFeed` | app/feeds/manager.go:80-146 | two overlapping refreshes that lose a feed one of them fetched |
| `Feeds.OverlapPutsBackOlder` | app/feeds/manager.go:80-146 | an overlapping schedule in which a refresh puts back an older set, with entries that the latest fetch has dropped |
| `Feeds.BuildExact` | app/feeds/manager.go:84-124 | what one refresh leaves for each feed: the keys of its fetch, else its previous set |
| `Feeds.BuildRight` | app/feeds/manager.go:84-124 | index and feed sets agree at every stage of a refresh |
| `Feeds.HostKeyAgreesExactly` | app/feeds/urlhaus.go:252-260 | trimming before lower-casing gives the host of the key function except exactly for a "www." prefix not in lower case |
| `Feeds.SameUrlExactly` | app/feeds/urlhaus.go:252-260 | two parsed URLs have the same key exactly if their paths are equal and their hosts agree after lower-casing and trimming |
| `Feeds.ExactLookupExactly` | app/feeds/manager.go:99-122 | after a fetch of URLhaus or ThreatFox alone an exact lookup hits a URL exactly if the feed listed one with that host and path |
| `Feeds.HostLookupOfMalwareFeeds` | app/feeds/manager.go:99-122 | with these feeds a lookup hits no other URL on the host unless the host alone is listed |
| `Feeds.PhishingHostHits` | app/feeds/manager.go:99-122 | after a fetch of OpenPhish or PhishTank a lookup hits every URL on a listed host |
| `Feeds.UnparsedIsFound` | app/feeds/urlhaus.go:252-256 | a listed text that is not a URL is found again under any case |
| `Feeds.Manager.Refresh` | app/feeds/manager.go:73-146 | the loop computes the specified index and feed sets and keeps them in agreement |
| `Feeds.Manager.CollectKeys` | app/feeds/manager.go:103-122 | the inner loop collects exactly the URL keys and, for phishing feeds, the host keys |
| `Feeds.Manager.ContainsURL` | app/feeds/manager.go:194-220 | found exactly if key or host is in the index, or a custom entry matches a non-empty host |
| `Feeds.Manager.LookupURL` | app/feeds/manager.go:248-275 | a hit exactly if some feed lists key or host, and then names such a feed and its threat type |
| `Feeds.Manager.LookupURLExact` | app/feeds/manager.go:227-244 | a hit exactly if some feed lists the key |
| `BulkAction.Collect` | app/web/handlers/actions.go:326-417 | refuses exactly the bad requests; every id, duplicates included, ends up failed, reported or in one group of its own account (and mailbox for deletes), accounted for with its expected outcome |
| `BulkAction.ExpectedExactly` | app/web/handlers/actions.go:351-416 | an id succeeds exactly if its row exists and, per action, message, write, account and IMAP command are good |
| `BulkAction.ReportNeverBlocks` | app/web/handlers/actions.go:337-478 | in every reachable state a goroutine with an outcome to report finds room in the channel |
| `BulkAction.NeverStuck` | app/web/handlers/actions.go:419-492 | in every reachable state that is not finished some step is possible |
| `BulkAction.StepsShrinkWork` | app/web/handlers/actions.go:419-492 | every step leaves less to do, so every run that goes on while it can ends |
| `BulkAction.ReportsAsExpected` | app/web/handlers/actions.go:419-492 | at the end, for any property of outcomes, exactly as many outcomes are reported as the ids on their own would give |
| `BulkAction.EveryIdCountedOnce` | app/web/handlers/actions.go:481-497 | succeeded plus failed equals the number of ids, and succeeded equals the number of ids expected to succeed |
| `BulkAction.GroupsStayApart` | app/web/handlers/actions.go:449-478 | in every run whatever a goroutine handles belongs to the account, and for deletes the mailbox, of its group |
| `BulkAction.StepKeepsBalance` | app/web/handlers/actions.go:419-492 | every step moves outcomes between goroutine, channel and tally without losing or adding one |
| `BulkAction.StepKeepsSlots` | app/web/handlers/actions.go:334-478 | every step keeps the semaphore equal to the number of running groups, at most five |
| `BulkAction.SpawnWaitsExactly` | app/web/handlers/actions.go:334-336 | a group waits for a slot exactly while five others run |
| `RetroSweep.RetroScanner.Sweep` | app/pipeline/retro.go:91-143 | however the pages fall, a complete sweep does what one pass over the table as it was at the start would do and evaluates each row that matched then once, in order; one that stops early does a first part of that; an overlapping one does nothing |
| `RetroSweep.RetroScanner.Pages` | app/pipeline/retro.go:110-142 | the paging loop terminates and refines the single pass |
| `RetroSweep.RetroScanner.EvaluatePage` | app/pipeline/retro.go:132-138 | evaluating a page moves the bound to its last row |
| `RetroSweep.RetroScanner.Evaluate` | app/pipeline/retro.go:145-184 | a row is clawed back exactly if one of its URLs hits, by exact match only on shared hosting, and nothing on the way fails |
| `RetroSweep.RetroScanner.Clawback` | app/pipeline/retro.go:186-262 | status, verdict (malware if any hit is), folder, and UID and key if the server gave one, change together; no other row does |
| `RetroSweep.MatchingExact` | app/pipeline/retro.go:119-124 | the evaluated ids are exactly those of the clean inbox rows after the cutoff that have scanned URLs |
| `RetroSweep.MatchingIncreases` | app/pipeline/retro.go:119-138 | the evaluated ids strictly increase, so no row is evaluated twice |
| `RetroSweep.NeverPickedAgain` | app/pipeline/retro.go:119-124 | a quarantined row is neither picked nor changed by any later sequence of sweeps, complete or not |
| `RetroSweep.LeavesInboxExactly` | app/pipeline/retro.go:233-262 | a sweep changes a row exactly if it is a clean, recent inbox row with a URL the feeds know, by exact match only on shared hosting, and account, move and write are good |
| `RetroSweep.ClawedBackRow` | app/pipeline/retro.go:216-249 | what such a row becomes: quarantined, malware if one hit is and else phishing, in the account's folder, with UID and key only if the server gave a UID |
| `RetroSweep.SelectsPage` | app/pipeline/retro.go:119-124 | the query returns the first matching rows after the last id, in order, and is short only if there are no more |
| `RetroSweep.PageOfStart` | app/pipeline/retro.go:119-138 | a page of the table as changed by the sweep is a page of the table at the start |
| `LoginLimiter.AtMostTenInFiveMinutes` | app/auth/ratelimit.go:28-69 | in every run with a monotone clock, with sweeps at any time, an IP has at most ten failed attempts in any five minutes |
| `LoginLimiter.TenIsAttained` | app/auth/ratelimit.go:43-53 | a run with ten failures within five minutes, so the bound is exact |
| `LoginLimiter.MoreThanFiveStraddle` | app/auth/ratelimit.go:43-53 | more than five failures in five minutes always straddle two windows that start more than five minutes apart |
| `LoginLimiter.AtMostFivePerWindow` | app/auth/ratelimit.go:43-53 | of any six consecutive failures of an IP the first and the last fall in windows more than five minutes apart |
| `LoginLimiter.LockoutEarned` | app/auth/ratelimit.go:38-53 | outside a lockout an attempt starts one exactly when the last five failures of the IP fell in a window that is still open |
| `LoginLimiter.LockoutRefuses` | app/auth/ratelimit.go:38-41 | a lockout refuses every attempt of its IP for fifteen minutes |
| `LoginLimiter.LockoutExact` | app/auth/ratelimit.go:38-48 | of the attempts up to the first one at or after the end of a lockout exactly that one is let through, swept bucket or not |
| `LoginLimiter.RunAgrees` | app/auth/ratelimit.go:28-82 | in every run the bucket of an IP agrees with its history of failures |
| `LoginLimiter.BucketStep` | app/auth/ratelimit.go:28-82 | the bucket of an IP changes only with its own attempts and with sweeps |
| `LoginLimiter.LoginRateLimiter.Allow` | app/auth/ratelimit.go:28-56 | admits or refuses as specified, changes one bucket, and a refusal says when the lockout ends |
| `LoginLimiter.LoginRateLimiter.Record` | app/auth/ratelimit.go:60-69 | one more failure in the bucket of the IP |
| `LoginLimiter.LoginRateLimiter.Sweep` | app/auth/ratelimit.go:72-82 | removes exactly the stale buckets |
| `LoginLimiter.LoginRateLimiter.Login` | app/web/handlers/auth.go:40-68 | an attempt is Allow, and Record if it was let through and failed |
| `Proofpoint.DecodesExactly` | app/pipeline/safelinks.go:74-84 | replacing the markers and then unescaping reads exactly the encodings, byte by byte, of the documented format |
| `Proofpoint.V2RoundTrip` | app/pipeline/safelinks.go:67-94 | every http or https URL comes back from every hyphen-hex encoding of it |
| `Proofpoint.V2EncoderRoundTrip` | app/pipeline/safelinks.go:67-94 | the same for any encoder that escapes the marker, the percent sign and the plus sign |
| `Proofpoint.TwoPassesMapUnderscores` | app/pipeline/safelinks.go:109-112 | the two replacements together map every underscore to a slash and nothing else |
| `Proofpoint.V2UnderscoreRoundTrip` | app/pipeline/safelinks.go:96-118 | from the form with slashes as underscores exactly the URLs without an underscore come back |
| `Proofpoint.V3RoundTripExactly` | app/pipeline/safelinks.go:120-152 | of all star-hex encodings of http and https URLs, with any token suffix, exactly those without a newline and without an inner end marker come back |
| `Proofpoint.V3EncoderRoundTrip` | app/pipeline/safelinks.go:120-152 | an encoder that also escapes semicolon and newline brings back every http or https URL |
| `Proofpoint.LiteralEndCutsShort` | app/pipeline/safelinks.go:122 | a URL that contains the end marker literally is cut short |
| `Proofpoint.FoundEnd` | app/pipeline/safelinks.go:122 | the lazy match ends at the first end marker after at least one character, with no newline before it |
| `Proofpoint.DecodesToUrl` | app/pipeline/safelinks.go:86-152 | every decoder gives an http or https URL or nothing |
| `ClamAv.FramingRoundTrip` | app/pipeline/pipeline_integration_test.go:153-169 | for every byte string the framed stream unframes to exactly that string and leaves what follows it |
| `ClamAv.BrokenOffIsNotAccepted` | app/pipeline/pipeline_integration_test.go:153-169 | a stream that breaks off anywhere is never taken for a complete one |
| `ClamAv.ChunkedExact` | app/scanners/clamav.go:120-126 | the chunks together are the data, each is 1 to 2048 bytes, and all but the last are full |
| `ClamAv.LengthRoundTrip` | app/scanners/clamav.go:127 | the four-byte big-endian length reads back as the chunk's length |
| `ClamAv.SendFramed` | app/scanners/clamav.go:119-138 | if every write succeeds exactly the framed stream has been written, otherwise a first part of it |
| `MimeBudget.ParseParts` | app/pipeline/email.go:122-176 | of the inline bytes, at most 10 MB a part, exactly the first 20 MB are read, each into the body of its kind; attachments are at most 50 MB each and at most the cap in total, and exactly the first bytes up to the cap when none is broken |
| `MimeBudget.ReadInline` | app/pipeline/email.go:138-152 | one inline part extends the bodies by exactly what the budgets leave of it |
| `MimeBudget.ReadAttachment` | app/pipeline/email.go:154-174 | one attachment is kept, cut or skipped by exactly what the cap leaves |
| `MimeBudget.Extractor.ExtractURLs` | app/pipeline/email.go:228-286 | the list is the first hundred distinct normal forms of all URLs in order, wrapped links included, and has no duplicates |
| `MimeBudget.Extractor.AddURL` | app/pipeline/email.go:232-254 | one URL adds its normal form and that of the link it wraps if new and if there is room; a refusal means the list is full |
| `MimeBudget.KeysExact` | app/pipeline/email.go:236-252 | the keys are exactly the non-empty normal forms of the URLs and of the links they wrap |
| `MimeBudget.HttpOnlyExact` | app/pipeline/email.go:264-275 | an attribute value counts exactly if it begins with http |
| `MimeBudget.MergeQR` | app/pipeline/email.go:179-190 | exactly the QR URLs that are new are appended, in order, so the final list has no duplicates |
| `Keys.SameKeyExact` | app/db/models.go:92-97 | two messages get the same key exactly if their UIDs agree and account:mailbox read the same |
| `Keys.KeyInjective` | app/db/models.go:92-97 | for account names without a colon the key is injective; mailbox names may contain one |
| `Keys.ColonCollides` | app/db/models.go:92-97 | with a colon in an account name two different messages share a key |
| `Keys.KeyWritten` | app/db/models.go:92-97 | the key as it is written, account:mailbox:uid |
| `Keys.DecimalDigits` | app/db/models.go:92-97 | a UID is written in decimal digits without leading zeros |
| `Migration.CrashSafe` | app/db/migrations.go:69-95 | any number of interrupted runs followed by a complete one leaves the same rows and versions as a single run |
| `Migration.ResumeAfterCrash` | app/db/migrations.go:69-95 | the same for one crash after any number of writes |
| `Migration.CompleteRun` | app/db/migrations.go:36-40 | a complete run from before version 6 leaves every key equal to the key function and no other column changed; from version 6 on the rows stay; exactly the versions up to 7 are recorded |
| `Migration.RebuiltKeys` | app/db/migrations.go:30-40 | after a complete run from before version 6 the key of every row is account, mailbox and UID, with nothing for a missing mailbox |
| `Migration.MailboxesApart` | app/db/migrations.go:30-40 | so rows of a colon-free account in different mailboxes get different keys |
| `Migration.CurrentExact` | app/db/migrations.go:69-76 | the current version is the highest one recorded |
| `Migration.RebuildIdempotent` | app/db/migrations.go:30-40 | rebuilding the keys twice is rebuilding them once |
| `Migration.Store.Migrate` | app/db/migrations.go:45-96 | the version loop, stopped after any number of writes, leaves exactly the interrupted state, and succeeds exactly if all its writes do |

## Left out

- The IMAP client, TLS, HTTP, SQLite, the scanners themselves, clocks and contexts: their answers are parameters, labels or nondeterministic choices.
- Notifications, server-sent events, metrics, daily statistics, stored message files and the web pages: no part in the properties.
- `RunScan`, Release, Rescan, Mimecast and Safe Links decoding, hash feeds, the session store: either they do not keep the agreement between row and mailbox, or they depend on library internals, or they would only add easy members.
- `fetchUnseen` as a whole is a set of schedules and not a method, because it need not end. Its loops are methods of `ListenerCode.Listener`, in which no other goroutine acts between two of their own steps; the schedules of the other listener files have no such restriction.
- ListenerRecovery.RecoveryOverlapsExactly: the lookup is right, as it is when the database answers; the code ignores a failed query and takes the message for unknown. The lookups of one scan, and its fetch, are one step.
- Giving back a recovery slot and the wait group's Done are one step.
- The message bodies, the account's other mailboxes and UIDVALIDITY changes are not part of the listener model.
- `normalizeURL` of the mail parser is a parameter, so that it is not idempotent has no bearing here; `url.Parse` is a parameter of `Feeds`, where lower-casing is ASCII.
- Scores and confidences are reals, so rounding is not modelled; reason texts are structured values.
- Verdict columns, hit lists and reason texts of a row are not modelled in `Process`; a row is its key, its coordinates, its status and its source.
- Process.Pipeline.Process: a run that waits for a scan slot until it is cancelled is one that does nothing, and so is one that finds all slots taken; agreement is stated for runs in which no write fails or meets a taken key, for a quarantine folder with a non-empty name, and for a message whose existing row, if any, still has its coordinates. A panic inside the recover handler itself, which ends the program, is not modelled. The id that an upsert reports is taken to be that of the row it wrote.
- Migration.CompleteRun: a unique-index violation during the rebuild of the keys is not modelled; it is a failed write, which leaves the table as it was. The read of the current version is taken to succeed; the code ignores its failure, and would then start from version 0 and rebuild the keys again.
- BulkAction.Collect: the decoding of the request body is not modelled; status updates inside the goroutines are left out because their errors are ignored and do not change the outcome.
- RetroSweep.RetroScanner.Sweep: the table changes only by the sweep's own clawbacks, and ids are positive, as the database numbers them; a clawback whose move succeeds and whose write fails leaves the row as it was.
- LoginLimiter.AtMostTenInFiveMinutes: each attempt is one step of Allow and Record, so requests of one IP that overlap in time are not covered; each call reads the clock once.
- MimeBudget.ParseParts: a message is a finite sequence of NextPart results; an attachment's read error is seen exactly if it lies before the budget ends.
- MimeBudget.Extractor.ExtractURLs: the URLs found in the text and the attribute values are given; the regular expression and the HTML walk are not modelled.
- ClamAv.SendFramed: the command that opens the session and the reply are not modelled.
