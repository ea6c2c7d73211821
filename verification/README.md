# Verified model of the SMS bridge

The bridge takes SMS from Android phones (over ADB) and from USB modems, stores them in SQLite, and delivers each to the
configured channels through an outbox. This project models the parts where its guarantees are made, and proves them with
Dafny 4.11:

    dafny verify dfyconfig.toml

Goroutines are modelled as state machines whose atomic steps are single database statements, calls of `Send`, clock
readings, critical sections and queue operations; the steps of different goroutines interleave freely, and statements,
sends and the process may fail at any point. Code that works by loops and fields is written as classes with methods.
Each of those methods either equals a specification function or extends a run of the state machine, with other goroutines
acting between its steps, so that every theorem about runs holds for it. Interference is a method too (`OthersRun` and the
like): its body does nothing, while its callers know only its contract, which allows any steps of the others; a lemma next to
it shows that no sequence of such steps breaks the contract.

| part | files |
|---|---|
| outbox delivery | `Backoff`, `Outbox`, `Delivery` (machine), `DeliveryInvariant`, `DeliverySafety`, `DeliveryRecord`, `DeliveryProgress`, `DeliveryTiming`, `DeliveryLimits` and `EarlyRetry` (runs that show where a promise ends), `Dispatcher` (the loops) |
| taking messages in | `Intake` (machine), `SaveAndEnqueue` (the code) |
| reading a modem | `Reader` (specification), `Worker` (the loops), `Reading`, `Reassembly`, `ReaderTimeout`, `ReaderCrash`, `Keys` |
| AT command channel | `AtPort` (machine), `AtListing`, `CommandPort` (the code) |
| ADB | `RowParser`, `SmsOutput`, `SmsRoundTrip`, `SmsLimits` (texts where reading back ends), `Poller`, `Watcher` |
| modem supervision | `Manager` (machine), `ManagerWork` (the code) |
| Telegram text | `WrapDigits` |
| strings, one goroutine's steps in a run | `Text`, `Interleaving` |

Times are integers: nanoseconds, except that rows of the phone carry milliseconds. SQLite's CURRENT_TIMESTAMP is cut to
whole seconds. M stands for max(1, max_attempts). Rows of a table are numbered in insertion order.

Parameters of the model: PDU decoding, text decoding and the hash of the dedup key are arbitrary functions; the hash is
assumed injective only where a lemma says so. Whether a statement, a `Send`, a deletion or a handler succeeds, what the
modem answers, which devices are listed and what the clock shows are left open in every step. `DispatchOnce`, `Work`,
`SaveAndEnqueue`, `Command`, `Scan` and the manager's worker take these answers as parameters, and their contracts name every
step that they take.

## Where the code and its documentation differ

- `internal/dispatcher/dispatcher.go:30` says that the mutex ensures that an item is never sent twice. A `Send` whose
  `MarkOutboxSent` then fails is repeated by the next sweep (`DeliveryLimits.LostMarkDeliversTwice`). What holds is
  `DeliverySafety.SuccessesAccounted`: at most one successful send, plus one for each lost mark and each crash between
  the send and its mark.
- `internal/dispatcher/retry.go:99-101` says that the wait is capped at one hour. The first wait is not
  (`Backoff.DelayIsCapped` says exactly when the formula holds).
- The waits count from the latest logged attempt that `GetFailedOutbox` saw. When it reads between a failure mark and its log
  row, the retry can always be early (`DeliveryLimits.LateLogRetriesEarly`, `EarlyRetry.MissingLogCanRetryEarly`);
  `DeliveryTiming.FaultlessSpacing` gives the spacing for a log row that was committed in time.
- `internal/db/outbox.go:146-147` says that cancelling discards the backlog of earlier runs. `CancelStaleOutbox` runs beside the
  dispatcher and the retry worker, and a snapshot that holds the row revives it: `DeliveryLimits.CancelledIsDelivered` shows
  such a run, and `DeliveryTiming.CancelledIsFinalIff` says exactly when a cancelled row is final.
- The repository's `README.md:11` promises no data loss on a crash. A crash between `SaveMessage` and `CreateOutboxEntry` leaves a message
  without outbox rows for good (`Intake.CrashLosesRows`); `Intake.AllRowsIff` says exactly which messages have all rows.
- `internal/modem/at.go:125` says that leftovers of a command that timed out are dropped. That holds for lines that are queued by
  then; later ones reach the next command (`AtListing.TimeoutAnswers`), and `AtPort.LateLinesDecide` says what it then returns.
- `internal/modem/worker.go:315` counts segments to tell a complete SMS; a part that the modem holds twice passes for two
  (`Reassembly.ResentPartPassesAsWhole`). `Reassembly.CountedIsWholeIff` says exactly when the test is right.
- `internal/modem/worker.go:411-412` says that a saved SMS is not delivered twice after a restart. A PDU without a time
  stamp gets another key in another second (`ReaderCrash.RereadIsDuplicateIff`), and keys of different senders may
  coincide when one sender's text extends the other's (`Keys.SendersCollideIff`).
- `ParseSMSOutput` is said to handle bodies of several lines (`internal/adb/sms.go:277`). A line of a body that looks like a row
  header ends the row: then no parser can tell one message from two (`SmsLimits.PrintIsAmbiguous`), and the rest of the body can
  make `parseRow` panic (`SmsLimits.TextAtWhichItPanics`; exactly when: `SmsRoundTrip.PrintedOutcome`, `RowParser.PanicsIff`).
- The repository's `README.md:15` says that digit runs are wrapped in backticks; the code wraps them in `<code>` tags.

## Model

| member | source | states |
|---|---|---|
| Backoff.Backoff | internal/dispatcher/retry.go:102-114 | the doubling loop in 64-bit arithmetic never overflows for a base under 2^62 ns and yields the uncapped base for the first wait, then min(base x 2^(n-1), 1 h) |
| Backoff.DelayIsCapped | internal/dispatcher/retry.go:99-104 | the documented formula min(base x 2^(n-1), 1 h) is what is applied exactly when the attempt is not the first or the base is at most an hour |
| Backoff.DelayGrows | internal/dispatcher/retry.go:102-114 | waits never shrink from one attempt to the next, exactly unless an over-long first wait is followed by a capped one |
| Outbox.FailedListIsExact | internal/db/outbox.go:106-136 | the retry query returns exactly the failed rows below the attempt limit, each once, in id order, with the time of the last logged attempt or else the row's creation |
| Outbox.LastAttemptIsLatest | internal/db/outbox.go:106-121 | the time that a retry waits from is the latest of the row's logged attempts, and its creation when there is none |
| DeliveryInvariant.StepInv | internal/dispatcher/dispatcher.go:65-149 | every step of every goroutine, every failure and every crash keeps the invariant: rows still to be delivered from a snapshot are pending or cancelled, rows still to be retried are failed or cancelled, the two are disjoint, and each row's attempts, log entries, sends and faults balance |
| DeliverySafety.Reachable | internal/dispatcher/dispatcher.go:65-149 | the invariant holds in every state of every run |
| DeliverySafety.CountersCount | internal/dispatcher/dispatcher.go:90-149 | the balances speak of what really happened: each counter equals the number of such events in the run |
| DeliverySafety.SentIsFinal | internal/db/outbox.go:64-72 | once a row is sent it is never changed again, and no further Send is ever made for it |
| DeliverySafety.SuccessesAccounted | internal/dispatcher/dispatcher.go:116-142 | successful sends of an item = 1 if its row is sent + 1 while it is being marked + lost sent-marks + crashes before the mark; hence at most 1 plus those faults |
| DeliverySafety.AttemptsLogged | internal/dispatcher/dispatcher.go:98-145 | attempts equals the item's log rows, plus 1 exactly between its mark and its log entry, up to named faults |
| DeliverySafety.SendsCounted | internal/dispatcher/dispatcher.go:90-142 | every decision to try an item is counted in attempts, except where a mark was lost |
| DeliverySafety.AttemptsBounded | internal/dispatcher/retry.go:59-88 | in every run, faults included, attempts never exceed M, and a pending row has fewer than M |
| DeliverySafety.FaultlessAccounting | internal/dispatcher/dispatcher.go:90-149 | with database writes succeeding: at most one successful send per item, attempts equal the log rows plus the one being logged, and a success is logged only for a row already marked sent |
| DeliveryRecord.RowIsItsEnqueue | internal/db/outbox.go:12-18 | in every run the outbox holds one row per CreateOutboxEntry, in their order; row i names the message and channel of the i-th one for good, and the second in which it was created |
| DeliveryRecord.EntryIsItsStep | internal/db/outbox.go:85-96 | in every run the delivery log holds one row per AppendDeliveryLog that took effect, in their order; each names the row that was tried, whether that succeeded, and the second in which it was logged |
| DeliveryRecord.SuccessesLogged | internal/dispatcher/dispatcher.go:140-145 | successful sends of an item = its success rows in the log + 1 while it is being marked or logged + crashes before the mark + successes whose log row was lost |
| DeliveryRecord.FaultlessSuccess | internal/dispatcher/dispatcher.go:140-145 | with database writes succeeding, a sent row has one success in the log, unless just that is being logged, and any other row has none |
| DeliveryProgress.PotentialStep | internal/dispatcher/retry.go:59-88 | 2(M - attempts), plus 1 while failed, is raised for no row by any step, and lowered by each finished attempt and each rescheduling |
| DeliveryProgress.DeliveryTerminates | internal/dispatcher/retry.go:59-88 | in every run n outbox rows see at most 2 M n finished attempts and reschedulings together |
| DeliveryProgress.SendCallsBounded | internal/dispatcher/dispatcher.go:116-142 | with database writes succeeding, n outbox rows cause at most n M calls of Send |
| DeliveryTiming.RetriesAreSpaced | internal/dispatcher/retry.go:66-84 | an item with k attempts is sent again only after a retry reading that saw those k attempts; by the clock of the run, the backoff less than one second has passed since each log step of the item before its last such reading, or since its creation when there was none |
| DeliveryTiming.FaultlessSpacing | internal/dispatcher/retry.go:66-84 | without faults all k attempts are logged when attempt k+1 starts; unless one was logged only after the last reading of the row, the backoff less than one second has passed by the clock since each of those log steps |
| DeliveryTiming.SkippedIsEarly | internal/dispatcher/retry.go:69-73 | the retry worker passes over a row only while, by its clock reading, the backoff has not passed since some log step of the row, or since its creation |
| DeliveryTiming.LastReadingIsUnique | internal/dispatcher/retry.go:59-66 | there is one such reading |
| DeliveryTiming.CancelledIsFinalIff | internal/db/outbox.go:146-159 | a cancelled row stays cancelled in every continuation exactly when neither the running sweep nor the retry worker holds it in an unprocessed snapshot |
| DeliveryTiming.CancelledStays | internal/db/outbox.go:139-159 | a cancelled row that no snapshot holds stays exactly as it is, and out of all snapshots, in every continuation |
| DeliveryTiming.ClaimedCanBeDelivered | internal/dispatcher/dispatcher.go:75-87 | from any reachable state, a row in the sweep's snapshot, cancelled or not, can be brought to sent or failed |
| DeliveryLimits.LostMarkDeliversTwice | internal/dispatcher/dispatcher.go:140-142 | a complete run in which one failed sent-mark leads to a second successful send of the same item |
| DeliveryLimits.LateLogRetriesEarly | internal/dispatcher/dispatcher.go:123-128 | a complete run without any failed statement in which the second attempt starts at the time at which the first one is logged |
| EarlyRetry.MissingLogCanRetryEarly | internal/dispatcher/dispatcher.go:123-145 | from every state in which the retry worker has read a row whose attempt is still to be logged, a continuation without any fault logs that attempt and sends the row again at the same time, whatever the backoff |
| DeliveryLimits.CancelledIsDelivered | internal/db/outbox.go:146-159 | a complete run without any fault in which the startup cancellation cancels a row in the running sweep's snapshot, and the row is still delivered and marked sent |
| Dispatcher.AlwaysAlone | internal/dispatcher/retry.go:86-88 | the retry worker never waits for or holds the mutex while it goes through its list |
| Dispatcher.Database.SortedPending | internal/db/outbox.go:29-53 | returns every pending row exactly once, oldest first |
| Dispatcher.Database.CancelStaleOutbox | internal/db/outbox.go:146-159 | after it no pending or failed row is older than the cutoff; every row that changed was such a row and changed in its status only; a failed statement changes nothing |
| Dispatcher.Sweeper.DispatchOnce | internal/dispatcher/dispatcher.go:65-88 | under any interference the steps of the call are exactly these: lock, query, and if the query succeeds, for each row that it returned, in that order and up to the cancellation, no-sender or load and send, then mark and log, as the answers of database and sender demand, and unlock; then its caller no longer waits, and if that is the retry worker, its round is over |
| Dispatcher.Sweeper.Deliver | internal/dispatcher/dispatcher.go:90-149 | delivering one item takes exactly the steps that its channel and the answers demand, and leaves the rest of the snapshot to be delivered |
| Dispatcher.ItemStepsAre | internal/dispatcher/dispatcher.go:90-149 | these are: without a sender the attempt fails; with one the message is loaded and, if it is there, sent; every attempt is marked, then logged |
| Dispatcher.RetryWorker.Work | internal/dispatcher/retry.go:59-88 | under any interference the steps of a round are exactly these: query, one reading of the clock, for each item in order a reset if its wait is over and else none, and a request for a sweep if and only if a row was reset |
| Dispatcher.RetryWorker.Reschedule | internal/dispatcher/retry.go:66-84 | the clock is read once for the whole list; exactly the due items are reset, and the returned number is that of the resets that succeeded |
| Intake.StepInv | cmd/abb/main.go:268-299 | every step of every call keeps: keys are distinct, and each channel that the inserting call has passed has its row or its failed statement |
| Intake.OneRowPerKey | internal/db/messages.go:10-32 | however often and from wherever messages are presented, there is one row per android_id, and a call that returned nil has left its key in the table |
| Intake.NoExtraRows | cmd/abb/main.go:295-299 | a message never has more outbox rows for a channel than the configuration names that channel |
| Intake.AllRowsIff | cmd/abb/main.go:268-299 | it has exactly the configured rows if and only if the inserting call went through all channels and each of its statements inserted its row |
| Intake.OnlyTheInserterCreates | cmd/abb/main.go:273-299 | an outbox row is added only by the call that inserted its message |
| Intake.SettledStays | cmd/abb/main.go:273-275 | once that call has returned or crashed, no run ever changes the message's outbox rows |
| Intake.CrashLosesRows | cmd/abb/main.go:268-299 | a complete run in which a message ends without outbox rows although its source was told that it is stored |
| Intake.KeysGrow | internal/db/messages.go:12-19 | messages are only added, at the end |
| SaveAndEnqueue.Store.SaveMessage | internal/db/messages.go:10-32 | without error the returned id is that of the key's row; isNew holds exactly if the insert succeeds and the key was not there; the steps are the insert and, for a duplicate, the look-up |
| SaveAndEnqueue.Store.SaveAndEnqueue | cmd/abb/main.go:259-308 | beside any other calls: nil is returned exactly if the message is new or its duplicate is found, and then the key is stored; the steps of a call that inserted the message are one CreateOutboxEntry for each channel, in order |
| Keys.MessageKeyInjective | internal/modem/worker.go:411-416 | equal keys mean the same modem, sender, second and body, for IMEIs of digits, senders without a bar and an injective hash |
| Keys.PreimageInjective | internal/modem/worker.go:413-416 | the hashed text determines sender, time (negative ones too) and body when the senders hold no bar |
| Keys.SendersCollideIff | internal/modem/worker.go:413-416 | two different senders can share a hashed text if and only if one reads as the other followed by a bar, a number, a bar |
| Keys.SameSender | internal/modem/worker.go:413-416 | for one sender the key determines time and body without any condition |
| Reader.IndexIff | internal/modem/worker.go:263-282 | a line is taken for the header of slot i if and only if it is +CMGL:, white space, digits that read as i, a comma and any rest |
| Worker.Worker.ListStored | internal/modem/worker.go:268-271 | a listing shows every stored PDU once, in any order, under a header with any status and fields |
| Worker.Worker.Collect | internal/modem/worker.go:273-311 | the pairing loop yields the segments grouped by key in listing order, the keys in order of first appearance, the PDUs of other types, and the undecodable indexes |
| Worker.Worker.SortSegments | internal/modem/worker.go:362-366 | the segments are permuted into ascending part numbers |
| Worker.Worker.BuildMessage | internal/modem/worker.go:361-401 | the message is built from a sorted order of the group, with the clock used only for PDUs without a time |
| Worker.Worker.DeleteSegments | internal/modem/worker.go:350-359 | with deletion on, the modem is asked to delete exactly the group's segments, in part order; only slots of the group are freed, and the report of a bad PDU is forgotten only for confirmed deletions |
| Worker.Worker.DropOrphans | internal/modem/worker.go:342-346 | the modem is asked to delete exactly the listed PDUs of other types |
| Worker.Worker.HandleGroup | internal/modem/worker.go:313-340 | one group is recorded, left waiting, left undecoded, or handed over and then deleted, as the specification decides |
| Worker.Worker.ReadAll | internal/modem/worker.go:265-348 | a successful listing of any form has the effect of the specification on memory and modem, on the messages that the handler is called with and stores, and on the deletions asked for, whatever clock, handler and modem do; a failed listing changes nothing |
| Reading.ListingExact | internal/modem/worker.go:277-298 | what is parsed from a listing is exactly the stored DELIVER segments and the stored PDUs of other types |
| Reading.SameGroupIff | internal/modem/worker.go:298-303 | two PDUs belong to one group if and only if they are in one slot, or both are parts with the same sender, reference and number of parts |
| Reading.MembersExact | internal/modem/worker.go:298-310 | a group holds exactly the segments with its key |
| Reading.OrderExact | internal/modem/worker.go:304-309 | the keys visited are exactly those of the listed segments, each once |
| Reading.VisitAllEffect | internal/modem/worker.go:313-340 | groups do not disturb each other: each is treated as if it were alone, and memory of unlisted groups is untouched |
| Reading.FreedIffHandedOver | internal/modem/worker.go:334-339 | without failures a segment is deleted exactly when its group is ready and its text decodes |
| Reading.ReadAllIsExact | internal/modem/worker.go:265-348 | with deletion on and no failures, one message is handed over per ready group that decodes, and the modem keeps exactly the undecodable PDUs and the segments of the groups held back |
| Reading.HandedInOrder | internal/modem/worker.go:313-334 | the messages handed over in one call are those of the ready groups that decode: one for each, in the order of the groups, and no others |
| Reassembly.StorageOrderIrrelevant | internal/modem/worker.go:265-378 | two calls of ReadAll on modems that hold the same PDUs, in any slots and listed in any order, hand over the same messages, when part numbers differ within each group, the handlers store what they get, and the clock tells the same of each group: whether it has waited long enough, and when a PDU without a time came |
| Reassembly.CompleteBody | internal/modem/worker.go:361-378 | a complete group of differently numbered parts yields the texts of part 1, part 2 and so on, without the marker |
| Reassembly.CountedIsWholeIff | internal/modem/worker.go:315 | a group that passes the test holds every part number if and only if its surplus segments, out of range or with a number seen before, are just as many as it has too many; with exactly enough segments, if and only if none is out of range or repeated |
| Reassembly.ResentPartPassesAsWhole | internal/modem/worker.go:313-331 | a listing with part 1 of 2 stored twice, for which the message is offered without the marker although part 2 is missing |
| Reassembly.SortIsUnique | internal/modem/worker.go:362-366 | differently numbered PDUs have one sorted order |
| ReaderTimeout.TableIsHistory | internal/modem/worker.go:316-325 | the table of first sightings holds a time for a group exactly when a call recorded it then and none has handed the group over since |
| ReaderTimeout.SetSinceIff | internal/modem/worker.go:316-338 | "recorded since" means that there is a call that recorded it, with no handing over in between |
| ReaderTimeout.OfferedIff | internal/modem/worker.go:314-401 | over any run of calls, a group is offered if and only if its text decodes and it is either whole, and then unmarked, or was recorded at least ten minutes earlier and not handed over since, and then marked; sender and time are those of its first part, and key, modem, SIM and number those of the modem |
| ReaderTimeout.HandedIsWholeOrExpired | internal/modem/worker.go:314-338 | every message that a call adds is unmarked and whole, or marked and recorded at least ten minutes before |
| ReaderCrash.StepInv | internal/modem/worker.go:313-359 | arrivals, listings, failing handlers, failing deletions, crashes and restarts keep: nothing leaves the modem before a message built from it is in the table, and what the reader will still delete has not been replaced meanwhile |
| ReaderCrash.StoredBeforeDeleted | internal/modem/worker.go:265-359 | in every reachable state a PDU that ever arrived is on the modem, or was decodable, and if it is a message part, then the table holds sender, second and body of a message built from DELIVER PDUs of one SMS, this one among them, each once, in part order, and marked exactly when some are missing |
| ReaderCrash.RowsStay | internal/db/messages.go:12-19 | a row of the messages table stays unchanged for good |
| ReaderCrash.RereadIsDuplicateIff | internal/modem/worker.go:380-387 | reading the same group again makes the same key if and only if its PDU carries a time or both readings fall in one second |
| ReaderCrash.TakesOneIn | internal/modem/worker.go:265-359 | a complete run in which an SMS of one part arrives, is stored with its text, and is deleted from the modem |
| AtPort.StepInv | internal/modem/at.go:80-164 | every step of modem, reader, command and URC consumer keeps: what the command has taken and what is still under way make up its response, in order |
| AtPort.ReturnsWhatComes | internal/modem/at.go:95-164 | the exact law: unless a line is dropped, the first result code among the late lines and then its own response decides what a command returns: the lines before it, as a success after OK and as an error after ERROR, +CME ERROR and +CMS ERROR |
| AtPort.CodeDecides | internal/modem/at.go:143-161 | the switch of Command over any lines: those before the first result code that is not the echo, without echoes, with success or error by that code |
| AtPort.EndsIff | internal/modem/at.go:143-161 | the loop ends exactly when there is such a code |
| AtPort.UrcIff | internal/modem/at.go:17-31 | a line is a URC if and only if it starts with one of the twelve texts |
| AtPort.UrcTransparent | internal/modem/at.go:95-164 | whatever URCs are mixed in, a command to which no line of an earlier response can come returns what the first result code of its own response makes of the lines before it, unless a line is dropped |
| AtPort.LateLinesDecide | internal/modem/at.go:123-161 | late lines with a result code are the whole answer; late lines without one come in front of the own lines, and the answer is right if and only if each of them is the echo |
| AtPort.NothingMixes | internal/modem/at.go:95-164 | with no command giving up and well formed responses of at most 256 lines, no line is dropped, every command returns the lines of its response, as a success if and only if that ends with OK, and the URC queue gets only URCs |
| AtPort.RoomForReply | internal/modem/at.go:54-103 | then the one-second drop of a response line cannot happen |
| AtListing.ListingSurvivesUrcs | internal/modem/at.go:115-164 | a listing read through the channel, with or without echo, arrives intact if and only if the late lines before it, none of them a result code, are echoes; the reader finds in it exactly the stored PDUs |
| AtListing.HexIsPlain | internal/modem/at.go:19-31 | no line of hexadecimal digits is taken for a URC, a result code or the echo |
| AtListing.HeaderIsPlain | internal/modem/at.go:19-31 | nor is any +CMGL line |
| AtListing.PlainReply | internal/modem/at.go:143-161 | a response of plain lines and a result code, with or without echo, returns exactly those lines: as a success after OK, and with the code as an error after any other |
| AtListing.TimeoutAnswers | internal/modem/at.go:123-139 | for every response with a result code, a complete run in which it is returned whole to the command after the one that gave up on it, whatever that command's own response is |
| AtListing.TimeoutMixes | internal/modem/at.go:123-139 | a complete run in which the late line of a timed-out command is returned as the answer to the next one |
| CommandPort.ATPort.Command | internal/modem/at.go:113-164 | beside modem and reader: the steps of a command are exactly dropping leftovers, raising the flag, writing, looking at the queue until a result code or the end of patience, and lowering the flag; unless a line is dropped it returns what the first result code makes of the lines before it; on a closed port it does nothing |
| CommandPort.ATPort.Drain | internal/modem/at.go:125-128 | dropping leftovers ends, although the reader may still add a line, and takes no other steps |
| CommandPort.ATPort.Dispatch | internal/modem/at.go:95-111 | a line that is no URC and is awaited goes to the response queue, any other to the URC queue; either way it is dropped exactly when that queue is full |
| CommandPort.ATPort.ReadLoop | internal/modem/at.go:80-111 | beside commands and modem, each line that is there is read, looked at, and put into a queue or dropped |
| RowParser.DateIsLastComma | internal/adb/sms.go:24-26 | the date suffix always starts at the row's last comma |
| RowParser.BodyStartsBeforeDate | internal/adb/sms.go:325-328 | the slice for the body is always in range |
| RowParser.PanicsIff | internal/adb/sms.go:317-323 | a row makes parseRow panic if and only if it has all fields and its first body tag starts before its first address tag ends; the slice for the body is always in range |
| RowParser.SimFound | internal/adb/sms.go:330-333 | an integer SIM column is found before anything in the text that looks like one |
| RowParser.RowRoundTripIff | internal/adb/sms.go:304-341 | a printed row is read back if and only if its address holds no body tag, its time fits 64 bits, and without an integer SIM column nothing in it reads like one |
| SmsOutput.ParseSMSOutput | internal/adb/sms.go:276-302 | the loop returns the messages of all parts that are not blank, or the first row's error, and does not return from a row that makes parseRow panic |
| SmsOutput.ParseRowsIff | internal/adb/sms.go:288-301 | all messages are returned if and only if every part that is not blank can be read; the parser panics if and only if it does so on the first part that cannot |
| SmsOutput.OutputKinds | internal/adb/sms.go:279-285 | blank output and output that starts with the text for an empty inbox are no messages; any other output is a database error if and only if it holds one of the two error texts |
| SmsOutput.EmptyInbox | internal/adb/sms.go:279-282 | what the phone prints for an empty inbox, with any white space around it, is no messages |
| SmsOutput.OneRowIff | internal/adb/sms.go:19-20 | a printed row is cut only at lines inside its address or body that look like a row header |
| SmsRoundTrip.CutRowByRow | internal/adb/sms.go:288-301 | printed output is cut row by row: the parts made of one row's fields do not depend on the rows around it |
| SmsRoundTrip.RoundTripIff | internal/adb/sms.go:276-341 | the parser gives back any printed rows, in order and with every body unchanged, if and only if the output holds no error text, every row is readable, and no later line of an address or body looks like a row header |
| SmsRoundTrip.PrintedOutcome | internal/adb/sms.go:276-341 | of any printed rows: when the parser reports a database error, when it returns messages, and when it panics, by the parts that the rows are cut into |
| SmsRoundTrip.OneMessagePerRow | internal/adb/sms.go:288-301 | a successful parse has one message per part that is not blank |
| SmsRoundTrip.BrokenRows | internal/adb/sms.go:288-301 | a row header inside a row makes more parts than rows, and if they can all be read, more messages than rows |
| SmsLimits.PrintIsAmbiguous | internal/adb/sms.go:19-20 | for any two rows there is one row that prints exactly like the two: no parser can tell them apart |
| SmsLimits.PanicsAtSecond | internal/adb/sms.go:317-323 | a family of message texts, continued like a second row without an address, at which the parser panics |
| SmsLimits.TextAtWhichItPanics | internal/adb/sms.go:317-323 | one of them in full: a single received message at whose printed row the parser panics |
| Poller.Poller.PollOnce | internal/adb/sms.go:182-255 | a poll emits the messages above the cursor in inbox order and moves the cursor to the largest id; errors and a cancelled context leave the cursor; a panic in the parser ends the process before anything is emitted |
| Poller.PollExact | internal/adb/sms.go:230-254 | the ids emitted by one poll, and the new cursor, for every snapshot |
| Poller.PollEmitsRows | internal/adb/sms.go:182-255 | from a printed inbox that can be read back a poll emits the rows above the cursor, in inbox order, each with its id, address, body, time, device name and SIM name, unless it is cancelled before the end |
| Poller.NoAnswer | internal/adb/sms.go:182-209 | a poll that is cancelled, does not see its device or gets no answer does nothing |
| Poller.CursorClimbs | internal/adb/sms.go:252-254 | the cursor never goes back |
| Poller.EmittedIff | internal/adb/sms.go:230-254 | a poll emits an id if and only if its snapshot holds it and it exceeds the start cursor and every id of the snapshots before, whatever the row order |
| Poller.NeverTwice | internal/adb/sms.go:230-254 | no two polls of a poller emit the same id, cancelled polls included |
| Poller.FreshDistinct | internal/adb/sms.go:230-250 | nor does one poll, for a snapshot of distinct ids |
| Poller.EmittedOnce | internal/adb/sms.go:230-254 | if new ids exceed all earlier ones, every id above the start cursor in a completed snapshot is emitted by exactly one poll, no later than that one |
| Poller.DiesIff | internal/adb/sms.go:182-222 | a poll of printed rows ends the process if and only if the first row in them that cannot be read makes parseRow panic, whatever the cursor and the query |
| Poller.QueryCountsErrors | internal/adb/sms.go:205-222 | over any run the query in use tells how many database errors there have been, up to two; nothing else moves it |
| Manager.DelayAfter | internal/modem/manager.go:169-183 | the doubling loop yields min(interval x 2^(n-1), 5 min), with 10 s for an unset interval |
| Manager.OneWorkerPerPath | internal/modem/manager.go:101-126 | at any time a USB path has at most one worker, the marked paths are exactly those with one, and failure counts and waits are kept for the same paths |
| Manager.FailsIsStreak | internal/modem/manager.go:129-183 | the table counts the failed inits since the last success or the last scan that did not see the path |
| Manager.NotTriedEarly | internal/modem/manager.go:101-183 | after the n-th failure in a row no init starts before min(interval x 2^(n-1), 5 min) has passed, with 10 s for an unset interval, unless a scan found the path unplugged |
| Manager.StartsIff | internal/modem/manager.go:101-183 | a scan that visits a path starts a worker if and only if it has none and has not failed, or that wait has passed since its last failure |
| ManagerWork.Manager.ForgetAbsent | internal/modem/manager.go:94-102 | exactly the failures of absent paths are forgotten |
| ManagerWork.Manager.Scan | internal/modem/manager.go:84-127 | a scan beside any workers is a run of the machine that visits exactly the discovered paths, in order; a failed listing changes nothing |
| ManagerWork.Manager.RecordFailure | internal/modem/manager.go:169-185 | one more failure is counted, and the path waits for the returned delay |
| ManagerWork.Manager.WorkerGoroutine | internal/modem/manager.go:114-167 | beside scans and other workers the steps of a worker are exactly these: its init ends; a failure is recorded unless the context was cancelled, a success is recorded and the worker runs; its path is unmarked |
| Watcher.PickExact | internal/adb/watcher.go:30-43 | the chosen device is the first that is online and wanted; none is chosen exactly when there is none |
| Watcher.Watcher.Check | internal/adb/watcher.go:82-102 | an event is sent exactly when presence has changed; a list error sends none |
| Watcher.MainLoop.OnEvent | cmd/abb/main.go:128-177 | a connect adds one live poller for its device and touches no other; a disconnect ends just the remembered one; with at most the remembered poller live, a connect from none leaves exactly one, and a disconnect none |
| Watcher.EventsAlternate | internal/adb/watcher.go:91-101 | events alternate, starting with a connect, for every series of lists and errors |
| Watcher.OnePoller | cmd/abb/main.go:115-177 | there is never more than one uncancelled poller; there is one exactly when the last finished event is a connect, and it polls that device |
| Watcher.PollerFollowsDevice | cmd/abb/main.go:115-177 | with all events worked off, there is a poller if and only if the last readable device list held a wanted device online |
| Watcher.PollsFirstFound | internal/adb/watcher.go:82-102 | then the polled device is the one found first since none was there; it is missing from the last list if and only if no serial was configured and it has gone while another device was there |
| Watcher.PollerOutlivesDevice | internal/adb/watcher.go:91-101 | a complete run in which one device replaces another between two checks and the old one is still polled |
| WrapDigits.Undone | internal/sender/telegram.go:22-29 | for every text, removing the tags and decoding the entities gives the text back |
| WrapDigits.WrappedExactly | internal/sender/telegram.go:19-29 | the result is the text escaped character by character, with tags exactly around the text's own maximal runs of three or more digits |

## Left out

- Telegram, SMTP, ntfy and Yandex requests: `Send` is a step that succeeds or fails; translation does not touch delivery.
- PDU decoding and text decoding of the SMS library: parameters.
- SHA-1: a parameter, injective where stated; its cut to 8 bytes makes collisions possible that the model excludes there.
- Columns that decide nothing: last_error, sent_at, error, translation.
- Time parsing and formatting, the heuristic for Georgian in Latin letters, device discovery, serial ports, SIM setup,
  labels, configuration, metrics, logging, and the rest of the Telegram message layout.
- Blocking on mutexes: a method starts when its lock has been granted; the order in which waiting callers get it is open.
- A statement that takes effect and yet reports an error, except where messages and outbox rows are inserted (`Intake`): in
  `Delivery` a statement that fails has no effect.
- PDUs that arrive during one call of ReadAll are part of `ReaderCrash`, not of the class in `Worker`.
- Messages emitted by the poller but not saved, and messages skipped on reconnect: `processMessages` ignores save errors, so
  only the cursor is treated there.
- What follows a panic: the run of a poller ends with it, and a new process starts with a cursor of its own.
- `logFirstSMSRow`, which only logs.
- Backoff.Backoff: for a base outside [0, 2^62) ns (146 years) only the first wait is stated.
- CommandPort.ATPort.Command: the timer is a number of looks at the queue, because real time has no place in a loop.
- CommandPort.ATPort.ReadLoop: only for the lines that are there when it starts.
- Worker.Worker.SortSegments: the order of equal part numbers is left open, as sort.Slice leaves it.
