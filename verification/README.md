# A verified model of accur8 godev

The project models the parts of the repository whose correctness depends on state, order or
interleaving, and proves properties of them for every input and every run.

- **The WAL listener** (`wal-listener/listener`). `Protocol` holds the logical replication messages and
  the encoder of section 55.9 of the PostgreSQL 16 documentation; `Decoding` says what the parser makes of
  a byte string, Go panics included; `Parser` is the parser object over a read buffer; `Transaction` the
  transaction object; `Listener` the delivery loop of one goroutine with a publisher and a replicator that
  fail in any pattern. `RoundTrip` proves the decoder inverse to the encoder, and exactly when;
  `EndToEnd` proves that what is published is what an interpreter of the transactions themselves says;
  `WireBytes` writes the bytes themselves out, whole messages and malformed ones;
  `Delivery` is the machine of the two goroutines (stream loop and heartbeat loop) and holds the
  delivery guarantees over every interleaving; `Heartbeats` says what the two hand to the server,
  `Rejections` which messages are refused; `CommitTimes` says under whose commit time events go out
  when publishes fail, `JoiningRow` exhibits one under none; `SoloRuns` shows that the object's loop is
  one of the machine's runs; `WholeTransactions` follows well-formed transactions through any failures;
  `ServerView` says what the server may conclude from a reported position, `ReceivedRows` which of the
  rows received went out, and `RejectedRow` exhibits one that did not.
- **The journal slurper** (`launchy/journalctl-utils.go`). `SlurpMachine` is the machine of the journal
  reader, the publishers and the pid watchers, with the `sync.Once` that two of them share; `SlurpSteps`
  says what each step keeps, `SlurpLifecycle` what holds in every run;
  `SlurpProgress` says when the reader goes on, `SlurpReader` what each line does, `SlurpLines` what
  becomes of the lines queued; `Batcher` is a publisher's batching loop, over an array that is cleared and
  reused, `BatchWindow` says when it writes; `SlurpDelivery` runs slurps and batchers together, from the
  journal to the records.
- **The reconcilers**. `Reconcile` is the agent's pass over the systemd units composed with the server's
  handling of the changes it asks for; `Consumers` is the server's update cycle over its running
  consumers, interleaved with consumers that end on their own.
- **The goroutine protocols** (`a8/a8.go`). `FanIn` (errors of several app functions), `RunApp` (shutdown
  by signal), `MultiApp` (the first inside the second, as the code runs them) and `RunPar` (one goroutine
  per item), each for every schedule; `Tally` holds the sums they count with.
- **Lazy iterators** (`iter`, `iterable`). `Iterators` proves that any chain of filters and maps, drained,
  gives what the same eager operations give; `Slices` holds the slice helpers.

Results of the proofs that a reader of the code may not expect:

- An update or delete whose key row has between 0x4F00 and 0x4FFF columns is misread, and no other message
  is (`RoundTrip.DecodeInvertsEncode`). PostgreSQL allows 1600 columns.
- A timestamp is exact if and only if it lies within 9223372036854775 microseconds of the epoch
  (`RoundTrip.TimestampExact`); beyond that an int64 product wraps.
- The positions need not stay below 2^63 for `EndToEnd.PublishesTheTransactions`: any nonzero one will do.
- The first record of every batcher starts with four nil buffers (`Batcher.NoBufferIsLost`).
- When a service's pid ends before the journal says so, its slurp is shut down but stays attached to the
  service. The journal reader, which serves all services, then waits for good at the first app line that
  finds a hundred untaken lines in the queue (`SlurpProgress.ReaderCanBlock`). That is the only way it gets
  stuck: a reader at work can reach its next line if and only if it is not in that state
  (`SlurpProgress.ReaderGoesOn`), and it never is as long as no pid ends early
  (`SlurpProgress.NeverBlockedWhilePidsLast`).
- Lines that are queued are lost when their publisher leaves its loop, which it may do as soon as its
  context is done: on an ordinary stop (`SlurpLines.StopCanLoseALine`) as well as when a pid ends. Queued
  lines can still be taken if and only if the publisher has not left (`SlurpLines.QueuedLinesCanBeTaken`);
  one that has left took everything if and only if it saw its context done with an empty channel and
  nothing was put there afterwards (`SlurpLines.LeftHasTakenAll`).
- A batch whose publish failed stays pending with its commit time, and what is accepted before it goes
  through goes out with it. Every attempt carries its actions' own commit times if and only if no row, and
  no commit of another time, is accepted while a commit is pending (`CommitTimes.OwnCommitTimes`), which
  holds as long as no publish fails (`CommitTimes.NoFailureNoJoin`). `JoiningRow.RowCanJoin` is a run in
  which a row's event is published while the row is under no commit.
- A message that is rejected is only logged, and the position moves past it
  (`RejectedRow.RejectedRowIsPassed`). Where no commit is pending, as at every position stored, every row
  received has gone out if and only if none was rejected and nothing is pending; a single row, if and only
  if it was accepted and is no longer pending, under a commit of its own or not
  (`ReceivedRows.ReceivedRowsAreOut`).
- So a reported position says less than it might: everything under an accepted commit by then is out
  (`ServerView.ReportedCommitsAreOut`), which need not be all that was sent by then. It is all of it when
  the messages up to there are those of well-formed transactions (`WholeTransactions.ReportedTransactionsAreOut`).
- A consumer that ends on its own keeps its entry and is not started again while its row stays the same
  (`Consumers.EndedConsumersStay`; `Consumers.ConsumerIsNotRestarted` is such a run).
- `SystemdServiceCrud` runs its statements without a transaction: an error leaves those before it in
  place. `Reconcile.RetryConverges` shows that the next pass still converges.
- Where the code and its own comments disagree the code is followed: an update's 'N' flag is kept in the
  field described as the old-tuple flag, and the new-tuple field is never set (protocol.go:111-117,
  parser.go:202); the filter by table and action never drops an event (wal_transaction.go:203-247).

## Model

| member | source | states |
|---|---|---|
| BigEndian.SignedOfPutInt | wal-listener/listener/parser.go:218-244 | reading a two's-complement integer of any width gives back the value written |
| BigEndian.PutIntOfSigned | wal-listener/listener/parser.go:218-244 | no two byte strings of one width stand for the same integer |
| Decoding.IndexOfIsFirst | wal-listener/listener/parser.go:252-256 | a string ends at its first NUL, and only there |
| Decoding.ManyRoundTrip | wal-listener/listener/parser.go:289-308 | a counted list reads back when each of its parts does, leaving exactly what follows it |
| RoundTrip.CellRoundTrip | wal-listener/listener/parser.go:294-304 | one column value of any kind reads back, whatever follows it |
| RoundTrip.RowRoundTrip | wal-listener/listener/parser.go:289-308 | a row of up to 32767 columns reads back and is consumed exactly |
| RoundTrip.ColumnsRoundTrip | wal-listener/listener/parser.go:273-287 | the column list of a Relation message reads back |
| RoundTrip.ControlRoundTrip | wal-listener/listener/parser.go:158-173 | Begin, Commit and Relation messages with NUL-free names and any field values decode to themselves, buffer consumed |
| RoundTrip.RelationRoundTrip | wal-listener/listener/parser.go:208-216 | the same for Relation, with up to 32767 columns |
| RoundTrip.InsertRoundTrip | wal-listener/listener/parser.go:175-181 | every Insert decodes to itself |
| RoundTrip.DeleteRoundTrip | wal-listener/listener/parser.go:183-190 | a Delete decodes to itself if and only if its key row does not have 0x4F00 to 0x4FFF columns |
| RoundTrip.UpdateRoundTrip | wal-listener/listener/parser.go:192-206 | the same for an Update without old row, with a key row, or with a full old row |
| RoundTrip.MisreadKey | wal-listener/listener/parser.go:264-271 | why: the flag probe takes the high byte of such a count for an 'O', and the row then read has another length |
| RoundTrip.DecodeInvertsEncode | wal-listener/listener/parser.go:28-156 | decoding inverts the encoder on every message the format can carry, if and only if it is not of that kind |
| RoundTrip.MeaningIsDetermined | wal-listener/listener/parser.go:28-156 | messages with equal encodings mean the same |
| RoundTrip.NullToastAndEmptyText | wal-listener/listener/parser.go:294-304 | two values decode alike if and only if they are equal or neither is a text: null and unchanged TOAST are identified, an empty text is kept apart |
| RoundTrip.TimestampExact | wal-listener/listener/parser.go:246-250 | a timestamp is exact if and only if the microseconds lie within the bound at which int64 wraps, and differs by a multiple of 2^64 otherwise |
| WireBytes.TypeLetters | wal-listener/listener/protocol.go:7-33 | the first byte of every message, letter by letter |
| WireBytes.LettersChoose | wal-listener/listener/parser.go:36-155 | whatever the bytes, the decoder chooses by exactly these letters |
| WireBytes.CellLetters | wal-listener/listener/protocol.go:38-45 | the tags 'n', 'u' and 't', and the four length bytes before a text |
| WireBytes.CellIsRead | wal-listener/listener/parser.go:294-304 | only a 't' is followed by a length and a text; any other tag is one byte long |
| WireBytes.MostSignificantFirst | wal-listener/listener/parser.go:218-244 | integers of any width are big-endian, the top bit of the first byte is the sign |
| WireBytes.BeginBytes | wal-listener/listener/parser.go:158-164 | any Begin message, by the offsets of its fields |
| WireBytes.CommitBytes | wal-listener/listener/parser.go:166-173 | any Commit message, by the offsets of its fields |
| WireBytes.RelationBytes | wal-listener/listener/parser.go:208-216 | a Relation message byte by byte, names NUL-terminated, key flag 1 |
| WireBytes.InsertBytes | wal-listener/listener/parser.go:175-181 | 'I', the relation, 'N' and the row are read as the Insert they are |
| WireBytes.DeleteBytes | wal-listener/listener/parser.go:183-190 | 'D' with 'K' or 'O', likewise, outside the misread range and only there |
| WireBytes.UpdateBytes | wal-listener/listener/parser.go:192-206 | 'U' without an old part |
| WireBytes.KeyUpdateBytes | wal-listener/listener/parser.go:192-206 | 'U' with 'K' and a key, outside the misread range and only there |
| WireBytes.FullUpdateBytes | wal-listener/listener/parser.go:192-206 | 'U' with 'O' and a full old row |
| WireBytes.RowBytes | wal-listener/listener/parser.go:289-308 | a row is its number of values in two bytes, then the values in turn |
| WireBytes.ShortControl | wal-listener/listener/parser.go:218-250 | what is missing from a Begin or Commit reads as zero; neither ever panics |
| WireBytes.MalformedRowsPanic | wal-listener/listener/parser.go:264-308 | a row message cut off before its flag, a negative count or length, and missing values panic |
| Parser.Buffer.UnreadByte | wal-listener/listener/parser.go:268 | the read position goes back by one, after a read only |
| Parser.Buffer.ReadBytes | wal-listener/listener/parser.go:253 | consumes through the first delimiter, or everything |
| Parser.TrimNul | wal-listener/listener/parser.go:255 | what is cut off at both ends is NULs, and the ends that stay are not |
| Parser.BinaryParser.ReadString | wal-listener/listener/parser.go:252-256 | the bytes before the first NUL, which is consumed too |
| Parser.BinaryParser.CharIsExists | wal-listener/listener/parser.go:264-271 | the byte is consumed only when it is the one asked for |
| Parser.BinaryParser.ReadTimestamp | wal-listener/listener/parser.go:246-250 | the product taken in int64 |
| Parser.BinaryParser.ReadColumns | wal-listener/listener/parser.go:273-287 | the slice filled by index is the column list at the read position |
| Parser.BinaryParser.ReadTupleData | wal-listener/listener/parser.go:289-308 | the slice filled by index is the row at the read position; slots of other tags stay nil |
| Parser.BinaryParser.GetBeginMsg | wal-listener/listener/parser.go:158-164 | the fields in wire order, each consumed once |
| Parser.BinaryParser.GetCommitMsg | wal-listener/listener/parser.go:166-173 | the fields in wire order, each consumed once |
| Parser.BinaryParser.GetRelationMsg | wal-listener/listener/parser.go:208-216 | the fields in wire order, each consumed once |
| Parser.BinaryParser.GetInsertMsg | wal-listener/listener/parser.go:175-181 | relation, flag, row |
| Parser.BinaryParser.GetDeleteMsg | wal-listener/listener/parser.go:183-190 | relation, two probed flags, row |
| Parser.BinaryParser.GetUpdateMsg | wal-listener/listener/parser.go:192-206 | an old row only after 'K' or 'O', then the new row |
| Parser.BinaryParser.ParseWalMessage | wal-listener/listener/parser.go:28-156 | the object does to the transaction what decoding and applying the message says; any error leaves the transaction as it was |
| Parser.BinaryParser.ParseControl | wal-listener/listener/parser.go:37-91 | Begin, Commit and Relation with their lost-message errors |
| Parser.BinaryParser.StoredColumns | wal-listener/listener/parser.go:82-89 | every announced column is stored without a value, in order |
| Parser.BinaryParser.ParseRow | wal-listener/listener/parser.go:97-150 | Insert, Update and Delete append one action or fail |
| Transaction.DataMeaning | wal-listener/listener/wal_transaction.go:209-219 | an event's data has exactly the columns' names; of columns with one name the last counts |
| Transaction.WhatPanics | wal-listener/listener/wal_transaction.go:78-144 | pairing panics exactly for a row longer than its relation or an empty text under type oid 3802 |
| Transaction.WalTransaction.Clear | wal-listener/listener/wal_transaction.go:147-151 | actions and times go, LSN and relations stay |
| Transaction.WalTransaction.FillColumns | wal-listener/listener/wal_transaction.go:171-196 | values are paired with the relation's columns by position |
| Transaction.WalTransaction.CreateActionData | wal-listener/listener/wal_transaction.go:154-201 | the action of a row message, or an error exactly when its relation is unknown |
| Transaction.WalTransaction.CollectData | wal-listener/listener/wal_transaction.go:209-219 | the loop over columns builds the data map of DataMeaning |
| Transaction.WalTransaction.CreateEvents | wal-listener/listener/wal_transaction.go:205-251 | one event per action, in order, with the commit time |
| Listener.Successes | wal-listener/listener/listener.go:256-262 | the number of publishes before the first that fails |
| Listener.Listener.PublishAll | wal-listener/listener/listener.go:256-273 | publishing stops at the first failure; exactly the events before it were published |
| Listener.Listener.AckWalMessage | wal-listener/listener/listener.go:369-377 | the position moves before its status is sent, whatever becomes of the status |
| Listener.Listener.SendStandbyStatus | wal-listener/listener/listener.go:351-366 | reports the current position |
| Listener.Listener.PublishAndAck | wal-listener/listener/listener.go:255-287 | publish all, clear, then acknowledge; a failed publish leaves transaction and position alone |
| Listener.Listener.ProcessMessage | wal-listener/listener/listener.go:242-288 | one message: parse, publish, acknowledge, with the three kinds of problem |
| Listener.Listener.ProcessHeartBeat | wal-listener/listener/listener.go:290-308 | one status, only when a reply is requested |
| Listener.Listener.Stream | wal-listener/listener/listener.go:203-240 | the loop over an inbox is the fold of its steps |
| EndToEnd.DataIsNamedRow | wal-listener/listener/wal_transaction.go:171-219 | an event's data is the row under the column names of the relation, by position |
| EndToEnd.RowEventSays | wal-listener/listener/wal_transaction.go:154-232 | the interpreter's event of a row message, field by field: schema, table, action, time, and under each column name the text of the last column of that name |
| EndToEnd.RowStep | wal-listener/listener/parser.go:97-150 | an encoded row message adds the action whose event the interpreter expects |
| EndToEnd.BodySteps | wal-listener/listener/parser.go:62-150 | the messages of a transaction leave pending exactly its events, named by the latest Relation messages |
| EndToEnd.TxnSteps | wal-listener/listener/listener.go:242-288 | Begin to Commit publishes exactly the transaction's events under its own commit time and leaves nothing pending |
| EndToEnd.StreamedIsSteps | wal-listener/listener/listener.go:218-239 | heartbeats and lost statuses between the messages change nothing of what is published |
| EndToEnd.PublishesTheTransactions | wal-listener/listener/listener.go:203-288 | for every sequence of well-formed transactions the published events are those of the interpreter, in order; nothing stays pending and the furthest position is acknowledged |
| Delivery.AcceptedExtends | wal-listener/listener/parser.go:28-156 | an accepted message only appends actions, and only a Commit gives them a commit time |
| Delivery.InvariantOverRuns | wal-listener/listener/listener.go:203-391 | every step of either goroutine keeps the accounts of attempts, acknowledgements and reports |
| Delivery.Conservation | wal-listener/listener/listener.go:250-276 | the fully published batches followed by the pending actions are all actions ever appended, in order |
| Delivery.FullBatchWentOut | wal-listener/listener/listener.go:255-276 | a batch counted as full is in the log of events published without error, whole, in order and in one piece |
| Delivery.PositionMovesAfterPublishing | wal-listener/listener/listener.go:278-281 | the position changes only by storing the start of the message in hand, it grows, and every action committed so far has then an event of its own in the log, in order |
| Delivery.PositionOnlyGrows | wal-listener/listener/listener.go:379-391 | over every run the position never goes back |
| Delivery.NothingUnpublishedIsAcknowledged | wal-listener/listener/listener.go:329-366 | every position handed to the server, by either goroutine, is at most the current one and is the initial one or one stored after everything committed up to there was published, each action by an event of its own and in order |
| Delivery.WentOutUpToReach | wal-listener/listener/listener.go:255-276 | action by action: the events any attempt sent are those of the first actions appended, without a gap, up to where the furthest attempt got |
| Delivery.WentOutExactly | wal-listener/listener/listener.go:255-276 | in every run with no commit pending, the event of an action went out if and only if the action is no longer pending |
| Delivery.SentIsLogged | wal-listener/listener/listener.go:255-276 | the event an attempt sent stands in the log behind those of earlier attempts, each action's in its own place |
| Delivery.NextAttempt | wal-listener/listener/listener.go:255-276 | a failed attempt sent a strict part of its batch, and the next one takes the whole batch up from its beginning; after a full batch the next starts where it ended |
| Heartbeats.SentIsWhatWasRead | wal-listener/listener/listener.go:329-391 | in every run, the positions handed over and the one held are those the list of steps says: each status carries what its goroutine read last, and that is the start of the message at the last store |
| Heartbeats.SentCountsStatuses | wal-listener/listener/listener.go:351-366 | as many positions are handed over as statuses are built |
| Heartbeats.BeatHandsOver | wal-listener/listener/listener.go:329-349 | a heartbeat, with any steps of the stream loop between its own, hands over the position as it was when it was read |
| Heartbeats.BeatGoesOn | wal-listener/listener/listener.go:329-349 | the next step of the heartbeat loop is always possible, and touches nothing of the stream loop's |
| Heartbeats.PositionCanBeReported | wal-listener/listener/listener.go:329-366 | from every reachable state heartbeat steps alone get the position to the server |
| Rejections.RunRemembers | wal-listener/listener/parser.go:36-95 | in every run the transaction holds the last Begin's LSN and the latest Relation of each id, and nothing else |
| Rejections.RejectedExactly | wal-listener/listener/parser.go:28-156 | in every run and for any bytes that do not panic: which of the four errors, if any, the next message meets, told from the messages before |
| Rejections.RejectedChangesNothing | wal-listener/listener/listener.go:250-253 | a message that is rejected is only logged |
| CommitTimes.AcceptOwns | wal-listener/listener/listener.go:250-262 | one accepted message: the attempt it begins carries its actions' own commit times if and only if nothing joined a pending commit |
| CommitTimes.OwnCommitTimes | wal-listener/listener/listener.go:250-276 | in every run, every attempt does so if and only if no row and no commit of another time was accepted while a commit was pending |
| CommitTimes.NoFailureNoJoin | wal-listener/listener/listener.go:255-276 | which holds in every run without a failed publish |
| JoiningRow.RowCanJoin | wal-listener/listener/listener.go:255-276 | a run whose log of published events holds that of a row under no commit yet |
| SoloRuns.StreamIsARun | wal-listener/listener/listener.go:203-240 | what the object does to any inbox is a run of the two-goroutine machine that takes in the same messages, with the same actions accepted and committed and the same attempts to publish |
| SoloRuns.ObjectReportsAfterPublishing | wal-listener/listener/listener.go:351-377 | every position the object reports is at most its own, and is the initial one or the start of a message by whose end every committed action had an event of its own in the log, in order |
| SoloRuns.ReportsExactly | wal-listener/listener/listener.go:242-312 | when a message moves the object's position, and exactly which statuses it leads to |
| WholeTransactions.TxnsTracked | wal-listener/listener/parser.go:36-155 | the messages of well-formed transactions, one by one, are each acceptable and say the interpreter's events |
| WholeTransactions.MessageAccepted | wal-listener/listener/parser.go:36-155 | an acceptable message is accepted whatever is pending, and adds exactly its event |
| WholeTransactions.EveryTransactionIsRecorded | wal-listener/listener/listener.go:242-288 | under any failures every message of well-formed transactions is accepted and the actions recorded are exactly the interpreter's events apart from their times; with no commit pending each has an event of its own in the log, in order |
| WholeTransactions.RunRecordsTransactions | wal-listener/listener/listener.go:203-391 | the same record in every run of the two goroutines |
| WholeTransactions.ReportedTransactionsAreOut | wal-listener/listener/listener.go:203-391 | if commits start in order and after the other messages of their transactions, then for every position handed over by either goroutine: the events of all transactions up to a commit at or before it are in the log, each in its own place and in order, provided the messages up to that commit are those of well-formed transactions |
| ServerView.ReportedCommitsAreOut | wal-listener/listener/listener.go:203-391 | the same over any messages, for everything under an accepted commit by then |
| WholeTransactions.ObjectReportedTransactionsAreOut | wal-listener/listener/listener.go:242-377 | for the object's reports: the events of all transactions up to the commit are in its log |
| ServerView.ObjectReportedCommitsAreOut | wal-listener/listener/listener.go:242-377 | over any inbox, everything under an accepted commit by a commit at or before a position the object ever reported is in its log |
| ReceivedRows.RowsAreRecordedOrRejected | wal-listener/listener/parser.go:97-150 | every row received is recorded once or rejected |
| ReceivedRows.CommitCovers | wal-listener/listener/parser.go:48-61 | an accepted commit covers all rows recorded so far, those of rejected commits included; a rejected one covers none |
| ReceivedRows.SentIsPublished | wal-listener/listener/listener.go:255-276 | an event an attempt of the object sent has its own place in what was published |
| ReceivedRows.ReceivedRowsAreOut | wal-listener/listener/listener.go:250-281 | with no commit pending, a row received went out if and only if it was accepted and is no longer pending; every row did if and only if none was rejected and nothing is pending |
| RejectedRow.RejectedRowIsPassed | wal-listener/listener/listener.go:250-281 | an inbox whose rejected row the position moves past |
| Batcher.KeptOverRuns | launchy/journalctl-utils.go:474-521 | every turn of the loop keeps the batcher's accounts |
| Batcher.NoBufferIsLost | launchy/journalctl-utils.go:474-521 | records followed by pending buffers are the four initial nils, all in the first record, and then the buffers taken, in order; sizes add up; cancellation flushes everything |
| Batcher.RecordsAreBounded | launchy/journalctl-utils.go:511-516 | with a positive limit every record stays below it but for its last buffer |
| Batcher.WaitIsBounded | launchy/journalctl-utils.go:500-520 | no wait exceeds the capture window when the clock does not go backwards |
| BatchWindow.TurnFlushesExactly | launchy/journalctl-utils.go:500-520 | in every run a turn writes everything pending if the time is up, the timer or the cancellation wakes it or a buffer fills the batch, and writes nothing otherwise |
| BatchWindow.TimerFlushes | launchy/journalctl-utils.go:517-518 | the timer and the cancellation flush, however little is pending |
| BatchWindow.SinceLastFlush | launchy/journalctl-utils.go:500-520 | what is pending was taken after the last flush, turn by turn, within the window it opened |
| BatchWindow.NoBufferWaitsLonger | launchy/journalctl-utils.go:500-520 | with a clock that does not go backwards, a buffer is in the records at the end of any turn that begins a window after the one that took it |
| Batcher.Publisher.Append | launchy/journalctl-utils.go:513 | append in place or into a larger array adds one buffer at the end |
| Batcher.Publisher.SendCurrentBuffers | launchy/journalctl-utils.go:476-499 | the record holds the pending buffers as they were; the shared slots are nil afterwards |
| Batcher.Publisher.TakeTurn | launchy/journalctl-utils.go:500-520 | one turn over the shared array does what the turn on values says |
| Batcher.Publisher.Loop | launchy/journalctl-utils.go:500-521 | the object's loop is the fold of its turns |
| SlurpLifecycle.InvariantOverRuns | launchy/journalctl-utils.go:326-449 | every step of reader, publishers and watchers keeps slurps, attachments and log consistent |
| SlurpLifecycle.CompletedOnceAfterStart | launchy/journalctl-utils.go:326-344 | a process is completed at most once, and only after its start |
| SlurpLifecycle.StartAfterCompletion | launchy/journalctl-utils.go:407-417 | a service is started again only after its previous process was completed |
| SlurpLifecycle.LinesGoToTheNewestSlurp | launchy/journalctl-utils.go:421-434 | every accepted app line is queued once, in order, on the slurp attached when it was read; publishers take lines in that order |
| SlurpReader.AppLinesAreQueued | launchy/journalctl-utils.go:402-434 | what is accepted are exactly the app lines read of services enabled or attached when read; whenever the reader waits, each has been queued once and in order |
| SlurpReader.LineIsServed | launchy/journalctl-utils.go:402-446 | in every run, what a line has done when the reader waits for the next: ended and detached its process, started and attached a newer one, been queued, or nothing; no other service is touched |
| SlurpReader.EndedIsCompleted | launchy/journalctl-utils.go:326-344 | the process of a publisher that has ended has been completed |
| SlurpReader.PidEndCompletes | launchy/journalctl-utils.go:199-220 | when a pid ends the run can go on until its process is completed, whatever the reader is doing |
| SlurpReader.PutNeedsRoom | launchy/journalctl-utils.go:433 | the reader can queue a line exactly when fewer than a hundred are waiting |
| SlurpProgress.LeftTakesNoMore | launchy/journalctl-utils.go:508-510 | lines still queued when a publisher leaves its loop are never taken |
| SlurpProgress.BlockedForGood | launchy/journalctl-utils.go:429-433 | a reader with a line for a full queue whose publisher has left its loop waits through every continuation |
| SlurpProgress.ReachesIdle | launchy/journalctl-utils.go:407-446 | from any other state some continuation takes the reader to its next line |
| SlurpProgress.ReaderGoesOn | launchy/journalctl-utils.go:346-449 | in every run, a reader that has not taken the process down can get to its next line if and only if it is not blocked in that way |
| SlurpProgress.NeverBlockedWhilePidsLast | launchy/journalctl-utils.go:201-220 | in every run in which no pid watcher cancels a slurp the reader is never blocked |
| SlurpProgress.ReaderCanBlock | launchy/journalctl-utils.go:199-220 | for any app line of an enabled service, a run from the start that blocks the reader |
| SlurpLines.QueuedLinesCanBeTaken | launchy/journalctl-utils.go:507-517 | what is queued can still be taken if and only if the publisher has not left its loop |
| SlurpLines.LeftHasTakenAll | launchy/journalctl-utils.go:507-517 | in every run a publisher that has left took every line ever queued if and only if it saw its context done with an empty channel and nothing was put there since |
| SlurpLines.StopCanLoseALine | launchy/journalctl-utils.go:407-412 | for any app line and stop line of a service, a run without an ending pid that loses the line |
| SlurpDelivery.InvOverRuns | launchy/journalctl-utils.go:451-524 | over runs of slurps and batchers together, each batcher took what was taken from its channel, and is done when its publisher left |
| SlurpDelivery.LinesReachTheRecords | launchy/journalctl-utils.go:421-524 | per slurp, records, pending slots and queue hold the lines queued on it, in order; after its publisher left, the records hold all it took |
| Slices.SameItems | a8/a8.go:756-766 | removing duplicates keeps exactly the items |
| Slices.NoDuplicates | a8/a8.go:756-766 | and leaves none twice |
| Slices.KeptWhereFirst | a8/a8.go:756-766 | every item is kept where it stands first, in the order of the list |
| Slices.DistinctStays | a8/a8.go:756-766 | a list without duplicates is left alone, order included |
| Slices.RemoveDupes | a8/a8.go:756-766 | the loop over a map of seen keys gives the first occurrences, in order |
| Slices.ConcatMultipleSlices | a8/a8.go:738-754 | the pre-sized result is filled exactly with the concatenation |
| Reconcile.Agent.RunServiceSlurpLoopOnce | launchy/agent.go:381-480 | the pass visits every name of either side once and asks for the changes of the specification |
| Reconcile.Agent.VisitName | launchy/agent.go:426-466 | insert, update, retire or nothing for one name; the agent's own note is made once |
| Reconcile.Nefario.SystemdServiceCrud | nefario/nefario.go:639-712 | actions are applied in order up to the first that fails, which stops the request; an invalid action refuses it whole |
| Reconcile.Nefario.Exec | nefario/db/query.sql.go:113-143 | an insert that meets its uid is an error |
| Reconcile.RecordsListTheTable | launchy/agent.go:397 | rows with distinct names, put into a map by name, are found under their names |
| Reconcile.PassVisits | launchy/agent.go:426-466 | applying a pass's actions settles exactly the names visited |
| Reconcile.OnePassConverges | launchy/agent.go:396-476 | one pass, applied, makes the minion's rows say field by field what is listed, marks the others as gone once, and inserts new ones not enabled; a row exists exactly if its name is listed; no other row and no other field changes |
| Reconcile.ListingIsStored | launchy/agent.go:381-480 | every listed unit has a row with its name, description, source and status; a row says it exists exactly if its name is listed; names stay unique |
| Reconcile.SecondPassIsStable | launchy/agent.go:426-466 | a later pass over the same listing leaves the table as it is, whatever DeepEqual makes of internal fields, and asks for nothing where DeepEqual sees equal structures as equal |
| Reconcile.NotesFollowRows | launchy/agent.go:457-466 | the agent's notes there were stay; every other name visited gets one, with the fields of its row |
| Reconcile.OneActionPerName | launchy/agent.go:402-448 | a pass asks for at most one action per name |
| Reconcile.InterruptedPass | nefario/nefario.go:35-49 | a request stopped after any number of actions leaves names unique, other rows alone and the coming uids fresh |
| Reconcile.RetryConverges | launchy/agent.go:354-377 | so the next pass, over whatever is listed by then, converges |
| Consumers.Nefario.RunUpdateCycle | nefario/nefario.go:491-554 | the cycle is the machine's run of update, cancellations, count and starts; an empty listing is an error and changes nothing |
| Consumers.Nefario.Compare | nefario/nefario.go:502-524 | the two loops gather the rows to start and the consumers to stop |
| Consumers.DeletesAreStale | nefario/nefario.go:508-524 | what is cancelled are exactly the consumers whose row is gone or changed |
| Consumers.WaitGroupCountsConsumers | nefario/nefario.go:533-549 | over any run of cycles and consumer exits the wait group counts the consumers started and not finished, and never goes negative |
| Consumers.CyclesReconcile | nefario/nefario.go:491-554 | in any run, after a cycle: rows exactly as listed, unchanged consumers the same, exactly the others cancelled, none lost |
| Consumers.ObjectCycleReconciles | nefario/nefario.go:491-554 | the same for the object's cycle from any state a run leads to |
| Consumers.EndedConsumersStay | nefario/nefario.go:508-517 | after a cycle a listed server has no live consumer if and only if its unchanged row's consumer had ended before, or its consumer ended since |
| Consumers.ConsumerIsNotRestarted | nefario/nefario.go:508-517 | for every server a run in which its consumer ends and the next cycle, listing it again, leaves it without one |
| Consumers.RepeatedCycleIsIdle | nefario/nefario.go:502-531 | repeating a cycle with the same rows starts and cancels nothing |
| Consumers.CycleEnds | nefario/nefario.go:526-553 | a cycle is never held up and ends |
| FanIn.SafeOverRuns | a8/a8.go:325-352 | no send on the closed channel, no second close, no negative wait group, no error lost or doubled |
| FanIn.NothingGoesWrong | a8/a8.go:325-352 | the same in plain terms: channel open and wait group positive as long as a worker is not gone, one close, each error handed over as returned |
| FanIn.StepLowersRank | a8/a8.go:325-352 | every step brings the end nearer |
| FanIn.RunsAreBounded | a8/a8.go:325-352 | four steps a worker and four more at most |
| FanIn.SomeStepIsEnabled | a8/a8.go:333-348 | while work is left, some goroutine can go on |
| FanIn.ErrorsFanIn | a8/a8.go:325-352 | for any app functions that return: no panic, never stuck, and in the end all workers are gone and each non-nil error was collected once |
| RunApp.NeverEndsBeforeTheApp | a8/a8.go:371-406 | the call ends only after the app function has returned, and waits only after cancelling its context |
| RunApp.SignalsWait | a8/a8.go:371-402 | until the call has chosen, a signal that arrived is waiting; the context is cancelled from then on, and only for a cause |
| RunApp.SignalCancels | a8/a8.go:389-392 | a signal can be taken at once, and cancels the app function's context |
| RunApp.StaleReadWaits | a8/a8.go:381-404 | a run in which the unsynchronised read of `complete` misses the write |
| RunApp.RunsAreBounded | a8/a8.go:371-406 | at most six steps are anything but signals arriving |
| RunApp.NeverStuckAfterTheApp | a8/a8.go:371-406 | once the app function has returned the call always has a step to take, even after a stale read of `complete` |
| MultiApp.EndsAfterEveryApp | a8/a8.go:325-406 | for any functions, schedule and signals the call ends only after every app function has returned, with each non-nil error collected once |
| MultiApp.NeverStuck | a8/a8.go:325-406 | until the call has ended some goroutine can go on without a signal |
| MultiApp.RunsAreBounded | a8/a8.go:325-406 | apart from signals, four steps a function and ten more |
| RunPar.SafeOverRuns | a8/a8.go:776-802 | no send after the close, no second close, no negative wait group, no result lost or doubled |
| RunPar.NothingGoesWrong | a8/a8.go:776-802 | the same in plain terms: channel open, room for every send, one close, each item's own output sent |
| RunPar.SomeoneAlive | a8/a8.go:778-788 | a worker that has still to send finds room and an open channel |
| RunPar.RunsAreBounded | a8/a8.go:776-802 | four steps an item and four more at most |
| RunPar.ResultsArePermutation | a8/a8.go:776-802 | for every number of items and schedule: no panic, no blocked sender, never stuck, and the result is a permutation of the runner mapped over the items |
| Iterators.Iter.Next | iter/iter.go:39-72 | takes the first of the elements to come, or says there is none, for any nesting of wrappers |
| Iterators.Iter.SkipTo | iter/iter.go:107-119 | a filter's Next skips exactly the elements that fail |
| Iterators.Iter.ForEach | iter/iter.go:8-12 | the function is called on every element to come, in order |
| Iterators.Iter.ToArray | iter/iter.go:31-37 | the elements to come, in order |
| Iterators.Iter.ToMap | iter/iter.go:66-72 | every element under its key, the last one winning |
| Iterators.Iterable.Iterator | iterable/iterable.go:37-85 | a fresh iterator, whose elements are those of the eager operations |
| Iterators.Iterable.ToArray | iterable/iterable.go:27-29 | lazy equals eager, as often as it is asked |
| Iterators.Iterable.ToMap | iterable/iterable.go:43-50 | the map of the eager result |
| Iterators.Iterable.IsEmpty | iterable/iterable.go:17-19 | empty exactly when the eager result is |
| Iterators.Iterable.Find | iterable/iterable.go:87-98 | the first element that passes, or none |
| Iterators.EagerMapping | iterable/iterable.go:64-77 | a mapped chain gives as many elements, each under the function |
| Iterators.EagerFiltering | iterable/iterable.go:79-85 | a filtered chain gives exactly the elements that pass, in their order |
| Iterators.FoldLeftAppend | iter/iter.go:8-12 | a fold takes the elements from first to last |
| Iterators.LastKeyWins | iter/iter.go:66-72 | the map's keys are the elements' keys, and of elements with one key the last is kept |
| Iterators.OneTypeIsEnough | iter/iter.go:93-98 | a map to another element type is a map within a type that holds both |
| Iterators.FindIsFirstOfFilter | iterable/iterable.go:87-98 | the same as filtering first |
| Iterators.ByKeyFinds | iter/iter.go:66-72 | with distinct keys every element is found under its own, and nothing else is |
| Iterators.FillFlattened | iterable/iterable.go:100-117 | for any two iterators: the second's slices fill the size the first gave, cut off or padded with zeros |
| Iterators.FlattenSlices | iterable/iterable.go:100-117 | with an Iterator() that restarts the result is exactly the concatenation |

## Left out

- The conversions of `Column.AssertValue` (wal_transaction.go:78-144): a value is a free term over type and text; only the panic on an empty JSONB text is modelled, as a condition on the rows sent.
- Malformed WAL input: the functions of `Decoding` give short reads and panics their meaning, but the parser object's methods require the calls not to panic; in the machines a panic ends the run.
- The table filter (wal_transaction.go:231-247), switched off in the code; event ids and subject names.
- Integer widths of positions (uint64), slurp sizes (uint64), byte counts (int) and durations: unbounded here.
- Replication setup, the connection check and Stop (listener.go:86-199, 314-327): I/O.
- Kinds and texts of journal lines (journalctl-utils.go:50-141) are given; lines of unknown services, null texts and unparsable lines are skipped by the reader and not part of a run.
- The random process and service uids are taken to be fresh.
- A reader that dereferences a failed slurp takes the process down and ends the run.
- The `Running` flag, the pings and the record's sequence number, which the code never advances (journalctl-utils.go:484).
- A failed StreamWrite loses its record (journalctl-utils.go:478); `written` means handed to StreamWrite.
- Protobuf and JSON marshalling is taken to be lossless; `reflect.DeepEqual` on protobuf structures may fail on equal values, call by call.
- Two listed servers with one uid: excluded, as uid is the key of their table (nefario/db/schema.sql); where the wait group is concerned they are included.
- Two rows of a minion with one name: a hypothesis on the table before the first pass (no key of the table excludes them), which every pass keeps, interrupted or not (`NamesUnique`). Two listed units with one name: a hypothesis on the listing.
- The slurper's machine has one entry per service name. The agent stores a new entry after looking for one (agent.go:458-466) while another goroutine may store one, too (agent.go:495-508); the entry replaced, with its current slurp, is not modelled.
- The errors of fetching the listing, the rows or the servers, which end a pass or cycle before it changes anything.
- A consumer's own cancellation of its context after it has finished (nefario.go:546), which cancels nothing that runs; the update cycle runs once in the code (nefario.go:561-569), here any number of times.
- The consumers' message handling and the server's other requests (nefario.go:71-480, 600-636): I/O.
- Reconcile.Agent: records are values here; the agent changes the fetched record in place and sends the same pointer, which nothing else reads.
- Consumers.Nefario: goroutines are numbered contexts; only their start, cancellation and end are modelled.
- Iterators.Iter.Next: one element type stands for all types along a chain of maps, a sum type where they differ (see `OneTypeIsEnough`); an iterator is shared by no two chains.
- Iterators.Iterable.Iterator: the same.
- `Concat` of iterators (iter.go:74-91), whose Value stays bound to the first iterator; ForEachE, Empty.
- Whether app functions return, in `FanIn` and `RunApp`, and what the runner of `RunPar` computes; both are given.
- `MessageKind` and `MessageLine`, the Hermes mailbox store and RPC, the launchy start and stop control, devops, qubes, codegen, jsonrpc: I/O, templates or pointer comparisons.
