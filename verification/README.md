# A verified model of soju

soju is an IRC bouncer: it stays connected to IRC networks on behalf of its users, keeps the message history, and lets
any number of clients attach to it. This project models the parts of soju whose correctness is hard to see from any one
function, and proves properties of them over all inputs, all runs or all interleavings. `dafny verify dfyconfig.toml`
checks all of it with Dafny 4.11.

## Layout

| group | modules |
|---|---|
| message history | `Clock`, `Ring`, `ZncLog` (log lines), `LogFile` (one day's file), `DayWalk` (walking over days), `FsQueries`, `FsTimeQueries`, `FsResume`, `FsStore` (the file system store), `FsHistory` (its time queries), `MemoryStore` |
| client protocol | `Labels` (labeled responses and batches), `Caps` (capability negotiation), `Sasl` |
| upstream protocol | `PendingCommands`, `WhoCache`, `ChannelModes`, `Memberships`, `JoinPacking` |
| connection and event loop | `ConnWriter` (the concurrent writer), `UserLoop` (networks, clients, auto-away) |
| shared | `CaseMapping`, `Seqs`, `Text` |

Code that changes state is a class or a loop, proved against a specification function; the theorems are lemmas about
those functions. State machines have a `Step` and a `Run`, and an invariant that every step of every run keeps.

Conventions: characters stand for bytes; integers are unbounded; maps are iterated over in every possible order; time is
a day and a nanosecond of that day, and the current time is a parameter; a file is the text of its bytes.

## What was found

Where a natural claim fails, the model keeps what the code does, one lemma states exactly when the claim holds, and
another shows an input for which it does not.

- A CTCP ACTION whose command word is not in upper case does not print the same line after being read back
  (`ZncLog.PrintsAgain`, `ZncLog.LowerCaseActionChanges`). Printing folds the case of the command and recognising an
  ACTION does not. This concerns `MarshalLine` alone: soju matches the exact command word before it logs anything
  (`upstream.go:685`, `downstream.go:2632`), so no such message reaches a store.
- History queries give up after 100 days without a match. They are complete if and only if they do not meet such a gap
  (`FsHistory.HistoryBefore`, `FsHistory.HistoryAfter`, `FsStore.ExactlyOnceAfterAppend`, `FsHistory.GapHides`).
- Forward queries leave out messages stamped at exactly midnight of any day after the first
  (`FsHistory.HistoryAfter`, `FsHistory.MidnightIsLost`).
- Different entities can share a log directory (`FsStore.EscapeCollides`, `FsStore.EscapeCollision`).
- The memory store's last message ID is the number the *next* message gets, so resuming from it skips one message
  (`MemoryStore.ResumeFromLast`, `MemoryStore.LastSkips`).
- When the 30-second give-up drops an unanswered command, its successor becomes head without being sent and the new
  command is queued twice (`PendingCommands.GivingUpBreaks`, which gives the resulting queue for every input).
- A capability request such as `CAP REQ :a -a` is acknowledged, and client and server then disagree about `a`
  (`Caps.AckAgrees`, `Caps.AskingBackDisagrees`).
- Changing to a finer case mapping can make stored names impossible to look up (`CaseMapping.RemappedNames`,
  `CaseMapping.FinerLosesName`) and cached users hard to find (`WhoCache.RemapKeepsPlaced`,
  `WhoCache.UnsettledMisplaces`).
- A nickname that begins with the prefix of a lower rank is misread from a NAMES reply (`Memberships.PrefixRoundTrip`,
  `Memberships.PrefixedNick`).
- Channel modes outside ASCII are reported as two bytes each and come back only if those happen to spell the same modes
  (`ChannelModes.ModesRoundTrip`, `ChannelModes.NonAsciiIsLost`).
- Packed JOIN messages take up to 512 bytes before CR-LF, or 513 when the keys need a colon, where section 2.3 of
  RFC 1459 allows 510 (`JoinPacking.RenderFits`, `JoinPacking.RfcFits`, `JoinPacking.ExceedsRfc`,
  `JoinPacking.ColonExceeds`).

## Model

| member | source | states |
|---|---|---|
| `ZncLog.RoundTrip` | msgstore/znclog/reader.go:16-162 | Reading the line written for any loggable message gives the message reduced to what the log keeps, at its second; events are skipped unless asked for |
| `ZncLog.ReadsBody` | msgstore/znclog/reader.go:16-29 | The time stamp of a line is read back to the second and the rest is parsed as event or text as it stands |
| `ZncLog.StampScans` | msgstore/znclog/reader.go:17-24 | The printed time stamp scans back to the same hour, minute and second, whatever follows it |
| `ZncLog.DateOfClock` | msgstore/znclog/reader.go:150-151 | Hour, minute and second on the reference day are the original time truncated to the second |
| `ZncLog.ParsesEvent` | msgstore/znclog/reader.go:29-111 | Each kind of event line parses back to the reduced message |
| `ZncLog.ParsesText` | msgstore/znclog/reader.go:112-148 | Each kind of text line parses back to the reduced message and is not mistaken for an event |
| `ZncLog.EventsAreIgnored` | msgstore/znclog/reader.go:113-137 | A reader that did not ask for events sees no message in an event line |
| `ZncLog.MarshalsLogged` | msgstore/znclog/writer.go:13-67 | A line is written for exactly the logged commands |
| `ZncLog.ActionTextParses` | xirc/xirc.go:58-76 | The CTCP text rebuilt for an ACTION parses back to the same parameters |
| `ZncLog.PrintsAgain` | msgstore/znclog/writer.go:23-67 | Printing what was read back gives the same text if and only if the message is not an ACTION with a command word not in upper case |
| `ZncLog.MarshalAgain` | msgstore/znclog/writer.go:13-67 | Written, read and written again, a line does not change |
| `ZncLog.LowerCaseActionChanges` | msgstore/znclog/writer.go:58-63 | A message whose line changes when it is read and written again |
| `Ring.Put` | msgstore/fs.go:239-266 | Writing at the counter modulo the size keeps the newest items, at every wrap-around position |
| `Ring.ItemsAreNewest` | msgstore/fs.go:271-284 | Reading the ring from its oldest slot gives the newest items in order |
| `LogFile.ParseMessagesBefore` | msgstore/fs.go:228-285 | The ring loop returns the last `limit` of the selected messages of the scan, or the parse error |
| `LogFile.ParseMessagesAfter` | msgstore/fs.go:287-320 | The forward loop returns the scan up to `limit` messages, or the parse error |
| `LogFile.ScanBeforeFilters` | msgstore/fs.go:251-266 | Stopping at the first message that is too late still finds every message strictly between the bounds, in a file sorted by time |
| `LogFile.ScanAfterFilters` | msgstore/fs.go:300-314 | The same for the forward scan: the first `limit` of the messages strictly between the bounds |
| `LogFile.AfterIsFirst` | msgstore/fs.go:300-314 | Reading forwards up to a limit gives the first of what reading without a limit gives |
| `DayWalk.BackIsSuffix` | msgstore/fs.go:332-352 | The backward walk over days returns the newest items of the flat log without holes, and never more than asked for |
| `DayWalk.BackExact` | msgstore/fs.go:332-352 | It returns exactly the last `limit` items if and only if it does not meet 100 days without one |
| `DayWalk.ForwardIsPrefix` | msgstore/fs.go:371-391 | The forward walk returns the oldest items of the flat log without holes |
| `DayWalk.ForwardExact` | msgstore/fs.go:371-391 | It returns exactly the first `limit` items if and only if it does not meet 100 days without one |
| `DayWalk.CollectBackIsWalk` | msgstore/fs.go:332-352 | Collecting in front of what is already there is the walk followed by it |
| `DayWalk.CollectForwardIsWalk` | msgstore/fs.go:371-391 | Reading each day only as far as needed does not change the result of the forward walk |
| `DayWalk.FlatFilter` | msgstore/fs.go:322-393 | Filtering day by day is filtering the flat log |
| `FsQueries.GetBeforeTime` | msgstore/fs.go:322-355 | The loop computes the backward walk over the day files, from now when no start is given |
| `FsQueries.WalkBefore` | msgstore/fs.go:329-354 | The loop itself, for any description of the days that is right for the days it opens |
| `FsQueries.GetAfterTime` | msgstore/fs.go:361-393 | The loop computes the forward walk over the day files, up to now when no end is given |
| `FsQueries.LoadLatest` | msgstore/fs.go:415-447 | The loop computes the backward walk from now to the day of the ID, reading that day from its offset |
| `FsQueries.WalkSince` | msgstore/fs.go:415-446 | The loop itself, for any description of the days that is right for the days it opens |
| `FsQueries.ParseDay` | msgstore/fs.go:420-437 | One day of that loop: the last messages of the day, behind the ID on the day of the ID |
| `FsQueries.OpenBefore` | msgstore/fs.go:333-338 | One day of the backward query: the last messages of the day before the reference |
| `FsQueries.OpenAfter` | msgstore/fs.go:372-377 | One day of the forward query: the first messages of the day after the reference |
| `FsTimeQueries.BeforeTimeWalks` | msgstore/fs.go:322-355 | On orderly files the backward query walks over exactly the matches of the flat log |
| `FsTimeQueries.BeforeTimeExact` | msgstore/fs.go:322-355 | The backward query returns a suffix of the messages strictly between the bounds; all of the last `limit` if and only if it meets no gap of 100 days |
| `FsTimeQueries.AfterTimeIsWalk` | msgstore/fs.go:361-393 | On orderly files the forward query walks over the matches that are not stamped at a later midnight |
| `FsTimeQueries.AfterTimeExact` | msgstore/fs.go:361-393 | The forward query returns a prefix of those; all of the first `limit` if and only if it meets no gap of 100 days |
| `FsTimeQueries.AfterTimeComplete` | msgstore/fs.go:385-386 | It returns the first `limit` messages strictly between the bounds if and only if it meets no gap of 100 days and none of them is stamped at midnight of a day after the first |
| `FsResume.TokensOfBytes` | msgstore/fs.go:251-252 | Scanning a file gives the lines that were appended to it |
| `FsResume.SkipsOne` | msgstore/fs.go:244-249 | Seeking to the offset of a record and dropping one line skips exactly that record |
| `FsResume.SkipsNone` | msgstore/fs.go:244-249 | Seeking to the last byte of a file and dropping one line skips nothing that is appended later |
| `FsResume.FlatIsLog` | msgstore/fs.go:415-447 | When days do not go back, the day files one after the other give the messages in the order they were appended |
| `FsResume.AppendPointsAt` | msgstore/fs.go:201-206 | The ID returned for an append points right behind the appended record |
| `FsResume.LastPointsAt` | msgstore/fs.go:132-141 | The ID of the last message points right behind everything appended so far |
| `FsResume.ResumeExact` | msgstore/fs.go:415-447 | From any such position, loading gives the last `limit` later messages in order, none repeated or lost, if and only if no 100 days without one come in between |
| `FsResume.ResumeAfterAppend` | msgstore/fs.go:399-447 | The same for the position of any appended record of a log |
| `FsResume.ResumeAfterLast` | msgstore/fs.go:399-447 | The same for the position of the last message at any point of a log |
| `FsStore.EscapeFilename` | msgstore/fs.go:31-39 | The result names one directory entry other than `.` and `..` |
| `FsStore.EscapeKeepsSafeNames` | msgstore/fs.go:31-39 | A name is kept as it is if and only if it is safe already |
| `FsStore.EscapeCollides` | msgstore/fs.go:31-39 | Two names share a directory if and only if they have the same length and differ only where both have something that becomes a dash |
| `FsStore.EscapeCollision` | msgstore/fs.go:31-39 | Two different names that share a directory |
| `FsStore.FsMessageStore.constructor` | msgstore/fs.go:109-115 | A new store holds no logs |
| `FsStore.FsMessageStore.LastMsgID` | msgstore/fs.go:132-141 | The ID is for the entity and one byte before the end of the day's file |
| `FsStore.FsMessageStore.Append` | msgstore/fs.go:143-212 | A logged message is appended as one line to the file of its day, and the ID is where that line begins; other messages change nothing; the files always hold exactly the logs |
| `FsStore.FsMessageStore.LoadLatestID` | msgstore/fs.go:399-447 | Loads behind the ID; an ID of another network or entity and a malformed stamp are errors |
| `FsStore.FsMessageStore.LoadBeforeTime` | msgstore/fs.go:357-359 | The backward query over the files of the entity, for all messages |
| `FsStore.FsMessageStore.LoadAfterTime` | msgstore/fs.go:395-397 | The forward query over the files of the entity, for all messages |
| `FsStore.IdsStay` | msgstore/fs.go:201-206 | Later appends do not change which record an ID stands for |
| `FsStore.AppendHolds` | msgstore/fs.go:201-209 | Writing a line and a newline to the file of a record's day makes the files hold the longer log |
| `FsStore.LineHasNoBreaks` | msgstore/znclog/writer.go:13-67 | A message without line breaks in its fields is written as one line |
| `FsStore.RecordsReadBack` | msgstore/fs.go:224-226 | The lines written for any messages read back to what the log keeps of them |
| `FsStore.ExactlyOnceAfterAppend` | msgstore/fs.go:399-447 | In a store that holds any messages, loading from the ID an append returned gives the last `limit` later messages as the log keeps them, exactly once and in order, if and only if there is no gap of 100 days |
| `FsStore.ExactlyOnceAfterLast` | msgstore/fs.go:399-447 | The same from an ID of the last message, taken at any point |
| `FsStore.AllWithoutID` | msgstore/fs.go:399-447 | Without an ID, loading gives the last `limit` of all messages if and only if there is no gap of 100 days |
| `FsHistory.ChronicleIsOrderly` | msgstore/fs.go:143-212 | The files of a log whose stamps do not go back are read without error, in order of time, at whole seconds of their own day |
| `FsHistory.MatchesOfLog` | msgstore/fs.go:322-393 | What a query can match in the files is what lies strictly between the bounds in the log, in the order it was appended |
| `FsHistory.HistoryBefore` | msgstore/fs.go:322-359 | In a store that holds any messages in order of their stamps, the backward query returns a suffix of those strictly between the bounds, as the log keeps them; all of the last `limit` if and only if it meets no gap of 100 days |
| `FsHistory.HistoryAfter` | msgstore/fs.go:361-397 | The forward query returns a prefix of those not stamped at midnight of a later day; the first `limit` strictly between the bounds if and only if it meets no gap of 100 days and none of them is stamped so |
| `FsHistory.MidnightIsLost` | msgstore/fs.go:385-386 | In a store that holds one message stamped at midnight, no query that starts on a day before returns it |
| `FsHistory.GapHides` | msgstore/fs.go:332-352 | In a store that holds one message between the bounds, the backward query returns it if and only if it starts less than 100 days later |
| `MemoryStore.MessageRingBuffer.constructor` | msgstore/memory.go:128-133 | A new ring stands for the empty log |
| `MemoryStore.MessageRingBuffer.Append` | msgstore/memory.go:139-145 | The ring stands for an unbounded log, and the sequence number is the message's place in it |
| `MemoryStore.MessageRingBuffer.LoadLatestSeq` | msgstore/memory.go:147-171 | Loading gives exactly the last messages after the sequence number, as many as the ring keeps and the caller wants; a future number is an error |
| `MemoryStore.ResumeAfterAppend` | msgstore/memory.go:147-171 | After an ID from an append, loading gives the last messages appended since |
| `MemoryStore.ResumeAfterLast` | msgstore/memory.go:75-82 | After an ID of the last message, it does so if and only if nothing was appended since or the first of it no longer counts |
| `MemoryStore.LastSkips` | msgstore/memory.go:75-82 | Two messages and the ID taken between them, from which the second is not loaded |
| `MemoryStore.ResumeFromNothing` | msgstore/memory.go:75-82 | After the ID given out for an entity without messages, it does so always |
| `MemoryStore.ResumeFromLast` | msgstore/memory.go:75-82 | From an ID of the last message taken at any point, loading gives the last messages appended since if and only if there was none before, there is none since, or more than are kept |
| `MemoryStore.MemoryMessageStore.constructor` | msgstore/memory.go:54-58 | A new store has no buffers |
| `MemoryStore.MemoryMessageStore.LastMsgID` | msgstore/memory.go:75-82 | One more than the number of messages of the entity, or 0 if it has none |
| `MemoryStore.MemoryMessageStore.Append` | msgstore/memory.go:84-102 | Only PRIVMSG and NOTICE are appended, to the log of their own entity, and no other log changes; there are buffers only for entities with messages |
| `MemoryStore.MemoryMessageStore.LoadLatestID` | msgstore/memory.go:104-121 | Loads from the entity's own log; events are refused, an entity without messages has none |
| `Labels.DownstreamConn.constructor` | downstream.go:652-655 | A new connection has used no batch reference |
| `Labels.DownstreamConn.SendMessage` | downstream.go:542-650 | A message is adapted to the client's capabilities, or dropped, and then sent, held back or put in the answer's batch |
| `Labels.DownstreamConn.BeginBatch` | downstream.go:652-665 | A batch gets the next reference and is announced to clients that know batches, inside the surrounding one |
| `Labels.DownstreamConn.EndBatch` | downstream.go:666-672 | The innermost batch is closed |
| `Labels.DownstreamConn.FlushBatch` | downstream.go:513-532 | What is left of a labeled answer is sent: an acknowledgement, the single message, or the end of the batch |
| `Labels.DownstreamConn.HandleEmit` | downstream.go:542-672 | Any one thing a handler emits is one step of the model |
| `Labels.DownstreamConn.HandleMessage` | downstream.go:729-771 | A whole command is answered as the model answers it; a label counts only with labeled-response |
| `Labels.DownstreamConn.HandleEmits` | downstream.go:652-672 | Everything a handler emits is a run of the model that ends with no SendBatch call in progress |
| `Labels.AdaptsBatch` | downstream.go:543-606 | BATCH messages reach clients with the batch capability unchanged |
| `Labels.AdapterForIsLawful` | downstream.go:543-606 | Adaptation keeps BATCH messages whole or drops all of them, and adds no label or batch tag |
| `Labels.AnswerWraps` | downstream.go:608-650 | An answer is an acknowledgement for no message, the message itself for one, and a labeled batch for more, in the order they were emitted |
| `Labels.OneLabel` | downstream.go:608-650 | For any handler, the label is on the first message of the answer and on no other |
| `Labels.AnswerNests` | downstream.go:608-672 | A client that checks the batch rules finds none broken in any answer and has no batch open after it |
| `Labels.ConnectionNests` | downstream.go:652-672 | Over a whole connection, every batch tag names a batch open at that point, batches close inside out and no reference is used twice |
| `PendingCommands.UpstreamConn.SendMessageLabeled` | upstream.go:2210-2237 | Exactly one message goes out, with a fresh label if and only if both labeled-response and message-tags are enabled at that moment |
| `PendingCommands.UpstreamConn.SetCaps` | upstream.go:2210-2214 | Capabilities may change at any time without disturbing queues or labels |
| `PendingCommands.UpstreamConn.constructor` | upstream.go:2220-2237 | A new connection has sent nothing and has nothing pending |
| `PendingCommands.UpstreamConn.SendNextPendingCommand` | upstream.go:509-519 | The head of the queue is sent, and no other queue changes |
| `PendingCommands.UpstreamConn.EnqueueCommand` | upstream.go:521-550 | Enqueueing is a step of the queue of its command, and no other queue changes |
| `PendingCommands.UpstreamConn.DequeueCommand` | upstream.go:561-572 | Answering returns the head and sends the next command, and no other queue changes |
| `PendingCommands.UpstreamConn.CancelPendingCommandsByDownstreamID` | upstream.go:574-584 | Cancelling is a step of every queue |
| `PendingCommands.UpstreamConn.AbortPendingCommands` | upstream.go:458-507 | Aborting empties every queue |
| `PendingCommands.CancelIn` | upstream.go:574-584 | Deleting backwards in place removes exactly the waiting commands of the connection and never the head |
| `PendingCommands.CancelKeepsHead` | upstream.go:574-584 | Cancelling keeps exactly the head sent |
| `PendingCommands.StepTracks` | upstream.go:458-584 | Every step but giving up keeps the queue equal to the commands that are waiting or in flight, with exactly its head sent |
| `PendingCommands.RunTracks` | upstream.go:458-584 | Over whole runs that do not give up, commands are sent in the order they were enqueued, less the cancelled and aborted ones |
| `PendingCommands.LivesAdvance` | upstream.go:458-584 | A command ends once, as answered, cancelled or aborted, and is never cancelled in flight |
| `PendingCommands.GivingUpBreaks` | upstream.go:541-549 | The head stays sent if and only if the step does not give up; giving up queues the new command twice and sends nothing |
| `PendingCommands.LabelRoundTrip` | upstream.go:601-619 | A label parses back to the downstream connection and its own label, even when that contains dashes |
| `PendingCommands.LabelsDiffer` | upstream.go:2220-2237 | Labels with different numbers differ, whatever the rest |
| `PendingCommands.LabelsDistinct` | upstream.go:2220-2237 | No two labels sent on a connection are equal, however its capabilities change |
| `Caps.StepKeeps` | downstream.go:962-1095 | Enabled capabilities stay available, and cap-notify stays enabled from version 302 on, through every step |
| `Caps.LsParses` | downstream.go:986-1000 | A listing reads back as the registry, in any order, if and only if the version is at least 302 or no capability has a value |
| `Caps.AckAgrees` | downstream.go:1030-1079 | Applying an acknowledged request word by word agrees with the server if and only if no name is changed and then asked back |
| `Caps.DistinctNamesAgree` | downstream.go:1030-1062 | A request with distinct names is of that kind |
| `Caps.AskingBackDisagrees` | downstream.go:1030-1079 | Asking for a name and asking it back is acknowledged, the server enables it and the client takes it as not enabled |
| `Caps.StepMirrors` | downstream.go:962-1306 | One step, as a client follows it from LS, ACK, NEW and DEL alone |
| `Caps.MirrorIsExact` | downstream.go:962-1306 | After every step of every run that starts with LS 302, a client that follows those replies has exactly the server's available and enabled capabilities |
| `Caps.ListAll` | downstream.go:986-993 | Every capability is listed once, with its value from version 302 on |
| `Caps.JudgeWords` | downstream.go:1030-1062 | A request is granted if and only if every word is, and then changes what its words that differ from the present ask for |
| `Caps.DownstreamCaps.constructor` | xirc/caps.go:8-13 | A new connection has the permanent capabilities available and none enabled |
| `Caps.DownstreamCaps.HandleLs` | downstream.go:970-1009 | CAP LS is a step of the model, for some order of the registry |
| `Caps.DownstreamCaps.HandleReq` | downstream.go:1022-1083 | CAP REQ is a step of the model: all or nothing |
| `Caps.DownstreamCaps.Grant` | downstream.go:1064-1069 | The changes are applied in whatever order |
| `Caps.DownstreamCaps.SetSupportedCap` | downstream.go:1225-1244 | Offering a capability is a step of the model, announced when it is new or has a new value |
| `Caps.DownstreamCaps.UnsetSupportedCap` | downstream.go:1246-1259 | Withdrawing a capability is a step of the model, and disables it |
| `Caps.DownstreamCaps.UpdatePassthrough` | downstream.go:1262-1278 | What can be passed through is available if and only if there is no upstream connection or it has it enabled |
| `Caps.DownstreamCaps.UpdateSupportedCaps` | downstream.go:1261-1306 | After an update every capability it is about is available exactly when it should be, and every exact mirror stays exact |
| `ConnWriter.StepKeepsInv` | conn.go:239-303 | Every atomic step of sender, Shutdown, Close and writer keeps the invariant |
| `ConnWriter.ClosedAtMostOnce` | conn.go:290-303 | Under every interleaving the channel of closing is closed at most once |
| `ConnWriter.WrittenIsPrefix` | conn.go:250-284 | Under every interleaving the messages written are the first ones accepted, in order |
| `ConnWriter.ShutdownFlushes` | conn.go:342-359 | When the writer has stopped, everything accepted before the request to stop has been written, or a Close by somebody else or an error came first |
| `ConnWriter.NobodyStaysBlocked` | conn.go:326-340 | Once the writer has exited and all Close calls have returned, every sender can return |
| `ConnWriter.SomebodyCanMove` | conn.go:326-359 | There is no deadlock: while a sender waits, it, the writer or a Close call can go on |
| `UserLoop.StepKeeps` | user.go:698-857 | Every event keeps IDs strictly sorted, names distinct, open clients bound to networks in the table, the client counter right, and every auto-away status exact and equal to the last AWAY sent |
| `UserLoop.RunKeeps` | user.go:698-857 | So does every run |
| `UserLoop.UpdateAwayIsExact` | upstream.go:2326-2355 | After an update, the status is away if and only if every client bound to the network is away |
| `UserLoop.LimitKept` | user.go:1105-1245 | Within the limit, no event that does not ignore it takes the number of enabled networks beyond it |
| `UserLoop.RunKeepsLimit` | user.go:1105-1245 | Nor does any run in which no request ignores the limit |
| `UserLoop.LimitExact` | user.go:1105-1245 | From within the limit, an event exceeds it if and only if the limit is reached, the event enables one more network and ignores the limit |
| `UserLoop.UpdateRefused` | user.go:1139-1156 | An update is refused if and only if its address or name is not acceptable, or it would enable a disabled network with the limit reached and not ignored; so never for the limit when the network is enabled |
| `UserLoop.UnenforcedSame` | user.go:1303-1309 | Updates requested without checking the limit leave a network enabled or disabled as it was, and not checking makes no difference to them |
| `UserLoop.AddSorted` | user.go:1003-1011 | Appending and sorting inserts the network in its place |
| `UserLoop.AreAllAway` | upstream.go:2331-2336 | The loop tells whether every client of the network is away |
| `UserLoop.SendAway` | upstream.go:2326-2355 | AWAY is sent exactly when the status changes, on networks with auto-away |
| `UserLoop.SortNetworks` | user.go:1006-1008 | The table is sorted by ID |
| `UserLoop.CanEnableNewNetwork` | user.go:1032-1050 | One more network can be enabled if and only if the limit in force, the user's or else the server's, is not reached |
| `UserLoop.CheckNetwork` | user.go:1052-1103 | A network is refused if and only if its address is not acceptable, its name is empty or begins with a dash, or another network has that name |
| `UserLoop.UserState.constructor` | user.go:1032-1039 | A new user has no networks and no clients |
| `UserLoop.UserState.ForEachUpstreamUpdateAway` | user.go:827-829 | Every connected network's status is brought up to date |
| `UserLoop.UserState.HandleUpstreamConnected` | user.go:702-727 | A new upstream connection is a step of the model |
| `UserLoop.UserState.HandleUpstreamDisconnected` | user.go:942-977 | A lost upstream connection is a step of the model |
| `UserLoop.UserState.HandleDownstreamConnected` | user.go:820-829 | A new client is a step of the model |
| `UserLoop.UserState.HandleDownstreamDisconnected` | user.go:834-857 | A client that leaves is a step of the model |
| `UserLoop.UserState.HandleAway` | downstream.go:2865-2877 | A client's AWAY is a step of the model |
| `UserLoop.UserState.AddNetwork` | user.go:1003-1011 | The network is appended and the table sorted |
| `UserLoop.UserState.RemoveNetwork` | user.go:1013-1030 | The clients bound to the network are closed and it is taken out of the table |
| `UserLoop.MayStore` | user.go:1109-1119 | A network is refused for its limit, address or name |
| `UserLoop.UserState.CreateNetwork` | user.go:1105-1132 | Creating a network is a step of the model, refused for its address or name or the limit |
| `UserLoop.UserState.UpdateNetwork` | user.go:1134-1220 | A new network object takes the place of the old one and its clients move to it, unless refused for its address or name or, if it is enforced, the limit |
| `UserLoop.UserState.ChangeNetwork` | downstream.go:3644-3657 | Changing a network's settings is a step of the model: the limit is enforced for networks that were disabled |
| `UserLoop.UserState.RefreshNetwork` | user.go:1303-1309 | So is an update that does not enforce the limit and leaves the network enabled or disabled |
| `UserLoop.UserState.PatchConns` | user.go:1184-1189 | The clients of the old network object, and no others, move to the new one |
| `UserLoop.UserState.DeleteNetwork` | user.go:1222-1245 | Deleting a network is a step of the model |
| `CaseMapping.Casemap` | xirc/casemapping.go:3-45 | The loops compute the mapping of every byte |
| `CaseMapping.FoldIdempotent` | xirc/casemapping.go:3-45 | Every mapping is idempotent |
| `CaseMapping.CoarserIdentifiesMore` | xirc/casemapping.go:3-45 | The equivalences grow from ascii over rfc1459-strict to rfc1459 |
| `CaseMapping.EquivalencesDiffer` | xirc/casemapping.go:3-45 | They really grow at each step |
| `CaseMapping.SetGet` | xirc/casemapping.go:105-117 | Setting a name changes the value of the names equivalent to it and of no other |
| `CaseMapping.DelGet` | xirc/casemapping.go:119-121 | Deleting a name removes the names equivalent to it and no other |
| `CaseMapping.CaseMappingMap.constructor` | xirc/casemapping.go:80-85 | A new map is empty |
| `CaseMapping.CaseMappingMap.Has` | xirc/casemapping.go:87-90 | Tells whether an equivalent name is stored |
| `CaseMapping.CaseMappingMap.Lookup` | xirc/casemapping.go:96-103 | Finds the value of an equivalent name |
| `CaseMapping.CaseMappingMap.Put` | xirc/casemapping.go:105-117 | Sets the value, keeping the original key of an existing entry; every entry stays under the mapping of its original key |
| `CaseMapping.CaseMappingMap.Delete` | xirc/casemapping.go:119-121 | Deletes the entry |
| `CaseMapping.CaseMappingMap.SetCaseMapping` | xirc/casemapping.go:129-136 | Every class of original keys under the new mapping keeps one of its entries |
| `CaseMapping.RemappedNames` | xirc/casemapping.go:129-136 | After a change to any mapping a name is found if and only if the mapping identifies it with the original key of some entry |
| `CaseMapping.CoarserKeepsNames` | user.go:457-475 | Changing to a coarser mapping loses no lookup |
| `CaseMapping.CoarserKeepsValues` | user.go:457-475 | It keeps every value when no two original keys collide |
| `CaseMapping.FinerLosesName` | user.go:457-475 | A name that is lost when the mapping becomes finer |
| `CaseMapping.SizeShrinks` | xirc/casemapping.go:129-136 | The map gets smaller if and only if original keys collide |
| `WhoCache.HasWHOXFields` | upstream.go:139-168 | Tells whether every requested field is known |
| `WhoCache.UserCache.CacheUserInfo` | upstream.go:2545-2565 | The cache update is a step of the model and keeps users in place |
| `WhoCache.UserCache.HandleNick` | upstream.go:1211-1222 | A nickname change moves the member in every channel and the cached user, as one step of the model |
| `WhoCache.MoveMembers` | upstream.go:1211-1218 | The loop moves the member in every channel, in any order |
| `WhoCache.CacheKeepsPlaced` | upstream.go:2545-2565 | Every cached user stays under the mapping of its own nickname |
| `WhoCache.CacheUpdates` | upstream.go:2545-2565 | The user is then found under its present nickname with old and new details, not under the former one, and nobody else changes |
| `WhoCache.StepKeeps` | upstream.go:1211-1222 | Every event keeps users, channels and members in place |
| `WhoCache.RunKeeps` | upstream.go:2545-2565 | So does every run |
| `WhoCache.GetCachedWHO` | upstream.go:2498-2543 | A channel is answered if and only if all members are fully cached; the answer has exactly one entry per member, and the member of every entry's nickname is found |
| `WhoCache.CollectMembers` | upstream.go:2522-2540 | The same for the loop over the members, in any order |
| `WhoCache.CoarserKeepsPlaced` | user.go:457-475 | Users stay in place when the mapping becomes coarser |
| `WhoCache.RemapKeepsPlaced` | user.go:457-475 | A change to any mapping keeps all users in place, whichever entries survive, if and only if it identifies each user's nickname with the key the user was first cached under |
| `WhoCache.UnsettledMisplaces` | user.go:457-475 | A user that is not in place after the mapping becomes finer |
| `Memberships.MembershipSet.constructor` | xirc/xirc.go:104-105 | A set holds what it is given |
| `Memberships.MembershipSet.Add` | xirc/xirc.go:107-131 | Inserts into a set in rank order, which stays in rank order |
| `Memberships.MembershipSet.Remove` | xirc/xirc.go:133-141 | Drops one membership, keeping the order |
| `Memberships.InsertInto` | xirc/xirc.go:107-131 | The search finds the place in front of the first item ranked below |
| `Memberships.RemoveFrom` | xirc/xirc.go:133-141 | The loop drops the first occurrence |
| `Memberships.InsertRanks` | xirc/xirc.go:107-131 | That place gives the ranked sequence of the set with the membership added |
| `Memberships.WithoutRanks` | xirc/xirc.go:133-141 | Removing gives the ranked sequence of the set with the membership deleted |
| `Memberships.ParseMembershipPrefix` | upstream.go:586-599 | The loop takes prefixes greedily, in one pass over the available ones |
| `Memberships.ParseRanked` | upstream.go:586-599 | Parsing gives a duplicate-free subsequence of the available memberships |
| `Memberships.ParseKeepsText` | upstream.go:586-599 | Parsing loses nothing of the text |
| `Memberships.FormatMemberPrefix` | irc.go:183-195 | All prefixes with multi-prefix, else the first |
| `Memberships.FirstIsHighest` | irc.go:183-188 | No membership of the set is ranked above the one a single prefix shows |
| `Memberships.PrefixRoundTrip` | irc.go:189-195 | Formatting and parsing back gives the same memberships and nickname if and only if the nickname does not begin with the prefix of a membership ranked below them |
| `Memberships.PrefixedNick` | upstream.go:586-599 | A nickname that is cut short |
| `ChannelModes.UpstreamChannel.constructor` | upstream.go:1311-1316 | A new channel has unknown modes |
| `ChannelModes.UpstreamChannel.ApplyChannelModes` | irc.go:89-155 | The loop applies a mode string as the model does, up to the first error |
| `ChannelModes.UpstreamChannel.ApplyMode` | irc.go:103-153 | One mode character, with its argument |
| `ChannelModes.UpstreamChannel.ChangeMember` | irc.go:108-117 | Changes the ranks of one member and of no other |
| `ChannelModes.UpstreamChannel.ApplyChannelMode` | irc.go:127-152 | Sets or unsets one channel mode, unless modes are unknown |
| `ChannelModes.MembershipActs` | irc.go:103-121 | A membership mode inserts into or deletes from the ranks of the member it names, and changes nothing else |
| `ChannelModes.SetUnset` | irc.go:123-152 | Setting and unsetting a mode leaves it unset and everything else as it was |
| `ChannelModes.ApplyKeeps` | irc.go:89-155 | Whatever the mode string, no list mode, membership or value of a type D mode enters the map, unknown modes stay unknown, and ranks stay in order |
| `ChannelModes.RunKeeps` | irc.go:89-155 | So for every sequence of mode changes, NAMES replies, joins and departures |
| `ChannelModes.Format` | irc.go:157-171 | Modes with a value come first, with the values as parameters in the same order, for some order of the map |
| `ChannelModes.ModesRoundTrip` | irc.go:157-171 | Applying the formatted string and parameters to an empty map gives any modes back, whatever the order, if and only if every byte of the string, with the argument that falls to it, agrees with them and every mode is a byte of the string |
| `ChannelModes.AsciiComesBack` | irc.go:157-171 | ASCII modes always come back, including those whose argument was omitted |
| `ChannelModes.BareComesBack` | irc.go:157-171 | Modes without values come back if and only if the string has all of them and, of what else it has, the network knows nothing but lists |
| `ChannelModes.BodyBytes` | irc.go:163-166 | The string consists of ASCII modes, bytes from 0x80 to 0xBF, 0xC2 and 0xC3 |
| `ChannelModes.NonAsciiIsLost` | irc.go:163-166 | On any network, a mode that is not a byte of the string is lost, so 0xC0, 0xC1 and 0xC4 to 0xFF always are |
| `JoinPacking.JoinSorter.constructor` | xirc/genmsg.go:13-15 | The sorter works on the caller's slices |
| `JoinPacking.JoinSorter.IsLess` | xirc/genmsg.go:72-78 | Keyed channels come first, then by name |
| `JoinPacking.JoinSorter.Swap` | xirc/genmsg.go:80-83 | Channels and keys are swapped together |
| `JoinPacking.JoinSorter.Sort` | xirc/genmsg.go:13-15 | The pairs end up in order and are a permutation of what they were |
| `JoinPacking.LessOrders` | xirc/genmsg.go:72-78 | The comparison is an order that can be sorted by |
| `JoinPacking.Pack` | xirc/genmsg.go:20-60 | The messages are those of consecutive groups of the channels; a group of several fits, and the next channel would not have |
| `JoinPacking.PackNext` | xirc/genmsg.go:22-51 | One turn of the loop keeps that |
| `JoinPacking.GenerateJoin` | xirc/genmsg.go:12-61 | The groups are a permutation of the input, keyed channels first, and reading all messages back by position gives exactly them |
| `JoinPacking.Recovers` | xirc/genmsg.go:41-51 | In one message the i-th key belongs to the i-th channel |
| `JoinPacking.RecoversAll` | xirc/genmsg.go:12-61 | Reading all messages back gives all channels with their keys |
| `JoinPacking.RenderFits` | xirc/genmsg.go:17-18 | A message with several channels takes at most 513 bytes, and more than 512 if and only if its keys need a colon and channels and keys use up all the room |
| `JoinPacking.RenderLength` | xirc/genmsg.go:36-57 | The exact length of a message |
| `JoinPacking.RfcFits` | xirc/genmsg.go:17-18 | A message takes at most 510 bytes if and only if its channels and keys leave room for the space between them and a colon |
| `JoinPacking.ExceedsRfc` | xirc/genmsg.go:17-18 | Any two channels of a certain length, whose message takes 512 bytes, or 513 with a colon |
| `JoinPacking.ColonExceeds` | xirc/genmsg.go:17-18 | Two channels whose message takes 513 bytes |
| `Sasl.GenerateSASL` | xirc/genmsg.go:216-239 | The loop sends chunks of 400 bytes, the last one shorter, or `+` when nothing is left |
| `Sasl.DownstreamSasl.HandleAuthenticate` | downstream.go:1097-1186 | A message starts, continues, completes or ends an exchange as the model does |
| `Sasl.ChunkIsData` | downstream.go:1159-1162 | A chunk of a response is never taken for the empty one, nor for giving up |
| `Sasl.FeedBounded` | downstream.go:1164-1175 | Whatever a client sends, what is kept of a response is whole chunks, at most 10000 bytes |
| `Sasl.RoundTrip` | downstream.go:1158-1186 | The chunks put together give exactly the response, with the last chunk and no earlier, if and only if it is at most 10240 bytes long |

## Left out

- JoinPacking.JoinSorter.Sort: the library's sorting algorithm is not modelled; sorting is by insertion through the same comparison and swap
- FsStore.FsMessageStore.Append: the cache of open files and errors of the file system are not modelled
- FsStore.FsMessageStore.LoadLatestID: the scanner's limit of 64 KiB per line and cancellation are not modelled
- UserLoop.UserState.CreateNetwork: database failures, which leave the table as it is, are not modelled
- UserLoop.UserState.DeleteNetwork: database failures, which leave the table as it is, are not modelled
- UserLoop.UserState.UpdateNetwork: network objects are handles instead of references, and database failures are not modelled
- UserLoop.CheckNetwork: whether the address is acceptable is a field of the record
- UserLoop.UserState.HandleDownstreamConnected: disabled users and a failing welcome, which leave the state as it is, are not modelled
- PendingCommands.UpstreamConn.AbortPendingCommands: the replies that tell clients about the abort are not modelled
- Labels.DownstreamConn.HandleMessage: capabilities do not change while a command is answered, and errors that end the connection before the answer is flushed are not modelled
- Labels.DownstreamConn.SendMessage: messages are values, so the tags a copied message shares with its original are not modelled
- Caps.DownstreamCaps.HandleLs: the error for a version that is not a number and splitting a long listing over several lines are not modelled
- Caps.DownstreamCaps.HandleReq: a request without an argument, which only gets an error reply, is not modelled
- Caps.DownstreamCaps.UpdateSupportedCaps: removing `before-connect` from the value of account registration is not modelled
- Sasl.DownstreamSasl.HandleAuthenticate: base64 is a predicate on the text, and what the mechanism makes of a response is not modelled
- Time zones and daylight saving: a day has 24 hours
- The wire form of message IDs and the `time` tag of messages
- Case folding and white space beyond ASCII, and the wrap-around of 64-bit counters
- Batches that come from upstream servers
- The rate limiter and timeouts of the writer, which are steps that may happen at any time in `ConnWriter`
- Listing targets, searching, renaming and expiring logs
- MONITOR, NAMES, ISUPPORT and MOTD generation, which pack messages the way `JoinPacking` does
- Highlights, user modes, service commands, configuration, databases, authentication back ends, TLS, WebSocket, Web Push and file upload
