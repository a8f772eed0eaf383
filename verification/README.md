# msgin: a verified model of its concurrent core

This project models, in Dafny, the parts of the msgin messaging runtime whose correctness is
a matter of interleavings, resource accounting or byte-exact formats, and proves what the
repository promises about them. `dafny verify dfyconfig.toml` checks all of it.

Every concurrent protocol is a state machine: a `State`, the atomic steps the code takes under
its mutexes and channels as `Event`s, a guard `Enabled` and a deterministic `Step`. A `Run` is
any finite sequence of enabled steps, so a theorem about every index of every run is a theorem
about every interleaving. Handlers, strategies, channels, sinks, clocks and governors answer
what they like: their answers are part of the events, including errors and panics. Where the
source keeps its state in fields, slices and maps that methods update, the project has a class
with those fields, and each of its methods is proved to do what the machine's step says.

| module | models |
|---|---|
| `Collections` | counting facts several of the others rest on |
| `Reliability`, `Messages` | error classification over wrapped and joined errors; headers, ids and sequence stamping |
| `GroupStoreSpec`, `MemoryGroupStore` | the lease-claim group store, on values and as a class |
| `Aggregator`, `AggregatorLeases`, `AggregatorMembers`, `AggregatorOutputs`, `AggregatorTheorems`, `AggregatorRuns`, `AggregatorAnswers`, `AggregatorExpiry` | Handle calls and reaper visits interleaved over one group store: what is kept, what each call answers, what expires |
| `Reassembly`, `Competing` | Splitter to Aggregator: what a split, delivered in any order with repeats, comes back as, one Handle call at a time and with calls competing |
| `Exchange`, `ExchangeAnswers` | the request/reply correlator, with correlation ids reused |
| `SseSpec`, `SseParser`, `SseTheorems`, `SseWritten`, `SseEncoder` | text/event-stream: the format, the streaming parser, streams as anyone may write them, the encoder, the round trip |
| `SseServer` | the replay ring and the fan-out hub |
| `QueueSpec`, `MemoryQueueStore`, `QueueMachine`, `QueueTheorems`, `QueueOrder` | the in-memory queue: values, class with its in-place compaction, interleavings, order |
| `Attempts`, `Consumer`, `ConsumerTheorems`, `ConsumerAnswers` | the hand-off of polled rows, the settlement switch and the attempt tracker over such a queue |
| `Credit` | the credit gate, the poll loop, push ingress and workers |
| `Breaker`, `RateLimit`, `Producer` | the circuit breaker with its parked waiters, the token bucket, the retry loop with its budget |
| `Elector` | SQL lease election over one row, in both statement forms |

Where the code and its comments part ways, the model follows the code:

- A panic of the release strategy on a claimed group (drain loop or reaper), or of the expired
  channel, ends the call with no deferred abandon in force. Once every call is over, a group is
  left leased exactly when a call took such a step with that group's claim in hand
  (`StrandedIff`), as a Handle call does in its drain loop in the run of `CrashHappens`, and
  then for good (`CrashWedgesKey`).
- Handle judges the snapshot that Add returned and then claims whatever the group holds by then.
  With calls competing, its aggregate is the group it judged, and whole, exactly when no
  settlement of the key fell between the two (`MainAggregateIff`); `RaceSendsPart` is a run that
  sends one child of two. Aggregates of the drain loop and of the reaper are judged on the claim
  itself and are always whole (`JudgedAggregateIsWhole`).
- After an over-length line the parser is documented to resume at the following event. It
  resumes at the following line (`OversizeIsSkippedByLine`). What is left of the abandoned event
  goes unnoticed exactly when no line of it is over the cap and none is a data line; otherwise it
  yields a further ErrEventTooLarge for each trip of the cap and an event of the lines after the
  last one, if a data line is among them (`RemainderOfAbandonedEvent`, with the inputs of
  `OversizeIsNotSkippedByEvent`).
- A "retry:" value that fits int64 milliseconds but not int64 nanoseconds wraps around; the
  delay is the one asked for exactly when the product fits (`RetryIsExactIff`), and
  `RetryCanWrap` names a value that comes out negative.
- A poll loop that finds its context done in the middle of a hand-off Nacks that row and
  returns the credits of the rows after it, but neither hands over nor Nacks those rows. A row
  is abandoned exactly when the hand-off of its batch was aborted at an earlier row
  (`AbandonedIff`), it is then in flight for good (`AbandonedForGood`), and nothing else but a
  failing settle closure leaves a message unsettled (`StuckIff`). `AbandonHappens` is such a run.
- The lease election reads the database clock when a statement starts, and a statement may wait
  for the row. Leaders never overlap as long as a holder's statements execute in the order they
  started (`LeadersDoNotOverlap`), which holds when an instance makes one call at a time, as a
  cron source does (`SerialLeadersDoNotOverlap`). Nothing in the dialect enforces it: the row
  covers every lease granted exactly when no write of the holder's is backdated (`CoveredIff`),
  and then the leases of others have ended whenever an instance is told it leads
  (`OthersEndedWhenTold`). A backdated write while the lease it shortens is running lets another
  instance lead too early (`BackdatedOverlaps`); `OverlapHappens` is such a run.

## Model

| member | source | states |
|---|---|---|
| `Reliability.PermanentIffSomeNodeIs` | reliability.go:74-97 | an error is permanent if and only if some node of its tree of wraps and joins is a Permanent mark or one of the payload sentinels |
| `Reliability.IsFindsNode` | reliability.go:86-97 | errors.Is finds a sentinel exactly when it is a node of that tree |
| `Reliability.RetryAfterIsFirstMarker` | reliability.go:139-161 | RetryAfterOf is the delay of the first marker in visiting order, and none without one |
| `Messages.ItoaIsInjective` | routing/splitter.go:111 | the decimal rendering of a position names that position only |
| `Messages.StampedIdsDiffer` | routing/splitter.go:107-117 | stamped children of one identified parent share an id exactly when they are the same position, whatever ids they came with |
| `Messages.StampedHeaders` | routing/splitter.go:107-117 | what a stamped child carries, header by header: position, size, id and correlation as derived, all else as before |
| `Messages.StampedAgain` | routing/splitter.go:93-106 | stamping a stamped child again changes nothing, so a redelivered split is stamped the same |
| `Reassembly.ForwardSplit` | routing/splitter.go:82-91 | the children are forwarded stamped, child i with number i + 1 of the size of the split, in order, up to and including the first one refused, and the error is that refusal's |
| `GroupStoreSpec.AddKeepsValid` | adapter/memory/groupstore.go:261-293 | Add keeps the store's invariant (ids are exactly the non-empty ids held and are distinct, the lease and claimedLen agree, groups are non-empty, both caps hold), errs exactly on the two caps, and changes nothing unless it stores |
| `GroupStoreSpec.NoErrorMeansHeld` | adapter/memory/groupstore.go:261-293 | after Add without an error the group holds the message or one with its id |
| `GroupStoreSpec.ClaimKeepsValid` | adapter/memory/groupstore.go:298-310 | a claim leases an unleased group whole and keeps the invariant |
| `GroupStoreSpec.SettleKeepsValid` | adapter/memory/groupstore.go:316-339 | a settle whose fence holds deletes exactly the claimed members and keeps the later ones; any other changes nothing |
| `GroupStoreSpec.AbandonKeepsValid` | adapter/memory/groupstore.go:345-355 | an abandon loses no member and makes the claimed ones live again |
| `GroupStoreSpec.EndsStale` | adapter/memory/groupstore.go:316-355 | a settled or abandoned claim has ended |
| `GroupStoreSpec.StaleStays` | adapter/memory/groupstore.go:316-355 | no operation brings an ended claim back while its key stays: its fence misses, and settling or abandoning it changes nothing |
| `MemoryGroupStore.GroupStore.Add` | adapter/memory/groupstore.go:261-293 | the in-place Add has the effect and the answer the specification gives |
| `MemoryGroupStore.GroupStore.ClaimGroup` | adapter/memory/groupstore.go:298-310 | the same for ClaimGroup |
| `MemoryGroupStore.GroupStore.ForgetClaimed` | adapter/memory/groupstore.go:324-328 | the loop over the claimed members removes exactly their ids |
| `MemoryGroupStore.GroupStore.SettleGroup` | adapter/memory/groupstore.go:316-339 | the same for SettleGroup |
| `MemoryGroupStore.GroupStore.AbandonGroup` | adapter/memory/groupstore.go:345-355 | the same for AbandonGroup |
| `MemoryGroupStore.GroupStore.Expired` | adapter/memory/groupstore.go:362-372 | Expired reports each unleased group older than the cutoff once, with its members, and no other |
| `AggregatorTheorems.Conservation` | routing/aggregator.go:613-918 | at every point of every run each stored member is held by exactly one group, or was settled after the output channel took it, or after the expired channel did, and only one of these |
| `AggregatorTheorems.EmittedAtMostOnce` | routing/aggregator.go:759-826 | no member is in two aggregates the output channel took, nor twice in one, and every aggregate is of stored members |
| `AggregatorTheorems.AckMeansKept` | routing/aggregator.go:613-694 | when Handle returned nil, its member or a stored one of the same id is held or was taken by a channel |
| `AggregatorTheorems.OverCapStaysRedeliverable` | routing/aggregator.go:621-694 | once the over-cap branch has gone on to claim, the call never stored its member, never answers nil, and whatever failed, its error is a transient overflow |
| `AggregatorTheorems.RefusalNeverUpgraded` | routing/aggregator.go:621-680 | what Handle answers at once to a refused member: it answers unless a snapshot was judged complete, panics exactly when the strategy did, and else answers the store's error joined with the strategy's, permanent exactly when one of the two is |
| `AggregatorTheorems.SettledReleaseIsAcked` | routing/aggregator.go:802-826 | a call that stored its member and settled its claim never fails because of its drain loop |
| `AggregatorTheorems.LeaseHasOneHolder` | adapter/memory/groupstore.go:298-355 | a group is leased exactly when one call holds it, that call alone, with the claim in force, so its settle or abandon takes effect |
| `AggregatorTheorems.NothingLeftLeased` | routing/aggregator.go:759-918 | when every call has returned no group is leased |
| `AggregatorTheorems.CrashWedgesKey` | routing/aggregator.go:802-826 | the key of a crashed holder is never claimed again |
| `AggregatorTheorems.LiveHolderCanProceed` | routing/aggregator.go:759-918 | any other holder always has a step of its own |
| `AggregatorRuns.CrashedIff` | routing/aggregator.go:802-918 | a call has crashed if and only if the release strategy panicked about a claim of its, or the expired channel about a member |
| `AggregatorRuns.StrandedIff` | routing/aggregator.go:755-758 | once every call is over, a group is leased if and only if a call took such a step holding that group's claim |
| `AggregatorRuns.CrashHappens` | routing/aggregator.go:810-825 | a run of nine steps, all of Handle calls, whose drain loop strands a group |
| `AggregatorAnswers.KeptAnswer` | routing/aggregator.go:680-694 | the answer of a Handle that stored its member, exactly, off the steps of the run: the error e if and only if the strategy failed with e or the release of its own group did; a panic if and only if the strategy or a send panicked; nil if and only if the group was incomplete, or gone or leased at the claim, or it settled its claim and no send panicked |
| `AggregatorAnswers.OverCapAnswer` | routing/aggregator.go:644-667 | a call that stored nothing and went on to claim the full group always answers the fresh overflow error, but for a panic |
| `AggregatorAnswers.RefusedAnswer` | routing/aggregator.go:613-620 | a message turned away before the store is answered with the cause |
| `AggregatorAnswers.ReaperAnswer` | routing/aggregator.go:893-918 | a reaper visit swallows every error, but not a panic of a send |
| `AggregatorExpiry.FormedLast` | adapter/memory/groupstore.go:270 | a group is as old as the step of the run that last formed it: the Add of its first member, or the settlement that left it behind |
| `AggregatorExpiry.ExpiresIff` | routing/aggregator.go:893-918 | the reaper releases a group in hand if and only if it is complete, expires it if and only if it is incomplete or undecidable and that step was before the cutoff, and gives it back otherwise |
| `AggregatorExpiry.DrainsIff` | routing/aggregator.go:812-820 | the drain loop releases a residual if and only if it is complete, and gives it back otherwise |
| `Reassembly.HandleRuns` | routing/aggregator.go:613-826 | a Handle call with no other in between is a stretch of a machine run, with its events named |
| `Reassembly.ServedRuns` | routing/aggregator.go:613-826 | so are any number of them, one after the other |
| `Reassembly.CompleteIff` | routing/aggregator.go:308-337 | the default strategy releases a group if and only if its first member's size header, as int, int64 or a float cut toward zero, stands for no more than the members there are |
| `Reassembly.HandleRefuses` | routing/aggregator.go:296-301 | a message is refused permanently before the store if and only if its correlation header is missing, not a string, or empty |
| `Reassembly.SplitIsReassembled` | routing/splitter.go:82-117 | one Handle at a time, from any state a run reached: for any arrival order of one split's children with any repeats, the default Aggregator emits once per greedy complete cover, never earlier, and each emission holds every child exactly once |
| `Competing.IdentifiedIff` | routing/splitter.go:107-117 | the stamped children of an identified parent go to one key if and only if each child's own correlation header names it, or it has none and the key is the parent's id |
| `Competing.WholeIff` | routing/aggregator.go:308-315 | a group of different children of one split is whole exactly when it has as many members, and exactly when the default strategy releases it |
| `Competing.MainAggregateIff` | routing/aggregator.go:674-694 | with any calls competing: what Handle's main path claims is the group it judged, and whole, if and only if no settlement of the key fell between judgement and claim; otherwise every member was accepted after the judgement |
| `Competing.ClaimIsWholeIff` | adapter/memory/groupstore.go:298-310 | what any claim takes is whole if and only if every child has a delivery accepted and not settled |
| `Competing.JudgedAggregateIsWhole` | routing/aggregator.go:802-826 | an aggregate of the drain loop or the reaper is always whole |
| `Competing.EveryAggregate` | routing/aggregator.go:613-918 | every aggregate sent for the key comes from one of these paths, with the steps of its judgement and its claim, and is whole exactly as they say |
| `Competing.RaceSendsPart` | routing/aggregator.go:674-694 | for every split of two children, a run of the default Aggregator that sends one child alone |
| `Exchange.ReplyCorrelator.RegisterWaiter` | endpoint/exchange.go:63-88 | register refuses a closed gateway and a taken id, and otherwise makes a fresh slot |
| `Exchange.ReplyCorrelator.DeregisterWaiter` | endpoint/exchange.go:75-86 | deregister removes the caller's own slot and no later one under the same id |
| `Exchange.ReplyCorrelator.TakeWaiter` | endpoint/exchange.go:94-107 | the first half of deliver takes the waiter off the map |
| `Exchange.ReplyCorrelator.CloseWaiters` | endpoint/exchange.go:110-121 | the loop of closeAll closes every waiting slot once and empties the map; a second call does nothing |
| `Exchange.SendsAlwaysFit` | endpoint/exchange.go:94-121 | over every run no reply is sent to a full or closed slot and no slot is closed twice |
| `Exchange.EveryReplyHasOneFate` | endpoint/exchange.go:391-484 | a delivered reply is in exactly one place: the slot or the answer of one exchange that asked with its id, or once in the unmatched sink |
| `Exchange.UnfinishedIsNowhere` | endpoint/exchange.go:94-107 | no reply is routed anywhere before its own delivery is over |
| `Exchange.DrainIsCommitted` | endpoint/exchange.go:477-500 | giveUp blocks on its slot only when a value or a close is there or a delivery is committed to it |
| `Exchange.NoOrphanedWaiter` | endpoint/exchange.go:426-470 | a live exchange is on the map, or promised a reply, or has something to receive; after Close one of the last two |
| `Exchange.EndedCallIsForgotten` | endpoint/exchange.go:426-484 | an ended exchange leaves no waiter and no undrained reply |
| `ExchangeAnswers.OnMapIffWaits` | endpoint/exchange.go:63-121 | the map holds exactly the calls that registered and that no reply, no reconciler of their own and no Close has taken off since |
| `ExchangeAnswers.RegistersIff` | endpoint/exchange.go:63-88 | a call is refused as closed if and only if Close came before, else as a duplicate if and only if a call of its id waits, else it is registered with an open, empty slot |
| `ExchangeAnswers.TakesWaiterIff` | endpoint/exchange.go:391-401 | a reply is promised to a call if and only if that call waits under its id, and goes to the unmatched sink if none does |
| `ExchangeAnswers.EndsWith` | endpoint/exchange.go:426-470 | a registered call ends abandoned if and only if it gave up, else with the reply sent to its slot, or as closed if none was |
| `SseSpec.RetryIsExactIff` | adapter/http/sse.go:396-400 | the retry delay is the one asked for exactly when its nanoseconds fit int64; otherwise it is off by a multiple of 2^64, or not set when the milliseconds do not fit either |
| `SseSpec.RetryCanWrap` | adapter/http/sse.go:396-424 | an accepted retry value that comes out negative |
| `SseSpec.RetryReads` | adapter/http/sse.go:410-424 | milliseconds written in decimal, with any leading zeros, are the delay set, if it fits |
| `SseSpec.NotDigitsSetsNothing` | adapter/http/sse.go:410-424 | anything but digits sets none |
| `SseSpec.NamesAreAscii` | adapter/http/sse.go:384-401 | the field names and separators are those bytes |
| `SseParser.Parser.constructor` | adapter/http/sse.go:253-259 | one leading byte order mark is consumed and the buffers start empty |
| `SseParser.Parser.ReadLineBytes` | adapter/http/sse.go:447-477 | the byte loop returns the first line without its break (LF, CR or CRLF), or the end, or ErrEventTooLarge with the reader past that line |
| `SseParser.Parser.DrainLine` | adapter/http/sse.go:490-506 | the drain leaves the reader after the line's break, or at the end |
| `SseParser.Parser.ProcessLine` | adapter/http/sse.go:371-405 | processField updates the buffers as the format says and reports the data cap |
| `SseParser.Parser.NextEvent` | adapter/http/sse.go:291-336 | Next, with its buffers and the unread rest, is the value-level call; the data buffer keeps to the cap between calls |
| `SseParser.PeakIsBounded` | adapter/http/sse.go:371-390 | within a call the data buffer never passes twice the cap |
| `SseTheorems.ParserMeetsFormat` | adapter/http/sse.go:291-405 | on every stream repeated Next yields exactly the events, id, retry value and end that splitting into lines and interpreting blocks gives (section 9.2.6 of the WHATWG HTML Living Standard), if and only if every line and every block's data keep to the cap; otherwise some call says ErrEventTooLarge |
| `SseWritten.SplitWritten` | adapter/http/sse.go:426-477 | lines written with any of LF, CR and CRLF are read back, each once |
| `SseWritten.FieldIsRead` | adapter/http/sse.go:371-382 | a field line gives back the name and the value it was written with, with a space after the colon or without, and a line without a colon the empty value |
| `SseWritten.WrittenIsParsed` | adapter/http/sse.go:291-405 | end to end: whatever its breaks, spacing, comments, bare and unknown fields, after a byte order mark or not, a stream within the caps is parsed to the events it was written for and leaves its id and retry delay |
| `SseTheorems.OversizeIsSkippedByLine` | adapter/http/sse.go:291-336 | after ErrEventTooLarge the event buffers are empty and the reader stands right after the line that tripped the cap, the lines before it having been read as usual |
| `SseTheorems.RemainderOfAbandonedEvent` | adapter/http/sse.go:275-336 | the rest of an abandoned event, whatever it holds: one error per further trip of the cap, then the event of the lines since the last trip if they have data, then what follows; and what follows alone exactly when no line is over the cap and none is a data line |
| `SseEncoder.OversizeIsNotSkippedByEvent` | adapter/http/sse.go:275-336 | a family of inputs where that happens |
| `SseEncoder.Encode` | adapter/http/sse.go:82-119 | nothing is written for an id or name with CR, LF or NUL; otherwise exactly the frame's lines and the blank line |
| `SseEncoder.DataLinesAreLines` | adapter/http/sse.go:108-114 | the data lines are the lines the format sees in the payload, whichever break ends each |
| `SseEncoder.DataLinesAreSafe` | adapter/http/sse.go:100-115 | no break survives inside a data line |
| `SseEncoder.FrameFitsIff` | adapter/http/sse.go:82-119 | when a frame keeps to a parser's cap, in terms of its id, name, data lines and data |
| `SseEncoder.RoundTrip` | adapter/http/sse_server.go:15-21 | events encoded with heartbeats anywhere between frames parse to one event each, in order, same name, normalized data, id carried forward, then a clean EOF, if and only if every frame keeps to the cap |
| `SseServer.ReplayRing.Append` | adapter/http/sse_server.go:470-476 | appendRing shifts in place and keeps the newest max entries in order |
| `SseServer.ReplayRing.Replay` | adapter/http/sse_server.go:486-502 | replayAfter returns what follows the last entry with the id, and nothing when it is not ringed |
| `SseServer.RingIsLastN` | adapter/http/sse_server.go:409-452 | the ring is always the last n sends that carry an id |
| `SseServer.ResumeIsContiguous` | adapter/http/sse_server.go:206-256 | a connection whose buffer no send since its registration found full gets the frames missed after its Last-Event-ID, then every frame sent since, in order, no gap, no duplicate |
| `SseServer.RecordIs` | adapter/http/sse_server.go:432-451 | a connection has lost a frame if and only if an accepted send since its registration found its buffer full, and is then cut off if and only if the policy is to disconnect |
| `SseServer.SendReaches` | adapter/http/sse_server.go:409-452 | an accepted send is put at the end of every buffer with room; after Close a send changes nothing |
| `SseServer.HistoryIs` | adapter/http/sse_server.go:423-429 | the sends accepted are those before Close |
| `SseServer.RegisteredIff` | adapter/http/sse_server.go:176-186 | a request is given a connection if and only if the server is open and below its cap |
| `SseServer.MissedIs` | adapter/http/sse_server.go:478-502 | the missed frames are those with an id after the last occurrence of the Last-Event-ID, whose position is returned, when that is among the last n, else none |
| `SseServer.HubIsBounded` | adapter/http/sse_server.go:432-451 | no buffer passes its size and the connection cap is never exceeded |
| `QueueSpec.ClaimTakesFirstVisible` | adapter/memory/queuestore.go:182-208 | a claim takes every visible entry up to a cut with consecutive tokens, keeps the hidden ones and all after the cut in order, and cuts early only at max |
| `MemoryQueueStore.QueueStore.Claim` | adapter/memory/queuestore.go:182-208 | the in-place claim is that claim, for every max, and clears the tail of the array |
| `MemoryQueueStore.QueueStore.Compact` | adapter/memory/queuestore.go:189-204 | its loop, which overwrites cells it has read |
| `MemoryQueueStore.QueueStore.Enqueue` | adapter/memory/queuestore.go:132-177 | with a slot free the message is appended; on a full store each policy does its own, and Block waits |
| `MemoryQueueStore.QueueStore.AppendMessage` | adapter/memory/queuestore.go:147-150 | the enqueue section appends one entry, in place or in a grown array |
| `MemoryQueueStore.QueueStore.Evict` | adapter/memory/queuestore.go:161-172 | DropOldest replaces the head, or reports that nothing is evictable |
| `MemoryQueueStore.QueueStore.Ack` | adapter/memory/queuestore.go:210-221 | Ack removes the entry and frees a slot exactly when the token is live |
| `MemoryQueueStore.QueueStore.Nack` | adapter/memory/queuestore.go:223-243 | Nack with requeue keeps the slot and appends the entry hidden for the delay; without, it is a removal; a dead token does nothing |
| `QueueTheorems.SemaphoreIsExact` | adapter/memory/queuestore.go:132-243 | the semaphore counts ready, in flight and the calls between their two steps, within capacity, so freeing a slot never waits |
| `QueueTheorems.ClaimSettledOnce` | adapter/memory/queuestore.go:210-243 | every token issued is in flight or was settled to effect exactly once, and any further settle of it changes nothing |
| `QueueTheorems.AdmittedIsInOnePlace` | adapter/memory/queuestore.go:132-243 | a message whose Enqueue returned nil (not under DropNewest) is listed once, or in flight under one token, or gone as recorded |
| `QueueTheorems.NoMessageVanishes` | adapter/memory/queuestore.go:132-243 | a message keeps a place for ever, an end is final, and only DropOldest evicts |
| `QueueTheorems.MoveStep` | adapter/memory/queuestore.go:132-243 | the only ways a message moves, each with the one call that causes it |
| `QueueTheorems.RedeliveryWaits` | adapter/memory/queuestore.go:223-241 | a message requeued with a delay is not claimed before it is over |
| `QueueOrder.MovesExactly` | adapter/memory/queuestore.go:132-243 | every move of every message, exactly: a claim takes it if and only if it is visible and fewer than max visible ones are before it, under the token of that rank; its own token alone acks, drops or requeues it; DropOldest evicts the head |
| `QueueOrder.ReadyInEntryOrder` | adapter/memory/queuestore.go:147-172 | the ready list is in the order its messages entered, by admission or last requeue, each visible from then or from the end of its delay, so claims go oldest first |
| `QueueOrder.EnqueueAnswers` | adapter/memory/queuestore.go:132-177 | what Enqueue answers, exactly, under each policy |
| `Attempts.AttemptTracker.ObserveOne` | endpoint/attempts.go:39-47 | observe counts one more and refreshes the time |
| `Attempts.AttemptTracker.SweepIdle` | endpoint/attempts.go:59-68 | the sweep loop removes exactly the ids idle for the ttl |
| `Consumer.Dispatch` | endpoint/consumer.go:807-871 | an uninterrupted dispatch takes machine steps, settles its delivery exactly as the settlement table says, or leaves it and the attempt count as they were when the settle closure fails, forgets the id exactly when it acked, and returns its cause |
| `Consumer.DivertTerminal` | endpoint/consumer.go:1033-1076 | the outcomes of an invalid message: discarded with no sink, accepted, refused and discarded, requeued at shutdown, or left by a failing settle closure |
| `Consumer.Divert` | endpoint/consumer.go:1144-1163 | a dead-letter divert acks when the sink accepts, requeues with the backoff when not, and keeps the count when the settle closure fails |
| `ConsumerTheorems.EveryMessageIsInOnePlace` | endpoint/consumer.go:716-882 | at every point of every run a message is listed once, or in flight under one token, or acked with one fate; in flight it is with the poll loop, or with a worker that owes it a settlement, or abandoned, or its settle closure failed |
| `ConsumerTheorems.AbandonedIff` | endpoint/poller.go:68-82 | a claimed row is abandoned if and only if the hand-off of its batch was aborted at an earlier row |
| `ConsumerTheorems.AbandonedForGood` | endpoint/poller.go:72-81 | an abandoned row stays in flight in every later state |
| `ConsumerTheorems.StuckIff` | endpoint/poller.go:68-82 | once nobody owes a settlement, a token is in flight if and only if it was abandoned or its settle closure failed |
| `ConsumerTheorems.AbandonHappens` | endpoint/poller.go:68-82 | a run of five steps that abandons a row |
| `ConsumerTheorems.FatesAreNamed` | endpoint/consumer.go:914-943 | only invalid messages are discarded, only for want of a sink or refused by it; an over-size one reaches no dead-letter sink; a transient failure ends only in the dead-letter sink |
| `ConsumerTheorems.DepositedAtMostOnce` | endpoint/consumer.go:1033-1163 | no message is accepted by sinks twice, and one accepted is never requeued or acked as something else |
| `ConsumerTheorems.FateIsFinal` | endpoint/consumer.go:807-882 | a fate never changes |
| `ConsumerTheorems.TrackerCounts` | endpoint/attempts.go:39-68 | the tracker holds, for every id, the failures and the time that the events of the run say |
| `ConsumerTheorems.DeadLetterFromTheMth` | endpoint/consumer.go:858-882 | a failed attempt goes to the dead-letter sink if and only if 0 < MaxAttempts <= n without native dead-lettering, n the native count if the message has one, else the failures of its id since last forgotten; others are redelivered, and a native count leaves the tracker alone |
| `ConsumerTheorems.ExhaustedWasCounted` | endpoint/consumer.go:860-865 | the dead-letter sink is tried only right after such a count in the same dispatch |
| `ConsumerAnswers.AckedBecause` | endpoint/consumer.go:807-871 | the fate a delivery is acked with, exactly, off the events: handled, discarded for want of a sink, discarded as refused, or sunk, each if and only if the handler, the codec and the sinks answered so |
| `ConsumerAnswers.NackedBecause` | endpoint/consumer.go:716-871 | a delivery is requeued for exactly one of four reasons, and never after it was handled, discarded or accepted by a sink |
| `ConsumerAnswers.NoClaimAfterStop` | endpoint/poller.go:25-100 | a poll loop that has stopped claims nothing more |
| `Credit.CreditGate.TopUp` | endpoint/poller.go:34-38 | the top-up takes every free credit up to the batch |
| `Credit.CreditGate.ReleaseN` | endpoint/poller.go:155-162 | releaseN returns exactly n credits |
| `Credit.PollRound` | endpoint/poller.go:31-82 | one turn of the poll loop takes exactly one credit per row handed over, and exactly how many rows are handed over, Nacked, and neither |
| `Credit.PollErrorBackoff` | endpoint/poller.go:142-148 | the doubling loop computes min(30s, interval * 2^(n-1)) for every interval and n |
| `Credit.CreditsAreConserved` | endpoint/credit.go:20-76 | tokens taken are the credits producers hold plus unreleased deliveries, never above maxInFlight |
| `Credit.NothingBlocks` | endpoint/consumer.go:385-401 | no release waits, no hand-off to the worker channel waits, and releaseN never gets a negative count |
| `Credit.ReleasedOnce` | endpoint/credit.go:65-76 | a delivery's credit is released at most once however often it is settled |
| `Credit.AllCreditsReturn` | endpoint/poller.go:72-81 | once producers have stopped and workers are done every credit is back, also after a mid-hand-off shutdown |
| `Credit.CreditsOfPoll` | endpoint/poller.go:31-38 | a poll is made with the credit acquired and one for each top-up since |
| `Credit.RowsAreHandedOver` | endpoint/poller.go:60-82 | of the rows of a poll as many as there are credits for are handed over, one by one, to the last |
| `Credit.HandedInOrder` | endpoint/poller.go:68-82 | rows are queued in order and taken in order |
| `Credit.StopsForGood` | endpoint/poller.go:72-81 | a loop that has found its context done polls no more |
| `Breaker.CircuitBreaker.TryProbeNow` | resilience/breaker.go:123-138 | TryProbe as the specification has it |
| `Breaker.CircuitBreaker.RecordNow` | resilience/breaker.go:144-171 | Record as the specification has it |
| `Breaker.CircuitBreaker.HalfOpenNow` | resilience/breaker.go:195-211 | toHalfOpen as the specification has it |
| `Breaker.TimerPendingIffOpen` | resilience/breaker.go:184-211 | one cooldown timer is pending exactly while the breaker is open, and it finds it open when it fires |
| `Breaker.OneProbePerEpisode` | resilience/breaker.go:118-138 | at most one TryProbe succeeds per half-open episode, whatever late Records arrive |
| `Breaker.ModeMoves` | resilience/breaker.go:144-211 | the state after every step, exactly: half-open by a cooldown, closed by a success recorded half-open, open by a failure recorded half-open or the threshold-th in a row, and else as before |
| `Breaker.ProbesIff` | resilience/breaker.go:123-138 | TryProbe succeeds if and only if the breaker is closed, or half-open with nobody having asked since the cooldown that made it so |
| `Breaker.EpisodeStartsUnprobed` | resilience/breaker.go:200-208 | a cooldown frees the probe whatever flag it finds |
| `Breaker.AdmittedIff` | endpoint/consumer.go:609-633 | a dispatcher leaves admitBreaker if and only if it checked while the breaker was not open, or its context ended while parked |
| `Breaker.OpensAtThreshold` | resilience/breaker.go:161-166 | a closed breaker opens exactly at the threshold-th failure in a row |
| `Breaker.NoLostWakeup` | endpoint/consumer.go:609-633 | a parked waiter holds a closed channel, or the current one of an open breaker whose timer is pending and closes it |
| `RateLimit.TokenBucket.Wait` | resilience/ratelimit.go:71-91 | with any passes of other callers in between, Wait takes exactly one token, at the first of its readings that finds one, or none |
| `RateLimit.TokenBucket.RefillNow` | resilience/ratelimit.go:94-105 | refill accrues for elapsed time, capped, and ignores a clock that did not advance |
| `RateLimit.AlwaysValid` | resilience/ratelimit.go:71-105 | tokens stay within [0, burst] |
| `RateLimit.RunBound` | resilience/ratelimit.go:71-105 | of any stretch of passes within a window of length L, by any number of callers and with any clock, at most burst + L/interval succeed |
| `RateLimit.FoundIsLeast` | resilience/ratelimit.go:94-105 | the tokens a pass finds are the least of what any stretch of passes before it leaves |
| `RateLimit.TakesIff` | resilience/ratelimit.go:71-91 | a pass takes a token if and only if every stretch that ends with it then still keeps to burst + L/interval |
| `Producer.SendRetrying` | endpoint/producer.go:451-487 | the loop terminates with MaxAttempts 0 too, got to its last attempt by transient failures whose waits fitted the budget, ended for the reason stated, and returns that reason's outcome |
| `Producer.BudgetBounds` | endpoint/producer.go:451-487 | waits sum to at most the budget, each at least 100ms; attempts at most 1 + budget/100ms and at most MaxAttempts |
| `Producer.WaitsHonourServer` | endpoint/producer.go:494-500 | each wait is the largest of the backoff, 100ms and the capped Retry-After of the attempt before it (section 10.2.3 of RFC 9110), so a server may lengthen it up to the cap and never shorten it |
| `Producer.EndingIsUnique` | endpoint/producer.go:455-486 | how a send ends, after how many attempts and which waits, is determined |
| `Producer.OutcomeIsHonest` | endpoint/producer.go:456-486 | nil exactly on a successful send; the dead-letter sink is tried exactly on the other transient endings, never after success or a permanent error |
| `Producer.DeadLetteredIff` | endpoint/producer.go:529-562 | ErrDeadLettered is in the result exactly when the sink accepted the message |
| `Producer.CauseIsKept` | endpoint/producer.go:465-485 | exactly which errors a failing call's error answers to: the last send's, the budget stop, the cancellation, and the dead-letter sink's failure or acceptance |
| `Elector.LeaseTable.AcquireByUpsert` | adapter/cron/dialect.go:174-194 | the single statement leads exactly when the row is absent, own or expired |
| `Elector.LeaseTable.AcquireBySteps` | adapter/cron/dialect.go:379-454 | the MySQL statements, run alone, decide the same, but for a renewal within one microsecond, which a later read confirms |
| `Elector.LeadersDoNotOverlap` | adapter/cron/dialect.go:174-194 | with any number of calls in flight per instance, in both dialects, answers lost and statements failing: if a holder's statements execute in start order, then once an instance was told it leads until e, any other told so later was told by a statement that read a clock past e |
| `Elector.SerialIsOrdered` | adapter/cron/source.go:266-296 | a run in which each instance waits for its call before the next is in that order |
| `Elector.SerialLeadersDoNotOverlap` | adapter/cron/sqlelector.go:125-127 | so its leaders do not overlap |
| `Elector.LeasesStayCovered` | adapter/cron/dialect.go:379-454 | in that order, the row never promises less than a lease granted, and others' leases ended before its holder took over |
| `Elector.ShortensIff` | adapter/cron/dialect.go:180-184 | a step shortens the row's lease if and only if it is a write of the holder's that started before the one that wrote the row |
| `Elector.CoveredIff` | adapter/cron/dialect.go:174-194 | with every answer delivered, the row covers every lease granted at every point of a run if and only if no write of it is backdated like that |
| `Elector.OthersEndedWhenTold` | adapter/cron/dialect.go:54-58 | if no write of a run is backdated, in either dialect and whatever answers are lost, every lease another instance was told of has ended on the clock when an instance is told it leads |
| `Elector.BackdatedOverlaps` | adapter/cron/dialect.go:174-194 | from any run that ends in such a write while the lease it shortens is running, any other instance can be told it leads before that lease ends |
| `Elector.OverlapHappens` | adapter/cron/dialect.go:174-194 | for every lease length above zero, a run of eleven steps in which leaders overlap, one instance having two calls in flight |
| `Elector.LostInsertLeadsIff` | adapter/cron/dialect.go:433-446 | the re-check after a lost INSERT IGNORE makes a leader if and only if the row was last written by another call of the same instance |
| `Elector.InsertLeadsIff` | adapter/cron/dialect.go:416-432 | INSERT IGNORE makes a leader if and only if the row is still absent; else the call goes on to the re-check |
| `Elector.AloneLeadsIff` | adapter/cron/dialect.go:379-454 | a call on its own, from any reachable state of the machine and in either dialect, leads if and only if the row is absent, own or expired, but for a MySQL renewal that changes nothing and runs out before the next statement |

## Left out

- SQL-backed group and queue stores: only their interface contract is in the repository's prose; crash recovery is not modelled.
- HTTP client and server plumbing, expression providers, codecs, channels, routers, filters, cron schedule parsing: I/O or single-branch code.
- Option constructors, range checks, log records, hooks and error texts: they decide nothing modelled here.
- Backoff strategies: any function from the attempt number to a delay; the float arithmetic of ExponentialBackoff is not modelled.
- Go scheduling: theorems are about safety and about which step is enabled next, not about fairness.
- Aggregator theorems: the store is the in-memory one; a fence token is unique within one incarnation of a key only, which the theorems account for by following each claim to its holder.
- Reassembly.SplitIsReassembled: one Handle call at a time, because with competing calls the law is false; `Competing` has the exact condition for every interleaving. It assumes that the store has room for the group and that sends succeed.
- Consumer: one poll loop per queue; the breaker and the drain deadline appear as a refusal at any point; a settle closure that fails is a step, though the in-memory queue's own do not.
- Credit: a shed delivery on the push path takes no credit and is not a step; rate limiting before the gate is in `RateLimit`, parking in `Breaker`.
- RateLimit: the interval is positive; a rate so high that the interval truncates to zero nanoseconds is unlimited in the source.
- Exchange: a reply is a number that names the delivery that brought it; payloads and the reply timeout's clock are not modelled.
- SseServer: heartbeats, write deadlines and response headers; a frame stands for its bytes, which are in `SseEncoder`.
- Elector: the lease-schema statements; a row is never deleted, so the error for a row still absent after a lost insert does not arise. The election is safe only while no write of a holder's is backdated, which the dialect does not check and a cron source keeps by waiting for each answer, as long as jobs that share an instance id have scopes of their own.
