# RoadRunner plugins: a verified model of the job queues, the form parser and the connection protocols

This project models, in Dafny 4.11, the parts of the RoadRunner plugin collection whose correctness
depends on long runs, on interleavings or on the order in which things are visited, and proves what
they keep. `dafny verify dfyconfig.toml` checks all of it.

**The durable queue** (`BoltQueue`, `JobTable`, `BoltSafety`, `BoltRuns`, `BoltHands`, `BoltItems`, `BoltCounts`,
`BoltBackpressure`, `BoltRelease`, `BoltConsumer`, `Calendar`, `Text`). The BoltDB driver keeps three
buckets (`push`, `processing`, `delayed`), hands items to a priority queue and keeps two wrapping
64-bit counters. `BoltQueue` is the driver as a step relation: push, the check and the transaction of
the listener, release of a delayed job, ack, nack, requeue, a requeue that fails, an item that is
dropped, close and reopen. `JobTable` is the simple form it refines: one table of owed jobs, in which
a delay slot holds one job. Every claim about runs is proved for all runs of that relation, for any
number of listeners. `BoltConsumer.Consumer` is the object: each of its methods continues a run, so
whatever is called on a consumer, in whatever order, all that is proved of runs holds of it. `Calendar`
carries the argument that RFC 3339 keys sort like the instants they print.

**Settlement** (`Protocol`, `Poller`): how a worker's reply becomes one call on the job, with the
pooled structs that replies are decoded into, and the poller that counts and returns payloads.

**The in-memory queue** (`MemoryQueue`, `MemoryCounters`): pushes, sleepers, wake-ups that are dropped,
requeues, and what each counter shows.

**Form parsing** (`FormKeys`, `FormTree`, `FormData`, `FormOrders`, `FormHeap`): bracketed field names
are parsed by an automaton and mounted into a tree of maps, field by field, first the posted fields and
then the multipart values, each in the random order of a Go map.

**Replacing a connection** (`AmqpToken`, `BeanstalkPool`): a publishing channel in a one-slot Go channel
that the redialer destroys and makes anew, and four fields swapped under a read/write lock. Any number
of callers interleave.

**TCP connections** (`TcpFrames`, `TcpSession`, `TcpLaws`): the handler is proved to tell the worker what
a closed form says, made of framing, of the read that ends it, and of where the answers cut it short.

**Watching and debouncing** (`Watcher`, `Debounce`) and **entity tags** (`Etag`).

## Findings

Where the code does less than one would hope, the model follows the code, and the exact condition is proved.

- A pipeline that is destroyed and declared again leaves its items in the priority queue, and recovery
  hands the same jobs out anew. A job is then in two hands, and may be executed after it was
  acknowledged. It is in one hand at most exactly when no record is handed out while an item of it that
  was in flight at such a reopening is still about; where every reopening is a restart it never happens
  (`BoltHands.OneHandExactly`, `AckedIsGoneExactly`, `RestartsKeepOneHand`, `TwoHandsHappen`).
- After a reopen the `active` counter starts from zero although jobs are waiting. As soon as more of
  them are acknowledged than pushed the counter wraps, and the listener takes nothing more, whatever is
  requeued, until immediate jobs are pushed or the database is reopened
  (`BoltBackpressure.CheckPassesExactly`, `RecoveredBacklogStarves`, `StarvationHappens`).
- A job that is only responded to, or whose settlement failed, stays in `processing` and is not handed
  out again before the database is reopened; a job is so stranded exactly when that has happened to it
  (`BoltRuns.StrandedExactly`, `StrandingHappens`).
- A delay of more than 292 years overflows the duration. Such a job is lost exactly when its due time
  comes out before 1990, and is otherwise released early (`Calendar.DueSecondExact`,
  `BoltRelease.OverlongDelays`, `OverlongDelayIsNeverReleased`, `OverlongDelayReleasedAtOnce`).
- The payload of a pooled queue response is not reset. A response that names no payload answers with
  an earlier one's, and this is the only reply that depends on earlier ones
  (`Protocol.HistoryIndependentExactly`, `LeakedPayload`).
- A delayed in-memory job that finds its queue full on waking never gives its goroutine slot back.
  Delayed jobs are refused for good exactly after a thousand of them (`MemoryQueue.RefusedExactly`,
  `DelaysAreOverExactly`, `DelaysCanEnd`). `Stop` leaves the second half of the queue undrained
  (`MemoryQueue.DrainOnStop`).
- A form with one slot above another, as `a` with `a[b]`, panics: in every order of visiting exactly
  when the upper one is in the first map and the lower one in the second, so always for a multipart form,
  whose values are in both; in some orders when both are in one map (`FormOrders.AlwaysPanicsExactly`,
  `NeverPanicsExactly`, `BuildsOneTreeExactly`, `MultipartFormExactly`; `FormData.PlainAndNestedClash`).
- Once the AMQP redialer gives up no caller ever gets a channel again, and until then some continuation
  brings one: a push fails when its deadline passes, and a requeue, which has none, waits for ever
  (`AmqpToken.LostForGoodExactly`, `GivingUpHappens`).
- A service can be reset before the interval after its event has passed, exactly when a tick lay in the
  timer's channel at the time of the event (`Debounce.EarlyResetExactly`, `TickedExactly`, `StaleTick`).
- What counts as one TCP body depends on how the bytes were cut into reads: two cuttings agree exactly
  when they break at the same places (`TcpFrames.SameBodiesExactly`, `CuttingMatters`).
- At an end of file the worker hears of the close before it is given the rest, exactly when there is a
  rest and the worker has gone along until then (`TcpLaws.ClosedTooEarlyExactly`, `EarlyCloseHappens`).
- `Stop` of the AMQP driver hangs for good, exactly when the redialer has given up, has been stopped
  before, or has left on a quiet close (`AmqpToken.StopHangsExactly`).
- An AMQP connection that closes without an error is never replaced, and publishers go on taking the
  channel of the closed one (`AmqpToken.QuietCloseIsFinal`).
- An in-memory job that is only responded to stays in the counters for ever (`MemoryQueue.RespondedStay`).
- A requeue that gives an immediate in-memory job a delay, or takes it away, discounts the wrong counter.
  Each counter is off by the number of such requeues one way less those the other way, and by nothing
  else than timed-out, dropped and only responded jobs and late acknowledgements
  (`MemoryCounters.EachCounter`, `CountersAreTheJobs`, `DriftHappens`).

The comment on `handleAndContinue` (tcp/handler/handler.go:72, 155) has its result the wrong way
round; the code, and the model, continue on true. The comment at boltdb/boltjobs/listener.go:145 says
that an item is queued after the commit, while the scan queues it before.

## Model

| member | source | states |
|---|---|---|
| `BoltSafety.StepRefinesTable` | boltdb/boltjobs/item.go:80-207 | every step of the driver takes buckets that hold exactly the jobs of a table to buckets that hold exactly the jobs of the table that step stands for: refinement of the three-bucket driver to one table of owed jobs |
| `BoltSafety.PushKeepsSound` | boltdb/boltjobs/consumer.go:236-286 | a push under an identifier that is not live adds one owed job, or displaces the one holder of its delay slot, and keeps everything else owed and stored |
| `BoltSafety.TakeKeepsSound` | boltdb/boltjobs/listener.go:33-79 | moving a record from `push` to `processing` and handing it out neither loses nor doubles a job |
| `BoltSafety.ReleaseKeepsSound` | boltdb/boltjobs/listener.go:115-147 | releasing a delayed job keeps it owed, in `processing` only, in one hand |
| `BoltSafety.AckKeepsSound` | boltdb/boltjobs/item.go:80-105 | an ack removes its job from what is owed and from every bucket, and no other |
| `BoltSafety.NackKeepsSound` | boltdb/boltjobs/item.go:107-143 | a nack puts the stored record back unchanged and never writes an empty one |
| `BoltSafety.RequeueKeepsSound` | boltdb/boltjobs/item.go:156-207 | a requeue changes headers, delay and an unset priority of the owed job and nothing else, and displaces at most the holder of its delay slot |
| `BoltSafety.RequeueFailsKeepsSound` | boltdb/boltjobs/item.go:156-164 | a requeue whose transaction does not begin has rewritten the item in memory and nothing that is stored |
| `BoltSafety.ReopenKeepsSound` | boltdb/boltjobs/consumer.go:107-118 | after recovery the same jobs are owed and stored, whatever was in flight |
| `BoltRuns.ReachableIsGood` | boltdb/boltjobs/listener.go:14-82 | in every state of every run the buckets hold exactly the owed jobs, and items in flight are distinct and in `processing` only |
| `BoltRuns.Durability` | boltdb/boltjobs/consumer.go:236-286 | from an accepted push until its ack, or until its delay slot is overwritten, some bucket holds the job with identifier, name, payload and pipeline unchanged, through any steps in between, reopening included |
| `BoltRuns.Provenance` | boltdb/boltjobs/consumer.go:236-286 | the converse: whatever is owed goes back to one push of the same job, not acknowledged since |
| `BoltRuns.BucketsHoldOnlyOwed` | boltdb/boltjobs/listener.go:33-79 | a record in any bucket is an owed job, unchanged |
| `BoltRuns.SingleDelivery` | boltdb/boltjobs/listener.go:37-79 | an item of the session that is in flight has its record in `processing`, none in the other buckets, and no twin in the session; it is that record but for headers and delay, which a failed requeue may have rewritten, with the pipeline's priority where the record has none; no empty record is ever written |
| `BoltRuns.NoResurrection` | boltdb/boltjobs/item.go:80-105 | an acknowledged identifier is in no bucket and is not handed out by any later step, reopening included, until it is pushed again |
| `BoltRuns.DroppedWaitsForReopen` | boltdb/boltjobs/item.go:209-211 | a job whose item is dropped without a transaction stays stored, is not delivered again before a reopen, and is back in `push` after it |
| `BoltRuns.StrandedExactly` | boltdb/boltjobs/item.go:209-211 | a job is kept in `processing`, in no hand and out of the listeners' sight, exactly when its item was dropped and the database not reopened since |
| `BoltRuns.StrandingHappens` | boltdb/boltjobs/item.go:209-211 | a run that ends there |
| `BoltHands.OneHandExactly` | jobs/plugin.go:497-529 | over all hands, of this session and of closed ones: up to any step a job is in one hand at most, exactly when no step handed it out while an item of it, in flight when the pipeline was declared again, was still about |
| `BoltHands.AckedIsGoneExactly` | boltdb/boltjobs/item.go:80-105 | after its ack a job is in no hand, exactly when it was in one hand before |
| `BoltHands.AckedStaysOutOfHands` | boltdb/boltjobs/item.go:80-105 | and then it stays out of all hands until it is pushed again |
| `BoltHands.RestartsKeepOneHand` | boltdb/boltjobs/consumer.go:107-118 | where every reopening is a restart of the process, no job is ever in two hands |
| `BoltHands.TwoHandsHappen` | jobs/plugin.go:497-529 | a run through a redeclared pipeline: the job is in two hands, and after its ack it is owed nowhere and still to be executed |
| `BoltItems.DeliveryCarries` | boltdb/boltjobs/listener.go:43-79 | a delivery adds one item, which is the stored record whole, headers and delay included, with the pipeline's priority where the record has none; the other items stay, and `processing` gets the record as it was stored |
| `BoltItems.ItemCarriesTheRecord` | boltdb/boltjobs/listener.go:43-79 | over all runs: from the step that handed it out, and while the item is in hand, `processing` holds the record that was taken, and the item carries it unless a requeue of the item has failed |
| `BoltItems.ItemCarriesTheFailedRequeue` | boltdb/boltjobs/item.go:156-164 | over all runs: after a failed requeue the item in hand has the headers and the delay of the last one that failed, and is otherwise what it was |
| `BoltItems.ScanHandsOver` | boltdb/boltjobs/listener.go:115-147 | a scan hands out one item for each key, in the order of the keys, each carrying the record of its key, and touches no other item |
| `BoltCounts.OneHolder` | boltdb/boltjobs/consumer.go:255-262 | a delay slot has at most one holder, so one store overwrites at most one job |
| `BoltCounts.LiveJobs` | boltdb/boltjobs/consumer.go:255-276 | in every reachable state live jobs = accepted - acknowledged - overwritten |
| `BoltCounts.BucketSizes` | boltdb/boltjobs/consumer.go:107-118 | live jobs are the keys of `push` and `processing` together plus the slots of `delayed` |
| `BoltCounts.CountersFollowLiveJobs` | boltdb/boltjobs/item.go:98-102 | within a session `active` + `delayed` equals live jobs - live jobs at opening + jobs overwritten since, modulo 2^64, although requeueing makes each counter drift |
| `BoltBackpressure.ActiveIsTheSurplus` | boltdb/boltjobs/consumer.go:275-276 | in every reachable state `active` is, modulo 2^64, the number of immediate jobs above those at opening plus the drift that requeues cause; without a requeue there is no drift |
| `BoltBackpressure.CheckPassesExactly` | boltdb/boltjobs/listener.go:23-26 | the prefetch check passes exactly while the immediate jobs, with the drift of requeues, number at least as many as at opening and at most `prefetch` more |
| `BoltBackpressure.Backpressure` | boltdb/boltjobs/listener.go:23-79 | in a session opened without immediate jobs and without requeue, at most `prefetch` plus one per listener immediate jobs are in flight, even when pushes land between check and transaction |
| `BoltBackpressure.RecoveredBacklogStarves` | boltdb/boltjobs/listener.go:23-26 | once that number is below the one at opening the listener takes nothing, requeues or not, until an immediate push or a reopen |
| `BoltBackpressure.ShrunkenBacklogStalls` | boltdb/boltjobs/listener.go:23-26 | without a requeue, a listener at rest is stalled exactly when fewer immediate jobs are left than at opening |
| `BoltBackpressure.StarvationHappens` | boltdb/boltjobs/consumer.go:137-138 | a run that reaches that state with a job left in `push` |
| `Calendar.FormatOrder` | boltdb/boltjobs/consumer.go:257 | RFC 3339 strings of UTC instants with four-digit years compare byte-wise exactly as the instants do (section 5.1 of RFC 3339) |
| `Calendar.FormatReadsBack` | boltdb/boltjobs/consumer.go:257 | the printed key read back: its fields are the year, month, day, hour, minute and second of the instant, with the separators of the layout in between |
| `Calendar.NextDay` | boltdb/boltjobs/consumer.go:257 | the calendar against its rule: the date of the day after is the next of the month, or the first of the next month or year, by the month lengths and the Gregorian leap years |
| `Calendar.DayZero` | boltdb/boltjobs/consumer.go:257 | day zero is the first of January of the year zero; with the rule this determines every date |
| `Calendar.KeysFromYear` | boltdb/boltjobs/listener.go:95 | a key is at or after the first key of a year exactly when its instant's year is |
| `Calendar.DueSecondExact` | boltdb/boltjobs/item.go:182 | the due second is now plus the delay exactly when the delay fits a 64-bit count of nanoseconds, and earlier otherwise |
| `BoltRelease.ReleasedExactlyWhenDue` | boltdb/boltjobs/listener.go:95-115 | the byte-wise scan covers a delayed job exactly when its due second is past and not before 1990; for delays up to 292 years exactly from the second push time plus delay on |
| `BoltRelease.OverlongDelays` | boltdb/boltjobs/consumer.go:257 | an overlong delay is due before the time asked for; it is never covered by a scan when that is before 1990, and otherwise covered exactly from then on |
| `BoltRelease.EarlyReleaseHappens` | boltdb/boltjobs/consumer.go:257 | the clock reading at which such a job is first covered |
| `BoltRelease.OverlongDelayIsNeverReleased` | boltdb/boltjobs/consumer.go:257 | a delay one second longer than a duration can hold is never covered by any scan |
| `BoltRelease.OverlongDelayReleasedAtOnce` | boltdb/boltjobs/consumer.go:257 | a delay of 18446744074 seconds is released within a second |
| `BoltRelease.WaitsExactlyUntilDue` | boltdb/boltjobs/listener.go:102-149 | from push to release, over all runs with pushes, requeues, ticks and other steps in between: unless another job is stored into its slot, a delayed job is in its bucket exactly as long as no tick has come in or after the second push time plus delay |
| `BoltRelease.RequeuedWaitsExactlyUntilDue` | boltdb/boltjobs/item.go:176-193 | the same from a requeue with a delay, and the job waits with the new headers and delay |
| `BoltRelease.Seek` | boltdb/boltjobs/listener.go:115 | the first key at or after a start, or none exactly when there is none |
| `BoltRelease.Following` | boltdb/boltjobs/listener.go:115 | the first key after a given one, which may be gone |
| `BoltConsumer.Consumer.ValidIsSound` | boltdb/boltjobs/item.go:80-207 | after any calls the buckets hold exactly what is owed |
| `BoltConsumer.Consumer.Open` | boltdb/boltjobs/consumer.go:90-145 | opening the database that a run has left behind continues that run: the same jobs are owed, `push` has all of `processing` besides its own and the other buckets are as they were, nothing is in flight, the counters are at zero |
| `BoltConsumer.Consumer.Recover` | boltdb/boltjobs/consumer.go:107-118 | the cursor loop merges all of `processing` into `push` |
| `BoltConsumer.Consumer.Push` | boltdb/boltjobs/consumer.go:236-286 | an accepted job is owed and in the bucket that its delay decides, the other bucket is untouched, the counter of its kind goes up by one and wraps at 2^64, and at most the holder of its delay slot is lost |
| `BoltConsumer.Consumer.CheckPrefetch` | boltdb/boltjobs/listener.go:23-26 | passes exactly while the immediate jobs, with the drift, are between those at opening and `prefetch` more |
| `BoltConsumer.Consumer.TakeFirst` | boltdb/boltjobs/listener.go:27-79 | hands out the job with the least key, in one hand and in `processing` only, or none exactly when the bucket is empty; the item carries the whole record, no other record or item changes, and everything stays owed |
| `BoltConsumer.Consumer.Release` | boltdb/boltjobs/listener.go:115-147 | a delayed job leaves its slot for `processing` and one hand; the item carries the whole record, no other record or item changes, and every job stays owed |
| `BoltConsumer.Consumer.ReleaseBetween` | boltdb/boltjobs/listener.go:115-147 | the cursor loop with deletion releases exactly the keys between the bounds, in order, leaves the rest as it was, each new item carries the record of its key, and every job stays owed |
| `BoltConsumer.Consumer.ReleaseDue` | boltdb/boltjobs/listener.go:95-149 | a tick takes out of the bucket exactly what the scan of its clock reading covers, each new item carries the record of its key, older items stay, and every job stays owed |
| `BoltConsumer.Consumer.Ack` | boltdb/boltjobs/item.go:80-105 | the job is owed no more and is in no bucket, no other is touched, and the counter of the item's kind goes down by one and wraps below zero; on an item of a closed session it fails and changes nothing |
| `BoltConsumer.Consumer.Nack` | boltdb/boltjobs/item.go:107-143 | the record moves from `processing` back to `push`, unchanged and never empty, and everything stays owed |
| `BoltConsumer.Consumer.Requeue` | boltdb/boltjobs/item.go:156-207 | the item with the new headers and delay moves from `processing` to the bucket that the delay decides and stays owed; on an item of a closed session it fails, rewrites the item and nothing that is stored |
| `BoltConsumer.Consumer.Respond` | boltdb/boltjobs/item.go:209-211 | the item is forgotten, and its job stays owed and is stranded |
| `MemoryQueue.Conservation` | memory/memoryjobs/consumer.go:210-275 | in every reachable state active + delayed = jobs held + timed-out pushes + dropped wake-ups + jobs only responded to - acks after a failed requeue; the goroutine count is sleepers and those about to leave + dropped jobs; the queue holds each queued job once and keeps its capacity |
| `MemoryQueue.RespondedStay` | memory/memoryjobs/item.go:109-112 | a job that is only responded to is never taken out of the counters |
| `MemoryQueue.DropsAddUp` | memory/memoryjobs/consumer.go:221-233 | the goroutine count never falls below the number of jobs ever dropped |
| `MemoryQueue.RefusedExactly` | memory/memoryjobs/consumer.go:215-219 | a delayed push or requeue is refused exactly when sleepers, leaving goroutines and jobs ever dropped number a thousand |
| `MemoryQueue.DelaysEndForGood` | memory/memoryjobs/consumer.go:215-219 | after a thousand drops every later delayed push, and every requeue with a delay, is refused |
| `MemoryQueue.DelaysAreOverExactly` | memory/memoryjobs/consumer.go:215-233 | every continuation refuses all delayed jobs exactly after a thousand drops; before that, some continuation accepts one |
| `MemoryQueue.DelaysCanEnd` | memory/memoryjobs/consumer.go:227-232 | for every capacity a run that gets there |
| `MemoryQueue.DrainOnStop` | memory/memoryjobs/consumer.go:199-202 | the draining loop leaves exactly the second half of the queue |
| `MemoryCounters.EachCounter` | memory/memoryjobs/item.go:94-124 | each counter in every reachable state: `active` is the immediate jobs held + timed-out pushes + immediate jobs only responded to + drift, `delayed` the delayed jobs held + dropped wake-ups + delayed jobs only responded to - acks after a failed requeue - drift |
| `MemoryCounters.NoDriftWithoutChange` | memory/memoryjobs/item.go:94-99 | the drift is zero as long as no requeue has turned an immediate job into a delayed one or the other way |
| `MemoryCounters.CountersAreTheJobs` | memory/memoryjobs/consumer.go:110-121 | where none of the exceptions has happened the two counters are exactly the immediate and the delayed jobs held |
| `MemoryCounters.DriftHappens` | memory/memoryjobs/item.go:94-124 | steps that leave one sleeping job, counted as immediate |
| `MemoryCounters.FirstInFirstOut` | memory/memoryjobs/consumer.go:227-268 | over all runs what entered the queue, by a push or a wake-up, is what was taken out of it, in that order, followed by what waits |
| `Protocol.PlanFromPools` | jobs/protocol/handler.go:61-132 | whatever the pooled structs hold, the call planned for a reply is what its bytes ask for, save that a response without a payload takes the pooled one |
| `Protocol.HistoryIndependentExactly` | jobs/protocol/handler.go:129-132 | a reply's call is the same for all contents of the pools exactly when it is not a response without a payload |
| `Protocol.AskedObeys` | jobs/protocol/handler.go:61-101 | the reply table, for every reply: an undecodable one leads to no call; type 1 to a requeue with its headers and delay or to an ack whose failure is ignored; type 2 to a response to its queue with its payload; any other type, or none, to an ack |
| `Protocol.RespHandler.HandleErrResp` | jobs/protocol/error.go:10-38 | an error reply requeues with its own headers and delay, or acks, or fails to decode, independently of the pool |
| `Protocol.RespHandler.HandleQueueResp` | jobs/protocol/qresp.go:10-25 | a response goes to its own queue with its own payload, or, naming none, with the payload left in the struct it got |
| `Protocol.RespHandler.Handle` | jobs/protocol/handler.go:61-101 | the dispatch over in-place pools obeys the reply table for every reply, in the protocol's own type numbers; it meets the pure plan, and keeps every pooled envelope and error struct blank |
| `Protocol.LeakedPayload` | jobs/protocol/qresp.go:10-25 | two responses in a row, the second without a payload: it answers with the first one's |
| `Poller.SettledOnceOrTwice` | jobs/listener.go:36-122 | an acknowledgeable job gets one call, or two of which the second is `Ack` after a failed first; exactly one counter moves |
| `Poller.SettledAsDue` | jobs/listener.go:36-122 | which calls and which counter, outcome by outcome: nack without a context or when the worker fails; ack without a body, for an undecodable reply and for an error without requeue; otherwise the reply's own call, with an ack after it when it fails |
| `Poller.EveryJobAsDue` | jobs/listener.go:36-122 | over any run each job gets the calls due to it, and the counters are the jobs that are done and those that are not |
| `Poller.UnsettledExactly` | jobs/listener.go:100-122 | a round ends without ack, nack or requeue exactly when a response was sent and succeeded |
| `Poller.Plugin.Process` | jobs/listener.go:20-128 | one round makes the calls and moves the counter of its settlement under the plan its reply asks for, with the payload a pooled struct still held where the reply names none; for a job that cannot be acknowledged it makes none and counts only a failed execution; it returns the payload it took, and panics exactly when a job that cannot be acknowledged has no context |
| `Poller.Plugin.Respond` | jobs/listener.go:100-127 | the handled part of the round, with the plan tied to the pooled struct it got |
| `Poller.Plugin.Poll` | jobs/listener.go:14-130 | over any run of acknowledgeable jobs the calls logged are, job by job, those due to it, under the plan its reply asks for; one counter grows by the jobs that are done and the other by the rest, and all payloads are back in the pool |
| `Poller.EveryJobIsCounted` | jobs/listener.go:36-122 | over any run each job is settled once or twice and exactly one counter moves for it |
| `FormKeys.FetchIndexes` | http/handler/parse.go:114-146 | the loop computes the automaton's fold over the name |
| `FormKeys.OneMoreCharacter` | http/handler/parse.go:114-146 | what one more character does to the indexes, by the last visible character before it: a space nothing, an opening bracket nothing, a closing one adds an empty index exactly after an opening one, and any other starts an index after a bracket and else extends the last |
| `FormKeys.SpacesDoNotMatter` | http/handler/parse.go:121-124 | a name has the indexes of the same name without its spaces |
| `FormKeys.IndexesKeepTheText` | http/handler/parse.go:114-146 | the indexes in a row are the name without spaces and brackets |
| `FormKeys.IndexCount` | http/handler/parse.go:114-146 | there is at least one index and at most one more than there are brackets |
| `FormKeys.ParsePrinted` | http/handler/parse.go:114-146 | clean indexes printed in bracket notation parse back to themselves |
| `FormKeys.ParsePrintParse` | http/handler/parse.go:114-146 | for every name, parsing, printing and parsing again equals parsing |
| `FormTree.MountIsPlace` | http/handler/parse.go:40-60 | `mount` is placing one leaf at the end of the slot, which is the key path without a trailing empty index |
| `FormTree.MountedIsFound` | http/handler/parse.go:40-60 | after a mount the value is there: the whole list at the path without its trailing empty index, or else, at the path itself, the last value of a posted field and the first of an upload |
| `FormTree.PlaceFailsExactly` | http/handler/parse.go:53-56 | the type assertion fails exactly when a proper prefix of the slot holds something that is not a tree |
| `FormTree.LookupPlaced` | http/handler/parse.go:40-60 | after placing, the slot holds the leaf, the paths above it hold trees, those below it nothing, and all others what they held |
| `FormTree.PlaceCommutes` | http/handler/parse.go:40-60 | two leaves whose slots do not lie above one another can be placed in either order, with the same tree or the same failure |
| `FormTree.OrderDoesNotMatter` | http/handler/parse.go:14-29 | compatible fields give one result in all orders |
| `FormTree.CompatibleFieldsMount` | http/handler/parse.go:14-60 | compatible fields always mount, and each is found at its slot |
| `FormData.VisitIsPlaceAll` | http/handler/parse.go:32-37 | visiting a form is placing the leaves of the fields with at most 127 indexes |
| `FormData.EntriesPermute` | http/handler/parse.go:14-29 | the same fields in another order bring the same leaves |
| `FormData.FormIsOrderFree` | http/handler/parse.go:14-60 | from field names to tree: without a clash every visiting order succeeds, all give the same tree, and every field with at most 127 indexes is found in it, as the whole list where its name ends in an empty index, else with its last value, or its first for uploads |
| `FormData.PlainAndNestedClash` | http/handler/parse.go:53-56 | `a` and `a[b]`: one order panics, the other loses the nested value |
| `FormData.DepthIsBounded` | http/handler/parse.go:32-37 | no form builds a tree deeper than 127, in any order |
| `FormData.DroppedExactly` | http/handler/parse.go:32-37 | a field with more than 127 indexes leaves the tree as it was, and any other that mounts is found where its name says |
| `FormOrders.FailsExactly` | http/handler/parse.go:40-60 | a given order panics exactly when some slot comes after one that lies above it |
| `FormOrders.AlwaysPanicsExactly` | http/handler/parse.go:14-29 | every order of the posted fields followed by every order of the multipart values panics, exactly when a kept field of the first lies above one of the second |
| `FormOrders.NeverPanicsExactly` | http/handler/parse.go:14-29 | no such order panics, exactly when no slot lies above another of its map, nor one of the first map above one of the second |
| `FormOrders.BuildsOneTreeExactly` | http/handler/parse.go:14-60 | all such orders give one tree, exactly when none panics and fields of one slot agree unless the second map overwrites them |
| `FormOrders.OneTree` | http/handler/parse.go:14-60 | that tree holds exactly the second map's fields and those of the first it does not overwrite |
| `FormOrders.PostedFormExactly` | http/handler/parse.go:14-21 | a form in one map gives one tree exactly when no two kept fields clash, and never panics in all orders |
| `FormOrders.MultipartFormExactly` | http/handler/parse.go:14-29 | a multipart form, found in both maps, panics in every order when one slot lies above another, and otherwise in none |
| `FormHeap.DataTree.Mount` | http/handler/parse.go:40-60 | the in-place recursion over nested maps, with its sharing ruled out, agrees with the pure `Mount`, failure included, and leaves the tree as it was on failure |
| `FormHeap.DataTree.Descend` | http/handler/parse.go:53-59 | mounting into a subtree in place changes that entry of the whole and no other |
| `FormHeap.Parse` | http/handler/parse.go:14-29 | the two loops over the form build in place the tree of the pure visit, and report where it panics |
| `AmqpToken.ReachableIsGood` | amqp/amqpjobs/redial.go:14-134 | in every run there is one channel about, in the slot or in one hand, or none while the redialer dials or after it ended; all channels are of the current connection; the mutex has one owner |
| `AmqpToken.OnePublisher` | amqp/amqpjobs/consumer.go:411-483 | at most one caller holds the channel, the slot is empty meanwhile, and it belongs to the current connection |
| `AmqpToken.ReplacedWithoutToken` | amqp/amqpjobs/redial.go:25-57 | the connection changes only while no channel is about and the redialer holds the mutex: a failed dial leaves none, a successful one a connection that the driver never had, and nothing else changes it |
| `AmqpToken.RestoredIsNew` | amqp/amqpjobs/redial.go:52-83 | the channel that a redial puts out is of the connection the driver has and newer than every channel before it |
| `AmqpToken.QuietCloseIsFinal` | amqp/amqpjobs/redial.go:20-23 | after a close without an error the redialer is gone for good, the connection stays, and the one channel of it goes on being taken and returned |
| `AmqpToken.RedialersCourse` | amqp/amqpjobs/redial.go:14-134 | where the redialer is, in every reachable state, tells what it has done since it last listened: close, mutex, trash, dial and set up, channel put out, mutex given up, in this order, failed attempts repeated; it ends only by running out of retries, by the stop signal or by a quiet close |
| `AmqpToken.CallersCourse` | amqp/amqpjobs/consumer.go:289-483 | a caller holds the token exactly from taking it to putting it back, and waits for the mutex, has it or is kept from stopping exactly between the steps that say so |
| `AmqpToken.SendsFindTheSlotEmpty` | amqp/amqpjobs/redial.go:82-83 | giving the channel back and putting out a fresh one never block |
| `AmqpToken.RedialerIsNotStuck` | amqp/amqpjobs/redial.go:25-28 | while the redialer waits for the channel, it is in the slot or its holder can return it without the mutex |
| `AmqpToken.AfterTheEnd` | amqp/amqpjobs/redial.go:92-131 | after the redialer gave up or stopped no caller ever takes a channel |
| `AmqpToken.LostForGoodExactly` | amqp/amqpjobs/redial.go:14-134 | some continuation lets a caller take the channel, exactly until the redialer has given up or stopped |
| `AmqpToken.GivingUpHappens` | amqp/amqpjobs/redial.go:92-97 | a run that ends there |
| `AmqpToken.StopHangsExactly` | amqp/amqpjobs/consumer.go:401-409 | the caller of `Stop` can get through in some continuation, exactly until the redialer has given up, stopped, is stopping, or has left |
| `BeanstalkPool.ReachableIsGood` | beanstalk/beanstalkjobs/connection.go:60-230 | in every run the lock discipline, the coherence of the fields and the count of contacts hold |
| `BeanstalkPool.ReadersSeeOneDial` | beanstalk/beanstalkjobs/connection.go:175-178 | whoever holds the read lock finds tube, tube set and both connections from one dial; jobs are put over one connection, and everything else goes over the other |
| `BeanstalkPool.RetryUsesAFreshConnection` | beanstalk/beanstalkjobs/connection.go:66-74 | a retry talks to a connection of its own redial or of a later one |
| `BeanstalkPool.EveryOperationsCourse` | beanstalk/beanstalkjobs/connection.go:60-230 | an operation that ends went one of three ways: answered at once; broken, the write lock taken, no dial successful, given up; or broken, dialled anew, all four fields replaced, both locks given back and taken in order, and the same operation tried once more |
| `BeanstalkPool.LocksAreLeftAsFound` | beanstalk/beanstalkjobs/connection.go:194-230 | a client that is idle or waits for a lock holds none, and nobody reads while somebody writes |
| `BeanstalkPool.SomeoneCanMove` | beanstalk/beanstalkjobs/connection.go:148-230 | while an operation is under way some client can take a step, although a writer that waits holds back new readers: the lock upgrade does not deadlock |
| `BeanstalkPool.AtMostTwoContacts` | beanstalk/beanstalkjobs/connection.go:60-138 | an operation contacts the server at most twice, the second time only after its own successful redial |
| `Watcher.Watch.PollEvents` | reload/watcher.go:300-364 | one poll sends exactly one event for each path that vanished, with its last known information, and for each file that is new or whose modification time or mode is another, with the new one, and nothing else; it tracks what the snapshot shows |
| `Watcher.Watch.FindRemoved` | reload/watcher.go:309-314 | the first loop collects exactly the tracked paths that the snapshot lacks |
| `Watcher.Watch.SendUpdates` | reload/watcher.go:317-338 | the second loop sends one event per changed file, tracks it, and collects exactly the new files |
| `Watcher.SilentExactly` | reload/watcher.go:300-364 | a poll is silent exactly when the snapshot agrees with what is tracked on every path and on time and mode of every file |
| `Watcher.LastSnapshotWins` | reload/watcher.go:300-364 | after any polls the tracked files agree with the last snapshot, and showing it again sends and changes nothing |
| `Debounce.SomethingIsComing` | reload/plugin.go:113-144 | in every run, while services wait, the timer is armed or a tick is queued |
| `Debounce.ResetsDoNotOutnumberEvents` | reload/plugin.go:113-144 | a service is never reset more often than it had events, for any timing |
| `Debounce.WaitsUntilReset` | reload/plugin.go:116-138 | after an event the service stays pending until it is reset or the loop ends |
| `Debounce.WaitingExactly` | reload/plugin.go:116-138 | the services that wait are exactly those with an event since the last tick |
| `Debounce.CountsExactly` | reload/plugin.go:116-138 | over all runs a service has one reset for each tick that found it waiting and one for each failing tick that got to it, and nothing else |
| `Debounce.EarlyResetExactly` | reload/plugin.go:116-138 | after an event and before the restarted timer runs out, its service can be reset exactly when a tick lay in the channel at the event |
| `Debounce.TickedExactly` | reload/plugin.go:119-126 | a tick lies in the channel exactly when the timer ran out since the last tick was received |
| `Debounce.StaleTick` | reload/plugin.go:119-138 | a run in which an event after the timer ran out is reset with the timer still armed |
| `Debounce.Loop.OnEvent` | reload/plugin.go:116-125 | the service waits, has one more event, and a tick is sure to come; the call continues a run |
| `Debounce.Loop.ResetAll` | reload/plugin.go:128-135 | the loop resets all pending services, or stops at the first failure with a proper part done |
| `Debounce.Loop.OnTick` | reload/plugin.go:126-138 | all services that wait are reset and none is left, or the loop ends, exactly when one of them fails; the call continues a run |
| `TcpFrames.FramesKeepTheStream` | tcp/handler/handler.go:95-165 | the bodies in a row followed by the buffer are the chunks in a row |
| `TcpFrames.FramesEndWithDelimiter` | tcp/handler/handler.go:128-132 | every body completed before the end of file ends with the delimiter |
| `TcpFrames.OneBodyExactly` | tcp/handler/handler.go:128-135 | chunks are delivered as one body exactly when the last one, and no other, ends with the delimiter |
| `TcpFrames.SameBodiesExactly` | tcp/handler/handler.go:128-135 | two cuttings of the same bytes give the same bodies exactly when they break at the same places |
| `TcpFrames.CuttingMatters` | tcp/handler/handler.go:128-135 | the same bytes cut in two ways: one body or two |
| `TcpLaws.PlayInClosedForm` | tcp/handler/handler.go:95-165 | what the reads have in store for the worker: the bodies that framing makes of the leading acceptable chunks, and then what the next read brings |
| `TcpSession.Handler.HandleAndContinue` | tcp/handler/handler.go:168-224 | directive by directive: CONTINUE goes on; WRITE hands the body to the connection and goes on unless that fails; WRITECLOSE hands it over and stops; any other stops; a stop closes the connection and sends one close event |
| `TcpSession.Handler.Gather` | tcp/handler/handler.go:97-135 | the inner loop finds what lies ahead in the reads: a complete body, the end of file with what is left, a read to give up on, or nothing yet |
| `TcpSession.Handler.ReadLoop` | tcp/handler/handler.go:82-166 | the outer loop tells exactly what the reads have in store, and hands the worker's bodies to the connection, cut short by the first answer that does not go along or does not come |
| `TcpSession.Handler.Start` | tcp/handler/handler.go:47-76 | for all reads and answers the log, what is handed to the connection, whether the handler waits or has returned, and whether it closed the connection, are those of the session |
| `TcpLaws.BodiesExactly` | tcp/handler/handler.go:95-165 | of the bodies of the leading chunks, and the rest at an end of file, the worker is given exactly as many as its answers go along with |
| `TcpLaws.WillingWorker` | tcp/handler/handler.go:47-224 | a worker that answers CONTINUE or a WRITE that succeeds is told CONNECTED, each framed body, the rest at an end of file, and the close, and the handler waits or returns as the last read says; each written body is handed to the connection in order |
| `TcpLaws.FirstRefusal` | tcp/handler/handler.go:136-224 | the first answer that does anything else ends the session there: the log is cut after that question, with a close unless the worker failed, and nothing later is written |
| `TcpLaws.NothingIsLost` | tcp/handler/handler.go:95-165 | a worker that goes along is given every byte of the leading chunks in order; only without an end of file the unended rest is kept |
| `TcpLaws.ConnectedFirst` | tcp/handler/handler.go:52-62 | CONNECTED comes first and once |
| `TcpLaws.ClosedTooEarlyExactly` | tcp/handler/handler.go:99-103 | data follows a close event exactly when the end of file finds a rest and the answers have gone along until then |
| `TcpLaws.EarlyCloseHappens` | tcp/handler/handler.go:99-153 | reads and answers whose log is CONNECTED, CLOSE, DATA, CLOSE |
| `TcpLaws.FinaleOfSession` | tcp/handler/handler.go:82-166 | after the first close event comes nothing, or, at an end of file, one body and at most one more close; two or more events exactly when data follows the close |
| `TcpLaws.AtMostTwoCloses` | tcp/handler/helpers.go:20-30 | at most two close events are sent, the second only after data |
| `Etag.DecimalIsCanonical` | http/middleware/static/etag.go:56-72 | the printed number consists of digits without a leading zero |
| `Etag.DecimalHasTheValue` | http/middleware/static/etag.go:56-72 | reading the numeral gives the number back |
| `Etag.DecimalIsUnique` | http/middleware/static/etag.go:56-72 | a numeral without leading zeros is the printed form of its value: there is no other |
| `Etag.TenDigits` | http/middleware/static/etag.go:57-59 | a 32-bit number needs at most ten of the twenty bytes |
| `Etag.AppendUint` | http/middleware/static/etag.go:56-72 | filling the array backwards keeps inside it and appends the decimal form to the prefix |
| `Etag.SetEtag` | http/middleware/static/etag.go:20-53 | the weak tag, the strong tag, or none for a file that cannot be read or is empty |
| `Etag.TagsAreWellFormed` | http/middleware/static/etag.go:46-52 | strong and weak tags are entity-tags of section 2.3 of RFC 7232 |
| `Etag.TagsReadBack` | http/middleware/static/etag.go:20-53 | a strong tag is the length modulo 2^32, a dash and the checksum, a weak one the checksum, each as the numeral without leading zeros that reads back to it |
| `Etag.EqualTags` | http/middleware/static/etag.go:46-50 | equal strong tags mean equal checksums and lengths equal modulo 2^32 |

## Left out

- Transactions that fail to commit, and records that do not decode: a bucket is a map, encoding is exact, and only the failure to begin a transaction on a closed database is modelled. In the delayed scan, where items are queued before the commit, the commit is taken to succeed.
- The behaviour of a bbolt cursor while its bucket is changed: a cursor is taken to proceed in key order over what is there.
- `Run`, `Pause`, `Resume` and `Stop` of the BoltDB driver: they only start and end the listeners, and the listener steps may happen or not at any time.
- BoltBackpressure.Backpressure: assumes fewer than 2^64 immediate jobs at any time, the width of the counter.
- BoltRelease.ReleasedExactlyWhenDue: clock readings lie in the years 1990 to 9999 and due times have years of four digits; later ones print with five and no longer sort.
- BoltConsumer.Consumer.Push: the identifier is not live, as the claims about runs demand; what becomes of two live jobs of one identifier is not modelled.
- Empty identifiers: bbolt refuses an empty key, so the push of an immediate job without an identifier fails, and the release of a delayed one would roll the transaction of its scan back. The model accepts them as keys.
- MemoryQueue.Conservation: counters are unbounded integers, states after `Stop` are not covered, and the local queue has room for one job at least; an unbuffered one, which hands jobs over directly, is not modelled.
- The AMQP, beanstalk, in-memory and debounce goroutines are step relations rather than objects with methods, because what matters in them is interleaving; only the cases of the debounce loop are methods too.
- The AMQP driver's `listener` flag, delayed counter and queue declaration; `handleQPush` (amqp/amqpjobs/consumer.go:485), which opens a channel on the connection without mutex or publishing channel; the beanstalk pool's `Stop`.
- The configuration of the in-memory driver: a consumer made by `FromPipeline` has none, so a push that times out in it panics while its error is put together (memory/memoryjobs/consumer.go:246); the model returns the error.
- Poller.Plugin.Poll: counts runs of acknowledgeable jobs only; a job that cannot be acknowledged moves no counter when it succeeds. The poller's lock and the order in which the priority queue yields jobs are not modelled.
- Protocol.RespHandler.Handle: pooled structs are values in a list; that nobody keeps a reference to a returned struct is not modelled. JSON texts are given by which fields they name.
- FormKeys.FetchIndexes: names are sequences of characters; what Go makes of invalid UTF-8 is not modelled.
- FormHeap.Parse: fields carry at least one value, as the form decoder provides; the flat list of uploads beside the tree is not modelled.
- TcpSession.Handler.Start: the delimiter is not empty, as the configuration guarantees. A context that fails to marshal is not modelled, nor is the pooling of buffers.
- TcpLaws.BodiesExactly: like the other laws that say so, for reads in which no bytes follow an end of file.
- Debounce.SomethingIsComing: the channel that carries events from the watcher to the loop is not modelled; an event step is its receipt.
- Walking directories and matching file names in the watcher: a poll is given the snapshot.
- The checksum of an entity tag is given.
- The NATS and SQS drivers, the key-value, broadcast, websocket, metrics, status, informer and rpc plugins, the HTTP and gRPC servers, the cache middleware, configuration and logging: calls into foreign code or easy members.
