# Crash-tolerant stream pipeline: models and proofs

This project models a distributed query pipeline over Steam games and reviews. Clients send two files to a
gateway; the gateway publishes them in chunks; filters, joiners, heaps and aggregators connected by FIFO queues
answer five queries. Every worker numbers what it publishes per routing key, drops duplicates per source, logs each
delivery it has processed, and after a crash rebuilds its state from that log. EOF tokens close a client's data stage
by stage.

`dafny verify dfyconfig.toml` checks everything.

## How it is organised

| Files | What they hold |
|---|---|
| `Protocol`, `Dedup`, `CrashNetwork` | The worker protocol as a step system with crashes between any two steps, for any deterministic node |
| `LiveMemory`, `Streams`, `ExactlyOnce` | On every schedule: memory is the replay of the log, and exactly when consumers see what the log accounts for |
| `Simulation` | A schedule without crashes with the same logs |
| `TwoInputs`, `JoinerCrash` | Ids used twice, at the consumer; and a run on which a joiner makes that visible |
| `WorkerKernel`, `WorkerRuns` | Generator, duplicate handler and worker as objects updated in place; what the worker publishes and logs is what the network's steps publish and log |
| `EofRing`, `EofBarrier`, `FanIn` | The EOF token within a stage, across any number of stages, and from several producers to one consumer |
| `Heap`, `TopVotes`, `TopN`, `TopNFilter`, `Playtime`, `PlaytimeFilter` | Go's `container/heap` over the repository's `Less` and `Swap`, and the two top-N nodes |
| `Joiner`, `JoinerTop`, `JoinerCounter`, `JoinerPercentile`, `JoinerNodes`, `JoinerLateNames` | The three joiners |
| `JoinerRuns` | What they answer to any stream of messages of any clients, and when their barrier opens |
| `CrashedJoiner` | The joiner of query 3 as a node of the network with crashes |
| `EofCounts`, `Aggregator`, `AggregatorPercentile`, `AggregatorCounter` | Counting EOFs in one byte, and the two aggregators |
| `Reviews`, `Sharding`, `Query3`, `Query4`, `Query5` | Sharded, batched, interleaved evaluation against one-shot definitions of queries 3 to 5 |
| `Ingest`, `IngestRuns` | Client and gateway chunks as a step system with crashes and broken connections, and what holds of all its runs |
| `IngestDrives`, `IngestFaults` | Exactly which crashes and broken connections the delivery survives |
| `IngestEnds`, `IngestSends` | The two ends as objects with loops; what they send is what the step system sends |
| `Stream` | Reassembly of frames from TCP reads |
| `Bytes`, `Codec`, `BufferCodec`, `Formats`, `Decimal`, `LogRecord` | Binary formats and the text of the recovery log |
| `Messages`, `Bags`, `Sums`, `Batches`, `Division` | The messages the nodes exchange; lists as bags, sums over them, lists cut into batches, division |

Classes and methods with loops stand for code that updates state in place; each is tied to a function of the old
state, and the theorems are about those functions.

## Where the code departs from the obvious property

Each of these is a lemma; the positive theorems carry the exact condition.

1. A worker with two input queues may take the other queue after a crash that interrupted a delivery. It then uses
   the interrupted delivery's sequence ids for something else, and the consumer keeps a mixture; this happens to the
   joiner of query 3 (`JoinerCrash.OtherQueueFirstIsVisible`). It is harmless exactly if what had been published is a
   prefix of what is published instead (`ExactlyOnce.ExactIffHarmless`, `ExactlyOnce.InterruptedThenOther`). Workers
   with one queue always take up the interrupted delivery first (`ExactlyOnce.SingleInputIsHarmless`); joiners have
   two queues. Memory is the replay of the log in any case (`LiveMemory.ReplayEqualsLive`).
   The review filter, the text filter and the percentile joiner publish in the order in which Go walks a map, so with
   them taking up the same delivery again can do the same harm: `TwoInputs.OtherOrderLoses` has two orders of one
   batch.
2. The counter aggregator replays every name saved but not the cutting of batches, so a crash after a full batch
   sends it again (`CounterAggregator.ReplayEqualsLiveIffNoBatchCut`, `CounterAggregator.CrashRepublishes`).
3. A stage releases an EOF only if it entered at worker 0 (`EofRing.RingReleasedIffEntersAtZero`), since the next
   worker is `Id+1` without wrap-around. The gateway routes its EOF by a hash of the sequence id, so that is
   guaranteed only where the first stage has one worker.
4. The counter joiner loses the votes of a client's first message if that is a review
   (`CounterJoiner.CountedIsTotalButFirst`). A name that comes after a game was published makes the joiner publish it
   again at once if the first publication was caused by a name. If that was caused by a review, the game is counted on
   from the votes before that review, and published again when they reach the target (`LateNames.PublishedAgainIff`).
5. A connection that breaks without the gateway crashing leaves what the gateway holds of the batch. A partial chunk
   is put in front of the batch when it is sent again; a publication in progress acknowledges the batch before it has
   arrived. During a full batch this is harmless exactly if there is neither (`IngestFaults.ReconnectHarmlessIff`).
   While a file's only, incomplete batch is published it is harmless, since the publication goes on to the EOF and the
   repetition is dropped; a partial chunk of a last batch does harm unless what goes wrong has been seen before
   (`IngestFaults.ReconnectInLastBatchIff`). After the client has come to the end of the file, a crash or a broken
   connection makes it start over at the first line, under the last batch's number; that is harmless only if that
   batch is the first (`IngestFaults.CrashHarmlessIff`). The last acknowledgement is sent before the EOF is published,
   so a crash after it loses the EOF if that has not been seen (`IngestFaults.CrashWhenDoneIff`,
   `IngestFaults.EofCanBeLost`). These are all cases (`IngestFaults.FaultHarmlessIff`).
6. Client ids lose their dash in source ids, so that 1-11 and 11-1 share a source
   (`IngestEnds.SharedSourceIff`).
7. Lengths are cut to 32 bits: strings and lists of 2^32 elements or more do not come back
   (`Codec.StringRoundTripIff`, `Codec.ListRoundTripIff`), and the gateway's byte count wraps
   (`Stream.CountIsFaithfulIff`).
8. A log line that cannot be parsed is not always skipped. One whose header parses takes the recovering process down
   if nothing comes behind the header, or if at least two fields do and the first is a negative number or the greatest
   integer; all others are skipped (`LogRecord.LinePanicsIff`, `LogRecord.LogPanicsIff`). Printed records are never
   such lines (`LogRecord.LineRoundTrip`).
9. The percentile aggregator goes down at a client's last EOF if it has received messages of the client but no entry in
   any of them (`PercentileAggregator.PanicsIff`); its joiners send no such messages.

## Assumptions

- Queues are FIFO per queue, an unacknowledged delivery returns to the head of its queue when the consumer crashes
  (section 4.7 of the AMQP 0-9-1 specification), one log append is atomic, and publishing and logging succeed.
- A worker reaches a given consumer under one routing key only, and a consumer receives a source on one of its input
  queues only. Worker ids are distinct.
- A node is a deterministic function of its state and the delivery. Where Go walks a map in an order of its own, the
  order is a parameter: fixed for each map in the exactly-once theorem (see point 1), arbitrary in the theorems about
  results.
- The shard of a game and the queue of a batch are arbitrary functions of the id.
- `return data, binary.Read(buf, order, &data)` is taken to return the value read. Go leaves open whether the first
  operand is evaluated before the call.

## Model

| member | source | states |
|---|---|---|
| `ExactlyOnce.AcceptedExactlyOnce` | internal/worker/worker.go:311-339 | On every schedule on which a producer logs harmlessly, and whatever other workers do, what a consumer has accepted from it and is still to accept is the output its log accounts for under the key that leads there, numbered from zero, in order, nothing missing, nothing twice; behind that comes what an interrupted delivery has published, and nothing else |
| `ExactlyOnce.ExactIffContinues` | internal/worker/worker.go:311-339 | Exact condition, one delivery, any schedule before it: once it is logged, the consumer sees what the log accounts for if and only if it publishes, under the key, what earlier attempts had left and then the rest |
| `ExactlyOnce.ExactIffHarmless` | internal/worker/worker.go:303-340 | Exact condition, whole runs, every schedule: at each log append of a producer its consumer sees exactly what the log accounts for, if and only if every delivery logged begins with what earlier attempts had left |
| `ExactlyOnce.InterruptedThenOther` | internal/worker/worker.go:310-321 | A worker that took up interrupted deliveries first until now takes another one instead, publishes and logs it: the consumer sees what the log accounts for if and only if what was published of the interrupted one is a prefix of what the other one publishes under the key |
| `ExactlyOnce.ResumingIsHarmless` | internal/worker/worker.go:303-321 | A producer that takes up an interrupted delivery first logs harmlessly under every key, whatever other workers do |
| `ExactlyOnce.SingleInputIsHarmless` | internal/worker/worker.go:303-321 | So does every producer with one input queue, on every schedule |
| `Simulation.CrashInvisible` | internal/worker/worker.go:303-340 | For every schedule of arrivals, deliveries, single publications, log appends, acks, crashes and recoveries that takes up an interrupted delivery first, there is a schedule without crashes that leaves every worker with the same log, that is the same processed deliveries with the same sequence ids |
| `LiveMemory.ReplayEqualsLive` | internal/worker/worker.go:166-191 | On every schedule, two-queue workers that take the other queue after a crash included, replaying the log of a worker between deliveries gives exactly the node state, sequence counters and duplicate marks in memory |
| `Simulation.SingleInputResumes` | internal/worker/worker.go:303-321 | Only workers with more than one input queue need the guard of the crash-free schedule: with one, the interrupted delivery is always the next |
| `Simulation.Simulate` | internal/worker/worker.go:303-340 | Every schedule with crashes is step by step related to one without: a delivery that was published in part and lost is matched by one that is published once |
| `TwoInputs.ReusedIds` | pkg/dup/dup.go:25-34 | When the ids of a lost delivery are used again for another one, the consumer keeps, id by id, what came first, and then the rest of the second |
| `TwoInputs.HarmlessIffPrefix` | pkg/dup/dup.go:25-34 | At the consumer: two runs of one source from the same id are accepted as the second one if and only if the first is a prefix of it |
| `TwoInputs.OtherOrderLoses` | pkg/dup/dup.go:25-34 | A delivery published again in another order, of which one message had gone out: the consumer gets that message twice and the other not at all |
| `JoinerCrash.OtherQueueFirstIsVisible` | internal/worker/joiner/top.go:72-164 | The joiner of query 3, run on the network: it publishes the total of one game, crashes, takes a name from its other queue, publishes the total of another game under the same id and logs that; the consumer has the first total and drops the second (a run written out) |
| `WorkerKernel.Generator.NextId` | pkg/sequence/generator.go:18-26 | Returns the counter of the key, zero for a new one, and moves that counter on by one, leaving the others |
| `WorkerKernel.DupHandler.IsDuplicate` | pkg/dup/dup.go:25-34 | True exactly below the mark of the source; otherwise the mark moves behind the id |
| `WorkerKernel.Worker.Publish` | internal/worker/worker.go:194-196 | Publishes in order under the ids that the counters give, returns those ids, and leaves the counters where publishing the whole list takes them; what goes on the wire is what `WorkerRuns.PublicationIs` describes |
| `WorkerKernel.Worker.Consume` | internal/worker/worker.go:323-337 | One turn of the loop: a duplicate changes nothing; anything else is processed, published and logged under the ids used, after which memory is again what replaying the log gives |
| `WorkerRuns.PublicationIs` | internal/worker/worker.go:194-196 | Publication number i is message number i: its key and body, with this worker's id as source and the sequence id that is logged for it |
| `WorkerRuns.PublishedIsAccepted` | internal/worker/worker.go:194-196 | What is published under one key is accepted by its consumer, all of it and in order, if the consumer has accepted all that was published before |
| `WorkerRuns.ConsumeIsTurn` | internal/worker/worker.go:311-339 | On the network, for any node and any other workers: from the head of an input queue, the start, one publication step per message, the log append and the ack leave the worker with the memory, the log and, at every input queue of every worker, the messages that one turn of the loop gives |
| `WorkerKernel.Worker.ConsumeAll` | internal/worker/worker.go:310-339 | Over any stretch of deliveries the log grows by exactly those that duplicate removal accepts, what each of them calls for is published in order and nothing else, and the log stays a replayable image of memory |
| `WorkerKernel.Worker.Recover` | internal/worker/worker.go:166-191 | From a fresh start, the loop over the log leaves memory at the replay of the log |
| `WorkerKernel.Restart` | internal/worker/worker.go:166-191 | A worker stopped between deliveries and started again on its log continues with the memory it had |
| `WorkerKernel.LiveIsReplay` | internal/worker/worker.go:323-330 | Appending the record of a processed delivery makes the replayed memory the live one again |
| `Protocol.RecoverIdsUndoesCrash` | pkg/sequence/generator.go:13-26 | Recovering the logged ids of published messages restores the counters publishing left behind |
| `Protocol.RepublishedIdIsOld` | pkg/sequence/generator.go:18-26 | A message published a second time carries an id that the first attempt had already used up |
| `Protocol.ConsecutiveIds` | pkg/sequence/generator.go:18-26 | Messages published one after another under one key carry consecutive ids from the counter on |
| `Dedup.AcceptAppend` | pkg/dup/dup.go:25-34 | A queue read to its end accepts one message more exactly if that is not below the mark the queue has left |
| `EofRing.Contains` | pkg/message/eof.go:41-48 | The linear search finds exactly the members |
| `EofRing.HandleEofMessage` | internal/worker/worker.go:208-250 | The worker adds itself once, and passes the token to the next id or releases it, counting in bytes |
| `EofRing.ListedOnce` | internal/worker/worker.go:208-250 | However often a worker sees a token, the list names it once, and the token is passed on if and only if the list names fewer workers than there are peers |
| `EofRing.RingReleasedIffEntersAtZero` | internal/worker/worker.go:208-250 | A token that enters at worker e visits e, e + 1, ..., peers - 1 once each in order, and is released if and only if e is 0 |
| `EofRing.NoPeersReleases` | internal/worker/worker.go:218-222 | A stage without peers releases an EOF at once |
| `EofRing.InitOutputQueues` | internal/worker/init.go:27-45 | Collects every EOF destination of the stage, each exactly once: all queues of an output, or its first one if it is single |
| `EofBarrier.TargetsAreInitialised` | internal/worker/init.go:98-130 | The queues that the barrier theorems have an EOF go to are those that the initialisation collects |
| `EofBarrier.NothingAfterEof` | internal/worker/worker.go:208-283 | For any number of stages and any schedule, whatever nodes emit for data and for EOFs, in no output queue does anything of a client, data or second EOF, come behind its EOF |
| `EofBarrier.NothingBehindEof` | internal/worker/worker.go:208-283 | While an EOF of a client waits in any queue of a stage, no earlier stage holds anything of that client |
| `EofBarrier.DeliveredIffEntersAtZero` | internal/worker/init.go:98-130 | When all stages have drained, a closed client's EOF is in each target output queue if and only if it entered at worker 0 |
| `Heap.PushedOk` | internal/worker/hybrid/top_n/top_heap.go:25-28 | heap.Push over the repository's Less restores heap order and adds exactly the element |
| `Heap.PoppedOk` | internal/worker/hybrid/top_n/top_heap.go:30-36 | heap.Pop restores heap order and removes exactly the root |
| `Heap.FixedOk` | internal/worker/hybrid/top_n/top_n.go:112-118 | heap.Fix at any index restores heap order after that element was replaced, and keeps the others |
| `Heap.RootIsLeast` | internal/worker/hybrid/top_n/top_heap.go:13-19 | No element of a heap is below its root |
| `Heap.PriorityQueue.Push` | internal/worker/hybrid/top_n/top_heap.go:25-28 | The in-place sift-up leaves the list that the push function gives |
| `Heap.PriorityQueue.Pop` | internal/worker/hybrid/top_n/top_heap.go:30-36 | The in-place sift-down returns the root and leaves the list that the pop function gives |
| `Heap.PriorityQueue.Update` | internal/worker/hybrid/top_n/top_n.go:114-115 | The in-place fix leaves the list that the fix function gives |
| `TopN.LessOrders` | internal/worker/hybrid/top_n/top_heap.go:13-19 | Less by votes and then game id orders the entries as the heap needs |
| `TopN.OfferAllKeeps` | internal/worker/hybrid/top_n/top_n.go:81-121 | For every stream in which no game's votes go down, the heap holds min(n, games seen) games, each once with its latest votes, and no game outside has more votes than one inside |
| `TopN.DrainedDescends` | internal/worker/hybrid/top_n/top_n.go:172-184 | Popping a heap of distinct games from the back lists the same games from the most votes down, equal votes from the greatest game id down |
| `TopN.TopIsTopVotes` | internal/worker/hybrid/top_n/top_n.go:81-101 | The votes in the heap are the n largest of the latest votes of all games seen |
| `TopN.EntriesCarryNames` | internal/worker/hybrid/top_n/top_n.go:81-121 | Whatever the stream, every entry of the heap carries a name that came with its game |
| `TopNFilter.Filter.FixHeap` | internal/worker/hybrid/top_n/top_n.go:103-121 | Finds the game by linear search, sets its votes and restores the heap, or says that it is not there |
| `TopNFilter.Filter.UpdateTop` | internal/worker/hybrid/top_n/top_n.go:81-101 | The client's heap becomes the one that offering the reviews in order gives; other clients keep theirs |
| `TopNFilter.Filter.GetTopNScoredReviews` | internal/worker/hybrid/top_n/top_n.go:172-184 | Lists the client's heap from its largest element down; nothing for an unknown client |
| `TopNFilter.Filter.Process` | internal/worker/hybrid/top_n/top_n.go:56-79 | Each message kind, live and in recovery, changes heaps and EOF counts and publishes as the state function of `TopNFilter.PublishedAtLastEof` says |
| `TopNFilter.PublishedAtLastEof` | internal/worker/hybrid/top_n/top_n.go:71-170 | For any stream of messages of any clients: a message is answered if and only if it is an EOF with which the client's EOFs complete a round of ExpectedEofs; the answer is one ranking, of all reviews the client has sent since its last round, and behind it the EOF if none are expected; then the client is forgotten |
| `TopNFilter.PublishedRanking` | internal/worker/hybrid/top_n/top_n.go:125-184 | What is published at the last EOF is strictly descending, ranks the n largest latest votes, and every entry carries its game's latest votes and a name that came with it |
| `TopNFilter.ReplayIsFaithful` | internal/worker/hybrid/top_n/top_n.go:186-200 | Replaying a delivery leaves the node as processing it live did |
| `TopNFilter.CountsStayBelow` | internal/worker/hybrid/top_n/top_n.go:71-79 | The one-byte EOF count of a client never wraps |
| `TopVotes.TopOfTops` | internal/worker/hybrid/top_n/top_n.go:81-101 | The n largest of the n largest of any number of parts are the n largest of everything |
| `TopVotes.RankingIsUnique` | internal/worker/hybrid/top_n/top_n.go:172-184 | There is only one ranking of the n largest |
| `Playtime.UpdateReleases` | internal/worker/hybrid/top_n_playtime/top_heap_playtime.go:46-55 | The in-place loop leaves the heap that offering the releases in order gives |
| `Playtime.OfferAllKeeps` | internal/worker/hybrid/top_n_playtime/top_heap_playtime.go:46-55 | The heap holds min(n, releases) of the releases received, and none left out is longer than one kept |
| `Playtime.TopNReleases` | internal/worker/hybrid/top_n_playtime/top_heap_playtime.go:27-40 | Takes the whole heap out and sorts it from the longest |
| `Playtime.PublishedIsExact` | internal/worker/hybrid/top_n_playtime/top_heap_playtime.go:27-55 | The published playtimes are the first n of all playtimes sorted descending, each release taken at most as often as it came |
| `Playtime.BatchesConcatenate` | internal/worker/hybrid/top_n_playtime/top_n_playtime.go:65-78 | How releases are split into messages does not matter |
| `PlaytimeFilter.Filter.ProcessGame` | internal/worker/hybrid/top_n_playtime/top_n_playtime.go:65-78 | The client's heap takes the releases; heap order and size are kept |
| `PlaytimeFilter.Filter.ProcessEof` | internal/worker/hybrid/top_n_playtime/top_n_playtime.go:80-107 | Live and in recovery: the client's heap is sorted and published, and dropped, on the worker's first sight of the EOF, and the EOF goes on round the ring unless the node aggregates |
| `PlaytimeFilter.Filter.Process` | internal/worker/hybrid/top_n_playtime/top_n_playtime.go:50-63 | Each message kind, live and in recovery, changes the heaps and publishes as `PlaytimeFilter.PublishedOnFirstSight` describes |
| `PlaytimeFilter.PublishedOnFirstSight` | internal/worker/hybrid/top_n_playtime/top_n_playtime.go:50-141 | For any stream of messages of any clients: a message is answered only if it is an EOF; if this worker sees it for the first time and the client has sent something since the one before, with the n longest playtimes of all of that; then, unless the node aggregates, with one step of the EOF round the ring |
| `PlaytimeFilter.PublishedForClient` | internal/worker/hybrid/top_n_playtime/top_n_playtime.go:50-141 | A filter fed any batches of a client publishes at its EOF the n longest of all playtimes in them, once, and behind it the EOF unless it aggregates |
| `PlaytimeFilter.ReplayIsFaithful` | internal/worker/hybrid/top_n_playtime/top_n_playtime.go:143-157 | Replaying a delivery leaves the node as processing it live did |
| `Joiner.State.MarkEof` | internal/worker/joiner/joiner.go:49-71 | Remembers which side's EOF came, and says whether both have |
| `Joiner.OpensWhenBothSidesArrived` | internal/worker/joiner/joiner.go:57-62 | Among any EOFs of a client one has opened the barrier, by the test that the joiners make, if and only if EOFs of both origins are among them |
| `FanIn.LastEofIff` | internal/worker/aggregator/aggregator.go:45-61 | Producers send data of a client and then one EOF each into shared FIFO queues: on every schedule, as many EOFs have been handled as there are producers if and only if all have closed the client and no queue holds anything of it, and then everything they sent has been handled |
| `FanIn.FinishedForGood` | internal/worker/aggregator/aggregator.go:45-61 | After that nothing of the client comes any more, so the count is reached once |
| `FanIn.AggregatorOpensIff` | internal/worker/aggregator/aggregator.go:45-57 | An aggregator that expects as many EOFs as it has producers gives the client up exactly when everything of it has been handled |
| `FanIn.JoinerOpensIff` | internal/worker/joiner/joiner.go:49-71 | Both marks of a joiner are set exactly when everything of the client, from either of its queues, has been handled |
| `JoinerNodes.ClientsAreSeparate` | internal/worker/joiner/joiner.go:49-71 | In the state function the three joiners are tied to, a message leaves every other client's games and EOF marks as they were |
| `JoinerRuns.BarrierOpensIff` | internal/worker/joiner/joiner.go:49-71 | For a joiner of any kind and any stream of messages of any clients before: an EOF is answered, with the flush and one EOF behind it, and the client is forgotten, if and only if with it EOFs of both origins have come since the last time |
| `JoinerNodes.RecoveryIsSilent` | internal/worker/joiner/joiner.go:73-89 | A record of the log does to a joiner what the delivery did, and nothing is sent |
| `TopJoiner.Node.ProcessReview` | internal/worker/joiner/top.go:72-112 | Adds the votes; publishes the running total if the name is known |
| `TopJoiner.Node.ProcessGame` | internal/worker/joiner/top.go:114-150 | Sets the name; publishes the votes so far if the game has been mentioned |
| `TopJoiner.Node.ProcessEof` | internal/worker/joiner/joiner.go:49-71 | Live and in recovery: marks the side, and on the second side's EOF sends the EOF on, unless recovering, and forgets the client |
| `TopJoiner.Node.Process` | internal/worker/joiner/top.go:46-61 | Each message kind, live and in recovery, changes games and EOF marks and publishes as the node of the crash network does |
| `TopJoiner.Node.Recover` | internal/worker/joiner/joiner.go:73-89 | A fresh joiner that reads back a log is in the state that processing the same messages live leaves |
| `TopJoiner.ReplaysAsItRan` | internal/worker/joiner/joiner.go:73-89 | The joiner meets what the crash network asks of a node |
| `JoinerRuns.TopJoinerRun` | internal/worker/joiner/top.go:46-164 | Joiner of query 3, any stream: the client's messages since the last opening are answered with its running totals, the EOF that opens the barrier with one EOF, any other EOF not at all |
| `TopJoiner.TotalsAreRunningSums` | internal/worker/joiner/top.go:72-150 | In every interleaving published totals never decrease; once name and a review have come the last one is the sum of the votes received; with one name per game, nothing is published for a game without both |
| `TopJoiner.TotalsCarryNames` | internal/worker/joiner/top.go:72-150 | Every total is published under a name that has arrived for its game |
| `CrashedJoiner.TotalsBehindCrashes` | internal/worker/joiner/top.go:72-164 | The joiner in a network with crashes, on every schedule on which it logs harmlessly: what its consumer has received and is still to receive of an open client is exactly the running totals that the reviews and names in its log call for, never decreasing, the last one the sum of the votes logged |
| `CounterJoiner.Node.ProcessReview` | internal/worker/joiner/counter.go:68-107 | Adds the votes, except for a client's first message; publishes the name when the target is reached |
| `CounterJoiner.Node.ProcessGame` | internal/worker/joiner/counter.go:109-141 | Sets the name; publishes it if the target is reached |
| `CounterJoiner.Node.ProcessEof` | internal/worker/joiner/joiner.go:49-71 | Live and in recovery: marks the side, and on the second side's EOF sends the EOF on, unless recovering, and forgets the client |
| `CounterJoiner.Node.Process` | internal/worker/joiner/counter.go:43-58 | Each message kind, live and in recovery, changes games and EOF marks and publishes as the node of the crash network does |
| `CounterJoiner.Node.Recover` | internal/worker/joiner/joiner.go:73-89 | A fresh joiner that reads back a log is in the state that processing the same messages live leaves, games already sent included |
| `CounterJoiner.ReplaysAsItRan` | internal/worker/joiner/joiner.go:73-89 | The joiner meets what the crash network asks of a node |
| `JoinerRuns.CounterJoinerRun` | internal/worker/joiner/counter.go:43-141 | Joiner of query 4, any stream: the client's messages since the last opening are answered with the games that reached the target, the EOF that opens the barrier with one EOF, any other EOF not at all |
| `CounterJoiner.EmittedOnceAtTarget` | internal/worker/joiner/counter.go:68-141 | In every interleaving of non-empty names and reviews in which no name arrives for the game after it was published, the game is published at most once, and exactly when it has a name and its counted votes reach the target |
| `CounterJoiner.CountedIsTotalButFirst` | internal/worker/joiner/counter.go:76-80 | The counted votes are all votes but those of the client's first message, if that was a review |
| `CounterJoiner.FirstReviewIsDropped` | internal/worker/joiner/counter.go:76-80 | An input on which the first message's votes are lost |
| `CounterJoiner.LateNameRepeats` | internal/worker/joiner/counter.go:109-141 | That condition is needed: whatever came before, a name for a published game, followed by one review of enough votes, has it published exactly a second time |
| `LateNames.PublishedAgainIff` | internal/worker/joiner/counter.go:68-141 | Exact condition, every run of non-empty names and unnamed reviews: a game is published more than once if and only if a name for it comes after the event that had it published first, and either that event was a name, or the votes counted before it and those behind the late name reach the target together |
| `CounterJoiner.SecondNameRepeats` | internal/worker/joiner/counter.go:109-141 | A run on which a second name message has the game published twice |
| `PercentileJoiner.Node.ProcessReview` | internal/worker/joiner/percentile.go:101-122 | Adds the votes to the game |
| `PercentileJoiner.Node.ProcessGame` | internal/worker/joiner/percentile.go:124-144 | Sets the name, keeping the votes |
| `PercentileJoiner.Node.ProcessBatch` | internal/worker/joiner/percentile.go:77-99 | For any order of the map, the batches concatenate to the games with a name and votes, all of full size but the last |
| `PercentileJoiner.Node.ProcessEof` | internal/worker/joiner/percentile.go:60-75 | For any order of the maps, live and in recovery: on the second side's EOF publishes the client's games, cut into batches, and the EOF, unless recovering, and forgets the client |
| `PercentileJoiner.Node.Process` | internal/worker/joiner/percentile.go:43-58 | Each message kind, live and in recovery, changes games and EOF marks and publishes as the node of the crash network does |
| `PercentileJoiner.Node.Recover` | internal/worker/joiner/joiner.go:73-89 | A fresh joiner that reads back a log is in the state that processing the same messages live leaves |
| `PercentileJoiner.ReplaysAsItRan` | internal/worker/joiner/joiner.go:73-89 | The joiner meets what the crash network asks of a node |
| `JoinerRuns.PercentileJoinerRun` | internal/worker/joiner/percentile.go:43-99 | Joiner of query 5, any stream and any order of the maps: reviews and names are not answered; the EOF that opens the barrier is answered with the client's games that have a name and votes, in batches all full but the last, and one EOF behind them; any other EOF is not |
| `Batches.OneCut` | internal/worker/joiner/percentile.go:81-96 | There is one way to cut a list into batches of a size, so the batches are determined by the list |
| `PercentileJoiner.FlushIsExact` | internal/worker/joiner/percentile.go:60-144 | For any arrival order and any map order the flush holds exactly the games with a name and some votes, each with the sum of its votes and the name that came |
| `PercentileJoiner.WantedDistinct` | internal/worker/joiner/percentile.go:81-92 | No game is flushed twice |
| `Aggregator.EofCounter.Count` | internal/worker/aggregator/aggregator.go:45-61 | Counts an EOF in one byte and drops the count at the last one |
| `Aggregator.ReachedExactlyAtExpected` | internal/worker/aggregator/aggregator.go:45-57 | Counting EOFs of a client one after another, the count runs out exactly on EOF number ExpectedEofs and every multiple of it (on each one, if none are expected) |
| `EofCounts.CountsRounds` | internal/worker/aggregator/aggregator.go:45-61 | From any number of EOFs on, the one-byte count reaches ExpectedEofs with the next one if and only if that completes a round |
| `PercentileAggregator.Sort` | pkg/message/scored_review.go:113-121 | Gives a permutation sorted upwards by votes and game id |
| `PercentileAggregator.Node.Save` | internal/worker/aggregator/percentile.go:64-76 | Appends to the client's entries |
| `PercentileAggregator.Node.GetGamesInPercentile` | internal/worker/aggregator/percentile.go:89-104 | Sorts the client's entries in place and returns those from the cut-off index on |
| `PercentileAggregator.Node.SendBatches` | internal/worker/aggregator/percentile.go:110-148 | The batches concatenate back to the list, all of full size but the last, none empty |
| `PercentileAggregator.Node.ProcessEof` | internal/worker/aggregator/aggregator.go:45-57 | On the last EOF sends the percentile of the client's entries in batches, unless recovering, and the EOF behind, and forgets the client; before that only counts |
| `PercentileAggregator.Node.Process` | internal/worker/aggregator/percentile.go:47-62 | Each message kind, live and in recovery, changes entries and EOF counts and publishes as `PercentileAggregator.PublishedAtLastEof` describes |
| `PercentileAggregator.PublishedAtLastEof` | internal/worker/aggregator/aggregator.go:45-57 | For any stream of messages of any clients: a message is answered if and only if it is an EOF that completes a round; then the percentile of all entries of the client since its last round goes out, in batches all full but the last, one EOF behind it, and the client is forgotten |
| `PercentileAggregator.PanicsIff` | internal/worker/aggregator/percentile.go:97-104 | For any stream: an EOF takes the process down if and only if it completes a round of a client that has sent messages since the last one, but no entry in any of them |
| `PercentileAggregator.KeptAboveDropped` | internal/worker/aggregator/percentile.go:89-104 | What is kept is not empty and part of what came; dropped are n hundredths of the entries rounded down, but never the last one; and no kept game is below a dropped one by votes and game id |
| `PercentileAggregator.PercentileIsOrderIndependent` | internal/worker/aggregator/percentile.go:64-104 | Distinct games give the same list for any order of arrival and any batching |
| `PercentileAggregator.SortedIsUnique` | pkg/message/scored_review.go:113-121 | Distinct games have one sorted arrangement |
| `PercentileAggregator.ReplayIsFaithful` | internal/worker/aggregator/aggregator.go:63-77 | Replaying a delivery leaves the node as processing it live did |
| `CounterAggregator.Node.Publish` | internal/worker/aggregator/counter.go:60-75 | Sends the client's buffer and empties it exactly if it holds something and is full or the EOFs are all there |
| `CounterAggregator.Node.Process` | internal/worker/aggregator/counter.go:44-58 | Each message kind, live and in recovery, changes buffers and EOF counts as specified |
| `CounterAggregator.BatchesConserve` | internal/worker/aggregator/counter.go:60-106 | Without crashes, batches sent so far and the buffer make up everything saved, in order, and one EOF has gone out for every ExpectedEofs EOFs |
| `CounterAggregator.BatchesAreCut` | internal/worker/aggregator/counter.go:60-106 | No batch is empty or larger than the batch size, and up to the first completed round every batch has just that size |
| `CounterAggregator.EofGoesOutLast` | internal/worker/aggregator/aggregator.go:45-57 | With the last expected EOF everything saved has gone out, and the EOF behind it |
| `CounterAggregator.ClientsAreSeparate` | internal/worker/aggregator/counter.go:44-106 | The node treats every client by itself; nothing is sent in recovery |
| `CounterAggregator.LiveIsRemainderOfReplay` | internal/worker/aggregator/counter.go:60-75 | Replay keeps every name since the last reset; the live buffer is its suffix, what remains after whole batches |
| `CounterAggregator.ReplayEqualsLiveIffNoBatchCut` | internal/worker/aggregator/aggregator.go:63-77 | Replay restores the live client if and only if fewer names than fill a batch have come in since its last completed round of EOFs |
| `CounterAggregator.CrashRepublishes` | internal/worker/aggregator/counter.go:60-75 | After a crash past that point the next name sends every name since that round again |
| `CounterAggregator.CrashRepublishesExample` | internal/worker/aggregator/counter.go:60-75 | A run of three names on which a batch is sent twice |
| `CounterAggregator.ReplayIsNotFaithful` | internal/worker/aggregator/aggregator.go:63-77 | For no parameters does the counter aggregator meet what the exactly-once theorem asks of a node |
| `Reviews.ToScoredReviewMessage` | pkg/message/review.go:108-131 | For any order of the map, one entry per game with a review of the wanted score, with the number of those reviews and the first name |
| `Reviews.ToReviewWithTextMessage` | pkg/message/review.go:133-149 | Per game, the texts of its reviews with the wanted score in the order of the batch |
| `Reviews.WhereMatching` | pkg/message/review.go:108-149 | A game's texts are those of exactly its reviews with the wanted score, each once and in the order of the batch, and its name is that of the first of them |
| `Reviews.VotesAreConserved` | pkg/message/review.go:108-131 | However reviews are batched, the votes published for a game add up to its reviews with the wanted score |
| `Reviews.ReviewedIffMatching` | pkg/message/review.go:108-131 | A game is reported at all exactly if one of its reviews has the wanted score |
| `Sharding.ShardKnows` | internal/worker/filter/review.go:116-136 | The joiner of a game receives all its votes and its name, in whatever order |
| `Sharding.ShardIgnores` | internal/worker/filter/review.go:116-136 | The other joiners receive nothing of it |
| `Sharding.RoutedIsShard` | pkg/utils/shard/shard.go:22-27 | Routing by game id in the order of arrival is one such split |
| `Query3.ShardedIsOneShot` | internal/worker/hybrid/top_n/top_n.go:71-101 | For any split of the games by id, any interleaving at each joiner and any order of the joiners' results, the aggregating heap ranks the n largest totals of all joined games, every entry with its total and a name that came in for its game |
| `Query3.SomeRun` | internal/worker/filter/review.go:116-136 | Every stream of reviews and names and every shard function have a run as the theorem above describes it: routing in the order of arrival |
| `Query3.Query3IsExact` | pkg/message/review.go:108-131 | From reviews in any batches and names to the final list: the n games with the most reviews of the wanted score among the games named, each under its name |
| `Query3.OneShotCountsReviews` | internal/worker/joiner/top.go:72-150 | The totals that are ranked are the counts of matching reviews of the games named |
| `Query5.ShardedIsOneShot` | internal/worker/aggregator/percentile.go:64-104 | For any split of the games, any order at each joiner, any map order, batching and interleaving, the list kept is the percentile of the one-shot join |
| `Query5.SomeRun` | internal/worker/filter/review.go:116-136 | So do the hypotheses of the theorem above, with some order of every map and some sorted arrangement |
| `Query4.Query4IsExact` | internal/worker/aggregator/counter.go:60-110 | For any split of the games by id, any order at each joiner and any interleaving of names and EOFs on the way: ahead of the last EOF the batches hold exactly once every game that is named and whose votes, without those of its joiner's first message, reach the target, and no other game |
| `Query4.SomeRun` | internal/worker/filter/review.go:116-136 | Every stream and shard function have such a run |
| `IngestRuns.IngestExactlyOnce` | internal/client/file_reader.go:59-113 | With equal batch and chunk size, and crashes and broken connections wherever they do no harm (point 5 above), what a consumer accepts from a queue is at every point a beginning of the batches routed there, each once and in order, nothing from ahead of the client; when the client is done and the gateway idle it is all of them with the EOF behind |
| `Ingest.BatchesAreTheFile` | internal/client/file_reader.go:90-113 | The batches are the lines of the file, cut at the batch size |
| `Ingest.PublishedOnce` | internal/gateway/chunk/sender.go:64-103 | Publishing a batch, for the first time or again, leaves a queue with what it had and exactly that batch, however far it had come |
| `IngestFaults.ReconnectHarmlessIff` | internal/gateway/chunk/sender.go:48-59 | In every consistent state of a full batch: after a connection broke without a crash, every continuation delivers exactly, if and only if the gateway held nothing of the batch, neither lines nor a publication in progress |
| `IngestFaults.ReconnectInLastBatchIff` | internal/client/file_reader.go:65-80 | The same of the last batch: harmless if and only if the client can take up the batch where it began, and the gateway holds no lines of it or consumers have seen before what goes wrong with them; a publication in progress does no harm |
| `IngestFaults.FaultHarmlessIff` | internal/client/file_reader.go:59-113 | In every state that a run within the bounds can reach, a crash or a broken connection leaves all continuations exact if and only if the bounds of the ingest theorem allow it |
| `IngestFaults.StaleAck` | internal/gateway/chunk/sender.go:64-82 | The half with a publication in progress: its acknowledgement comes one batch early from then on, until the client is done while the End of the file is still on its way |
| `IngestFaults.ChunkLeftSpoils` | internal/gateway/chunk/sender.go:48-59 | The half with lines left: every batch is shifted, and the last one comes out with the wrong number of lines whatever the lines are |
| `IngestFaults.ReconnectMixes` | internal/gateway/chunk/sender.go:48-59 | What goes out under the batch's number then: the lines left over, and the beginning of the batch behind them |
| `IngestFaults.CrashHarmlessIff` | internal/client/file_reader.go:181-205 | In every consistent state in which the client is not done: after a crash of the gateway every continuation delivers exactly, if and only if the client has not come to the end of the file or its batch began at line zero |
| `IngestFaults.FirstLinesGoOutAsLast` | internal/client/file_reader.go:181-205 | In the other case the first lines of the file go out under the number of its last batch, and are never that batch |
| `IngestFaults.CrashWhenDoneIff` | internal/gateway/chunk/sender.go:84-92 | When the client is done: a crash is harmless if and only if every queue that the EOF goes to has seen it |
| `IngestFaults.EofCanBeLost` | internal/gateway/chunk/sender.go:80-92 | For every file there is a run without faults to a client that is done while the EOF has been published nowhere, so that a crash then loses it |
| `IngestEnds.Sender.SendChunk` | internal/gateway/chunk/sender.go:64-103 | A full chunk, or the end of the file, starts and finishes a job, with the output that `IngestSends.OutputInOrder` and `IngestSends.OutputIsWork` describe; the chunk is emptied, or dropped at the end of the file |
| `IngestEnds.Sender.UpdateChunk` | internal/gateway/chunk/sender.go:48-59 | For its client this is the step of the ingest network, and the job it starts is carried out; other clients' chunks stay |
| `IngestSends.OutputIsWork` | internal/gateway/chunk/sender.go:64-103 | The sender's output for a job is what the network's gateway does in as many steps of work as there are copies and acknowledgements, until no job is left: the same messages in the same queues under the same ids, and the same acknowledgement |
| `IngestSends.OutputInOrder` | internal/gateway/chunk/sender.go:64-103 | The copies of the batch under its number, then the acknowledgement, then the copies of the EOF under the next number |
| `IngestSends.OutputIsAccepted` | internal/gateway/chunk/sender.go:64-103 | A consumer that has seen nothing of a batch accepts the one copy of it in its queue, and behind it the EOF if the batch is the last, each under its own id |
| `IngestEnds.BatchProcessor.SendBatch` | internal/client/file_reader.go:90-113 | Sends the next lines of the file as far as batch, file and connection go, and says which ended it |
| `IngestEnds.BatchProcessor.HandleFinalBatch` | internal/client/file_reader.go:181-201 | Sends the End under the batch's number and waits for the acknowledgement; without either the reader goes back to the first line |
| `IngestEnds.BatchProcessor.ProcessCSVBatches` | internal/client/file_reader.go:59-88 | The main loop, for any connections and acknowledgements: batch number, start line and reader are where the turns of the network take the client, and what has been sent is, turn after turn, the frames that the network's steps put on the wire |
| `IngestEnds.BatchProcessor.TakeTurn` | internal/client/file_reader.go:63-84 | One turn of the loop sends the frames of the turn and leaves batch number, start line and reader where the turn takes the client |
| `IngestEnds.FramesAreWire` | internal/client/file_reader.go:59-113 | What goes out in a turn is what the network's client has on its wire after the steps of that turn: the next lines of the file, under the number of the batch, and behind the last of them the End |
| `IngestEnds.TurnIsRun` | internal/client/file_reader.go:59-113 | Such a turn is a run of the ingest network on the client's side: rows, the End if the file is through, and an acknowledgement or a broken connection |
| `IngestEnds.BatchProcessor.RewindReader` | internal/client/file_reader.go:230-239 | Puts the reader at the given line, or at the end of a shorter file |
| `IngestEnds.SharedSourceIff` | internal/gateway/chunk/sender.go:74-76 | Two clients share a source id, and so drop each other's batches, if and only if gateway id and client number read the same when written together |
| `IngestEnds.SharedSourceExample` | internal/gateway/chunk/sender.go:74-76 | Clients 1-11 and 11-1 do |
| `Stream.SendMessage` | pkg/message/client_msg.go:69-82 | Builds the frame of batch number, length and payload |
| `Stream.FrameBytes` | pkg/message/client_msg.go:69-82 | Such a frame byte by byte, batch number first |
| `Stream.Reassembler.Drain` | internal/gateway/data_listener.go:60-92 | The inner loop takes off all complete frames and restores the rest |
| `Stream.Reassembler.HandleData` | internal/gateway/data_listener.go:45-93 | The outer loop over the reads gives what feeding them one by one gives |
| `Stream.ReadsGiveMessages` | internal/gateway/data_listener.go:45-93 | However the bytes are cut into reads, the messages handed on are the first ones sent, and the buffer is a proper prefix of the next frame |
| `Stream.AllBytesAllMessages` | internal/gateway/data_listener.go:45-93 | When all bytes are in, all messages are handed on, the buffer is empty, and the loop has finished exactly if the last one was the end of file |
| `Stream.CountIsFaithfulIff` | internal/gateway/data_listener.go:83-86 | The 32-bit byte count tells complete from incomplete frames exactly below 2^32 bytes, or where it stands at its largest value |
| `Bytes.BigEndian` | pkg/utils/encoding/encoding.go:17-19 | Byte k of a number is the one that its place from the most significant end calls for |
| `Codec.IntRoundTrip` | pkg/utils/encoding/encoding.go:17-49 | Two's-complement big-endian numbers of any width come back, what follows is untouched |
| `Codec.UintRoundTrip` | pkg/utils/encoding/encoding.go:31-49 | So do unsigned numbers that fit their width |
| `Codec.BoolRoundTrip` | pkg/utils/encoding/encoding.go:8-15 | So do booleans |
| `Codec.StringRoundTripIff` | pkg/utils/encoding/encoding.go:51-88 | A string comes back, with what follows it, if and only if it is shorter than 2^32 |
| `Codec.ListRoundTripIff` | pkg/message/scored_review.go:24-42 | A list of elements that come back does so if and only if it is shorter than 2^32 |
| `Codec.ReviewsRoundTrip` | pkg/message/review.go:17-106 | Review lists come back |
| `Codec.ScoredReviewsRoundTrip` | pkg/message/scored_review.go:24-102 | Scored review lists come back |
| `Codec.GameNamesRoundTrip` | pkg/message/game_name.go:21-87 | Game name lists come back |
| `Codec.TextReviewsRoundTrip` | pkg/message/text_review.go:11-71 | Maps of texts come back for any order in which the keys were written |
| `Codec.EofRoundTripIff` | pkg/message/eof.go:10-39 | The list of visited workers comes back if and only if it is shorter than 256 |
| `Formats.FieldOrder` | pkg/message/review.go:80-106 | Reviews, scored reviews and names byte by byte: the fields in their order, widths and signs |
| `Formats.ListOrder` | pkg/message/text_review.go:47-71 | Texts of a game byte by byte: lists have their length in front |
| `Formats.EofOrder` | pkg/message/eof.go:10-23 | An EOF token byte by byte: the number of workers in one byte, then the workers |
| `Formats.CutMessageIsRefused` | pkg/message/review.go:17-64 | Any proper beginning of the bytes of a list of reviews, scored reviews, names or texts is an error as a whole |
| `Formats.CutEofIsRefused` | pkg/message/eof.go:25-39 | A proper beginning of an EOF token's bytes is an error |
| `BufferCodec.Buffer.EncodeString` | pkg/utils/encoding/encoding.go:51-66 | The write loop appends length and bytes, however many bytes a write takes |
| `BufferCodec.Buffer.DecodeString` | pkg/utils/encoding/encoding.go:69-88 | The read loop, which always reads to the front of its slice, takes off the string or fails with an empty buffer |
| `BufferCodec.ReviewFromBytes` | pkg/message/review.go:17-64 | The decode loop gives the list or, if bytes are missing anywhere, an error |
| `BufferCodec.ReviewsToBytes` | pkg/message/review.go:80-106 | The encode loop writes the list |
| `BufferCodec.TextReviewsToBytes` | pkg/message/text_review.go:47-71 | The encode loop writes the map's entries in some order of its keys, each once |
| `BufferCodec.TextReviewFromBytes` | pkg/message/text_review.go:11-45 | The nested decode loops give the map of the entries read, or an error |
| `BufferCodec.ReviewsThere` | pkg/message/review.go:17-106 | Written out and read back, a batch of reviews is what it was |
| `BufferCodec.TextReviewsThere` | pkg/message/text_review.go:11-71 | So is a map of texts |
| `BufferCodec.EofToBytes` | pkg/message/eof.go:10-23 | The write loop writes count and list |
| `BufferCodec.EofFromBytes` | pkg/message/eof.go:25-39 | The read loop gives the list, or an error if it is short |
| `LogRecord.JoinedRoundTrip` | pkg/utils/id/id.go:118-125 | Name and number come back whatever the name is, empty or with separators |
| `LogRecord.HeaderRoundTrip` | pkg/amqp/header.go:51-72 | A header comes back from its four fields |
| `LogRecord.FieldsOfRecord` | pkg/recovery/record.go:27-35 | A record field by field |
| `LogRecord.CutToByte` | pkg/amqp/header.go:51-72 | Numbers of origin and kind outside a byte are cut to their lowest byte |
| `LogRecord.DstsRoundTrip` | pkg/sequence/destination.go:42-67 | A list of destinations comes back from its count and fields |
| `LogRecord.LineRoundTrip` | pkg/recovery/record.go:27-35 | Parsing the printed fields of any record gives the record |
| `LogRecord.LineParsesIff` | pkg/recovery/recovery.go:45-61 | A line is a record if and only if its header can be read and between header and message there is a count with at least as many destinations behind it, which are then the record's; further fields are passed over |
| `LogRecord.LinePanicsIff` | pkg/recovery/recovery.go:45-61 | Reading a line panics if and only if its header parses and either nothing comes behind it, or at least two fields of which the first is a negative number or the greatest integer; every other line is a record or is skipped |
| `LogRecord.LogPanicsIff` | pkg/recovery/recovery.go:32-63 | Recovery goes down on a log if and only if some line of it is such a line |
| `LogRecord.DamagedLinePanics` | pkg/recovery/recovery.go:45-51 | For every header there are such lines: cut off behind it, and with a count of -1 |
| `LogRecord.RecordRoundTrip` | pkg/recovery/recovery.go:45-61 | A logged delivery gives back all that replay needs: source, id, client, origin, kind, the ids used, and the message |
| `LogRecord.ToString` | pkg/recovery/record.go:27-35 | The loop prints the fields |
| `LogRecord.Handler.Log` | pkg/recovery/recovery.go:65-68 | Appends one line, which adds exactly the record to what the log gives back |
| `LogRecord.Handler.Recover` | pkg/recovery/recovery.go:32-63 | The read loop gives the records of all lines that parse, skipping the others |
| `LogRecord.LogRoundTrip` | pkg/recovery/recovery.go:32-68 | A log of printed records gives back those records, all and in order |

## Left out

- Sequence ids, votes and batch numbers are unbounded; the 64-bit and 32-bit wrap-around of the counters is not modelled. EOF counts and worker ids wrap as bytes.
- Failing publishes, encodings and log writes, some of which use up a sequence id without logging it.
- RabbitMQ, sockets, signals, Docker, configuration, logging and health checks; only queues, redelivery and the log remain.
- Floating point: the percentile index is computed in exact integers, `floor(n * length / 100)`; the capacity hint of the batch list is left out.
- `sort.Slice` is a sort that returns some sorted permutation; for distinct games there is only one.
- PercentileAggregator.Node.ProcessEof: asks for a batch size above zero, because the code loops for ever on zero, and excludes the EOF on which the code indexes at -1 (`PercentileAggregator.PanicsIff`); the percentile joiner sends no empty batches.
- Published messages are returned or appended to a list instead of being sent; in the crash network publishing is a step of its own per message.
- EofBarrier.NothingAfterEof: releasing an EOF to all outputs of a stage is one step: the EOFs reach different queues, whose contents the theorem speaks of one by one; crashes are the subject of the exactly-once theorem.
- The CSV layer of the log (which rewrites CR LF inside fields) and gob; payloads of client rows are opaque.
- IngestRuns.IngestExactlyOnce: excludes the crashes and broken connections that the code does not recover from, and only those (point 5). It is about safety; that the client gets to the end is not stated.
- The client finds a broken connection at its next use of it; rows that the operating system still takes after the break, and an acknowledgement channel left behind by an old connection, are not modelled.
- Simulation.Simulate: asks that interrupted deliveries are taken up first, where the condition that consumers see the right thing is weaker and exact (`ExactlyOnce.ExactIffHarmless`). Without the guard a schedule free of crashes need not exist even then: the delivery taken instead may be one that the interrupted publication itself has caused.
- Simulation.CrashInvisible: has the same guard, for the same reason.
- EofBarrier.DeliveredIffEntersAtZero: has EOFs between stages go to worker 0; an output that sends its EOF to every worker behind it is expressed by sinks, and what reads from sinks by `FanIn`.
- One client's ingest is modelled; other clients have chunks of their own, and a source id of their own unless theirs reads the same.
- Aliasing of Go slices that share an array (buffers taken apart and put together in the gateway's loop, batches cut from one list) is not modelled; lists are values.
- Gateway results and their persistence, the client's display of results, query 1's platform counts, the genre, date and platform filters, language detection, xxHash and id generation.
- Query4.Query4IsExact: is about runs without crashes; under crashes the counter aggregator's replay (point 2) sends batches again.
- Nodes that walk a map in another order when a delivery is taken up again are not nodes of the crash network, which are functions; `TwoInputs.OtherOrderLoses` shows at the consumer what they do.
- Query 5 for a client without any joined game, for which nothing but the EOF is published.
