# Verification of the OSU-style collectives and benchmark protocols

The repository reimplements MPI-style collectives and benchmark loops over UCX tag matching. A receive
names a tag and never a sender, and successive rounds reuse their tag, so whether a barrier is a barrier
and whether a reduction sums the right round is a question about all schedules of all ranks. This project
models those protocols and proves what they guarantee, and where a guarantee fails, exactly when.

## What is modelled

**Transport.** Channels are reliable and first-in-first-out per (sender, receiver, tag); a receive takes
the head of any channel with its tag. Every call a rank makes (send, wait for a send, post a receive, wait
for a receive) is a step of its own, and the matching of a posted receive with a message is another, so
all interleavings are covered. The source, stage and round labels on messages exist to state theorems;
no step reads them. Sends complete at once, or, where a `rendezvous` flag is set, only when matched.
Requests the code drops count as delivered.

**State machines.** `AllToAll*` covers every exchange in which each rank sends to all peers and receives
as many messages: `barrier`, `ibarrier` and its wait, `allreduce_u64`, `reduce`, `allgather`, `alltoall`
and the post-first `allgatherv`, `alltoallv`, `reducescatter`, in any sequence of stages with any tags.
The polling loop of `wait` appears there as one wait per receive, in posting order: it ends when all have
matched either way. `OobAllgather` has per-source tags, `RootStream` a fixed root, `Exchange` and
`RingRounds` arbitrary edges and the ring, `SeparatedRounds` the same with the guarantee of a barrier between
rounds and `BarrieredRounds` with the barrier's own calls and messages,
`VectorRounds` the rounds of `alltoallv` in which pieces are skipped, `FanIn`, `FanOut` and `BiBandwidth`
the window protocols. Where a machine has a companion module named `..Guarantees`, the machine and its
invariant are in the one, what follows for every run in the other.

**Rank-local code.** The loops over arrays and buffers are methods (`CollectiveBlocking`,
`VectorCollectives`, `NeighborCollectives`, `RootDirected`, `NonBlockingRequests`, `WindowCalls`,
`FanInit`, `Atomics`, `MessageSizes`), proved against functions. Their `calls` are equated with the programs
the state machines run, and the messages their receives match are inputs, in the order they match; the
theorems on runs say which messages these are. `StageMessages`, `RootResults`, `RingRounds` and `FanPrograms`
join the two: what the calls append to the outboxes is what the machines carry, and what a run delivers is
what the calls return.

**Integers.** Byte sums are modulo 256 after an accumulator that wraps at its own width; remote words and
u64 sums are modulo 2^64; ring predecessors use 64-bit wrap-around; message sizes report overflow.

## Findings

- Blocking neighbour collectives are a ring only on sizes that divide 2^64. On any other size rank 0's
  `prev` is not the last rank, which is then sent one message per round and waits for two.
- `neighbor_alltoall` skips a send whose offset is outside the send buffer (all of them for an empty one)
  and still waits for two messages.
- `scatter` skips an out-of-bounds chunk and its receiver waits. If a later round's buffer holds the chunk,
  the waiting call returns that one, and all later calls of the rank are one round or more behind.
- Collectives of one tag without a barrier in between can mix rounds with three or more ranks, whatever their
  kinds. They can deadlock exactly when two ranks other than rank 0 use sends that wait for a match.
- Neighbour rounds without a barrier mix from the second round on, with more than two ranks.
- The ppn validation of fan discovery never looks at the last node, contrary to the comment on `fan_init`.
  Where it fails, rank 0 exits and every other rank is left waiting for its broadcast.
- `fan_init` copies the bytes of a machine word to places of four bytes, so on a 64-bit machine rank 0 panics
  before the first broadcast. The statements about queues are about the maps it would send.
- With more than one process on a node other than the parent's, those behind the node's leader address the
  parent, which never serves them.
- The 16-bit accumulator of the byte reductions can overflow from 258 ranks on; the byte it is truncated to is
  right all the same where overflow wraps.
- With an empty window the fan-out parent can take an acknowledgement of a child it has not served, and a
  rank of the two-way benchmark can run through its iterations without the other.
- `alltoallv` skips a piece outside the send buffer and its receiver waits for a message all the same.
- `message_sizes` does not end for an increment of 0, or of 1 below the cutoff, except in trivial ranges.

## Model

| member | source | states |
|---|---|---|
| `AllToAllInvariant.NoneCompletesBeforeAllEnter` | common/src/runtime/collective_blocking.rs:24-61 | Barrier safety over whole runs: for any number of ranks, any schedule and any mix of blocking and non-blocking stages (all on one tag, or on any tags), a rank that has completed stage k is preceded by every rank's entry into stage k, although receives ignore the sender and may take a later stage's message |
| `AllToAllInvariant.SkewAtMostOne` | common/src/runtime/collective_blocking.rs:24-61 | Completed-stage counts of any two ranks differ by at most one in every reachable state |
| `AllToAllProgress.NeverStuck` | common/src/runtime/collective_blocking.rs:40-60 | Every reachable unfinished state has an enabled step, for stages of any kinds at any ranks, unless two ranks other than rank 0 wait for the matches of their sends in one stage and the next stage uses its tag |
| `AllToAllProgress.RunLength` | common/src/runtime/collective_blocking.rs:40-60 | Events performed plus work remaining is constant, so no run is infinite |
| `AllToAllProgress.NothingLeftBehind` | common/src/runtime/collective_blocking.rs:40-60 | When all ranks are done every channel has been drained, and carried exactly one message per stage that uses its tag |
| `AllToAllProgress.Complete` | common/src/runtime/collective_blocking.rs:40-60 | Every run can be continued to one in which all ranks complete all stages |
| `AllToAllInvariant.InvRun` | common/src/runtime/collective_blocking.rs:24-61 | The state invariant (channel contents follow the senders' progress, cumulative match counts, entry before completion) holds after every run |
| `AllToAllIsolation.IsolatedStageIsExact` | collective/src/bin/osu_allreduce.rs:51-67 | A stage whose neighbours use other tags consumes, at every rank and in every schedule, exactly one message of each peer, all sent in that stage |
| `AllToAllMixing.ExactIffTagsAlternate` | common/src/runtime/collective_blocking.rs:182-221 | For stages of the blocking, non-blocking and post-first kinds, with eager or rendezvous sends, in any mixture over stages and ranks: every schedule keeps every stage exact if and only if no two neighbouring stages share a tag or there are at most two ranks; without a barrier rounds can mix |
| `AllToAllDeadlock.DeadlockFreeIff` | common/src/runtime/collective_blocking.rs:689-740 | A program of stages of any kinds in any mixture over stages and ranks is deadlock free in every schedule if and only if there is no stage in which two ranks other than rank 0 wait for the matches of their sends and whose tag the next stage uses |
| `AllToAllDeadlock.RendezvousDeadlockFreeIff` | common/src/runtime/collective_blocking.rs:689-740 | In particular post-first collectives whose sends wait for a match at every rank are deadlock free in every schedule if and only if there are at most two ranks or neighbouring stages use different tags (a barrier in between) |
| `Programs.CountersFollowProgram` | common/src/runtime/collective_blocking.rs:40-60 | The send, post and wait counters of the state machine move by one exactly at the calls of that kind, which address the next peer or slot in line; a program makes one of each per peer |
| `Programs.BlockingCalls` | common/src/runtime/collective_blocking.rs:40-60 | The blocking program call by call: all sends, then post and wait for one receive at a time |
| `Programs.NonBlockingCalls` | common/src/runtime/non_blocking.rs:524-579 | The non-blocking program call by call: all sends, all posts, all waits |
| `Programs.PostFirstCalls` | common/src/runtime/collective_blocking.rs:689-740 | The post-first program call by call: all posts, each send with the wait for it, all waits |
| `Programs.PeerIndexInverse` | common/src/runtime/collective_blocking.rs:41-42 | Peer numbers of the skip-self loop and positions in it are mutually inverse and cover exactly the other ranks |
| `Network.ChannelIsQueue` | common/src/runtime/collective_blocking.rs:40-60 | A channel is a first-in-first-out queue: what is sent over a drained one is what is matched next, and its two ends touch no other channel |
| `CollectiveBlocking.OsUContext.Barrier` | common/src/runtime/collective_blocking.rs:24-61 | The calls a barrier makes are the blocking program of the state machine; it appends size - 1 messages, for each peer in rank order one with the low byte of the rank |
| `CollectiveBlocking.OsUContext.AllreduceU64` | common/src/runtime/collective_blocking.rs:182-221 | Calls as the program, for each peer in rank order one message with the eight bytes of the value; the result is the sum of the gathered 64-bit words modulo 2^64 |
| `CollectiveBlocking.OsUContext.Reduce` | common/src/runtime/collective_blocking.rs:267-315 | Calls as the program, for each peer in rank order one message with the rank's vector; the root's buffer holds the column sums modulo 256 of the gathered blocks as far as they go, other bytes and other ranks' buffers are unchanged |
| `CollectiveBlocking.OsUContext.AllreduceUcxFallback` | collective/src/bin/osu_allreduce.rs:112-164 | As reduce, with the result at every rank |
| `CollectiveBlocking.OsUContext.Allgather` | common/src/runtime/collective_blocking.rs:318-365 | For each peer one message with the rank's block; the receive buffer is the concatenation of the gathered blocks, own block in its place, and nothing behind them changes |
| `CollectiveBlocking.OsUContext.Alltoall` | common/src/runtime/collective_blocking.rs:369-410 | Peer p is sent bytes p * w to p * w + w of the send buffer; the receive buffer is the own piece and the arrivals end to end; a single rank copies its buffer |
| `CollectiveBlocking.OsUContext.ReduceScatterBlock` | common/src/runtime/collective_blocking.rs:1114-1184 | The rank's buffer holds its block of the summed vector, elemcount / size bytes at rank times that; a single rank copies as much as count and buffers allow |
| `CollectiveBlocking.OsUContext.Reducescatter` | common/src/runtime/collective_blocking.rs:1188-1265 | The rank's buffer holds its segment of the summed vector, at the prefix sum of the counts; a single rank copies as much as count and buffers allow |
| `StageMessages.OnTheChannel` | common/src/runtime/collective_blocking.rs:40-60 | What a rank's call appends for p, if it is what the rank sends in stage k of the machine, lies at that stage's place of the channel to p in every run |
| `StageMessages.SendersContribute` | common/src/runtime/collective_blocking.rs:289-306 | If each rank's call appends one message with its own buffer for each peer, and the machine carries these, the stage is a reduction of those buffers |
| `StageMessages.ReductionInRun` | common/src/runtime/collective_blocking.rs:267-315 | In a run that carries what all calls appended, an isolated reduction gives every rank the byte sums of all ranks' buffers |
| `StageMessages.AllreduceU64InRun` | common/src/runtime/collective_blocking.rs:182-221 | In such a run allreduce_u64 gathers words whose sum is that of all ranks' values |
| `StageMessages.AllgatherInRun` | common/src/runtime/collective_blocking.rs:318-365 | In such a run what a rank gathers is all ranks' buffers, each once, in some order |
| `StageMessages.AlltoallInRun` | common/src/runtime/collective_blocking.rs:369-410 | In such a run what rank r matches is block r of every other rank's send buffer, each once, in some order |
| `Reductions.GatheredAt` | common/src/runtime/collective_blocking.rs:289-306 | What a rank has gathered: its own block at its own place, in the turn of another rank the message its receive matched |
| `Reductions.SumByteAppend` | common/src/runtime/collective_blocking.rs:309-314 | The sum vector is zero for no blocks, and each further block adds its byte modulo 256 |
| `Blocks.FlattenIsPrefix` | common/src/runtime/collective_blocking.rs:318-365 | Blocks at their places in a buffer, end to end, are the front of the buffer |
| `Blocks.OverwriteAt` | common/src/runtime/collective_blocking.rs:318-365 | Copying a slice into place changes the bytes of the slice and no others |
| `VectorCollectives.Allgatherv` | common/src/runtime/collective_blocking.rs:657-741 | Posts, sends and waits as the post-first program; each block, zero-padded to its count, lands at its displacement if it fits there, in rank order after the own block; a single rank copies as much as fits |
| `VectorCollectives.Alltoallv` | common/src/runtime/collective_blocking.rs:745-844 | As allgatherv with one piece per peer cut out of the send buffer; a piece outside the send buffer is neither sent nor awaited as a send, though its counterpart is awaited as a receive |
| `VectorCollectives.KeptMessagesReach` | common/src/runtime/collective_blocking.rs:811-828 | A peer is sent a message if and only if its piece is inside the send buffer, and that piece |
| `VectorCollectives.KeptCallsArePairs` | common/src/runtime/collective_blocking.rs:811-828 | The messages go out in rank order, each once, and each is waited for before the next is sent |
| `VectorCollectives.AllBlocksAt` | common/src/runtime/collective_blocking.rs:830-844 | The block placed for a peer is the message of its receive, zero-padded or cut to its count |
| `VectorCollectives.LastBlockWins` | common/src/runtime/collective_blocking.rs:724-740 | Where blocks overlap, a byte ends up as in the block of the highest peer that covers it |
| `VectorCollectives.OwnBlockOrOld` | common/src/runtime/collective_blocking.rs:669-687 | A byte no peer covers ends up as in the rank's own block, and one outside all blocks as it was; a block that does not fit is dropped |
| `VectorCollectives.NothingSkippedIsProgram` | common/src/runtime/collective_blocking.rs:689-740 | With no piece skipped the calls are exactly the post-first program the state machine runs |
| `VectorRounds.DeadlockFreeIffNoneSkipped` | common/src/runtime/collective_blocking.rs:811-844 | With sends that wait for nobody, no schedule of back-to-back rounds, whose counts, displacements and buffers may differ by round and rank, gets stuck if and only if in every round displacement plus count is inside the send buffer for every ordered pair of ranks |
| `VectorRounds.RoundMessages` | common/src/runtime/collective_blocking.rs:811-828 | A rank's call of a round sends a peer a message exactly when the state machine does, the bytes of its piece |
| `VectorCollectives.EveryBlockInPlace` | common/src/runtime/collective_blocking.rs:724-740 | With displacements that do not overlap every block ends up whole in its place and every byte outside all blocks keeps its value |
| `VectorCollectives.PackedIsConcatenation` | common/src/runtime/collective_blocking.rs:657-741 | With packed displacements the result is the concatenation of all blocks |
| `VectorCollectives.ExactFit` | common/src/runtime/collective_blocking.rs:724-740 | If every message fills its receive buffer the blocks placed are those gathered |
| `VectorResults.AllgathervInEveryRun` | common/src/runtime/collective_blocking.rs:657-741 | With equal counts and packed displacements, in every run past an isolated stage, the buffer holds the contributions of that stage end to end, each once, in some order |
| `VectorResults.TwoRankAllgatherv` | common/src/runtime/collective_blocking.rs:657-741 | With two ranks it holds them in rank order, whatever their lengths |
| `NeighborCollectives.NeighborAllgather` | common/src/runtime/collective_blocking.rs:863-907 | The front of the send buffer goes to prev and to next, then two posted and awaited receives; each message, zero-padded, goes to its place as far as the buffer goes, and bytes behind both keep their value; a single rank copies what fits |
| `NeighborCollectives.NeighborAlltoall` | common/src/runtime/collective_blocking.rs:972-1019 | Prev is sent the first w bytes of the send buffer and next those from w to 2 w, cut off at its end, each only if its offset is inside; both receives follow in any case and are placed as in neighbor_allgather |
| `NeighborCollectives.BothPiecesIsProgram` | common/src/runtime/collective_blocking.rs:972-1019 | With both offsets inside the send buffer the calls are the blocking program for two peers |
| `RingRounds.AlltoallCalls` | common/src/runtime/collective_blocking.rs:993-1001 | The sends the state machine of neighbor_alltoall makes in a round are those among the rank's calls |
| `RingRounds.MessagesAreEdges` | common/src/runtime/collective_blocking.rs:972-1019 | Message j of a rank's neighbour call is the one its j-th edge carries, to that edge's target |
| `RoundResults.ArrivalsConserved` | common/src/runtime/collective_blocking.rs:318-410 | In an isolated stage of any run, what a rank's receives delivered is as a multiset exactly what its peers addressed to it; with two ranks exactly the peer's buffer |
| `RoundResults.ReductionIsGlobal` | common/src/runtime/collective_blocking.rs:309-314 | In an isolated stage of any run every rank's byte sums and 64-bit sum are those over all ranks' contributions to that stage |
| `RoundResults.GatheredIsPermutation` | common/src/runtime/collective_blocking.rs:1188-1265 | What a rank has gathered in an isolated stage of any run is a permutation of all contributions |
| `RoundResults.ReduceScatterIsReduceThenScatter` | common/src/runtime/collective_blocking.rs:1188-1265 | For any counts and any arrival orders the ranks' reduce-scatter results end to end are the vector reduce computes (MPI 3.1 section 5.10) |
| `RoundResults.ReduceScatterInEveryRun` | common/src/runtime/collective_blocking.rs:1188-1265 | In every run in which all ranks are past an isolated reduce-scatter stage, their results end to end are the sum vector of that stage's contributions |
| `RoundResults.ReduceScatterBlockDropsTail` | common/src/runtime/collective_blocking.rs:1114-1184 | The block variant agrees with uniform counts and drops exactly the last elemcount mod size bytes |
| `Displacements.SegmentsTile` | common/src/runtime/collective_blocking.rs:1200-1206 | Segments at prefix-sum displacements tile the vector: nothing dropped, repeated or reordered |
| `Reductions.OrderDoesNotMatter` | common/src/runtime/collective_blocking.rs:309-314 | The byte-wise sum is the same for every permutation of the blocks |
| `Reductions.AccumulatorWidthIrrelevant` | common/src/runtime/collective_blocking.rs:309-314 | A wrapping accumulator whose width is any multiple of 256 gives the same byte, so u16 and u64 agree at every size |
| `Reductions.Sum16SafeIff` | common/src/runtime/collective_blocking.rs:309-314 | A u16 accumulator never overflows, for any bytes, if and only if there are at most 257 ranks |
| `AllreduceBenchmark.RunBenchmark` | collective/src/bin/osu_allreduce.rs:39-76 | The stages the benchmark loops go through are the list whose positions the next rows give |
| `AllreduceBenchmark.BenchmarkLength` | collective/src/bin/osu_allreduce.rs:39-76 | The list begins with the barrier 0xBEEFCAFE and has 2 (skip + iterations) + 4 stages for each message size behind it |
| `AllreduceBenchmark.BenchmarkAt` | collective/src/bin/osu_allreduce.rs:51-76 | For every message size and every iteration, warmup or timed, the tag of the collective and then the barrier at their positions, and behind the iterations the four tags of the timing reductions |
| `AllreduceBenchmark.BenchmarkAlternates` | collective/src/bin/osu_allreduce.rs:51-67 | No two neighbouring stages of the benchmark share a tag, for any numbers of sizes and iterations |
| `AllreduceBenchmark.BenchmarkAllreduceExact` | collective/src/bin/osu_allreduce.rs:51-67 | In every schedule of the benchmark no state is stuck and each allreduce that has returned at any rank summed exactly that iteration's contributions, modulo 256 |
| `AllreduceBenchmark.EveryIterationExact` | collective/src/bin/osu_allreduce.rs:51-67 | At each of those positions is an allreduce, and in every schedule whoever has returned from it summed exactly that iteration's contributions |
| `OobAllgather.TagNamesSender` | common/src/runtime/ucc_oob.rs:235-256 | A receive posted for peer p can match only p's message of the current round: the tag identifies the sender |
| `OobGuarantees.RoundsAreExact` | common/src/runtime/ucc_oob.rs:231-302 | Over any number of back-to-back rounds without a barrier, slot p of rank r's round-k result is rank p's round-k input |
| `OobGuarantees.SkewAtMostOne` | common/src/runtime/ucc_oob.rs:231-302 | Ranks never differ by more than one completed round |
| `OobGuarantees.NeverStuck` | common/src/runtime/ucc_oob.rs:231-302 | No reachable state is stuck even if a send completes only once a posted receive has matched it |
| `OobGuarantees.NothingLeftBehind` | common/src/runtime/ucc_oob.rs:231-302 | When all rounds are done every channel is empty |
| `OobGuarantees.RunLength` | common/src/runtime/ucc_oob.rs:231-302 | Every run has as many events as its state shows, and a complete one exactly 5 (n - 1) + 1 per rank and round |
| `RootDirected.UccOobAllgather` | common/src/runtime/ucc_oob.rs:159-315 | Status, calls, messages and buffer of the callback: success with no effect for an empty or null request, failure with no effect without a worker, failure with the own block in place and only the calls made so far after a refused receive or send, else every block in its place and the post-first calls |
| `StageMessages.OobInRun` | common/src/runtime/ucc_oob.rs:231-302 | With the messages of round k in any run, what the callback lays end to end is all ranks' round-k sources in rank order |
| `RootStream.CallsTakeMessages` | common/src/runtime/collective_blocking.rs:224-263 | With a fixed root, no barrier and the root arbitrarily far ahead, a receiver's k-th call delivers the payload of the k-th round in which the root did not skip it, which is round k if it has skipped none up to there |
| `RootStream.RoundsAreExactIff` | common/src/runtime/collective_blocking.rs:465-514 | Every completed call of every schedule delivers its own round if and only if nothing is sent to the receiver after it has been skipped; the same of the contents alone where a skipped payload differs from those sent later |
| `RootStream.SkippedTakesLater` | common/src/runtime/collective_blocking.rs:484-498 | Otherwise there is a schedule in which a call of a skipped round returns the payload of a later one |
| `RootStream.DeadlockFreeIff` | common/src/runtime/collective_blocking.rs:465-514 | No schedule of root-directed rounds gets stuck if and only if the root skips no chunk |
| `RootStream.BroadcastStream` | common/src/runtime/collective_blocking.rs:224-263 | Broadcast rounds of any lengths never get stuck and deliver the k-th payload k-th |
| `RootStream.ScatterStream` | common/src/runtime/collective_blocking.rs:484-498 | Scatter rounds are deadlock free in every schedule if and only if every round's send buffer holds the chunk of the highest receiving rank |
| `RootStream.ScatterExactIff` | common/src/runtime/collective_blocking.rs:484-510 | Every completed scatter call of rank r delivers r's chunk of its own round's buffer, in every schedule, if and only if no buffer that holds the chunk follows one that is too short for it |
| `RootStream.NothingLeftBehind` | common/src/runtime/collective_blocking.rs:224-263 | When all ranks are done every channel carried one message per round and is empty |
| `RootDirected.Bcast` | common/src/runtime/collective_blocking.rs:224-263 | The root sends its buffer to every peer in rank order and copies it; a receiver's buffer is the message in front of what it held |
| `RootDirected.Scatter` | common/src/runtime/collective_blocking.rs:465-514 | The root's buffer begins with its own chunk where that is inside the send buffer and fits, a receiver's with the message, each in front of what the buffer held |
| `RootDirected.ChunksReach` | common/src/runtime/collective_blocking.rs:487-498 | A peer other than the root is addressed if and only if its chunk is inside the send buffer, once, with that chunk, in rank order |
| `RootDirected.ChunkCallAt` | common/src/runtime/collective_blocking.rs:484-498 | The root's calls are one send for each of these messages, in the same order |
| `RootDirected.ScatteredTile` | common/src/runtime/collective_blocking.rs:465-514 | If the buffer holds one chunk per rank, the chunks end to end are the buffer |
| `RootResults.BcastInRun` | common/src/runtime/collective_blocking.rs:224-263 | In every run call k of a receiver leaves the root's round-k payload in front of its buffer and nothing else changed |
| `RootResults.ScatterMessages` | common/src/runtime/collective_blocking.rs:484-498 | The messages of the root's round-k call are those of round k of the state machine |
| `RootResults.ScatterInRun` | common/src/runtime/collective_blocking.rs:484-510 | If no buffer that holds r's chunk follows one too short for it, call k of r leaves bytes r w to r w + w of the root's round-k buffer in front of its own, in every run |
| `NonBlockingRequests.OsURequest.Test` | common/src/runtime/non_blocking.rs:37-65 | Takes exactly the finished requests, remaining always equals the number outstanding and never underflows, true if and only if none is left, and true again ever after |
| `NonBlockingRequests.OsURequest.Wait` | common/src/runtime/non_blocking.rs:69-71 | Returns at the first poll by which every outstanding request has been reported finished, and not earlier |
| `NonBlockingRequests.IBarrier` | common/src/runtime/non_blocking.rs:79-131 | For each peer one message with the low byte of the rank, then a posted receive per peer; size - 1 outstanding, one for every rank but its own, and a null worker on a single rank |
| `NonBlockingRequests.PostExchange` | common/src/runtime/non_blocking.rs:524-579 | The same for any all-to-all method: one outstanding request per peer, none for the rank itself |
| `NonBlockingRequests.IBcast` | common/src/runtime/non_blocking.rs:201-261 | The root has sent its buffer to every peer in rank order and has no request outstanding, a receiver has one and has sent nothing |
| `NonBlockingRequests.IScatter` | common/src/runtime/non_blocking.rs:383-450 | The same, the root sending each peer its chunk and skipping those outside the send buffer |
| `NonBlockingRequests.PostToRoot` | common/src/runtime/non_blocking.rs:454-520 | The root has one outstanding request per peer; a sender has none and a null worker |
| `NonBlockingRequests.SlotsOutstanding` | common/src/runtime/non_blocking.rs:107-124 | The request list of an all-to-all method has an entry for every rank and all but its own outstanding |
| `Ring.PrevIsPredecessorIff` | common/src/runtime/collective_blocking.rs:875-878 | prev is the predecessor for every rank but 0 at every size, and for rank 0 if and only if the size divides 2^64 |
| `Ring.DividesIffPowerOfTwo` | common/src/runtime/collective_blocking.rs:875-878 | A size divides 2^64 if and only if it is a power of two of at most 2^64 |
| `Ring.TwoSendersEach` | common/src/runtime/collective_blocking.rs:875-888 | On a size that divides 2^64 prev and next are mutually inverse, and a rank is the target of its successor's first send and its predecessor's second send only |
| `Ring.OneSenderEach` | common/src/runtime/non_blocking.rs:1060-1069 | The non-blocking ring sends each rank exactly one message per round at every size of at least two |
| `ExchangeGuarantees.DeadlockFreeIffFed` | common/src/runtime/collective_blocking.rs:863-907 | Repeated exchanges in which every rank receives d messages from anyone and no send is skipped never get stuck, in any schedule, if and only if every rank is the target of at least d sends per round |
| `ExchangeGuarantees.DeadlockFreeIffExact` | common/src/runtime/collective_blocking.rs:993-1001 | Where sends may be skipped, differently in every round, but no rank is ever sent more than d messages in a round: never stuck if and only if no rank is ever sent fewer |
| `Exchange.RunsAreFinite` | common/src/runtime/collective_blocking.rs:863-907 | A bound on the length of every run |
| `RingRounds.RightRing` | common/src/runtime/collective_blocking.rs:875-888 | Exactly two blocking sends per round target each rank when the size divides 2^64 |
| `RingRounds.BlockingRingIff` | common/src/runtime/collective_blocking.rs:863-907 | Back-to-back blocking neighbour rounds are deadlock free in every schedule if and only if the size divides 2^64 |
| `RingRounds.BlockingRingLeavesNothing` | common/src/runtime/collective_blocking.rs:863-907 | On such a size every message sent has been matched when all ranks are done |
| `RingRounds.NonBlockingRing` | common/src/runtime/non_blocking.rs:1060-1135 | Non-blocking neighbour rounds never get stuck and leave nothing behind at every size |
| `RingRounds.AlltoallRingIff` | common/src/runtime/collective_blocking.rs:993-1001 | neighbor_alltoall rounds, with send buffers that may differ by round and rank, are deadlock free if and only if the size divides 2^64 and the second piece's offset is inside every send buffer |
| `SeparatedRounds.RoundsAreExact` | common/src/runtime/collective_blocking.rs:883-906 | With a barrier between rounds, represented by its guarantee, every completed round of every schedule received exactly one message of each edge into the rank, sent in that round |
| `SeparatedRounds.SeparatedNeverStuck` | common/src/runtime/collective_blocking.rs:883-906 | The barrier adds no deadlock where every rank is sent exactly what it receives |
| `RingRounds.NeighborRoundsAreExact` | common/src/runtime/collective_blocking.rs:863-907 | On a size that divides 2^64, with a barrier between rounds, round k of every schedule delivers as a multiset exactly the round-k blocks of next and prev meant for the rank |
| `RingRounds.AllgatherRoundsAreExact` | common/src/runtime/collective_blocking.rs:863-907 | For neighbor_allgather these are the first w bytes of next's and of prev's send buffer of that round |
| `RingRounds.AlltoallRoundsAreExact` | common/src/runtime/collective_blocking.rs:972-1019 | For neighbor_alltoall with both pieces inside every buffer, next's first w bytes and prev's next w, cut off at the end |
| `RingRounds.SeparatedRingNeverStuck` | common/src/runtime/collective_blocking.rs:863-907 | Barrier-separated neighbour rounds on such a size never get stuck |
| `BarrieredRounds.Projects` | common/src/runtime/collective_blocking.rs:24-61 | Exchange rounds interleaved with the calls and messages of the barriers between them are runs of barriers and runs of separated rounds: the barrier's own messages give the guarantee |
| `BarrieredRounds.BarrieredRoundsAreExact` | common/src/runtime/collective_blocking.rs:883-906 | So in every such run every completed round received exactly one message of each edge into the rank, sent in that round |
| `BarrieredRounds.BarrieredRingIsExact` | common/src/runtime/collective_blocking.rs:863-907 | And on a size that divides 2^64 neighbour rounds with real barriers in between deliver exactly the round's blocks of next and prev, in every schedule |
| `BarrieredRounds.BarrieredAllgatherIsExact` | collective/src/bin/osu_neighbor_allgather.rs:51-68 | The same for neighbor_allgather with the bytes written out |
| `BarrieredRounds.BarrieredAlltoallIsExact` | collective/src/bin/osu_neighbor_alltoall.rs:44-70 | The same for neighbor_alltoall with the bytes written out |
| `BarrieredRounds.BarrieredRingNeverStuck` | common/src/runtime/collective_blocking.rs:863-907 | And exchange and barrier together never get stuck |
| `RingMixing.UnseparatedApartIff` | common/src/runtime/collective_blocking.rs:883-906 | Without the barrier, on such a size of more than two, every schedule keeps the rounds apart if and only if there is at most one |
| `WindowCalls.ServeQueue` | congestion/src/bin/osu_bw_fan_in.rs:193-224 | The parent's calls are one whole window per place of its queue, in queue order; what they are and whom they name is the next row |
| `WindowCalls.QueueTurnAt` | congestion/src/bin/osu_bw_fan_in.rs:203-223 | The calls of place i: a sending parent makes window sends to the rank at that place, waits for them and takes an acknowledgement; a receiving one posts and awaits window receives and acknowledges to the rank at that place; no other call names a rank |
| `WindowCalls.SendWindow` | congestion/src/bin/osu_bw_fan_in.rs:151-190 | A child's window: window sends to its parent, the waits in order, the wait for the acknowledgement |
| `WindowCalls.ReceiveWindow` | congestion/src/bin/osu_bw_fan_out.rs:194-226 | A receiving child's window: posts, waits in order, the acknowledgement to its parent |
| `FanPrograms.FanInParentStep` | congestion/src/bin/osu_bw_fan_in.rs:193-224 | In every fan-in run place i is acknowledged exactly when the parent's next call sends the acknowledgement to the rank at that place of its queue |
| `FanPrograms.FanInChildStep` | congestion/src/bin/osu_bw_fan_in.rs:151-190 | A child's data counter moves exactly when its next call sends to its parent, its acknowledgement counter exactly when it takes one |
| `FanPrograms.FanOutParentStep` | congestion/src/bin/osu_bw_fan_out.rs:151-192 | In every fan-out run data is sent to place i exactly when the parent's next call sends to the rank at that place, with the size of the iteration |
| `FanPrograms.FanOutTakeAck` | congestion/src/bin/osu_bw_fan_out.rs:151-192 | An acknowledgement is taken exactly at the last call of a turn, and the next place of the queue, or the next iteration, follows |
| `FanPrograms.FanOutChildStep` | congestion/src/bin/osu_bw_fan_out.rs:194-226 | Place i acknowledges exactly when the child's next call sends the acknowledgement to its parent |
| `FanInGuarantees.InFlightBound` | congestion/src/bin/osu_bw_fan_in.rs:162-223 | At every reachable state at most children times window data messages are in flight, although an acknowledgement may be earned by another child's data |
| `FanInGuarantees.NeverStuck` | congestion/src/bin/osu_bw_fan_in.rs:162-223 | No reachable state is stuck, for eager and rendezvous sends and any window |
| `FanInGuarantees.Conservation` | congestion/src/bin/osu_bw_fan_in.rs:162-223 | After T iterations exactly children times T times window messages were sent, all were consumed, and all acknowledgements were taken |
| `FanInGuarantees.RunLength` | congestion/src/bin/osu_bw_fan_in.rs:162-223 | Every run has as many events as its state shows, and a complete one exactly 5 * window + 2 per child and iteration |
| `FanOutGuarantees.MatchesCurrentSize` | pt2pt/src/bin/osu_bw.rs:55-102 | Every receive of every child matches a message of the size of the iteration the child is in, across the whole size list without a barrier; osu_bw with two ranks is the case of one child |
| `FanOutGuarantees.InFlightBound` | congestion/src/bin/osu_bw_fan_out.rs:162-225 | For any window only the child being served has data in flight, and at most one window |
| `FanOutGuarantees.AckFromServedIff` | congestion/src/bin/osu_bw_fan_out.rs:181-188 | The parent's acknowledgement comes from the child just served in every schedule if and only if the window is not empty, or there is one child or no iteration |
| `FanOutGuarantees.NeverStuck` | congestion/src/bin/osu_bw_fan_out.rs:162-225 | No reachable state is stuck, for eager and rendezvous sends and any window |
| `FanOutGuarantees.Conservation` | congestion/src/bin/osu_bw_fan_out.rs:162-225 | For any window, when all is done each child was sent exactly its windows, matched all of them, and each acknowledgement was taken |
| `FanOutGuarantees.RunLength` | congestion/src/bin/osu_bw_fan_out.rs:162-225 | Every run has as many events as its state shows, and a complete one exactly 5 * window + 2 per child and iteration |
| `BiBandwidth.BibwIteration` | pt2pt/src/bin/osu_bibw.rs:111-157 | The calls of one iteration: post a window, send a window, wait for the sends, wait for the receives |
| `BiBandwidthGuarantees.WindowsStayAligned` | pt2pt/src/bin/osu_bibw.rs:53-88 | For any window at most two windows are in flight per direction and every match is of the matching rank's current size; with a non-empty window iteration counts differ by at most one |
| `BiBandwidthGuarantees.AlignedIff` | pt2pt/src/bin/osu_bibw.rs:53-88 | Iteration counts differ by at most one in every schedule if and only if the window is not empty or there is at most one iteration; the witness is a rank that goes through two iterations alone |
| `BiBandwidthGuarantees.NeverStuck` | pt2pt/src/bin/osu_bibw.rs:111-157 | No reachable state is stuck, for eager and rendezvous sends and any window |
| `BiBandwidthGuarantees.Conservation` | pt2pt/src/bin/osu_bibw.rs:111-157 | When both ranks are done each has sent exactly its windows of every size and the other has matched them all |
| `BiBandwidthGuarantees.RunLength` | pt2pt/src/bin/osu_bibw.rs:111-157 | Every run has as many events as its state shows, and a complete one exactly 5 * window + 1 per rank and iteration |
| `HostOrder.SortedRanks` | congestion/src/fan_util.rs:93-98 | The sorted list holds every rank once, by name and for equal names by rank |
| `HostOrder.FirstDifference` | congestion/src/fan_util.rs:96-97 | Names are ordered lexicographically: the first different character decides, and a proper prefix is less |
| `HostOrder.StableSortUnique` | congestion/src/fan_util.rs:93-98 | Any list of the ranks in that order is the same list, so the library's sorting algorithm does not matter |
| `FanInit.AssignNodes` | congestion/src/fan_util.rs:91-129 | The grouping loop succeeds if and only if all hosts but the last in name order have equally many ranks; then a rank's node id is one more than the number of smaller host names, its local rank the number of smaller ranks on its host; else it reports two different group sizes |
| `FanInit.DiscoverTopology` | congestion/src/fan_util.rs:48-218 | How discovery ends at each rank: too few processes; unequal groups, where rank 0 exits and the others wait for its broadcast; words of another size than four bytes, where rank 0 panics and the others wait; else each rank's view of the maps, rewritten for a single node |
| `MapEncoding.EncodeMap` | congestion/src/fan_util.rs:151-161 | The maps are copied word by word to four-byte places, which fails unless a word has four bytes |
| `MapEncoding.DecodedEncoded` | congestion/src/fan_util.rs:151-168 | Entries below 2^32 come back as they were sent |
| `FanInit.SimulateTwoNodes` | congestion/src/fan_util.rs:131-147 | On a single node rank 0 becomes the only rank of node 1 and every other rank a leader of node 2 |
| `FanTopology.SameHostSameNode` | congestion/src/fan_util.rs:105-126 | Two ranks share a node id if and only if they share a host name, and node ids follow the name order |
| `FanTopology.NodeLocalInjective` | congestion/src/fan_util.rs:122-125 | Local ranks on a node follow rank order, so no two ranks share node and local rank |
| `FanQueues.NodeIdsExact` | congestion/src/fan_util.rs:105-126 | The node ids in use are exactly 1 to the number of nodes |
| `FanQueues.LocalRanksContiguous` | congestion/src/fan_util.rs:105-126 | Every smaller local rank on a node is taken by a rank not larger |
| `FanQueues.UniqueLeader` | congestion/src/fan_util.rs:105-126 | Every node has exactly one rank with local rank 0 |
| `FanQueues.SamePpnIff` | congestion/src/fan_util.rs:106-118 | Equal ppn on all nodes, which the validation announces, is what it checks plus the comparison of the last group it never makes |
| `FanQueues.LastGroupUnchecked` | congestion/src/fan_util.rs:106-118 | Two ranks on one host and one on the last host pass the validation |
| `FanQueues.PassingGroups` | congestion/src/fan_util.rs:106-128 | In a run that passes, every node but the last has exactly ppn ranks |
| `FanQueues.QueuesDual` | congestion/src/fan_util.rs:194-210 | Every rank off the parent node addresses the one leader of the parent node, never the fallback; the parent queue lists each other node's leader once and nobody else, total_nodes - 1 of them, or size - 1 in the simulated case |
| `FanQueues.EveryChildServed` | congestion/src/fan_util.rs:199-210 | With one process per node, or on a single node, the parent leader serves exactly all other ranks, and they address it |
| `FanQueues.EveryChildServedIff` | congestion/src/fan_util.rs:199-210 | On several nodes every rank that addresses the parent leader is in its queue if and only if every node but the parent's has one process |
| `Atomics.DoGetAcc` | onesided/src/bin/osu_get_acc_latency.rs:117-184 | The remote word ends at its old value plus all little-endian words of the buffer modulo 2^64; the compare buffer holds, chunk by chunk, the remote word as it was before that chunk, cut off in the tail; nothing else changes |
| `Atomics.DoAccumulate` | onesided/src/bin/osu_acc_latency.rs:114-153 | The same final remote word, for every buffer length |
| `Atomics.DoFop` | onesided/src/bin/osu_fop_latency.rs:115-169 | The same final remote word, for every buffer length |
| `Chunks.RepliesRecoverData` | onesided/src/bin/osu_get_acc_latency.rs:148-161 | Reply differences recover the bytes sent, for every full chunk followed by a full reply or by the final word |
| `Chunks.AnyOrderSameTotal` | onesided/src/bin/osu_acc_latency.rs:133-151 | Additions taking effect in any order give the same final word |
| `Atomics.DoCas` | onesided/src/bin/osu_cas_latency.rs:124-171 | The remote word ends as the chain of compare-and-swaps over the chunk pairs leaves it, for all lengths the code accepts |
| `Atomics.ShortSwap` | onesided/src/bin/osu_cas_latency.rs:132-145 | No swap for an empty replacement; one of the padded values for one of up to eight bytes |
| `Atomics.LongSwap` | onesided/src/bin/osu_cas_latency.rs:146-158 | For a longer one, of any lengths, the swaps of the full chunks both buffers have, and one more if either has a remainder |
| `Atomics.LastSwap` | onesided/src/bin/osu_cas_latency.rs:160-171 | That one is of the remainders of both buffers |
| `Atomics.SwapsAreWords` | onesided/src/bin/osu_cas_latency.rs:136-170 | For buffers of equal length the chain is over their padded words, so the short branch is the general one |
| `Atomics.UniformChain` | onesided/src/bin/osu_cas_latency.rs:152-157 | If all chunks expect the same value the word changes at most once, from that value to the first replacement that differs from it |
| `Atomics.SecondCallNoOp` | onesided/src/bin/osu_cas_latency.rs:78-82 | With such a comparison buffer a repeated call changes nothing |
| `Atomics.BenchmarkExpectsZero` | onesided/src/bin/osu_cas_latency.rs:62-68 | The benchmark's comparison buffer is of that kind |
| `Atomics.ChainResult` | onesided/src/bin/osu_cas_latency.rs:152-157 | The final word is the old one or some replacement, and the old one if no chunk expects it |
| `LittleEndian.RoundTripBytes` | onesided/src/bin/osu_get_acc_latency.rs:150-151 | Reading and writing little-endian bytes are inverse |
| `LittleEndian.HighByte` | onesided/src/bin/osu_get_acc_latency.rs:150-151 | A further byte at the end counts 256 to the power of its position: the least significant byte comes first |
| `MessageSizes.MessageSizeList` | common/src/cli.rs:295-309 | The list is the values of the growth rule up to the first above the maximum, and overflow is reported if that one leaves the 64-bit range |
| `MessageSizes.NextSize` | common/src/cli.rs:297-307 | The growth rule: from 0 to 1, times the increment up to 8192, plus the increment above |
| `MessageSizes.EndsIff` | common/src/cli.rs:297-307 | The loop ends if and only if min > max, or incr >= 2, or incr = 1 and min is above the cutoff, or max = 0 |
| `MessageSizes.Increasing` | common/src/cli.rs:297-307 | For an increment of at least two the list is strictly increasing and within [min, max] |
| `MessageSizes.ClosedForm` | common/src/cli.rs:299-306 | From a minimum of at least one: powers of the increment up to and including the first value above the cutoff, then an arithmetic progression |
| `MessageSizes.ZeroStart` | common/src/cli.rs:299-301 | A zero minimum contributes itself and then the closed form from one |
| `MessageSizes.LengthBound` | common/src/cli.rs:297-307 | From a minimum of at least one: at most 14 geometric steps, and exactly one linear step per increment of the remaining distance |
| `MessageSizes.ZeroLengthBound` | common/src/cli.rs:299-301 | From a zero minimum: one more than the list from one, with the same bound |

## Left out

- Process bootstrap, endpoints, key exchange, teardown and the UCC library path: calls into code outside the repository.
- OpenSHMEM branches: the flag that selects them is never set in the paths modelled.
- Floating-point reductions, timing, printing and argument parsing: no protocol content (the tags of the timing reductions are in the benchmark's stage list).
- Slot-exact results of source-anonymous `allgather`, `alltoall` and `gather` with three or more ranks, and variable counts under arbitrary arrival order: the code does not enforce them, so only the multiset of arrivals is stated. In particular the host names `fan_init` groups are taken as rank 0 finds them.
- `gather`, `gatherv` and `scatterv` bodies: they repeat the loops of `reduce` and `scatter`.
- Payload placement in the non-blocking collectives: their receive buffers are temporaries that are never copied out.
- Fan-in with several ranks on the parent node and `osu_bw` with more than two ranks: other benchmark rules apply there (several parents answer one queue, or ranks leave before the barrier).
- Truncation errors of the transport: no message is longer than the buffer posted for it.
- Several origins updating one remote word at the same time, and reordering of compare-and-swaps in flight: one origin, operations in issue order (for additions any order is proved equal).
- VectorRounds.DeadlockFreeIffNoneSkipped: rounds with skipped pieces have sends that wait for nobody; with rendezvous sends the post-first state machine covers the rounds in which every piece is sent.
- VectorCollectives.Allgatherv: requires a send buffer of exactly the rank's count where its own block fits the receive buffer, because the code's slice copy demands it there.
- MessageSizes.MessageSizeList: an overflow is reported as it is in a checked build; the wrapped values of an unchecked build are not followed. Its arguments must be ones for which the loop ends.
- NonBlockingRequests.OsURequest.Wait: the polls are an input in which every outstanding request is eventually reported, because `check_finished` is answered by the transport.
- The variable-count neighbour methods: they differ from those modelled in where blocks are cut and placed.
- Exchange: channels are per edge, so two sends of a rank to one and the same neighbour may match in either order.
