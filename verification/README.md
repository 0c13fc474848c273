# In-network averaging over QUIC streams: a Dafny model

Participants form a tree: a consumer at the root, aggregators inside, producers at the leaves. The
consumer asks for a vector of 64-bit words, the request travels down, every producer cuts the vector
it draws into chunks of `k` words, and every inner node adds up its children's chunks, divides by
their number, and sends the result up, round after round. Below that protocol lie a frame format, a
ring buffer per socket and two receive loops that peek at lengths; beside it, in the QUIC glue, lie an
alarm engine, two congestion controllers and a packet tag. This project models these parts and proves
what they promise.

## How it is laid out

* `Arithmetic` and `Bytes` hold what the others share.
* `CircularBuffer` (module `Ring`), `Codec`, `VectorOp`, `Node` and `SimpleMPI` (module
  `Mpi`) follow the source files. Programs that work in place are methods on arrays and classes, each
  proved equal to a function of the old state. `Reassembly` is the way of one vector through splitting,
  bytes and the chunk table, `Gathering` a whole round of one node with its children's chunks in any order.
* `Network` is the tree on links of frames, with a recursive reference average. `Lockstep` proves the
  invariant of every step. `Stream` and `ByteNetwork` put the same tree on byte streams that arrive in
  arbitrary segments and are polled at arbitrary times, and prove that bytes refine frames. `Wiring`
  proves that what the class of `SimpleMPI` sends is what the network puts on its links, `Polls` that its
  receive loop and a poll of the network do the same.
* `Guarantees`, `Buffers`, `Overflow` and `Rounding` draw the conclusions: what a finished round
  computed, why the assertions of the receive path cannot fail and exactly when one can, and how far
  integer averages are from exact ones.
* `Alarms` is the alarm engine with a history of registrations and calls; `AlarmInvariant` is what every
  event keeps, `AlarmGuarantees` what follows for runs, `AlarmProgress` to what the timer is set and that
  every alarm that waits can be called, `AlarmEngine` the class.
* `Vegas`, `Copa` and `Tag` each hold the functions, the class and the theorems about runs. `VegasEpochs`
  tells the state of an epoch from the history of events, `VegasWindow` and `CopaWindow` say what feedback
  does to the window, by products and without the functions that compute it; `CopaVelocity` is what becomes of Copa's velocity, `CopaFeedback` which feedback a sender can receive,
  `CopaCongestion` a run in which it freezes, `CopaMoves` when it can still move, and `Segments` holds the
  sizes both senders count in.

Runs are sequences of states in which each follows from the one before by something that can happen:
any interleaving of segment arrivals and polls in the network, any order of timer events and requests
of alarm owners in the alarm engine, any feedback in the senders, or any that they can receive. Every theorem about runs is
about all of them and about every state in them.

## What turned out

* Every average that any node declares complete is the recursive average of its subtree, whatever the
  order of arrivals and polls (`Guarantees.RoundsComputeTreeAverages`). One node computes the average even
  if the chunks of a child overtake each other (`Gathering.RoundInAnyOrder`), but would
  not if one came twice (`Gathering.RepeatedFrameSpoils`), which no link here does.
* There is no deadlock: with responses that fit the ring, nothing can happen any more exactly when every
  round of every node is finished (`Buffers.StillIffFinished`).
* The assertion in `CircularBuffer::write` can fail in some run exactly when one response is longer than
  the ring, 10240 bytes (`Overflow.OverflowIff`); the two-byte peek never straddles the end of the ring
  because frames of each direction are multiples of 2 or of 5 bytes long (`Buffers.NoPassCanFail`).
* A node's result is the true quotient exactly when its 64-bit sum does not overflow
  (`Rounding.AverageIsTrueQuotientIff`). With what producers draw, at most 0x7FFFFFFF7FFFFFFF, it cannot in
  a tree in which nobody has more than two children; when all draw that much, it does in every other tree
  (`Rounding.LargestDrawsOverflowIff`), and three producers suffice (`Rounding.OverflowExample`).
* A short last chunk makes `CreatResponseV` read one element past the vector
  (`Codec.ChunkStaysInsideIff`), so vectors whose length is not a multiple of `k` are not claimed.
* `ReregisterAlarm` passes its assertions exactly when another alarm is pending and the new time is not
  past (`AlarmGuarantees.ClientPassesIff`); so the owner of the only pending alarm cannot move it
  (`AlarmGuarantees.SoleAlarmCannotMove`).
* The timer never gets stuck: it can go off with nothing due, after a cancellation, but is then set exactly
  to the first deadline, so that the alarm behind j others is called after at most j + 2 firings
  (`AlarmProgress.PendingIsCalled`).
* An alarm that makes the engine call it again at once, by returning a time that is already due, leaves the
  index in agreement exactly when it is not registered at that moment (`AlarmInvariant.RepeatKeepsIff`). One
  that has set itself again breaks it (`AlarmGuarantees.SelfSetterBreaksIndex`). The interface allows that;
  the only alarms in the repository always return 0.
* The tag is read back faithfully exactly when both fields lie strictly between 0 and 2^63
  (`Tag.TagIsFaithfulIff`).
* Copa's velocity doubles per round trip as it should exactly below 66 round trips in one direction; from
  then on the 64-bit velocity is zero (`CopaVelocity.VelocityLawIff`), and the window never moves again,
  whatever the path does (`CopaVelocity.StuckAtZero`). A sender that starts with four segments gets there in
  less than one and a half seconds, on a path whose round trip grows from 10 to 21 milliseconds and stays
  there, with feedback it can receive (`CopaCongestion.CongestionFreezes`). It can still move its window
  exactly when the counter is at most 64, or is 65 and feedback that asks for growth can come before the
  next record is due (`CopaMoves.MovesIff`); a counter of 65 with a record due freezes it
  (`CopaVelocity.FreezesIff`).

## Assumptions

Numbers have the width the program gives them wherever that matters: 8-bit chunk counts and loop
counters, 16-bit sizes, offsets and round counters, 64-bit elements, products and windows. A tree is
given by the parent of each node, numbered after it; every finite tree can be numbered so. The chunk
size satisfies `0 < k <= 254`, because a frame of `14 + 8k` bytes is built in a 2048-byte buffer (`k` is
100 in the program); the fan-out is at most 255; the vector length is a multiple of `k` with at most
255 chunks. Random draws are a parameter; where their size matters `rand` answers with 31 bits. In the
network states, `asked`, `handled`, `answered` and `results`, and in the alarm engine's `World` everything
but `engine` and `batch`, are history that no step looks at.

Feedback a Copa sender can receive (`CopaFeedback.Receivable`) reports packets after they were sent and each
of them once, in order of time. A sample is positive and no longer than an acknowledged packet has been
under way; the smoothed round-trip time is the average of seven eighths of the old one and one eighth of the
sample to within a microsecond, and without a sample both stay. Each filter answers with the smallest of the
latest round-trip times of its window: ten seconds for one, half a smoothed round trip for the other.

## Model

| member | source | states |
|---|---|---|
| Ring.CircularBuffer.constructor | quic/model/circularbuffer.cc:19-31 | a new ring is empty and holds 10240 bytes |
| Ring.CircularBuffer.Write | quic/model/circularbuffer.cc:39-59 | bytes that fit are queued behind the others, also around the end, and the write position stays (read position + size) mod capacity |
| Ring.CircularBuffer.Read | quic/model/circularbuffer.cc:62-79 | the oldest bytes come out in order, as many as wanted or as there are; the rest of the destination is untouched |
| Ring.CircularBuffer.GetSize | quic/model/circularbuffer.cc:81-84 | the number of queued bytes |
| Ring.CircularBuffer.GetHeadUint16 | quic/model/circularbuffer.cc:91-98 | away from the end of the ring, the little-endian value of the first two queued bytes |
| Ring.CopyAround | quic/model/circularbuffer.cc:45-54 | the two copies of a write lay the bytes over the ring from the write position on |
| Ring.CopyOut | quic/model/circularbuffer.cc:68-76 | the two copies of a read deliver the window at the read position |
| Ring.WindowGrows | quic/model/circularbuffer.cc:39-59 | writing behind the queued bytes leaves them as they are and appends the new ones, wherever the ring wraps |
| Ring.WindowShrinks | quic/model/circularbuffer.cc:62-79 | the bytes read and the bytes left are the two halves of what was queued |
| Ring.WrapIsMod | quic/model/circularbuffer.cc:55-75 | both ways in which the program reduces a position agree with the remainder |
| Codec.WriteHead | innetwork-train/utils/utils.cc:45-55 | length, key with colon, and offset, and nothing else in the buffer |
| Codec.CreateRequestV | innetwork-train/utils/utils.cc:44-60 | the buffer starts with the request packet and is otherwise unchanged |
| Codec.CreatResponseV | innetwork-train/utils/utils.cc:62-89 | the buffer starts with the packet of the k words at the offset and is otherwise unchanged |
| Codec.WriteWords | innetwork-train/utils/utils.cc:83-86 | the value loop lays down the words little-endian, one after the other |
| Codec.ChunkStaysInsideIff | innetwork-train/utils/utils.cc:68-72 | the last index is inside the vector if and only if the chunk is whole; a short one has one element too many |
| Codec.PraseHeader | innetwork-train/utils/utils.cc:5-24 | length, key up to the first colon within the frame, offset, and where the payload starts |
| Codec.PraseVector | innetwork-train/utils/utils.cc:26-36 | element i is the word at byte 8i, the rest of the vector is kept |
| Codec.PraseInt16 | innetwork-train/utils/utils.cc:38-42 | the two bytes as a little-endian number |
| Codec.KeyLengthIs | innetwork-train/utils/utils.cc:11-17 | the search for the colon stops exactly behind a key that holds none |
| Codec.PacketParses | innetwork-train/utils/utils.cc:5-24 | the header parser inverts the writer, whatever follows the packet |
| Codec.WordsParse | innetwork-train/utils/utils.cc:26-36 | reading word by word inverts writing word by word |
| Codec.DecodeWire | innetwork-train/utils/utils.cc:5-89 | decoding inverts encoding for every frame the format can represent |
| Codec.HeadIsLength | innetwork-train/model/simple-MPI/simpleMPI.cc:88-99 | the first two bytes of a stream of frames are the length of its first frame |
| Codec.WireInjective | innetwork-train/utils/utils.cc:44-89 | two frames with the same bytes are the same frame |
| Codec.RequestLayout | innetwork-train/utils/utils.cc:44-60 | the fifteen bytes of a request: length, REQUESTV and a colon, offset 0, size, each number from its least significant byte on |
| Codec.ResponseLayout | innetwork-train/utils/utils.cc:62-89 | the bytes of a response: length, RESPONSEV and a colon, offset, and byte b of word i at 14 + 8i + b |
| Bytes.LeRoundTrip | innetwork-train/utils/utils.cc:8-42 | a number that fits survives being stored and loaded as n bytes |
| Bytes.LeDigit | innetwork-train/utils/utils.cc:44-89 | byte i of a stored number is its digit i in base 256, the least significant first |
| VectorOp.SumVector | innetwork-train/utils/vectorop.cc:5-11 | element-wise sum modulo 2^64 of the first size mod 256 elements; the others stay |
| VectorOp.AvgVector | innetwork-train/utils/vectorop.cc:13-17 | every element divided by the count |
| Node.AvgEndCases | innetwork-train/model/simple-MPI/simpleMPI.cc:304-365 | a round ends exactly when the table is complete; then the table is written out, answered upwards and cleared, and the next request or a stop follows, except that a 16-bit round counter that wraps to zero answers and clears nothing |
| Node.SplitFrameLength | innetwork-train/utils/utils.cc:62-89 | every frame of a vector is 14 + 8k bytes long |
| Reassembly.BumpedOnce | innetwork-train/model/simple-MPI/simpleMPI.cc:153-168 | an entry that one of several frames goes to is added to, counted and divided once, whatever other frames come before and after |
| Reassembly.RepeatedFrame | innetwork-train/model/simple-MPI/simpleMPI.cc:153-168 | in the table of a node with one child a frame that comes twice is added and counted twice |
| Reassembly.FramesGiveVectorBack | innetwork-train/model/simple-MPI/simpleMPI.cc:388-401 | the frames of a vector, taken into an empty table once each in any order, are written out as the vector |
| Reassembly.ReassembleAnyOrder | innetwork-train/model/simple-MPI/simpleMPI.cc:264-291 | so are the byte strings they are sent as, after decoding |
| Gathering.EntryHolds | innetwork-train/model/simple-MPI/simpleMPI.cc:153-168 | whatever frames have come in, an entry counts those that went to it and holds their sum modulo 2^64, divided once every child has been counted |
| Gathering.CountWraps | innetwork-train/model/simple-MPI/simpleMPI.cc:162-168 | whatever frames have come in, the count of an entry is the number of those that went to it modulo 256 |
| Gathering.NotYet | innetwork-train/model/simple-MPI/simpleMPI.cc:348-357 | while one frame of a round is missing the completeness test fails |
| Gathering.RoundInAnyOrder | innetwork-train/model/simple-MPI/simpleMPI.cc:137-174 | with the chunks of all children in any order and interleaving, every frame but the last only fills the table, and the last closes the round with the average of the children's vectors, hands it up and asks for the next or stops; a round counter that wraps to zero writes, answers and clears nothing |
| Gathering.RoundCloses | innetwork-train/model/simple-MPI/simpleMPI.cc:304-365 | after such a round the node has the average, one round more on its counter, and an empty table, unless the counter has wrapped |
| Gathering.RepeatedFrameSpoils | innetwork-train/model/simple-MPI/simpleMPI.cc:137-174 | at a node with two children a block that comes twice from one of them closes the round with the average of the block with itself |
| Mpi.SimpleMPI.constructor | innetwork-train/model/simple-MPI/simpleMPI.cc:25-46 | the state SetupMPI leaves |
| Mpi.SimpleMPI.SetVSize | innetwork-train/model/simple-MPI/simpleMPI.cc:48-53 | size set, average cleared |
| Mpi.SimpleMPI.SendRequestVTo | innetwork-train/model/simple-MPI/simpleMPI.cc:221-250 | one request frame goes to one peer |
| Mpi.SimpleMPI.SendRequestVToAll | innetwork-train/model/simple-MPI/simpleMPI.cc:252-262 | every child gets the request once, in order |
| Mpi.SimpleMPI.SendChunk | innetwork-train/model/simple-MPI/simpleMPI.cc:276-283 | the frame of block i, whatever the buffer held |
| Mpi.SimpleMPI.SendResponseVTo | innetwork-train/model/simple-MPI/simpleMPI.cc:264-291 | the frames of all blocks of the vector, in order, and no more |
| Mpi.SimpleMPI.SendResponseVToP | innetwork-train/model/simple-MPI/simpleMPI.cc:293-302 | the average goes to every parent, whole |
| Mpi.SimpleMPI.ClearChunkMap | innetwork-train/model/simple-MPI/simpleMPI.cc:379-386 | every entry becomes an empty chunk; no entry goes |
| Mpi.SimpleMPI.WriteChunk2Vec | innetwork-train/model/simple-MPI/simpleMPI.cc:388-401 | the nested loops write exactly the assembled vector |
| Mpi.SimpleMPI.AVG | innetwork-train/model/simple-MPI/simpleMPI.cc:304-342 | new state, messages and stop request of the end of a round |
| Mpi.SimpleMPI.AvgEnd | innetwork-train/model/simple-MPI/simpleMPI.cc:344-365 | the loop with its break decides completeness; then AVG |
| Mpi.SimpleMPI.Accumulate | innetwork-train/model/simple-MPI/simpleMPI.cc:153-168 | chunk created if missing, vector added, counted in 8 bits, divided when all children have been counted |
| Mpi.SimpleMPI.ParseResponse | innetwork-train/model/simple-MPI/simpleMPI.cc:141-151 | offset and data of the response frame in the buffer |
| Mpi.SimpleMPI.HandleResponseV | innetwork-train/model/simple-MPI/simpleMPI.cc:137-174 | state, messages and stop request are those of the transition function on that response |
| Mpi.SimpleMPI.HandleRequestV | innetwork-train/model/simple-MPI/simpleMPI.cc:176-201 | request passed on to all children; a node without children answers with its draw |
| Mpi.SimpleMPI.Dispatch | innetwork-train/model/simple-MPI/simpleMPI.cc:106-115 | the command name selects the handler of the frame that is in the buffer; state, messages and stop request are its own |
| Mpi.SimpleMPI.TakeFrame | innetwork-train/model/simple-MPI/simpleMPI.cc:101-116 | one pass takes exactly one frame off the ring, handles it with its state, messages and stop request, and leaves the rest of the stream intact |
| Mpi.SimpleMPI.ReceiveDataFrom | innetwork-train/model/simple-MPI/simpleMPI.cc:78-123 | for any segmentation: the frames dispatched are the next ones of the stream in order, state, messages and stop request are theirs together, the loop ends, and no whole frame is left |
| Mpi.KeyOf | innetwork-train/model/simple-MPI/simpleMPI.cc:104-112 | the parsed key is the name of the frame's command |
| Stream.SendCarries | quic/model/ns3-quic-channel.cc:190-195 | what is sent is appended to what the link carries |
| Stream.ArriveKeepsBytes | quic/model/ns3-quic-channel.cc:197-205 | the arrival of a segment neither loses nor reorders bytes |
| Stream.WrapKeepsStride | quic/model/circularbuffer.cc:20-75 | read positions stay multiples of 5 or of 2, which divide the capacity |
| Stream.TakeSeesFirstFrame | innetwork-train/model/simple-MPI/simpleMPI.cc:88-106 | the peek is in bounds and sees the length of the first frame; a whole frame decodes to that frame |
| Stream.TakeCarriesRest | innetwork-train/model/simple-MPI/simpleMPI.cc:99-122 | after a pass the link carries exactly the remaining frames |
| Lockstep.InitialInv | innetwork-train/model/simple-MPI/simpleMPI.cc:25-46 | the invariant holds when every node has been set up |
| Lockstep.StartKeeps | innetwork-train/model/simple-MPI/simpleMPI.cc:304-342 | the consumer's first AVG keeps the invariant |
| Lockstep.LeafAnswers | innetwork-train/model/simple-MPI/simpleMPI.cc:176-201 | a producer answers a request with the whole vector of that round |
| Lockstep.LeafDown | innetwork-train/model/simple-MPI/simpleMPI.cc:176-201 | a producer that takes its request keeps the invariant |
| Lockstep.InnerDown | innetwork-train/model/simple-MPI/simpleMPI.cc:176-201 | an inner node that passes a request on keeps the invariant |
| Lockstep.HeadsCanBeHandled | innetwork-train/model/simple-MPI/simpleMPI.cc:150-160 | the assertions of the handlers hold for the frame at the head of any link |
| Lockstep.ChunkGains | innetwork-train/model/simple-MPI/simpleMPI.cc:162-168 | one more block turns the running sum of those delivered into the next one, divided after the last |
| Lockstep.CompleteIffAllDelivered | innetwork-train/model/simple-MPI/simpleMPI.cc:348-357 | the completeness test succeeds if and only if every child has delivered every block |
| Lockstep.AssembledIsTree | innetwork-train/model/simple-MPI/simpleMPI.cc:388-401 | what is written out of a complete table is the average of the subtree |
| Lockstep.ResponseMeaning | innetwork-train/model/simple-MPI/simpleMPI.cc:137-174 | a block only changes the table, or completes the round with the average of the subtree |
| Lockstep.UpPartKeeps | innetwork-train/model/simple-MPI/simpleMPI.cc:137-174 | a block that completes nothing keeps the invariant |
| Lockstep.UpLastKeeps | innetwork-train/model/simple-MPI/simpleMPI.cc:304-365 | the last block closes the round, clears the table, and at the consumer opens the next, keeping the invariant |
| Lockstep.StepKeeps | innetwork-train/model/simple-MPI/simpleMPI.cc:137-201 | every step of the protocol keeps the invariant: links carry nothing, one request or the rest of one response, and every table entry is the sum of what has been delivered |
| ByteNetwork.EmitRefines | innetwork-train/model/simple-MPI/simpleMPI.cc:248-302 | handing the same outputs to byte streams and to frame links keeps the two in step |
| ByteNetwork.TakeDownRefines | innetwork-train/model/simple-MPI/simpleMPI.cc:99-122 | a pass of a receive loop on the parent's socket is a frame step |
| ByteNetwork.TakeUpRefines | innetwork-train/model/simple-MPI/simpleMPI.cc:99-122 | a pass of a receive loop on a child's socket is a frame step |
| ByteNetwork.HappeningKeeps | innetwork-train/model/simple-MPI/simpleMPI.cc:78-201 | every event of the byte-level network stands for at most one frame step and keeps the invariant |
| ByteNetwork.RunIsSound | innetwork-train/model/simple-MPI/simpleMPI.cc:78-201 | every state of every byte-level run stands for a lockstep state of the frame protocol |
| Wiring.RequestsReach | innetwork-train/model/simple-MPI/simpleMPI.cc:252-262 | of all messages of a handler a child gets exactly the requests, frame after frame |
| Wiring.VectorsReach | innetwork-train/model/simple-MPI/simpleMPI.cc:264-302 | and the parent exactly the vectors, chunk after chunk |
| Wiring.SendsAreEmitted | innetwork-train/model/simple-MPI/simpleMPI.cc:221-302 | the messages of a participant, sorted by addressee, are the bytes the network model puts on the links to its children and its parent |
| Polls.PassDown | innetwork-train/model/simple-MPI/simpleMPI.cc:99-122 | one pass on the parent's socket in the network: the node's new state is that of the class, and the links gain exactly the messages of the class |
| Polls.PassUp | innetwork-train/model/simple-MPI/simpleMPI.cc:99-122 | the same of a pass on a child's socket |
| Polls.PollIsReceiveLoop | innetwork-train/model/simple-MPI/simpleMPI.cc:78-123 | n passes in the network are n turns of the loop of the class: the reader has handled the first n frames of the link one after the other, the link carries the others, and the reader's links have gained the messages of those handlers |
| Polls.PollOfRun | innetwork-train/model/simple-MPI/simpleMPI.cc:78-123 | that is what every poll in every run does |
| Guarantees.RoundsComputeTreeAverages | innetwork-train/model/simple-MPI/simpleMPI.cc:304-365 | in every run the r-th average a node declares is the recursive average of its subtree in round r, and the consumer's vector is its last one |
| Guarantees.OrderDoesNotMatter | innetwork-train/model/simple-MPI/simpleMPI.cc:125-174 | two runs agree on every round both have finished |
| Guarantees.LinksCarryOneRound | innetwork-train/model/simple-MPI/simpleMPI.cc:137-201 | in every state a link carries nothing, one request, or a suffix of one round's response |
| Guarantees.CountsStayBelowFanOut | innetwork-train/model/simple-MPI/simpleMPI.cc:163-167 | no chunk is counted more often than there are children, so the 8-bit count does not wrap |
| Guarantees.RoundsAreConserved | innetwork-train/model/simple-MPI/simpleMPI.cc:304-365 | the consumer has asked each child min(maxIteration, curIter + 1) times; an aggregator has asked as often as it was asked and answered curIter times; nobody below the consumer has asEnd set |
| Guarantees.QuietMeansFinished | innetwork-train/model/simple-MPI/simpleMPI.cc:304-365 | once no byte is under way or buffered, every inner node has finished every round |
| Buffers.BytesOnALink | innetwork-train/utils/utils.cc:44-89 | at most 15 bytes are between the ends of a link downwards and one response upwards |
| Buffers.ReceiveBufferNeverOverflows | quic/model/ns3-quic-channel.cc:197-205 | no segment can fail the write assertion when one response fits the ring |
| Buffers.NoPassCanFail | quic/model/circularbuffer.cc:91-98 | every peek in every run is in bounds, and every frame it admits passes the handlers' assertions |
| Buffers.PollEnds | innetwork-train/model/simple-MPI/simpleMPI.cc:78-123 | polling a socket is a finite number of passes, after which no whole frame is left |
| Buffers.StillIffFinished | innetwork-train/model/simple-MPI/simpleMPI.cc:78-123 | once the consumer has begun, and if a response fits the ring, no byte can arrive and no pass be made if and only if every inner node has finished every round |
| Overflow.WholeAnswer | innetwork-train/model/simple-MPI/simpleMPI.cc:195-199 | a producer that takes its request puts its whole response on the link at once |
| Overflow.Answer | innetwork-train/model/simple-MPI/simpleMPI.cc:176-201 | some run puts one whole response in flight towards an empty ring |
| Overflow.OverflowIff | quic/model/circularbuffer.cc:39-43 | some run fails the write assertion if and only if one response is longer than the ring |
| Rounding.AverageIsTrueQuotientIff | innetwork-train/model/simple-MPI/simpleMPI.cc:162-168 | a node's result is the true quotient if and only if its sum stays below 2^64 |
| Rounding.OverflowExample | innetwork-train/utils/vectorop.cc:5-17 | three producers that all draw 0x7FFFFFFF7FFFFFFF average to 0x2AAAAAAA2AAAAAA9 |
| Rounding.RoundingError | innetwork-train/utils/vectorop.cc:13-17 | without overflow the result is below the exact nested mean by less than the number of levels |
| Rounding.RoundingInIntegers | innetwork-train/utils/vectorop.cc:13-17 | the result lies between the floor of the exact nested mean and that minus (levels - 1) |
| Rounding.AverageWithinLeaves | innetwork-train/utils/vectorop.cc:5-17 | the result is never above the largest value drawn and, without overflow, never below the smallest |
| Rounding.SmallLeavesDoNotOverflow | innetwork-train/utils/vectorop.cc:5-11 | values below 2^56 never overflow |
| Rounding.NarrowTreesDoNotOverflow | innetwork-train/utils/vectorop.cc:19-29 | what producers draw cannot overflow a tree in which no node has more than two children |
| Rounding.LargestDrawsOverflowIff | innetwork-train/utils/vectorop.cc:5-29 | when all producers draw the largest number, no sum overflows if and only if no node has more than two children |
| Rounding.BalancedMean | innetwork-train/model/simple-MPI/simpleMPI.cc:162-168 | in a balanced tree the nested mean is the flat mean of all producers |
| Rounding.FlatMeanError | innetwork-train/model/simple-MPI/simpleMPI.cc:162-168 | in a balanced tree the result is between the floor of the flat mean and that minus (levels - 1) |
| Alarms.UpperBound | quic/model/ns3-quic-alarm-engine.cc:55 | a node is inserted behind every node whose key is not larger |
| Alarms.Position | quic/model/ns3-quic-alarm-engine.cc:65-66 | an iterator leads to its own node, or nowhere when the node is gone |
| Alarms.DueCount | quic/model/ns3-quic-alarm-engine.cc:110-121 | exactly the leading nodes that are due |
| AlarmInvariant.RegisterTimer | quic/model/ns3-quic-alarm-engine.cc:35-63 | registering leaves the timer armed no later than the first key, re-armed only when needed |
| AlarmInvariant.RegisterKeeps | quic/model/ns3-quic-alarm-engine.cc:35-63 | registering keeps the index, and fails no assertion unless the alarm is in the batch |
| AlarmInvariant.UnregisterKeeps | quic/model/ns3-quic-alarm-engine.cc:64-69 | cancelling keeps the index and the bound on the timer, and drops the ticket |
| AlarmInvariant.ReregisterPassesIff | quic/model/ns3-quic-alarm-engine.cc:70-90 | rescheduling passes the assertions if and only if another alarm is pending and the time is not past |
| AlarmInvariant.MoveIsLeaveAndEnter | quic/model/ns3-quic-alarm-engine.cc:70-83 | rescheduling is a removal and an insertion that keeps membership |
| AlarmInvariant.ApplyPassesIff | quic/model/ns3-quic-alarm-engine.cc:152-180 | exactly which operations are accepted, also in the middle of OnTimeout |
| AlarmInvariant.RoundsKeep | quic/model/ns3-quic-alarm-engine.cc:122-137 | the do-while loop and the re-registration of one alarm keep the index, when an alarm that asks to be called at once is not registered by then |
| AlarmInvariant.RepeatKeepsIff | quic/model/ns3-quic-alarm-engine.cc:122-137 | calling an alarm again at once keeps the index in agreement if and only if the alarm is not registered |
| AlarmInvariant.FireKeeps | quic/model/ns3-quic-alarm-engine.cc:103-142 | OnTimeout with any callbacks keeps what holds between events |
| AlarmInvariant.ShutdownKeeps | quic/model/ns3-quic-alarm-engine.cc:24-34 | shutting down keeps what holds between events: nothing is pending and every ticket is dropped |
| AlarmInvariant.RunKeeps | quic/model/ns3-quic-alarm-engine.cc:24-180 | every state of every run is sound |
| AlarmGuarantees.NoAlarmEarlyLateOrTwice | quic/model/ns3-quic-alarm-engine.cc:35-142 | a registration neither cancelled, rescheduled nor shut down is called exactly once, in the microsecond max(deadline, registration time), and one that was is not called |
| AlarmGuarantees.EqualDeadlinesInInsertionOrder | quic/model/ns3-quic-alarm-engine.cc:110-137 | calls are made in the order of due times, and at equal times in the order of registration |
| AlarmGuarantees.IndexAgreement | quic/model/ns3-quic-alarm-engine.cc:24-180 | multimap, set, flags and tokens agree, keys are not past, and the timer is armed no later than the first key |
| AlarmGuarantees.CalledOrPending | quic/model/ns3-quic-alarm-engine.cc:91-102 | a registration not given up has been called or waits under a timer that is not late |
| AlarmGuarantees.ClientPassesIff | quic/model/ns3-quic-alarm-engine.cc:70-102 | between events every operation passes, except a reschedule that leaves no other alarm or names a past time |
| AlarmGuarantees.SoleAlarmCannotMove | quic/model/ns3-quic-alarm-engine.cc:70-90 | in the run that sets one alarm, the update by its owner fails the assertion that another one is pending |
| AlarmGuarantees.SelfSetterBreaksIndex | quic/model/ns3-quic-alarm-engine.cc:122-137 | a run in which an alarm sets itself and returns a time already due; no assertion fails, and afterwards it is in the multimap without being marked as registered |
| AlarmGuarantees.FirePassesIff | quic/model/ns3-quic-alarm-engine.cc:91-142 | when no alarm is registered as it asks to be called again at once: OnTimeout fails no assertion if and only if every operation of a callback or of the visitor leaves alone the alarms still to be called and reschedules only beside another pending alarm and to a time not past; nothing the engine does by itself fails |
| AlarmGuarantees.HistoryGrows | quic/model/ns3-quic-alarm-engine.cc:103-142 | calls once made stay made |
| AlarmProgress.FireLeavesExactTimer | quic/model/ns3-quic-alarm-engine.cc:91-142 | after OnTimeout the timer is off without alarms, and else goes off in the microsecond of the first deadline, as far behind the full microsecond as the clock is |
| AlarmProgress.RegistrationTimes | quic/model/ns3-quic-alarm-engine.cc:35-63 | a registration in an idle engine, one before the first deadline, and one with the timer off set the timer exactly, at any time; any other leaves it |
| AlarmProgress.ReregistrationTimes | quic/model/ns3-quic-alarm-engine.cc:70-90 | a reschedule to before the other alarms, or with the timer off, sets the timer exactly; any other leaves it |
| AlarmProgress.TimerIsADueTime | quic/model/ns3-quic-alarm-engine.cc:35-142 | in every run an armed timer goes off in a microsecond in which some registration is, or was, due |
| AlarmProgress.IdleFireMovesOn | quic/model/ns3-quic-alarm-engine.cc:91-142 | a firing with nothing due leaves the alarms as they are and the timer strictly later, on the first deadline |
| AlarmProgress.PendingIsCalled | quic/model/ns3-quic-alarm-engine.cc:91-142 | from any state of any run, when only time passes and the timer fires, the alarm behind j others is called after at most j + 2 firings |
| AlarmProgress.WaitingCanBeCalled | quic/model/ns3-quic-alarm-engine.cc:91-142 | so is every registration that has not been given up |
| AlarmProgress.ReturnedTimeIsRegistered | quic/model/ns3-quic-alarm-engine.cc:122-137 | an alarm whose last call returns a later time waits for it, beside the others, as a new registration unless it has set itself; one that returns none is left as its calls left it |
| AlarmEngine.Ns3QuicAlarmEngine.RegisterAlarm | quic/model/ns3-quic-alarm-engine.cc:35-63 | the deadline is clamped to now, the alarm enters the multimap behind equal keys and the set unless it is in it, its flag and token are set, and the timer is re-armed when it is off or the alarm is the first |
| AlarmEngine.Ns3QuicAlarmEngine.UnregisterAlarm | quic/model/ns3-quic-alarm-engine.cc:64-69 | the node of the alarm leaves the multimap, the alarm leaves the set, its flag is cleared, and the timer stays |
| AlarmEngine.Ns3QuicAlarmEngine.ReregisterAlarm | quic/model/ns3-quic-alarm-engine.cc:70-90 | the node moves behind the keys not larger than the new time, the timer is re-armed when it is off or this is the earliest, and the new token is returned; the two assertions are the failing outcomes |
| AlarmEngine.Ns3QuicAlarmEngine.UpdateTimer | quic/model/ns3-quic-alarm-engine.cc:91-102 | the timer is off without alarms and else set to the first key |
| AlarmEngine.Ns3QuicAlarmEngine.TakeDue | quic/model/ns3-quic-alarm-engine.cc:110-121 | the first loop takes out exactly the due nodes, in order |
| AlarmEngine.Ns3QuicAlarmEngine.CallAlarm | quic/model/ns3-quic-alarm-engine.cc:122-137 | the alarm is called until it returns a time that is not due, each call with its operations, and is registered for that time unless it is zero |
| AlarmEngine.Ns3QuicAlarmEngine.OnTimeout | quic/model/ns3-quic-alarm-engine.cc:103-142 | the due alarms leave multimap and set first, are then called in order, the visitor runs if there were any, and the timer is set anew |
| AlarmEngine.Ns3QuicAlarmEngine.Run | quic/model/ns3-quic-alarm-engine.cc:189-208 | set, cancel and update of an alarm by its owner |
| AlarmEngine.Ns3QuicAlarmEngine.Shutdown | quic/model/ns3-quic-alarm-engine.cc:24-34 | every alarm is taken out and marked; the timer stays as it is |
| Vegas.VegasSender.OnPacketSent | quic/model/cc-algo/vegas_sender.cc:111-122 | the packet becomes the largest sent, and the mark of the epoch if there is none; nothing else changes |
| Vegas.VegasSender.OnPacketLost | quic/model/cc-algo/vegas_sender.cc:155-166 | a packet up to the last cut changes nothing; any other halves the window, not below four segments, makes that the threshold, moves the mark to the largest sent packet and resets the counter |
| Vegas.VegasSender.AdjustWindow | quic/model/cc-algo/vegas_sender.cc:183-214 | target and backlog from 64-bit products; slow start ends at the smaller of window and target above GAMMA and else grows by a segment; otherwise a segment less above BETA, one more below ALPHA, and no change in between |
| Vegas.VegasSender.OnPacketAcked | quic/model/cc-algo/vegas_sender.cc:167-222 | the largest acknowledged packet moves; outside Vegas mode a Reno step; at the end of an epoch a Reno step with at most two samples and else the adjustment, and the samples are dropped; within an epoch only slow start grows; never below four segments |
| Vegas.VegasSender.IncreaseCongestionWindowAsReno | quic/model/cc-algo/vegas_sender.cc:223-233 | a segment more in slow start; else one more acknowledgement counted, and a segment more and the count at zero once a window is acknowledged |
| Vegas.VegasSender.OnCongestionEvent | quic/model/cc-algo/vegas_sender.cc:74-110 | the sample first, then every loss and every acknowledgement in order, then Vegas is switched off on entering recovery and on, with a new epoch, on leaving it |
| Vegas.LossCutsOncePerFlight | quic/model/cc-algo/vegas_sender.cc:155-166 | a loss is ignored, or halves the window, to four segments below eight, makes that the threshold, restarts the count and raises the mark past every packet sent so far, none of which can then cut again; nothing else changes |
| Vegas.CongestionKeeps | quic/model/cc-algo/vegas_sender.cc:74-110 | after an event whose checks pass, the mode is the negation of recovery, the window has grown by at most one segment per acknowledged packet, and the cut mark has not moved back |
| Vegas.EventChecksIff | quic/model/cc-algo/vegas_sender.cc:177-187 | an event passes its checks if and only if, should one of its packets end an epoch of more than two samples, the filter's answer is positive and at most the kept minimum |
| Vegas.AdjustFollowsBacklog | quic/model/cc-algo/vegas_sender.cc:183-214 | by exact products: outside slow start the window shrinks above BETA excess bytes, grows below ALPHA and holds in between; slow start ends above GAMMA |
| Vegas.TargetIsCeiling | quic/model/cc-algo/vegas_sender.cc:184-185 | the target window is the actual rate times the base round trip, rounded up to whole segments |
| Vegas.EstimatesAreExactIff | quic/model/cc-algo/vegas_sender.cc:184-187 | backlog and rate are the exact quotients if and only if their products stay below 2^64 |
| Vegas.RunKeeps | quic/model/cc-algo/vegas_sender.cc:74-233 | in every run the window stays between four segments and the initial window plus one segment per acknowledged packet, Vegas is on exactly outside recovery, and a counted sample means a finite minimum of at least a microsecond |
| Vegas.NoSecondCut | quic/model/cc-algo/vegas_sender.cc:158-164 | a packet covered by a cut never causes another for the rest of the run |
| VegasEpochs.MarkMoves | quic/model/cc-algo/vegas_sender.cc:178-179 | the acknowledgement that ends an epoch moves the mark: nothing older than the newest packet ends the next epoch, and that packet does |
| VegasEpochs.StateIsHistory | quic/model/cc-algo/vegas_sender.cc:74-122 | in every run the mark is the newest packet at the beginning of the epoch, the counter is the number of samples since, and the minimum is one of them and below none, or infinite without any |
| VegasEpochs.ChecksPassIff | quic/model/cc-algo/vegas_sender.cc:177-187 | in any run the next event passes its checks if and only if, should one of its packets end an epoch of more than two samples, the filter's answer is positive and not above any sample of the epoch |
| VegasEpochs.NoCheckFails | quic/model/cc-algo/vegas_sender.cc:177-187 | no check fails and no division is undefined in any run, when the filter's answer is positive and not above the epoch's samples |
| VegasEpochs.EpochsAreApart | quic/model/cc-algo/vegas_sender.cc:178-179 | between two events that end an epoch a packet is acknowledged that is not older than anything sent before the first |
| VegasWindow.RenoCounts | quic/model/cc-algo/vegas_sender.cc:223-233 | with Vegas off, in slow start every acknowledged packet adds a segment up to the threshold; otherwise nothing is added before a window has been acknowledged, and then exactly one segment |
| VegasWindow.RecoveryGrows | quic/model/cc-algo/vegas_sender.cc:74-110 | a whole event without losses while Vegas is off does the same |
| VegasWindow.EpochGrows | quic/model/cc-algo/vegas_sender.cc:215-222 | within an epoch every acknowledged packet adds a segment in slow start, up to the threshold, and otherwise nothing changes |
| VegasWindow.FewSamplesMeanReno | quic/model/cc-algo/vegas_sender.cc:180-182 | an epoch of at most two samples ends with a Reno step |
| VegasWindow.SlowStartEnds | quic/model/cc-algo/vegas_sender.cc:183-203 | an epoch of more samples ends slow start when more than GAMMA bytes are in excess, with window and threshold at the smaller of the window and the actual rate times the base round trip, rounded up to segments, not below four; else it adds a segment |
| VegasWindow.EpochAdjusts | quic/model/cc-algo/vegas_sender.cc:203-222 | outside slow start it takes a segment off above BETA bytes in excess, not below four, adds one below ALPHA, and holds in between |
| VegasWindow.LargestIsKept | quic/model/cc-algo/vegas_sender.cc:167-171 | the largest acknowledged packet is the largest of all |
| Copa.CopaSender.ChangeDirection | quic/model/cc-algo/copa_sender.cc:281-294 | the same direction changes nothing; a new one is stored with velocity 1, counter 0, and the time and window as the new record |
| Copa.CopaSender.CheckAndUpdateDirection | quic/model/cc-algo/copa_sender.cc:247-280 | the first look only records; later ones, a smoothed round trip apart, compare the window with the record, reset velocity and counter on a turn, else count, double the velocity modulo 2^64 from the third on, and record anew |
| Copa.CopaSender.AddAndCheckOverflow | quic/model/cc-algo/copa_sender.cc:21-29 | the sum, or the exception exactly when it does not fit 64 bits |
| Copa.CopaSender.SubtractAndCheckUnderflow | quic/model/cc-algo/copa_sender.cc:30-37 | the difference, or the exception exactly when it is negative |
| Copa.CopaSender.OnPacketAcked | quic/model/cc-algo/copa_sender.cc:145-246 | a negative delay or a zero standing delay fails the check; else slow start doubles at most once a smoothed round trip, or the window moves by segments times velocity over half the window, up without overflow or down to no less than four segments, after the direction has been looked at and, at a velocity above one, corrected |
| Copa.CopaSender.OnCongestionEvent | quic/model/cc-algo/copa_sender.cc:87-98 | the losses only move the cut mark; then the acknowledgements as one batch |
| Copa.FeedbackIsNegative | quic/model/cc-algo/copa_sender.cc:177-190 | a smaller window or a shorter queueing delay never turns an increase into a decrease |
| Copa.WholeWindowMovesIff | quic/model/cc-algo/copa_sender.cc:218-236 | acknowledging a whole window moves it by twice as many segments as the velocity says, if and only if window times segment size times velocity stays below 2^64 |
| CopaWindow.IncreasesIff | quic/model/cc-algo/copa_sender.cc:161-190 | feedback asks for growth without queueing delay, or if some whole rate times the delay is at most two segments a second while the next one times the standing round trip exceeds the window |
| CopaWindow.ShrinksBy | quic/model/cc-algo/copa_sender.cc:226-245 | feedback that does not ask for growth ends slow start and takes off the whole windows in twice the 64-bit product of packets, segment size twice and velocity, but nothing below the minimum |
| CopaWindow.ShrinksIff | quic/model/cc-algo/copa_sender.cc:226-245 | it takes something off if and only if the window is above the minimum and twice the product reaches the window |
| CopaWindow.WholeWindowShrinks | quic/model/cc-algo/copa_sender.cc:234-244 | acknowledging a whole window, without wrap and that far above the minimum, takes off exactly twice as many segments as the velocity says |
| CopaWindow.GrowsBy | quic/model/cc-algo/copa_sender.cc:209-225 | outside slow start feedback that asks for growth adds the whole windows in that number, or throws the overflow exception exactly when the sum does not fit |
| CopaWindow.GrowsIff | quic/model/cc-algo/copa_sender.cc:209-225 | it adds something if and only if twice the product reaches the window |
| CopaWindow.WholeWindowGrows | quic/model/cc-algo/copa_sender.cc:218-225 | acknowledging a whole window, without wrap and overflow, adds exactly twice as many segments as the velocity says |
| CopaWindow.SlowStartGrows | quic/model/cc-algo/copa_sender.cc:197-208 | in slow start feedback that asks for growth doubles the window exactly when more than a smoothed round trip has passed since the last doubling, or throws if the double does not fit, and the first such feedback only sets the time |
| CopaWindow.FeedbackMarks | quic/model/cc-algo/copa_sender.cc:138-150 | feedback keeps the largest acknowledged packet the largest, and moves the mark of the last cut to the largest packet sent exactly when a packet beyond it is lost |
| Copa.UpdateKeeps | quic/model/cc-algo/copa_sender.cc:247-280 | a look at the window keeps the law that the velocity is 1 up to the second time in one direction and 2^(n-2) modulo 2^64 at the n-th from the third on, and changes nothing but the velocity record |
| Copa.CongestionKeeps | quic/model/cc-algo/copa_sender.cc:145-246 | no underflow; a check fails exactly on the filters' account; window bound, velocity law and direction are kept |
| Copa.RunIsSteady | quic/model/cc-algo/copa_sender.cc:192-294 | at every point of every run the window is at least four segments, the velocity is the function of its counter, no underflow can happen, and a window moving at a velocity above one moves in the recorded direction |
| Copa.SlowStartIsOver | quic/model/cc-algo/copa_sender.cc:192-239 | slow start once left is never entered again |
| Copa.SlowStartDoubles | quic/model/cc-algo/copa_sender.cc:198-208 | in slow start the window is the initial one times two to the number of doublings, which are at least the shortest smoothed round trip apart |
| Copa.DoublingsTakeRoundTrips | quic/model/cc-algo/copa_sender.cc:198-208 | d doublings take at least d round trips since the first acknowledgement |
| CopaVelocity.VelocityLawIff | quic/model/cc-algo/copa_sender.cc:265-270 | from the third time on the velocity is 2^(n-2) if and only if n < 66, and zero if and only if n >= 66 |
| CopaVelocity.LargeVelocityStepsNowhere | quic/model/cc-algo/copa_sender.cc:218-236 | from the 62nd time on the step, a 64-bit product over half the window, is zero whatever the number of segments |
| CopaVelocity.ZeroVelocityIsFrozen | quic/model/cc-algo/copa_sender.cc:247-280 | in every run the velocity is zero if and only if the counter has reached 66, and then slow start is over, the direction is down and the window at its record |
| CopaVelocity.FrozenStays | quic/model/cc-algo/copa_sender.cc:197-294 | in that state no feedback moves the window or leaves the state |
| CopaVelocity.FrozenForGood | quic/model/cc-algo/copa_sender.cc:145-294 | nor does anything else for the rest of the run |
| CopaVelocity.FreezesIff | quic/model/cc-algo/copa_sender.cc:247-280 | after any feedback in any run the sender is frozen if and only if its counter was 66 or more, or was 65 and the record was due |
| CopaVelocity.StuckAtZero | quic/model/cc-algo/copa_sender.cc:145-294 | from a velocity of zero on no continuation of the run moves the window, whatever feedback it holds |
| CopaFeedback.ChecksPass | quic/model/cc-algo/copa_sender.cc:162-175 | feedback that can be received passes both checks of an acknowledgement, with positive answers of both filters not above the latest sample |
| CopaCongestion.CanBeReceived | quic/model/cc-algo/copa_sender.cc:145-175 | the feedback of the run below can be received |
| CopaCongestion.CongestionFreezes | quic/model/cc-algo/copa_sender.cc:145-294 | a run from four segments, of 69 packets sent one after the other and acknowledged within one and a half seconds, that ends frozen with a counter of 66 and a velocity of zero |
| CopaMoves.LowCounterCanMove | quic/model/cc-algo/copa_sender.cc:145-294 | from any state of any run of receivable feedback with a counter of at most 64, receivable feedback leads to one that changes the window or overflows it |
| CopaMoves.RescueCanMove | quic/model/cc-algo/copa_sender.cc:209-216 | at a counter of 65 so does feedback that asks for growth before the next record is due |
| CopaMoves.MovesIff | quic/model/cc-algo/copa_sender.cc:145-294 | receivable feedback can still change the window, or overflow it, if and only if the counter is at most 64, or it is 65 and such feedback can come in time |
| CopaMoves.QuickAckRescues | quic/model/cc-algo/copa_sender.cc:209-216 | at a counter of 65 it can come if a round trip of a microsecond would end before the next record is due |
| Tag.VarintEncode | quic/model/ns3-quic-tag.cc:47-62 | the loop writes the base-128 digits, and nothing for zero |
| Tag.VarientDecode | quic/model/ns3-quic-tag.cc:63-73 | the loop reads up to the first byte without its top bit, modulo 2^64, or runs out |
| Tag.VarintLengthOf | quic/model/ns3-quic-tag.cc:5-15 | the loop on a signed number counts the digits below 2^63, and 1 from there on |
| Tag.VarintRoundTrip | quic/model/ns3-quic-tag.cc:47-73 | decoding inverts encoding for every number but zero, whatever follows |
| Tag.EncodeDigit | quic/model/ns3-quic-tag.cc:47-62 | byte i is digit i in base 128, the least significant first, with the top bit on all but the last, and there are no more digits |
| Tag.LengthAgreesIff | quic/model/ns3-quic-tag.cc:5-15 | the announced length is the written one if and only if the number is below 2^63; from there on one byte is announced |
| Tag.TagRoundTrip | quic/model/ns3-quic-tag.cc:36-46 | both fields are read back, whatever follows |
| Tag.ZeroFieldReadsOn | quic/model/ns3-quic-tag.cc:48-73 | with a zero field the reader takes bytes that are not its own |
| Tag.TagIsFaithfulIff | quic/model/ns3-quic-tag.cc:36-46 | fields and announced size come back right if and only if both fields lie strictly between 0 and 2^63 |
| Tag.Ns3QuicTag.Serialize | quic/model/ns3-quic-tag.cc:39-42 | the buffer holds the two images one after the other |
| Tag.Ns3QuicTag.Deserialize | quic/model/ns3-quic-tag.cc:43-46 | the fields are those the parser function finds |

## Left out

- QUIC itself (sessions, streams, packet writer, sockets): each link is a reliable byte stream in order; what `Send` returns and refused writes are not modelled.
- Simulator::Stop (simpleMPI.cc:330-332): the request to stop is recorded, its effect is not modelled; aggregators have no iterations of their own and ask for a stop too, so no run is claimed to finish all rounds. `QuietMeansFinished` and `StillIffFinished` are about runs that are not stopped.
- ReceiveDataFromAll: the order in which it visits sockets is that of an unordered map; runs allow every order, and polls at any time instead of every 30 ms.
- Codec.CreatResponseV: is claimed for whole chunks; for a short last one the program reads past the vector (`ChunkStaysInsideIff`), and what it then sends is undefined. `CreatResponseVK`, which nothing calls, is left out.
- Mpi.SimpleMPI.SendResponseVTo: sends vectors of whole chunks, for the same reason.
- Mpi.SimpleMPI.SetVSize: takes sizes that are a multiple of `k` with at most 255 chunks, for the same reason and because the chunk count is an 8-bit number.
- Mpi.SimpleMPI.HandleRequestV: takes requests for such sizes only; SetVSize and the response go through it.
- AlarmInvariant.RoundsKeep: is claimed for alarms that are not registered when they ask to be called again at once; otherwise the index breaks (`RepeatKeepsIff`).
- AlarmInvariant.FireKeeps: is claimed for the same alarms.
- AlarmGuarantees.FirePassesIff: is claimed for the same alarms; an index that is broken in the middle of OnTimeout is not followed further (`SelfSetterBreaksIndex`).
- Vegas.AdjustFollowsBacklog: is about products below 2^64; above, the backlog is not the quotient it stands for (`EstimatesAreExactIff`).
- Vegas.TargetIsCeiling: is about products below 2^64 less one segment, for the same reason.
- VegasWindow.SlowStartEnds: is about such products too.
- VegasWindow.EpochAdjusts: is about products below 2^64.
- Chunk tables, vectors and groups are maps and sequences that methods reassign, so aliasing between them is not modelled.
- The vector size of an aggregator before its first request, which the program leaves uninitialised, is 0.
- Random numbers, result files, logging, time measurement and address conversion.
- BaseAlarm: the flag and the token of each alarm are fields of the engine object, indexed by alarm, and QuicAlarm's own deadline is not modelled; the library file is not part of this model.
- Callbacks of alarms and of the visitor are arbitrary finite lists of set, cancel and update operations with the times they return; an alarm that makes the engine call it again at once, by returning a time that is already due, is not registered at that moment, and those repeated calls count as one; Ns3AlarmImpl always returns 0 and is called a single time. The multimap is a sequence with stable node identities.
- WindowedFilter and RttStats: the library files are not part of this model; their answers are parameters. Which answers Copa can get is under Assumptions. How many bytes may be in flight is not modelled.
- VegasEpochs.NoCheckFails: assumes of the filter a positive value not above the samples of the current epoch, which its ten-second window can break in a longer epoch; `ChecksPassIff` is the exact condition.
- Copa's double arithmetic is done in exact fractions, truncated where the program truncates. Windows, counters and times of Vegas other than the products of the adjustment are unbounded.
- kDefaultTCPMSS is 1460; the library file that defines it is not part of this model.
- Upper bounds by `max_congestion_window_`, which neither sender enforces.
- quic/model/cc-algo/cdg_sender.cc, which the build leaves out, and topology scripts, applications and traces.
