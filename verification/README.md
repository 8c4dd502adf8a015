# Rivermax Dev Kit: packet ordering, sending protocols and supporting arithmetic

A Dafny model of the parts of the Rivermax Dev Kit whose correctness is a matter
of state and arithmetic, with proofs of what they promise. Sequence numbers and
the fixed header are those of section 5.1 of RFC 3550, sender reports those of
section 6.4.1 of RFC 3550, sample row headers those of section 4.2 of RFC 4175.

Run `dafny verify dfyconfig.toml` in this directory to verify everything.

## What is modelled

**Inline packet ordering** (`Ipo*`). A receiver rebuilds one ordered stream from
several redundant paths with a ring of slots, a late/new/redundant test on
modular differences, a hold time, a time cache for an early exit, and a delivery
loop that returns one unwrapped range. `IpoModel` is the receiver as functions
on values, `IpoReceiver` the same receiver as an object with a slot array and
per-path counters, every method proved equal to its function. A ghost `History`
gives positions, arrivals and deliveries unwrapped numbers. Two hypotheses are
stated where they are needed: the ring size divides the number space
(`Consecutive`), and a first copy is neither behind the ring index nor a ring
ahead of it (`Fits`). `FreshKeepsAlignedIff` shows that the second is exactly
what keeps the order, `SteadyFitsIff` what it amounts to after synchronisation,
`WideRingBoundsArrivals` that a ring of half the number space or more always
meets it there, and `IpoDrain.StrayCopyBreaksOrder` how a copy that does not meet
it comes out of order. `IpoRings` has the exact ring sizes that keep the order
past the synchronisation: those that divide the number space, and half the space
plus one. `IpoBreaks` has the runs from power-on in which it breaks, `IpoDrain`
that what is held is delivered. `IpoSessions` has the sender sessions: which
packets anchor, restart and resume a stream, and how the restart rule of the code
differs from the one its comment gives; the model follows the code.

**IPMX sender** (`Ipmx*`). Senders keep commit and completion counters against a
network card modelled as a queue of tracking tokens for each sender and a queue of
sender reports. The card answers in order, at any time, may refuse chunks and may
fail; steps of any number of senders come in any order, of which the node's loop
is one. `IpmxProgress` has when steps succeed and that the loop gets on.

**RTP video** (`Rtp*`, `Video*`, `StrideMemory`). The buffer writer that cuts
frames into packets, the send stream that builds the same headers by itself, and
the receivers that parse them and count losses. Packets are placed on the frame
by row and column, and both builders are proved to follow that placement over
whole runs of well-aligned formats, progressive or interlaced. The exact condition
under which the headers of the two builders agree is `AgreeIff`, that under which
their bytes do is `SameBytesIff`: both mean to announce the same source number, and
put its bytes in opposite orders.

**Rational numbers** (`Divisors`, `Rational*`). Mixed numbers of 64-bit parts
with every register cut written out. A number's value is `Whole(x)` over its
denominator, and `Is(x, n, d)` says that it is `n / d`. When the least common
denominator overflows, what its register keeps (`KeptLcd`) rounds both fractions;
`RoundsAlike` says that it takes the same from both.

**Transmit window** (`Tx*`). The window of fields and the ring of scheduled
times of the media latency sender, against the same kind of card. `TxProgress` has
what a turn does, exactly, and that turns complete fields.

**Memory and frames** (`Memory*`, `Frame*`). Aligned allocation and nested
slicing of header and payload memory, the pool of frames and the frame
providers, with the threads that wait for a frame (`FrameWaiting`).

In each part a module of functions on values carries the theorems, and classes
with the fields, arrays and loops of the source are proved equal to those
functions. What the network card, the operating system or a clock answers is a
parameter: the theorems hold for all answers.

## Model

| member | source | states |
|---|---|---|
| IpoRuns.RunOrderedAndConserved | source/core/stream/receive/ipo_receive_stream.cpp:326-545 | From power-on, started by hand or on demand, for any interleaving, loss and duplication over any number of paths whose new packets fit the ring: per sender session the delivered unwrapped numbers strictly advance with steps below half the number space, each delivery is of the packet of its number and strictly more than the hold time old, accepted packets are exactly delivered + skipped + still held (as multisets), and each skipped packet was stored before the start time in force when it was skipped |
| IpoRuns.RunKeepsInv | source/core/stream/receive/ipo_receive_stream.cpp:332-545 | The invariant behind it holds after every call of every run from any state that has it |
| IpoRuns.ArriveKeepsInv | source/core/stream/receive/ipo_receive_stream.cpp:502-543 | Every arrival that fits keeps the invariant, including the one that anchors or restarts the stream |
| IpoRuns.PollKeepsInv | source/core/stream/receive/ipo_receive_stream.cpp:386-479 | Every poll keeps the invariant, with no hypothesis |
| IpoOrdering.FreshKeepsAlignedIff | source/core/stream/receive/ipo_receive_stream.cpp:533-543 | A first copy keeps the ring readable in order if and only if it is neither behind the ring index nor a whole ring ahead of it |
| IpoOrdering.FreshFindsEmptySlot | source/core/stream/receive/ipo_receive_stream.cpp:560-574 | A first copy that fits never overwrites a packet that is still held |
| IpoOrdering.StrayCopyIsOverwritten | source/core/stream/receive/ipo_receive_stream.cpp:533-543 | A first copy that does not fit is stored all the same, and the packet whose turn its slot is, unless it counts as late, is taken for new and stored over it: the accepted packet is lost. In a ring as large as the number space that packet always counts as late; there `IpoDrain.StrayCopyBreaksOrder` says what happens |
| IpoDrain.StrayCopyBreaksOrder | source/core/stream/receive/ipo_receive_stream.cpp:397-469 | The converse of fitting, from every aligned running state: in a run of one more call with arrivals and then polls, a first copy behind the ring index is delivered after any number ahead of it that has its turn first, and one a ring or more ahead before any number behind it that has its turn later; any but those already held from before the start time, which are skipped |
| IpoDrain.FullRingStray | source/core/stream/receive/ipo_receive_stream.cpp:533-543 | In a ring as large as the number space a first copy that does not fit lies behind the index, and every later number within reach that is not about to be skipped has its turn before it; the number whose turn its slot is counts as late |
| IpoOrdering.PollKeepsAligned | source/core/stream/receive/ipo_receive_stream.cpp:397-469 | Scan, synchronisation and delivery together keep position and number in step |
| IpoOrdering.ProductiveProgress | source/core/stream/receive/ipo_receive_stream.cpp:397-469 | A poll that passes the scan and time checks takes at least one packet out, and what it delivers starts where the scan and the synchronisation ended and stays inside the ring |
| IpoSteady.RunReachesSteady | source/core/stream/receive/ipo_receive_stream.cpp:332-545 | A run from power-on comes to be steady with any call that delivers and leaves nothing stored before the start time, so what is proved of steady states holds from there on |
| IpoSteady.SteadyFitsIff | source/core/stream/receive/ipo_receive_stream.cpp:531-543 | Once synchronised, fitting is one bound on the modular distance to the last processed number |
| IpoSteady.WideRingBoundsArrivals | source/core/stream/receive/ipo_receive_stream.cpp:592-602 | With a ring of half the number space or more no arrival between restarts can fail to fit |
| IpoSteady.SteadyRunHolds | source/core/stream/receive/ipo_receive_stream.cpp:332-545 | Between restarts a synchronised stream stays synchronised over whole runs: nothing is skipped, and a packet stays in its slot for its whole hold time |
| IpoSteady.WideRingRun | source/core/stream/receive/ipo_receive_stream.cpp:332-545 | With such a ring that divides the space, any arrivals at all between restarts: order, and accepted = delivered + held (beyond what was skipped before) |
| IpoSteady.CopyOfHeldIsRedundant | source/core/stream/receive/ipo_receive_stream.cpp:531-543 | A copy of a packet that is still held is redundant, never late and never new |
| IpoSteady.CopyWithinHoldIsRedundant | source/core/stream/receive/ipo_receive_stream.cpp:531-543 | A copy polled no later than the hold time after the first one is classified redundant, after any run in between |
| IpoTiming.EarlyReturnsLoseNothing | source/core/stream/receive/ipo_receive_stream.cpp:326-416 | In every call of every run from power-on on a clock that does not go back, whatever arrived: when the poll returns early, running the scan, sync and delivery anyway would hand no packet to the caller |
| IpoTiming.EarlyExitAgrees | source/core/stream/receive/ipo_receive_stream.cpp:393-416 | In a state with a sound time cache, returning early hands over exactly what the full scan, sync and delivery would: nothing |
| IpoTiming.RunKeepsCache | source/core/stream/receive/ipo_receive_stream.cpp:359-416 | Every run from power-on on a clock that does not go back keeps the time cache sound, whatever arrives |
| IpoChunks.ChunkIsOneRange | source/core/stream/receive/ipo_receive_stream.cpp:439-479 | Every chunk is the contents of one unwrapped slot range inside the ring, so one pointer describes it |
| IpoChunks.ChunkIsConsecutive | source/core/stream/receive/ipo_receive_stream.cpp:446-469 | In an aligned ring the packets of a chunk carry consecutive sequence numbers |
| IpoChunks.WaitsIffEmpty | source/core/stream/receive/ipo_receive_stream.cpp:397-408 | Past the early exit, the receiver goes to Waiting if and only if all slots are invalid |
| IpoChunks.DeliveryCatchesUp | source/core/stream/receive/ipo_receive_stream.cpp:446-469 | A delivery brings the ring index right behind the last processed number |
| IpoChunks.PollWaits | source/core/stream/receive/ipo_receive_stream.cpp:386-416 | A poll of a running stream does nothing until the hold time has passed since the cached time; then it goes to waiting if the ring is empty, and caches the time of the first packet if that one is not due |
| IpoChunks.PollTakes | source/core/stream/receive/ipo_receive_stream.cpp:397-479 | If the first packet from the ring index on is due, the poll discards all packets from before the start time that come first and hands over all packets due that follow, up to the end of the ring, the end of the turn or the first one not due; index, last number and cached time are those of the packets taken, and no other slot changes |
| IpoChunks.PollCounts | source/core/stream/receive/ipo_receive_stream.cpp:397-469 | Every ring has such numbers of positions passed, discarded and handed over, so the two rows above say what every poll of a running stream does |
| IpoSessions.FirstPacketAnchors | source/core/stream/receive/ipo_receive_stream.cpp:515-520 | The first packet is held, and the ring is read from it on with a quarter of the number space behind it; the start time stays |
| IpoSessions.PauseDecides | source/core/stream/receive/ipo_receive_stream.cpp:521-531 | A packet that finds the receiver waiting more than the restart gap after the cached time is held, the ring is read from it on, a new session begins and is synchronised anew; at the gap or before, position, last number, start time and session stay |
| IpoSessions.RunningArrival | source/core/stream/receive/ipo_receive_stream.cpp:507-543 | A packet that finds the stream running changes nothing but its own slot |
| IpoSessions.VerdictIff | source/core/stream/receive/ipo_receive_stream.cpp:533-543 | By unwrapped numbers, within half the number space of the last processed one: late if and only if not ahead of it, a copy if and only if ahead and held in any slot, and new otherwise |
| IpoSessions.RunSessions | source/core/stream/receive/ipo_receive_stream.cpp:326-531 | Over every run, started by hand or by its first call: sessions begin at the packets after a pause longer than the restart gap and at no others, and the start time is a hold time after the start or the last such packet |
| IpoSessions.FailedCallDelays | source/core/stream/receive/ipo_receive_stream.cpp:375-385 | A call that a sub-stream's failure ends hands over nothing and loses nothing: with the next call at the same time it does what one call with all packets does |
| IpoSessions.DocumentedRestartIff | source/core/stream/receive/ipo_receive_stream.cpp:364-368 | The comment promises a restart after more than the gap in the waiting state. On every run one happens then; the code measures from the cached time, which lies more than the hold time before the waiting began, and the two rules agree on a packet if and only if it does not come more than the gap after the one and no more than the gap after the other |
| IpoSessions.RestartsWithoutPause | source/core/stream/receive/ipo_receive_stream.cpp:521-531 | For every configuration a run from power-on in which a packet that comes at the very time the waiting began restarts the stream and falls into the new synchronisation |
| IpoBreaks.BehindAnchorIsDeliveredLate | source/core/stream/receive/ipo_receive_stream.cpp:510-520 | For every configuration with two slots or more, a run from power-on in which a packet older than the anchor is accepted and delivered after it: the fitting hypothesis is needed |
| IpoRings.RingKeepsOrderIff | source/core/stream/receive/ipo_receive_stream.cpp:592-602 | The exact ring sizes: every run from power-on that came past its synchronisation goes on delivering numbers ahead of the ones before, if and only if the ring divides the number space or is one slot more than half of it |
| IpoRings.SlotsInOrderIff | source/core/stream/receive/ipo_receive_stream.cpp:502-503 | These are exactly the sizes for which the slots of the numbers within reach come up in the order of the numbers |
| IpoRings.CaughtUpRun | source/core/stream/receive/ipo_receive_stream.cpp:332-545 | In such a ring a stream past its synchronisation delivers in order, skips nothing, overwrites nothing and keeps every accepted packet until it is delivered |
| IpoRings.WideRingInOrder | source/core/stream/receive/ipo_receive_stream.cpp:332-545 | With half the number space or more, half plus one included, this holds whatever arrives between restarts |
| IpoRings.RunCatchesUp | source/core/stream/receive/ipo_receive_stream.cpp:332-469 | Any run from power-on, whatever arrived and whatever the ring, comes past its synchronisation with a call that delivers and leaves only packets within reach and from the start time on |
| IpoRings.SteadyIsCaughtUp | source/core/stream/receive/ipo_receive_stream.cpp:332-545 | What is proved of such streams holds of steady states |
| IpoBreaks.OrderBreaksAtTheTurn | source/core/stream/receive/ipo_receive_stream.cpp:592-602 | For every other ring a run from power-on in which, of two packets received together after the last number, the later one is delivered first |
| IpoDrain.QuietPollsDeliverAll | source/core/stream/receive/ipo_receive_stream.cpp:386-479 | Past the synchronisation everything held is delivered: as many polls as packets, later than the hold time after the newest of them, hand over exactly the packets held, in order, and leave the ring empty |
| IpoDrain.HeldIsDelivered | source/core/stream/receive/ipo_receive_stream.cpp:386-479 | So nothing is held for ever: from any such state there is a time at which a ring of polls delivers everything held |
| IpoDrain.QuietRun | source/core/stream/receive/ipo_receive_stream.cpp:386-479 | Whatever the ring holds, such polls take it out slot by slot from the index on; what is from the start time on is handed over in that order |
| IpoAccounting.RunAccounting | source/io_node/receivers/ipo_receiver_io_node.cpp:52-216 | From power-on, on every path packets + drops == deliveries; each delivery is credited to exactly the paths on which a copy was heard before it, at least one; the lost counter is the sum of the gaps of each session |
| IpoAccounting.LostAndDeliveredSpan | source/io_node/receivers/ipo_receiver_io_node.cpp:188-210 | Within a session, lost + delivered == the unwrapped span from the first to the last delivered number |
| IpoAccounting.LostPerSession | source/io_node/receivers/ipo_receiver_io_node.cpp:188-216 | A sender restart separates the losses of the sessions |
| IpoAccounting.CompleteAllLoss | source/io_node/receivers/ipo_receiver_io_node.cpp:188-210 | The masked subtraction of the loss counter adds exactly the unwrapped gaps |
| IpoAccounting.CompleteAllCounts | source/io_node/receivers/ipo_receiver_io_node.cpp:188-210 | Every delivery adds one to the packets or to the drops of each path, by its flags |
| IpoAccounting.ArriveKeepsAccount | source/io_node/receivers/ipo_receiver_io_node.cpp:152-186 | Every arrival keeps the account of which paths each held packet was heard on |
| IpoAccounting.PollKeepsAccount | source/io_node/receivers/ipo_receiver_io_node.cpp:188-210 | Every poll moves that account from the held packets to the deliveries |
| IpoAccounting.RunCounted | source/io_node/receivers/ipo_receiver_io_node.cpp:152-216 | From power-on, whatever arrives: the counters of corrupt, late and received packets are the corrupt arrivals, the arrivals at most half the number space behind the last number, and the deliveries; every arrival is corrupt, late, accepted or a copy |
| IpoReceiver.Receiver.constructor | source/core/stream/receive/ipo_receive_stream.cpp:201-222 | A new receiver has an empty ring of the size that buffer and number space give |
| IpoReceiver.Receiver.StartAt | source/core/stream/receive/ipo_receive_stream.cpp:326-330 | `start` as a change of the state |
| IpoReceiver.Receiver.ProcessPacket | source/core/stream/receive/ipo_receive_stream.cpp:502-543 | The mode switch, classification and store of one packet, in place, equal to the state function of the theorems; also the application counters |
| IpoReceiver.Receiver.WakeFor | source/core/stream/receive/ipo_receive_stream.cpp:505-530 | The mode switch: anchor, restart or resume, equal to the function of which `IpoSessions.FirstPacketAnchors` and `IpoSessions.PauseDecides` say what it does |
| IpoReceiver.Receiver.StoreFresh | source/io_node/receivers/ipo_receiver_io_node.cpp:168-177 | A first copy is stored and its path flags are reset to the one path |
| IpoReceiver.Receiver.FindPacket | source/core/stream/receive/ipo_receive_stream.cpp:397-408 | The scan over dropped packets ends within one turn, at the first valid slot, or finds none |
| IpoReceiver.Receiver.SkipUnsynced | source/core/stream/receive/ipo_receive_stream.cpp:421-438 | The synchronisation loop ends; it clears exactly the run of packets older than the start time |
| IpoReceiver.Receiver.DeliverReady | source/core/stream/receive/ipo_receive_stream.cpp:439-469 | The delivery loop clears, credits and returns exactly the longest unwrapped run of packets held for more than the hold time |
| IpoReceiver.Receiver.CompletePacket | source/io_node/receivers/ipo_receiver_io_node.cpp:188-210 | Crediting the paths and counting the gap, in place |
| IpoReceiver.Receiver.ReadRing | source/core/stream/receive/ipo_receive_stream.cpp:386-479 | One poll of the ring in place equals the poll of the theorems |
| IpoReceiver.Receiver.NextChunk | source/core/stream/receive/ipo_receive_stream.cpp:332-482 | One call of `get_next_chunk` in place equals the call of the theorems: state, chunk and counters |
| IpmxRuns.TokenProtocol | source/io_node/senders/ipmx_sender_io_node.cpp:336-473 | At every moment of every run with two chunks or more in a field: committed first chunks == committed fields + (a field in progress ? 1 : 0), finished first chunks exceed finished fields by 0 or 1, and no next step of an in-order card can be out of order, unsolicited or for an unknown sender |
| IpmxRuns.BoundedAndSentOnce | source/io_node/senders/ipmx_sender_io_node.cpp:396-473 | Fields in flight, the one in progress included, never exceed the memory block; the chunks the card took are 0, 1, 2, ... in order, and prepared == taken + (a refused chunk pending ? 1 : 0) |
| IpmxRuns.ReportsAgree | source/io_node/senders/ipmx_sender_io_node.cpp:80-125 | The shared pending count is the sum over the senders of committed minus finished reports; each greeted sender has committed one report more than first chunks finished |
| IpmxRuns.SleeperIsWoken | source/io_node/senders/ipmx_sender_io_node.cpp:401-414 | At every moment of every run a sender allowed to sleep has the whole block in flight, and a last-chunk completion that frees a buffer is on its way |
| IpmxRuns.OneChunkStalls | source/io_node/senders/ipmx_sender_io_node.cpp:434-452 | With one chunk in a field no field is ever counted finished |
| IpmxRuns.WithinOneIff | source/io_node/senders/ipmx_sender_io_node.cpp:356-394 | For any number of senders: on all runs every sender keeps its finished first chunks within one of its finished fields if and only if a field has two chunks or more, or the block one field |
| IpmxSender.LoopPassContinuesRun | source/io_node/senders/ipmx_sender_io_node.cpp:664-709 | A pass of the loop whose steps the card allows and that succeeds leaves the node where a longer run leads, so what holds of every run holds after every pass |
| IpmxProtocol.StepKeepsInv | source/io_node/senders/ipmx_sender_io_node.cpp:298-473 | Every step that succeeds keeps the invariant of all senders, cards and the shared count |
| IpmxProtocol.StepFailsOnlyByDevice | source/io_node/senders/ipmx_sender_io_node.cpp:260-394 | From the invariant no step is out of order, unsolicited or for an unknown sender, so that a step fails only for its device; `IpmxProgress.StepSucceedsIff` says exactly when |
| IpmxProtocol.ReturnedTokenIsDue | source/io_node/senders/ipmx_sender_io_node.cpp:356-394 | The token at the front of the queue is the one the completion handler expects |
| IpmxProtocol.ReportIsSolicited | source/io_node/senders/ipmx_sender_io_node.cpp:612-633 | A report completion names a sender that has a report outstanding |
| IpmxProgress.StepSucceedsIff | source/io_node/senders/ipmx_sender_io_node.cpp:298-473 | From the invariant a step succeeds if and only if nothing it asks for fails: reports their buffer and layout, a due poll an answer that is no failure and can be read, a chunk its buffer unless it was refused before, its tracking at the begin and end of a field, and a commit that is accepted or refused for a full queue |
| IpmxProgress.NextStepSucceedsIff | source/io_node/senders/ipmx_sender_io_node.cpp:664-709 | So it is for the next step at every moment of every run: a card with no completion, or a full queue, never ends the loop |
| IpmxProgress.StepFailsWith | source/io_node/senders/ipmx_sender_io_node.cpp:298-473 | A step that fails returns the first failing answer |
| IpmxProgress.ReportCompletes | source/io_node/senders/ipmx_sender_io_node.cpp:612-633 | A completed report is taken off the shared count and off the sender it names, and nothing else changes |
| IpmxProgress.SleepsIff | source/io_node/senders/ipmx_sender_io_node.cpp:396-414 | At every moment of every run a greeted sender may sleep if and only if its block is in flight and all its reports are completed, but for that of a field whose first chunk alone came back |
| IpmxProgress.LoopFinishesFields | source/io_node/senders/ipmx_sender_io_node.cpp:664-709 | Progress: from every moment of every run, k * (chunks + 2) passes of the node's loop, with answers of the card none of which is a failure, bring every sender to finish k further fields |
| IpmxSender.SharedMessageHandler.CommitMessage | source/io_node/senders/ipmx_sender_io_node.cpp:80-97 | Counts a message as pending exactly when its layout is accepted |
| IpmxSender.SharedMessageHandler.CheckCompletion | source/io_node/senders/ipmx_sender_io_node.cpp:99-125 | Polls only while messages are pending, and takes one off exactly when a completion is read |
| IpmxSender.StreamSender.CommitSenderReport | source/io_node/senders/ipmx_sender_io_node.cpp:298-334 | The sender and the shared handler after a report, equal to the state function |
| IpmxSender.StreamSender.TrackMediaCompletions | source/io_node/senders/ipmx_sender_io_node.cpp:336-354 | Polling and handling one completion, equal to the state function, which succeeds with an unchanged sender when there is none (`IpmxProgress.StepSucceedsIff`) |
| IpmxSender.StreamSender.ProcessMediaCompletion | source/io_node/senders/ipmx_sender_io_node.cpp:356-394 | The token decides between last chunk, first chunk with a report, and out of order |
| IpmxSender.StreamSender.CommitNextMediaChunk | source/io_node/senders/ipmx_sender_io_node.cpp:416-473 | Preparing, marking and committing a chunk, keeping it when the queue is full, equal to the state function |
| IpmxSender.StreamSender.NotifyReportCompletion | source/io_node/senders/ipmx_sender_io_node.cpp:260-285 | Counts a finished report unless none is outstanding |
| IpmxSender.SenderNode.CheckReportCompletion | source/io_node/senders/ipmx_sender_io_node.cpp:612-633 | Routes a report completion to the sender it names |
| IpmxSender.SenderNode.SendInitialReports | source/io_node/senders/ipmx_sender_io_node.cpp:596-610 | The initial reports are the steps of the protocol, up to the first failure |
| IpmxSender.SenderNode.LoopPass | source/io_node/senders/ipmx_sender_io_node.cpp:664-709 | One pass of the loop is a report check and two steps for every sender, up to the first failure; the node may idle exactly when every sender can sleep |
| RtpHeader.WriterRoundTripIff | source/services/buffer_wr/rtp_video_buffer_writer.cpp:92-121 | Parsing a written header gives back the header if and only if its fields fit their bits |
| RtpHeader.StreamRoundTrip | source/io_node/common/rtp_video_send_stream.cpp:82-115 | The row data header and the numbers of a send stream header parse back; for what the receivers read, version included, see `RtpHeader.ReceiverRoundTrip`, and for the other fields `RtpHeader.StreamFixedFields` |
| RtpHeader.ReceiverRoundTrip | source/io_node/receivers/rtp_receiver_io_node.cpp:187-200 | Whichever builder wrote a header that fits, and with any payload behind it: the first byte is 0x80, both receivers read the sequence number, of 16 or 32 bits, and the latency receiver also timestamp, marker and field |
| RtpHeader.BuildersAgree | source/io_node/common/rtp_video_send_stream.cpp:82-115 | The headers of the two builders parse to the same header, and the receivers read the same of both |
| RtpHeader.StreamFixedFields | source/io_node/common/rtp_video_send_stream.cpp:95-100 | The send stream announces version 2, payload type 96 and its own source number, and a second sample row exactly when the offset does not fit its bits |
| RtpHeader.WriterFixedFields | source/services/buffer_wr/rtp_media_buffer_writer.cpp:112-121 | The buffer writer announces version 2 and no second sample row; payload type and source number are read back if and only if they fit 7 and 32 bits |
| RtpHeader.SameBytesIff | source/io_node/common/rtp_video_send_stream.cpp:95-100 | The bytes of the two builders are equal if and only if payload type is 96 and the writer's source number the stream's constant with its bytes turned round; with the default, the same constant, they differ in every packet |
| RtpHeader.SourcesAreSkipped | source/io_node/receivers/rtp_receiver_io_node.cpp:193-197 | With any contributing sources put into the header the receivers read what they read without them |
| RtpHeader.RefusedIff | source/io_node/receivers/rtp_receiver_io_node.cpp:187-191 | A receiver refuses exactly the packets with less than four bytes of header or another version than 2 |
| VideoWriter.ChunkIsFull | source/services/buffer_wr/rtp_media_buffer_writer.cpp:55-72 | The second guard of the write loop never ends a chunk early |
| VideoWriter.ChunksJoin | source/services/buffer_wr/rtp_media_buffer_writer.cpp:55-72 | Writing is independent of how packets are split into chunks |
| VideoWriter.PayloadsArePrefix | source/services/buffer_wr/rtp_video_buffer_writer.cpp:123-151 | The payloads of the first n packets of a frame are its first min(n * raw, size) bytes |
| VideoWriter.PlaceCounts | source/services/buffer_wr/rtp_video_buffer_writer.cpp:72-90 | Packet n lies in frame, row and column such that they count n |
| VideoWriter.ExpectedAddress | source/services/buffer_wr/rtp_video_buffer_writer.cpp:92-114 | In a well-aligned format row * width + offset == packet number in the frame * pixels per packet, with row and offset inside the frame |
| VideoWriter.UpdateFollows | source/services/buffer_wr/rtp_video_buffer_writer.cpp:72-90 | The counter update takes the counters of packet n to those of packet n + 1: sequence, one timestamp per frame, row, offset |
| VideoWriter.ChunkFollows | source/services/buffer_wr/rtp_media_buffer_writer.cpp:55-72 | A chunk written from packet n on carries the headers of packets n, n + 1, ...; the marker is on the last packet of a frame |
| VideoWriter.RunFollows | source/services/buffer_wr/rtp_media_buffer_writer.cpp:55-72 | Whatever frames are set at frame boundaries, of interlaced formats both fields as one, and however they are cut into chunks, packet n of the run carries the header of packet n, marked in every second field |
| VideoWriter.ResetAtBoundary | source/services/buffer_wr/rtp_video_buffer_writer.cpp:64-70 | Setting a frame at a boundary leaves the counters right if and only if it does not come between the two fields of an interlaced frame |
| VideoWriter.FieldByFieldIsUnmarked | source/services/buffer_wr/rtp_video_buffer_writer.cpp:58-70 | A caller that sets every field as a frame of its own gets every header right but for the field bit, which is never set |
| VideoBuffer.WireHoldsExpected | source/services/buffer_wr/rtp_media_buffer_writer.cpp:55-72 | After a chunk is written each stride parses, for the readers of the whole header and for both receivers, to the header of its packet, with the writer's payload type and source number, followed by its part of the frame |
| VideoBuffer.VideoBufferWriter.NextFrame | source/services/buffer_wr/rtp_video_buffer_writer.cpp:123-129 | Setting a frame resets the in-frame state |
| VideoBuffer.VideoBufferWriter.BuildHeader | source/services/buffer_wr/rtp_media_buffer_writer.cpp:98-124 | The header bytes, written in place; nothing else changes |
| VideoBuffer.VideoBufferWriter.FillPacket | source/services/buffer_wr/rtp_video_buffer_writer.cpp:131-151 | The next part of the frame, copied in place; a frame sent whole is let go |
| VideoBuffer.VideoBufferWriter.UpdateInFrameState | source/services/buffer_wr/rtp_video_buffer_writer.cpp:72-90 | The counter update in place equals the function of the theorems |
| VideoBuffer.VideoBufferWriter.WriteBuffer | source/services/buffer_wr/rtp_media_buffer_writer.cpp:55-72 | The write loop leaves exactly the memory and the state of the theorems |
| VideoSendStream.StreamRunFollows | source/io_node/common/rtp_video_send_stream.cpp:52-142 | Progressive or interlaced: with chunks of whole rows that divide the frame or field, every chunk of a run carries the expected headers, field bit, row within the field and timestamp included |
| VideoSendStream.BuildersAgreeOnRuns | source/io_node/common/rtp_video_send_stream.cpp:52-142 | From equal starts the send stream and the buffer writer emit the same headers, packet by packet, over any number of chunks |
| VideoSendStream.AgreeIff | source/io_node/common/rtp_video_send_stream.cpp:52-80 | For chunks that divide the frame, the two builders agree on every run if and only if a chunk is whole rows or the frame has one row |
| VideoSender.RtpVideoSendStream.BuildHeader | source/io_node/common/rtp_video_send_stream.cpp:82-142 | One header in place and the counters after it; what readers make of it is `VideoSender.PreparedHoldsExpected` |
| VideoSender.PreparedHoldsExpected | source/io_node/common/rtp_video_send_stream.cpp:52-142 | Over every such run each stride of a prepared chunk starts with bytes that both receivers read as the header of the packet whose turn it is, with version 2, payload type 96 and the stream's source number |
| VideoSender.RtpVideoSendStream.PrepareChunk | source/io_node/common/rtp_video_send_stream.cpp:52-80 | The stride loop leaves exactly the memory and the state of the theorems |
| RtpReceiver.LossExactIff | source/io_node/receivers/rtp_receiver_io_node.cpp:152-170 | For any packets received in order the drop counter is the number missing between the first and the last if and only if no gap reaches the number space |
| RtpReceiver.SeenIffGapsFit | source/io_node/receivers/rtp_receiver_io_node.cpp:164-169 | The masked gaps never add up to more than what is missing, and add up to it exactly when every gap fits |
| RtpReceiver.RunLossExact | source/io_node/receivers/rtp_receiver_io_node.cpp:152-200 | From either builder to the reader, for 16-bit and for extended numbers: whichever packets of a run are lost, the count is what is missing if and only if no gap reaches the number space |
| RtpReceiver.SentIsRead | source/io_node/receivers/rtp_receiver_io_node.cpp:187-200 | A packet of a run, from either builder, is read back as its sequence number, of 16 or 32 bits, timestamp and marker |
| RtpReceiver.FramesAreNoticed | source/io_node/receivers/rtp_receiver_io_node.cpp:174-184 | Over a complete run the frame handler is called once for each frame after the first, with its timestamp; never when frames are single packets |
| RtpReceiver.CorruptDoNotDisturb | source/io_node/receivers/rtp_receiver_io_node.cpp:152-200 | Packets too short or of another version are counted once each and otherwise change nothing: losses and frames are those of the run without them |
| RtpReceiver.RtpReceiveStream.ProcessPacketHeader | source/io_node/receivers/rtp_receiver_io_node.cpp:152-185 | Counters, last number and frame notification after one header |
| RtpReceiver.RtpReceiveStream.ProcessChunk | source/io_node/receivers/rtp_receiver_io_node.cpp:71-86 | The stride loop over the headers of a chunk |
| Divisors.EuclidFindsGcd | source/services/legacy_util/rational.cpp:96-110 | The divisors of what Euclid finds are exactly the common divisors |
| Divisors.LowestTermsUnique | source/services/legacy_util/rational.cpp:136-153 | Equal fractions in lowest terms are the same fraction |
| RationalModel.ReducedRatio | source/services/legacy_util/rational.cpp:136-153 | Reducing keeps the ratio and leaves no common divisor |
| RationalModel.NormalisedParts | source/services/legacy_util/rational.cpp:66-85 | Normalising is exact: fraction below one, lowest terms unless zero, whole part carried to the integer register |
| RationalSums.LcdNeverVanishes | source/services/legacy_util/rational.cpp:116-121 | Two to the 64 divides no least common denominator of 64-bit numbers: what its register keeps is never zero, so no sum or difference throws for it |
| RationalSums.SumExactIff | source/services/legacy_util/rational.cpp:164-205 | For all numbers: a sum never throws, and it is exact if and only if what the register keeps of the common denominator is a multiple of the denominator of each fraction that is not zero, and the numerator sum and the integer sum with its carry fit 64 bits |
| RationalSums.SumNeedsLcd | source/services/legacy_util/rational.cpp:116-121 | For two fractions that are not zero this needs the least common denominator to fit |
| RationalSums.SumFitsWithLcd | source/services/legacy_util/rational.cpp:164-205 | When the least common denominator fits, only the two sums have to |
| RationalSums.DifferenceExactIff | source/services/legacy_util/rational.cpp:164-205 | For all numbers, also when the least common denominator overflows: subtraction is exact if and only if the register rounds both fractions by the same amount and the result would not be negative; and then a negative result throws |
| RationalSums.DifferenceExact | source/services/legacy_util/rational.cpp:164-205 | When the least common denominator fits, subtraction throws if and only if the result would be negative and is exact otherwise |
| RationalOrder.OrderNeedsLcd | source/services/legacy_util/rational.cpp:164-205 | Two numbers whose least common denominator does not fit, for which subtraction does not throw although the result would be negative, and `<` is false although the first is smaller |
| RationalSums.SelfDifferenceIff | source/services/legacy_util/rational.cpp:140-141 | A number less itself keeps its denominator: it is the usual zero if and only if the denominator was 1 |
| RationalOrder.SumUndoneIff | source/services/legacy_util/rational.cpp:164-205 | When the sum is exact, subtracting the number again gives the value back if and only if the register rounds sum and number by the same amount, and then the very number if it has a fraction |
| RationalProducts.ProductExact | source/services/legacy_util/rational.cpp:238-269 | Without overflow the product is exact and normal |
| RationalProducts.ProductExactForAll | source/services/legacy_util/rational.cpp:238-269 | For all numbers whose improper numerators fit, zero fractions over any denominator included: the product is exact if and only if the registers keep the ratio of the cross-reduced products |
| RationalProducts.QuotientExactForAll | source/services/legacy_util/rational.cpp:238-269 | The same for the quotient by a number that is not zero |
| RationalProducts.ProductExactIff | source/services/legacy_util/rational.cpp:238-269 | For numbers whose zero fractions are over one and whose improper numerators fit, the product is exact if and only if the cross-reduced products fit 64 bits |
| RationalProducts.QuotientExactIff | source/services/legacy_util/rational.cpp:238-269 | The same for the quotient by a number that is not zero |
| RationalProducts.ZeroSurvivesOverflow | source/services/legacy_util/rational.cpp:140-141 | A zero that has kept a large denominator overflows and is still zero: the condition is not necessary for it |
| RationalProducts.QuotientExact | source/services/legacy_util/rational.cpp:238-269 | Without overflow division throws if and only if the divisor is zero, and is exact and normal otherwise |
| RationalOrder.OrderExactIff | source/services/legacy_util/rational.cpp:313-323 | For all numbers: `<` is the order of the values if and only if the integers differ, or what rounding takes from one fraction more than from the other does not outweigh the distance of the rounded numerators |
| RationalOrder.OrderIsValueOrder | source/services/legacy_util/rational.cpp:313-323 | It is, when both fractions are rounded by the same amount, as they are when the least common denominator fits |
| RationalOrder.EqualIffSameValue | source/services/legacy_util/rational.cpp:302-306 | `==` is equality of values, except that zero fractions also compare the denominators they have left |
| RationalSums.SumsAreNormal | source/services/legacy_util/rational.cpp:164-205 | No sum or difference leaves a number that is not normal, even on overflow |
| RationalProducts.ProductsAreNormal | source/services/legacy_util/rational.cpp:238-269 | No product or quotient leaves a number that is not normal, even on overflow |
| RationalObject.Gcd | source/services/legacy_util/rational.cpp:96-110 | The loop computes the function of the theorems |
| RationalObject.Lcd | source/services/legacy_util/rational.cpp:116-121 | The least common denominator, cut to 64 bits |
| RationalObject.ReduceTwo | source/services/legacy_util/rational.cpp:123-134 | Takes out exactly the largest common power of two |
| RationalObject.Reduce | source/services/legacy_util/rational.cpp:136-153 | Halving first and Euclid after it leave what Euclid alone leaves; throws exactly on a zero denominator of a non-zero numerator |
| RationalObject.Rational.Init | source/services/legacy_util/rational.cpp:66-85 | The fields after normalising, unchanged when it throws |
| RationalObject.Rational.AddSub | source/services/legacy_util/rational.cpp:164-205 | The branches of sum and difference compute the function of the theorems |
| RationalObject.Rational.AddSubAssign | source/services/legacy_util/rational.cpp:207-216 | Assigns the result, also of a number to itself; an exception leaves the object unchanged |
| RationalObject.Rational.MulDiv | source/services/legacy_util/rational.cpp:238-269 | Cross reduction and products compute the function of the theorems |
| RationalObject.Rational.MulDivAssign | source/services/legacy_util/rational.cpp:271-280 | Assigns the result; an exception leaves the object unchanged |
| RationalObject.Rational.Less | source/services/legacy_util/rational.cpp:313-323 | The comparison computes the function of the theorems |
| TxWindow.RunMeasuresScheduled | source/io_node/misc/media_latency_io_node.cpp:251-431 | Over every run, failing polls and draining included: completion t is measured against the time recorded for token t, none is out of order unless one could not be read, at most fields * (chunks - 1) tokens are out, and the unsigned window subtraction never wraps |
| TxWindow.DrainHandlesAll | source/io_node/misc/media_latency_io_node.cpp:411-424 | Unless a completion could not be read, draining ends with every token handled and measured once the card reports them, however often it has nothing to report in between |
| TxWindow.TurnKeeps | source/io_node/misc/media_latency_io_node.cpp:302-408 | One turn of the loop keeps the window and ring invariant, although place is decided before completions are fetched |
| TxWindow.RecordKept | source/io_node/misc/media_latency_io_node.cpp:353-353 | Writing the ring, for a tracked or an untracked chunk, overwrites the time of no token that is out |
| TxWindow.CommitChunksKeeps | source/io_node/misc/media_latency_io_node.cpp:344-393 | The commit loop keeps the invariant wherever it stops: at the end of the field, after a busy card, on failure |
| TxWindow.FieldsFollowTokens | source/io_node/misc/media_latency_io_node.cpp:330-333 | Completed fields can pass committed ones only by one, and only when all tracked chunks of the field in progress are out |
| TxProgress.FetchHandles | source/io_node/misc/media_latency_io_node.cpp:312-337 | A fetch handles exactly the completions reported until the card has nothing, the budget is spent or the field complete, and ends the loop if and only if a poll fails before that |
| TxProgress.CommitsChunks | source/io_node/misc/media_latency_io_node.cpp:340-393 | The commit loop commits exactly the chunks accepted up to the end of the field, the first refusal or failure, records their times, and ends the loop if and only if a chunk is missing or fails |
| TxProgress.TurnDoes | source/io_node/misc/media_latency_io_node.cpp:296-408 | A whole turn: completions, chunks, times and fields counted, and the loop ended if and only if a poll or a chunk fails, a chunk is missing, or chunks were committed and the time is over |
| TxProgress.HarmlessGoesOn | source/io_node/misc/media_latency_io_node.cpp:312-337 | A turn in which nothing fails does not end the loop, also when the card has nothing to report |
| TxProgress.TurnsCompleteFields | source/io_node/misc/media_latency_io_node.cpp:296-408 | Progress: from every moment of every run whose loop goes on, three turns for each tracked chunk of k fields, and two more, complete k further fields, if nothing fails and completions that are out are reported |
| TxProgress.AnyFieldsComplete | source/io_node/misc/media_latency_io_node.cpp:296-408 | For every number of fields there is a run that completes them and goes on |
| TxProgress.DrainFails | source/io_node/misc/media_latency_io_node.cpp:411-424 | A poll that fails while tokens are out ends the draining there; all that was reported before is handled |
| TxWindow.RingSufficesIff | source/io_node/misc/media_latency_io_node.cpp:289-290 | The exact size of the ring: on every run every completion is measured against its own time if and only if there are more slots than fields * (chunks - 1), since the untracked chunks are recorded too |
| TxWindow.ReservedSuffices | source/io_node/misc/media_latency_io_node.cpp:289-290 | The size the node reserves meets it |
| TxSender.MediaTxIONode.TryProcessOneCompletion | source/io_node/misc/media_latency_io_node.cpp:452-481 | One poll: nothing to report, a failing poll, an unreadable completion, one out of order, or one measured and counted |
| TxSender.MediaTxIONode.FetchCompletions | source/io_node/misc/media_latency_io_node.cpp:315-337 | The fetch loop with its budget and its ends, and the closing of a completed field, equal to the functions of which `TxProgress.FetchHandles` says when they end the loop |
| TxSender.MediaTxIONode.DrainCompletions | source/io_node/misc/media_latency_io_node.cpp:411-424 | The draining loop, up to the last token or the first failure |
| TxSender.MediaTxIONode.CommitOneChunk | source/io_node/misc/media_latency_io_node.cpp:353-388 | Records the time, tracks all but the last chunk, counts |
| TxSender.MediaTxIONode.CommitFieldChunks | source/io_node/misc/media_latency_io_node.cpp:340-397 | The commit loop, and the closing of a committed field |
| TxSender.MediaTxIONode.RunOnce | source/io_node/misc/media_latency_io_node.cpp:302-408 | One turn in place equals the turn of the theorems |
| MemoryLayout.AlignLengthIsLeast | source/services/memory_allocation/memory_allocator_interface.cpp:376-379 | The least whole number of pages that holds the length |
| MemoryLayout.AlignPointerFits | source/services/memory_allocation/memory_allocator_interface.cpp:365-374 | The aligned block starts at the first aligned address, lies within the bytes asked for and is null exactly when they are |
| MemoryLayout.NestedIsFlat | source/apps/rmax_base_memory_strategy.cpp:183-210 | Cutting to receivers and each receiver to its streams is cutting to all streams at once, and every receiver accepts its part |
| MemoryLayout.AcceptedIff | source/io_node/receivers/receiver_io_node_base.cpp:181-202 | A receiver accepts memory if and only if its streams need payload memory, there is some, and every slice it cuts for them lies in it |
| MemoryLayout.AllocatedIff | source/apps/rmax_base_memory_strategy.cpp:94-117 | Both blocks are there if and only if the allocators had the memory that is needed |
| MemoryLayout.SlicesApart | source/io_node/receivers/receiver_io_node_base.cpp:204-244 | Slices lie one behind the other inside the memory that was cut |
| MemoryLayout.DetermineAllIff | source/apps/rmax_base_memory_strategy.cpp:55-92 | The layout is determined if and only if every receiver has a stream that needs payload memory |
| MemoryLayout.EveryStreamServed | source/apps/rmax_base_memory_strategy.cpp:183-253 | When the allocators have the memory, every stream gets at least what it asked for, on pages, inside the memory allocated and apart from every other stream |
| MemoryStrategy.ReceiverIONode.InitializeMemoryLayout | source/io_node/receivers/receiver_io_node_base.cpp:113-142 | The running sums are the totals of the aligned sizes; when a stream cannot tell its size it fails and leaves the receiver uninitialised |
| MemoryStrategy.ReceiverIONode.ApplyMemoryLayout | source/io_node/receivers/receiver_io_node_base.cpp:155-244 | Refused before initialisation and by validation, changing nothing; otherwise the offset loop gives the streams exactly the slices, up to the first stream that does not take its part |
| MemoryStrategy.RmaxBaseMemoryStrategy.DetermineMemoryLayout | source/apps/rmax_base_memory_strategy.cpp:55-92 | Succeeds exactly when every stream can tell its size and every receiver needs payload memory, and records sizes and totals; once it has succeeded, calling it again succeeds and changes nothing |
| MemoryStrategy.RmaxBaseMemoryStrategy.AllocateMemory | source/apps/rmax_base_memory_strategy.cpp:94-117 | Succeeds when there is nothing to do, and otherwise exactly when the layout is determined and both blocks that are needed were allocated |
| MemoryStrategy.RmaxBaseMemoryStrategy.ApplyMemoryLayout | source/apps/rmax_base_memory_strategy.cpp:183-240 | Succeeds exactly when every receiver accepts its part and every stream takes its own, and then the pointer loop gave every receiver exactly its part; without memory of the application it hands out null pointers, which a receiver refuses |
| FramePool.EveryFrameInOnePlace | source/services/media/media_frame_pool.cpp:74-117 | For every order of gets, releases and the stop, each frame index is in exactly one place: free, held by one user, or dropped after the stop |
| FramePool.FirstGivenFirstTaken | source/services/media/media_frame_pool.cpp:74-117 | Frames are handed out in the order in which they were made and then given back |
| FramePool.GetSucceedsIff | source/services/media/media_frame_pool.cpp:85-99 | Over every order of operations: a get hands out a frame, one that nobody holds, if and only if the pool was not stopped and some frame is not held; otherwise nothing changes |
| FramePool.UsersHoldDisjointMemory | source/services/media/media_frame_pool.cpp:34-41 | Two users never hold overlapping memory |
| FramePool.FramesInside | source/services/media/media_frame_pool.cpp:44-65 | The frames lie in the memory provided, which is refused when too small |
| FramePool.FramesRefusedIff | source/services/media/media_frame_pool.cpp:50-56 | Provided memory is refused if and only if there is none or some frame would reach past its end |
| FramePool.OwnFramesInside | source/services/media/media_frame_pool.cpp:23-42 | The frames lie in the memory allocated; the constructor throws exactly when there is none |
| FramePool.MediaFramePool.constructor | source/services/media/media_frame_pool.cpp:34-41 | All indices are free, in order |
| FramePool.MediaFramePool.GetFrame | source/services/media/media_frame_pool.cpp:85-99 | Takes the front of the queue, or nothing, equal to the function of which `FramePool.GetSucceedsIff` says when it has a frame |
| FramePool.MediaFramePool.ReturnFrameToPool | source/services/media/media_frame_pool.cpp:74-83 | Puts the index at the end, unless stopped |
| FrameWaiting.NoFrameIsOverslept | source/services/media/media_frame_provider.cpp:152-188 | Over every run of any number of waiting consumers, non-blocking gets, adds and stops in any order: delivered + queued == accepted, in order, the bound is kept, and whenever a frame is queued while a consumer sleeps, at least as many consumers as frames are woken and on their way |
| FrameWaiting.FramesMove | source/services/media/media_frame_provider.cpp:152-188 | At every moment of every run a get, blocking or not and stopped or not, takes the oldest frame waiting if and only if there is one; a frame is accepted if and only if the bound leaves room for it |
| FrameWaiting.AllCanBeTaken | source/services/media/media_frame_provider.cpp:152-174 | Whenever nobody holds the mutex, gets can take out every frame accepted |
| FrameWaiting.StopWakesAllIff | source/services/media/media_frame_provider.cpp:152-200 | When a stop notifies, no consumer sleeps in any continuation if and only if none had found the queue empty and not yet gone to sleep: the stop sets its flag without the mutex |
| FrameWaiting.StopLeavesAtMostOne | source/services/media/media_frame_provider.cpp:196-200 | After a stop has notified, at most one consumer is ever asleep |
| FrameWaiting.StopCanLeaveOne | source/services/media/media_frame_provider.cpp:152-200 | For every bound and any number of consumers a run in which a stop, all its notifications made, leaves one asleep |
| FrameWaiting.LockedStopWakesAll | source/services/media/media_frame_provider.cpp:214-224 | A stop that holds the mutex while it sets the flag, as the destructor of the file provider does, leaves nobody asleep, whatever happens around it |
| FrameProvider.LoopGoesRound | source/services/media/media_frame_provider.cpp:350-356 | A looping provider hands out frame k modulo the file at get k |
| FrameProvider.OnceThrough | source/services/media/media_frame_provider.cpp:226-249 | A provider that does not loop hands out the file once |
| FrameProvider.GetIsDefinedIff | source/services/media/media_frame_provider.cpp:226-237 | A blocking get of a loaded file has an answer if and only if the provider was stopped, or the file has frames and loops or is not yet at its end; otherwise it takes the front of an empty queue |
| FrameProvider.BufferedMediaFrameProvider.AddFrame | source/services/media/media_frame_provider.cpp:176-188 | Refuses a null frame and a full queue, and otherwise appends |
| FrameProvider.BufferedMediaFrameProvider.GetFrame | source/services/media/media_frame_provider.cpp:152-174 | Takes the front, or nothing |

## Left out

- IPO: synchronisation of the sub-streams before the start, packet memory other than the slots, and printing and resetting of interval statistics are not modelled; one call of `start` is, before the first poll.
- IPO: the first sequence number and hardware timestamps that a chunk reports are fields of the packets the model returns; a poll that delivers nothing returns no packets, where the source still writes the first of them.
- IPO: ordering is not claimed for packets that do not fit the ring, which the source accepts (`IpoBreaks.BehindAnchorIsDeliveredLate`), nor for a second `start` call.
- IPO: for a ring of half the number space plus one, order is proved past the synchronisation (`IpoRings`), not from the first packet on.
- IPMX: counters are unbounded, with runs shorter than the all-ones token; wake-up times, report contents and clocks are not modelled.
- IPMX: fields of one chunk are covered only by `IpmxRuns.OneChunkStalls` and `IpmxRuns.WithinOneIff`, as the source never marks their last chunk.
- RTP: the write loop with headers and payloads in separate memory, interlaced formats with an odd number of lines, and formats whose packets straddle lines, for which packets per line is truncated. For interlaced formats whose fields are set as frames of their own `VideoWriter.FieldByFieldIsUnmarked` says what the headers are.
- RTP: send times, packet spacing and the conversion of times to RTP timestamps are floating point; the first timestamp and the ticks of a frame are parameters.
- RTP: a receiver without a frame handler and the packet and byte counters of a chunk.
- RationalProducts.ProductExactForAll: assumes that the improper numerators of the operands fit 64 bits; when one does not, its register holds another number. `RationalProducts.ProductExactIff` assumes besides that zero fractions are over one, without which its condition is not necessary (`RationalProducts.ZeroSurvivesOverflow`).
- Rational numbers: comparison with plain integers and text output are easy consequences of the fields.
- TxWindow: the time limit of the draining loop is the end of its answers. Latency statistics and the exchange with the server are not modelled. Fields have two chunks or more; with one nothing is tracked.
- MemoryStrategy: memory allocated by the device library is refused by the receivers modelled here; other components are not modelled.
- MemoryLayout: sizes are unbounded, where the source adds them in 64 bits; registration with the device, memory keys and the memory of senders are not modelled.
- FramePool: locks make every operation one step; its blocking get waits as that of the buffered provider (`FrameWaiting`). Destruction of the pool while frames are held is not modelled.
- FrameProvider: reading the file and frame metadata are not modelled.
- Everything else: device calls, GPU memory, threads and signals, command line, session descriptions and printing.
