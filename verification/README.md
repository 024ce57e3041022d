# GNU Radio: models and proofs of the stream runtime and the ATSC trellis codec

This project models four parts of GNU Radio in Dafny and proves what they are there for.

**The stream runtime** (`Rounding`, `Executor`, `ThreadBody`, `Rates`, `Network`, `Iteration`, `Wakeup`, `Preservation`, `Deadlock`,
`StuckSink`, `SleepingSink`, `Drain`, `Siblings`, `Runs`, `Sizing`, `Buffer`, `Tags`, `LostTags`, `Propagation`,
`Flowgraph`, `Hierarchy`, `Wrapping`). One thread runs each block. A thread clears its changed flags, looks at its
input and its outputs one lock at a time, decides how many items to ask for, works, moves its pointers, notifies its
neighbours, and waits. `Executor` is one decision of one block, with its space on the outputs, alignment, and retry by
halving; the class `BlockExecutor` is the code, and the functions `Decide` and `Settle` say what it is to do. `Network`
is the whole machine as interleaved steps of all threads; `ThreadBody` is what a thread does with the state that an
iteration returns, and `Iteration` shows that a thread of the network does just that. `Wakeup.Inv` is what each step
keeps. From it follow: no
buffer is ever overwritten, no wake-up is lost, and a state in which nobody can move is one in which everybody has
ended, but for one kind of sink, which is determined exactly. `Drain` says what is left unread at the end. `Buffer` is
the circular buffer with its readers and tags, shown to be a stream for every reader under every interleaving, item by
item; `Tags` follows tags down a tree of blocks, any number of readers a buffer, while the writers prune behind them,
and `Propagation` says where they land; `Sizing` says how large the buffers are; `Flowgraph` and `Hierarchy` make the
flat graph, and `Wrapping` shows that putting blocks into one more hierarchical block does not change it.

Rates are doubles in the code, and the model does not replace them by exact fractions. What a block makes of a product
with its rate is a function of the block (`estimate`), which may give the quotient rounded down or, where the quotient
is whole, one less; any arithmetic with a relative error up to one in 10^15, doubles among them, gives one of these
(`RoundedProduct`). The theorems hold for all of them.

**The ATSC trellis codec** (`Trellis`, `Viterbi`, `Recovery`, `Mux`, `Codec`, `Link`). The encoder of section 4.2.5
of Annex D of ATSC A/53, the Viterbi decoder with its two rows of metrics and its 64-bit registers, and the twelve-way
multiplexer around both. The decoder is maximum likelihood; noise of total size below 2 does not hurt it; and a
transmitter and a receiver together give back each block one call later.

**The equaliser's segmenter** (`Equalizer`), a machine that cuts any chunk of samples into pieces, and the
least-mean-squares filter it drives, whose training brings it nearer to every filter that makes no error on the known
samples, by an amount that is given. **The preferences text format** (`Prefs`), a printer, a line joiner and a parser.

Where the code does its work by changing fields and arrays, so does the model, in classes and methods; each method is
proved against a function or predicate of its inputs and its old state, and the theorems are about those.

What the code does not do:

- All start metrics of the decoder are equal, so the high bit of each coder's very first dibit always comes out as 0:
  the first dibit is right if and only if it is below 2 (`FirstDibitRecovered`), and the first block is intact if and
  only if none of its first twelve bytes has its top bit set (`FirstBlockIntact`). Everything else comes through.
- A decimating sink can sleep for ever on a finished input. When its input is done and holds at least an output
  multiple of items, but not enough for that many of its own, it is neither finished nor given work
  (`block_executor.cc:254`, `:261-270`). Exactly the sinks with a decimation above 1 and a history of at most
  multiple times decimation can be left so, and those with a history one longer for which the product of just that
  input and the rate falls short of the multiple, as 49 times 1.0/49 does (`CanStick`, `OnlyTheseStick`,
  `SinkNeverEnds`).
- A block that ends marks its input buffer as done for everybody (`block_detail.cc:103-104`), also for its sibling
  readers, and these are not notified. So a reader that ends by itself can cut off a sibling whose writer lives:
  `SiblingCutOff` is a run of a source and two 1:1 sinks after which one sink has ended with as much unread as it
  takes at once, having read nothing, while the source still writes. Nothing is lost as long as no such sibling ends
  early (`NothingLost`); in particular where only sources end by themselves, or no reader of a shared buffer ends
  before its writer (`NothingLostAtAll`).
- A writer that looks for room prunes tags behind the readers as they stood at its look before. That loses a tag which
  a reader has consumed but not yet collected if and only if the least position has moved since then, and stood above
  the tag already then (`LookLoses`). Every tag arrives exactly once, or not at all if it was lost so on its way
  (`ExactlyOnce`). It cannot be lost to a block that is the only reader of its buffer and consumes once in a call
  (`ChainLosesNothing`); `TwoMovesLoseTags` and `TwoReadersLoseTags` are runs in which either condition fails.
- Where the product of a tag's offset and the rate is rounded below a whole number, the tag of the first item of a call
  lands on the item before those the call produces (`TagLands`).
- An empty chunk given to the equaliser while a field sync is due makes it look at the tag behind the chunk; the lock
  may then differ, but the samples ahead are taken for the same (`TwoCalls`, `SameAheadRuns`).
- A preferences file with a line of 1024 characters or more is never read to its end (`StuckOnLongLines`); two section
  labels with nothing between them make a count wrap around (`AdjacentLabels`); a line without an equals sign swallows
  the section (`NoEquals`).

## Model

| member | source | states |
|---|---|---|
| Trellis.TablesMatchGenerator | gr-atsc/lib/gen_encoder.py:23-46 | both encoder tables hold, for every state and input, the shift-register equations they were generated from |
| Trellis.BasicEncoder.Encode | gr-atsc/lib/atsci_basic_trellis_encoder.cc:54-61 | one call sends the symbol of the bit equations and moves the state by them |
| Trellis.SymbolsConcat | gr-atsc/lib/atsci_basic_trellis_encoder.cc:54-61 | encoding in two runs is encoding in one: the state field carries everything over |
| ViterbiTheory.PredInvertsNext | gr-atsc/lib/atsci_single_viterbi.cc:37-46 | for each state and input there is exactly one state that it comes from |
| SingleViterbi.TablesInvertEncoder | gr-atsc/lib/atsci_single_viterbi.cc:30-46 | entry 4n+k of the decoder's tables is the state that input k takes to n, and the level sent on the way |
| ViterbiTheory.SurvivorCost | gr-atsc/lib/atsci_single_viterbi.cc:67-85 | the survivor of a state is a path into it whose distance from the samples is the state's metric |
| ViterbiTheory.MetricBound | gr-atsc/lib/atsci_single_viterbi.cc:67-85 | no path from any start state into a state is nearer to the samples than that |
| ViterbiTheory.BestIsGlobal | gr-atsc/lib/atsci_single_viterbi.cc:86-92 | the best state's survivor is nearest of all paths, over all start states and all dibit sequences |
| SingleViterbi.WindowPlace | gr-atsc/lib/atsci_single_viterbi.cc:83-84 | the traceback register stays within 64 bits and holds the last 32 dibits of the survivor, oldest lowest |
| SingleViterbi.Decoder.Decode | gr-atsc/lib/atsci_single_viterbi.cc:64-100 | each call returns the dibit 31 steps back on a nearest path; stored metrics are the true ones less one common offset, through every pull-back |
| SingleViterbi.Decoder.Reset | gr-atsc/lib/atsci_single_viterbi.cc:48-57 | afterwards the decoder has heard nothing |
| SingleViterbi.Decoder.SmallestInput | gr-atsc/lib/atsci_single_viterbi.cc:69-80 | the comparison loop finds the first of the nearest inputs, and its metric |
| SingleViterbi.Decoder.UpdateState | gr-atsc/lib/atsci_single_viterbi.cc:82-84 | the new row's metric and register are those of the extended survivor, and no other entry is disturbed |
| SingleViterbi.Decoder.BestState | gr-atsc/lib/atsci_single_viterbi.cc:86-92 | the first of the states with the smallest metric |
| SingleViterbi.Decoder.PullBack | gr-atsc/lib/atsci_single_viterbi.cc:93-97 | subtracting the best metric from all of them only moves the common offset |
| Recovery.Triangle | gr-atsc/lib/atsci_single_viterbi.cc:70-78 | two paths near the same samples send symbols near each other |
| Recovery.WrongDibitCosts | gr-atsc/lib/atsci_basic_trellis_encoder.cc:26-46 | free distance: paths that differ in a dibit other than the first send symbols at least 2 apart in sum over three steps |
| Recovery.CheapRivalAgrees | gr-atsc/lib/atsci_single_viterbi.cc:64-100 | with noise below 2 a rival as good as the sent path agrees with it, but at the very ends |
| Recovery.FirstDibitIsLow | gr-atsc/lib/atsci_single_viterbi.cc:48-57 | every survivor's first dibit has high bit 0, as all start metrics are equal |
| Recovery.NoisyRecovery | gr-atsc/lib/atsci_single_viterbi.cc:64-100 | from any start state, with noise of total size below 2, call n returns the dibit sent 31 calls earlier (of the very first one the low bit; before that 0) |
| Recovery.FirstDibitRecovered | gr-atsc/lib/atsci_single_viterbi.cc:48-57 | without noise the first dibit comes back if and only if it is below 2 |
| Recovery.CleanCost | gr-atsc/lib/atsci_basic_trellis_encoder.cc:54-61 | the encoder's own levels are at distance 0 from its path |
| TrellisMux.EachDibitOnce | gr-atsc/lib/atsci_trellis_encoder.cc:134-195 | every dibit of every byte goes to exactly one coder at exactly one time |
| TrellisMux.EncodedAtSymbolIndex | gr-atsc/lib/atsci_trellis_encoder.cc:182-193 | read back at its own places, a block holds each coder's symbols as one run of the basic encoder makes them |
| TrellisMux.TurnAfterSync | gr-atsc/lib/atsci_trellis_encoder.cc:129-171 | after q+1 segment syncs it is coder 4(q mod 3)'s turn |
| TrellisMux.TrellisEncoder.EncodeHelper | gr-atsc/lib/atsci_trellis_encoder.cc:111-207 | the output is the closed form: the symbols 6, 1, 1, 6 at each multiple of 832, and behind them the rotated coders' symbols, to exactly 9984; each coder's state moves over its dibits |
| TrellisMux.TrellisEncoder.EncodeShift | gr-atsc/lib/atsci_trellis_encoder.cc:155-194 | one shift writes a sync if one is due and one symbol of each coder, in turn |
| TrellisMux.TrellisEncoder.LoadChunk | gr-atsc/lib/atsci_trellis_encoder.cc:148-153 | each coder gets the byte that its place in the rotation gives it |
| TrellisMux.TrellisEncoder.EncodeGroup | gr-atsc/lib/atsci_trellis_encoder.cc:182-193 | twelve symbols, one of each coder, each coder one dibit further |
| TrellisMux.BuildDecodeStructures | gr-atsc/lib/atsci_viterbi_gen.cc:78-193 | the generated tables are the encoder's mapping inverted: where each coder's symbols arrive, where its dibits belong, and the sync places |
| InterleaverFifo.Fifo.Stuff | gr-atsc/include/gnuradio/atsc/interleaver_fifo.h:45-56 | a pure delay by the constructed size, zeros first |
| InterleaverFifo.Fifo.Reset | gr-atsc/include/gnuradio/atsc/interleaver_fifo.h:79-84 | afterwards nothing has been fed |
| Codec.ViterbiDecoder.constructor | gr-atsc/lib/atsci_viterbi_decoder.cc:53-58 | twelve separate decoders and delay lines of 797 dibits that have heard nothing |
| Codec.ViterbiDecoder.DecodeHelper | gr-atsc/lib/atsci_viterbi_decoder.cc:109-176 | every byte of the output is what its own coder received, 828 samples late; every coder has heard its own samples and no others |
| Codec.ViterbiDecoder.DecodeCoder | gr-atsc/lib/atsci_viterbi_decoder.cc:156-172 | one coder's pass fills its own bytes and leaves the others alone |
| Codec.ViterbiDecoder.PutDibit | gr-atsc/lib/atsci_viterbi_decoder.cc:167-171 | patching two bits puts the dibit in its place and keeps the dibits already there |
| Codec.ViterbiDecoder.DecodeSample | gr-atsc/lib/atsci_viterbi_decoder.cc:163-164 | a dibit comes out of decoder and delay line 828 samples late |
| Codec.PatchPacked | gr-atsc/lib/atsci_viterbi_decoder.cc:170-171 | patching changes one dibit of a byte and no other |
| Codec.PackedAgain | gr-atsc/lib/atsci_trellis_encoder.cc:183 | the four dibits of a byte, high bits first, make it up |
| Codec.HomesDisjoint | gr-atsc/lib/atsci_viterbi_decoder.cc:167-171 | no two coders write the same byte |
| Link.StatesFollowStream | gr-atsc/lib/atsci_trellis_encoder.cc:111-207 | over any number of calls each coder's state is that of one run over its whole substream |
| Link.DibitReceived | gr-atsc/lib/atsci_viterbi_decoder.cc:53-56 | delay line and decoder together delay a coder's dibits by the 828 that one call handles |
| Link.ByteDelivered | gr-atsc/lib/atsci_viterbi_decoder.cc:109-176 | decode call n+1 gives each byte of block n, with noise below 2 on each coder; of a coder's first byte all but the top bit |
| Link.LinkDelivers | gr-atsc/lib/qa_atsci_viterbi_decoder.cc:106-122 | the whole block: nothing at first, then the block of the call before |
| Link.FirstBlockIntact | gr-atsc/lib/atsci_single_viterbi.cc:48-57 | the first block comes through unharmed if and only if its first twelve bytes are below 128 |
| Link.CleanIsQuiet | gr-atsc/lib/atsci_trellis_encoder.cc:111-207 | the encoder's own output carries no noise for any coder |
| Link.Transmit | gr-atsc/lib/atsci_trellis_encoder.cc:111-207 | a run of encoder calls sends every block as it is to be sent, states carried over |
| Link.Receive | gr-atsc/lib/atsci_viterbi_decoder.cc:109-176 | a run of decoder calls on samples with little noise delivers every block one call later |
| Link.Loopback | gr-atsc/lib/qa_atsci_viterbi_decoder.cc:106-122 | encoder and decoder back to back, over any number of blocks |
| Rounding.RoundsDownTo | gnuradio-runtime/lib/block_executor.cc:58-62 | rounding down never passes a multiple |
| Rounding.HalvingFalls | gnuradio-runtime/lib/block_executor.cc:380-383 | half of a request above one output multiple, rounded up, is below the value the pass was entered with |
| Executor.MinRoomFits | gnuradio-runtime/lib/block_executor.cc:69-91 | the space found is a positive multiple that every output has, or else one output is in the trouble reported |
| Executor.RoomOnIsMost | gnuradio-runtime/lib/block_executor.cc:74-87 | the room on an output is the most whole multiples that fit into its space and into half of its buffer and reach min_noutput_items; there is none exactly if no number does |
| Executor.TooSmallForAll | gnuradio-runtime/lib/block_executor.cc:78-79 | a buffer is called too small exactly if it could take nothing even when empty |
| Executor.MinRoomTaken | gnuradio-runtime/lib/block_executor.cc:74-90 | the room found on several outputs, every one of them can take |
| Executor.MinRoomIsMost | gnuradio-runtime/lib/block_executor.cc:74-90 | whatever all outputs can take is no more than it; and if there is such a number then there is room |
| Executor.BlockExecutor.MinAvailableSpace | gnuradio-runtime/lib/block_executor.cc:69-91 | the loop finds the least room, or the first output without room |
| Executor.AlignedFits | gnuradio-runtime/lib/block_executor.cc:334-367 | the alignment step never raises the request above what the pass was entered with, though it rounds up; unaligned stays in the range its setter accepts |
| Executor.AlignedKeepsStep | gnuradio-runtime/lib/block_executor.cc:337-366 | what is asked for and what is then still missing add up to whole alignments |
| Executor.AlignedNear | gnuradio-runtime/lib/block_executor.cc:334-367 | what is asked for is within one alignment of what could be: below it while the block is aligned, and on either side, by no more than what is missing, while it is not |
| Executor.SettleEnds | gnuradio-runtime/lib/block_executor.cc:316-413 | for every forecast and conversion the retry loop ends, with a request every input can meet or short of input after asking for at most one output multiple; a pass that made the block unaligned is never repeated |
| Executor.NotMuchLess | gnuradio-runtime/lib/block_executor.cc:316-384 | a block of variable rate with an output multiple is called for all that room and cap allow, or for at least half of a number that was too much for some input |
| Executor.BlockExecutor.AskFor | gnuradio-runtime/lib/block_executor.cc:317-367 | one pass: the fixed-rate step, the cap, and the three alignment branches, on the block's own fields |
| Executor.BlockExecutor.TryAgain | gnuradio-runtime/lib/block_executor.cc:316-384 | the loop comes to what Settle says, and its entry value falls at every turn |
| Executor.BlockExecutor.LookAtInputs | gnuradio-runtime/lib/block_executor.cc:240-258 | the most items on any input; a sink finishes exactly if a finished input has less than an output multiple |
| Executor.BlockExecutor.TryToRun | gnuradio-runtime/lib/block_executor.cc:378-471 | blocked, finished or called as decided; the alignment claim of this round is taken back when blocked |
| Executor.BlockExecutor.CallWork | gnuradio-runtime/lib/block_executor.cc:435-481 | unaligned is updated before the result is looked at; READY exactly if work gave something on some output, DONE exactly if it said so, and else READY_NO_OUTPUT |
| Executor.BlockExecutor.RunSource | gnuradio-runtime/lib/block_executor.cc:208-229 | the source branch |
| Executor.BlockExecutor.RunSink | gnuradio-runtime/lib/block_executor.cc:231-273 | the sink branch |
| Executor.BlockExecutor.RunRegular | gnuradio-runtime/lib/block_executor.cc:275-316 | the branch with inputs and outputs |
| Executor.BlockExecutor.RunOneIteration | gnuradio-runtime/lib/block_executor.cc:187-489 | the state returned is READY or READY_NO_OUTPUT exactly if the block was called and gave something or nothing, BLKD_IN or BLKD_OUT exactly if it lacks input or room, DONE if it has ended, as decided; so is the alignment left; done is set exactly on DONE |
| ThreadBody.Round | gnuradio-runtime/lib/tpb_thread_body.cc:79-161 | one round of a thread: readers are told exactly if something was produced or the block has ended, the writer whenever it was called or has ended; else the thread waits for just what the block lacks |
| Executor.BlockExecutor.SetUnaligned | gnuradio-runtime/lib/block.cc:153-162 | the field is set, for values its setter accepts |
| Executor.RequestIsSafe | gnuradio-runtime/lib/block_executor.cc:297-437 | whenever work is called the request fits on every output and every input meets the forecast; it is positive if and only if the rate is fixed or max_noutput_items reaches the output multiple |
| Executor.RequestIsBounded | gnuradio-runtime/lib/block_executor.cc:187-331 | no request exceeds max_noutput_items, unless the rate is fixed and it is for one output multiple; none exceeds the space or half the buffer of any output |
| Executor.SourceAsksForMost | gnuradio-runtime/lib/block_executor.cc:208-229 | a source is called whenever there is something that all outputs can take and its maximum allows, and for no less than the most of it |
| Executor.EnoughInputRuns | gnuradio-runtime/lib/block_executor.cc:372-384 | input for one output multiple on every input is always enough to run |
| Executor.SinkStuck | gnuradio-runtime/lib/block_executor.cc:254-270 | a sink waits on a finished input if and only if it holds an output multiple of items of which the estimate makes less than one |
| Executor.AlignmentKept | gnuradio-runtime/lib/block_executor.cc:334-451 | over every history of calls, retries and blocked returns, items written plus unaligned are divisible by the alignment, and is_unaligned holds exactly if unaligned is not 0 |
| Rates.NeedsMakes | gnuradio-runtime/lib/sync_decimator.cc:48-58 | the two fixed-rate conversions fit: what can be made is the largest request whose forecast the input meets |
| Rates.RoundedProduct | gnuradio-runtime/include/gnuradio/sync_decimator.h:51-55 | a product with 1.0/decimation, each step rounded by at most one part in 10^15, cuts to the quotient, or to one less where the quotient is whole |
| Rates.EstimateBelow | gnuradio-runtime/lib/block_executor.cc:261 | more items than multiple times decimation always make the multiple, however the product is rounded |
| Rates.OneInputRuns | gnuradio-runtime/lib/sync_block.cc:39-58 | a 1:1, decimating or interpolating block with room runs if and only if its input makes its least output, through all retries and rounding |
| Rates.TryRated | gnuradio-runtime/lib/block_executor.cc:316-413 | what becomes of its request otherwise: it waits with less than one output multiple's need, or ends on a finished input with less than its least output |
| Rates.MostIsAsked | gnuradio-runtime/lib/block_executor.cc:275-413 | a block of fixed rate with an output multiple, one input and outputs is called exactly if some number of whole multiples fits every output, its maximum and its input; and then it is asked for the largest such number |
| Wakeup.InitInv | gnuradio-runtime/lib/flat_flowgraph.cc:60-75 | the invariant holds when the threads start |
| Wakeup.DecisionIsSafe | gnuradio-runtime/lib/block_executor.cc:187-489 | each decision of a thread is sound for what it has seen |
| Iteration.SameDecision | gnuradio-runtime/lib/block_executor.cc:187-489 | a thread of the network decides as the executor does on what it has seen |
| Iteration.SameState | gnuradio-runtime/lib/tpb_thread_body.cc:79-161 | and then it stands where the loop's switch puts it for the state that the iteration returns, whatever work returns |
| Iteration.SameWhileLooking | gnuradio-runtime/lib/block_executor.cc:74-87 | so does one whose look finds an output without room |
| Iteration.WhoIsTold | gnuradio-runtime/lib/tpb_detail.cc:38-62 | after work that gave something every reader of every output, and no other block, is to be told, and the writer; after work that gave nothing the writer alone; before it ends, all of them |
| Preservation.StepKeepsInv | gnuradio-runtime/lib/tpb_thread_body.cc:60-166 | every atomic step of every thread keeps the invariant: snapshots stay lower bounds, nothing unread is overwritten, and who waits unnotified has seen all there is or is still owed a notification |
| Preservation.TraceKeepsInv | gnuradio-runtime/lib/tpb_thread_body.cc:81-161 | no lost wake-up: it holds in every state of every interleaving |
| Preservation.MarkOutKeeps | gnuradio-runtime/lib/block_detail.cc:96-101 | marking an output as done keeps it, as the notification is still owed |
| Preservation.MarkInKeeps | gnuradio-runtime/lib/block_detail.cc:103-104 | so does marking the input, which sibling readers see too |
| Preservation.PaidDown | gnuradio-runtime/lib/tpb_detail.cc:51-62 | telling a reader pays what was owed to it |
| Preservation.PaidUp | gnuradio-runtime/lib/tpb_detail.cc:38-49 | telling the writer pays what was owed to it |
| Preservation.ConsumeStep | gnuradio-runtime/lib/block_detail.cc:115-123 | consuming keeps it |
| Preservation.WriteStep | gnuradio-runtime/lib/block_detail.cc:134-143 | advancing a write pointer keeps it |
| Deadlock.NobodyWaitsForRoom | gnuradio-runtime/lib/flat_flowgraph.cc:129-161 | where nobody can move nobody waits for room: by the sizing, a writer without room has a reader with enough to run |
| Deadlock.WaitersSawTheEnd | gnuradio-runtime/lib/tpb_thread_body.cc:103-133 | there, who waits for input has seen that input finished |
| Deadlock.QuietMeansStuckSink | gnuradio-runtime/lib/block_executor.cc:240-270 | there, a thread that has not ended is a decimating sink with an output multiple of items left that makes less than one of its own |
| StuckSink.TraceKeepsHistory | gnuradio-runtime/lib/sync_decimator.cc:60-70 | in every run a block's history stays unread |
| StuckSink.OnlyTheseStick | gnuradio-runtime/lib/block_executor.cc:240-270 | and its decimation is above 1, and its history at most multiple times decimation, or one more if the product for just that input falls short |
| StuckSink.NoDeadlock | gnuradio-runtime/lib/tpb_thread_body.cc:60-166 | without such sinks, any fan-out, multiples, history and rates: a state in which nobody can move is one in which all threads have ended |
| SleepingSink.SinkNeverEnds | gnuradio-runtime/lib/block_executor.cc:240-270 | for each such sink there is a graph and a run after which it sleeps for ever on a finished input |
| Drain.TraceDrains | gnuradio-runtime/lib/block_executor.cc:388-389 | any blocks that do not end by themselves, with all that they lead to: as long as no sibling of theirs ends early, each of them ends only when nothing more will arrive, and leaves less than its least output needs (a sink also less than an output multiple) |
| Drain.NothingLost | gnuradio-runtime/lib/block_executor.cc:485-488 | where nobody can move, 1:1 blocks of such a group have ended, have read all that was written to them and have written as much to each output |
| Drain.NothingLostAtAll | gnuradio-runtime/lib/block_detail.cc:96-105 | so it is where only sources end by themselves, and where no reader of a shared buffer ends while its writer lives |
| Siblings.SiblingCutOff | gnuradio-runtime/lib/block_detail.cc:103-104 | a reachable state in which a sink that never ends by itself has ended, because its sibling did, with as much unread as it takes at once, while its writer still writes |
| Sizing.FillsPages | gnuradio-runtime/lib/buffer.cc:68-79 | a number of items fills whole pages if and only if it is a multiple of minimum_buffer_items |
| Sizing.AllocateBuffer | gnuradio-runtime/lib/buffer.cc:111-136 | the buffer fills whole pages and is the smallest such of at least the size asked for |
| Sizing.CountItems | gnuradio-runtime/lib/flat_flowgraph.cc:116-161 | the size asked for is the base or the largest demand of a reader; it fails exactly if a maximum is below the output multiple |
| Sizing.BaseItems | gnuradio-runtime/lib/flat_flowgraph.cc:124-150 | the base is the default, or the largest whole number of output multiples within what the user's limit makes of it |
| Sizing.TwoMultiples | gnuradio-runtime/lib/flat_flowgraph.cc:129-131 | without a maximum there is room for two output multiples |
| Sizing.DemandIsEnough | gnuradio-runtime/lib/flat_flowgraph.cc:157-160 | a reader's demand, each step of it rounded, is twice its need for one output multiple and one item, or one less: as much as the deadlock proof asks of buffers |
| Sizing.SetupMakesValid | gnuradio-runtime/lib/flat_flowgraph.cc:116-161 | every graph of fixed-rate blocks that is set up without a maximum is one the scheduler theorems are about: its buffers are large enough for writers and readers |
| Buffers.Buffer.constructor | gnuradio-runtime/lib/buffer.cc:82-92 | an empty buffer of zeros, without readers |
| Buffers.Buffer.AddReader | gnuradio-runtime/lib/buffer.cc:196-209 | a reader that joins, whenever that is, is to see what stands in the slots behind the write index, which is its preload of zeros while nothing has been written, and then the stream |
| Buffers.Buffer.ItemsAvailable | gnuradio-runtime/lib/buffer.cc:294-298 | index arithmetic gives the number of items published and not yet read |
| Buffers.Buffer.SpaceAvailable | gnuradio-runtime/lib/buffer.cc:148-173 | there is room for so many items before every reader, and for no more before one of them; tags are pruned up to the previous least position, only when that has changed |
| Buffers.Buffer.Extremes | gnuradio-runtime/lib/buffer.cc:157-162 | the fullest and the slowest reader |
| Buffers.Buffer.Store | gnuradio-runtime/lib/buffer.cc:175-179 | storing ahead of the write index, within the room, touches nothing unread |
| Buffers.Buffer.UpdateWritePointer | gnuradio-runtime/lib/buffer.cc:181-187 | publishes exactly the items stored ahead |
| Buffers.Buffer.Peek | gnuradio-runtime/lib/buffer.cc:300-304 | the k-th unread slot holds the k-th item that the reader has not seen |
| Buffers.Buffer.UpdateReadPointer | gnuradio-runtime/lib/buffer.cc:306-312 | moves this reader and no other |
| Buffers.Buffer.PruneTags | gnuradio-runtime/lib/buffer.cc:241-271 | erasing with restarts removes exactly the tags below the offset, in order |
| Buffers.Buffer.AddItemTag | gnuradio-runtime/lib/buffer.cc:223-228 | the tag goes last |
| Buffers.Buffer.RemoveItemTag | gnuradio-runtime/lib/buffer.cc:230-239 | hides every copy of the tag from one block, in order, and from no other |
| Buffers.Buffer.GetTagsInRange | gnuradio-runtime/lib/buffer.cc:314-340 | exactly the tags of the window that are not hidden from the block that asks, in order |
| Buffers.Play | gnuradio-runtime/lib/buffer.cc:148-187 | refinement: in any interleaving of one writer and its readers, where a reader reads its window item by item and moves its pointer later, each going by what it last saw however stale, every reader gets its preload and then exactly what was stored, in order |
| Buffers.Act | gnuradio-runtime/lib/buffer.cc:148-187 | each single action keeps snapshots lower bounds and unpublished items in place |
| Tags.LookLoses | gnuradio-runtime/lib/buffer.cc:157-167 | a look for room removes a tag that a reader has yet to collect if and only if the least position has changed and the tag lies below the previous one |
| Tags.RunKeeps | gnuradio-runtime/lib/block_executor.cc:427-462 | in every interleaving of any tree of blocks with pruning upstream, every tag still to be collected is there unless a look has lost it, and each buffer has got what its writer collected |
| Tags.ExactlyOnce | gnuradio-runtime/lib/block_executor.cc:108-120 | a tag on item k is in every buffer of the tree as often as the source added it, on item k, once that item is published; or not at all, exactly if a look has lost it on the way |
| Tags.NotPrunedTooEarly | gnuradio-runtime/lib/buffer.cc:159-167 | and unless lost it is still there as long as one of its readers has not collected it |
| Tags.ChainLosesNothing | gnuradio-runtime/lib/block_executor.cc:93-158 | where each block is the only reader of its buffer and consumes once in a call, no interleaving loses a tag |
| LostTags.TwoMovesLoseTags | gnuradio-runtime/lib/buffer.cc:164-167 | for every tag, a run of two blocks in which the reader consumes twice in one call and the tag never reaches its buffer |
| LostTags.TwoReadersLoseTags | gnuradio-runtime/lib/buffer.cc:157-167 | for every tag, a run of a source and two readers, each consuming once in a call, in which the tag never reaches the buffer of one |
| Propagation.TagLands | gnuradio-runtime/lib/block_executor.cc:121-128 | with a block of fixed rate in step, a tag on an item that a call consumes lands on an item that the call produces; or one before them, exactly if it is on the call's first item and the product is rounded below |
| Propagation.TagsLandInTheirCall | gnuradio-runtime/lib/block_executor.cc:426-462 | over every history of calls: each tag is added among the items of the one call that consumed it, with that one exception |
| Propagation.OrderKept | gnuradio-runtime/lib/block_executor.cc:121-128 | scaling keeps the order of tags, however it is rounded |
| Propagation.PropagateTags | gnuradio-runtime/lib/block_executor.cc:93-158 | each output grows, in order, by one item for each tag of the windows that are its own under the policy: same key, value and source, at its scaled place, deleted for nobody; when it fails; nothing else changes |
| Propagation.DueTags | gnuradio-runtime/lib/buffer.cc:314-340 | the tags due from a window are those of the items there that are not hidden from the block, each once, in order |
| Propagation.LandInCall | gnuradio-runtime/lib/block_executor.cc:121-146 | after a call of a block of fixed rate in step every item added stands among the items that the call wrote; or one before, exactly where its tag was on the first item read and the product is rounded below |
| Propagation.PropagateCall | gnuradio-runtime/lib/block_executor.cc:93-158 | so under every policy, on every output; what was there stays |
| Propagation.AllToAllTags | gnuradio-runtime/lib/block_executor.cc:108-130 | every output gets the tags of all inputs' windows, input after input, each at its scaled place |
| Propagation.OneToOneTags | gnuradio-runtime/lib/block_executor.cc:131-146 | each output gets the tags of its own input's window, each at its scaled place |
| Flowgraph.UniqueVector | gnuradio-runtime/lib/flowgraph.cc:54-64 | sorted, and each element once |
| Flowgraph.CheckContiguity | gnuradio-runtime/lib/flowgraph.cc:245-286 | accepts the used ports if and only if they are as many as the signature allows and have no gap |
| Flowgraph.Graph.CalcUsedBlocks | gnuradio-runtime/lib/flowgraph.cc:188-207 | the ends of all stream edges, once each |
| Flowgraph.Graph.CalcAdjacentBlocks | gnuradio-runtime/lib/flowgraph.cc:402-416 | the blocks joined to a block by an edge in either direction |
| Flowgraph.Graph.TopologicalDfsVisit | gnuradio-runtime/lib/flowgraph.cc:465-490 | finishes a block after all that it leads to; meets a grey one only on a loop; ends, as white blocks run out |
| Flowgraph.ReverseOrders | gnuradio-runtime/lib/flowgraph.cc:434-435 | finishing order read backwards puts every edge's source before its destination |
| Flowgraph.OrderMeansNoCycle | gnuradio-runtime/lib/flowgraph.cc:418-436 | such an order leaves no room for a loop |
| Flowgraph.Graph.SortSourcesFirst | gnuradio-runtime/lib/flowgraph.cc:438-457 | a permutation in which every source stands before every other block |
| Flowgraph.Graph.TopologicalSort | gnuradio-runtime/lib/flowgraph.cc:418-436 | a permutation in which every edge goes forward; fails if and only if there is a loop |
| Flowgraph.Graph.ReachableDfsVisit | gnuradio-runtime/lib/flowgraph.cc:386-399 | marks only linked blocks, and leaves no neighbour of a marked one unmarked |
| Flowgraph.Graph.CalcReachableBlocks | gnuradio-runtime/lib/flowgraph.cc:366-384 | exactly the blocks linked to the given one |
| Flowgraph.Graph.Partition | gnuradio-runtime/lib/flowgraph.cc:347-364 | the weakly connected components of the used blocks, disjoint and complete, each in topological order; fails if and only if the edges contain a loop anywhere |
| Flowgraph.NoLoopAnywhere | gnuradio-runtime/lib/flowgraph.cc:347-364 | ordered parts exclude a loop through all edges |
| Hierarchy.UpIsResolved | gnuradio-runtime/lib/hier_block2_detail.cc:407-421 | a signal that comes up to a port comes from the leaf output that the port resolves to |
| Hierarchy.DownIsResolved | gnuradio-runtime/lib/hier_block2_detail.cc:387-406 | a signal that goes down into a port ends at one of the leaf inputs it resolves to |
| Wrapping.ResolvedNonempty | gnuradio-runtime/lib/hier_block2_detail.cc:423-431 | where resolving succeeds it finds something |
| Hierarchy.JoinsIsConnected | gnuradio-runtime/lib/hier_block2_detail.cc:446-473 | resolved edges are exactly the leaf-to-leaf signal paths of the nested graph |
| Hierarchy.ItemSize | gnuradio-runtime/lib/io_signature.cc:102-110 | a port has the size listed for it, and one beyond the list the last size |
| Hierarchy.CheckValidPort | gnuradio-runtime/lib/flowgraph.cc:131-150 | accepts the ports from 0 up to the signature's maximum, or all where there is none |
| Hierarchy.FlatGraph.Connect | gnuradio-runtime/lib/flowgraph.cc:66-76 | adds the edge, or fails and leaves the graph alone, exactly if a port is beyond its signature, the sizes of the two ports differ, or the input has a driver |
| Hierarchy.ConnectAll | gnuradio-runtime/lib/hier_block2_detail.cc:522-529 | all pairs, or failure exactly if they do not go together |
| Hierarchy.FlattenEdges | gnuradio-runtime/lib/hier_block2_detail.cc:515-530 | a block's own edges, resolved; fails exactly if one cannot be |
| Hierarchy.Used | gnuradio-runtime/lib/hier_block2_detail.cc:587-622 | the blocks used by a block, and no others |
| Hierarchy.PortsWired | gnuradio-runtime/lib/hier_block2_detail.cc:599-618 | accepts a block if and only if all its ports are connected inside |
| Hierarchy.FlattenAux | gnuradio-runtime/lib/hier_block2_detail.cc:475-634 | adds exactly the flat edges of the block and of all within it, or fails exactly if one of them cannot be made |
| Hierarchy.FlatIsJoins | gnuradio-runtime/lib/hier_block2_detail.cc:624-633 | the flat edges are the resolved edges of all hierarchical blocks |
| Hierarchy.Flatten | gnuradio-runtime/lib/hier_block2_detail.cc:475-634 | succeeds if and only if everything resolves, all ports are connected and the flat edges fit with one driver each; and then the edges are exactly the leaf pairs joined by a signal path, and each joins existing ports of the same size; a path between listed ports of different sizes makes it fail |
| Wrapping.ShellResolves | gnuradio-runtime/lib/hier_block2_detail.cc:375-432 | a port of a new block around others resolves to what the inner port behind it does |
| Wrapping.Congruent | gnuradio-runtime/lib/hier_block2_detail.cc:475-634 | a block whose child is replaced by one that resolves its ports alike and holds the same flat edges resolves all ports as before, holds the same flat edges, and can be flattened exactly if it could before |
| Wrapping.WrappingKeepsEdges | gnuradio-runtime/lib/hier_block2_detail.cc:475-634 | putting any group of blocks, at any depth, with the edges between them, into one more hierarchical block changes nothing: flattening succeeds on the one tree exactly if it does on the other, the flat edges are the same, the tree's own ports resolve alike, and signal paths join the same leaf ports |
| Wrapping.AnyGroup | gnuradio-runtime/lib/hier_block2_detail.cc:475-634 | any children of any block in the tree can be put together so: a new block with the ports they are used by exists, and changes nothing |
| Segmenter.Chunks | gr-atsc/lib/atsci_equalizer.cc:74-248 | after a part of a stream the machine goes on where it ended |
| Segmenter.SplitAnywhere | gr-atsc/lib/atsci_equalizer.cc:74-248 | two calls on the two parts of a stream give the roles, outputs and state of one call, wherever it is split |
| Segmenter.ChosenRuns | gr-atsc/lib/atsci_equalizer.cc:130-234 | a piece cut in lock is what the sample-wise machine makes of those samples |
| Segmenter.UnlockedRuns | gr-atsc/lib/atsci_equalizer.cc:86-99 | so is what is run through before a field sync is found |
| Segmenter.Relock | gr-atsc/lib/atsci_equalizer.cc:101-152 | finding or losing the lock changes nothing for the samples ahead |
| Segmenter.TwoCalls | gr-atsc/lib/atsci_equalizer.cc:74-248 | calls on the two parts, empty ones included, compose to the call on the whole |
| Segmenter.SameAheadRuns | gr-atsc/lib/atsci_equalizer.cc:124-152 | two locks of which neither is in the middle of a field take the samples ahead for the same |
| Segmenter.FieldByField | gr-atsc/lib/atsci_equalizer.cc:124-234 | once a field sync is found in a stream of whole fields of 313 times 832 samples, each sample is taken for what it is, in every field: the first 832 for the field sync of its kind, the first four of each other segment for a segment sync, the rest for data |
| Segmenter.DataUntilFound | gr-atsc/lib/atsci_equalizer.cc:80-152 | samples are taken for data until a field sync is found |
| EqualizerLms.WindowsSplit | gr-atsc/lib/atsci_equalizer_lms.cc:85-88 | the parts of a stream come with the samples that their windows reach into |
| EqualizerLms.Equalizer.Filter1 | gr-atsc/lib/atsci_equalizer_lms.cc:174-199 | four running sums give the inner product |
| EqualizerLms.ErrorLaw | gr-atsc/lib/atsci_equalizer_lms.cc:204-219 | adapting multiplies the error on its own window by 1 - 0.00005 s, where s is the sum of its squares |
| EqualizerLms.ErrorShrinks | gr-atsc/lib/atsci_equalizer_lms.cc:204-219 | so an error that is there shrinks if 0 < 0.00005 s < 2 |
| EqualizerLms.NearerByGain | gr-atsc/lib/atsci_equalizer_lms.cc:204-219 | the squared distance of the taps from any taps without error on the window falls by 0.00005 (2 - 0.00005 s) times the squared error |
| EqualizerLms.TrainingLaw | gr-atsc/lib/atsci_equalizer_lms.cc:139-239 | over any stretch of samples, through any locks, the squared distance from taps without error in training falls by the gains of the samples trained on, and by nothing else |
| EqualizerLms.CallTrains | gr-atsc/lib/atsci_equalizer.cc:74-248 | so does a whole call, whose gain is not negative where no window has more than 40000 for its sum of squares |
| EqualizerLms.Equalizer.Adapt1 | gr-atsc/lib/atsci_equalizer_lms.cc:204-219 | the output comes from the old taps; every tap loses 0.00005 times the error times its sample, and the error on this window is then 1 - 0.00005 s times what it was |
| EqualizerLms.Equalizer.FilterN | gr-atsc/lib/atsci_equalizer_lms.cc:221-228 | a stretch of outputs without training |
| EqualizerLms.Equalizer.AdaptN | gr-atsc/lib/atsci_equalizer_lms.cc:231-239 | a stretch of outputs, each from the taps that the one before has left |
| EqualizerLms.Equalizer.FilterFieldSync | gr-atsc/lib/atsci_equalizer_lms.cc:139-158 | trains through the known part of a field sync and not beyond, in any piece of it |
| EqualizerLms.Equalizer.FilterNormal | gr-atsc/lib/atsci_equalizer_lms.cc:89-96 | data samples are filtered and not trained on |
| EqualizerLms.Equalizer.FilterDataSegSync | gr-atsc/lib/atsci_equalizer_lms.cc:109-123 | so are segment syncs |
| EqualizerLms.Equalizer.FindFieldSync | gr-atsc/lib/atsci_equalizer.cc:86-90 | the first sample that starts a field sync |
| EqualizerLms.Equalizer.FieldStart | gr-atsc/lib/atsci_equalizer.cc:130-159 | a field sync where one is due |
| EqualizerLms.Equalizer.FieldRest | gr-atsc/lib/atsci_equalizer.cc:176-182 | the rest of a field sync |
| EqualizerLms.Equalizer.ClearPart | gr-atsc/lib/atsci_equalizer.cc:199-233 | a segment sync or the data behind it, within its segment |
| EqualizerLms.Equalizer.Turn | gr-atsc/lib/atsci_equalizer.cc:80-247 | every turn of the goto loop consumes samples or settles the lock, also where it is lost |
| EqualizerLms.Equalizer.Filter | gr-atsc/lib/atsci_equalizer.cc:74-248 | any chunk from any state: each sample goes to one sub-filter, in order, in pieces of the documented ranges; outputs, taps and lock are those of the sample-wise machine; the loop ends. Of an empty chunk too, which looks at the tag behind it where a field sync is due. Its taps have come nearer by the call's gain to all taps without error in training |
| EqualizerLms.Equalizer.FilterInTwo | gr-atsc/lib/atsci_equalizer.cc:74-248 | two calls on the two parts of a chunk leave the outputs, taps and roles of one call on the whole, wherever it is split; and the same lock, or with an empty second part one under which the samples ahead are taken for the same |
| Prefs.StuckOnLongLines | gnuradio-runtime/lib/prefs.cc:104-119 | reading gets stuck if and only if some line has 1024 characters or more |
| Prefs.CommentIgnored | gnuradio-runtime/lib/prefs.cc:111-118 | a line with a comment behind it is joined as the line without it; an empty one leaves nothing |
| Prefs.CommentedText | gnuradio-runtime/lib/prefs.cc:104-119 | and a text with such a line reads as the text without the comment |
| Prefs.ReadFile | gnuradio-runtime/lib/prefs.cc:104-119 | joins the lines, each up to its first hash mark, with hash marks; or would never end, exactly on a long line |
| Prefs.ReadPrinted | gnuradio-runtime/lib/prefs.cc:104-123 | reading back what was printed, and erasing the whitespace, gives the joined text of the same sections and options without theirs |
| Prefs.ToString | gnuradio-runtime/lib/prefs.cc:172-187 | prints sections and options in the order of the iterators |
| Prefs.ParseOption | gnuradio-runtime/lib/prefs.cc:154-163 | the next option starts at a later hash mark, or there is none: the inner loop ends |
| Prefs.ParseSection | gnuradio-runtime/lib/prefs.cc:137-168 | the next section starts at a later bracket, or there is none: the outer loop ends |
| Prefs.Prefs.ConvertToMap | gnuradio-runtime/lib/prefs.cc:129-170 | the scanning loops end or raise on every input, and leave the map that the parser function gives; names without capitals stay the only ones |
| Prefs.Prefs.ReadOptions | gnuradio-runtime/lib/prefs.cc:150-163 | the inner loop reads the options of one section |
| Prefs.JoinedParses | gnuradio-runtime/lib/prefs.cc:129-170 | parsing the joined text gives every section and option, names lowered, later ones on top |
| Prefs.MeaningLookup | gnuradio-runtime/lib/prefs.cc:137-168 | with names in any letters: a section is there exactly if one of its name was, A to Z taken for a to z; an option stands for the last value that was given to it under any spelling |
| Prefs.RoundTrip | gnuradio-runtime/lib/prefs.cc:104-187 | printing, reading lines, erasing whitespace and parsing gives back what was printed, for names in any letters and with any spaces: each name lowered, later ones on top, the whitespace erased |
| Prefs.ConfigRoundTrip | gnuradio-runtime/lib/prefs.cc:104-187 | any configuration map with plain names without capitals and without whitespace comes back, empty sections and values too, in whatever order it is printed |
| Prefs.AdjacentLabels | gnuradio-runtime/lib/prefs.cc:145-146 | with nothing between two labels the first section is given everything after its label |
| Prefs.NoEquals | gnuradio-runtime/lib/prefs.cc:155-163 | a line without an equals sign becomes an option whose value is the whole section |
| Prefs.Prefs.HasSection | gnuradio-runtime/lib/prefs.cc:215-221 | finds a section under any spelling of its name |
| Prefs.Prefs.HasOption | gnuradio-runtime/lib/prefs.cc:223-243 | finds an option under any spelling of its names, or in the environment |
| Prefs.Prefs.GetString | gnuradio-runtime/lib/prefs.cc:245-265 | the environment's value, or the configuration's under any spelling, or the default |

## Left out

- Network: blocks with more than one input; minimum and maximum buffer sizes and minimum item counts other than the default; blocks of variable rate. Any number of outputs and any fan-out is there.
- Network: a block that only handles messages; message queues are taken as empty.
- Tags: blocks are 1:1 with one input and hand all tags on; `Propagation` has the other policies and rates, one call at a time.
- Executor: integer overflow in rounding and in the sink's estimate; counts are unbounded.
- RoundedProduct: is about offsets and counts up to 10^14, for which one part in 10^15 is enough to tell neighbours apart; the bits of a double are not modelled.
- Decode: rounding of single-precision metrics; metrics are reals here.
- Filter: rounding; the taps file written for diagnosis; the contents of the training sequences, which are a parameter.
- DecodeHelper: the complaints about missing sync symbols, which go to the console only; pipeline information of the segments.
- Flowgraph: port numbers of the edges, which the two searches do not look at; `check_topology`; free-standing message blocks.
- Used: the order in which children are flattened is that of first use and not that of addresses; the edges and the failures do not depend on it.
- Hierarchy: connecting and disconnecting within a hierarchical block, whose checks are simple; message edges.
- ReadFile: finding the files and opening them; several files are one text after the other. The order of the map's iterators is any.
- Sizing: the mapping of the memory itself; a failed allocation that is tried again.
- AddReader: a preload as large as the buffer, with which the code's own arithmetic would take the new reader for one that has nothing to read.
- Buffer: rewiring while running; `Play` is about a fixed set of readers, whenever they joined.
- Reconfiguration, thread priorities and affinity, interruption, performance counters, logging and remote control.
