# Verified model of the eNET-AIO daemon

`aioenetd` serves a data acquisition board over TCP. Clients send messages, each a bundle of data
items; a receiver thread per client cuts its byte stream into messages and puts them on one queue; a
single action thread runs each message item by item and replies. Beside that, a DMA worker and a TCP
logger stream ADC blocks through a ring, and the configuration lives in a tree of small text files in
three layers. This project models those parts in Dafny and proves what they promise, for every input
and every interleaving. `dafny verify dfyconfig.toml` checks all of it.

| file | what it models |
|---|---|
| `AdcStream.dfy` | the streaming pipeline of `adc.cpp`: worker, logger, semaphores, stop requests, as a step relation |
| `Bytes.dfy`, `Calibration.dfy`, `Items.dfy`, `Messages.dfy` | little-endian fields, rows of calibration words, item codecs, message codec |
| `ErrorItems.dfy` | when an error item is built and what it says; what a receiver queues for bytes that do not parse |
| `Protocol.dfy` | the dictionary of data items, and messages from one end of the wire to the other |
| `Framer.dfy`, `SafeQueue.dfy` | cutting a byte stream into frames as it arrives; the queue |
| `RunBundle.dfy`, `ActionQueue.dfy` | running one message; all receivers and the action thread together |
| `Bits.dfy`, `Registers.dfy`, `BoardItems.dfy` | bitwise words, register commands, the items made of them, the register file of the server |
| `Wire.dfy` | items from the bytes a client sends to the registers and the bytes of the answer; what reads see among other clients' writes |
| `AdcScan.dfy` | draining the ADC FIFO and reducing a scan to one word per channel |
| `ConfigSeed.dfy`, `ConfigStore.dfy`, `FirstBoot.dfy` | seeding the tree across crashes; saving and loading; what a first boot leaves to load |
| `Wrappers.dfy`, `Text.dfy`, `GuardText.dfy`, `ModelString.dfy` | options, numbers as text, the GUARD text and its parser, the model string |
| `DacRange.dfy` | DAC ranges, volts and counts |

Concurrent code is a step relation: a state, the steps each thread can take, and theorems over every
finite sequence of steps. Sequential code that changes things in place is a method or a class with
loops, proved against functions that the lemmas are about. Calls into the driver, sockets, clocks and
files appear as parameters or as steps with arbitrary outcomes.

## What the model shows about the code

* `log_main` clears the terminate flag as its first act (adc.cpp:37). A worker that is told to stop
  before its logger has begun loses the stop: the worker waits in its join, and the stream cannot be
  started again while the client stays connected. `StopLostIff` says exactly when.
* `worker_main` clears the stop flag `done` as its first act (adc.cpp:80). A stop requested before that is
  forgotten, and one requested later holds: `StopRequestForgottenIff`. `StopRequestBoundsWorker` says how much
  the worker still does.
* A frame with an item that its dictionary entry refuses for its length is not refused as a whole: the items
  before it are queued and run (aioenetd.cpp:835-855 does not look at the result): `QueuedEntryIs`.
* `TADC_StreamStart::Go` sets the mark of a running worker after creating it (DataItems/ADC_.cpp:84-94), and
  only a worker that gets to its end clears it (adc.cpp:89-99, adc.cpp:181). A worker that fails to initialise,
  or ends before the mark is set, leaves it for good: `EndedWorkerRestartsIff` says exactly when, and
  `FailedStartLeavesMark` and `QuickEndLeavesMark` give a run for each.
* After a broken pipe the logger keeps the token of the failed send (adc.cpp:59-65), so a worker that
  was filling the ring blocks on `empty` for good. `BlockedWorkerReleasedIff` says exactly when a
  blocked worker can be released.
* An error item with explanatory text is longer than the twelve bytes the dictionary allows, so it is
  not built (aioenetd.cpp:751-790, DataItems/TDataItem.cpp:387-388), unless the text is so long that the
  16-bit length field wraps: `ErrorItems.ItemErrorBuiltIff` and `ErrorItems.SysErrorBuiltIff` say exactly when,
  and what is then left of the fields. So the slot keeps the item that failed (`RunMessageKeepsSlots`), and an
  'X' message carries no item (`XReplyIsBareIff`), although TMessage.h promises one (TMessage.h:92,
  TMessage.h:107).
* What is left of a stream is a strict prefix of a frame except when the bytes of a cut-short header
  already make every completion of it oversize: `RestIsFramePrefixIff`, with such a leftover in
  `RestCanBeHopeless`.
* The marker "): -" may arise across the file and the function name although neither holds it:
  `NamesFreeOfMarkerCanJoinIntoOne`.
* The stamp of a first boot is written even when a seed could not be (config.cpp:159-165,
  config.cpp:285-293): the second half of `CrashSafeSeeding`, with such a run in `StampCanComeWithoutSeeds`.
  The tree is then never completed: `StampedStays`.
* The number of DACs is seeded under a key nothing reads, and the number of ADC channels is not seeded
  (config.cpp:197, config.cpp:518, config.cpp:600): `LoadAfterFirstBoot`.
* ADC_Differential1 on a channel group that lands on a 32-bit register clears that register's upper
  bytes (DataItems/ADC_.cpp:156-166): `DifferentialKeepsOtherBitsIff` says exactly for which groups, and
  `DifferentialClearsOtherBits` gives a request the dictionary admits.

## Model

| member | source | states |
|---|---|---|
| `AdcStream.SlotIsRemainder` | adc.cpp:151-152 | the slot of the k-th block is k modulo the ring size |
| `AdcStream.StepKeepsInv` | adc.cpp:35-185 | every step of worker, logger, starter and driver keeps the invariant that the results below rest on |
| `AdcStream.RunKeepsInv` | adc.cpp:35-185 | so does every run |
| `AdcStream.InOrderDelivery` | adc.cpp:43-72 | under every interleaving the j-th block handed to `send` is the j-th block the driver produced: none lost, repeated or out of order; at most the one send caused by the leaving worker's wake-up carries no block |
| `AdcStream.NoOverwrite` | adc.cpp:147-156 | the slot the worker fills never holds a block still to be sent, the logger is not inside `send` then, and what is copied is the next block produced |
| `AdcStream.CopyFillsFreeSlot` | adc.cpp:147-153 | the slot written is the next one in order and differs from every slot whose block waits to be sent |
| `AdcStream.TokensConserved` | adc.cpp:86-87 | tokens of `empty`, tokens of `full` and tokens in the hands of the two threads always add up to the ring size, one more after the wake-up of the leaving worker |
| `AdcStream.ThreadLifetimes` | DataItems/ADC_.cpp:84-94 | over any starts and stops there is never a second worker or logger, and no thread is about to use a semaphore or the mutex outside its lifetime |
| `AdcStream.LoggerReleases` | adc.cpp:43-72 | from a blocked worker with a live logger, at most seven logger steps release it |
| `AdcStream.BlockedWorkerReleasedIff` | adc.cpp:43-67 | a worker blocked on `empty` can be released by some run exactly when the logger is not gone |
| `AdcStream.StaysBlocked` | adc.cpp:59-65 | with the logger gone no run at all releases it, stop requests and new starts included |
| `AdcStream.AtMostOneMoreSend` | adc.cpp:43-72 | a logger past its first step that is told to stop makes at most one more send in that session, whatever the interleaving |
| `AdcStream.StopRequestBoundsWorker` | adc.cpp:119-184 | from any state after the worker's initialisation in which a stop is requested, in every run of the session the worker copies at most what is left of its current poll and takes at most a stated number of steps more |
| `AdcStream.PollLeavesIff` | adc.cpp:119-167 | at its poll the worker leaves the loop exactly when a stop is requested |
| `AdcStream.StopRequestForgottenIff` | adc.cpp:78-80 | some run of the session forgets a stop request exactly when it is made before the worker's initialisation |
| `AdcStream.FirstActClearsRequest` | adc.cpp:78-99 | the first step of a worker clears a request, whether its initialisation succeeds or fails |
| `AdcStream.CancelledWaitTellsLogger` | adc.cpp:131-144 | a cancelled wait sends the worker out of its loop and tells a logger that has begun at once, which then makes at most one more send |
| `AdcStream.StopLostIff` | adc.cpp:167-172 | when the leaving worker raises the terminate flag, some run loses the stop exactly when the logger it created has not begun |
| `AdcStream.LostStopHangs` | adc.cpp:35-37 | once the stop is lost the worker never gets past its join while the socket is healthy |
| `AdcStream.WaitErrorEndsLostStop` | adc.cpp:43-53 | an error of the logger's wait ends it, and the worker then gets past its join |
| `AdcStream.StopCanBeLost` | adc.cpp:101-117 | for every ring size there is a run from the start that loses the stop |
| `AdcStream.BrokenPipeWedgesWorker` | adc.cpp:59-65 | for every ring size there is a run from the start after which the worker is blocked for good |
| `AdcStream.StaleMarkStays` | DataItems/ADC_.cpp:84-94 | a start mark without a worker stays in every run, and no run creates another worker |
| `AdcStream.StartsAgainIff` | DataItems/ADC_.cpp:84-94 | without a worker some run starts the stream again exactly when no mark is set and no start is about to set one |
| `AdcStream.EndedWorkerRestartsIff` | adc.cpp:86-181 | after a worker ends, by failing to initialise or in full, the stream can be started again exactly when it ended in full and its start had set the mark by then |
| `AdcStream.FailedStartLeavesMark` | adc.cpp:86-99 | for every ring size there is a run in which a failed initialisation leaves the mark |
| `AdcStream.QuickEndLeavesMark` | adc.cpp:178-184 | and one in which the worker ends before its start sets the mark |
| `Bytes.ReadBack16` | DataItems/SYS_.cpp:284-300 | a 16-bit field reads back what was written, anywhere in a buffer |
| `Bytes.ReadBack32` | DataItems/SYS_.cpp:290-308 | a 32-bit field reads back what was written |
| `Bytes.WriteBack32` | DataItems/SYS_.cpp:290-308 | writing what was read gives the same four bytes |
| `Bytes.Stuff` | utilities.h:153-162 | the shifting loop appends the value's low bytes, lowest first |
| `Bytes.FourBytes` | TMessage.cpp:281-289 | four turns of that loop are the 32-bit field |
| `Calibration.WordsReadBack` | DataItems/ADC_.cpp:368-405 | any row of float words survives its bytes |
| `Calibration.WordsWriteBack` | DataItems/ADC_.cpp:368-405 | bytes that make up whole words survive being read as words |
| `Calibration.SplitInterleaved` | DataItems/ADC_.cpp:573-637 | the scales and offsets put in turn by calcPayload are those the constructor takes out |
| `Calibration.InterleaveSplit` | DataItems/ADC_.cpp:573-637 | and those taken out, put in turn, are the words there were |
| `Calibration.ReadRow` | DataItems/ADC_.cpp:368-378 | the constructor loop reads the eight words in order |
| `Calibration.WriteRow` | DataItems/ADC_.cpp:395-405 | the calcPayload loop writes them in order |
| `Calibration.ReadPairs` | DataItems/ADC_.cpp:573-588 | the constructor loop takes the scales from the even words and the offsets from the odd ones |
| `Calibration.WritePairs` | DataItems/ADC_.cpp:620-637 | the calcPayload loop writes each scale before its offset |
| `Items.ConstructPayload` | DataItems/REG_.cpp:252-292 | for every modelled class, calibration, register, DIO, ADC range and error items, constructing a canonical request's own payload gives the request back |
| `Items.PayloadConstruct` | DataItems/TDataItem.cpp:604-613 | an item of a modelled class writes the bytes it was made from exactly when it writes as many: no constructor keeps the length and changes a byte |
| `Items.CalibrationLayout` | DataItems/ADC_.cpp:323-637 | in requests and replies of the calibration items the range index comes first, and each word stands at its stated offset, scale before offset |
| `Items.ItemErrorReadBack` | DataItems/SYS_.cpp:362-395 | an item error survives its twelve bytes |
| `Items.SysErrorReadBack` | DataItems/SYS_.cpp:322-352 | and so does a system error |
| `Messages.ParsePayload` | TMessage.cpp:131-170 | the erasing loop computes the recursive parse of the payload, every way out included |
| `Messages.ParseAccounts` | TMessage.cpp:142-169 | with the announced bytes present no read leaves the buffer, and on success item sizes and a leftover under four bytes add up to the payload length |
| `Messages.CalculateChecksum` | TMessage.cpp:27-35 | the wrapping byte is the sum of the bytes modulo 256 |
| `Messages.AppendPayloadLengthAndItems` | TMessage.cpp:290-304 | the loop appends the 32-bit payload length and every item in order |
| `Messages.Serialise` | TMessage.cpp:305-319 | AsBytes is id, length, items and the byte that completes the sum |
| `Messages.SumsToZero` | TMessage.cpp:314-315 | the bytes of every serialised message sum to 0 modulo 256 |
| `Messages.Deserialise` | TMessage.cpp:172-223 | FromBytes computes its specification: order of checks, checksum last and overriding, exceptions passing through |
| `Messages.WholeFrameIsSafe` | TMessage.cpp:179-199 | on a whole frame FromBytes reads inside it and takes neither the too-short nor the length-mismatch exit |
| `Messages.RoundTrip` | TMessage.cpp:172-319 | every request of modelled items within the length table is parsed back from its own bytes |
| `Messages.Injective` | TMessage.cpp:305-319 | two such requests with the same bytes are the same |
| `Messages.ReserialisedItems` | TMessage.cpp:144-168 | a payload that parses well into modelled items is written back byte for byte exactly when its items tile it |
| `Messages.AcceptedFrameReserialises` | TMessage.cpp:172-223 | an accepted frame of modelled items re-serialises to itself exactly when its items tile the payload |
| `Messages.ReplyTakenApart` | TMessage.cpp:281-319 | a client that knows nothing but the item headers cuts every reply into the DId and the answer of each item, in order, and length, id and checksum are right |
| `Messages.ParseIsCutThenMake` | TMessage.cpp:131-170 | parsing is cutting by the item headers and making each item, up to the first that cannot be made, whose failure is the result |
| `Messages.ItemAcceptedIff` | DataItems/TDataItem.cpp:543-570 | which bytes make an item: a known DId, data empty or within its limits, and for a write a register's offset and a value as wide as it |
| `Messages.AcceptedIff` | TMessage.cpp:172-223 | which whole frames are accepted: one of the seven ids, bytes that sum to zero, and items each of which can be made |
| `Protocol.DictionaryHasErrorEntries` | DataItems/TDataItem.cpp:387-388 | both error items are limited to twelve bytes |
| `ErrorItems.ItemErrorBuiltIff` | aioenetd.cpp:751-790 | an item error is built exactly when twelve bytes and its text, modulo 65536, are at most twelve, and then holds the index, DId, code and info that many bytes cover: all four for an empty text |
| `ErrorItems.SysErrorBuiltIff` | aioenetd.cpp:751-779 | the same for a system error with stage, code and info |
| `ErrorItems.XReplyIsBareIff` | aioenetd.cpp:848-853 | an 'X' message carries no error item exactly when that length exceeds twelve |
| `ErrorItems.XReplyWithoutText` | aioenetd.cpp:766-779 | without a text it carries the parse stage, the code and the info word |
| `ErrorItems.SilentFailureNamesParse` | aioenetd.cpp:844-853 | an exception that says nothing is answered by an 'X' that names code 3 |
| `ErrorItems.OversizeReplyIsBare` | aioenetd.cpp:867-874 | the reply to an oversize header carries none, whatever length the header announces |
| `ErrorItems.FailedParseIsBareIff` | aioenetd.cpp:835-855 | a frame whose parsing threw is answered without one exactly when the length with the exception's text exceeds twelve |
| `ErrorItems.GuardedParseRepliesBareX` | aioenetd.cpp:835-855 | so a frame that GUARD refused always is, for names of the file and function of up to 65000 characters together |
| `ErrorItems.QueuedEntryIs` | aioenetd.cpp:835-855 | what any whole frame puts on the queue: nothing of it for an unknown id or a wrong checksum, an 'X' when an item throws, and otherwise its items up to the first of a wrong length |
| `Protocol.AdmittedIff` | DataItems/TDataItem.cpp:83-407 | the length table and the codecs agree: every canonical request of a class with fixed parameters is admitted, one of a class that keeps its bytes exactly when its length is zero or within its limits, and none of a class that is not modelled |
| `Protocol.EndToEnd` | aioenetd.cpp:857-886 | whatever messages of modelled items a client serialises and however their bytes are split into chunks, the queue receives exactly those messages in order and no byte is left over |
| `Framer.CutInTwo` | aioenetd.cpp:857-886 | cutting a prefix and then its rest with the remaining bytes is cutting everything at once |
| `Framer.OversizeIff` | aioenetd.cpp:866-874 | a header ends the connection exactly when it announces more than sixteen items of the largest size |
| `Framer.CutKeepsBytes` | aioenetd.cpp:861-884 | on an open connection frames and leftover make up the stream and the leftover is short of a frame; on one ended by an oversize header the frames are the front of the stream |
| `Framer.FramesAreWhole` | aioenetd.cpp:876-882 | every frame has the length its header announces |
| `Framer.RestIsFramePrefixIff` | aioenetd.cpp:861-877 | a leftover is a strict prefix of some frame exactly when its length field, padded with zeros, is within the limit |
| `Framer.RestCanBeHopeless` | aioenetd.cpp:861-866 | a leftover of four bytes that nothing completes to a frame and that the receiver keeps |
| `Framer.ChunkIndependence` | aioenetd.cpp:952-975 | frames, leftover and the end of the connection are one function of the bytes, however they were split |
| `Framer.FramesParseSafely` | aioenetd.cpp:876-881 | every frame passed on is parsed inside its bytes and never leaves by the too-short or length-mismatch exit |
| `Framer.ProcessMessages` | aioenetd.cpp:857-886 | the erasing loop queues the entries of the batch framer and leaves its leftover |
| `Framer.ThreadReceiver` | aioenetd.cpp:952-979 | whatever recv returns, the queue receives the entries of the bytes that arrived |
| `Queues.SafeQueue.Enqueue` | safe_queue.h:25-30 | adds at the back |
| `Queues.SafeQueue.Dequeue` | safe_queue.h:34-48 | takes the oldest entry of a queue that has one, or nothing once `done` is set |
| `RunBundle.TMessage.Run` | aioenetd.cpp:1098-1146 | the loop that runs items and overwrites slots in place computes the specification, and returns true exactly for 'R' |
| `RunBundle.RunFollowsTrace` | aioenetd.cpp:1102-1142 | slot i depends only on its own item and how it ran; an error is noted exactly when some item failed |
| `RunBundle.RunMessageKeepsSlots` | aioenetd.cpp:1098-1146 | item count and order are kept; the id is 'E' exactly when some item failed; and for every outcome the slot is given exactly: its item after success, an item error with index modulo 65536 and the original DId after a failing code, and after an exception its item or that item error, by the length of the text |
| `RunBundle.NegativeCodeIsNamed` | aioenetd.cpp:1110-1122 | an item that ends with the code -c leaves an error item that names c, the item's place and its DId |
| `ActionQueue.OneReplyEach` | aioenetd.cpp:1165-1187 | sequential service gives one reply per action, computed on what the earlier ones left |
| `ActionQueue.RunExactlyWhenAsked` | aioenetd.cpp:1167-1185 | a 'Q', 'C' or 'M' is run, item by item in order, and answered by an 'R', or by an 'E' exactly when an item failed; anything else is sent back unchanged and leaves the device alone |
| `ActionQueue.StepKeepsInv` | aioenetd.cpp:1165-1187 | every step of every receiver and of the action thread keeps the invariant |
| `ActionQueue.Serialisable` | aioenetd.cpp:1165-1187 | for any number of clients and any interleaving, whenever the action thread is idle the device and the replies are those of serving whole messages one after the other in queue order, and the rest is on the queue |
| `ActionQueue.QueueFollowsStream` | aioenetd.cpp:857-886 | what a client has queued is what its bytes cut into, in order, whatever other clients do; all of it once nothing is left to cut |
| `ActionQueue.RepliesPairUp` | aioenetd.cpp:1149-1181 | a client's replies pair up with its requests |
| `ActionQueue.RepliesInRequestOrder` | aioenetd.cpp:1149-1187 | a client's j-th reply is what serving its j-th request gives on the device as whole earlier messages left it |
| `ActionQueue.RepliesAnswer` | aioenetd.cpp:1149-1187 | in every run a client's j-th reply to a 'Q', 'C' or 'M' is an 'R' or 'E' with as many items, and to anything else that entry itself |
| `ActionQueue.Turn` | aioenetd.cpp:1167-1185 | one turn of the thread dequeues, serves and answers one action |
| `Bits.BitwiseBit` | DataItems/TDataItem.cpp:128-161 | each bit of a bitwise result is the gate of the two bits |
| `Bits.SameBits` | apci.cpp:32-46 | a word is determined by its bits |
| `Bits.TruncatedBit` | apci.cpp:69-83 | truncation keeps the low bits and clears the others |
| `Registers.Run1Bit` | DataItems/REG_.cpp:373-383 | one command changes each bit of the board as the abstract map says |
| `Registers.ProgramRefinesMap` | DataItems/REG_.cpp:424-522 | any program of bit, mask and write commands refines the map from offset and bit to truth value |
| `Registers.UntargetedBitsKept` | DataItems/DIO_.cpp:151-337 | a bit no command of a program is about keeps its value |
| `Registers.ByteCommandKeepsOtherBitsIff` | DataItems/ADC_.cpp:156-166 | a one-bit command through an 8-bit read keeps the other bits of its register on every board exactly when the offset names no 32-bit register |
| `Registers.WordCommandKeepsOtherBits` | DataItems/REG_.cpp:373-383 | the one-bit command through a whole word keeps them on every register |
| `Registers.ReadBack` | apci.cpp:32-46 | reading a register after a program gives the word the map describes |
| `BoardItems.Hardware.WaitUntilLow` | utilities.cpp:21-39 | the busy wait gives up after a hundred looks, exactly when the bit stays set |
| `BoardItems.Hardware.WriteOne` | DataItems/REG_.cpp:183-214 | one register write with its busy wait and result code |
| `BoardItems.Hardware.PutOneBit` | DataItems/REG_.cpp:373-383 | read, clear, set, write back is the one-bit command |
| `BoardItems.Hardware.CombineOneBit` | DataItems/DIO_.cpp:268-337 | read, combine, write back is the one-bit command |
| `BoardItems.Hardware.CombineMask` | DataItems/TDataItem.cpp:128-161 | the mask commands of the dictionary |
| `BoardItems.Hardware.SetAllGroups` | DataItems/ADC_.cpp:201-212 | the loop over channel groups is the program of one command per group |
| `BoardItems.Hardware.Go` | DataItems/REG_.cpp:13-18 | the virtual `Go` of every register item: registers, result and code |
| `BoardItems.LogIsProgram` | aioenetd.cpp:1165-1187 | serving a log runs the commands of its requests in order |
| `BoardItems.DifferentialKeepsOtherBitsIff` | DataItems/ADC_.cpp:156-166 | ADC_Differential1 keeps every bit but its own exactly for the channel groups whose offset is not that of a 32-bit register |
| `BoardItems.DifferentialClearsOtherBits` | DataItems/ADC_.cpp:156-166 | group 0x17 is admitted, lands on the 32-bit register 0x18 and clears bits the request is not about |
| `BoardItems.RegisterFileIsSequential` | aioenetd.cpp:1098-1187 | under any interleaving, whenever the action thread is idle every bit of every register is what the commands of the messages served so far, whole message after whole message, make of it |
| `Wire.BitItems` | DataItems/REG_.cpp:424-522 | from the bytes of REG_ClearBit, REG_SetBit and REG_ToggleBit to the board: the bit named is cleared, set or negated, and every other bit stays |
| `Wire.DioBitItems` | DataItems/DIO_.cpp:268-337 | the same for DIO_ClearBit, DIO_SetBit and DIO_ToggleBit at the outputs |
| `Wire.WriteBitItems` | DataItems/REG_.cpp:373-383 | REG_WriteBit, DIO_ConfigureBit and DIO_OutputBit put whether their last byte is not zero into the bit named, at the offset, the directions or the outputs |
| `Wire.DioWordItems` | DataItems/DIO_.cpp:30-120 | DIO_Configure and DIO_Output put their word into the directions or the outputs |
| `Wire.MaskItems` | DataItems/TDataItem.cpp:127-161 | REG_ClearBits, REG_SetBits and REG_ToggleBits with a mask as wide as the register clear, set or negate its bits, and every other bit stays |
| `Wire.WriteItem` | DataItems/REG_.cpp:183-214 | REG_Write1 puts its value into the register and nowhere else, and reports -110 exactly when the busy bit behind the offset stays set |
| `Wire.GroupItems` | DataItems/ADC_.cpp:156-166 | ADC_Range1 and ADC_Differential1 set the register of their group, or its bit 3 |
| `Wire.AllGroupsItems` | DataItems/ADC_.cpp:201-212 | ADC_RangeAll and ADC_DifferentialAll set the eight groups at offsets 1 to 8 and touch nothing else |
| `Wire.ReadItem` | DataItems/REG_.cpp:13-127 | the answer to REG_Read1 is as wide as the register and carries its whole value, and all ones for an offset that names none |
| `Wire.BitReadItems` | DataItems/REG_.cpp:313-331 | the answers to REG_ReadBit, DIO_InputBit and DIO_Input carry the bit or the word of the register |
| `Wire.UnimplementedItem` | DataItems/TDataItem.cpp:636-652 | a request with no function behind it leaves the board alone and its slot names code 13 |
| `Wire.NotYetItem` | DataItems/TDataItem.cpp:26 | the DIds marked as not implemented take an empty request, leave the board alone and report success |
| `Wire.OthersEcho` | DataItems/REG_.cpp:385-400 | every other register item given its full parameters is answered by the bytes it was asked with |
| `Wire.ReadsAreSequential` | aioenetd.cpp:1098-1187 | under any interleaving the bytes that answer a REG_Read1 show what all commands of earlier messages in queue order and of earlier items of its own message make of the register, and nothing of any later one |
| `AdcScan.AccumulateByChannel` | DataItems/ADC_.cpp:708-758 | one pass leaves in each accumulator the fold over that channel's own valid words |
| `AdcScan.ReduceRawToRawPerChannel` | DataItems/ADC_.cpp:940-956 | one output word per channel: the sentinel, or the first word's upper half with the average |
| `AdcScan.ReduceRawToCountsPerChannel` | DataItems/ADC_.cpp:930-938 | one average per channel |
| `AdcScan.FinalizeIsAverage` | DataItems/ADC_.cpp:696-706 | the accumulator's result is the rounded average of the samples the oversample policy includes |
| `AdcScan.AverageCountsForChannel` | DataItems/ADC_.cpp:899-928 | the block form, with its loop, is the rounded average of the block by the policy |
| `AdcScan.OnePassRefinesBlocks` | DataItems/ADC_.cpp:696-758 | with enough valid samples, in any interleaving, the one-pass result is the block form on the channel's own first samples, for all three policies |
| `AdcScan.OnlyOwnSamplesMatter` | DataItems/ADC_.cpp:708-758 | the output depends on nothing but each channel's own first samples in order |
| `AdcScan.SwapAcrossChannels` | DataItems/ADC_.cpp:708-758 | words of different channels may change places |
| `AdcScan.InsertedWordIsIgnored` | DataItems/ADC_.cpp:712-727 | empty reads, channels outside the scan and samples beyond the needed ones change nothing |
| `AdcScan.AverageIsCount` | DataItems/ADC_.cpp:704-705 | an average lies between the least and the greatest included sample, is within half a count of the mean, and its 16-bit mask never changes it |
| `AdcScan.WordsDescribeThemselves` | DataItems/ADC_.cpp:945-955 | output i is the sentinel exactly when channel start+i had no valid sample, and is a valid word of that channel otherwise |
| `AdcScan.FieldsOfWord` | DataItems/ADC_.cpp:668-684 | empty mark, channel and counts are read from their own bits of a FIFO word, whatever the other bits hold |
| `AdcScan.ReduceIsStable` | DataItems/ADC_.cpp:940-956 | reducing the output again with oversamples 0 returns it unchanged |
| `AdcScan.DrainFifo` | DataItems/ADC_.cpp:841-878 | the scan drained is the first valid words delivered, as many as expected, all of them valid, and draining fails exactly when fewer arrive in time |
| `AdcScan.ValidOfKeepsValid` | DataItems/ADC_.cpp:865-874 | what is kept of the words read is valid, and every valid word is kept as often as it occurs |
| `AdcScan.DeliveredIsValidOfHanded` | DataItems/ADC_.cpp:841-878 | what is delivered is the valid words, in order, among all that the FIFO hands out in time |
| `AdcScan.DiscardingInvalidChangesNothing` | DataItems/ADC_.cpp:866-872 | throwing empty reads away while draining changes no output |
| `ConfigSeed.CrashSafeSeeding` | config.cpp:267-293 | through any crashes, cut-short temporary files and failed writes, in any directory order, no file that was there is altered or removed; once the stamp is written the trees are those of one undisturbed run exactly when no write of the stamping run failed |
| `ConfigSeed.StampWrittenIff` | config.cpp:285-292 | the stamp is written by the step that writes it, and not by one that fails or by a crash |
| `ConfigSeed.StampedStays` | config.cpp:267-272 | a stamped tree is never touched again, complete or not |
| `ConfigSeed.StampCanComeWithoutSeeds` | config.cpp:285-293 | whatever the seeds, there is a first boot that ends with the stamp and no file at all |
| `ConfigSeed.StepKeepsInv` | config.cpp:159-293 | every step keeps both trees between where they started and where seeding leads |
| `ConfigSeed.NamesByEnding` | config.cpp:240-265 | the names copied are those of a stem that is not empty and ".conf" |
| `ConfigSeed.WriteAll` | config.cpp:90-105 | through short writes the temporary file holds a prefix of the contents, and all of them exactly when the loop ends without an error |
| `ConfigSeed.ConfigTree.WriteIfMissing` | config.cpp:159-166 | a seed is added where it is missing and nothing else changes |
| `ConfigSeed.ConfigTree.SeedFactory` | config.cpp:169-237 | the loop over seeds gives the seeded tree |
| `ConfigSeed.ConfigTree.SeedCurrent` | config.cpp:240-265 | in any listing order, exactly the missing conf files are copied |
| `ConfigSeed.ConfigTree.Initialize` | config.cpp:267-293 | an undisturbed run reaches the target trees and the stamp; with a stamp it changes nothing |
| `ConfigStore.TextReadsBackIff` | config.cpp:357-371 | a text comes back from its file exactly when it has at most 1023 bytes, no NUL and no line end at its end |
| `ConfigStore.ReadIsOverlayLookup` | config.cpp:378-398 | a read is a lookup in the layers merged: user over current over factory, any other layer over factory |
| `ConfigStore.FoundOnlyInCurrent` | config.cpp:378-398 | a file that is only in the current layer is found from there and from the user's layers, and from no other |
| `ConfigStore.ValueReadsBack` | config.cpp:400-459 | every byte, word and float survives its hex text bit for bit |
| `ConfigStore.KeysDiffer` | config.cpp:477-621 | no two fields share a key |
| `ConfigStore.EveryField` | config.cpp:477-771 | every field is both saved and loaded |
| `ConfigStore.ConfigFiles.SaveConfig` | config.cpp:624-771 | writes every field in order |
| `ConfigStore.ConfigFiles.LoadConfig` | config.cpp:606-621 | reads every field in order; errors leave a field alone, an exception leaves the function |
| `ConfigStore.SavedElsewhere` | config.cpp:434-447 | saving touches no other layer and no file of another key |
| `ConfigStore.LoadAfterSave` | config.cpp:606-771 | loading what was saved, into any configuration and over any disk, succeeds and gives every field as its text comes back |
| `ConfigStore.RestoredIff` | config.cpp:606-771 | numbers and floats come back bit for bit, a text exactly when its file can hold it |
| `ConfigStore.LoadingEndsEarlyIff` | config.cpp:400-423 | over any disk, loading ends early exactly when some number's file is long enough but not a number, and then at the first such field, with the fields before it loaded and the others as they were; a missing or short file leaves its field alone |
| `FirstBoot.SeedsWellFormed` | config.cpp:169-237 | the ninety seeds are distinct conf files |
| `FirstBoot.LoadAfterFirstBoot` | config.cpp:169-293 | after a first boot on an empty tree loading restores every field except the number of DACs and of ADC channels, which stay as they were |
| `FirstBoot.CrashedFirstBootReads` | config.cpp:267-293 | a first boot on an empty tree that crashed any number of times, once stamped without a missed write, reads key by key as an undisturbed one |
| `FirstBoot.LoadAfterCrashedFirstBoot` | config.cpp:267-293 | so loading after it succeeds and restores every seeded field |
| `Text.ToHexPadded` | utilities.h:64-105 | the padded, upper-cased short form is exactly `width` hex digits |
| `Text.HexReads` | utilities.h:64-105 | those digits stand for the number |
| `Text.DecimalReads` | utilities.h:186-193 | the decimal digits of std::to_string stand for the number |
| `Text.StoulDigits` | aioenetd.cpp:736-746 | std::stoul reads a run of plain digits as its value |
| `Text.StoulReads` | aioenetd.cpp:736-746 | blanks, a sign, in base 16 "0x", and digits are read as the digits' value, negated modulo 2 to the 64 after a minus; a value too large throws |
| `Text.StoulThrows` | config.cpp:408-423 | a text without a digit there throws |
| `Text.HexCaseDoesNotMatter` | aioenetd.cpp:746 | hex digits read alike in letters of either case |
| `GuardText.TryParseGuardWhat` | aioenetd.cpp:722-749 | the parser, with its digit and trimming loops, computes its specification |
| `GuardText.GuardRoundTripIff` | utilities.h:186-193 | for every code, info word and line the parser recovers what GUARD printed, exactly when "file: function" does not hold the marker |
| `GuardText.InfoIsHexAfterEquals` | aioenetd.cpp:738-747 | the info word is whatever hex number follows the last '=', with blanks around it and with or without "0x" |
| `GuardText.NoMarkerKeepsWords` | aioenetd.cpp:722-733 | a text without the marker leaves both words as they were |
| `GuardText.NamesFreeOfMarkerCanJoinIntoOne` | aioenetd.cpp:727-729 | two names, each free of the marker, whose texts are not recovered |
| `ModelString.TrimWhitespace` | DataItems/BRD_.cpp:222-233 | trimming the buffer in place leaves the trimmed text |
| `ModelString.ParseDacCount` | DataItems/BRD_.cpp:346-458 | the scan with its flags and early way out gives the verdict on range count, 4AO and core |
| `ModelString.OnlyKnownOptionsMatter` | DataItems/BRD_.cpp:396-458 | the DAC count depends only on the core's first letter and how often each known option occurs |
| `ModelString.OptionOrderDoesNotMatter` | DataItems/BRD_.cpp:398-424 | models that differ in the order of their options have the same DAC count or are both rejected |
| `ModelString.UnknownOptionIsIgnored` | DataItems/BRD_.cpp:398-424 | an option the parser does not know may be put in anywhere |
| `ModelString.PrintedModelReadsBack` | DataItems/BRD_.cpp:260-458 | for every board whose model fits the buffer the channel count is read back exactly when it is from 1 to 128, and the DAC count is accepted exactly when the options are consistent with the core |
| `ModelString.LetterCaseDoesNotMatter` | DataItems/BRD_.cpp:369-408 | putting a whole model into capitals changes neither count |
| `ModelString.BlanksAndPrefixDoNotMatter` | DataItems/BRD_.cpp:364-372 | blanks around a model and the escaped prefix in front of it change neither count |
| `ModelString.OptionsByName` | DataItems/BRD_.cpp:396-424 | which components mean something: "4AO" and the four ranges in letters of either case with blanks around them, and a core that begins with an O |
| `DacRange.AcceptedIffKnown` | DataItems/DAC_.cpp:8-16 | the codes a command may store are exactly those the voltage table knows |
| `DacRange.AcceptedByName` | DataItems/DAC_.cpp:8-16 | they are 0 to 3 and the words that spell U005, U010, and the two bipolar names |
| `DacRange.TDAC_Range1.ParseBytes` | DataItems/DAC_.cpp:217-245 | channel, range and whether to write, from the bytes |
| `DacRange.TDAC_Range1.Go` | DataItems/DAC_.cpp:255-275 | stores the range if its file can be written, else reports the old one |
| `DacRange.Serve` | DataItems/DAC_.cpp:217-275 | one command from bytes to configuration |
| `DacRange.RangesStayKnown` | config.cpp:323 | from the compiled defaults every run of commands keeps every stored range in the table |
| `DacRange.VoltsToCountsMonotone` | DataItems/DAC_.cpp:36-45 | more volts never give fewer counts |
| `DacRange.DecodedWithinOneStep` | DataItems/DAC_.cpp:36-45 | the counts for a voltage in range decode to within span/65536 of it |
| `DacRange.CountsRoundTrip` | DataItems/DAC_.cpp:36-45 | converting the voltage a count stands for gives the count back |
| `DacRange.CountsByEnds` | DataItems/DAC_.cpp:20-45 | for every code a command may store, the ends of its range and all beyond give 0 and 65535, the middle 32768, and a voltage between them the nearest count |
| `DacRange.CalibrationKeepsOrder` | DataItems/DAC_.cpp:47-75 | calibration with a scale of at least zero keeps the order of counts; scale one and offset zero change nothing |
| `DacRange.CalibrationIsNearest` | DataItems/DAC_.cpp:47-75 | what is written is the count nearest to scale times count plus offset, or the end it passes |

## Left out

- Sockets, select and accept, thread creation, signals, Hello messages, logging and `AsString`: only their effect on the steps is modelled. A client's socket number is taken to name one connection.
- The kernel driver: the register file holds what was last written to it, and DMA follows the contract stated at `OtherEnabled` (at most one ring of blocks outstanding, slots consecutive from 0, `done(1)` frees one).
- Items outside the register, DIO, ADC range, ADC calibration and error families (`ForeignClass`): their constructors depend on global state or write other bytes than they read. The model parses their frames with a placeholder that keeps the bytes; no codec result covers them, and the register-file result is about logs without them.
- `Go` of the calibration items, which stores floats in the configuration: the register-file result is about logs without them.
- A parameter that a constructor leaves unset, on a zero-length or short payload, is indeterminate in the source and zero here; the same for mask bytes that a short REG_ClearBits, REG_SetBits or REG_ToggleBits does not bring.
- A bit index of 32 or more shifts further than C++ defines; the refinement results exclude it (`Defined`).
- Queued messages are values. A message whose id the parser never set is an entry of its own (`Unset`) and is answered as it stands.
- `isValidMessageID` bounds its loop by the size of the vector object; the model is membership in the seven ids.
- Queues.SafeQueue.Dequeue: waiting on an empty queue and the `stop` flag (safe_queue.h:34-48) are not modelled; the contract is about a call that finds an entry or `done`, and in `ActionQueue` an empty queue disables the step.
- An item pointer that is null inside `RunMessage`: the parser never yields one.
- `validatePayload` and `validateMessage`: only a test helper calls them.
- Floating-point rounding, NaN and `AdcRawToVolts`: volts are real numbers, calibration floats are their 32-bit words.
- The time-out of `ADC_DrainAdcFifoRaw` is an input (`Empty(expired)`), and registers do not change during a busy wait.
- Uploads, update and revert, the host name, BRD_ items other than the model string: file scripts and single assignments.
- A read of the configuration that fails for another reason than a missing file, and keys that contain a slash.
- CopyFillsFreeSlot: stated for states that satisfy the invariant, which every run keeps, instead of for runs.
