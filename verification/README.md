# A verified model of the concurrent and streaming core

The repository holds a GPS location server together with the libraries it is built on.  This project
models the stateful parts of those libraries in Dafny and proves what they promise.

* **Logging** (`LogEntry.dfy`, `NanoQueue*.dfy`, `NanoLogger.dfy`, `FileWriter.dfy`, `RingBuffer.dfy`,
  `LogLineCodec.dfy`, `NanoLogLine.dfy`, `NanoProgress.dfy`).  `QueueBuffer`, its chain of `Buffer`s, any number of producers
  and the logger thread form one transition system, with one step per atomic operation, sequentially
  consistent atomics and a symbolic buffer size of at least 1; buffers are garbage collected.  Steps can
  fault, and no run does.  The lossy `RingBuffer` is a second transition system.  A log line's buffer is a
  class over arrays whose bytes are proved to encode its arguments and to decode back to them.
* **Locking** (`RecursiveLock.dfy`).  The recursive lock of pplx, one step per access to a shared field.
* **Streams** (`ByteQueue.dfy`, `ProducerConsumerBuffer.dfy`, `StreamBuffer.dfy`, `StreamReaders.dfy`,
  `StreamTransfer.dfy`, `DoubleParser.dfy`, `DoubleSyntax.dfy`).  The producer/consumer buffer is a class,
  each method one hold of its lock, and every method is proved to do to a simple byte queue what the queue's
  operation says; conservation, order of answers, wake-up, flushing and end of stream are proved of that queue
  over every run.  The readers,
  the transfers and the floating-point parser run on a source that is that byte queue with a writer they do
  not control: writes, flushes and the close after the last write happen at any point between their steps.
  Their target may be closed at any point, too.
* **Smaller pieces** (`Dms.dfy`, `JsonObject.dfy`, `Session.dfy`).  Printing and reading angles, JSON
  objects as maps, and the framing of a session's input.

Where a promise is false of the code, the exact condition under which it holds is proved, and beside it
that it fails at a real input:

* strings with a NUL in a log line: `LogLineCodec.RoundTrip`, `NulBreaksRoundTrip`;
* roll sizes from 4096 MB up: `FileWriters.EffectiveLimitIsDocumented`, `LimitWraps`;
* ring sizes from 2^20 MB up: `RingBuffers.RingSizeDocumented`, `RingSizeUsable`, `RingSizeWraps`;
* `_nextc` with one byte left: `ByteQueues.NextcReportsEndEarly`, `NextcAfterOneByte`;
* a lone \r before an empty line: `StreamReaders.LinesRoundTrip`, `LoneCrSwallowsLine`;
* a character after a bare point and a sign after an exponent: `DoubleParsers.ParsesLiteral`,
  `RejectedBehindPoint`, `RejectedBehindExponent`;
* texts that are no literal and are read all the same: `DoubleSyntax.AcceptsNoLiteral`, `OddInputs`;
* bytes held back between reads of a session: `Sessions.RunIsIdeal`, `HeldTailShows`, `HeldTailGrows`;
* the 1024 bytes of a session's buffer: `Sessions.WireIsRun`, `HandleIsLaid`, `LongReadRunsOut`,
  `HeldTailRunsOut`;
* NULs in what a session reads: `Sessions.WireAgrees`, `NulCutsFrame`.

Assumptions taken from the callers' side: the queue's size plus its producers stay below 2^32; thread ids
are distinct and not -1, and only the holder unlocks.

Run `dafny verify dfyconfig.toml` to check everything.

## Model

| member | source | states |
|---|---|---|
| NanoQueueInvariant.InitInv | geo_location_svc_lib/NanoLog.cpp:483-489 | the constructed queue, with its first buffer installed, satisfies the queue invariant |
| NanoQueueReserve.WinKeeps | geo_location_svc_lib/NanoLog.cpp:493-494 | a `fetch_add` that returns less than the size reserves the next slot of the current buffer, and keeps the invariant |
| NanoQueueReserve.OvershootKeeps | geo_location_svc_lib/NanoLog.cpp:501-504 | a `fetch_add` that overshoots sends the producer to wait, and raises the index by at most one per waiting producer |
| NanoQueueReserve.LoadKeeps | geo_location_svc_lib/NanoLog.cpp:496 | the buffer loaded after winning a slot is the buffer the slot was won on |
| NanoQueuePublish.BuildKeeps | geo_location_svc_lib/NanoLog.cpp:453 | constructing the item in the slot won succeeds, so the slot is there, and keeps the invariant |
| NanoQueuePublish.PublishKeeps | geo_location_svc_lib/NanoLog.cpp:454 | setting the publish flag succeeds and keeps the invariant, though the slot is not counted yet |
| NanoQueuePublish.NobodyInstalls | geo_location_svc_lib/NanoLog.cpp:494-500 | while any slot of the current buffer is won and not counted, no producer is installing the next buffer |
| NanoQueuePublish.CountKeeps | geo_location_svc_lib/NanoLog.cpp:455 | counting the slot, and going on to install when the count reaches the size, succeeds and keeps the invariant |
| NanoQueueInstall.AllocateKeeps | geo_location_svc_lib/NanoLog.cpp:537-538 | making a new buffer and storing it as current succeeds and keeps the invariant |
| NanoQueueInstall.EnqueueKeeps | geo_location_svc_lib/NanoLog.cpp:540 | queueing the new buffer under the lock succeeds and keeps the invariant |
| NanoQueueInstall.ResetKeeps | geo_location_svc_lib/NanoLog.cpp:541 | resetting the index under the lock succeeds and keeps the invariant |
| NanoQueueReader.TakeKeeps | geo_location_svc_lib/NanoLog.cpp:458-467 | moving the line out of a published slot succeeds, so a line is there, and keeps the invariant |
| NanoQueueReader.FrontKeeps | geo_location_svc_lib/NanoLog.cpp:544-548 | fetching the front of the buffer queue under the lock succeeds and keeps the invariant |
| NanoQueueReader.DequeueKeeps | geo_location_svc_lib/NanoLog.cpp:521-527 | popping the buffer queue under the lock never meets an empty queue and keeps the invariant |
| NanoQueueReader.WriteKeeps | geo_location_svc_lib/NanoLog.cpp:569-578 | writing the popped line succeeds and keeps the invariant |
| NanoQueueTheorems.ProducerKeeps | geo_location_svc_lib/NanoLog.cpp:491-506 | in any state of the invariant a producer step never faults and keeps the invariant |
| NanoQueueTheorems.NextKeeps | geo_location_svc_lib/NanoLog.cpp:477-557 | every step of any producer, the logger thread or the mode keeps the invariant |
| NanoQueueTheorems.RunKeeps | geo_location_svc_lib/NanoLog.cpp:477-557 | every state of every run satisfies the invariant |
| NanoQueueTheorems.NoFault | geo_location_svc_lib/NanoLog.cpp:451-467 | no run reaches a wild pointer, a slot outside its buffer, a line moved out twice, or a pop of an empty queue |
| NanoQueueTheorems.PoppedInReservationOrder | geo_location_svc_lib/NanoLog.cpp:508-532 | the lines popped are exactly the first lines in reservation order: none lost, duplicated or reordered |
| NanoQueueTheorems.PoppedInProgramOrder | geo_location_svc_lib/NanoLog.cpp:508-532 | the popped lines of each producer are a prefix of the lines it passed to add, in its program order |
| NanoQueueTheorems.EpochSafety | geo_location_svc_lib/NanoLog.cpp:491-500 | in every state in which a producer has won a slot and not counted it: the next step leaves the current buffer as it is; the slot is in that buffer, reserved by the producer and held by nobody else; and raw until it constructs there |
| NanoQueueTheorems.EpochInterval | geo_location_svc_lib/NanoLog.cpp:491-500 | over the whole stretch from the winning `fetch_add` until the push is counted the current buffer is one and the same |
| NanoQueueTheorems.SwitchedOnce | geo_location_svc_lib/NanoLog.cpp:451-456 | per buffer, push returns true at most once, and has done so exactly when all slots are counted, hence all published |
| NanoQueueTheorems.WriteIndexBound | geo_location_svc_lib/NanoLog.cpp:493-503 | the write index never exceeds the size plus the number of waiting producers, so it cannot wrap |
| NanoLoggers.NoDeadlock | geo_location_svc_lib/NanoLog.cpp:491-542 | whenever a producer is inside add, some producer inside add can move unless the logger thread holds the spin lock |
| NanoLoggers.PushesEnd | geo_location_svc_lib/NanoLog.cpp:491-542 | under any schedule, while nobody calls add, each step of a producer lowers a rank, so only so many are left |
| NanoLoggers.NoneLeft | geo_location_svc_lib/NanoLog.cpp:491-542 | the rank is zero exactly when every producer has returned from add |
| NanoLoggers.NothingLeft | geo_location_svc_lib/NanoLog.cpp:508-531 | with no producer at work, a failed try_pop means that every reserved line has been popped |
| NanoLoggers.ShutdownComplete | geo_location_svc_lib/NanoLog.cpp:628-660 | if every add returned before SHUTDOWN, then once the thread is done the files in number order hold all added lines in reservation order, each producer's lines in its order, and every closed file is over the limit only by its last line |
| NanoLoggers.DrainProgress | geo_location_svc_lib/NanoLog.cpp:655-659 | each step of the drain lowers a rank: unpopped lines first, then steps of the pass |
| NanoLoggers.Drain | geo_location_svc_lib/NanoLog.cpp:655-659 | the second loop of pop ends, with every line reserved at the start in the files, in order, well rolled |
| NanoLoggers.ShutdownTerminates | geo_location_svc_lib/NanoLog.cpp:628-632 | under any schedule only so many steps that change anything can follow a quiet shutdown |
| NanoProgress.WriteProgress | geo_location_svc_lib/NanoLog.cpp:647-653 | while READY, with a line popped or published under the read index: each step of the logger thread that does not wait for the lock writes the line or brings it nearer to its file |
| NanoProgress.WritesSoon | geo_location_svc_lib/NanoLog.cpp:647-653 | under any schedule, while READY: once the next line is published the logger thread moves at most 14 times before it writes a line |
| NanoProgress.NotStuck | geo_location_svc_lib/NanoLog.cpp:647-653 | and it can move, or the producer that has the spin lock can |
| NanoProgress.ReadyWritesAll | geo_location_svc_lib/NanoLog.cpp:640-653 | while READY and with no producer at work, only so many steps can come before every line added is in the files |
| FileWriters.EffectiveLimitIsDocumented | geo_location_svc_lib/NanoLog.cpp:563 | the 32-bit roll limit is the documented number of megabytes exactly below 4096, and starts again there |
| FileWriters.AppendLineKeeps | geo_location_svc_lib/NanoLog.cpp:569-578 | appending a line keeps the text of all files in order plus the line, and every closed file over the limit only by its last line |
| FileWriters.FileWriter.constructor | geo_location_svc_lib/NanoLog.cpp:562-567 | opens file number 1, empty |
| FileWriters.FileWriter.RollFile | geo_location_svc_lib/NanoLog.cpp:581-597 | closes the open file and opens the next number, empty |
| FileWriters.FileWriter.Write | geo_location_svc_lib/NanoLog.cpp:569-578 | the files become what appending the line makes of them; stays well rolled |
| RingBuffers.RingSizeUsable | geo_location_svc_lib/NanoLog.cpp:612 | the 32-bit ring size starts again every 2^20 megabytes, and has an item in it exactly unless a positive multiple of that is asked for |
| RingBuffers.RingSizeDocumented | sdk/NanoLog.hpp:151-154 | the ring has the documented number of items, one for every 256 bytes, exactly below 2^20 megabytes |
| RingBuffers.StepKeeps | geo_location_svc_lib/NanoLog.cpp:384-405 | every step keeps the conservation of lines, one thread inside each item, and what is known of the calls |
| RingBuffers.RingConserves | geo_location_svc_lib/NanoLog.cpp:384-405 | in every reachable state, for every line and in all: tickets issued = pops + overwrites + items with `written` set + lines in hand; no two threads are inside one item |
| RingBuffers.CallsAreStored | geo_location_svc_lib/NanoLog.cpp:384-391 | every call of push has a ticket, in the order of its caller, or is about to get one; and before it unlocks its item its own line is there with `written` set |
| RingBuffers.PushMoves | geo_location_svc_lib/NanoLog.cpp:384-391 | each step of a push brings it one step nearer to its end, unless it waits for an item that is locked |
| RingBuffers.NoDeadlock | geo_location_svc_lib/NanoLog.cpp:384-405 | while a push has not ended some push can move, or the reader is inside an item |
| RingBuffers.SlotsDiffer | geo_location_svc_lib/NanoLog.cpp:386 | two different tickets less than a lap apart use different items |
| RingBuffers.NextTicket | geo_location_svc_lib/NanoLog.cpp:395-399 | while no store has lapped the reader, a written item under the read index holds the line of the next ticket |
| RingBuffers.StepOrdered | geo_location_svc_lib/NanoLog.cpp:384-405 | a step that stores no ticket a lap ahead of the reader keeps: tickets in hand or in the ring are live, in their own item, and in one place only; nothing has been overwritten; what is popped follows the tickets |
| RingBuffers.RingOrdered | geo_location_svc_lib/NanoLog.cpp:384-405 | over any run in which no store is a lap ahead of the reader, however far ahead tickets are issued, nothing is overwritten, the popped lines are the first ones in ticket order, and every other ticket is with its producer or in its item |
| RingBuffers.TryPopPops | geo_location_svc_lib/NanoLog.cpp:393-405 | with no push under way and no store a lap ahead, a try_pop pops the next line if there is one |
| RingBuffers.RingEmpties | geo_location_svc_lib/NanoLog.cpp:393-405 | so as many calls as there are tickets not popped yet pop all the rest, in ticket order |
| LogLineCodec.LittleEndianRoundTrip | geo_location_svc_lib/NanoLog.cpp:104-108 | an integer stored in memory reads back as itself |
| LogLineCodec.EncodeSnoc | geo_location_svc_lib/NanoLog.cpp:278-318 | encoding one more argument appends its record to the bytes |
| LogLineCodec.FixedRoundTrip | geo_location_svc_lib/NanoLog.cpp:157-171 | each fixed-width argument decodes from its own tag and payload |
| LogLineCodec.DecodeFixed | geo_location_svc_lib/NanoLog.cpp:189-213 | a fixed-width record in front is decoded and the rest is decoded after it |
| LogLineCodec.DecodeText | geo_location_svc_lib/NanoLog.cpp:173-182 | a string is decoded up to its first NUL and decoding goes on behind it |
| LogLineCodec.RoundTripWhenFaithful | geo_location_svc_lib/NanoLog.cpp:184-218 | if no `std::string` argument holds a NUL, decoding gives back exactly what was said and ends exactly at the end |
| LogLineCodec.FaithfulWhenRoundTrip | geo_location_svc_lib/NanoLog.cpp:184-218 | if decoding gives back what was said, no `std::string` argument held a NUL |
| LogLineCodec.RoundTrip | geo_location_svc_lib/NanoLog.cpp:278-282 | for every sequence of arguments the round trip holds if and only if no `std::string` argument holds a NUL; null and empty C strings say nothing |
| LogLineCodec.DecodeAccounts | geo_location_svc_lib/NanoLog.cpp:184-218 | for any bytes: the records of what is decoded come first, and what is left is nothing, begins with no tag, or is a record cut short, as the outcome says |
| NanoLogLines.WriteKeeps | geo_location_svc_lib/NanoLog.cpp:225-246 | one write keeps: used <= size, copied <= size, size <= max(512, 2 * used), 512 at least on the heap; the buffer changes only when the bytes do not fit |
| NanoLogLines.AmortisedGrowth | geo_location_svc_lib/NanoLog.cpp:225-246 | over any run of encodes all bytes ever copied by growing fit in the buffer, which is at most max(512, twice what is used) |
| NanoLogLines.HeaderRoundTrip | geo_location_svc_lib/NanoLog.cpp:134-141 | the six header fields read back as written |
| NanoLogLines.NanoLogLine.constructor | geo_location_svc_lib/NanoLog.cpp:118-128 | a new line holds the header in the stack buffer, without asking for room |
| NanoLogLines.NanoLogLine.Put | geo_location_svc_lib/NanoLog.cpp:103-108 | bytes go behind those in use, which stay |
| NanoLogLines.NanoLogLine.ResizeBufferIfNeeded | geo_location_svc_lib/NanoLog.cpp:225-246 | there is room for the bytes asked for, the written prefix is preserved, and the size follows the growth rule |
| NanoLogLines.NanoLogLine.CopyBytes | geo_location_svc_lib/NanoLog.cpp:236 | memcpy: the first n bytes become those of the source |
| NanoLogLines.NanoLogLine.WriteRecord | geo_location_svc_lib/NanoLog.cpp:110-116 | room for a record and then the record behind the bytes in use |
| NanoLogLines.NanoLogLine.Insert | geo_location_svc_lib/NanoLog.cpp:260-271 | whichever growth it takes, the line gains exactly the record of its argument |
| NanoLogLines.NanoLogLine.Stringify | geo_location_svc_lib/NanoLog.cpp:132-155 | gives the header as constructed, and the arguments as inserted if and only if none is a `std::string` with a NUL |
| NanoLogLines.StringifyArgs | geo_location_svc_lib/NanoLog.cpp:184-218 | the recursive reader computes the decoding of the bytes between its two pointers, and terminates |
| NanoLogLines.FindNul | geo_location_svc_lib/NanoLog.cpp:174-182 | finds the first NUL behind the tag, or the end |
| RecursiveLocks.StepKeeps | include/pplx/pplxlinux.h:167-195 | each access to the owner, the count or the mutex keeps the lock invariant |
| RecursiveLocks.RunKeeps | include/pplx/pplxlinux.h:156-201 | every state of every run of any number of threads satisfies the invariant |
| RecursiveLocks.OwnerTestIsExact | include/pplx/pplxlinux.h:171 | an owner field naming a thread means it holds the mutex; the unlocked test succeeds exactly for the holder |
| RecursiveLocks.OneThreadInside | include/pplx/pplxlinux.h:173-180 | a thread whose calls have returned, with more calls of lock than of unlock, has the mutex, so only one has; the count is the difference and the owner is its id |
| RecursiveLocks.ReleasedAtDepthZero | include/pplx/pplxlinux.h:188-194 | between calls a thread has the mutex exactly when it has called lock more often than unlock, and the releasing step is taken only when it has not |
| RecursiveLocks.BalancedMeansFree | include/pplx/pplxlinux.h:161-165 | with every lock matched the lock is as it was constructed |
| RecursiveLocks.StepMoves | include/pplx/pplxlinux.h:167-196 | each step brings its call nearer to the end, unless it waits for a locked mutex; a free one goes to the one who takes the step |
| RecursiveLocks.NoDeadlock | include/pplx/pplxlinux.h:167-196 | while a call has not returned, some call can take a step or they wait for a thread that has called lock and not yet unlock |
| ByteQueues.MustWaitIs | include/cpprest/producerconsumerstream.h:523 | a request has to wait exactly while writing is open, nothing is flushed and there is less than it asks for |
| ByteQueues.CompleteExact | include/cpprest/producerconsumerstream.h:543-589 | answering adds one answer, for its own request, that gives and takes exactly what the request is for off the front; flushed characters go first |
| ByteQueues.CompleteKeeps | include/cpprest/producerconsumerstream.h:543-580 | answering a request that need not wait moves bytes, loses none, gives what stands at the reading position, and tells the truth |
| ByteQueues.FulfillAnswers | include/cpprest/producerconsumerstream.h:386-402 | fulfilling answers some first requests of the line, in order, one answer each, and leaves the others waiting |
| ByteQueues.FulfillKeeps | include/cpprest/producerconsumerstream.h:386-402 | fulfilling leaves a head that has to wait, and empties the line once writing has closed |
| ByteQueues.ApplyKeeps | include/cpprest/producerconsumerstream.h:239-340 | every hold of the lock keeps the queue invariant |
| ByteQueues.EveryRunKeeps | include/cpprest/producerconsumerstream.h:239-402 | under any interleaving: bytes consumed in answer order + unread = bytes stored; each answer gives what stands at the reading position; nobody waits at the head who need not while writing is open; a read reports nothing only after the close and falls short only after a sync or the close |
| ByteQueues.RunFrame | include/cpprest/producerconsumerstream.h:325-379 | what is stored is what was written, and the two flags say whether the closes have come |
| ByteQueues.LineInOrder | include/cpprest/producerconsumerstream.h:386-402 | over any run: the requests answered from the line, in the order of the answers, then those still waiting are the ones that had to wait, in the order they were asked; every other request has its one answer |
| ByteQueues.FlushedStays | include/cpprest/producerconsumerstream.h:243 | at any time of any run the flushed characters are those of what had been written at the last sync that have not been consumed |
| ByteQueues.SyncReleases | include/cpprest/producerconsumerstream.h:239-248 | after a sync nobody waits while there is anything to read, and whoever asks is answered |
| ByteQueues.NobodyWaitsAfterClose | include/cpprest/producerconsumerstream.h:325-340 | once closing for writing has returned the line is empty, and stays so whatever comes after |
| ByteQueues.NextcReportsEndEarly | include/cpprest/producerconsumerstream.h:309-317 | `_nextc` reports the end of an open stream exactly when one character is left |
| ProducerConsumerBuffers.Buffer.constructor | include/cpprest/producerconsumerstream.h:596-619 | stands for the empty byte queue |
| ProducerConsumerBuffers.Buffer.ReadBlock | include/cpprest/producerconsumerstream.h:433-454 | reads from the front of one block, and takes what it read away only when told to advance |
| ProducerConsumerBuffers.Buffer.ReadBlocks | include/cpprest/producerconsumerstream.h:549-558 | over all blocks: the first count unread characters, or all there are, taken away only when told to advance |
| ProducerConsumerBuffers.Buffer.UpdateReadHead | include/cpprest/producerconsumerstream.h:572-589 | counts what was read, consumes flushed characters first, and purging used-up blocks changes nothing that is unread |
| ProducerConsumerBuffers.Buffer.Read | include/cpprest/producerconsumerstream.h:543-566 | the queue loses up to count characters from its front and the caller gets those, or only gets them when peeking |
| ProducerConsumerBuffers.Buffer.CompleteRequest | include/cpprest/producerconsumerstream.h:260-317 | each callback does to the byte queue what its request says |
| ProducerConsumerBuffers.Buffer.FulfillOutstanding | include/cpprest/producerconsumerstream.h:386-402 | does to the byte queue what fulfilling does |
| ProducerConsumerBuffers.Buffer.EnqueueRequest | include/cpprest/producerconsumerstream.h:504-518 | an asynchronous read is answered at once if it can be satisfied, else goes to the back of the line |
| ProducerConsumerBuffers.Buffer.ReadNow | include/cpprest/producerconsumerstream.h:271-307 | a synchronous read is answered if it can be satisfied, else changes nothing |
| ProducerConsumerBuffers.Buffer.Acquire | include/cpprest/producerconsumerstream.h:192-217 | gives the whole front block, a prefix of what is unread; a null pointer with success exactly when no block is left and writing has closed |
| ProducerConsumerBuffers.Buffer.Release | include/cpprest/producerconsumerstream.h:225-236 | exactly the released characters leave the front of the queue |
| ProducerConsumerBuffers.Buffer.Write | include/cpprest/producerconsumerstream.h:356-380 | everything is stored and readers are answered; refused once writing has closed, dropped once nobody can read |
| ProducerConsumerBuffers.Buffer.WriteLocked | include/cpprest/producerconsumerstream.h:364-379 | under the lock: the data goes to the end of the queue, whichever block it lands in |
| ProducerConsumerBuffers.Buffer.Alloc | include/cpprest/producerconsumerstream.h:143-157 | hands out a block of the asked size unless writing has closed; the queue does not change |
| ProducerConsumerBuffers.Buffer.Commit | include/cpprest/producerconsumerstream.h:163-177 | the first count characters put in the block are stored, and readers are answered |
| ProducerConsumerBuffers.Buffer.SyncNow | include/cpprest/producerconsumerstream.h:239-248 | everything now unread counts as flushed, and readers are answered |
| ProducerConsumerBuffers.Buffer.StopWritingNow | include/cpprest/producerconsumerstream.h:330 | closes the write side before the lock is taken |
| ProducerConsumerBuffers.Buffer.Flush | include/cpprest/producerconsumerstream.h:332-337 | answers every waiting reader after the close |
| StreamBuffers.Source.Answered | include/cpprest/producerconsumerstream.h:271-307 | a satisfiable read gives a prefix of the stream, removes exactly that, is empty only at the end and short only after a flush or at the end |
| StreamBuffers.Source.Sync1 | include/cpprest/producerconsumerstream.h:290-307 | one character at once, or none only when nothing was there |
| StreamBuffers.Source.Async1 | include/cpprest/producerconsumerstream.h:283-301 | the first character of the stream, or the end, however long the writer takes |
| StreamBuffers.Source.GetN | include/cpprest/producerconsumerstream.h:260-269 | up to count characters; fewer only after a flush or at the end |
| StreamReaders.ReadHelper.Flush | include/cpprest/streams.h:783-789 | what was buffered goes to the target and is counted, or to nobody once the target has closed |
| StreamReaders.ReadHelper.Put | include/cpprest/streams.h:795-803 | one more character is sent, with a flush when the buffer is full |
| StreamReaders.DelimTurn | include/cpprest/streams.h:808-824 | one turn of the loop keeps sent + still to send, or ends with exactly the characters before the delimiter sent and the delimiter consumed |
| StreamReaders.ReadToDelim | include/cpprest/streams.h:768-827 | an exception exactly for a failed or unreadable stream or a closed target, with nothing changed; else, for every cut into writes and every arrival: the delimiter and nothing more is consumed; the target gains exactly the characters before the first delimiter or the end, or a prefix of them if it closes meanwhile; the count is what it gained |
| StreamReaders.SplitAtDelim | include/cpprest/streams.h:761-767 | the characters before the first delimiter, the delimiter and the rest are the whole stream; all of it when there is none |
| StreamReaders.SplitAtLine | include/cpprest/streams.h:831-915 | reading a line splits any stream at its first line ending, the longest there, or takes all of it when there is none |
| StreamReaders.LineTurn | include/cpprest/streams.h:889-916 | one turn of the loop of read_line, before or after a \r |
| StreamReaders.ReadLine | include/cpprest/streams.h:835-919 | an exception as for `read_to_delim`; else, for every cut into writes and every arrival: the first \n, \r\n or lone \r and nothing more is consumed; the target gains exactly the characters before it or the end, or a prefix of them if it closes meanwhile; the count is what it gained |
| StreamReaders.CopyToTarget | include/cpprest/streams.h:938-959 | one block goes from the stream to the target, or to nobody once the target has closed |
| StreamReaders.ReadToEnd | include/cpprest/streams.h:926-964 | the exception of the checks on entry, with nothing changed; the exception for a target that took too little, only if it closed; else the target gains the whole stream and the count is its length |
| StreamReaders.ReadsWrittenLine | include/cpprest/streams.h:858-887 | a written line reads back as itself with any ending; after a lone \r a \n of the next line goes too |
| StreamReaders.LinesRoundTrip | include/cpprest/streams.h:835-919 | reading line after line gives back the lines written, in any mix of endings, if and only if no lone \r is followed by an empty line ended by \n |
| StreamTransfers.MoveIntoBlock | include/cpprest/streams.h:707-712 | by alloc and commit: target gains the first n source characters, source loses exactly those, n is returned |
| StreamTransfers.MoveInPlace | include/cpprest/streams.h:719-726 | by acquire and release: the same, with n = count |
| StreamTransfers.MoveByCopy | include/cpprest/streams.h:736-744 | by a temporary buffer: the same |
| StreamTransfers.Move | include/cpprest/streams.h:211-256 | whichever way is taken: the target gains the first n source characters and n is returned; while the target stays open the source loses exactly those, and n < count only after a flush or at the end; an exception exactly for a target already handing out a block |
| StreamTransfers.WriteFrom | include/cpprest/streams.h:203-258 | an exception exactly for a failed or closed stream, an unreadable source or an overlap, with nothing changed; nothing for a count of zero; else as for any of the three ways |
| StreamTransfers.ReadInto | include/cpprest/streams.h:692-747 | an exception exactly for a failed or unreadable stream, a closed target or an overlap, with nothing changed; else as for any of the three ways |
| DoubleParsers.DoubleState.AcceptChar | include/cpprest/streams.h:1323-1418 | the state and the verdict after one character are those of the accept function, on all branches |
| DoubleParsers.DoubleState.ExtractResult | include/cpprest/streams.h:1421-1455 | the result is the signed mantissa scaled by the exponent less the fraction length, or the error of the first failing check |
| DoubleParsers.SkipWhitespace | include/cpprest/streams.h:1100-1135 | exactly the leading white space is consumed, however the stream arrives |
| DoubleParsers.ParseDouble | include/cpprest/streams.h:1139-1183 | consumes exactly the characters that belong to the number and gives the result of their state, however the stream arrives |
| DoubleParsers.FeedLiteral | include/cpprest/streams.h:1323-1418 | all characters of a literal are accepted and lead to the state of its digits, exponent and signs |
| DoubleParsers.FeedRest | include/cpprest/streams.h:1325-1349 | a character that cannot continue the literal is turned down and stays unread |
| DoubleParsers.FractionScaled | include/cpprest/streams.h:1405-1408 | digits behind the point read as one number are the positional fraction times a power of ten |
| DoubleParsers.DenotesSigned | include/cpprest/streams.h:1427-1447 | mantissa times the power of ten is what the literal denotes in positional notation |
| DoubleParsers.ParsesLiteral | include/cpprest/streams.h:1421-1455 | every literal followed by the end or a character that cannot continue it gives the number it denotes, the rest stays unread; the error cases (range, a sign after an exponent, a character after a bare point) are named exactly |
| DoubleSyntax.TakesExactly | include/cpprest/streams.h:1325-1417 | whatever has been consumed, the next character is taken exactly when the shape of it allows |
| DoubleSyntax.InputSplits | include/cpprest/streams.h:1323-1425 | every input is, in exactly one way, the text of a shape followed by a character that cannot extend it, or by nothing |
| DoubleSyntax.TakesLongest | include/cpprest/streams.h:1323-1425 | no longer text at the front of the input has a shape |
| DoubleSyntax.ParsesExactly | include/cpprest/streams.h:1323-1425 | for every input: exactly the text of its shape is consumed, and there is no error but one of the range exactly when shape and next character are clean |
| DoubleSyntax.LiteralText | include/cpprest/streams.h:1323-1425 | a shape is a literal exactly when its text is the text of a well-formed literal |
| DoubleSyntax.AcceptsNoLiteral | include/cpprest/streams.h:1323-1425 | for every input, split so: it is read without an error though its shape is no literal exactly when it is clean and has no digit before the exponent, or a point before its sign; without digits it reads as zero |
| DoubleSyntax.ReadsExactly | include/cpprest/streams.h:1323-1425 | for every input, split so: the error named, zero, or what the digits denote, a point before the sign counting as one behind it |
| DoubleParsers.SpacesDropped | include/cpprest/streams.h:1100-1135 | white space before a literal makes no difference |
| DegreesMinutesSeconds.PrintPlain | sdk/dms.h:56-118 | prints sign, degrees, minutes and seconds of the split angle, zero padded |
| DegreesMinutesSeconds.PrintLat | sdk/dms.h:121-139 | the sign becomes N or S behind the text, with a blank in front |
| DegreesMinutesSeconds.PrintLon | sdk/dms.h:142-163 | the sign becomes E or W behind the text, with a 0 in front below 100 degrees |
| DegreesMinutesSeconds.DecimalDegrees | sdk/dms.h:169-204 | blanks everything but digits and points in place and reads three numbers and the sign |
| DegreesMinutesSeconds.SplitAccurate | sdk/dms.h:66-85 | the split is off by at most 0.00005 seconds, minutes may be 60, seconds are below 60 |
| DegreesMinutesSeconds.PrintedWidth | sdk/dms.h:97-115 | the minutes have two digits, the seconds two before the point and as many behind it as asked for |
| DegreesMinutesSeconds.UnitsNumeral | sdk/dms.h:104-115 | the padded text of the seconds is a numeral worth the rounded seconds |
| DegreesMinutesSeconds.ReadsPrinted | sdk/dms.h:169-204 | reading any printed form gives its degrees, minutes and shown seconds, negated for negative angles |
| DegreesMinutesSeconds.ReadsThree | sdk/dms.h:191-196 | any three numbers with anything between them but digits and points are read |
| DegreesMinutesSeconds.ReadsTwo | sdk/dms.h:191-196 | two numbers only are read with no seconds |
| DegreesMinutesSeconds.ReadsOne | sdk/dms.h:191-196 | one number only is read as decimal degrees |
| DegreesMinutesSeconds.ReadsNone | sdk/dms.h:191-196 | a text without a digit reads as zeros |
| DegreesMinutesSeconds.ReadIs | sdk/dms.h:175-204 | the angle is degrees, sixtieths and 3600ths, negated when the last character is W or S or the first is a minus sign |
| DegreesMinutesSeconds.RoundTrip | sdk/dms.h:56-204 | plain, Lat and Lon: the angle read is within (0.5 * 10^-d + 0.00005) / 3600 degrees of the one printed, with the right sign |
| DegreesMinutesSeconds.RoundTripExact | sdk/dms.h:56-204 | with d <= 4 places, an angle that is a whole number of 10^-d seconds comes back exactly |
| JsonObjects.LessTotal | include/cpprest/json.h:1131-1139 | the key order is a strict total order |
| JsonObjects.LessIsLexicographic | include/cpprest/json.h:1131-1139 | it is the order of the first character that differs, a proper prefix first |
| JsonObjects.PlaceFinds | include/cpprest/json.h:1141-1182 | linear and binary search reach a field with the key exactly when the map has it, with its value |
| JsonObjects.SortRefines | include/cpprest/json.h:956-962 | the sorting constructor gives sorted fields that stand for the same map |
| JsonObjects.SortedIsUnique | include/cpprest/json.h:956-962 | with no key twice there is only one sorted arrangement, so the sorting algorithm does not matter |
| JsonObjects.ApplyRefines | include/cpprest/json.h:1050-1109 | every operation keeps the fields unique (and sorted when unordered) and does to the map what it says |
| JsonObjects.ApplyKeepsOrder | include/cpprest/json.h:1099-1109 | in the order-keeping mode a new key goes to the end and an erased one leaves the others in order |
| JsonObjects.RunRefines | include/cpprest/json.h:943-1190 | over any run, in either mode, from fields without a repeated key: unique, sorted when unordered, and the map the operations say |
| JsonObjects.ModesAgree | include/cpprest/json.h:1155-1172 | after any run both modes answer every lookup with the value of the map |
| JsonObjects.RunKeepsOrder | include/cpprest/json.h:1141-1153 | over any run the order-keeping mode keeps the order of insertion |
| JsonObjects.ObjectFields.constructor | include/cpprest/json.h:955-962 | fields as given or sorted; the map of the fields given, if no key comes twice |
| JsonObjects.ObjectFields.FindIf | include/cpprest/json.h:1145-1147 | the first field with the key, or the end |
| JsonObjects.ObjectFields.LowerBound | include/cpprest/json.h:1151 | halving finds the first field whose key is not less |
| JsonObjects.ObjectFields.FindByKey | include/cpprest/json.h:1174-1182 | a position exactly when the map has the key, and then of that field |
| JsonObjects.ObjectFields.At | include/cpprest/json.h:1066-1075 | the value of the map, or the exception when the key is absent |
| JsonObjects.ObjectFields.Subscript | include/cpprest/json.h:1099-1109 | the map gains a null value when the key was absent, else is unchanged; gives the field of the key |
| JsonObjects.ObjectFields.Assign | include/cpprest/json.h:1099-1109 | writing through the reference sets exactly that key |
| JsonObjects.ObjectFields.Erase | include/cpprest/json.h:1050-1059 | exactly that key leaves the map; the exception leaves everything as it was |
| Sessions.Session.constructor | geo_location/session.h:25-30 | buff cleared, nothing passed on |
| Sessions.Session.TakeByte | geo_location/session.h:59-93 | for any byte and any buff: what storing the byte does to buff, frames and position; false exactly where that would go outside buff |
| Sessions.Session.EndFrame | geo_location/session.h:72-92 | the text up to the first NUL is trimmed and passed on and buff is cleared; false exactly where there is no NUL |
| Sessions.Session.HandleRead | geo_location/session.h:46-97 | for any bytes and any buff: buff and frames are those of the handler told byte by byte; false exactly where an access would go outside buff |
| Sessions.FitsEach | geo_location/session.h:63 | each byte comes where a NUL is left behind it exactly when no 1023 bytes in a row, with more to come, are without a `)` |
| Sessions.HandleIsOnRead | geo_location/session.h:46-97 | without NULs: every access of a read, and the strlen of the next, is inside buff exactly when the tail followed by the tail and the new bytes fit, and then frames and tail are those of cutting that |
| Sessions.WireIsRun | geo_location/session.h:46-97 | over any run of reads without NULs: every access is inside buff exactly when each read fits behind what the reads before it leave, and then the session in its buffer is the one on sequences |
| Sessions.HandleIsLaid | geo_location/session.h:46-97 | for any bytes and any buff between reads: a read cuts the held text, the held text again and the new bytes; it stays inside buff exactly when each piece and the rest fit and a NUL is found behind each piece; each frame is what stands before that NUL |
| Sessions.RunIsLaid | geo_location/session.h:46-97 | and so over any run of any reads from the cleared buff on |
| Sessions.WireAgrees | geo_location/session.h:46-97 | for any run of any reads: the session in its buffer passes on and holds what the one on sequences does if and only if each read fits and no read has a NUL |
| Sessions.CutExact | geo_location/session.h:59-94 | cutting loses nothing and cuts behind every `)` |
| Sessions.TrimExact | geo_location/session.h:73 | trimming takes the white space off both ends and nothing else |
| Sessions.CutTwice | geo_location/session.h:59-94 | cutting input in two goes gives the same pieces if the tail of the first goes in front of the second |
| Sessions.ReadCompares | geo_location/session.h:48-63 | one read gives the frames of an ideal framer exactly when it ends no frame or only white space was held |
| Sessions.FramesAreIdeal | geo_location/session.h:46-97 | over any run of reads the frames are the trimmed pieces of the whole input, in order, if and only if every read that ends a frame begins where only white space follows the last `)` of the input so far; their number is always right |
| Sessions.TailIsIdeal | geo_location/session.h:46-97 | what is held is exactly what follows the last `)` of the input if and only if every read since then, or since the start, began right behind a `)` or at the start |
| Sessions.RunIsIdeal | geo_location/session.h:46-97 | the session is the ideal framer of its whole input if and only if both conditions hold |
| Sessions.EmptyTailsAreIdeal | geo_location/session.h:46-97 | in particular when every read begins with nothing held, told of the reads alone |
| Sessions.HeldTailDoubles | geo_location/session.h:51-64 | a tail held back comes twice in front of the next frame |

## Left out

- Weak memory orders, padding and `malloc`/`free` lifetimes: steps are sequentially consistent and buffers are garbage collected, because a producer may touch a buffer after the reader has popped it (`NanoLog.cpp:454-455`).
- Thread classes: the queue, the ring and the recursive lock are transition systems over values, so aliasing between threads is by slot and buffer number and not by reference.
- RingBuffers.RingOrdered: speaks only of runs in which no line is stored a lap ahead of the reader, and of tickets below 2^32, since after that neither order nor noticing a written item is promised by the code.
- Fairness: `NanoLoggers.PushesEnd` and `ShutdownTerminates` bound the steps that change anything; that the scheduler runs a thread at all is not part of the model.
- Timestamps, thread-id text and `ostream` formatting of numbers in a log line: header fields and arguments are opaque values, a double is its bit pattern.
- NanoLogLines.NanoLogLine.ResizeBufferIfNeeded: `size_t` overflow of doubling the size is not modelled.
- ProducerConsumerBuffers.Buffer.WriteLocked: blocks are values in the deque, so the sharing of a block between the deque, `m_allocBlock` and a pointer handed to a caller is not captured; what the caller writes through that pointer is the method `FillAllocated`.
- ByteQueues.LineInOrder: orders the requests that have to wait; one that need not is answered at once and overtakes them, as in the code.
- ByteQueues.EveryRunKeeps: `_nextc` and a release after acquire are not held to truthful ends.
- Seeking, positions, `_ungetc` and the futures handed to callers: an answer is recorded when the callback runs.
- StreamBuffers.Source.Sync1: a buffer whose `in_avail` is positive answers a synchronous read, as the producer/consumer buffer does; buffers that do not are not covered.
- StreamBuffers.Source.Meanwhile: a write that had passed its `can_write` test before the close does not land after it, as `WriteLocked` of the producer/consumer buffer allows; a reader that has seen the end would not see it.
- StreamBuffers.Sink.Alloc: alloc and commit of a target are stated beside those of `ProducerConsumerBuffers.Buffer`, not proved from them, and a target without blocks of its own is any other stream buffer.
- StreamReaders.ReadLine: a stream that is closed for reading, or fails, after the checks on entry is not covered.
- DoubleParsers.ParseDouble: mantissa, exponent and result are exact; IEEE rounding and `int` overflow of the exponent are not modelled. The largest and smallest values are parameters.
- Integer, string and boolean parsers of `streams.h`, `filestream.h`, `containerstream.h`, `rawptrstream.h`, `interopstream.h`: simpler members of the same kind or operating-system backends.
- DegreesMinutesSeconds.RoundTrip: over exact reals; binary floating point is not modelled, and a tie in the last printed place goes to the even digit.
- JSON parsing and printing, arrays, and objects with repeated keys, for which the two modes may differ; iteration and erasing by position.
- Sessions.HandleIsOnRead: speaks, as `WireIsRun` does, of bytes without a NUL; for any bytes see `HandleIsLaid`, `RunIsLaid` and `WireAgrees`. The reply of `gps->process`, logging and the socket are left out; a frame is what is passed on.
- Sockets, HTTP, ZeroMQ, OAuth, plug-in loading, the device decoders and the database calls: I/O, foreign calls or fixed-offset field reads.
