# Verified models of netcomm components

This project models the hardest self-contained algorithms of a repository of small networking
components, and proves what they are for. Each component has its own modules; nothing is shared
except number lemmas (`powers_of_two.dfy`), the associativity of concatenation (`sequences.dfy`) and the type
`Verdict` (`verdicts.dfy`).

## The lock-free queue (`powers_of_two.dfy`, `spsc_*.dfy`)

`lock_free/one_2_one/readerwriterqueue.h` is a circular list of circular buffers for one producer
and one consumer. `SpscQueue` gives every shared load and store of `inner_enqueue`, `try_dequeue`,
`peek` and `pop` as one atomic step of a transition system, with the stale shadow copies
`localFront` and `localTail`, the fields of every block, and the locals of both threads. The
interleaving is arbitrary (`SpscSystem.Step`, `SpscRuns.Run`), so the operations are steps on a
memory value and not methods: a method would run without interruption. `SpscInvariant` says what
holds in every reachable state; `SpscSteps` and `SpscConsumer` prove it step by step;
`SpscRefinement` proves that every step changes the queue, as read off by following `next` from
`frontBlock` to `tailBlock`, just as a plain sequence would change, at exactly one linearisation
point per call. `SpscRuns`, `SpscCalls` and `SpscCapacity` draw the conclusions for whole runs, and
`SpscBlocking` adds the counting semaphore of `atomicops.h` with its kernel semaphore.

## The timing wheel (`itimer_*.dfy`)

`timer_wheel/itimer.c` keeps timers in five wheels of circular doubly linked lists, cascading from
the outer wheels to the inner ones as a 32-bit tick counter runs. `TimerRing` has the list
operations of `itimer.h` on real linked nodes; `TimerShape` says what all 512 slots and the local
list of a running loop look like together; `TimerPlace` has the placement arithmetic, on unbounded
ticks that the code sees modulo 2^32; `TimerTiming` says which slot is right for which due tick and
how that survives cascading and turning; `TimerSet` is the simple timer set that the wheel is meant
to be: a history of timers armed, cancelled and fired. `TimerCore.Core` is the core with its fields
and loops; its ghost fields tie the heap to the simple timer set. On top of it, `TimerClock` and
`TimerPlan` have the arithmetic of periods, and `TimerManager.Manager` is the millisecond manager.
Callbacks are given as scripts: any sequence of operations on any timers or events, one script for
each call in turn, for every choice of scripts. The history of a run is exactly its firings, each followed by
what its script does, and so `TimerClients` can prove from these contracts alone what a user relies on: a
timer added, or an event started, and not named by any callback, fires or is called exactly as often and
when it should.

## The multipart parser (`multipart_*.dfy`)

`http_chunk_data_decode/multipart_parser.c` parses a multipart message that arrives in buffers of
any sizes, keeping back bytes that may belong to the delimiter of section 5.1.1 of RFC 2046.
`MultipartMachine.Step` is what one byte does; `MultipartParser.Parser` is the parser object with
its look-behind buffer and the loop over a buffer, proved to make exactly the callbacks of that
machine. `MultipartChunks` compares any cutting into buffers with reading byte by byte, and
`MultipartRoundTrip` proves that a well-formed message is read back. The callbacks return 0.

## HTTP responses (`http_*.dfy`)

`curl_http/happyhttp/happyhttp.cpp` reads responses with a length, in chunks (section 4.1 of RFC
7230) or up to the end of the connection, as bytes arrive. `HttpMachine.Pump` is what it does byte
by byte; `HttpObject.Response` is the response object with its fields, proved to do the same for
whole buffers. `HttpExchange` proves that responses are read as they were sent, and
`HttpConnection` has the queue of pipelined responses. The texts and bytes are sequences of `char`;
the C library functions used on them are in `HttpText`, with a `long` of 64 bits and an `int` of 32
bits. An exception is an outcome of its own.

Where the code falls short of its comments or of itself, proved as such:

- A chunk size or a `Content-Length` that is negative as an `int` of 32 bits makes the code hand a
  negative count to the callback and step back by as many bytes, out of what it was given. This is an
  outcome of its own, `Undefined`. It comes if and only if such a line has been read and another
  byte follows (`UndefinedWhen`, `SteppedBackWhen`), and `Response.Pump` and `Connection.PumpBuffer`
  may be called unless it does. A chunk size of -5 is such a size (`ChunkOfMinusFive`), and so
  are sizes without a sign whose remainder by 2^32 is at least 2^31, apart from the length that wraps
  to -1 (`ChunkWraps`, `LengthWraps`).
- The reason phrase and the headers of a response with status 100 stay in the next response
  (`ReasonAccumulates`).
- A response with length 0, or with no body because of its status or of HEAD, is not complete when all
  of it has arrived, and the end of the connection is an error then. All others are read as they were
  sent (`ReadAsSentWhen`). What comes next completes it without being used (`LengthResponse`), unless
  its headers say that it has chunks: then the head of the next response is taken for the last chunk
  and its trailers, and is lost (`NextHeadSwallowed`).

## MessagePack (`msgpack_*.dfy`)

`MsgpackFormat` has the byte forms of section "Formats" of the MessagePack specification, as
functions that write and read them; `MsgpackPacker.Packer` is the packer of
`msgpack_flatbuffer_compare/mp/msgpack/pack.hpp` with the packing of objects of `object.hpp`, proved
to append these bytes. Floating point numbers are their bits.

## Internet checksum (`checksum.dfy`)

`Checksum` has the two sums of `check_sum/check_sum.c`. `Folded` is the one's-complement sum of
section 1 of RFC 1071, the representative modulo 65535 that is 0 only for 0, and both ways of folding
compute it. The range within which the second sum detects a change is the one in which the 32-bit
sum does not wrap.

The index of `checksum_8` is a `char`, signed here. It turns negative behind 128 bytes, and the code then
takes bytes from before the buffer: `ReadsInside` and `TakenIsBuffer` say exactly when, `Misread129` at
which byte first. `Checksum8` says what is computed from the bytes taken, for any size.

## FlatBuffers (`flat_*.dfy`)

`FlatVector.VectorDownward` and `FlatBuilder.FlatBufferBuilder` are the classes of
`msgpack_flatbuffer_compare/fb/flatbuffers.h`, with a buffer that moves when it grows. Every operation is
proved to have exactly the effect of a function of the builder's state (`FlatBuild`, `FlatTables`), whose
ghost part says what has been made: strings, vectors of numbers, offsets or structs, and tables, each
named by how far before the end of the buffer it starts. `FlatObjects.Soundness` says that all of it is in
the bytes, and every operation keeps it, also when the buffer moves, grows, or a vtable is shared and
popped. `FlatReader` has the accessors and proves that they give back what was put in, and
where everything is aligned; `FlatVerifier` has the verifier for tables of any schema, nested or not, and
proves that it accepts a finished buffer exactly within its bounds; `FlatMonster` puts this together for
`flatbuffers/monster_generated.h`.

One property is false of the code: a vector of structs does not count for the alignment of the whole
buffer, so that its elements can lie at places that are no multiples of their alignment
(`FlatReader.StructsMisaligned`); `FlatReader.StructsAligned` says when they do, by the size that the buffer
will have. Everything else is aligned (`FlatReader.AllAligned`).

## JSON (`json_*.dfy`)

`JsonWriter.FastWriter` and `JsonReader.Reader` are the classes of `jsoncpp/jsoncpp/jsoncpp.cpp`, with loops
over the characters and mutual recursion over the values, proved against functions: `JsonValue.Text` is the
text of a value, `JsonGrammar.ReadValue` what is read from a text. `JsonRoundTrip` proves that reading
inverts writing for every value without reals, with arbitrary bytes in its strings, exactly up to the
stack limit. Numbers come back as the kind that `decodeNumber` gives them, which is `JsonValue.Retagged`.

## INI parser and dumper (`ini_*.dfy`)

`IniParser.LevelNode` and `IniParser.Parser` are the levels and the parser of `ini/ini-parser/ini.hpp` in the
heap: sections and parents are pointers, and `Parse` calls itself for every section and comes back only at
the end of the stream. They are proved against `IniLevels.Parsed`, in which a level is named by its
number in the order of creation. `IniDump` has what dump prints, as a text and line by line, `IniRoundTrip`
proves that parsing rebuilds what has been dumped, and `IniExact` says for which trees, of all there are,
that is so (`ComesBackWhen`). Of the trees that parsing itself makes, those are lost in part that have a key
that begins like a comment, or a section without a name that shares its line with what is printed next
(`ParsedComesBackWhen`, `CommentIsLost`, `ValueIsSwallowed`). Names that begin with a bracket, which parsing
never makes, do not come back either (`BracketThrows`).

## Model

| member | source | states |
|---|---|---|
| PowersOfTwo.CeilToPow2 | lock_free/one_2_one/readerwriterqueue.h:520-532 | the shift-and-or loop returns the least power of two that is not less than its argument |
| PowersOfTwo.SmearedValue | lock_free/one_2_one/readerwriterqueue.h:523-530 | with every bit below its highest one set, a number is one less than the least power of two above it |
| PowersOfTwo.MaskedIncrement | lock_free/one_2_one/readerwriterqueue.h:227 | adding one and masking with a power of two less one is adding one around a ring of that size |
| SpscRuns.Construct | lock_free/one_2_one/readerwriterqueue.h:69-113 | the constructor makes empty blocks in one ring, with block sizes and count as maxSize and MAX_BLOCK_SIZE demand |
| SpscRuns.StartIsInvariant | lock_free/one_2_one/readerwriterqueue.h:69-113 | a constructed queue with both threads idle satisfies the invariant, and is empty |
| SpscSteps.ProducerAdvances | lock_free/one_2_one/readerwriterqueue.h:442-469 | the producer moves tailBlock only to an empty block that is not the front block, and keeps the order of blocks |
| SpscSteps.ProducerSplices | lock_free/one_2_one/readerwriterqueue.h:474-497 | splicing a new block behind the tail block keeps the ring of blocks and what both threads know |
| SpscConsumer.ConsumerAdvances | lock_free/one_2_one/readerwriterqueue.h:228-258 | the consumer leaves a block only when that is empty and the next one is not |
| SpscSystem.StepRefines | lock_free/one_2_one/readerwriterqueue.h:187-278 | every step of either thread keeps the invariant, and changes the queue of elements just as its linearised operation on a plain sequence does |
| SpscSystem.AssertsNeverFail | lock_free/one_2_one/readerwriterqueue.h:253-460 | the asserts in try_dequeue, pop, peek and inner_enqueue hold in every state that satisfies the invariant |
| SpscRuns.RunExists | lock_free/one_2_one/readerwriterqueue.h:187-509 | every schedule of the two threads has a run |
| SpscRuns.RunsAreSafe | lock_free/one_2_one/readerwriterqueue.h:187-509 | in every state of every interleaving no assert fails |
| SpscRuns.Fifo | lock_free/one_2_one/readerwriterqueue.h:187-509 | in every run from a constructed queue, the elements dequeued followed by those in the queue are the elements enqueued, in order |
| SpscRuns.DequeuedIsPrefix | lock_free/one_2_one/readerwriterqueue.h:187-509 | the dequeued elements are always a prefix of the enqueued ones |
| SpscCalls.FoundEmptyWasEmpty | lock_free/one_2_one/readerwriterqueue.h:187-278 | if try_dequeue, pop or peek reports an empty queue, the queue was empty in some state during that call |
| SpscCalls.EnqueueReturns | lock_free/one_2_one/readerwriterqueue.h:414-509 | an enqueue call ends within a bounded number of its own steps, whatever the consumer does |
| SpscCalls.DequeueReturns | lock_free/one_2_one/readerwriterqueue.h:187-278 | a dequeue call ends within a bounded number of its own steps, whatever the producer does |
| SpscCapacity.SizesArePowers | lock_free/one_2_one/readerwriterqueue.h:471-474 | in every run all blocks have sizes that are powers of two |
| SpscCapacity.FullOnlyAtCapacity | lock_free/one_2_one/readerwriterqueue.h:414-500 | if try_enqueue fails before any block was allocated after construction, the queue held at least maxSize elements in a state during that call |
| SpscBlocking.BlockingKeeps | lock_free/one_2_one/readerwriterqueue.h:643-716 | every step of the blocking queue keeps its invariant: tokens of the semaphore and elements agree |
| SpscBlocking.BlockingRefines | lock_free/one_2_one/readerwriterqueue.h:643-716 | every step of the blocking queue changes the queue as a plain sequence would change |
| SpscBlocking.EmptyIsReported | lock_free/one_2_one/readerwriterqueue.h:694-703 | try_dequeue and pop of the blocking queue report an empty queue if and only if there is no token: the queue is empty, or its one element is that of an enqueue that has yet to signal |
| SpscBlocking.CountIsBounded | lock_free/one_2_one/atomicops.h:545-554 | with one waiter, the semaphore count is never below -1 |
| SpscBlocking.WaitedDequeueSucceeds | lock_free/one_2_one/readerwriterqueue.h:694-716 | after a successful wait the inner try_dequeue never fails |
| SpscBlocking.NoLostWakeUp | lock_free/one_2_one/atomicops.h:500-554 | a consumer blocked in the kernel semaphore while the count is not negative has a kernel signal posted or about to be posted |
| SpscBlocking.QuietCount | lock_free/one_2_one/atomicops.h:556-560 | when no call is under way the count is the number of elements in the queue |
| SpscBlocking.BlockingFifo | lock_free/one_2_one/readerwriterqueue.h:643-716 | the blocking queue is first in, first out in every run |
| TimerRing.AddTail | timer_wheel/itimer.h:132-134 | the four pointer assignments change the links as adding at the end of a ring does, and no other node |
| TimerRing.DelInit | timer_wheel/itimer.h:138-144 | the pointer assignments take a node out of its ring and leave it a ring of its own |
| TimerRing.SpliceInit | timer_wheel/itimer.h:168-178 | the pointer assignments move a whole ring behind a new head, and leave the old head alone |
| TimerRing.AddedTailRing | timer_wheel/itimer.h:132-134 | a circular doubly linked list stays one, with the new node last |
| TimerRing.DeletedRing | timer_wheel/itimer.h:138-144 | a circular doubly linked list stays one, without the node |
| TimerRing.SplicedRing | timer_wheel/itimer.h:168-178 | splicing gives two circular doubly linked lists: the old head alone, and the new head with all the members in order |
| TimerShape.UnlinkedValid | timer_wheel/itimer.c:125-159 | taking a timer out keeps all slots and the local list well-formed and disjoint |
| TimerShape.LinkedValid | timer_wheel/itimer.c:206-207 | linking a timer into a slot keeps all slots and the local list well-formed and disjoint |
| TimerShape.OpenedValid | timer_wheel/itimer.c:216-218 | moving a slot to a fresh local list keeps all rings well-formed and disjoint |
| TimerPlace.AddIsPlaced | timer_wheel/itimer.c:176-208 | for every expiry the slot chosen is right for the due tick, never one already passed, even if the outer wheels have been cascaded for this tick; and never the local list |
| TimerPlace.CascadedIsNear | timer_wheel/itimer.c:214-225 | when a slot of an outer wheel is opened, its timers are due within its span, and adding them again puts them into a strictly lower wheel with the same due tick |
| TimerPlace.OthersStay | timer_wheel/itimer.c:239-254 | the timers in the other slots of that wheel, and in wheels that need no cascade, are still rightly placed |
| TimerPlace.NextTick | timer_wheel/itimer.c:255-256 | the slot emptied in a tick has just the timers due in it, and all others are rightly placed for the next tick |
| TimerPlace.StopsAtGoal | timer_wheel/itimer.c:235 | the signed 32-bit comparison stops the loop after the tick asked for, across the wrap of the counter |
| TimerTiming.SlotTurned | timer_wheel/itimer.c:255-256 | of all pending timers, exactly those due in this tick go to the local list |
| TimerSet.PendingOrFired | timer_wheel/itimer.c:256-267 | after being armed and then left alone a timer is still pending for its tick or has fired once, in that tick |
| TimerCore.Core.constructor | timer_wheel/itimer.c:28-51 | all 512 slots start as empty rings and nothing is pending |
| TimerCore.Core.InternalAdd | timer_wheel/itimer.c:176-208 | the timer is linked at the end of the slot that the placement arithmetic says, and its core pointer is set |
| TimerCore.Core.NodeAdd | timer_wheel/itimer.c:125-140 | the timer becomes pending for the next tick with that expiry, or the very next tick if that is past; the heap stays well-formed and the local list is not added to |
| TimerCore.Core.NodeDel | timer_wheel/itimer.c:146-159 | returns 1 if and only if the timer was pending, and afterwards it is not |
| TimerCore.Core.NodeMod | timer_wheel/itimer.c:165-170 | the same as deleting and adding |
| TimerCore.Core.Cascade | timer_wheel/itimer.c:214-225 | empties a slot: each of its timers is in a strictly lower wheel afterwards, the others stay, and every due tick is unchanged |
| TimerCore.Core.CascadeAll | timer_wheel/itimer.c:239-254 | the nested cascades leave every timer rightly placed for the tick, in all wheels |
| TimerCore.Core.Tick | timer_wheel/itimer.c:235-268 | the history of the tick is exactly a sequence of firings, of timers due in it, each followed by what its callback does, script by script; afterwards no timer is due in the tick or before, whatever the callbacks add, delete and modify, and the structure is sound again |
| TimerCore.Core.Perform | timer_wheel/itimer.c:266 | a callback changes the simple timer set just as its commands say, one after the other |
| TimerCore.Core.Update | timer_wheel/itimer.c:231-270 | runs every tick up to the one asked for, unless that is in the past; the history is exactly the firings in these ticks, each followed by what its callback does |
| TimerCore.Core.NoneIsLate | timer_wheel/itimer.c:231-270 | between ticks no pending timer is due in a tick already run |
| TimerCore.Core.FiresInItsTick | timer_wheel/itimer.c:231-270 | a timer armed for a tick and then left alone has fired exactly once, in that tick, if the tick has been run, and is pending otherwise |
| TimerCore.FiringsLeaveAlone | timer_wheel/itimer.c:256-268 | a timer that no callback names is left alone by any firings |
| TimerClients.AddAndRun | timer_wheel/itimer.c:176-269 | a timer added, and then left to itself while the wheel is run any number of times, fires exactly once, in the next tick with its expiry, as soon as that tick has been run |
| TimerClock.CallsAreExact | timer_wheel/itimer.c:328-338 | the number of calls made is the number of whole periods passed, capped at the repeat count |
| TimerClock.WaitIsPrompt | timer_wheel/itimer.c:340-343 | rounding up to ticks and clamping at 0x70000000 never waits beyond the first tick at or after the time, in a callback as well as between ticks |
| TimerPlan.Evt.Advance | timer_wheel/itimer.c:328-338 | the loop counts every period passed and stops at the last call asked for |
| TimerPlan.CallsFollowTheClock | timer_wheel/itimer.c:301-356 | whatever has been done to the events, the record of each agrees with the clock |
| TimerManager.Manager.constructor | timer_wheel/itimer.c:281-288 | a new manager has no event started and its jiffies agree with the core |
| TimerManager.Manager.StartEvt | timer_wheel/itimer.c:388-404 | an event is started from the current time, after being stopped if it was running |
| TimerManager.Manager.StopEvt | timer_wheel/itimer.c:407-414 | an event stopped is no longer pending |
| TimerManager.Manager.Callback | timer_wheel/itimer.c:321-356 | the callback counts the periods, waits again or stops, and makes the calls; the log is exactly these calls, each followed by the orders obeyed in it, whatever these do to any event |
| TimerPlace.NextTickIsGoal | timer_wheel/itimer.c:231-235 | asked for the tick that comes next, as the manager always does, the loop of the core runs just that one |
| TimerManager.Manager.CoreRun | timer_wheel/itimer.c:313 | one tick, inside which the core is one tick ahead of the manager; the log is exactly the calls made at its time, each followed by the orders obeyed in it |
| TimerManager.Manager.Run | timer_wheel/itimer.c:301-318 | ticks are run until the time given, after a resynchronisation if that is far away; between ticks core and manager jiffies agree; the log is exactly the calls made, each followed by the orders obeyed in it |
| TimerManager.Manager.NeitherEarlyNorLate | timer_wheel/itimer.c:301-404 | an event started at c0 with period p and not stopped since has been called exactly floor((c - c0) / p) times after the tick at time c, or repeat times if that is positive and less |
| TimerManager.CallsSpare | timer_wheel/itimer.c:321-356 | an event that no callback names stays started, with its start, period and repeat count, whatever calls are made |
| TimerClients.StartAndRun | timer_wheel/itimer.c:301-404 | an event started, and then left to itself while the manager is run any number of times, is called exactly once for every whole period from its start to the last tick, or repeat times if that is positive and less |
| MultipartParser.Parser.constructor | http_chunk_data_decode/multipart_parser.c:82-99 | the parser starts in s_start with room behind the boundary for the bytes kept back |
| MultipartParser.Parser.Switch | http_chunk_data_decode/multipart_parser.c:122-308 | one round of the switch does what the machine does for that byte, whether it is looked at again or not; the bytes kept back are the CRLF and the part of the boundary seen |
| MultipartParser.Parser.Execute | http_chunk_data_decode/multipart_parser.c:113-313 | one call makes exactly the callbacks of the machine for the buffer, in order, and returns the number of bytes accepted |
| MultipartChunks.OneBufferAgrees | http_chunk_data_decode/multipart_parser.c:157-183 | for every buffer, the callbacks put together are those of reading byte by byte if and only if no bytes of a header name are swallowed; the end state and the bytes accepted are always the same |
| MultipartChunks.RunConserves | http_chunk_data_decode/multipart_parser.c:163-183 | the bytes of header names called back and those swallowed are all there are |
| MultipartChunks.AnyBuffersAgree | http_chunk_data_decode/multipart_parser.c:113-313 | whatever the cutting into buffers, a message in which no header name is cut short gives the same callbacks, put together |
| MultipartChunks.BuffersDoNotMatter | http_chunk_data_decode/multipart_parser.c:113-313 | all ways of cutting a message into buffers agree if and only if no header name in it is cut short by a CR or an illegal byte |
| MultipartChunks.SwallowedName | http_chunk_data_decode/multipart_parser.c:165-180 | a concrete message, with a header line without a colon, for which the cutting does matter |
| MultipartRoundTrip.BodyRead | http_chunk_data_decode/multipart_parser.c:230-269 | in a body without a delimiter, the data called back and the bytes kept back are together the bytes read |
| MultipartRoundTrip.RoundTrip | http_chunk_data_decode/multipart_parser.c:113-313 | every well-formed message, cut into buffers in any way, is accepted as a whole and gives exactly its header names, its values without leading spaces and its bodies |
| HttpText.ReadsBack | curl_http/happyhttp/happyhttp.cpp:641 | strtol gives the number whose decimal or hexadecimal digits it reads, up to the first other character |
| HttpText.Scan | curl_http/happyhttp/happyhttp.cpp:728-729 | the copying loop splits a text at the first stop character |
| HttpMachine.PumpUses | curl_http/happyhttp/happyhttp.cpp:567-634 | a call uses all its bytes unless the response is complete |
| HttpMachine.Segments | curl_http/happyhttp/happyhttp.cpp:567-634 | pumping two pieces one after the other gives the same state, callbacks, bytes used and exceptions as pumping them as one |
| HttpMachine.PumpBlock | curl_http/happyhttp/happyhttp.cpp:658-706 | passing on a block of body bytes is the same as passing on its bytes one by one |
| HttpMachine.UndefinedWhen | curl_http/happyhttp/happyhttp.cpp:638-706 | pumping steps back in its buffer if and only if a chunk size or a length that is negative as a 32-bit int has been read and another byte follows |
| HttpObject.Response.ProcessStatusLine | curl_http/happyhttp/happyhttp.cpp:719-766 | reads version, status and reason off the line, or throws |
| HttpObject.Response.FlushHeader | curl_http/happyhttp/happyhttp.cpp:770-796 | stores the accumulated header under its name in lower case |
| HttpObject.Response.BeginBody | curl_http/happyhttp/happyhttp.cpp:849-907 | decides from status line and headers how the body is delimited, and makes the begin callback |
| HttpObject.Response.Pump | curl_http/happyhttp/happyhttp.cpp:567-634 | the nested loops over a buffer do what the machine does byte by byte, and return the number of bytes used, unless a negative size makes them step back |
| HttpObject.Response.NotifyConnectionClosed | curl_http/happyhttp/happyhttp.cpp:547-563 | the end of the connection completes a response without a length, is ignored by a complete one, and is an exception otherwise |
| HttpExchange.ChunkedBody | curl_http/happyhttp/happyhttp.cpp:638-680 | any body in any non-empty chunks, with any extensions and trailers, is passed on as it was, and then the response is complete and has used exactly these bytes |
| HttpExchange.KnownLength | curl_http/happyhttp/happyhttp.cpp:684-706 | a positive length delivers exactly the next so many bytes |
| HttpExchange.ZeroLength | curl_http/happyhttp/happyhttp.cpp:684-706 | with length 0 the response is complete when something else arrives, of which nothing is used |
| HttpExchange.UntilClosed | curl_http/happyhttp/happyhttp.cpp:684-706 | without a length everything that arrives is body |
| HttpExchange.FieldsRead | curl_http/happyhttp/happyhttp.cpp:770-831 | a list of headers is read into a map, names in lower case, blanks before values dropped, the last of the same name winning |
| HttpExchange.HeadRead | curl_http/happyhttp/happyhttp.cpp:719-831 | status line and headers are read as they were sent |
| HttpExchange.ChunkedResponse | curl_http/happyhttp/happyhttp.cpp:567-907 | a whole response in chunks is read as it was sent: status, reason, headers and body |
| HttpExchange.LengthResponse | curl_http/happyhttp/happyhttp.cpp:567-907 | a whole response with the length of its body, or with none because of its status or of HEAD and no chunks in its headers, is read as it was sent if and only if the body is not empty; if it is empty, the end of the connection right behind it is an exception, and whatever comes next completes it without being used |
| HttpExchange.ClosedResponse | curl_http/happyhttp/happyhttp.cpp:547-563 | a whole response up to the end of the connection is read as it was sent when that comes |
| HttpExchange.ChunksAwaited | curl_http/happyhttp/happyhttp.cpp:849-907 | a response without a body whose headers say that it has chunks is not complete when all of it has arrived; the code waits for the size of a chunk, and the end of the connection is an exception |
| HttpExchange.NextHeadSwallowed | curl_http/happyhttp/happyhttp.cpp:638-655 | the head of the next response is then taken for the last chunk and its trailers: it completes that response and is lost for its own |
| HttpExchange.ReadAsSentWhen | curl_http/happyhttp/happyhttp.cpp:849-907 | over all framings, in chunks, with a length or up to the end of the connection, a response is read as it was sent if and only if it may have a body and not one of length 0; otherwise it is not complete and the end of the connection is an exception |
| HttpExchange.ReasonAccumulates | curl_http/happyhttp/happyhttp.cpp:741-809 | after a response with status 100 the next one has the reason and the headers of the first as well: it is read as it was sent if and only if the first has no reason and no header that the next does not have |
| HttpExchange.ChunkOfMinusFive | curl_http/happyhttp/happyhttp.cpp:641-666 | the chunk size -5, followed by a byte, makes the code step back in its buffer |
| HttpExchange.ChunkWraps | curl_http/happyhttp/happyhttp.cpp:641-666 | so does a chunk size without a sign if and only if it wraps to a negative int |
| HttpExchange.LengthSteppedBack | curl_http/happyhttp/happyhttp.cpp:684-693 | so does the length of a response if and only if it is less than -1 as an int |
| HttpExchange.LengthWraps | curl_http/happyhttp/happyhttp.cpp:684-693 | so does a length without a sign if and only if it wraps to an int less than -1 |
| HttpConnection.DrainUses | curl_http/happyhttp/happyhttp.cpp:463-481 | all bytes received are used unless no response is outstanding any more |
| HttpConnection.DrainSegments | curl_http/happyhttp/happyhttp.cpp:462-482 | pipelined responses are completed in the same way however the stream is cut into buffers |
| HttpConnection.SteppedBackWhen | curl_http/happyhttp/happyhttp.cpp:462-482 | draining a buffer steps back if and only if a response whose turn has come reads a negative size and another byte follows |
| HttpConnection.Connection.PumpBuffer | curl_http/happyhttp/happyhttp.cpp:462-482 | the loop over the outstanding responses terminates, and completes and uses what the queue of machines does, unless a negative size makes it step back |
| HttpConnection.Connection.EndOfConnection | curl_http/happyhttp/happyhttp.cpp:447-459 | the end of the connection completes the first response or throws, and discards the others |
| MsgpackFormat.HeadBack | msgpack_flatbuffer_compare/mp/msgpack/pack.hpp:654-838 | every head, of whatever kind and size, is read back from its bytes, whatever follows |
| MsgpackFormat.HeadIsShort | msgpack_flatbuffer_compare/mp/msgpack/pack.hpp:1031-1088 | no form in the specification of an integer, or of the size of a string, of binary data, of an extension, an array or a map, is shorter than the one written |
| MsgpackFormat.ObjectBack | msgpack_flatbuffer_compare/mp/msgpack/object.hpp:620-685 | every well-formed object tree is read back from its bytes, whatever follows |
| MsgpackFormat.UniquelyDecodable | msgpack_flatbuffer_compare/mp/msgpack/object.hpp:620-685 | equal bytes, whatever follows each, come from structurally equal objects and are followed by equal bytes |
| MsgpackPacker.Packer.PackImpUint8 | msgpack_flatbuffer_compare/mp/msgpack/pack.hpp:842-853 | writes the shortest form |
| MsgpackPacker.Packer.PackImpUint16 | msgpack_flatbuffer_compare/mp/msgpack/pack.hpp:857-873 | writes the same shortest form as the other widths |
| MsgpackPacker.Packer.PackImpUint32 | msgpack_flatbuffer_compare/mp/msgpack/pack.hpp:877-902 | writes the same shortest form as the other widths |
| MsgpackPacker.Packer.PackImpUint64 | msgpack_flatbuffer_compare/mp/msgpack/pack.hpp:906-936 | writes the same shortest form as the other widths |
| MsgpackPacker.Packer.PackImpInt8 | msgpack_flatbuffer_compare/mp/msgpack/pack.hpp:940-951 | writes the same shortest form as the other widths |
| MsgpackPacker.Packer.PackImpInt16 | msgpack_flatbuffer_compare/mp/msgpack/pack.hpp:955-984 | writes the same shortest form as the other widths, in unsigned forms if the number is not negative |
| MsgpackPacker.Packer.PackImpInt32 | msgpack_flatbuffer_compare/mp/msgpack/pack.hpp:988-1027 | writes the same shortest form as the other widths, in unsigned forms if the number is not negative |
| MsgpackPacker.Packer.PackImpInt64 | msgpack_flatbuffer_compare/mp/msgpack/pack.hpp:1031-1088 | writes the same shortest form as the other widths, in unsigned forms if the number is not negative |
| MsgpackPacker.Packer.PackStr | msgpack_flatbuffer_compare/mp/msgpack/pack.hpp:690-711 | appends the size of a string in the form for it |
| MsgpackPacker.Packer.PackExt | msgpack_flatbuffer_compare/mp/msgpack/pack.hpp:775-831 | appends size and type of an extension in the form for them |
| MsgpackPacker.Packer.Pack | msgpack_flatbuffer_compare/mp/msgpack/object.hpp:620-685 | packing an object tree appends exactly its bytes |
| Checksum.TwoFoldsSuffice | check_sum/check_sum.c:73-75 | after two folds any 32-bit sum fits 16 bits and is its one's-complement sum |
| Checksum.FoldAll | check_sum/check_sum.c:50-53 | folding until nothing is left to fold gives the same sum as folding twice |
| Checksum.Checksum16 | check_sum/check_sum.c:59-77 | returns the complement of the one's-complement sum of the words and the odd byte, added modulo 2^32 |
| Checksum.StoredChecksumIsRight | check_sum/check_sum.c:91-99 | with the checksum stored in its zeroed word, the checksum of an even buffer of any size is 0 |
| Checksum.OtherValueIsNoticed | check_sum/check_sum.c:91-99 | in a buffer of at most 65537 words any other value in that word makes the checksum something else than 0, except the other form of zero |
| Checksum.Checksum8 | check_sum/check_sum.c:27-56 | returns the 32-bit complement of the one's-complement sum of the big-endian words it takes, a last byte padded, added to the sum so far, for any number of bytes |
| Checksum.ReadsInside | check_sum/check_sum.c:29-46 | the signed 8-bit index stays inside of the buffer if and only if it has at most 128 bytes |
| Checksum.TakenIsBuffer | check_sum/check_sum.c:29-46 | the bytes taken are those of the buffer, whatever is around it, if and only if there are at most 128 |
| Checksum.Misread129 | check_sum/check_sum.c:29-46 | the last of 129 bytes is taken from 128 bytes before the buffer |
| FlatBytes.PaddingBytesIsPad | msgpack_flatbuffer_compare/fb/flatbuffers.h:512-514 | the bit trick on 64-bit words computes the least padding that makes the size a multiple of the alignment |
| FlatVector.VectorDownward.MakeSpace | msgpack_flatbuffer_compare/fb/flatbuffers.h:444-463 | the bytes stay the same, after the new room, even if they move to a new piece of memory |
| FlatVector.VectorDownward.Push | msgpack_flatbuffer_compare/fb/flatbuffers.h:479-482 | puts the bytes before the others |
| FlatObjects.Grown | msgpack_flatbuffer_compare/fb/flatbuffers.h:444-487 | bytes in front and a stricter alignment leave every object and field of the buffer as it was |
| FlatBuilder.FlatBufferBuilder.PushElement | msgpack_flatbuffer_compare/fb/flatbuffers.h:580-586 | pads to a multiple of the size and puts the element in front |
| FlatBuild.TextIsSound | msgpack_flatbuffer_compare/fb/flatbuffers.h:732-739 | after CreateString the buffer holds the string, its length and a zero byte, aligned, besides all it held |
| FlatBuilder.FlatBufferBuilder.CreateString | msgpack_flatbuffer_compare/fb/flatbuffers.h:732-739 | computes exactly that state, keeps everything made before, and returns the place of the string |
| FlatBuild.ItemsLie | msgpack_flatbuffer_compare/fb/flatbuffers.h:766-772 | the elements of a vector lie one after the other, without padding |
| FlatBuild.StartedAligned | msgpack_flatbuffer_compare/fb/flatbuffers.h:757-760 | after StartVector neither the elements nor the length will need padding |
| FlatBuild.NumbersAreSound | msgpack_flatbuffer_compare/fb/flatbuffers.h:753-772 | after CreateVector the buffer holds the vector, besides all it held |
| FlatBuilder.FlatBufferBuilder.CreateVector | msgpack_flatbuffer_compare/fb/flatbuffers.h:766-773 | pushing the elements from the last to the first computes exactly that state |
| FlatBuilder.FlatBufferBuilder.CreateVectorOfOffsets | msgpack_flatbuffer_compare/fb/flatbuffers.h:766-773 | the same for a vector of offsets to objects made before, each relative to its own place |
| FlatBuilder.FlatBufferBuilder.CreateVectorOfStructs | msgpack_flatbuffer_compare/fb/flatbuffers.h:779-785 | the same for a vector of structs |
| FlatBuilder.FlatBufferBuilder.AddElement | msgpack_flatbuffer_compare/fb/flatbuffers.h:601-606 | stores and tracks a field, unless it equals its default |
| FlatBuilder.FlatBufferBuilder.AddOffset | msgpack_flatbuffer_compare/fb/flatbuffers.h:608-611 | stores and tracks an offset to an object made before, unless it is null |
| FlatBuilder.FlatBufferBuilder.WriteSlots | msgpack_flatbuffer_compare/fb/flatbuffers.h:663-671 | the vtable says of each field where it is and 0 of the others, and no slot is written twice |
| FlatBuilder.FlatBufferBuilder.ShareVTable | msgpack_flatbuffer_compare/fb/flatbuffers.h:673-689 | uses the first vtable with the same bytes and removes the new one, or else keeps and remembers the new one |
| FlatBuilder.FlatBufferBuilder.EndTable | msgpack_flatbuffer_compare/fb/flatbuffers.h:651-699 | writing in place, and popping a vtable that is there already, computes exactly the state with the table made |
| FlatTables.TableIsSound | msgpack_flatbuffer_compare/fb/flatbuffers.h:651-699 | after EndTable the buffer holds the table with all its fields, besides all it held |
| FlatBuilder.FlatBufferBuilder.Finish | msgpack_flatbuffer_compare/fb/flatbuffers.h:830-841 | pads the whole buffer and puts the root offset, and an identifier, in front |
| FlatTables.FinishedIsSound | msgpack_flatbuffer_compare/fb/flatbuffers.h:830-841 | after Finish the size is a multiple of the largest alignment and everything made is still there |
| FlatReader.RootReads | msgpack_flatbuffer_compare/fb/flatbuffers.h:868-876 | the root of a finished buffer is the object that was finished, and the identifier is read back |
| FlatReader.TextReads | msgpack_flatbuffer_compare/fb/flatbuffers.h:380-387 | every string in the buffer is read back and is followed by a zero byte |
| FlatReader.NumbersRead | msgpack_flatbuffer_compare/fb/flatbuffers.h:264-274 | every element of every vector of numbers is read back |
| FlatReader.RefsRead | msgpack_flatbuffer_compare/fb/flatbuffers.h:176-183 | every element of every vector of offsets leads to the object that was put in |
| FlatReader.NumberReads | msgpack_flatbuffer_compare/fb/flatbuffers.h:1046-1049 | every number stored in a table is read back, whatever default the reader has |
| FlatReader.RefFieldReads | msgpack_flatbuffer_compare/fb/flatbuffers.h:1051-1057 | every offset stored in a table leads to the object that was put in |
| FlatReader.StructFieldReads | msgpack_flatbuffer_compare/fb/flatbuffers.h:1062-1066 | every struct stored in a table is read back |
| FlatReader.AbsentFieldReads | msgpack_flatbuffer_compare/fb/flatbuffers.h:1036-1049 | every field that was not stored reads as its default or as null, also beyond the end of a vtable |
| FlatReader.StructsRead | msgpack_flatbuffer_compare/fb/flatbuffers.h:779-785 | the number and the bytes of the structs of a vector are read back |
| FlatReader.AllAligned | msgpack_flatbuffer_compare/fb/flatbuffers.h:560-563 | in a finished buffer the lengths, the elements of vectors of numbers and offsets, the offset of a table to its vtable, the entries of vtables and the fields all lie at multiples of their sizes from the start |
| FlatTables.FinishedHasSize | msgpack_flatbuffer_compare/fb/flatbuffers.h:830-841 | the size that Finish makes is known before it from the size, the largest alignment and the length of the identifier |
| FlatReader.StructsAligned | msgpack_flatbuffer_compare/fb/flatbuffers.h:779-785 | the elements of a vector of structs do so if and only if the size that the buffer will have is a multiple of their alignment, which can be told before Finish |
| FlatReader.StructsMisaligned | msgpack_flatbuffer_compare/fb/flatbuffers.h:779-785 | one struct of alignment 8 in a vector, finished with an identifier, lies at no multiple of 8 |
| FlatVerifier.TableVerified | msgpack_flatbuffer_compare/fb/flatbuffers.h:962-1002 | the verifier accepts a table that the builder has made, with strings, vectors of numbers, structs, strings or tables, and tables in it, and counts its tables, if and only if depth and number of its tables are within the bounds |
| FlatVerifier.BufferVerified | msgpack_flatbuffer_compare/fb/flatbuffers.h:972-977 | a finished buffer is accepted if and only if its tables are at most 64 deep and at most a million |
| FlatMonster.CreateMonster | flatbuffers/monster_generated.h:96-111 | adds the fields that differ from their defaults and ends the table |
| FlatMonster.MonsterAccepted | flatbuffers/monster_generated.h:65-76 | every finished monster is accepted by its verifier |
| FlatMonster.MonsterBack | flatbuffers/monster_generated.h:58-64 | the accessors of the root give back the arguments of CreateMonster |
| FlatMonster.MonsterName | flatbuffers/monster_generated.h:62 | the name is the string that was created for it |
| FlatMonster.MonsterInventory | flatbuffers/monster_generated.h:63 | the inventory has the numbers that were put in |
| FlatMonster.MonsterRoundTrip | flatbuffers/monster_generated.h:58-111 | CreateMonster followed by Finish, whatever has been built before, makes a buffer that is accepted and whose accessors give back all arguments |
| JsonRoundTrip.DocumentReads | jsoncpp/jsoncpp/jsoncpp.cpp:205-211 | parsing what write has written gives the value back, up to the kind of its numbers, if and only if it is nested at most 1000 deep, and otherwise an exception |
| JsonRoundTrip.WrittenAgain | jsoncpp/jsoncpp/jsoncpp.cpp:4213-4265 | writing that value again gives the same text |
| JsonRoundTrip.ValueReads | jsoncpp/jsoncpp/jsoncpp.cpp:332-414 | the text of any value is read back from inside any text that goes on with no digit, dot or e, at any depth |
| JsonRoundTrip.QuoteReads | jsoncpp/jsoncpp/jsoncpp.cpp:4125-4186 | a quoted string is one token and decodes to the string, whatever bytes it has |
| JsonRoundTrip.NumberReads | jsoncpp/jsoncpp/jsoncpp.cpp:3973-3995 | the text of every 64-bit integer is one token and decodes to that integer |
| JsonReader.DecodeNumber | jsoncpp/jsoncpp/jsoncpp.cpp:735-775 | gives an integer if and only if the token is one and its exact value fits 64 bits, and never overflows on the way |
| JsonReader.DecodeString | jsoncpp/jsoncpp/jsoncpp.cpp:810-861 | decodes escapes and copies all other bytes, or fails |
| JsonReader.DecodeUnicodeCodePoint | jsoncpp/jsoncpp/jsoncpp.cpp:863-890 | decodes one escape, or two for a high surrogate, or fails |
| JsonRoundTrip.EscapeIsCodePoint | jsoncpp/jsoncpp/jsoncpp.cpp:863-890 | an escape of four hexadecimal digits that is no high surrogate decodes to the code point with that number |
| JsonRoundTrip.SurrogatesAreCodePoint | jsoncpp/jsoncpp/jsoncpp.cpp:870-881 | any pair of surrogates decodes to its code point |
| JsonRoundTrip.Utf8Back | jsoncpp/jsoncpp/jsoncpp.cpp:104-130 | the bytes of a code point stand for it by section 3 of RFC 3629, and are as few as possible |
| JsonReader.Reader.ReadToken | jsoncpp/jsoncpp/jsoncpp.cpp:426-495 | reads one token and stops behind it, or in front of what cannot belong to it |
| JsonReader.Reader.ReadNumber | jsoncpp/jsoncpp/jsoncpp.cpp:597-617 | stops behind the digits, the fraction and the exponent |
| JsonReader.Reader.ReadString | jsoncpp/jsoncpp/jsoncpp.cpp:619-629 | stops behind the first quote that is not escaped, or at the end |
| JsonReader.Reader.ReadValue | jsoncpp/jsoncpp/jsoncpp.cpp:332-414 | reads what its functional form reads, comes to the same place, fails or throws in the same cases, and restores the stack depth |
| JsonReader.Reader.ReadArray | jsoncpp/jsoncpp/jsoncpp.cpp:687-723 | collects the values up to the bracket, as its functional form |
| JsonReader.Reader.ReadObject | jsoncpp/jsoncpp/jsoncpp.cpp:631-685 | assigns the members up to the brace, as its functional form, also for a brace after a comma and an empty name |
| JsonReader.Reader.Parse | jsoncpp/jsoncpp/jsoncpp.cpp:290-330 | comes to what the functional parser comes to |
| JsonRoundTrip.AssignedLast | jsoncpp/jsoncpp/jsoncpp.cpp:2611-2622 | members assigned in the order of their names stay in that order |
| JsonWriter.UintToString | jsoncpp/jsoncpp/jsoncpp.cpp:149-155 | writes the decimal digits, from the last to the first |
| JsonWriter.SignedToString | jsoncpp/jsoncpp/jsoncpp.cpp:3973-3987 | writes every signed integer, the smallest one too, within the buffer |
| JsonWriter.ValueToQuotedString | jsoncpp/jsoncpp/jsoncpp.cpp:4125-4186 | quotes and escapes a string; without special characters it is copied |
| JsonWriter.FastWriter.WriteValue | jsoncpp/jsoncpp/jsoncpp.cpp:4213-4265 | appends the text of a value to the document |
| IniExact.ComesBackWhen | ini/ini-parser/ini.hpp:86-157 | of all trees, parsing what dump has printed gives a tree back if and only if nothing in it has a line break, keys and values have no blanks at their ends, keys have no equals sign and begin with no bracket, number sign or semicolon, names begin with no bracket, keys and names differ within their section, and a section without a name has no values and is not printed on the line of another one |
| IniExact.ParsedComesBackWhen | ini/ini-parser/ini.hpp:86-157 | the tree that parsing has made of any text comes back if and only if no key begins like a comment and no section without a name shares its line |
| IniExact.BracketThrows | ini/ini-parser/ini.hpp:86-110 | a section whose name begins with a bracket is dumped as one that is too deep: parsing that throws |
| IniExact.CommentIsLost | ini/ini-parser/ini.hpp:101-102 | a key that begins with a number sign can be read behind a blank, and is lost when the level is dumped and parsed again |
| IniExact.ValueIsSwallowed | ini/ini-parser/ini.hpp:143-157 | a value in a section without a name does not come back |
| IniExact.TreeIsProper | ini/ini-parser/ini.hpp:96-141 | what parsing makes of any text has keys and values without blanks at their ends, keys without equals signs, and names that begin with no bracket |
| IniExact.OpenedIsCounted | ini/ini-parser/ini.hpp:111-128 | every level stays in the tree of the top level, and once, when a section is opened |
| IniExact.TextMakes | ini/ini-parser/ini.hpp:96-141 | parsing makes at most one value or section of every line that is not empty and no comment |
| IniDump.DumpLines | ini/ini-parser/ini.hpp:143-157 | dump prints a line for every value and section, and fewer lines only if a section without a name shares its line |
| IniRoundTrip.DumpedIsParsed | ini/ini-parser/ini.hpp:143-157 | for such trees parsing what dump has printed rebuilds values and sections in their order, on sound levels |
| IniRoundTrip.SectionParsed | ini/ini-parser/ini.hpp:104-128 | wherever the lines before have gone, the lines of a section are parsed into its levels, and climbing over parents finds the place for it |
| IniRoundTrip.SectionBuilt | ini/ini-parser/ini.hpp:111-128 | the levels made for a section stand for it, and no other level but its parent changes |
| IniLevels.ParsedIsSound | ini/ini-parser/ini.hpp:96-141 | after parsing any text without an exception, the lists of every level have just the keys of its maps, sections point to their parents, and depths go up by one |
| IniLevels.Climbs | ini/ini-parser/ini.hpp:115-117 | following parent n times leads to a level that is n less deep |
| IniText.SectionLineReads | ini/ini-parser/ini.hpp:86-94 | a section line gives back depth and name if and only if the name does not start with a bracket |
| IniText.Trim | ini/ini-parser/ini.hpp:65-75 | removes blanks, and zero bytes, from both ends |
| IniParser.Parser.Climb | ini/ini-parser/ini.hpp:115-118 | following parent pointers finds the level that the section goes to |
| IniParser.Parser.AddSection | ini/ini-parser/ini.hpp:104-127 | makes the section, or throws in the same cases: a wrong depth, or a name that is there already |
| IniParser.Parser.ParseLine | ini/ini-parser/ini.hpp:101-139 | does to the levels in the heap what the functional form does, and throws in the same cases |
| IniParser.Parser.Parse | ini/ini-parser/ini.hpp:96-141 | comes to what the functional parser comes to |
| IniParser.Parser.Dump | ini/ini-parser/ini.hpp:143-157 | prints the text of the tree below a level; the assertion on depths holds |
| IniDump.NamedIsApart | ini/ini-parser/ini.hpp:143-157 | if all sections have names, nothing shares a line |

## Left out

- Queue: memory fences, cache-line padding, raw storage alignment, allocation failure, construction and destruction of elements and the re-entrance guard; loads and stores are sequentially consistent.
- Queue: `size_approx` of the inner queue.
- Timer wheel: `itimer_core_destroy`, `itimer_node_destroy` and node states other than OK.
- Timer wheel: a callback does not run the core again, and callback pointers are not null.
- Timer manager: there is one manager, so `evt->mgr` is a flag; `evt->data` and `node->data` are the map from nodes to events.
- TimerManager.Manager.Run: takes as given that `current` and `slap` do not wrap at 2^32, because the code compares them as plain unsigned numbers.
- Multipart parser: callbacks that are missing or return something else than 0; an empty boundary, with which the look-behind would run past the boundary.
- HTTP: requests, sockets, name lookup, and callbacks that use the connection; the callbacks are the log of a response.
- HTTP: the count of body bytes does not wrap at 2^31, which matters only to a length.
- HttpObject.Response.Pump: says nothing of what the callback does with a negative count and of what follows when the code steps back in its buffer; that this happens is proved, with its condition.
- MessagePack: numbers of single precision, the fixed-width forms and the raw form of version 4 of the protocol, which packing an object never uses; the unpacker.
- Checksum.Checksum8: the bytes around a buffer are a function of the distance from it, so that reading outside gives a byte; a null pointer is like an empty buffer.
- Checksum.Checksum16: takes the buffer as 16-bit words in the order of the machine; an odd last byte is added by its value, as on a little-endian machine.
- FlatBuffers: big-endian machines, `release`, custom allocators, structs built in place, sorted tables, keys, mutation, and reading of buffers that the builder did not make.
- FlatBuilder.FlatBufferBuilder.AddElement: compares the bits of a number with those of its default, which for floating point numbers is not the comparison of the code.
- FlatReader.Read: is 0 outside of the buffer, where the code would read something else; what the builder made is only read inside.
- JSON: comments, for which a slash is an error here; real numbers, of which only the text is kept, as if `decodeDouble` never failed; offsets, error messages and the skipping of tokens after an error; features that are off by default; strings of 2^31 bytes and more.
- JSON: values are returned and not stored through the stack `nodes_` of pointers to them; an object is the sequence of its members in the order of the map.
- INI: files, line numbers in messages, and the operators that look up values and sections; a level in a map is a pointer to it.
