# Verified model of xfast

xfast is a single-threaded reactor: an epoll loop, timers and TCP connections,
feeding a pool of handler threads. This project models its stateful core in
Dafny and proves what the code keeps over whole runs. `dafny verify
dfyconfig.toml` checks everything.

What the environment does is a parameter of every statement. The kernel answers
reads and writes from an arbitrary script (`Kernel`), the clock is any
non-decreasing sequence of readings (`Timers.Steady`), and a user callback is
any function within the contract named where it is used (`Framing.Callbacks`,
`Session.Reaction`, `Reconnect.Handover`, `Timers.Additions`). Thread
interleavings are runs of a state machine whose steps are the atomic actions of
each thread.

Classes carry the fields of the C++ objects and update them in place; each
method is specified by a function of the old state, and the theorems are about
those functions.

| file | contents |
|---|---|
| `Bytes.dfy` | octets, signed integers in network byte order |
| `Kernel.dfy` | scripted non-blocking sockets, the write loop `writeFd` |
| `ByteBuffer.dfy` | `xBuffer`: index arithmetic, the class, space bound, typed lists |
| `Framing.dfy` | the parse loop: conservation, chunking independence, termination, end of file |
| `EventLoop.dfy` | `register_` against the kernel's interest set |
| `Session.dfy`, `Connection.dfy` | one TCP connection as a state machine, and the class |
| `Events.dfy` | what one event does, bit by bit of its mask, and any series of events |
| `Writing.dfy`, `Reading.dfy` | the two sides of a connection over whole runs |
| `Lifecycle.dfy` | the tables of a server from accept to close |
| `Traffic.dfy`, `Server.dfy` | a whole server as a value: tables and connections, and the class |
| `Channel.dfy`, `Dispatch.dfy` | the queue to the handler threads, and a message's way through it |
| `Delivery.dfy` | a whole server: the streams of all its clients through connections and queue to the handlers |
| `Schedule.dfy` | functors handed to the loop thread |
| `Responses.dfy` | the way back: responses through the loop thread to what the kernel takes |
| `Served.dfy` | the streams of its clients over any run of a server |
| `Drives.dfy` | every run of a server is a run of `Delivery` and of `Responses` |
| `Timers.dfy`, `TimerTree.dfy`, `TimerRuns.dfy` | timer passes, removal from the search tree, the order over runs |
| `Firings.dfy`, `TimerQueue.dfy` | repeat accounting, the classes |
| `Reconnect.dfy`, `Connector.dfy` | the bounded retry machine, and the class |
| `Statuses.dfy` | connection status values |
| `Decimal.dfy` | the loops that shorten printed decimals |

## Where the code departs from its intent

The model follows the code. Each departure has a theorem saying exactly when the
intended property holds, and a concrete run or input where it does not.

* `removeEvent` stores `mask | ~m`, so a write event once armed is never disarmed
  (`EventLoop.RemoveEventClearsIff`, `Writing.NeverDisarmed`). The variant that
  clears the bits is the parameter `repaired`.
* `writeFd` forgets what it has already written when a later write fails, so those
  octets are sent again (`Writing.WriteConservationIff`, `Writing.ResendWitness`).
* `sendMsg` returns before arming the write event when the write call would block
  (`Writing.ArmedAfterFlushIff`, `Writing.StrandedWitness`).
* `triggerTimer` changes the key of an element that stays in the ordered set, so a
  later pass can stop short (`Timers.PassFiresDueIff`, `TimerRuns.HiddenTimerWitness`)
  and cancelling a timer can miss it (`TimerTree.RemovesExactlyIff`,
  `TimerRuns.CancelledTimerFires`). The variant that puts repeating timers back after
  the loop is `repaired`.
* `process` clears `extraEvents_` without the pushers' mutex
  (`Schedule.LostExactlyInWindow`, `Schedule.NothingLostIff`, `Schedule.LostWitness`).
* A decoder answering 0 keeps the parse loop turning (`Framing.ParseLoopStopsIff`,
  `Framing.ZeroWitness`).
* The decoder a server has when the user sets none takes whatever is buffered for one
  message, so that the cuts of the network show (`Framing.WholeBufferWitness`); its
  octets still arrive in order (`Delivery.OctetsReachHandlers`).
* At end of file the octets of the same `readMsg` call are not parsed, although the
  log line above the return says the last message is committed
  (`Framing.MessagesLostAtEofIff`, `Reading.EndedStreamCommittedIff`,
  `Framing.EofWitness`).
* `xChan::clear` with a push pending breaks the counter (`Channel.ClearIff`,
  `Channel.ClearWitness`).
* When the user's connected callback throws, the listener closes a descriptor that
  is still registered and still owned by a live connection; closing that connection or
  accepting the next one under the descriptor fails an assertion, and in a build
  without assertions the next one takes the place of the first (`Lifecycle.EveryRunSafeIff`, `Lifecycle.AfterThrow`,
  `Lifecycle.ThrowWitness`).
* A finish callback that keeps the socket without registering its own handler is
  called again on every write event (`Reconnect.FinishedOnceIff`,
  `Reconnect.FinishedTwice`), and one that does not take the socket leaves a closed
  descriptor registered (`Connector.Connector.ConnectOnSucc`).

## Model

| member | source | states |
|---|---|---|
| Bytes.DecodeEncode | net/include/xendian.h:19-42 | reading back any signed integer that fits its width gives that integer |
| Bytes.EncodeDecode | net/include/xendian.h:19-42 | every octet string is the encoding of exactly the integer it decodes to |
| Bytes.NetworkOrder | net/include/xendian.h:19-42 | octet i carries the i-th most significant eight bits, the order of Appendix B of RFC 791 |
| Kernel.DrainStep | net/buffer.cpp:10-32 | the room a read offers changes how the stream is cut, never the stream or how it ends |
| Kernel.WriteFd | base/file_api.cpp:34-48 | writes until all is out, none is taken or a failure; on failure the caller learns -1 and the reason only, while a prefix may already be gone |
| Kernel.WriteCallIs | base/file_api.cpp:34-48 | for every script of answers: what the call returns, the reason it reports and the answers it uses, decided by the first answer that completes the count, takes nothing or fails |
| ByteBuffer.Buffer.constructor | net/include/buffer.h:93-101 | an empty window behind the reserved four octets |
| ByteBuffer.Buffer.Copy | net/include/buffer.h:103-104 | a copy has its own storage, the same indices and the same content |
| ByteBuffer.Buffer.Swap | net/include/buffer.h:106-110 | the two buffers exchange storage, indices and contents |
| ByteBuffer.Buffer.MoveOver | net/include/buffer.h:134-145 | drops exactly the first len octets; emptying the window resets the indices |
| ByteBuffer.Buffer.Reset | net/include/buffer.h:174-178 | empties the window and restores the reserved front |
| ByteBuffer.Buffer.ReadStr | net/include/buffer.h:185-191 | result followed by the new content is the old content |
| ByteBuffer.Buffer.ReadAll | net/include/buffer.h:180-183 | hands out the whole content and leaves none |
| ByteBuffer.Buffer.MakeSpace | net/include/buffer.h:377-395 | growth and compaction keep the content; the assertion in the compacting branch follows from the two conditions of the call |
| ByteBuffer.Buffer.Grow | net/include/buffer.h:379-382 | a larger block with the same indices and content |
| ByteBuffer.Buffer.Compact | net/include/buffer.h:383-394 | the forward copy moves the window to the reserved front unchanged, although source and target may overlap |
| ByteBuffer.Buffer.EnsureWritableBytes | net/include/buffer.h:215-222 | content unchanged, room for len octets afterwards |
| ByteBuffer.Buffer.Place | net/include/buffer.h:224-238 | octets written behind the window join it, nothing in it changes |
| ByteBuffer.Buffer.Append | net/include/buffer.h:203-208 | content becomes content followed by data, whether or not the block grew or was compacted |
| ByteBuffer.Buffer.Unwrite | net/include/buffer.h:240-244 | drops exactly the last len octets |
| ByteBuffer.Buffer.Prepend | net/include/buffer.h:351-357 | content becomes data followed by content, even below the reserved four octets |
| ByteBuffer.Buffer.AppendInt | net/include/buffer.h:246-267 | appends the big-endian octets of the integer |
| ByteBuffer.Buffer.PrependInt | net/include/buffer.h:328-349 | puts the big-endian octets of the integer in front |
| ByteBuffer.Buffer.PeekInt | net/include/buffer.h:297-326 | yields the one integer whose encoding the content begins with |
| ByteBuffer.Buffer.ReadInt | net/include/buffer.h:269-295 | yields that integer and removes exactly its octets |
| ByteBuffer.Buffer.Absorb | net/buffer.cpp:23-29 | tail plus spill block land in the content in order |
| ByteBuffer.Buffer.FillFromFd | net/buffer.cpp:10-32 | content grows by exactly what the kernel delivered; end of file and errors leave buffer and indices alone |
| ByteBuffer.SpaceBound | net/include/buffer.h:215-222 | over every run without swap the block never shrinks and never exceeds the larger of its first size, 2P + 2 and P + 4, P being the most ever readable |
| ByteBuffer.SpaceBoundIsTight | net/include/buffer.h:377-395 | for every P above 2 a run reaches 2P + 2 |
| ByteBuffer.PairSpaceBound | net/include/buffer.h:106-110 | the same bound for two buffers over every run with swaps between them |
| ByteBuffer.Perform | net/include/buffer.h:134-244 | each operation on the class does to the content what it does to a plain byte sequence |
| ByteBuffer.PerformAll | net/include/buffer.h:88-400 | any run of operations within their assertions: the content is that of a plain byte sequence, and the block stays within the bound |
| ByteBuffer.TypedRoundTrip | net/include/buffer.h:246-326 | any list of integers appended is read back as the same list by matching reads, and what followed it is left |
| ByteBuffer.AppendAll | net/include/buffer.h:246-267 | a run of typed appends adds the serialization of the list |
| ByteBuffer.ReadEach | net/include/buffer.h:269-326 | a run of typed reads yields what `ReadBack` says and leaves its rest, stopping where the content is too short |
| ByteBuffer.StoreAndLoad | net/include/buffer.h:246-326 | on the real buffer: a list appended to an empty buffer is read back as the same list and the buffer is empty again |
| ByteBuffer.PrependReadBack | net/include/buffer.h:328-357 | after a prepend the next read can only yield what was prepended |
| Framing.ParseConserves | net/connection.cpp:137-164 | committed messages followed by the remainder are the parsed octets, no message is empty, for decoders whose lengths may exceed the buffer |
| Framing.ParseIffExplained | net/connection.cpp:137-174 | a parse is the one outcome the answers explain: each message as long as its call said, behind the others; a rest is kept exactly when one more call says "not enough", and thrown away when it reports an error, throws, or the last commit threw |
| Framing.ParseIsTurns | net/connection.cpp:141-173 | what a parse yields is what the loop, turn by turn, has committed and kept when it stops |
| Framing.ReadConservation | net/connection.cpp:54-83 | over any run of read events committed messages followed by the buffer are all octets received |
| Framing.ParseExtends | net/connection.cpp:137-164 | parsing a prefix first and the remainder with later octets commits what one parse does |
| Framing.ChunkingIndependence | net/connection.cpp:54-83 | every split of a stream into read events commits the messages of one parse of the whole and leaves its remainder |
| Framing.ChunkingIndependenceIff | net/connection.cpp:137-164 | for a decoder that measures, chunking is invisible if and only if its answers do not change when octets are appended |
| Framing.WholeBufferWitness | net/xserver.cpp:61-67 | the default decoder measures and is not stable: two octets are one message when they arrive together and two when they do not |
| Framing.ParseSettles | net/connection.cpp:141-153 | parsing again without new octets commits nothing |
| Framing.ParseLoopStopsIff | net/connection.cpp:141-173 | for decoders that may keep state and throw, and commits that may throw: the parse loop stops if and only if it never comes to octets that every further call measures as zero long |
| Framing.StatelessStuckIff | net/connection.cpp:141-164 | for a decoder that looks at the octets alone that is: its lengths never lead to octets it measures as zero |
| Framing.ZeroWitness | net/connection.cpp:141-164 | a decoder answering zero: after any number of turns the loop still runs, with one empty message per turn |
| Framing.MessagesLostAtEofIff | net/connection.cpp:67-80 | at end of file one readMsg call commits nothing and keeps all octets; messages are lost if and only if the decoder, asked once about the buffered octets, measures one |
| Framing.EofWitness | net/connection.cpp:67-70 | the same octet is committed when the close arrives after it and lost when it arrives with it |
| EventLoop.AgreementStep | base/xloop.cpp:56-132 | a call keeps `register_` and the kernel set in agreement and passes the rc == 0 assertion if and only if it registers an open descriptor, or closes one that is not registered |
| EventLoop.AgreementRun | base/epoller.cpp:38-104 | over every run of such calls the assertion never fails and both sides hold the same descriptors with the read and write bits of the stored mask |
| EventLoop.WatchedInEveryState | base/epoller.cpp:54-104 | in every state of every run of careful calls: the kernel has exactly the registered descriptors, watches them for reading exactly when bit 0 of the stored mask is set and for writing exactly when bit 1 is, and for nothing else |
| EventLoop.RemoveEventClearsIff | base/xloop.cpp:113-132 | as written, the events named stop being watched if and only if none was watched before; the entry is never dropped and every other bit is set |
| EventLoop.RepairedRemoveEventClears | base/xloop.cpp:113-132 | repaired variant: exactly the named bits go, and the entry goes when nothing is left |
| EventLoop.OneEntry | base/xloop.cpp:81-132 | removing, arming and disarming change at most the mask of their own entry; what becomes of it |
| EventLoop.RegEntry | base/xloop.cpp:56-80 | registering stores mask, data and handler as given, makes the kernel watch what the mask names, and touches no other descriptor |
| EventLoop.Poller.Ctrl | base/epoller.cpp:38-52 | the kernel set after a call whose assertion holds |
| EventLoop.Loop.constructor | base/include/xloop.h:46-51 | a new loop watches its wake-up descriptor and agrees with the kernel |
| EventLoop.Loop.Reg | base/xloop.cpp:56-80 | registers or replaces an entry and keeps agreement |
| EventLoop.Loop.Remove | base/xloop.cpp:81-94 | drops an entry from both sides, or does nothing without one |
| EventLoop.Loop.AddEvent | base/xloop.cpp:96-112 | adds bits unless one of them is already there |
| EventLoop.Loop.RemoveEvent | base/xloop.cpp:113-132 | the code as written; its branch that removes the entry cannot be reached |
| Session.EventOutcome | net/connection.cpp:110-133 | an event leaves a connected connection connected and registered, or closes it with exactly one notice, whatever the sent-bytes callback does, sends and closes on the same connection included |
| Session.EventIsARun | net/connection.cpp:110-133 | handling an event is one of eight short runs of read, flush and close, so run theorems cover events |
| Session.FlushKeeps | net/connection.cpp:12-52 | a flush, with all nested sends and closes of its callback, keeps whatever the five primitive effects of the write side keep |
| Session.RunKeeps | net/connection.cpp:7-133 | and so does every run of appends, flushes, reads and closes |
| Writing.WriteConservationIff | net/connection.cpp:7-52 | over every run, octets accepted by the kernel followed by the write buffer are all octets appended, those sent from inside the callback included, in order, if and only if no write call failed part way |
| Writing.AppendedByCaller | net/connection.cpp:7-10 | with callbacks that send nothing, what was appended is what the caller appended |
| Writing.ResendWitness | base/file_api.cpp:34-48 | a run that appends 1 2 3 and makes the kernel accept 1 2 1 2 3 |
| Writing.InterestRun | net/connection.cpp:40-47 | in every reachable state of a connected connection `writeEnabled_` implies the stored mask includes WRITABLE; with the repaired removeEvent the two are equivalent; nested sends included |
| Writing.NeverDisarmed | net/connection.cpp:44-47 | as written, an armed write event stays armed for as long as the connection is registered |
| Writing.ArmedAfterFlushIff | net/connection.cpp:18-43 | a flush that leaves octets on a connected connection leaves the write event armed if and only if it was armed before or the write call did not fail |
| Writing.StrandedWitness | net/connection.cpp:21-24 | a first write that would block leaves its octets with no event to wake them |
| Writing.WriteCallIff | base/file_api.cpp:34-48 | with a willing kernel one write call succeeds, with everything, if and only if the kernel takes that much before it asks to wait |
| Writing.ToldOverRuns | net/connection.cpp:20-38 | in every run the sizes told to the sent-bytes callback never add up to more than the kernel took, and to exactly that if and only if no write call failed part way |
| Events.ErrorCloses | net/connection.cpp:112-115 | any mask with ERROR or HUP closes a live connection with one notice, and nothing is read or written |
| Events.ReadableReads | net/connection.cpp:117-123 | any mask with READABLE, whatever its other bits and the callback: while the stream goes on everything that arrived is taken, and one parse of the buffer with it decides what is committed and kept |
| Events.EndCloses | net/connection.cpp:67-70 | when the read part meets the end of the stream or a failure, what came with it is kept unparsed, the connection closes with one notice, and nothing is written |
| Events.OthersDoNotRead | net/connection.cpp:110-133 | without READABLE nothing is read or committed |
| Events.FlushWrites | net/connection.cpp:12-52 | a flush makes one call of writeFd for the whole buffer: its result, what is left, what the callback is told, and whether the interest in writing stays |
| Events.WritableWrites | net/connection.cpp:125-132 | any mask with WRITABLE, whatever its other bits: that one call is made on the buffer after the read part; a call that would block leaves the connection as it is, another failure closes it with one notice |
| Events.WritableIdles | net/connection.cpp:44-47 | writable with nothing to write changes at most the interest in writing |
| Events.OthersDoNotWrite | net/connection.cpp:110-133 | without WRITABLE nothing is written, and the connection lives unless an error or the end of the stream closes it |
| Events.EventIsLawful | net/connection.cpp:110-133 | all of this for every mask at once |
| Events.ResponseIsAnswered | net/connection.cpp:7-10 | a message sent to a live connection goes behind what is waiting, whole, and one write call is made; a failed call does not close it |
| Events.InterestAfterFlush | net/connection.cpp:40-47 | bit by bit what a flush does to the stored mask: armed when octets are left, every bit set when none is left of an armed one, else untouched |
| Events.CallbackSends | net/connection.cpp:30-38 | what the sent-bytes callback sends is appended in order until it closes the connection, and nothing after |
| Events.ArmedDelivers | net/connection.cpp:110-133 | with a kernel that at some time takes the whole buffer without asking to wait, any series of events with enough writable ones among them empties it if the connection lives, or if no event was an error or the end; each octet is delivered once exactly when the kernel took nothing before |
| Reading.StreamCommitted | net/connection.cpp:54-83 | any series of events with enough readable ones among them, whatever the masks, callbacks, cuts and pauses: a connection that lives through it has committed the messages of the stream and keeps its incomplete end |
| Reading.LivesThrough | net/connection.cpp:110-133 | without an error, a hang-up or a writable event it does live through it |
| Reading.EventKeepsStep | net/connection.cpp:110-133 | after any event with any mask the connection has committed what its stream so far makes up, or is closed having committed a prefix of it |
| Reading.EventConserves | net/connection.cpp:110-133 | with any decoder that never clears the buffer, what is committed, buffered and still to arrive remains the stream after any event; once closed, what was committed begins it |
| Reading.EndedStream | net/connection.cpp:54-83 | a stream that ends, under any series of events: once it came to the end, what came before the last pause is committed, what came after stays in the buffer, and the connection is closed with one notice; enough readable events close it in any case |
| Reading.EndedStreamCommittedIff | net/connection.cpp:67-80 | a connection that came to the end of its stream has committed all messages in it if and only if the octets left after the last pause are none or the decoder calls them not enough |
| Connection.Connection.constructor | net/include/connection.h:43-49 | a connecting connection with empty buffers and nothing reported |
| Connection.Connection.MakeConnected | net/include/connection.h:67-74 | connected and registered for reading with its own handler |
| Connection.Connection.CloseConn | net/connection.cpp:87-107 | the first close deregisters and notifies once; later ones change nothing |
| Connection.Connection.SendMsg | net/connection.cpp:12-52 | result and new state of a flush, for every kernel answer and everything the callback may do on the connection |
| Connection.Connection.Write | net/connection.cpp:19-29 | one call of writeFd, with the buffer shortened only when it succeeds |
| Connection.Connection.Perform | net/connection.cpp:30-37 | the callback's sends and closes on its own connection, in order, sends entering the flush again |
| Connection.Connection.React | net/connection.cpp:30-37 | the sent-bytes callback is told the count and may send on the connection, close it, return or throw |
| Connection.Connection.Settle | net/connection.cpp:40-47 | the write event is armed or disarmed as the code does |
| Connection.Connection.KernelWatches | net/connection.cpp:40-43 | under the interest invariant an enabled write event of a connected connection is in the kernel's interest set |
| Connection.Connection.SendMsgToBuffer | net/connection.cpp:7-10 | an append followed by a flush |
| Connection.Connection.Send | net/include/connection.h:76-86 | dropped unless connected, else appended whole and flushed |
| Connection.Connection.ParseProtocol | net/connection.cpp:137-174 | commits exactly the messages of `Framing.Parse` and keeps its remainder; terminates for positive lengths |
| Connection.Connection.Receive | net/connection.cpp:54-75 | receives everything up to the first answer that is not data |
| Connection.Connection.ReadMsg | net/connection.cpp:54-83 | result and new state of a read event |
| Connection.Connection.HandleRead | net/connection.cpp:117-123 | the read part, closing on failure |
| Connection.Connection.HandleWrite | net/connection.cpp:125-132 | the write part, closing on failure |
| Connection.Connection.HandleEvent | net/connection.cpp:110-133 | result of an event for every mask; no other descriptor is touched |
| Lifecycle.EveryRun | net/xserver.cpp:45-115 | over every run without a throwing connected callback: in `connections_` under its own descriptor iff connected iff registered with its handler; the close callback ran exactly once per closed connection and never for another; no assertion fails |
| Lifecycle.OpenAreOwned | net/include/connection.h:50-53 | in every state of every such run the open descriptors are those the server started with and those a connection still owns |
| Lifecycle.EveryRunSafeIff | net/listener.cpp:32-54 | a run of a server goes only through states from which nothing further can fail an assertion or break those agreements, if and only if no connected callback throws in it |
| Lifecycle.AcceptSafeIff | net/listener.cpp:37-45 | the same for one accept in any state of the invariant |
| Lifecycle.AfterThrow | net/listener.cpp:42-44 | after a throwing callback the kernel can hand out the same descriptor, which fails the assertion in ctrl, or without assertions leaves the tables unsound |
| Lifecycle.ThrowWitness | net/xserver.cpp:101-115 | a run: the first accept throws, the second gets its descriptor; without assertions closing the first erases the second, which then has no entry to erase |
| Lifecycle.InvStepIff | net/listener.cpp:32-54 | a step keeps the invariant if and only if it is not an accept whose connected callback throws |
| Lifecycle.InvRun | net/xserver.cpp:45-115 | the invariant, with descriptors owned once and watched only by their owner, holds after every run |
| Lifecycle.AcceptNeverOverwrites | net/xserver.cpp:55-57 | inserting never replaces the entry of a live connection |
| Lifecycle.CloseStep | net/xserver.cpp:101-115 | a connected connection is listed when it closes, so exactly one entry is erased |
| Lifecycle.ReleaseStep | net/include/connection.h:50-53 | when the last reference goes the descriptor is no longer registered |
| Traffic.SaneStep | net/xserver.cpp:45-135 | every accept, event, response, close and release keeps tables, connections and write and read interest in order and speaks of one connection only |
| Traffic.AppendedAreResponses | net/xserver.cpp:126-135 | over any run: what is appended to a live connection is the messages of the responses for its descriptor, in order and whole; all of them if it lives through the run, the first of them if it closes |
| Served.StreamServed | net/connection.cpp:54-83 | over any run with enough readable events for its descriptor, a connection that lives through it has committed the messages of its whole stream |
| Served.SinceAccept | net/xserver.cpp:45-59 | both from the accept on, whatever the server did before and whatever happens to other connections |
| Drives.InputIsARun | net/xserver.cpp:45-135 | each of these is a run of `Delivery` with the same live connections and the same messages under every descriptor |
| Drives.ServerDelivers | net/xserver.cpp:77-85 | so is every run of a server, with any number of handlers active at each message: what its connections committed under a descriptor is what messageComing was called with for it, in order |
| Drives.ServerResponds | net/xserver.cpp:118-135 | every run with silent callbacks is a run of `Responses`: what was appended to a live connection is the responses that ran for it, and kernel and buffer hold exactly that if and only if no write call failed part way |
| Server.Server.constructor | net/xserver.cpp:5-8 | a server without connections satisfies the invariant |
| Server.Server.Create | net/xserver.cpp:47-54 | a connection object of its own for the descriptor |
| Server.Server.Enter | net/xserver.cpp:47-57 | the new connection is in all three tables under its own descriptor and no other entry changed |
| Server.Server.AcceptTabled | net/xserver.cpp:45-59 | the accept step on the tables; their invariant survives if and only if the connected callback does not throw |
| Server.Server.AcceptNewConnection | net/xserver.cpp:45-59 | all of that with a connection made of new objects, in its opening state, while no other connection changes; the server stays in order if and only if the connected callback does not throw |
| Server.Server.DoCloseConnection | net/xserver.cpp:101-115 | one entry erased, the user told once, status disconnected |
| Server.Server.CloseTabled | net/connection.cpp:87-107 | the close step on the tables, for a connection in any state |
| Server.Server.CloseConn | net/connection.cpp:87-107 | the close step; every connection stays in order and no other one changes |
| Server.Server.EventTabled | net/connection.cpp:110-133 | an event either changes nothing in the tables or is a close step |
| Server.Server.HandleEvent | net/connection.cpp:110-133 | the same for any connection of a server in order, which stays in order; the server as a value takes the step of `Traffic`, and no other connection changes |
| Server.Server.RespondTabled | net/xserver.cpp:126-135 | a response changes nothing in the tables or is a close step |
| Server.Server.DoSendResponse | net/xserver.cpp:126-135 | the whole response goes to the connection now under the uid and no other connection changes, or it is dropped and nothing does |
| Server.Server.ReleaseTabled | net/include/connection.h:50-53 | closing the descriptor of an unlisted connection keeps the invariant of the tables |
| Server.Server.Release | net/include/connection.h:50-53 | the same for a server in order, which stays in order |
| Server.Server.EveryLiveIsAttended | base/epoller.cpp:54-86 | in every server in order the kernel watches each live connection for reading, and for writing while the connection says so |
| Server.Server.Fire | base/xloop.cpp:30-42 | an event on a descriptor: by the bits of its mask, what becomes of the octets, messages and status of the connection listed there, and whether it stays listed |
| Server.Server.Respond | net/xserver.cpp:126-135 | a response: the connection listed under the descriptor is appended the whole message and one write call is made |
| Server.Server.Shut | net/connection.cpp:87-107 | a close: the connection is unlisted, reported once and marked disconnected |
| Server.Server.Handle | net/xserver.cpp:45-135 | one accept, event, response, close or release is the step `Traffic` says, and one step of `Lifecycle` or none |
| Server.Server.Serve | net/xserver.cpp:45-135 | any list of them is a run of `Lifecycle` and, unless a connected callback throws, of `Traffic`; the server is then in order, every live connection is watched, and each that lived through it was appended exactly the responses for its descriptor |
| Channel.CounterOverRuns | base/include/channel.h:58-98 | in every state of every interleaving the counter is the queue length plus pending pushers, less the one popper between decrement and removal |
| Channel.AssertionHolds | base/include/channel.h:87-94 | the assertion before the decrement never fails and the element to remove exists |
| Channel.EmptyWhenGivingUp | base/include/channel.h:75-89 | a pop that returns false does so at a moment when the queue is empty |
| Channel.FirstInFirstOut | base/include/channel.h:58-98 | with push_back alone the i-th removal, by whichever thread, yields the i-th value in lock order, and the queue is the rest |
| Channel.NothingLost | base/include/channel.h:58-98 | with push_front as well nothing is lost, duplicated or made up |
| Channel.ClearIff | base/include/channel.h:110-115 | after clear the counter matches if and only if no push was pending |
| Channel.ClearWitness | base/include/channel.h:110-115 | a run in which a popper reaches the assertion with the counter at zero |
| Channel.Chan.constructor | base/include/channel.h:23 | an empty queue, counter zero |
| Channel.Chan.PushCount | base/include/channel.h:60 | the counter is raised before the lock |
| Channel.Chan.PushLocked | base/include/channel.h:61-64 | the value joins the queue under the lock |
| Channel.Chan.PopLock | base/include/channel.h:76 | a popper takes the lock |
| Channel.Chan.PopTestSize | base/include/channel.h:77-85 | a zero counter makes the pop wait or return |
| Channel.Chan.PopWake | base/include/channel.h:81-84 | waking, for whatever reason, retakes the lock |
| Channel.Chan.PopTestEmpty | base/include/channel.h:87-89 | an empty queue ends the pop |
| Channel.Chan.PopDecrement | base/include/channel.h:91-92 | the assertion holds and the counter drops |
| Channel.Chan.PopRemove | base/include/channel.h:93-96 | the front value leaves the queue, to this thread |
| Channel.Chan.PushBack | base/include/channel.h:58-64 | undisturbed, a push appends the value and raises the counter by one |
| Channel.Chan.PushFront | base/include/channel.h:66-72 | undisturbed, push_front puts the value where the next pop takes it |
| Channel.Chan.PopAwait | base/include/channel.h:76-85 | the size test gives up exactly when the counter is zero and the caller does not wait |
| Channel.Chan.PopTake | base/include/channel.h:87-96 | takes the front element exactly when there is one |
| Channel.Chan.PopFront | base/include/channel.h:74-98 | undisturbed, a pop yields the front element exactly when there is one, also while a push is pending, and lowers the counter with it |
| Connection.CommitBuffer | net/connection.cpp:157-159 | the commit buffer holds the message, the read buffer the rest, and the reserved octets are free |
| Dispatch.MessageComing | net/xserver.cpp:77-85 | what is queued is the descriptor's four octets and the message; without an active handler nothing is |
| Dispatch.TakeUid | net/handler.cpp:18-21 | uid and payload are what the tag and the rest of the value say |
| Dispatch.UntagTag | net/handler.cpp:20-21 | taking the uid off undoes putting it on |
| Dispatch.EndToEnd | net/xserver.cpp:77-85 | in every run the i-th value taken by any handler carries descriptor and octets of the i-th committed message; the rest are in the queue, one at most on its way in |
| Dispatch.DroppedExactlyIdle | net/xserver.cpp:77-85 | in every run a message is queued exactly when a handler was active as it came, and dropped exactly when none was |
| Delivery.DispatchedIsPrefix | net/handler.cpp:16-21 | what the handlers have been called with is a prefix of what was queued |
| Delivery.JoinedStep | net/connection.cpp:157-160 | every step of the server keeps: what was handed to messageComing and what is about to be is what the connections under each descriptor committed |
| Delivery.EveryState | net/xserver.cpp:77-85 | that, the account of the queue, and the progress of every connection along its stream hold in every state of every run |
| Delivery.StreamsReachHandlers | net/connection.cpp:54-83 | from all clients' streams to `dispatch`, in every state of every run and for every descriptor, reuse included: the calls made under it carry messages of its streams, each at most once, in order, octet for octet; a prefix of them unless no handler was active at some commit; all of them once stream and queue are used up |
| Delivery.OctetsReachHandlers | net/xserver.cpp:61-85 | for every decoder that never clears the buffer, the default one included: the octets dispatched under a descriptor, joined, begin what its clients sent, unless a message was committed while no handler was active |
| Delivery.ServedInFull | net/handler.cpp:16-21 | with a handler always active the handlers get the first of the messages due under a descriptor, in order, and all of them once the stream has arrived and the queue is empty |
| Schedule.RunInOrderAtMostOnce | base/xloop.cpp:44-48 | functors from other threads run at most once and in schedule order |
| Schedule.LostExactlyInWindow | base/xloop.cpp:44-48 | between two passes the functors lost are exactly those pushed between the end of a walk and its clear |
| Schedule.NothingLostIff | base/xloop.cpp:134-142 | a run loses nothing if and only if no push landed in such a window |
| Schedule.LostWitness | base/xloop.cpp:44-48 | a run whose only functor is cleared without having run |
| Schedule.Scheduler.Walk | base/xloop.cpp:44-47 | the walk with pushes landing anywhere is a run of the interleaving machine and runs the old list and every push it saw |
| Schedule.Scheduler.Process | base/xloop.cpp:44-48 | one pass is a run of the interleaving machine; it runs the old list and every push the walk saw, and drops the late ones |
| Responses.ResponsesReachKernel | net/xserver.cpp:118-135 | in every state of every run: the octets appended to the connection under a descriptor are the responses for it that ran since it was accepted, once each, in schedule order; kernel and buffer hold exactly those if and only if no write call failed part way |
| Responses.InvStep | base/xloop.cpp:134-142 | scheduling, running, accepting, events and closes keep that account for every connection |
| Timers.PassFires | base/xtimer_queue.cpp:24-43 | a pass fires the run of due timers at the front, once each, in order, whatever later timers the callbacks add |
| Timers.PassFiresDueIff | base/xtimer_queue.cpp:24-43 | a pass fires exactly the timers due at the frozen now if and only if no due timer stands behind one that is not due; ordered queues satisfy that |
| Timers.PassLeaves | base/xtimer_queue.cpp:33-41 | the queue after a pass: survivors with their next expiration in place, then the timers not reached |
| TimerRuns.OrderedInEveryState | base/xtimer_queue.cpp:7-43 | with one-shot timers, or any timers in the repaired variant, the queue is ordered in every reachable state |
| TimerRuns.OrderStep | base/include/xtimer.h:43-52 | adding, removing and passing keep that order |
| TimerRuns.HiddenTimerWitness | base/xtimer_queue.cpp:33-37 | as written, a repeating timer moved in place hides a due timer from the next pass |
| Timers.InsertKeepsOrder | base/xtimer_queue.cpp:11 | any place the tree search can end at keeps an ordered queue ordered |
| TimerTree.RemovesExactlyIff | base/xtimer_queue.cpp:16-22 | removing the i-th timer by key takes out exactly it, in every search tree over the queue, if and only if no timer stands on the wrong side of it |
| TimerTree.ErasesExactlyIff | base/xtimer_queue.cpp:16-22 | in a given tree the removal of the i-th timer is exact if and only if the elements above it and those on the inner edges of its subtrees stand on their right side of it |
| TimerTree.OrderedErasesExactly | base/xtimer_queue.cpp:16-22 | so it does in every tree over an ordered queue |
| TimerRuns.CancelledTimerFires | base/xtimer_queue.cpp:16-43 | in the state that witness run leaves, cancelling the due timer removes nothing and it fires later |
| Timers.FireShrinks | base/xtimer_queue.cpp:27-42 | a pass ends whatever finite lists of timers the callbacks add, due ones included |
| Timers.Timer.NextRepeat | base/include/xtimer.h:64-74 | one repetition fewer unless forever; due one interval later, or one interval after the second clock reading when that is before the first |
| Firings.FiredAtMostRepeat | base/include/xtimer.h:64-78 | over any run a timer made with repeat n > 0 fires at most n times, repeat plus firings is n while queued, and a forever timer stays forever |
| Firings.BookBalances | base/include/xtimer.h:64-68 | every step keeps the account, so the assertion in nextRepeat never fails |
| Firings.ErasedOnLastFiringIff | base/xtimer_queue.cpp:35-41 | a firing erases its timer if and only if it was the last of the n it was made for |
| Firings.NoDriftIff | base/include/xtimer.h:70-73 | over any run of additions, removals and firings: after n firings a timer due at e with interval v is due at e + n * v exactly when each firing read the clock no later than one interval after it was due, and later otherwise |
| Firings.DueOnScheduleIff | base/include/xtimer.h:59-73 | so from its addition on, for as long as it is queued |
| Firings.PassIsEntries | base/xtimer_queue.cpp:24-43 | every pass is a run of such steps with the same queue and the same firings, timed with readings of its clock |
| Firings.EraseKeyIsEntries | base/xtimer_queue.cpp:16-22 | whatever a removal by key takes out is a run of single removals, so the accounting covers it |
| TimerQueue.TimerNode.NextRepeat | base/include/xtimer.h:64-74 | in place, with the readings of the clock it takes |
| TimerQueue.TimerQueue.AddTimer | base/xtimer_queue.cpp:7-14 | the node enters at a place its key fits |
| TimerQueue.TimerQueue.RemoveTime | base/xtimer_queue.cpp:16-22 | what the set finds under the key goes, for any shape of its tree and any order of the queue; exactly the timer when none stands on its wrong side |
| TimerQueue.TimerQueue.RunCallback | base/xtimer_queue.cpp:33 | timers added by the callback leave the iterator on its element |
| TimerQueue.TimerQueue.FireOne | base/xtimer_queue.cpp:33-41 | one turn of the loop on the real nodes |
| TimerQueue.TimerQueue.TriggerTimer | base/xtimer_queue.cpp:24-43 | the loop computes `Timers.Pass` and terminates, whatever timers the callbacks add |
| Reconnect.AtMostSevenAttempts | net/connector.cpp:51-63 | one doConnect makes at most 1 + 3000/500 = 7 attempts, whatever the callback does |
| Reconnect.SevenAttempts | net/connector.cpp:90-94 | seven are made when every attempt fails, and the last error is -7 |
| Reconnect.FinishedOnceIff | net/connector.cpp:34-76 | over every run the finish callback is called at most once if and only if it does not leave the connector's handler registered |
| Reconnect.FinishedTwice | net/connector.cpp:65-76 | a run in which it is called twice |
| Reconnect.FinishedExactlyOnce | net/connector.cpp:17-94 | when every attempt resolves, all is over within fourteen steps with exactly one call |
| Reconnect.Step | net/connector.cpp:17-94 | every step keeps attempts and retry account in step, and a step that changes anything lowers a bounded budget unless the callback left the handler registered |
| Reconnect.EventDecides | net/connector.cpp:34-63 | what an event does to a running attempt, by mask and socket error: success is reported for WRITABLE without ERROR, HUP or socket error; any of these leads to a retry before 3000 ms were waited and to -7 afterwards; other events change nothing |
| Reconnect.AttemptDecides | net/connector.cpp:17-32 | starting and the retry timer count an attempt; without a descriptor all is over and its own errno is reported |
| Reconnect.ReportsAre | net/connector.cpp:17-94 | over every run and for every callback: the codes reported, in order, read off masks and errors alone; -7 exactly for the seventh refusal |
| Reconnect.ConnectedIff | net/connector.cpp:65-76 | success is reported in a run if and only if some attempt became writable without any error |
| Connector.Connector.BeforeConnect | net/connector.cpp:17-32 | an attempt is registered for writing, or the callback is told why there is none |
| Connector.Connector.OnReConnect | net/connector.cpp:90-94 | the retry timer adds 500 ms to the account and tries again |
| Connector.Connector.ConnectOnError | net/connector.cpp:51-63 | removing before closing keeps loop and kernel in agreement |
| Connector.Connector.ConnectOnSucc | net/connector.cpp:65-76 | loop and kernel stay in agreement if and only if the callback takes the socket |
| Connector.Connector.OnEventHandle | net/connector.cpp:34-49 | for every mask and socket error, whether the attempt is refused, established or goes on, and what is reported and registered then; loop and kernel stay in agreement if and only if it is not a success whose socket the callback drops |
| Decimal.Strip | base/util.cpp:169-192 | the loop, with its early exits, computes `Decimal.Trim` on every string |
| Decimal.TrimIsShortest | base/util.cpp:161-193 | on what snprintf prints, the result is sign, integer digits and the significant fraction digits |
| Decimal.ResultKeepsValue | base/util.cpp:161-193 | the result denotes the same number and ends neither in the point nor in a zero behind one |
| Decimal.ResultsEqualIff | base/util.cpp:161-193 | two results are equal if and only if sign and value are |

## Left out

- readFd: the mirror of `writeFd`, used only for the eight-octet wake-up counter.
- Decoder answers -3 and -4, for which the size of the commit buffer wraps round to less than its reserved octets and C++ leaves the copy undefined; and buffers of more than 2^31 - 1 octets. Answers below -4 are those for which the commit buffer's constructor throws on a 64-bit `size_t` (`Framing.Clears`).
- Integer width of sizes, time stamps and the serial counter: unbounded here. Integers put into buffers do carry their width.
- `xEventState` objects: the loop's map holds values, so aliasing of the stored pointers is not captured.
- Translation of `epoll_wait` results and the `fired_` list: an event reaches a handler with any mask.
- pthread primitives: a locked section is one step or a series of steps no other thread can see, and a condition wait may end at any time. The unlocked walk over `extraEvents_` is a sequence of atomic list operations; torn list nodes are not modelled.
- Exceptions that escape a functor in `process`, and logging.
- Sends and closes on the same connection from inside the decoder or the commit callback, which `Framing.Callbacks` does not have. From inside the sent-bytes callback both are modelled, as `Session.Reaction`.
- Callbacks that remove timers during a pass.
- Timers.PassFires: for callbacks that add only timers later than the time of the pass; a timer already due may land before or behind the iterator. The pass itself, its termination, the order theorem and the accounting cover due additions.
- TimerQueue.TimerQueue.RemoveTime: for live timers, because identifiers of dead ones dangle. The tree may have any shape, balanced or not.
- Kernel.WriteFd: the C function reports a zero-octet write and a full write alike through its result; `errno` is meaningful only after a failure.
- Server.Server.DoSendResponse: delivers to the connection that is under the uid when the response arrives; a descriptor may have been reused since the request.
- Responses.ResponsesReachKernel: for sent-bytes callbacks that send nothing themselves, and for connections to which only responses are sent.
- Channel.Chan.PopFront: states one undisturbed call; what interleavings do to it is the subject of the theorems about runs.
- `doReConnect`, which starts over with the account at zero.
- xClient, its close notification and its choice of callbacks: only the connector's finish callback is modelled, as `Reconnect.Handover`.
- Object lifetime (destruction of a running callback, weak pointers, a handler outliving its group), sockets, addresses, options, host resolution and thread start-up.
- The other `tostr` forms, which only format.
