# Verified model of the message server

A TCP message server accepts client connections, keeps connections to its own
servers, cuts the incoming byte streams into length-prefixed packets for worker
threads, and sends what the workers answer. This project models that server and
the byte-level code it rests on, and proves what the code promises, or exactly
when it does not keep the promise.

`dafny verify dfyconfig.toml` checks the whole project.

## What is modelled

**The connection and message engine** (`CEpollThread`, `CGlobalMgr`, `SysQueue`,
`CWorkBaseThread`). `Engine` is a state machine with one function per step of any
thread: accepting, reading, writing, closing, enqueueing, switching the send
maps, serving events, connecting, popping. What the kernel decides (bytes moved,
descriptors given out, calls that fail, the clock) are arguments of the steps, so
a statement about every run covers every kernel behaviour and every interleaving
of the steps. `EpollThread`, `GlobalMgr`, `SysQueue` and `WorkThread` hold the
classes with the loops and in-place updates of the source; their methods are
proved to make exactly those steps (for sending, pinging and connecting through
`PostIsSteps`, `PingsAreSteps` and `ConnectIsSteps`), a whole round of the event
loop (`EpollThreads.EpollThread.Round`) to be one stated run of them, and a whole
pass of a worker (`WorkIsSteps`) another. Over every run:

* `Runs`: framing, delivery to the workers, end to end with the wire codec;
* `Reading`: what a read event takes, when it ends the connection, who has been silent;
* `Delivery`: what each step does to the notes on their way, and which are refused;
* `Telling`: what the notes say, and that no connection ends untold;
* `Limits`: the capacities, and when something is turned away;
* `Rounds`: what a round of the event loop has served and done;
* `Lifecycle`: Connected, data, at most one Disconnected per connection stamp;
* `Wires`: bytes sent plus bytes queued are the accepted messages of that
  connection generation, in order, and nobody else's;
* `Overflow`: runs in which a switch of the send maps reorders or loses messages;
* `Peers`: from what one server accepted to what another one queues for its workers;
* `Owners`: who owns a descriptor, when the stale-entry branch is reached, and
  whom late requests and events hit;
* `Keys`: what a server key names, and every way to leave one behind for good;
* `Witnesses` (built with `Examples`): runs in which what the others say may happen does;
* `Halves`: what other threads do while a new server connection is half added;
* `Locks`: the lock discipline that every method keeps, and that it excludes deadlock.

Each connection carries a generation number beside its stamp: the generation says
which connection is meant, the stamp is what the code compares. Stamps repeat
every 2^32 - 2 connections, generations never.

**The wire codec** (`Codec`), **the in-place buffers** (`BipBuffer`,
`RingBuffer`), **the address text codec** (`InetText` for the scans and printers,
`InetGrammar` and `InetCanonical` for the language and the form without them,
`InetCode` for the loops), and two loops of `utility.cpp` (`TextUtil`).

## Where the code departs from what it promises

* network/src/epollthread.cpp:814 copies a short remnant from the start of the
  buffer. `Framing.ParseWritten` is that code; `WrittenAgreesExactly` and
  `WrittenChunkingExactly` say exactly when it equals the intended parse, and
  `WrittenKeepsWrongByte` and `WrittenRepeatsMessage` give inputs where it does not,
  and `RepeatedMessage` a run that queues one message twice and loses the next one.
  `ReadsOverRuns` says
  what every run queues, whatever the reads; `FramingOverRuns` and
  `MessagesOverRuns` speak of streams of which no read moved a short remnant.
* network/src/globalmgr.cpp:285-298 never advances `idx`. `SwitchOrderExactly` and
  `OverflowBreaksCapOrFreesAll` say what an overflow then does, `OverflowReorders`
  and `OverflowLoses` are runs in which it does; `Wires` exempts the connections
  it hits.
* `closeClient` ignores the stamp it is given. `CloseSparesOthersExactly` is the
  exact condition under which a close request hits nobody else, and
  `LateCloseHitsNewer` a run in which it hits a newer connection.
  `LateReadSparesExactly`, `LateErrorSparesExactly` and `LateWriteSparesExactly`
  say the same of readiness events, and `LateReadHitsNewer` is a run with one.
* The stale-entry branch of `addSocketToMap` is reachable, even on a kernel that
  hands out only unused descriptors: `StaleEntryOccurs` is a run that reaches it.
  `OwnersKeptExactly` and `StaleEntryNeedsForeignClose` say that this takes a close
  of a descriptor that a connector or a queued event owned; `StaleAcceptExactly`
  and `TableOpenKeptExactly` say when accept() can meet such an entry, and which
  steps leave one.
* A server key can stay set with nothing behind it, and then the server never
  connects to that type again (`WedgedForGood`, `NeverAgain`). `WedgesExactly` lists
  the branches that do this and no others: network/src/globalmgr.cpp:524 resets the
  key of type 1, which is no key, when the event queue is full;
  network/src/epollthread.cpp:1085-1094 leaves the key when a new server connection
  cannot be added; network/src/epollthread.cpp:972-993 throws away a server's stale
  entry and not its key; and a second attempt for the same server may be given up
  after the first was refused. `FullQueueWedges`, `WedgeOccurs`, `StaleEntryWedges`
  and `GiveUpWedges` are runs of each, and `WedgedExactlyAfter` says that a run ends
  so if and only if it took one of them.
* `RingBuffer::isempty` denies a drained buffer whose end index rests on the array
  size: `IsEmpty` states when, `DrainedButNotEmpty` shows one.
* common/src/inet_pton.c:131 says that `::` in a full address is ignored;
  `DoubleColonInFullAddress` says for which texts that is true, and
  `DoubleColonLosesBytes` gives one for which it is not.
* `inet_pton6` does not notice a colon too many at the end (`TrailingColonIsAccepted`).
* `RingBuffer::getsize` adds in 32 bits: `SizeSurvivesWrap` says for which buffers
  that is harmless, and `Put` and `Get` what happens in all of them.
* `ReplaceAll` with an empty pattern does not end (`EmptyPatternNeverEnds`).

## Model

| member | source | states |
|---|---|---|
| Framing.ParseSound | network/src/epollthread.cpp:810-868 | a parse writes the bytes as well-framed packets followed by an incomplete remnant (accepted) or a refused header (rejected) |
| Framing.ParseComplete | network/src/epollthread.cpp:812-867 | and there is no other way to write them so |
| Framing.RemnantFitsAndFullBufferProgresses | network/src/epollthread.cpp:812-836 | a remnant is shorter than 2048 bytes; a buffer holding the largest packet yields a packet or a refusal |
| Framing.ParseExtends | network/src/epollthread.cpp:641-654 | parsing what arrived and then the remnant with the next read is parsing everything |
| Framing.ChunkingIrrelevant | network/src/epollthread.cpp:621-672 | for every stream and every way of cutting it into reads, packets, verdict and remnant are those of one parse of the whole |
| Framing.WrittenAgreesExactly | network/src/epollthread.cpp:813-817 | the code as written agrees with the intended parse of a buffer if and only if the short remnant is where the code looks for it |
| Framing.WrittenChunkingExactly | network/src/epollthread.cpp:813-836 | over a whole stream it agrees after every read if and only if no read moves a short remnant |
| Framing.WrittenKeepsWrongByte | network/src/epollthread.cpp:814 | a packet and one further byte: the packet's first byte is kept instead |
| Framing.WrittenRepeatsMessage | network/src/epollthread.cpp:813-836 | two messages cut two bytes into the second: the code as written receives the first one twice and the second never |
| Witnesses.RepeatedMessage | network/src/epollthread.cpp:593-673 | and a run in which exactly these packets are queued |
| Transfer.SendMsg | network/src/netcommon.cpp:104-132 | the loop moves what SendAll says for every sequence of kernel replies |
| Transfer.SendAll | network/src/netcommon.cpp:104-132 | never more than asked; result 1 exactly when all was sent |
| Transfer.SendAllExactly | network/src/netcommon.cpp:104-132 | the count is what the replies used up have moved, no more than asked; an error exactly when the last of them is one, blocked exactly when bytes are left otherwise; no call after that or when all is sent |
| Transfer.RecvMsg | network/src/netcommon.cpp:69-102 | the bytes land behind the carried ones, in order, within the buffer, as RecvAll says |
| Transfer.RecvAll | network/src/netcommon.cpp:69-102 | never more than the room; result 2 exactly when the room was filled |
| Transfer.RecvAllExactly | network/src/netcommon.cpp:69-102 | the bytes are what the replies used up have brought, as far as there was room; the code says whether the room was filled, and else whether the last reply was an error, the end of the stream, or neither |
| SendPath.AddMsgPending | network/src/globalmgr.cpp:106-155 | an accepted message is appended to its connection's pending bytes, a refused one and everybody else's leave them alone |
| Limits.TakenExactly | network/src/globalmgr.cpp:106-155 | a message is taken exactly when its list has room or is yet to be made, and is then the newest of its list; no other list is touched |
| Limits.LimitsOverRuns | network/src/globalmgr.cpp:129-135 | no run outgrows the limit of the table, the event queue, the receive queue or a front list |
| SendPath.SwitchConserves | network/src/globalmgr.cpp:248-331 | every message held before a switch is afterwards in exactly one list or freed; the front map is left empty |
| SendPath.SwitchOrderExactly | network/src/globalmgr.cpp:276-319 | the list after a switch takes every older and then every newer message once, in order, if and only if the list does not overflow or one part is empty; messages are told apart by position |
| SendPath.OverflowBreaksCapOrFreesAll | network/src/globalmgr.cpp:282-306 | an overflow exceeds the cap and frees nothing, or frees every older message |
| SendPath.SwitchKeepsPending | network/src/globalmgr.cpp:307-319 | without overflow a switch changes no connection's pending bytes |
| SendPath.DrainIsFaithful | network/src/epollthread.cpp:711-784 | for every partial send, bytes sent followed by bytes left are the bytes that were pending; after an error the wire got a prefix of them |
| SendPath.DrainFailsExactly | network/src/epollthread.cpp:735-748 | a drain fails if and only if, reply by reply, the kernel reports an error while bytes of the queued messages are left and before it reports being busy |
| SendPath.DrainMovesExactly | network/src/epollthread.cpp:711-784 | as many bytes go onto the wire as the replies, one by one, take off the queued messages |
| SendPath.FlowExactly | network/src/epollthread.cpp:711-784 | when no call moves more than it was asked, that is the sum of what the replies used up moved; the drain fails exactly when the last of them is an error, and stops only there, when blocked, or when all is sent |
| SendPath.DrainLeaves | network/src/epollthread.cpp:711-784 | what stays of a list is its end, from an unfinished message of the connection's own on |
| Engine.StampsRepeatExactly | network/src/epollthread.cpp:148-152 | two calls of getIndex agree if and only if they are a multiple of 2^32 - 2 apart, so any such window is free of repetitions |
| Engine.StampAdvances | network/src/epollthread.cpp:149-151 | the closed form of the stamp follows the increment and the wrap |
| Engine.RecvBufferSize | network/src/epollthread.cpp:95-106 | the receive buffer holds two of the largest packets, and either socket buffer and one |
| Engine.Apply | network/src/epollthread.cpp:154-302 | no step of any thread leaves a remnant that outgrows part_buf |
| Runs.StepKeeps | network/src/epollthread.cpp:154-302 | every step of every thread keeps the invariants: lives, table, framing, carried bytes, delivery |
| Runs.InvOverRuns | network/src/epollthread.cpp:154-302 | so every state of every run has them |
| Runs.ReadLoopKeeps | network/src/epollthread.cpp:593-673 | any sequence of reads on a connection keeps them, closing included |
| Reading.ReadEventExactly | network/src/epollthread.cpp:593-673 | a connection survives its read event exactly when no reply is an error or the peer's end before one that brings nothing more, and the parser refuses nothing; it reads what the kernel brought until then |
| Reading.LastHeard | network/src/epollthread.cpp:640 | in every run the time kept for a connection is that of its last read event, or of its arrival |
| Reading.ExpireExactly | network/src/epollthread.cpp:312-366 | and the timeout closes exactly the connections heard longer ago than it allows |
| Runs.ReadsOverRuns | network/src/epollthread.cpp:593-673 | in every run, for every generation, the packets queued are those the code as written cuts from the reads that generation got, and a live connection carries the remnant |
| Runs.FramingOverRuns | network/src/epollthread.cpp:593-673 | and, if none of these reads moved a short remnant, the packets, the verdict and the remnant are those of one parse of all bytes received |
| Runs.MessagesOverRuns | network/src/epollthread.cpp:812-867 | in every run, codec messages arriving in pieces none of which moves a short remnant are queued as exactly those messages |
| Runs.DeliveryOverRuns | network/src/epollthread.cpp:212-230 | notes reach the workers in order and none is lost, unless the bounded queue refused it; all are accounted for |
| Delivery.StepMovesNotes | network/src/epollthread.cpp:212-230 | a flush hands over the first waiting notes and refuses the rest only when the queue is then full; a worker takes the oldest; every other step of any thread only makes notes |
| Delivery.RefusesExactly | network/src/epollthread.cpp:220 | a note is refused exactly by a flush that finds more notes than room |
| Delivery.NotesArrive | network/src/epollthread.cpp:212-230 | in every run the workers get a part of the notes made, in order, and all of them if and only if no flush found the queue short of room |
| Lifecycle.StepKeepsNames | network/src/epollthread.cpp:892-904 | every step keeps: notes carry their generation's stamp and descriptor |
| Lifecycle.OneGenerationPerStamp | network/src/epollthread.cpp:148-152 | in any window of 2^32 - 2 generations a descriptor and stamp belong to one generation |
| Lifecycle.LifePerStamp | network/src/epollthread.cpp:534-557 | in every run the messages for one descriptor and connect_time are Connected, data, at most one Disconnected, and nothing after it |
| Lifecycle.WorkersSeeLives | network/src/workbasethread.cpp:66-91 | and the workers take them in that order, as long as their queue never refused one |
| Telling.NotesSayWhatHappened | network/src/epollthread.cpp:907-940 | in every run each note is a framed packet, or the notice of its connection's beginning or end with its type; all notes of a generation have its type |
| Telling.EndsAreTold | network/src/epollthread.cpp:871-906 | in every run that meets no stale entry, a generation that entered the table and left it has its Disconnected note |
| Wires.StepKeepsWires | network/src/epollthread.cpp:675-792 | every step keeps: sent ++ unsent back ++ front is what was accepted for the connection |
| Wires.StampDecides | network/src/epollthread.cpp:722-732 | within one round of stamps, the comparison of descriptor and stamp selects exactly the messages meant for the generation |
| Wires.WireRefinesAccepted | network/src/globalmgr.cpp:106-155 | in every run with arbitrary partial sends, for every live connection not hit by an overflow, sent ++ unsent back ++ front is the concatenation of the messages accepted for its generation; a message for a dead generation is never among them |
| Wires.OnlyOwnBytesAreSent | network/src/epollthread.cpp:722-735 | in every run, overflow or not, what a send puts on a wire is a prefix of the queued messages meant for that very generation |
| Wires.SendsExactly | network/src/epollthread.cpp:711-784 | and on a kernel that moves no more than it is asked, the wire grows by exactly that prefix of them which the replies used up moved; the send fails exactly when the last of these is an error |
| Wires.RepliesAreHonest | network/src/workbasethread.cpp:74-88 | a worker answering on a note's own descriptor and stamp is a sender that theorem allows |
| Overflow.OverflowReorders | network/src/globalmgr.cpp:282-306 | a run of such senders in which an overflow puts the newest of three accepted messages first and exceeds the cap |
| Overflow.OverflowLoses | network/src/globalmgr.cpp:299-306 | and one in which it throws away the two oldest of four |
| Peers.AcceptedIsReceived | network/src/epollthread.cpp:593-792 | over any two runs, one at each end of a connection that no overflow touched: from a prefix of the wire, in pieces none of which moves a short remnant, the peer queues the first of the accepted messages, in order and unaltered, and all of them once all bytes arrived |
| Keys.ServerMessagesAreHonest | network/src/globalmgr.cpp:372-414 | so is a sender that uses a server key, in every run and at every clock reading: a set key names its generation's stamp and descriptor, or a provisional stamp |
| Keys.StepKeepsKeys | network/src/globalmgr.cpp:215-246 | every step keeps what a key names |
| Halves.HalvesAreOneStep | network/src/epollthread.cpp:1074-1095 | between setting the key of an arriving connection and adding it, other threads may act: the outcome is that of serving the event at once and letting them act afterwards |
| Halves.BetweenTheHalves | network/src/epollthread.cpp:1074-1095 | so it is the state of a run, and what was sent meanwhile by a server key is honestly addressed in it |
| Owners.OwnersKeptExactly | network/src/epollthread.cpp:871-905 | on a kernel that gives out only unused descriptors, every step keeps one owner per descriptor if and only if it does not close a descriptor somebody else owns |
| Owners.StaleEntryNeedsForeignClose | network/src/epollthread.cpp:972-993 | in every run the stale-entry branch is reached only after such a close |
| Witnesses.StaleEntryOccurs | network/src/epollthread.cpp:972-993 | and a run on such a kernel that does reach it |
| Owners.TableOpenKeptExactly | network/src/epollthread.cpp:1085-1094 | on such a kernel a step closes a descriptor and leaves its entry if and only if it refuses an arriving connection, gives an attempt up, or finds the queue full, on a descriptor that has an entry |
| Owners.StaleAcceptExactly | network/src/epollthread.cpp:972-993 | accept() can meet a stale entry if and only if there is room in the table and some entry's descriptor is not open |
| Owners.StaleAcceptNeedsClosing | network/src/epollthread.cpp:972-993 | so, in every run, only after such a step |
| Owners.CloseSparesOthersExactly | network/src/epollthread.cpp:1044-1056 | a close request hits no other connection if and only if its stamp is that of the connection now on the descriptor, or there is none |
| Witnesses.LateCloseHitsNewer | network/src/epollthread.cpp:871-905 | a run in which a late request closes a newer connection |
| Owners.LateReadSparesExactly | network/src/epollthread.cpp:593-673 | a read event for a generation hits no other connection if and only if the descriptor now has none, or still that generation's |
| Owners.LateErrorSparesExactly | network/src/epollthread.cpp:201-207 | so does an error event |
| Owners.LateWriteSparesExactly | network/src/epollthread.cpp:184-199 | a write event closes another generation's connection if and only if the descriptor has one and the epoll call fails or the kernel breaks off the sending of its queued messages |
| Witnesses.LateReadHitsNewer | network/src/epollthread.cpp:611-620 | a run in which a late read event closes a newer connection |
| Keys.WedgedForGood | network/src/globalmgr.cpp:464-478 | no step frees a key that is set without any connection of its type anywhere |
| Keys.NeverAgain | network/src/globalmgr.cpp:473-476 | so in every run every later attempt to connect to that type does nothing |
| Keys.WedgesExactly | network/src/epollthread.cpp:154-302 | a step of any thread leaves a key behind if and only if it takes one of the branches of Leaves: a stale entry thrown away that was the last of its type, an arriving connection refused, the last other attempt given up, the event queue full |
| Keys.WedgedExactlyAfter | network/src/globalmgr.cpp:464-478 | so every run ends with the key of a type left behind if and only if some step of it took such a branch |
| Keys.FullQueueWedgesExactly | network/src/globalmgr.cpp:515-532 | the only connector of its type leaves its key behind if and only if the event queue is full |
| Witnesses.FullQueueWedges | network/src/globalmgr.cpp:515-532 | a run in which it does, for every size of the queue |
| Keys.RefusedConnectionWedgesExactly | network/src/epollthread.cpp:1074-1095 | serving the only arriving connection of its type, when nothing else of that type is there, leaves the key behind if and only if the connection cannot be added |
| Witnesses.StaleEntryWedges | network/src/epollthread.cpp:972-993 | a run in which the event had room and its connection was added, and a later client throws its stale entry away |
| Witnesses.GiveUpWedges | network/src/globalmgr.cpp:479-485 | a run in which the last other attempt is given up |
| Keys.WedgeOccurs | network/src/epollthread.cpp:1074-1095 | a three-step run to such a key, for every server type, descriptor and clock reading |
| Locks.Reachable | network/src/globalmgr.cpp:215-246 | in every interleaving of disciplined threads, no lock has two holders and every thread stays within the order |
| Locks.DeadlockFree | network/src/globalmgr.cpp:372-426 | in every reachable interleaving with an unfinished thread some thread can step |
| Locks.TraceIsProper | include/network/sysqueue.h:51-97 | the lock operations of any method that keeps the discipline and gives every lock back make such a thread |
| Locks.SelfDeadlock | network/src/threadlock.cpp:9-11 | a thread that asks for a lock it holds is stuck |
| Locks.Thread.Lock | network/src/threadlock.cpp:9 | a lock is taken only above those held: event queue, server, send map; the receive queue's alone |
| Locks.Thread.UnLock | network/src/threadlock.cpp:11 | and only held locks are released |
| SysQueues.SysQueue.InQueue | include/network/sysqueue.h:51-73 | a null element or a full queue is refused, anything else is put at the asked end; the lock is taken once and released |
| SysQueues.SysQueue.OutQueue | include/network/sysqueue.h:75-97 | the element at the asked end is taken, or none from an empty queue |
| SysQueues.SysQueue.InQueueWithoutLock | include/network/sysqueue.h:99-110 | the same without the lock |
| SysQueues.SysQueue.OutQueueWithoutLock | include/network/sysqueue.h:112-122 | the same without the lock |
| GlobalMgrs.GlobalMgr.AddMsgToSendList | network/src/globalmgr.cpp:106-155 | appends under the send-map lock unless the list is full or null, which erases the entry |
| GlobalMgrs.GlobalMgr.CreateMsgToSendList | network/src/globalmgr.cpp:21-104 | the packet built in place is the encoding of the message, and is enqueued exactly when descriptor, stream and size allow |
| GlobalMgrs.GlobalMgr.SetServerSocket | network/src/globalmgr.cpp:215-246 | sets the key of a server type and of no other, under the server lock |
| GlobalMgrs.GlobalMgr.SwitchSendMap | network/src/globalmgr.cpp:248-331 | the loop over the back map makes exactly the switch whose theorems are above, and reports what it freed |
| GlobalMgrs.MoveOverflow | network/src/globalmgr.cpp:282-306 | the overflow loop appends every older message or frees every one |
| GlobalMgrs.GlobalMgr.SendMsgToServer | network/src/globalmgr.cpp:372-414 | addresses the key's connection, or nothing; the server lock is taken exactly when blocked |
| GlobalMgrs.ServerMessageWent | network/src/globalmgr.cpp:372-414 | a message for a type of server goes, with all its fields, to the connection that this type's key names, exactly when the key is set, the stream and the packet fit, and the list has room; otherwise nothing happens |
| GlobalMgrs.PostIsSteps | network/src/globalmgr.cpp:94-103 | what that does to the front map and the accepted messages is at most one Enqueue step |
| GlobalMgrs.GlobalMgr.SendKeepaliveMsgToAllServer | network/src/globalmgr.cpp:416-426 | one ping per set key, in order, with the front map and the messages accepted, under one hold of the server lock |
| GlobalMgrs.PingedExactly | network/src/globalmgr.cpp:416-426 | only servers with a set key get a ping; one whose descriptor no other key has gets it exactly when its list has room |
| GlobalMgrs.PingsAreSteps | network/src/globalmgr.cpp:416-426 | which is a run of Enqueue steps |
| GlobalMgrs.BlockedPingIsUndisciplined | network/src/globalmgr.cpp:416-426 | with blocked true the thread would wait for itself |
| GlobalMgrs.GlobalMgr.CreateServerConnect | network/src/globalmgr.cpp:428-539 | key, event and lock operations in every branch, the full queue included |
| GlobalMgrs.ConnectIsSteps | network/src/globalmgr.cpp:428-539 | on an unused descriptor, that is the steps ConnectorOpen and ConnectorPost |
| GlobalMgrs.GlobalMgr.CreateCloseConnectEvent | network/src/globalmgr.cpp:541-569 | posts the request unless the queue is full |
| EpollThreads.EpollThread.constructor | network/src/epollthread.cpp:86-118 | start-up sizes the buffer and gives the initial state |
| EpollThreads.EpollThread.GetIndex | network/src/epollthread.cpp:148-152 | returns the next stamp of the sequence whose distinctness is proved |
| EpollThreads.EpollThread.ParsePacketToRecvQueue | network/src/epollthread.cpp:794-869 | the loop over curpos queues the packets, verdict and remnant of the parse as written |
| EpollThreads.EpollThread.DoRecvMessage | network/src/epollthread.cpp:593-673 | reads, parses and closes as the Readable step |
| EpollThreads.EpollThread.DoSendMessage | network/src/epollthread.cpp:675-792 | drains the back list, with its error and empty cases |
| EpollThreads.DrainList | network/src/epollthread.cpp:711-784 | the loop sends, skips and cuts messages as the drain whose faithfulness is proved |
| EpollThreads.EpollThread.CloseClient | network/src/epollthread.cpp:871-906 | the connection under the descriptor goes, with its key and one Disconnected note |
| EpollThreads.EpollThread.AddClientToEpoll | network/src/epollthread.cpp:563-591 | adds exactly when epoll accepts, the descriptor is valid and the table has room; a stale entry is replaced |
| Limits.AcceptedExactly | network/src/epollthread.cpp:563-591 | an accepted client enters the table exactly when its socket could be prepared, epoll takes it and there is room; with its stamp, nothing read and nothing sent |
| Limits.AddedExactly | network/src/epollthread.cpp:1064-1095 | a server's connection likewise, with its key; refused, its descriptor is closed |
| EpollThreads.EpollThread.DoAccept | network/src/epollthread.cpp:457-561 | one Accept step per connection until the kernel has none |
| EpollThreads.EpollThread.DoSystemEvent | network/src/epollthread.cpp:1029-1110 | serves every queued event in order under one hold of the event lock |
| EpollThreads.EpollThread.FlushNotes | network/src/epollthread.cpp:212-230 | hands over a prefix of the notes that fits the queue, in order, under its lock alone |
| EpollThreads.EpollThread.ScanSendMap | network/src/epollthread.cpp:244-284 | deletes the lists without a connection, and those refused together with their connections, and nothing else |
| Limits.ScannedExactly | network/src/epollthread.cpp:244-284 | afterwards the back map has the lists of connections that epoll watches, unchanged, and no others |
| Limits.SendTouchesOnly | network/src/epollthread.cpp:675-690 | a write event without a connection discards the list; no other list or connection is touched |
| EpollThreads.EpollThread.DoKeepaliveTimeout | network/src/epollthread.cpp:312-366 | closes exactly the connections silent for longer than the timeout |
| EpollThreads.EpollThread.Round | network/src/epollthread.cpp:159-298 | one round of the event loop is this run of steps: every ready event in order, the hand-over, every queued event, the switch, the scan, the timeouts and the pings when due; it ends without a lock |
| Rounds.ServedInOrder | network/src/epollthread.cpp:161-208 | in such a run every ready descriptor has its own step, in order |
| Rounds.AcceptStepsAre | network/src/epollthread.cpp:457-561 | the listening one a step for each connection until accept() gives none |
| Rounds.EventStepsAre | network/src/epollthread.cpp:1029-1110 | and every queued event one |
| Rounds.PhasesAreDone | network/src/epollthread.cpp:159-243 | after the switch no event is left, the front map is empty, and the notes made before the events were served are with the workers as far as their queue had room |
| WorkThreads.WorkBaseThread.Drain | network/src/workbasethread.cpp:64-91 | takes notes in order until the queue is empty and posts a close request for each that fails; its lock operations, each lock alone, are stated |
| WorkThreads.WorkIsSteps | network/src/workbasethread.cpp:66-91 | such a pass is a run of steps of the state machine |
| WorkThreads.ReportedExactly | network/src/workbasethread.cpp:74-88 | a request to close is queued for each note that failed and no other, in order, while there is room |
| Codec.OutputValue | include/protocol/eupustream.h:78-104 | the value in network order on either kind of host, or nothing when it does not fit |
| Codec.InputValue | include/protocol/eupustream.h:120-149 | reads back network order on either kind of host |
| Codec.Swap64IsNetworkOrder | include/protocol/eupustream.h:32-57 | swapping and converting the halves is 64-bit network order, and undoes itself |
| Codec.OutputString | include/protocol/eupustream.h:106-118 | length and characters, or nothing when they do not fit |
| Codec.InputString | include/protocol/eupustream.h:151-174 | text and NUL when they fit, else the error code and nothing written |
| Codec.NetMessageHead.Out | include/protocol/protocol.h:34-64 | the eight header bytes, exactly when there is room |
| Codec.NetMessageHead.In | include/protocol/protocol.h:66-95 | the five fields, exactly when a header is there |
| Codec.HeadRoundTrip | include/protocol/protocol.h:34-95 | the header reads back as written, whatever follows |
| Codec.ServerNotice.Out | include/protocol/sprotocol.h:35-54 | header and server number, exactly when there is room |
| Codec.ServerNotice.In | include/protocol/sprotocol.h:56-73 | both back |
| Codec.NoticeRoundTrip | include/protocol/sprotocol.h:92-132 | a notice frames itself and reads back as written |
| Codec.EncodeRoundTrip | network/src/globalmgr.cpp:50-92 | the size field is the number of bytes produced, within 8..2048, and the receiver reads back every field |
| Codec.EndToEnd | network/src/globalmgr.cpp:50-92 | any list of messages, sent back to back and delivered in any pieces, is parsed back as exactly that list |
| InetText.Parse4IsQuad | common/src/inet_pton.c:87-121 | the one-pass scan accepts exactly four decimal groups separated by single dots, each at most 255, with their values |
| InetText.RoundTrip4 | common/src/inet_ntop.c:79-95 | inet_pton4 inverts inet_ntop4 on all addresses |
| InetText.ChosenIsUnique | common/src/inet_ntop.c:130-157 | leftmost among the longest runs of two or more zero groups determines the run |
| InetText.Text6Length | common/src/inet_ntop.c:114-193 | at most 39 characters, so the text and its NUL fit the 46-byte scratch buffer |
| InetText.DoubleColonInFullAddress | common/src/inet_pton.c:213-228 | a text that spells all sixteen bytes and a double colon is accepted; the double colon is ignored if and only if every byte after it is zero, and otherwise those bytes become zero |
| InetText.DoubleColonLosesBytes | common/src/inet_pton.c:213-228 | 1:2:3:4::5:6:7:8 is read as 1:2:3:4:0:0:0:0 |
| InetText.RoundTrip6 | common/src/inet_ntop.c:104-205 | inet_pton6 inverts inet_ntop6 on all 128-bit addresses, whichever zero run was compressed |
| InetGrammar.Parse6IsAddress | common/src/inet_pton.c:138-233 | the scan accepts exactly the texts of eight groups, or fewer around one double colon, the last possibly a dotted quad, with their bytes |
| InetGrammar.HexDigitIsPlace | common/src/inet_pton.c:143-173 | the value of a digit in either case is the place of the folded letter in 0123456789abcdef |
| InetGrammar.TrailingColonIsAccepted | common/src/inet_pton.c:171-196 | a text that ends in a group may be followed by one more colon |
| InetCanonical.TextIsCanonical | common/src/inet_ntop.c:159-193 | the printed text is the groups joined by colons, the run replaced by a double colon |
| InetCanonical.GroupIsCanonical | common/src/inet_ntop.c:159-193 | each group in lower case, with its value and without a zero in front |
| InetCanonical.EmbedsExactly | common/src/inet_ntop.c:171-181 | a quad is printed exactly after five zero groups and ffff, or after six and something but zero |
| InetCanonical.EmbeddedText | common/src/inet_ntop.c:171-181 | and then the text is its prefix and the quad |
| InetCode.Ntop4 | common/src/inet_ntop.c:79-95 | prints the quad exactly when it and its NUL fit |
| InetCode.ChooseRun | common/src/inet_ntop.c:130-157 | the scan finds the leftmost longest run of zero groups, if it has length two or more |
| InetCode.Ntop6 | common/src/inet_ntop.c:104-205 | prints the text for that run exactly when it fits, every scratch write in bounds |
| InetCode.Pton4 | common/src/inet_pton.c:79-122 | accepts exactly the dotted quads and leaves the destination alone otherwise |
| InetCode.ShiftTail | common/src/inet_pton.c:213-228 | the overlapping in-place shift moves the tail to the end and leaves zeros between |
| InetCode.Pton6 | common/src/inet_pton.c:138-233 | accepts exactly what Parse6 accepts, with its bytes, and leaves the destination alone otherwise |
| InetCode.PrintThenParse | common/src/inet_ntop.c:104-205 | the two loops back to back, through a 46-character buffer and its NUL, return every address |
| RingBuffers.SizeSurvivesWrap | include/common/ringbuffer.h:44 | the 32-bit sum gives the size if and only if it does not wrap, or the array size is 2^31 |
| RingBuffers.RingBuffer.Put | include/common/ringbuffer.h:46-62 | accepts exactly what getfree reports, and what it accepted is appended if and only if it fits the free space, straight or wrapped |
| RingBuffers.RingBuffer.Get | include/common/ringbuffer.h:64-82 | accepts 0 < len <= what getsize reports, and takes the oldest bytes when there are so many, straight or wrapped |
| RingBuffers.RingBuffer.IsFull | include/common/ringbuffer.h:38 | true exactly when one slot is left, except where r + 1 itself wraps |
| RingBuffers.RingBuffer.IsEmpty | include/common/ringbuffer.h:40 | true exactly when the buffer is empty and not in the state h 0, r bufsize |
| RingBuffers.DrainedButNotEmpty | include/common/ringbuffer.h:40 | a drained buffer that isempty denies |
| BipBuffer.CircularBuffer.Write | common/src/circularbuffer.cpp:107-136 | appends exactly when the bytes fit the announced space, else changes nothing |
| BipBuffer.CircularBuffer.Read | common/src/circularbuffer.cpp:44-95 | takes the oldest bytes, all or none, through region A, region B and the relocation |
| BipBuffer.CircularBuffer.Remove | common/src/circularbuffer.cpp:172-216 | drops the oldest bytes, all of them when asked for more |
| BipBuffer.CircularBuffer.GetSpace | common/src/circularbuffer.cpp:140-153 | the exact room for one write, full capacity when empty; contents unchanged even when region B is created |
| BipBuffer.CircularBuffer.SpaceIsLargest | common/src/circularbuffer.cpp:140-153 | that room is the longest unused stretch that the next write could take, before or behind region A, or behind region B when there is one |
| BipBuffer.CircularBuffer.GetBuffer | common/src/circularbuffer.cpp:220-225 | where the next byte goes |
| BipBuffer.CircularBuffer.GetBufferStart | include/common/circularbuffer.h:29-39 | where the oldest byte lies |
| BipBuffer.CircularBuffer.GetContiguiousBytes | common/src/circularbuffer.cpp:162-167 | the whole first region: how many bytes of the queue follow its start in one piece |
| BipBuffer.CircularBuffer.IncrementWritten | common/src/circularbuffer.cpp:239-245 | commits bytes already put behind the frontier |
| BipBuffer.CircularBuffer.FillInPlace | common/src/circularbuffer.cpp:140-153 | asking for space, filling in place and committing is a Write |
| BipBuffer.CircularBuffer.Relocate | common/src/circularbuffer.cpp:73-92 | moving region B to the base, overlap included, keeps the contents |
| TextUtil.ReplaceAll | common/src/utility.cpp:500-514 | for a non-empty pattern the loop ends with the left-to-right replacement |
| TextUtil.ReplaceFromIsReplaced | common/src/utility.cpp:508-511 | inserted text is never looked at again |
| TextUtil.ReplacedJoinsPieces | common/src/utility.cpp:500-514 | the text is its pieces joined by the pattern, the result the same pieces joined by the replacement |
| TextUtil.PiecesStopAtFirst | common/src/utility.cpp:502-510 | no occurrence is passed over |
| TextUtil.EmptyPatternNeverEnds | common/src/utility.cpp:508-511 | with an empty pattern the position stays inside the text after any number of turns |
| TextUtil.Base64Decode | common/src/utility.cpp:446-477 | the output is the groups decoded, the result their length less the trailing pads |
| TextUtil.Base64RoundTrip | common/src/utility.cpp:446-477 | decoding the padded encoding of section 4 of RFC 4648 returns the length and the bytes, for every byte string |

## Left out

- Sockets, epoll, setsockopt, connect, select, the listening socket: only their results appear, as arguments.
- Logging, configuration, daemonizing, signals, starting, stopping and pausing threads, allocation failure, C++ object lifetimes, the unlocked emptiness peeks.
- network/src/wsathread.cpp: a near copy of the epoll engine that adds no property.
- Peer address and port, which the code carries along in every record and never decides on.
- The connection record (SOCKET_SET with its key) is a value in the table, and the object an ADD_CLIENT event points to is its descriptor and type: sharing of these objects between threads is not captured. The address of a key is its generation number.
- Runs.FramingOverRuns: says nothing of a stream of which a read moved a short remnant, because the code as written then keeps wrong bytes; Framing.WrittenChunkingExactly is the exact condition, and Runs.ReadsOverRuns says what is queued then.
- Runs.MessagesOverRuns: under the same condition, and so is Peers.AcceptedIsReceived.
- Wires.WireRefinesAccepted: assumes that no connection or queued message outlives 2^32 - 2 further connections, that getIndex has not come up to the clock reading (network/src/globalmgr.cpp:487) of a provisional stamp that is still queued, which takes as many connections as seconds since 1970, and that senders use stamps already given out or a provisional one, as workers and senders by key do (Wires.RepliesAreHonest, Keys.ServerMessagesAreHonest); a connection whose list overflowed in a switch is exempt.
- Lifecycle.WorkersSeeLives: says nothing once the receive queue has refused a note, because a refused Connected or Disconnected note never reaches a worker.
- Codec.InputString: announced lengths stay below 2^31 - 5, because beyond them the signed conversions of the code wrap.
- Codec.OutputString: texts stay shorter than 2^31 - 5 characters, for the same reason.
- WorkThreads.WorkBaseThread.Drain: takes what is queued when the pass begins; notes that arrive meanwhile are Pop steps of the state machine.
- TextUtil.Base64Decode: the caller's length covers only whole groups inside the text, because the code reads past the text otherwise.
- TextUtil.ReplaceAll: needs a non-empty pattern, because with an empty one it does not end.
- RingBuffers.RingBuffer.constructor: a capacity of 2^32 - 1, for which the sum in init wraps to an array of size zero.
- RingBuffers.RingBuffer.Get: leaves open which bytes are taken when getsize, its sum wrapped, reports more than there are.
- BipBuffer.CircularBuffer.IncrementWritten: the caller commits no more than the announced space, because the code does not check it.
- EpollThreads.EpollThread.ScanSendMap: lists the refused descriptors before closing them, where the code closes each as it meets it; closing one touches neither the send maps nor another connection.
- EpollThreads.EpollThread.Round: the clock is read once in a round, and whether the timeouts and the pings are due is an argument.
- A connector's check of its key and its getting a descriptor are one step, and so are its setting the key and posting the event; the locks they take are in the methods' traces.
- Halves.HalvesAreOneStep: assumes that the kernel does not give out, before a refused arriving connection is closed, the very descriptor it was to have.
- Sums of lengths that exceed 32 bits in createMsgToSendList (an announced stream length near 2^32).
- CCounter, the date helpers and the fixed-width getters of utility.cpp: they would only add easy members.
- The XML signature library, the generated protobuf code, the programs' own message handlers.
