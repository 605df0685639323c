# GNU Mach: verified models

Dafny models of the parts of GNU Mach where a small protocol carries a large promise, with the
promises proved over every input, every run and every reachable state. `dafny verify dfyconfig.toml`
checks the project.

- **Message queues** (`MessageQueue*.dfy`). Sends, receives, port sets and queue limits as a
  transition system whose events are the regions under the port or queue lock, for any number of
  threads; the same regions in place in the class `Kernel`. Ghost histories record what a port
  accepted and gave out.
- **Message translation** (`CopyUser*.dfy`). The 32-bit user and 64-bit kernel layouts as bytes; the
  three walkers over them; round trip, expansion and size agreement.
- **Kernel messages** (`Kmsg*.dfy`). The pointer ring of messages; the worklist of
  `ipc_kmsg_destroy`; the ledger of rights and memory that copying a body in builds up and cleaning
  gives back, under every pattern of failures.
- **Packet filters** (`Bpf*.dfy`, `Cspf*.dfy`, `Session*.dfy`, `NetFilter*.dfy`). Both validators and
  interpreters, the table by which sessions share a program with its rings of pointers, and the
  disposal of a packet.
- **Smaller protocols.** Msg-accepted requests (`Marequest*.dfy`), device references
  (`DeviceTable*.dfy`), opening and closing a device (`DeviceOpen*.dfy`), terminal ring buffers
  (`Cirbuf.dfy`).

The files named `*Laws.dfy` say what each step decides in the fields, bytes and bits that it reads,
without the functions that the models are written in.

Conventions. What runs under a lock is one atomic step. Calls into the virtual memory system, port
rights, drivers and user memory are non-deterministic results, parameters or events. Integers are
unbounded except where the width shows: sequence numbers, `msgh_size`, the product in
`ipc_kmsg_get`, BPF and CSPF words, `bpf_hash` and `c_cc` wrap or are cut as in C.

Where the code falls short of what it is meant to do, the model follows the code, and each such
place has an input that shows it and its exact condition:

- circular messages lose wake-ups: `CircularLosesWakeup`, `WakeupLostIff`, `NoLostWakeupIff`;
- `msg_usize` does not count a bare descriptor at the end: `UsizeTooSmall`, `UsizeAgrees`;
- the buffer for messages of 2 GB or more is too small: `LessIsNotEnough`, `BufferSuffices`;
- the collection of dead sessions stops early in a bucket whose first session is dead:
  `DeadSessionStays`, `ScannedAlive`, `DeadSessionsGo`;
- `bpf_validate` says that jumps are checked to go forward, but accepts negative ones, and does not
  check the scratch index of STX and LDX: `NeverEnds`, `LeavesCode`, `StoresNowhere`, `TameExactly`;
- `parse_net_filter` compares the stack with the size of a filter, so that filters read and write
  above it: `GoesAbove`, `StepExactly`, `RoomyExactly`;
- a device that is opened for a reply port that is no longer valid stays open for ever:
  `UnheardHappens`, `UnheardStaysOpen`, `RestExactly`.

## Model

| member | source | states |
|---|---|---|
| MessageQueueRuns.FifoExactlyOnce | ipc/ipc_mqueue.c:314-376 | over every run, what a port gave out is, in order, a prefix of what it accepted, the rest is queued in order, the k-th carries the k-th consecutive 32-bit number, and of every message given out the receive is over or exactly one receiver has it, that message with that number |
| MessageQueueRuns.RunHistoriesGrow | ipc/ipc_mqueue.c:534-655 | no later event reorders, drops or renumbers what a port accepted or gave out |
| MessageQueueRuns.LimitAccounting | ipc/ipc_mqueue.c:238-322 | over every run with a fixed limit, the count is the queued messages plus those of receivers before their second half, and unforced outstanding messages never exceed the limit, although woken senders race with new ones |
| MessageQueueRuns.NoLostWakeup | ipc/ipc_mqueue.c:657-691 | over every run without circular messages, if senders are blocked then the count plus the woken senders that have not resumed is at least the limit |
| MessageQueueRuns.WakeupLostIff | ipc/ipc_mqueue.c:305-312 | an event keeps every port covered if and only if it is not the resumption of a circular sender on a port that is only just covered |
| MessageQueueLostWakeups.CircularLosesWakeup | ipc/ipc_mqueue.c:262-312 | from any ports and sets, at every port with a limit above zero: a run after which the port has room and a blocked sender and nobody will wake it |
| MessageQueueLostWakeups.NoLostWakeupIff | ipc/ipc_mqueue.c:238-312 | from any ports and sets, all runs with fixed limits are free of lost wake-ups if and only if circular messages are kept out or every limit is zero |
| MessageQueueRuns.TimeoutFindsNothing | ipc/ipc_mqueue.c:600-629 | a receive that times out finds its queue empty, so going round the loop again only leaves |
| MessageQueueSteps.ApplyInv | ipc/ipc_mqueue.c:174-381 | every event of sends, receives, port sets and limits keeps the invariant: lists agree with thread states, messages are in the queue of their port, a queue with waiting receivers is empty, order and counts hold |
| MessageQueueDelivery.ApplyDelivers | ipc/ipc_mqueue.c:534-655 | every event keeps the one-to-one pairing of numbered messages with the receivers that hold them |
| MessageQueueSteps.FinishCountPositive | ipc/ipc_mqueue.c:672-674 | the count is positive whenever the second half of a receive decrements it |
| MessageQueueInvariant.OfferAllCore | ipc/ipc_mqueue.c:96-132 | moving the messages of a port to another queue, with hand-offs and rejections of receivers that are too small, keeps order and counts with the messages in transit accounted for |
| MessageQueueKernel.Kernel.OfferMessage | ipc/ipc_mqueue.c:347-375 | the receiver loop, in place: it wakes receivers until one has room, else queues |
| MessageQueueKernel.Kernel.MoveMessages | ipc/ipc_mqueue.c:81-132 | ipc_mqueue_move in place, walking the queue while removing from it, equals taking out the messages of the port and offering them in order |
| MessageQueueKernel.Kernel.WakeReceivers | ipc/ipc_mqueue.c:143-155 | ipc_mqueue_changed in place wakes every waiting receiver with the error |
| MessageQueueKernel.Kernel.SendTurn | ipc/ipc_mqueue.c:238-376 | one turn of the send loop in place: limit test, delivery, giving up or blocking |
| MessageQueueKernel.Kernel.ReceiveTurn | ipc/ipc_mqueue.c:540-580 | one turn of the receive loop in place |
| MessageQueueKernel.Kernel.ReceiveEnd | ipc/ipc_mqueue.c:657-691 | the second half of a receive in place |
| MessageQueueKernel.Kernel.ChangeLimit | ipc/ipc_port.c:342-371 | ipc_port_set_qlimit in place, with its loop over blocked senders |
| MessageQueueLaws.SendsDecided | ipc/ipc_mqueue.c:238-376 | in every state of every run, in the fields of ports, queues and threads, for a send, a resumed send and one that times out: the thread is blocked afterwards if and only if the count has reached the limit, the message is not forced and the thread still waits; a message that is not circular is accepted if and only if the count is below the limit or it is forced, and then goes to the first receiver that is large enough or to the end of the queue |
| MessageQueueLaws.OfferGives | ipc/ipc_mqueue.c:347-375 | the receiver loop gives the message to the first waiting receiver whose size is not below the message's, tells those before it that it is too large, and queues it if there is none |
| MessageQueueLaws.ReceivesDecided | ipc/ipc_mqueue.c:540-580 | in every state of every run a receive takes the first message if and only if it fits, with the port's next number; it leaves one that does not, and waits if and only if there is none and it has time |
| MessageQueueLaws.FinishesDecided | ipc/ipc_mqueue.c:657-691 | in every state of every run the second half of a receive lowers the count by one and wakes the sender that blocked last if and only if the count is then below the limit |
| MessageQueueLaws.LimitsDecided | ipc/ipc_port.c:342-371 | in every state of every run a new limit wakes as many senders as it grew by, or all, and no other |
| MessageQueueSetLaws.SendInterrupted | ipc/ipc_mqueue.c:262-303 | in every state of every run an interrupted sender leaves the list of its port and nothing else changes |
| MessageQueueSetLaws.ReceiveGivenUp | ipc/ipc_mqueue.c:605-629 | the same for a receiver that is interrupted or out of time: nothing but its place on the list of its queue |
| MessageQueueSetLaws.ReceiveResumed | ipc/ipc_mqueue.c:586-604 | a receiver that was woken has exactly the message and number it was handed, or leaves with its error |
| MessageQueueSetLaws.SetAdded | ipc/ipc_pset.c:141-167 | in every state of every run: the port's messages go to the set one after the other, each to the first receiver that is large enough or to the end of the queue; then all who received from the port are told |
| MessageQueueSetLaws.SetRemoved | ipc/ipc_pset.c:180-200 | in every state of every run: the port's messages, and no others, are on its own queue afterwards, where nobody waits |
| MessageQueueSetLaws.SetDestroyed | ipc/ipc_pset.c:306-322 | in every state of every run: all who received from the set, and no others, are told that it died |
| CopyUserTheorems.TypeRoundTrip | ipc/copy_user.c:87-142 | a canonical short or long user descriptor is reproduced byte for byte |
| CopyUserTheorems.BodyRoundTrip | ipc/copy_user.c:363-542 | copying a canonical body in and out reproduces every descriptor, port name, address and data byte, whatever the padding |
| CopyUserTheorems.MessageRoundTrip | ipc/copy_user.c:343-543 | the same for whole messages with header and size |
| CopyUserTheorems.MessageExpands | ipc/ipc_kmsg.h:173 | the kernel size of a translated message is at most twice the user size |
| CopyUserExtremes.BufferSuffices | ipc/ipc_kmsg.c:527-541 | the buffer chosen for a size holds the translation of every message of that size if and only if the size is below 2 GB, since the product is cut to 32 bits |
| CopyUserExtremes.LessIsNotEnough | ipc/ipc_kmsg.c:527-541 | for every size, a message that copyinmsg accepts and that doubles all but its header, so no smaller buffer is enough |
| CopyUserExtremes.UsizeTooSmall | ipc/copy_user.c:284-333 | for every odd number of words after the header, a message that copyinmsg accepts, that copyoutmsg writes back whole, and of which msg_usize makes less |
| CopyUserTheorems.UsizeAgrees | ipc/copy_user.c:284-333 | msg_usize equals the size copyoutmsg writes if and only if the last item is more than a bare descriptor; otherwise it is smaller |
| CopyUserTheorems.UsizeOfCopiedIn | ipc/copy_user.c:284-333 | for a message that came from a user, msg_usize is the size it came with under the same condition |
| CopyUserWalkers.CopyInMsg | ipc/copy_user.c:343-461 | copyinmsg in place: it fails exactly on messages that are not accepted, else the buffer holds the translation of exactly usize bytes in at most twice the space |
| CopyUserWalkers.CopyOutMsg | ipc/copy_user.c:467-543 | copyoutmsg in place: it succeeds whenever the whole message fits, and then the user buffer holds its translation |
| CopyUserWalkers.ThroughKernel | ipc/copy_user.c:343-543 | copyinmsg and then copyoutmsg into a buffer of the same size: it fails exactly if the message is not accepted, and a canonical message arrives unchanged |
| CopyUserWalkers.MsgUsize | ipc/copy_user.c:284-333 | the loop of msg_usize computes the size of its specification |
| CopyUserLaws.ItemRefused | ipc/copy_user.c:363-461 | by the bytes of the message: an item is refused if and only if its descriptor cannot be read, it has ports of a size other than 32 bits, inline or not, or its address, names or bytes pass the end of the message or of the user's memory |
| CopyUserLaws.AcceptedExactly | ipc/copy_user.c:363-461 | a message is accepted if and only if a chain of items that are not refused leads from its header to its end |
| CopyUserLaws.CopyInDecides | ipc/copy_user.c:343-461 | copyinmsg fails if and only if there is no such chain |
| CopyUserLaws.GoodMessage | ipc/copy_user.c:363-461 | every message put together from well-formed items, short or long, inline or not, is accepted |
| CopyUserLaws.CopyInGood | ipc/copy_user.c:343-461 | copyinmsg copies every such message in |
| CopyUserLaws.ItemSame | ipc/copy_user.c:87-142 | byte by byte: the kernel's descriptor has the name, number and flags of the user's, and its size, 32 more for inline ports; names and addresses are their four bytes and four zeros, other data is unchanged |
| CopyUserLaws.CopyInTranslates | ipc/copy_user.c:343-461 | copyinmsg leaves the header and, for every item of the chain and in order, its translation, each at the next multiple of eight |
| KmsgRing.Queue.Enqueue | ipc/ipc_kmsg.h:275-291 | the pointer ring refines a sequence: enqueue appends |
| KmsgRing.Queue.Remove | ipc/ipc_kmsg.c:116-141 | taking any message out of the ring removes exactly that place of the sequence |
| KmsgRing.Queue.Dequeue | ipc/ipc_kmsg.c:96-108 | dequeue returns and removes the first message, or null |
| KmsgRing.Queue.Next | ipc/ipc_kmsg.c:151-164 | the message after a given one, or null after the last |
| KmsgDestroy.DrainsReachable | ipc/ipc_kmsg.c:192-201 | a drain frees exactly the messages reachable through ownership, each as often as it is reachable |
| KmsgDestroy.FreedOnce | ipc/ipc_kmsg.c:176-202 | in a forest no message is freed twice |
| KmsgDestroy.Worklist.Destroy | ipc/ipc_kmsg.c:176-202 | the outermost call cleans and frees the whole forest and leaves the queue empty; a nested call only queues its message |
| KmsgDestroy.Worklist.DrainOne | ipc/ipc_kmsg.c:196-200 | one turn of the drain loop: the first message is cleaned while queued, unlinked and freed, and what it owned is at the end of the queue |
| KmsgLedger.Kernel.CleanBody | ipc/ipc_kmsg.c:216-300 | clean_body releases exactly what the body holds, each right and block once |
| KmsgLedger.Kernel.CleanItem | ipc/ipc_kmsg.c:219-297 | the same for one item, inline or out of line, with the ports kept inside the message |
| KmsgLedger.Kernel.CopyInRights | ipc/ipc_kmsg.c:1527-1556 | the loop over ports acquires a right for each valid name up to the first refusal |
| KmsgCopyin.DoneHolds | ipc/ipc_kmsg.c:216-300 | what clean_body finds in a body that was copied in is what was acquired for it, after names and sizes in the descriptors were rewritten |
| KmsgCopyin.Message.CleanBefore | ipc/ipc_kmsg.c:354-378 | clean_partial without dolast releases the header and the items before the failing one |
| KmsgCopyin.Message.CleanThrough | ipc/ipc_kmsg.c:354-444 | clean_partial with dolast also releases the ports of the failing item acquired so far and its memory |
| KmsgCopyin.Message.Clean | ipc/ipc_kmsg.c:311-339 | ipc_kmsg_clean releases exactly the header and, if the message is complex, what the body holds |
| KmsgCopyin.Message.CopyInItem | ipc/ipc_kmsg.c:1351-1560 | one item: a failure at any step leaves nothing but what was there before the message; a success adds exactly what the item holds |
| KmsgCopyin.Message.CopyInBody | ipc/ipc_kmsg.c:1328-1570 | for every body and every pattern of failures: a failure releases header and body exactly; a success leaves held what clean will find; COMPLEX survives exactly if an item is out of line or carries ports; the code TOO_SMALL or INVALID_TYPE is what the message alone determines |
| KmsgCopyin.Message.CopyInThenClean | ipc/ipc_kmsg.c:1328-1570 | copying a message in and cleaning it leaves nothing of it held, whichever way it went |
| KmsgLaws.ItemAnswer | ipc/ipc_kmsg.c:1351-1440 | by the fields of a descriptor: an item is an invalid type if and only if its unused bits are set, it is inline with deallocate, or it has ports of the wrong size; it is too small if and only if it is none of these and its descriptor or its data pass the end |
| KmsgLaws.BodyAnswer | ipc/ipc_kmsg.c:1328-1440 | what a body is refused for is what its first bad item is refused for |
| KmsgLaws.GoodBodyPasses | ipc/ipc_kmsg.c:1328-1440 | a body passes the type and length tests if and only if every item of it does |
| KmsgLaws.CopyInJudged | ipc/ipc_kmsg.c:1328-1570 | ipc_kmsg_copyin_body on a body of good items fails only for a right or for memory; on others it fails for what the first bad item is, or for a right or memory before that |
| KmsgLaws.NamesReceived | ipc/ipc_object.c:360-388 | the type the receiver sees: receive, send or send-once, by the name the sender gave |
| KmsgLaws.CarriesFrom | ipc/ipc_kmsg.c:1520-1568 | the message is complex afterwards if and only if an item has ports or is out of line |
| Bpf.Validate | device/net_io.c:1892-1963 | bpf_validate accepts exactly the programs whose every instruction is well formed, with one match instruction at most and a final RET, and reports where the match is |
| Bpf.Progress | device/net_io.c:1622-1879 | every step of an accepted program goes forward, stays in the code and never runs off its end; every length is at most wirelen |
| Bpf.BackJumps | device/net_io.c:1907-1916 | an accepted program fails to go forward at a step exactly at an unconditional jump with a negative displacement |
| BpfRuns.TurnStays | device/net_io.c:1903-1926 | one step of any accepted program: it leaves the code exactly at a jump to before the first instruction, never behind the last; it names a scratch word that does not exist exactly at STX or LDX with a large index; it goes forward and stays inside exactly otherwise, backward jumps excepted |
| BpfRuns.TameExactly | device/net_io.c:1903-1926 | for every accepted program: from every state every step goes forward and stays in the code, if and only if no unconditional jump is negative and no scratch index too large |
| BpfRuns.RunStays | device/net_io.c:1593-1879 | over every run of every accepted program, of any number of steps: it is in the code, or ended with at most wirelen, or is before the first instruction, or at such an index |
| BpfRuns.TameRuns | device/net_io.c:1593-1879 | a program that meets the condition ends within as many steps as are left of it, as the interpreter says |
| BpfRuns.EndedStays | device/net_io.c:1593-1879 | how a run ended does not depend on how many more steps it is allowed |
| BpfRuns.Interpret | device/net_io.c:1593-1879 | the loop of bpf_do_filter on every accepted program whose run ends, tame or not |
| BpfRuns.NeverEnds | device/net_io.c:1907-1916 | an accepted program, a jump to itself, that after any number of steps is where it was |
| BpfRuns.LeavesCode | device/net_io.c:1907-1916 | an accepted program whose first step goes to before the code |
| BpfRuns.StoresNowhere | device/net_io.c:1918-1926 | an accepted program whose first step names a scratch word that does not exist |
| Bpf.StepsBounded | device/net_io.c:1622-1879 | a run executes at most as many instructions as are left in the program |
| Bpf.DoFilter | device/net_io.c:1593-1879 | the interpreter loop computes the run, in at most len-1 steps, never reaching the end of the loop |
| Bpf.AndBits | device/net_io.c:1816-1818 | the bits of a conjunction, one by one |
| Bpf.OrBits | device/net_io.c:1820-1822 | the bits of a disjunction, one by one |
| BpfLaws.StepMeets | device/net_io.c:1622-1879 | every step meets the law of its instruction: loads are big-endian numbers of the packet's bytes, or reject; arithmetic is by congruence modulo 2^32, division by its bounds, logic and shifts by bits; JEQ, JGT, JGE and JSET by their comparison; a return gives at most the packet; any other code rejects |
| BpfLaws.LawDetermines | device/net_io.c:1622-1879 | for every instruction and state there is one step only that meets the law |
| BpfLaws.RunTraced | device/net_io.c:1593-1879 | a run is a chain of steps that meet their laws |
| BpfLaws.DoFilterTraced | device/net_io.c:1593-1879 | the interpreter loop goes through such a chain from cleared registers |
| BpfLaws.AcceptedExactly | device/net_io.c:1892-1963 | bpf_validate accepts a program if and only if it ends with a return, has at most one match, and every instruction meets the conditions on its jumps, scratch word, divisor and keys, in its own fields |
| BpfLaws.NoConstantZero | device/net_io.c:1844-1846 | no step of an accepted program divides by a constant zero, and its quotient is bounded as it should be |
| BpfLaws.FieldFilterMeans | device/net_io.c:1593-1879 | for every packet: a program with an indirect load behind the internet header, a shift, a mask and JGT accepts the packets in which those bits of that half-word are above the value |
| Bpf.TypeFilterMeans | device/net_io.c:1593-1879 | for every packet: the program that tests a half-word returns the length exactly if the packet has the value there |
| Bpf.SessionFilterMeans | device/net_io.c:1635-1653 | for every packet: the program that stores a word and matches searches for exactly that word |
| Bpf.CheckEqual | device/net_io.c:1965-1983 | bpf_eq decides equality up to keys |
| Bpf.EqualRuns | device/net_io.c:1593-1653 | programs that are equal up to keys end alike on every packet, with the same keys to search for |
| SessionTable.HashKeys | device/net_io.c:1985-1995 | bpf_hash, with its wrap-around, gives the sum of the keys modulo 256 |
| SessionTable.FindMatch | device/net_io.c:1998-2030 | the loops of bpf_match find the first entry of the bucket with the keys |
| SessionTable.MatchSearchesAll | device/net_io.c:1998-2030 | bpf_match succeeds if and only if some entry of the whole table has the keys |
| SessionTable.DecidedByPrograms | device/net_io.c:1635-1653 | a shared program finds a session if and only if it searches for the constants behind the match instruction of some session's own program, and it finds such a session |
| SessionTable.SharingPreservesMeaning | device/net_io.c:1333-1353 | the shared program selects a session, with a length, if and only if the session's own program run alone does and no earlier session of the bucket has the same keys |
| SessionTable.DistinctKeysShare | device/net_io.c:1593-1653 | with distinct keys, exactly when the session's own program run alone selects it with that length |
| SessionRing.Bucket.Append | device/net_io.c:1338-1345 | a new entry goes to the end of the ring: queue_init or enqueue_tail on the pointers |
| SessionRing.Bucket.Remove | device/net_io.c:2039-2075 | hash_ent_remove on the pointers: exactly that entry leaves the ring, which stays well formed, and is first on the dead list |
| SessionRing.Bucket.ScanTurn | device/net_io.c:1211-1233 | the test of the walk on the pointers goes on exactly if the entry was neither the last nor, if it went, the first |
| SessionRing.Bucket.Scan | device/net_io.c:1204-1233 | the walk round a ring leaves what `Scanned` says; every entry is in the ring or on the dead list, once |
| SessionRing.Bucket.Find | device/net_io.c:1998-2030 | the search round the ring finds the first entry with the keys |
| SessionRing.HashHeader.Insert | device/net_io.c:1333-1347 | with all rings of a header: an insertion is that of the specification, and rings stay apart |
| SessionRing.HashHeader.Remove | device/net_io.c:2039-2075 | the same for hash_ent_remove and its freeing of the header |
| SessionRing.HashHeader.Sweep | device/net_io.c:1199-1237 | the collection over all rings, with its early exit when the header is freed, leaves what `Swept` says |
| SessionRing.HashHeader.Find | device/net_io.c:1998-2030 | bpf_match on the rings finds what the specification finds |
| SessionRuns.OperateAll | device/net_io.c:1184-2075 | any sequence of insertions, removals and collections on a header: the rings are well formed, entries are in a ring or dead, never both, and the header is the fold of the specifications |
| SessionRuns.DidAllAtRest | device/net_io.c:1985-2075 | after any such sequence the count is the number of entries, the header is free if and only if it has none, and a search misses nothing |
| SessionInstall.ScannedAlive | device/net_io.c:1204-1233 | one collection removes all dead sessions of a bucket if and only if it is empty, its first session is alive, or no other is dead |
| SessionInstall.CleanableExactly | device/net_io.c:1204-1233 | so many collections do, if and only if fewer sessions than that are dead at the front, or none is dead behind that many |
| SessionInstall.SweptClean | device/net_io.c:1199-1237 | the same for all buckets of a header |
| SessionInstall.DeadSessionsGo | device/net_io.c:1184-1253 | the same for an installation: all dead sessions of a header go, if and only if its buckets are so for the number of times the walks along both lists come to it |
| SessionInstall.DeadSessionStays | device/net_io.c:1184-1353 | three installations after which a session is in the table whose port was gone when the last was made |
| SessionInstall.Sessions.Remove | device/net_io.c:2039-2075 | hash_ent_remove takes one entry out, keeps every header settled, and frees and delists the header exactly with its last entry |
| SessionInstall.Sessions.CheckList | device/net_io.c:1184-1253 | check_filter_list sweeps every header of the list once, chooses the first that fits, keeps that one, and delists exactly the headers it frees |
| SessionInstall.Sessions.Share | device/net_io.c:1255-1266 | both walks: the header chosen and the state of every header and list are those of the state before, although the first walk changes what the second meets |
| SessionInstall.Sessions.Install | device/net_io.c:1260-1353 | the whole new table and lists: every header collected as often as it is met, the session last in its bucket of the chosen header or of the first free one; every bucket, count and free slot is right again |
| SessionInstall.Sessions.SetSession | device/net_io.c:1140-1182 | a program is refused if and only if it is for no list or bpf_validate does not accept it, and then nothing changes; a session is made if and only if it has a match instruction; for a plain filter exactly the collection is done |
| SessionInstall.TableAtRest | device/net_io.c:1985-2075 | between operations the reference count is the number of entries, a slot is free if and only if it has none, and searching one bucket misses nothing |
| SessionInstall.FitsExactly | device/net_io.c:1190-1197 | a session can join a header if and only if that is in use with the same priority and the same instructions, keys apart |
| SessionInstall.ListsExactly | device/net_io.c:1142-1145 | bits 0 and 1 of the first word say which lists a program is for |
| Cspf.ParseFilter | device/net_io.c:1013-1099 | parse_net_filter accepts exactly the filters its step function walks through |
| Cspf.LockStepKept | device/net_io.c:900-1003 | an accepted instruction keeps the run-time stack index at the validator's plus the short-circuit operators executed, and fails neither below the stack nor outside the filter |
| Cspf.LockStepAlways | device/net_io.c:900-1003 | the same after every instruction of every run of every accepted filter |
| Cspf.RunStaysInside | device/net_io.c:874-1004 | a run of an accepted filter ends with an answer or by reading or writing above the stack, in no other way |
| Cspf.StepExactly | device/net_io.c:900-1003 | an accepted instruction reads and writes nothing above the stack, whatever is on the stack and in the packet, if and only if its arguments reach no higher or it always answers FALSE |
| Cspf.RoomyExactly | device/net_io.c:874-1004 | the same along a whole filter: at every place it comes to and in every such state it stays below the high end, if and only if its words alone show it |
| Cspf.GoesAbove | device/net_io.c:1069-1074 | an accepted filter that goes above the stack on every packet |
| Cspf.RoomyAnswers | device/net_io.c:874-1004 | an accepted filter that can be seen, from its words alone, to reach no higher than the stack answers on every packet |
| Cspf.DoFilter | device/net_io.c:874-1008 | the interpreter loop computes the run |
| Cspf.XorBits | device/net_io.c:952-954 | the bits of an exclusive or, one by one |
| CspfLaws.StepMeets | device/net_io.c:900-1003 | every step meets the law of its argument (which word of stack, packet, header or filter, or the answer FALSE) and of its operator: comparisons, bits, congruences modulo 2^32, a shift that copies the sign, and the four operators that end early |
| CspfLaws.LawDetermines | device/net_io.c:900-1003 | for every instruction and state there is one step only that meets the law |
| CspfLaws.RunTraced | device/net_io.c:874-1004 | a run is a chain of such steps |
| CspfLaws.DoFilterTraced | device/net_io.c:874-1008 | the interpreter loop goes through such a chain from the second word with TRUE on the stack |
| CspfLaws.ChainsDecide | device/net_io.c:967-1000 | for every list of tests of a word for a value and every packet: the CAND chain accepts if and only if all hold, the CNOR chain if and only if all words are there and none holds, and, with a zero pushed after them, the COR and CNAND chains if and only if some test holds, or fails, with all words up to it there |
| CspfLaws.ChainAccepted | device/net_io.c:1013-1099 | parse_net_filter accepts such a chain if and only if it has at most 29 tests |
| CspfLaws.AcceptedExactly | device/net_io.c:1013-1099 | parse_net_filter accepts a filter if and only if it can go through it by its conditions on each instruction |
| Cspf.WordFilterMeans | device/net_io.c:874-1004 | for every packet: the filter that compares a word with a literal accepts exactly the packets that have the word |
| NetFilter.DeliveredInOrder | device/net_io.c:726-848 | the packet goes to the live filters that want it, in list order, up to the first of high priority, as far as buffers reach |
| NetFilter.DeadExactly | device/net_io.c:754-786 | the filters set aside as dead are exactly those that the packet gets to, that want it, and whose port is gone |
| NetFilterPrograms.HeaderFoundDead | device/net_io.c:1631-1653 | a header of sessions that the packet gets to is found dead if and only if its search found a session to give some of the packet to and whose port is gone; a shared program that ends without a search does nothing |
| NetFilterPrograms.VerdictSensible | device/net_io.c:728-752 | no filter asks for more than the packet has, because the interpreters return at most what they were given |
| NetFilterPrograms.BytesGiven | device/net_io.c:731-752 | what a filter gets, by its interpreter's answer: a BPF program that returns n bytes gets n and the packet header, or nothing if n is 0; a session with the keys found the same; a filter of words that answers TRUE the whole packet |
| NetFilterPrograms.Judge | device/net_io.c:728-752 | the verdict of a program, of sessions that share one, or of a word filter, by the interpreters |
| NetFilterPrograms.FilterPacket | device/net_io.c:694-872 | net_filter with its interpreters: the packet goes where the programs on the list say |
| NetFilter.Pool.Get | device/net_io.c:144-196 | a free buffer first, then one from the low-priority queue |
| NetFilter.Pool.Put | device/net_io.c:198-210 | a buffer goes to the end of the free queue |
| NetFilter.Pool.Run | device/net_io.c:694-872 | the packet's buffer is the first message sent or back on the free queue, never both; each message has the prefix of the packet its filter asked for; messages beyond the first are the pool's buffers in order; exactly the dead filters met are set aside |
| DeviceTable.FindDevice | device/dev_lookup.c:97-110 | dev_number_lookup finds the first device of the bucket with the driver and unit |
| DeviceTable.Devices.LookFor | device/dev_lookup.c:117-150 | the first locked region of device_lookup |
| DeviceTable.Devices.LookForAgain | device/dev_lookup.c:138-189 | its last region: the new structure is entered, or discarded for one that appeared |
| DeviceTable.Devices.Refer | device/dev_lookup.c:194-200 | mach_device_reference |
| DeviceTable.Devices.Deallocate | device/dev_lookup.c:206-214 | the first phase of a release: a count that drops to zero is put back to one |
| DeviceTable.Devices.DeallocateLast | device/dev_lookup.c:214-230 | the second phase, which frees the device if nobody took a reference meanwhile |
| DeviceTableRuns.ApplyKeeps | device/dev_lookup.c:117-230 | every locked region of every operation keeps the invariant |
| DeviceTableRuns.CountsAlways | device/dev_lookup.c:206-230 | over every interleaving, the count of a listed device is its holders plus the threads between the two phases, at most one |
| DeviceTableRuns.OneDeviceEach | device/dev_lookup.c:117-189 | over every interleaving, at most one device per driver and unit is in the table |
| DeviceTableRuns.FreedUnused | device/dev_lookup.c:206-230 | over every interleaving, a step frees a device only if nobody holds it, and afterwards no bucket and no thread refers to it |
| DeviceTableLaws.LookupBegins | device/dev_lookup.c:130-149 | device_lookup references a device of the driver and unit if and only if there is one in the table, and else goes on to allocate |
| DeviceTableLaws.LookupNames | device/dev_lookup.c:117-189 | over every interleaving a thread that did not find its device gets, at the end of its lookup, one reference to a device of the driver and unit it asked for, which is in the table; no other device gets a user |
| DeviceOpen.NativeDevice.OpenRegion | device/ds_routines.c:529-571 | the locked region of device_open |
| DeviceOpen.NativeDevice.Settle | device/ds_routines.c:654-675 | leaving OPENING or CLOSING wakes the waiting threads |
| DeviceOpen.NativeDevice.CloseRegion | device/ds_routines.c:694-716 | the first locked region of device_close |
| DeviceOpen.ApplyKeeps | device/ds_routines.c:511-748 | every step of open and close keeps the invariant |
| DeviceOpen.OneAtATime | device/ds_routines.c:511-748 | over every run at most one thread is opening or closing the device |
| DeviceOpen.DriverAlternates | device/ds_routines.c:612-735 | over every run the driver's successful opens and its closes alternate |
| DeviceOpen.OpensCounted | device/ds_routines.c:544-566 | over every run open_count is the number of outstanding opens, at most one for an exclusive device |
| DeviceOpen.ConversionFindsPort | device/ds_routines.c:489-509 | over every run a client that was let in finds the device open, with its port |
| DeviceOpen.ReferencesReturned | device/ds_routines.c:511-748 | when all clients are idle again, every reference any path took was given back and the driver has the device closed |
| DeviceOpen.UnheardStaysOpen | device/ds_routines.c:673-687 | an open whose reply port was invalid is never closed: in every later state the device is open |
| DeviceOpen.RestExactly | device/ds_routines.c:511-748 | after every run, there are further steps that bring all clients to idle if and only if no open went without a reply |
| DeviceOpen.UnheardHappens | device/ds_routines.c:673-687 | a run that leads to such an open |
| DeviceOpen.SleepersHaveWaker | device/ds_routines.c:534-540 | over every run, while a thread sleeps another is opening or closing and the wait is marked |
| DeviceOpenLaws.EnterDecides | device/ds_routines.c:529-571 | after every run, by what the other clients are doing: device_open waits if and only if somebody opens or closes the device, is refused if and only if it is exclusive and somebody has it, joins if and only if somebody has one that is not exclusive, and starts to open it if and only if nobody has it |
| DeviceOpenLaws.CloseDecides | device/ds_routines.c:694-716 | after every run the close of the last open, and no other, starts to close the device |
| DeviceOpenLaws.SettleDecides | device/ds_routines.c:654-675 | after every run the end of an open or close wakes all who wait, and only a successful open leaves the device open |
| DeviceOpenLaws.GrantedExactly | device/ds_routines.c:544-566 | over every run a client's open begins to count if and only if it joins a device that is not exclusive or its own open succeeded, and ends to count if and only if it closes |
| MarequestSize.TableSize | ipc/ipc_marequest.c:97-122 | the loop finds the smallest power of two not below the size asked for |
| MarequestSize.HashMasks | ipc/ipc_marequest.c:70-73 | the masked sum of 32-bit numbers is the remainder of the sum modulo the table size |
| Marequest.Unlink | ipc/ipc_marequest.c:267-279 | the walk along a list takes out the first request for the space and name |
| Marequest.Requests.DoCreate | ipc/ipc_marequest.c:162-247 | ipc_marequest_create with its error returns |
| Marequest.Requests.DoCancel | ipc/ipc_marequest.c:258-283 | ipc_marequest_cancel |
| Marequest.Requests.DoRename | ipc/ipc_marequest.c:294-328 | ipc_marequest_rename |
| Marequest.Requests.DoDestroy | ipc/ipc_marequest.c:339-390 | ipc_marequest_destroy and its notification |
| MarequestRuns.Located | ipc/ipc_marequest.c:362-366 | the request found on the list is the one being destroyed, and only it is taken off |
| MarequestRuns.ApplyKeeps | ipc/ipc_marequest.c:162-390 | every operation, and the death of a space, keeps table, entries and notifications in agreement |
| MarequestRuns.MarksAgree | ipc/ipc_marequest.c:162-390 | over every run, in an active space an entry is marked if and only if exactly one request for it is on the list of its hash value |
| MarequestRuns.LinkedIffNamed | ipc/ipc_marequest.c:162-390 | over every run, a request is on a list if and only if its name is not null |
| MarequestRuns.CreateDecides | ipc/ipc_marequest.c:162-247 | over every run: which of its answers ipc_marequest_create gives, by memory, the space, the notify port and whether a request for the entry waits; a new request waits under its name and nothing else changes |
| MarequestRuns.OneNotification | ipc/ipc_marequest.c:339-390 | over every run: before its message is received or destroyed a request waits, with the name it has after all cancellations and renamings; afterwards it had exactly one notification, to its own right, with the null name if it was cancelled or the space died before, and else with the name of that time |
| Cirbuf.Ring.constructor | device/cirbuf.c:247-264 | a new buffer is empty, with room for size-1 characters |
| Cirbuf.Ring.Putc | device/cirbuf.c:81-101 | putc appends, or refuses exactly when size-1 characters are held |
| Cirbuf.Ring.Getc | device/cirbuf.c:106-127 | getc takes the first character, or returns -1 |
| Cirbuf.Ring.BToQ | device/cirbuf.c:169-203 | b_to_q equals putting one character after the other up to the first refusal, and returns how many were refused |
| Cirbuf.Ring.QToB | device/cirbuf.c:133-163 | q_to_b equals getting one character after the other up to the first that finds nothing |
| Cirbuf.Ring.Flush | device/cirbuf.c:208-232 | ndflush drops the same characters |
| Cirbuf.Ring.Clear | device/cirbuf.c:237-242 | cb_clear empties the buffer |
| Cirbuf.PutAllIs | device/cirbuf.c:169-203 | repeated puts append the longest prefix that fits, and the rest is the residual |
| Cirbuf.TakenIs | device/cirbuf.c:133-163 | repeated gets take the longest prefix asked for |

## Left out

- Bpf.Progress: assumes that no unconditional jump is negative and no scratch index too large (predicate `Tame`), which the validator does not establish; `BpfRuns.TameExactly` shows that it fails for exactly the other programs, whose runs are in `BpfRuns`.
- Bpf.StepsBounded: the same condition, without which a run need not end (`BpfRuns.NeverEnds`).
- Bpf.DoFilter: the condition of Bpf.Progress, `BpfRuns.Interpret` being the same loop without it; shift counts are taken modulo 32, as on x86; offsets are added without wrap-around, as in a 64-bit build; the contents of scratch memory at the start are a parameter.
- Bpf.Validate: a program has at least one instruction, the flag word; the sum of a place and a displacement is not cut to 32 bits, so that a displacement next to the largest int, for which the sum in C overflows, is refused here.
- Cspf.RoomyExactly: exact over all states at the places of the filter, not over the states that its own earlier instructions leave there.
- KmsgCopyin.Message.CopyInBody: lengths are naturals, the body is a sequence of 64-bit words that the methods replace (no aliasing between message and user memory), and the choice of copy strategy for out-of-line data is one non-deterministic call.
- KmsgCopyin.Message.Clean: what destroying a right leads to elsewhere is only modelled in `KmsgDestroy`, as the messages a message owns.
- SessionInstall.Sessions.Install: plain filters on the same lists, their removal, and the order of the lists by priority are not part of the table; headers are values here, and the pointers of one header, under any sequence of operations, are in `SessionRing` and `SessionRuns`.
- NetFilter.Pool.Run: a filter is what its program returns on the packet, as `NetFilterPrograms` computes it; filters are not reordered (`net_filter_queue_reorder` is 0), and freeing dead filters is left out.
- MarequestSize.HashMasks: names have no generation numbers, as in a build without PORT_GENERATIONS.
- MarequestRuns.MarksAgree: lists are sequences; which rights an entry has is left to the callers' tests, which are the conditions of the events.
- DeviceTableRuns.FreedUnused: addresses of freed structures are not reused in the model.
- NetFilterPrograms.FilterPacket: the programs are tame and the word filters keep to their stack; the packet is given as each interpreter sees it.
- DeviceOpen.ApplyKeeps: one device; clients close only what they opened, once.
- MessageQueueRuns.NoLostWakeup: the port is alive; port death and the path through `ipc_kobject_server` are left out, and `msg_usize` is `msgh_size`.
- `ipc_kmsg_copyin_header`, `ipc_kmsg_copyout_*` and `ipc_mqueue_copyin`: they rest on the rights of a space.
- Capabilities and name spaces (`ipc_right.c`, `ipc_entry.c`, `ipc_object.c`), virtual memory, scheduling and task management.
- The rest of `device/ds_routines.c`, the character and block drivers, and the second ring buffer `device/kmsg.c`.
- The debugger, the boot code and the machine-dependent directories.
