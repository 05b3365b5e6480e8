# A verified model of adb, fastboot, mkbootfs and the charger

The hard parts of this system are protocols: byte streams multiplexed over one transport with a
stop-and-wait credit, a pipe between two threads, an event loop whose callbacks change it, a file
transfer that has to stay in step, a download between a host and a device. The project models them and
proves what they promise for every run and every input.

Programs that change things in place are classes and methods with the loops of the original, each proved
against a function or a transition system on values; the properties are proved about those.

| files | what they model |
|---|---|
| Endpoint, Streams | one stream: two sockets, two channels, every partial write, end of file and error |
| Mux, Node | any number of streams over one transport, refined to single streams; the program that does it |
| BipBuffer, BipThreads | the Win32 socket pair: a two-region ring buffer as a FIFO, and its threads statement by statement |
| SocketTable, EventLoop | the heap of sockets with peer pointers, and the select loop |
| Hex, CpioFormat, Mkbootfs | the newc format with a reader of its own, and the archiver |
| Framing, SmartSocket | packets on a byte stream, and service requests in fragments |
| Sync, SyncFiles, SyncSession, SyncPrograms, SyncBroken | the file sync protocol, what it stores, whole sessions of it, both programs, and input that breaks off |
| TransportLife, Selection | threads, kicks and references of a transport, and how one is chosen |
| SparseWriter, Fastbootd, FastbootSession | the fastboot host's writer, the device, and both together |
| Charger | three deadlines and one loop |

Runs are lists of steps in any order: schedulers, descriptors, clocks, other threads and the other side
are free. Results of system calls are parameters.

Promises that hold only under a condition are stated with their exact condition:

- an end that closed because its peer did has written all that was sent when it is destroyed iff no end of file and no failing write came to it while it drained (`Streams.DrainExactly`);
- an archive is read back in full, by a reader of one archive, iff no member is named `TRAILER!!!` (`CpioFormat.RoundTrip`);
- the sync service is in step after an honest request iff it is not a link that cannot be made (`SyncSession.ServiceInStep`);
- the sync client is in step after a failure iff its text has at most 256 bytes (`SyncSession.ClientInStep`);
- a file stored with OKAY is the concatenation of what was sent iff no longer old file stayed under it (`SyncSession.OkayMeansStored`);
- what the client sends of a file is the file iff no local open or read fails (`SyncPrograms.SentWhole`);
- a transport is closed with both threads out iff no unregistration dropped a reference, and kicked by then iff nobody sits on the claim (`TransportLife.CloseExactly`);
- a pushed file is the local one iff the local one was read to its end, when no longer old file stays under it (`SyncPrograms.PushExactly`);
- a fastboot command gets one status iff it is known and is no download that breaks off (`Fastbootd.OneStatusExactly`);
- a fastboot download succeeds iff its size is accepted and the device can make its temporary file (`FastbootSession.DownloadCompletes`);
- the charger wakes up for a held key iff no stale key deadline is left (`Charger.KeyDeadlineExactly`);
- two ways to cut the bytes of a service request have the same outcome iff both or neither overflow the buffer, or the bytes are refused anyway (`SmartSocket.FragmentationIndependent`).

Where code and intent differ the model follows the code: fastbootd does not answer unknown commands,
because it acknowledges only a command in progress; and fdevent_set masks pending bits with the complement
of what is wanted.

## Model

| member | source | states |
|---|---|---|
| `Endpoint.DropBytes` | adb/sockets.c:272-300 | writing k bytes of a backlog leaves exactly the bytes after the first k, and no empty packet in front |
| `Streams.PayloadAppend` | adb/sockets.c:465-486 | the payload of a channel is that of its parts, in order |
| `Streams.CloseKeeps` | adb/sockets.c:227-261 | a live, linked end may close at any time: CLSE is said once and last, a backlog is kept to be drained, and the whole stream invariant holds again |
| `Streams.RecvKeeps` | adb/adb.c:580-613 | receiving any message, with any partial or failing write, keeps the stream invariant; a message to a socket no longer on the list is dropped |
| `Streams.WritableKeeps` | adb/sockets.c:272-317 | a writable event keeps the invariant whether it drains, blocks or breaks; the OKAY is sent only when the backlog is gone |
| `Streams.ReadableKeeps` | adb/sockets.c:320-379 | a readable event keeps the invariant, with data, with end of file, or both |
| `Streams.StepKeeps` | adb/sockets.c:130-379 | every step of either end keeps the invariant of the two ends and their two channels |
| `Streams.StreamConservation` | adb/sockets.c:130-379 | in every run, while the receiver is live, the bytes read from one descriptor = bytes written to the other ++ backlog ++ payload in flight, in order; always what was written is a prefix of what was read, of exactly as many bytes as the descriptor took |
| `Streams.ClosesExactly` | adb/sockets.c:227-379 | in every run an end has closed iff, while it was live, it met an end of file, a failing write or the CLSE of its peer |
| `Streams.OneCredit` | adb/sockets.c:311-317 | in every run each direction has exactly one credit among READ enabled, WRTE in flight, backlog and OKAY in flight while both ends are live, never more; so no receiver queues two packets |
| `Streams.GracefulClose` | adb/sockets.c:302-309 | in every run an end that closed because the other one did is destroyed with every byte written that was sent, exactly if nothing cut its draining short; each end says CLSE at most once |
| `Streams.DrainExactly` | adb/sockets.c:246-261 | once an end has closed because its peer did, every continuation that destroys it has written all that was ever sent iff no end of file and no failing write comes to it on the way |
| `Streams.EofLosesBacklog` | adb/sockets.c:374-377 | a run in which a READ that was pending finds an end of file on a closing socket: the backlog is dropped though no write fails |
| `Streams.InvHealthy` | adb/sockets.c:130-506 | the invariant implies conservation, credit bound, graceful close and single CLSE for both directions |
| `Streams.ClosedIsSilent` | adb/sockets.c:488-506 | in every run an end that has left the live phase sends nothing more |
| `Streams.CloseProgressFrom` | adb/sockets.c:227-261 | once an end has closed, every step that changes anything leaves strictly less work, whatever the descriptors do |
| `Streams.CloseTerminates` | adb/sockets.c:227-261 | the close exchange terminates: after a close no run can change the state more than Work(s) times |
| `Streams.CloseCompletes` | adb/adb.c:592-598 | a half-closed stream with empty channels and no backlog has both ends destroyed: no CLSE is lost |
| `Mux.WrapTo` | adb/sockets.c:465-506 | what a socket's remote half sends is addressed to its peer and to nobody else |
| `Mux.NetStepSimulates` | adb/adb.c:564-613 | one step of two nodes with any number of sockets is, for every connected pair, one step of its stream or none, and keeps the invariant |
| `Mux.MultiplexingIsTransparent` | adb/adb.c:564-613 | refinement: in every run, the view of each connected pair is a state that a single stream reaches by itself |
| `Mux.StreamsDoNotInterfere` | adb/sockets.c:62-97 | with streams opened, used and closed by both nodes in any order, each pair conserves its bytes, keeps its credit and closes with nothing lost unless the draining is cut short |
| `Mux.MatesAreUnique` | adb/sockets.c:89-97 | in every run a socket has at most one peer at the other node, and ids are positive and below the counter |
| `Mux.EventsFindTheirPeer` | adb/sockets.c:263-379 | in every run a socket with an enabled descriptor event is not destroyed, and if live it has its remote socket |
| `Mux.FirstBytesArrive` | adb/adb.c:564-613 | a run from two fresh nodes: one dials, the other accepts, and the first bytes read at one end are written at the other |
| `Mux.RefusedOrLost` | adb/adb.c:564-577 | a refused OPEN is answered with one CLSE to the socket that asked; a packet for a socket that is not there changes nothing |
| `AdbNode.Pushed` | adb/sockets.c:130-165 | a write loop over any script of results stops with all bytes written exactly when it reports so |
| `AdbNode.PushedExactly` | adb/sockets.c:147-160 | for any writes: done once they took everything; before that EAGAIN blocks, and a write of nothing, an error, or EINTR without a retry breaks, with exactly the bytes taken so far |
| `AdbNode.InterruptedWrite` | adb/sockets.c:276-293 | the loop that retries does not notice EINTR, wherever it comes |
| `AdbNode.PulledInOrder` | adb/sockets.c:327-343 | in whatever pieces reads return the bytes, they are collected in order up to the size of a packet, and an end of file is found iff nothing can be read for another reason than EAGAIN |
| `AdbNode.InterruptedRead` | adb/sockets.c:335-338 | an interrupted read is as if it had not happened |
| `AdbNode.Adb.WriteLoop` | adb/sockets.c:144-165 | the loop of local_socket_enqueue, where EINTR is an error |
| `AdbNode.Adb.DrainLoop` | adb/sockets.c:272-300 | the nested loops of the event function, where EINTR is retried: the remaining queue is the old one without the bytes written |
| `AdbNode.Adb.ReadLoop` | adb/sockets.c:320-350 | the read loop collects at most a packet and reports end of file exactly as the script does |
| `AdbNode.Adb.CloseSocket` | adb/sockets.c:227-261 | the in-place close is the Close of the stream model and sends its CLSE to the remote id |
| `AdbNode.Adb.EnqueuePacket` | adb/sockets.c:130-181 | the in-place enqueue is the Enqueue of the stream model; into an empty backlog its loop writes exactly what the results of the writes say |
| `AdbNode.Adb.HandlePacket` | adb/adb.c:564-613 | the in-place handle_packet is a step of the multiplexer, for every packet, known id or not; the bytes of a WRTE are written as the results of the writes say |
| `AdbNode.Adb.Connect` | adb/sockets.c:541-557 | a new socket and its OPEN are the dialling step of the multiplexer |
| `AdbNode.Adb.ServeWritable` | adb/sockets.c:272-317 | the FDE_WRITE half is an enabled Writable step of the multiplexer |
| `AdbNode.Adb.ServeReadable` | adb/sockets.c:320-379 | the FDE_READ half is an enabled Readable step of the multiplexer; without READ interest it only finds out about an end of file |
| `AdbNode.Adb.EventFunc` | adb/sockets.c:263-391 | a callback is exactly these steps in order: with the WRITE bit the drain of the backlog, as the writes go; then with the READ bit what the reads give, unless the drain blocked or closed the socket |
| `BipBuffer.Bip.Fill` | adb/sysdeps_win32.c:951-986 | the two copies append exactly min(len, free) bytes in order across the two regions; the region sizes the source asserts are positive |
| `BipBuffer.Bip.Write` | adb/sysdeps_win32.c:915-1002 | one passage through the critical section, room or not: contents = old contents ++ the bytes accepted; flags and events follow the contents; it has to wait iff the queue is full |
| `BipBuffer.Bip.TakeA` | adb/sysdeps_win32.c:1045-1076 | taking from region A gives a prefix of the contents; region B takes over when A is used up |
| `BipBuffer.Bip.Read` | adb/sysdeps_win32.c:1004-1095 | likewise: old contents = the bytes returned ++ contents, min(len, stored) of them; it has to wait iff the queue is empty |
| `BipBuffer.Bip.Close` | adb/sysdeps_win32.c:893-904 | closing signals both events and loses no contents |
| `BipThreads.StepKeeps` | adb/sysdeps_win32.c:915-1095 | every statement of writer, reader and closer keeps lock ownership, truthful flags, events that follow flags, and the contents |
| `BipThreads.FifoInEveryRun` | adb/sysdeps_win32.c:915-1095 | in every interleaving bytes accepted = bytes delivered ++ bytes stored, never more than the capacity |
| `BipThreads.WriteReturns` | adb/sysdeps_win32.c:915-1002 | in every run a write that has returned had at least one of its first bytes accepted, or none and the buffer is closed |
| `BipThreads.ReadReturns` | adb/sysdeps_win32.c:1004-1095 | in every run a read that has returned got between one byte and what it asked for, or none and the buffer is closed |
| `BipThreads.BlockedForAReason` | adb/sysdeps_win32.c:926-947 | no lost wake-up: a thread blocks only if the queue is full or empty, or the other side is about to wake it; never both at once |
| `BipThreads.EventsAgreeWithFlags` | adb/sysdeps_win32.c:984-995 | outside critical sections and before a close, event = flag = the queue's state, for both sides |
| `BipThreads.CloseWakesEveryone` | adb/sysdeps_win32.c:893-904 | after a finished close a waiting thread is free to go, or is freed by the very next statement of the other side |
| `BipThreads.CloserFinishes` | adb/sysdeps_win32.c:893-904 | the closer needs nobody: by itself it closes the buffer within five statements |
| `BipThreads.NobodyWaitsAfterClose` | adb/sysdeps_win32.c:1014-1041 | in a closed buffer a thread that is awake never waits again, in any continuation |
| `BipThreads.NoDeadlock` | adb/sysdeps_win32.c:926-947 | in every run some thread inside a call can move, unless the only one is waiting for an idle side |
| `BipThreads.WriterPass` | adb/sysdeps_win32.c:948-999 | refinement: while the writer holds the lock, one call of the ring buffer does to contents, flags and events exactly what the writer's statements do to the threads' queue |
| `BipThreads.ReaderPass` | adb/sysdeps_win32.c:1042-1092 | the same for the reader |
| `SocketTable.WithoutSplit` | adb/sockets.c:99-110 | unlinking removes exactly the one element from a list without repetition |
| `SocketTable.Table.FindLocalSocket` | adb/sockets.c:62-77 | finds the open socket with the id, if and only if there is one; a closing socket is never found |
| `SocketTable.Table.CreateLocalSocket` | adb/sockets.c:89-97 | a new socket gets a fresh positive id and goes to the end of the list |
| `SocketTable.Table.LinkRemoteSocket` | adb/sockets.c:522-557 | peer links are symmetric afterwards |
| `SocketTable.Table.RemoveSocket` | adb/sockets.c:99-110 | the socket is off both lists and its id is cleared exactly if it was on one |
| `SocketTable.Table.RetireSocket` | adb/sockets.c:199-261 | a socket with a backlog moves to the closing list with it, any other is freed; the heap invariant is kept |
| `SocketTable.Table.CloseSocket` | adb/sockets.c:227-261 | the recursive close terminates, cuts both peer links, closes a local peer too, tells a remote one exactly once; each of the two keeps its whole backlog on the closing list or is freed without one; the heap invariant holds |
| `SocketTable.Table.CloseAllSockets` | adb/sockets.c:112-128 | the restart loop terminates; the open sockets left are exactly those not bound to the transport, in order |
| `SocketTable.Table.Disconnect` | adb/sockets.c:508-520 | losing the transport closes the local peer, frees the remote socket and sends nothing; a peer with a backlog keeps all of it on the closing list |
| `EventLoop.Loop.InstallEvent` | adb/fdevent.c:593-609 | the table grows as needed, every other entry stays, fd < select_n; fails exactly for the descriptors the source aborts on |
| `EventLoop.Loop.SetEvents` | adb/fdevent.c:628-652 | bit sets follow the wanted bits; pending bits are masked as the source masks them; the list loses nobody else |
| `EventLoop.Loop.HighestUsed` | adb/fdevent.c:267-279 | the search for the new select_n skips no registered descriptor |
| `EventLoop.Loop.RemoveEvent` | adb/fdevent.c:611-625 | the event leaves table, bit sets and pending list, all others stay, and the loop invariant holds |
| `EventLoop.Loop.CheckFds` | adb/fdevent.c:305-321 | reports exactly the registered descriptors that are bad, and their number |
| `EventLoop.Loop.Process` | adb/fdevent.c:365-424 | every registered descriptor gets exactly the bits reported for it and is on the pending list if there are any, though the loop stops when the count is used up; if select found nothing or a bad descriptor, exactly the registered bad ones are reported readable |
| `EventLoop.Loop.Sweep` | adb/fdevent.c:404-423 | the counting loop stops early only when no reported bit is left |
| `EventLoop.Loop.TakePending` | adb/fdevent.c:474-515 | callbacks run in list order, with the bits collected, off the list and unmarked |
| `EventLoop.Loop.Perform` | adb/fdevent.c:593-652 | each thing a callback does has its effect: an install registers, a change sets the wanted bits, a removal leaves the descriptor unregistered and its event inactive, unlisted and logged; every other event stays active and pending with its bits |
| `EventLoop.Loop.Callback` | adb/fdevent.c:507-515 | a callback does all of its script; an event is active afterwards iff it was and the script does not remove its descriptor; every pending event whose descriptor no action names stays pending with its bits |
| `EventLoop.Loop.Drain` | adb/fdevent.c:681-695 | a turn empties the pending list; each event is called at most once, with its bits unless an earlier callback of the turn names it, and never if an earlier one removed it |
| `EventLoop.Loop.TakeTurn` | adb/fdevent.c:681-695 | a turn calls back only registered events with something to report, each at most once, none that an earlier callback removed; and each that no earlier one names, with what select reported and what was left from before |
| `EventLoop.Loop.RunLoop` | adb/fdevent.c:681-695 | every run is exactly select, then callbacks that each do their script, turn by turn; every turn serves what select reported of what the loop then waited for; after a callback removes a descriptor, nothing is called back for it unless it was installed again in between |
| `Hexadecimal.UnhexHex` | adb/adb_client.c:183-204 | parsing inverts printing with a fixed number of hexadecimal digits |
| `Hexadecimal.HexUnhex` | adb/sockets.c:581-609 | printing inverts parsing for every text without capital digits |
| `Hexadecimal.DigitsSpell` | adb/sockets.c:581-607 | digits are 0-9a-f, read in both cases |
| `Hexadecimal.HexDigitAt` | cpio/mkbootfs.c:101-119 | each digit is that of its power of sixteen, from the highest to the lowest |
| `CpioFormat.DecodeEjected` | cpio/mkbootfs.c:86-134 | a newc reader of its own takes back what _eject prints, at any offset, and stops right behind it |
| `CpioFormat.HeaderFields` | cpio/mkbootfs.c:101-119 | the header has the magic of newc, and inode, mode, link count, size and name length at the offsets of the format |
| `CpioFormat.RoundTrip` | cpio/mkbootfs.c:86-146 | a reader of one archive gets exactly the records written if and only if none is named like the trailer |
| `CpioFormat.TrailerNameHides` | cpio/mkbootfs.c:136-146 | for a reader of one archive, a file named TRAILER!!! hides everything after it |
| `Mkbootfs.BeforeTotal` | cpio/mkbootfs.c:150-152 | strcmp's order is total and strict |
| `Mkbootfs.BeforeExactly` | cpio/mkbootfs.c:150-152 | strcmp: the first bytes that differ decide, and a text comes before its extensions |
| `Mkbootfs.SortSorted` | cpio/mkbootfs.c:201-203 | the names are sorted and are the names read, none lost or repeated |
| `Mkbootfs.SortedUnique` | cpio/mkbootfs.c:201-203 | two sorted arrangements of distinct names are equal, so any sort gives this order |
| `Mkbootfs.ChosenMembers` | cpio/mkbootfs.c:176-181 | the entries kept are exactly those not starting with a dot and not named root |
| `Mkbootfs.WantedExactly` | cpio/mkbootfs.c:177-181 | left out are exactly the names with a leading dot and the name root |
| `Mkbootfs.ChosenIgnoresOrder` | cpio/mkbootfs.c:154-223 | the archive does not depend on the order in which readdir returns the names |
| `Mkbootfs.Archiver.Eject` | cpio/mkbootfs.c:86-134 | adds the newc member of the path in the buffer and counts the bytes right; the length check cannot fail |
| `Mkbootfs.Archiver.Extend` | cpio/mkbootfs.c:203-218 | the archive path becomes path / name in place, and its first part is untouched |
| `Mkbootfs.AppendName` | cpio/mkbootfs.c:203-208 | a slash and a name are put behind the path in a buffer, which then holds exactly that C string |
| `Mkbootfs.Archiver.ArchiveDir` | cpio/mkbootfs.c:154-223 | appends the listing of the directory found at the input path, in order, and restores both path buffers; dies exactly for unsupported entries |
| `Mkbootfs.Archiver.Archive` | cpio/mkbootfs.c:225-266 | appends the preorder listing of what is found at the input path, a header and then its children, with consecutive inode numbers; both path buffers are as before |
| `Mkbootfs.LeafIsListed` | cpio/mkbootfs.c:235-262 | a file is archived with its contents, a link with its target, of which at most 1024 bytes fit |
| `Mkbootfs.SmallTree` | cpio/mkbootfs.c:202-220 | the listing of a small tree, record by record: sorted, preorder, with paths and inode numbers |
| `Mkbootfs.Archiver.EjectTrailer` | cpio/mkbootfs.c:136-146 | the trailer follows all members and the length becomes a multiple of 256 |
| `Mkbootfs.Archiver.Run` | cpio/mkbootfs.c:323-352 | for every file system and list of directories the output decodes to the listing of all their trees in order; dies exactly if one is no directory or holds an unsupported entry |
| `Framing.ReadWritten` | adb/transport_local.c:58-105 | reading a framed packet gives it back and leaves what follows; the checks pass and the byte sum does not overflow |
| `Framing.WrittenRead` | adb/transport.c:1200-1232 | whatever passes header and checksum tests is the frame of the packet read: nothing else is accepted |
| `Framing.MagicFlips` | adb/transport.c:223 | the magic is the command with every bit flipped |
| `Framing.SumAppend` | adb/transport.c:225-231 | the check is the sum of the bytes |
| `Framing.HeaderWords` | adb/adb.h:50-58 | the six words of the header are in the order of struct amessage |
| `Framing.ReadFramesFrames` | adb/transport.c:217-245 | any list of packets, written one after the other, is read back as the same list |
| `Framing.Pipe.Readx` | adb/transport.c:1140-1170 | reads exactly len bytes in any pieces, or fails because the transport did or too little was there |
| `Framing.Pipe.Writex` | adb/transport.c:1172-1198 | appends all the bytes, or a prefix of them and fails |
| `Framing.Pipe.Send` | adb/transport_local.c:89-105 | sends the frame of the packet |
| `Framing.Pipe.Receive` | adb/transport_local.c:58-87 | returns what the reference reader finds and consumes just that |
| `SmartSocket.JudgeRequest` | adb/adb_client.c:183-204 | a client's request is dispatched with its service whatever follows, and every proper part of it is waited for |
| `SmartSocket.JudgeExactly` | adb/sockets.c:684-700 | the socket gives up iff four bytes are there that are no number from 1 to 1024, and waits iff bytes are missing |
| `SmartSocket.FeedJudges` | adb/sockets.c:655-702 | feeding fragments gives the judgement of their concatenation, except that an overflow fails |
| `SmartSocket.FragmentationIndependent` | adb/sockets.c:655-702 | two cuts of the same bytes have the same outcome if and only if both or neither overflow, or the bytes are refused anyway |
| `SmartSocket.SmallNeverOverflows` | adb/sockets.c:667-671 | what fits in one packet never overflows |
| `SmartSocket.OverflowMatters` | adb/sockets.c:667-671 | a concrete stream whose outcome depends on the cut |
| `SmartSocket.RequestDispatchedOnLast` | adb/sockets.c:655-702 | a request in any fragments is dispatched exactly once, on the last of them |
| `SmartSocket.Smart.UnhexLoop` | adb/sockets.c:581-609 | the shifting loop is the hexadecimal value modulo 2^32, or all ones for a bad digit |
| `SmartSocket.Smart.Enqueue` | adb/sockets.c:655-702 | one call buffers the packet and judges, or fails on overflow |
| `SmartSocket.Collect` | adb/sockets.c:655-702 | a fresh smart socket fed fragment by fragment acts as the reference says |
| `Sync.GatherDataMsgs` | adb/file_sync_service.c:151-224 | DATA* DONE is read back as the same chunks, and reading stops right behind DONE |
| `Sync.IdsSpell` | adb/file_sync_service.h:37-47 | the ids spell their names on the wire |
| `Sync.StrtoulDecimal` | adb/file_sync_client.c:297-330 | the mode printed in decimal is parsed back |
| `Sync.StrtoulSpells` | adb/file_sync_service.c:282-296 | octal and hexadecimal prefixes, and what ends a number |
| `Sync.SplitName` | adb/file_sync_service.c:276-317 | path,mode splits back into path and mode, commas in the path or not |
| `SyncFiles.StoreExactly` | adb/file_sync_service.c:151-224 | what a SEND leaves behind in every case: OKAY iff the file could be opened and written; then it is the concatenation iff there was no old file, or it was unlinked, or it was not longer; after a failure nothing is left iff the unlink that mattered succeeded; other files are untouched |
| `SyncFiles.OldTailStays` | adb/file_sync_service.c:162-163 | a longer file that cannot be unlinked is reopened without truncation and keeps its tail under an OKAY |
| `SyncFiles.ReadExactly` | adb/file_sync_service.c:331-345 | what was read is a prefix of the file, and all of it iff no read failed before its end, in whatever sizes reads return |
| `SyncSession.ServiceInStep` | adb/file_sync_service.c:359-414 | after any honest request the service has consumed exactly it, changed the files as stated and given exactly one answer, unless a link cannot be made: then, and only then, it says why and hangs up |
| `SyncSession.LinkHangsUp` | adb/file_sync_service.c:249-257 | a request for a link that cannot be made: the service says why and hangs up |
| `SyncSession.LinkIsMade` | adb/file_sync_service.c:227-272 | a link that can be made gets exactly the target that was sent, and OKAY |
| `SyncSession.NoTargetHangsUp` | adb/file_sync_service.c:236-239 | a link request without a target is refused with the reason, and the session ends |
| `SyncSession.QuitEnds` | adb/file_sync_service.c:402-410 | QUIT ends the session without a word; an unknown id is reported first |
| `SyncSession.ServeFileAsked` | adb/file_sync_service.c:151-224 | a SEND ends with the files and the one status that storing its chunks gives, and reads all of the chunks even after a failure |
| `SyncSession.ClientInStep` | adb/file_sync_client.c:441-528 | the client understands every answer, and is in step behind it if and only if it was no failure or its text has at most 256 bytes |
| `SyncSession.LongTextIsLeft` | adb/file_sync_client.c:511-528 | a failure text of 300 bytes, of which 44 are left to be taken for the next answer |
| `SyncSession.ServiceStaysInStep` | adb/file_sync_service.c:359-414 | for any sequence of requests, in any chunking and with any failure texts, the service is at a request boundary after each and at the end |
| `SyncSession.ClientStaysInStep` | adb/file_sync_client.c:151-183 | for any sequence the client reads its results in order with nothing left over |
| `SyncSession.OkayMeansStored` | adb/file_sync_service.c:151-224 | a SEND gets exactly one status, which the client hears: OKAY iff opened and written; the stored file is then the concatenation of the chunks iff no longer old file stayed under it |
| `SyncSession.PushThenPull` | adb/file_sync_service.c:319-357 | a file pushed with OKAY is pulled back, in whatever pieces each way, and is equal iff no longer old file stayed under it |
| `SyncSession.LongNameHangsUp` | adb/file_sync_service.c:375-379 | a name longer than 1024 with its mode appended is answered with a complaint and the end of the session; any other is looked at |
| `SyncPrograms.Service.ReceiveFile` | adb/file_sync_service.c:151-224 | open, the loop and its failures: the loop consumes up to DONE even after a failed open or write, says FAIL once, and leaves the files that storing the chunks gives; a client that breaks off gets the right last words |
| `SyncPrograms.Service.SendPieces` | adb/file_sync_service.c:319-357 | sends what is read of the file, read by read, and DONE or FAIL at the end |
| `SyncPrograms.Service.Round` | adb/file_sync_service.c:359-414 | one round of the service is the reference round: same consumption, files, answer and last words |
| `SyncPrograms.Client.WriteDataBuffer` | adb/file_sync_client.c:247-270 | the chunking loop sends the data as chunks of at most 64 KiB that concatenate to it |
| `SyncPrograms.SentWhole` | adb/file_sync_client.c:208-245 | what is sent for a file is the file iff it could be opened and read to its end, or is empty: a local error truncates the copy and the status does not tell |
| `SyncPrograms.KindOfMode` | adb/file_sync_client.c:382-389 | a mode is a file's or a link's iff its four format bits say so |
| `SyncPrograms.ReadErrorTruncates` | adb/file_sync_client.c:225-232 | a read that fails after the first piece: one of two bytes is sent, and DONE |
| `SyncPrograms.PushExactly` | adb/file_sync_client.c:297-420 | a push from end to end: OKAY is heard iff the service could open the file and write all it was sent; then the remote file is the local one iff that was read to its end, given that no longer old file stays under it, and conversely |
| `SyncPrograms.PushLinkExactly` | adb/file_sync_client.c:272-295 | a push of a link from end to end: the remote link has the local target, cut to what fits a message, and OKAY is heard; if the target cannot be read the service refuses |
| `SyncPrograms.PullExactly` | adb/file_sync_client.c:441-528 | a pull from end to end: the client hears exactly the contents of the file, and the local calls suffice iff the file can be created and no write of a piece fails |
| `SyncPrograms.Client.SyncSend` | adb/file_sync_client.c:297-420 | from a buffer, a file or a link: the client writes the request of the protocol for the chunks it got hold of and then hears what the reference client hears; it gives up exactly for a long path or another kind of file |
| `SyncPrograms.Client.SyncRecv` | adb/file_sync_client.c:441-528 | hears what the reference client hears unless a local create or write fails; the local file is then what was pulled, and gone after a failure |
| `SyncBroken.BrokenPush` | adb/file_sync_service.c:168-223 | a push that breaks off after any chunks, in a header, in a chunk or with a wrong message, ends the session with the right last words, and what was stored is unlinked |
| `SyncBroken.BrokenLink` | adb/file_sync_service.c:233-247 | a link request that breaks off before its target makes nothing and ends the session with the right words |
| `SyncBroken.UnfinishedLink` | adb/file_sync_service.c:259-270 | one that breaks off behind its target has made the link, and ends the session |
| `SyncBroken.ShortRequest` | adb/file_sync_service.c:371-388 | requests that are too short are refused with the reason |
| `SyncBroken.ShortAnswer` | adb/file_sync_client.c:396-418 | what the client makes of answers that are too short or of another kind |
| `SyncBroken.PullFails` | adb/file_sync_service.c:319-357 | a pull of a file that is missing, cannot be opened or cannot be read to its end is heard to fail, with the first 256 bytes of the reason |
| `TransportLife.RefStep` | adb/transport.c:70-86 | every statement of both pump threads, the main loop, an unregistration and the sweeps keeps: references = 2 - parties that left, kicks made and claimed = the kicked flag, closed iff two have left |
| `TransportLife.KickedOnceClosedOnce` | adb/transport.c:712-735 | in every interleaving, unregistered or not, kick, close and remove are called at most once; close and remove exactly when two of the three parties have left |
| `TransportLife.OwnersCloseInOrder` | adb/transport.c:260-364 | as long as nobody unregisters the transport, it is closed and removed exactly when both threads have left, and always kicked before |
| `TransportLife.CloseExactly` | adb/transport.c:1063-1095 | at the step that closes it, a thread is still inside iff the unregistration has left, and the kick is still to come iff a party sits on the claim |
| `TransportLife.LateKick` | adb/transport.c:1063-1072 | a run with an unregistration in which the close comes before the kick, with the input thread inside |
| `TransportLife.SweepExactly` | adb/transport.c:985-1096 | the sweeps claim the kick, making it once; the one that unregisters drops a reference as well |
| `TransportLife.HandStep` | adb/adb.c:512-521 | every step keeps: behind each echoed SYNC is its CNXN, and nothing has been sent before it |
| `TransportLife.ConnectComesFirst` | adb/transport.c:260-364 | on the host, whatever else is sent and when, and whatever the remote sends, SYNC included, the first packet to reach the remote is the CNXN behind the echoed SYNC |
| `TransportLife.WireExactly` | adb/transport.c:262-353 | in every run the remote gets exactly the packets other than SYNC that the input thread took after the first SYNC with the token current at that moment, in order; it takes exactly what it was given, and the main loop handles exactly what the output thread read and said |
| `TransportLife.HostComesOnline` | adb/transport.c:336-347 | a run in which the SYNC goes round and the CNXN behind it is written |
| `TransportLife.LeaveExactly` | adb/transport.c:262-364 | in every run each thread has left its loop iff it met one of its causes |
| `SparseWriter.Writer.Write` | fastboot/protocol.c:226-274 | bytes transferred ++ bytes held = all bytes given; at most 512 held; transfers are positive multiples of 512; neither internal error occurs |
| `SparseWriter.Writer.Flush` | fastboot/protocol.c:276-289 | after the flush everything given has been transferred, in at most one more transfer |
| `SparseWriter.Download` | fastboot/protocol.c:291-314 | for every sequence of pieces the transfers concatenate to them, all but the last in whole blocks |
| `Fastbootd.StrtoulHex` | fastbootd/commands.c:166-173 | the length printed by the host is the one the device parses |
| `Fastbootd.StrtoulOthers` | fastbootd/commands.c:168 | strtoul also takes a 0x prefix, stops at what is no digit, and saturates |
| `Fastbootd.GotInOrder` | fastbootd/transport.c:66-76 | what the device gets is a prefix of what was sent, in whatever pieces it comes |
| `Fastbootd.GotExactly` | fastbootd/transport.c:61-76 | the device gets all of a download exactly if enough bytes come before a read fails |
| `Fastbootd.OneStatusExactly` | fastbootd/protocol.c:151-168 | the host gets exactly one OKAY or FAIL iff the command is known and is no accepted download that breaks off; otherwise it gets none |
| `Fastbootd.AnswersExactly` | fastbootd/commands.c:40-164 | what getvar, continue, flash, erase and boot are answered |
| `Fastbootd.UnknownExactly` | fastbootd/commands.c:195-206 | a command is unknown iff it starts with none of the registered words |
| `Fastbootd.ShortDownload` | fastbootd/transport.c:79-82 | four bytes announced, two sent: DATA is said and nothing after it, because the transport is closed first |
| `Fastbootd.Protocol.Publish` | fastbootd/protocol.c:77-87 | afterwards the name has this value and every other name the one it had |
| `Fastbootd.Protocol.GetValue` | fastbootd/protocol.c:89-100 | the newest value published under the name, or nothing |
| `Fastbootd.Protocol.Ack` | fastbootd/protocol.c:113-128 | only a command in progress is acknowledged, and then no longer in progress |
| `Fastbootd.Protocol.ReceiveData` | fastbootd/transport.c:40-83 | the loop returns exactly len bytes in order, or a read failed before that and the transport is closed; without a temporary file nothing is read and the transport stays open |
| `Fastbootd.Protocol.HandleCommand` | fastbootd/protocol.c:151-168 | the in-place handlers say, keep and close what the reference says, for every command, a download whose temporary file cannot be made included |
| `Fastbootd.Protocol.ServeCommands` | fastbootd/transport.c:85-110 | in every session there are as many OKAY and FAIL responses as known commands, less one for a download that breaks off, which ends the session |
| `FastbootSession.Host.CheckResponse` | fastboot/protocol.c:50-107 | skips INFO and gives the verdict of the first other response |
| `FastbootSession.CheckExactly` | fastboot/protocol.c:69-100 | which responses are passed over, and exactly which are good |
| `FastbootSession.InfoIsSkipped` | fastboot/protocol.c:69-72 | INFO responses make no difference |
| `FastbootSession.CommandSpells` | fastboot/protocol.c:212 | the command and the invitation as they go over the wire |
| `FastbootSession.Host.DownloadData` | fastboot/protocol.c:109-220 | the data follow the command exactly when the device invited them and their length is positive as an int; success exactly when both answers were good too |
| `FastbootSession.StepKeeps` | fastboot/protocol.c:162-187 | every step of host or device, the device reading in pieces of any size, keeps the session invariant and leaves less to do |
| `FastbootSession.DownloadIsExact` | fastboot/protocol.c:207-220 | in every run success means that the device holds exactly the data after one DATA and one OKAY; more than 256 MiB get one FAIL and no data is sent; any other download fails only if the device cannot make its file, and then after DATA and FAIL |
| `FastbootSession.DownloadCompletes` | fastbootd/commands.c:166-193 | every run ends, in success iff 0 < size <= 256 MiB and the device can make its file |
| `FastbootSession.NoFileFails` | fastbootd/transport.c:49-51 | a run with a device that cannot make its file: the data are sent and the host reports failure |
| `FastbootSession.DeviceRefines` | fastbootd/commands.c:166-193 | refinement: the device's steps of a download, in any pieces, say and keep what its program does with those pieces |
| `FastbootSession.DeviceRefinesOthers` | fastbootd/protocol.c:151-168 | refinement: any other command, a refused or impossible download included, is answered by one step with what the program says and keeps |
| `FastbootSession.HostRefines` | fastboot/protocol.c:162-220 | refinement: on any responses the host's steps send and conclude what its program does |
| `Charger.AnimationEnds` | charger/charger.c:692-777 | in every run an animation makes no more updates than its cycles have frames, whatever the capacity does |
| `Charger.ScreenKeeps` | charger/charger.c:692-777 | frame indices stay in range; an update that is due decreases (cycles, frames) lexicographically or ends the animation and clears its deadline |
| `Charger.LevelIsFound` | charger/charger.c:722-734 | the frame a cycle starts with is the one whose range holds the capacity |
| `Charger.ScreenDraws` | charger/charger.c:692-790 | what an update draws and for how long: a cycle starts with the frame for the capacity, the higher frames follow in order without those for their level only, then a new cycle begins |
| `Charger.UnknownIsDrawn` | charger/charger.c:744-752 | without frames or a capacity the unknown battery is drawn and counts as a cycle; the capacity is kept for a cycle |
| `Charger.AnimationStarts` | charger/charger.c:845-893 | an animation starts iff the key is let go or a supply comes back while the shutdown timer runs |
| `Charger.EffectsExactly` | charger/charger.c:692-893 | exactly when the screen is blanked and lit, and when the device may suspend or must not |
| `Charger.PowersOffExactly` | charger/charger.c:866-888 | in every run the device is powered off in an iteration if and only if all iterations of at least the last ten seconds saw no supply |
| `Charger.RebootsExactly` | charger/charger.c:829-856 | in every run it reboots in an iteration if and only if the key has been down without a release since a press two seconds ago |
| `Charger.DeadlinesAreSet` | charger/charger.c:931-949 | when the loop sleeps the screen deadline is set iff an animation is on, and the power deadline iff no supply is online |
| `Charger.TopInEveryRun` | charger/charger.c:931-949 | every iteration of every run with a clock that does not run backwards starts with deadlines at most ten seconds ahead |
| `Charger.SleepIsSound` | charger/charger.c:890-916 | a sleep that ends at the first deadline never goes past an animation that is on or a shutdown that is coming, and is endless only if there is neither |
| `Charger.KeyDeadlineExactly` | charger/charger.c:819-864 | for a held key the loop will wake up in time if and only if the deadline it found was unset or not past |
| `Charger.KeyDeadlineLost` | charger/charger.c:819-864 | a run that goes to sleep with the key held and no deadline for it |
| `Charger.Device.UpdateScreenState` | charger/charger.c:692-777 | the in-place update with its two loops is the reference step, with the same drawing |
| `Charger.Device.WaitNextEvent` | charger/charger.c:890-916 | the timeout ends at the earliest deadline that is set, is zero if one is past, and endless iff none is set; it is at most ten seconds |
| `Charger.Device.EventLoop` | charger/charger.c:931-949 | in every run on a clock that does not run backwards the loop's state is that of the reference run, and every sleep ends in time for what is pending |
| `Selection.QualMatch` | adb/transport.c:765-792 | true if and only if the text is the prefix and the cleaned qualifier, or both are empty |
| `Selection.InvalidExactly` | adb/transport.c:754-763 | exactly the ASCII letters and digits stay |
| `Selection.AddQual` | adb/transport.c:910-931 | the buffer gets the prefix and the cleaned qualifier behind what was there |
| `Selection.Scan` | adb/transport.c:804-858 | finds the only usable match, or says exactly why there is none |
| `Selection.PickOne` | adb/transport.c:794-892 | finds a transport if and only if it is the only usable match, neither offline nor unauthorized, and in the required state; every error has its own exact cause |
| `Selection.PickedIsUnique` | adb/transport.c:794-892 | these causes exclude each other |
| `Selection.PrintedSelects` | adb/transport.c:933-959 | a qualifier as a long listing prints it selects its own transport when no other usable one goes by it |
| `Selection.NamedExactly` | adb/transport.c:811-818 | who goes by a text: the one with that serial number, or with it in its line of a listing, or with an empty qualifier of that name |
| `Selection.NamedEmpty` | adb/transport.c:765-775 | the empty text goes by whoever lacks a qualifier or has an empty one |
| `Selection.SerialSelects` | adb/transport.c:811-827 | asking for a serial number yields its transport when no other usable one goes by it |
| `Selection.KindSelects` | adb/transport.c:828-858 | asking for a kind yields the only usable transport of that kind |
| `Selection.HostKindFindsNone` | adb/transport.c:828-858 | nothing is of the host's kind |
| `Selection.AcquireOneTransport` | adb/transport.c:880-892 | asking again: the outcome is that of the first pass that settles |
| `Selection.SettlesExactly` | adb/transport.c:882-889 | without a required state the first pass decides; with one, a failure is final only if a kind alone was ambiguous |

## Left out

- Closing a socket before its first OKAY: the source then has no peer to tell; close properties are for established streams.
- READ events that bring data to a live socket while its READ bit is off: select does not report them, and only the socket's own callback clears the bit; an end of file may be found at any time.
- Streams whose both ends are local sockets, jdwp and device-tracker sockets, and the shutdown of a peer through notify sockets.
- Wrap-around of socket ids at 2^32: fewer sockets than that are assumed in a run.
- A packet that is dropped while a transport goes offline: SocketTable models the teardown, the streams assume that the transport stays.
- Intrusive list pointers: the lists of sockets, pending events and transports are sequences; peer pointers are real.
- The subprocess events of fdevent.c, closing of descriptors by fdevent_remove, and descriptors that select reports without being asked.
- Failure of WaitForSingleObject; the copy and the clearing of can_write are one step, both being under the lock.
- mkbootfs's canned file configuration (fix_stat is a parameter of the model), I/O errors, paths longer than its buffers, and file systems that change while they are archived.
- LIST in the sync protocol, files read or written through a link that is already there, permission bits, modification times, apk checks, and blanks, signs or overflow in its strtoul.
- What a party does with a transport that was closed and freed while it was inside; authentication.
- Fastboot commands with a NUL inside, blanks and signs in its strtoul, handlers that are compiled out, endpoints reopened while a broken download is still being reported, and USB errors on the host.
- EventLoop.Loop.InstallEvent: does not model a descriptor that is registered already; its callers pass one that was just opened.
- Selection.AddQual: does not model a buffer that is too short; the code relies on the text fitting.
- Archives in sequence, which the initramfs buffer format allows: the reader of the model is that of one archive, and does not go on behind a trailer.
- Charger: how the number of supplies online is counted from uevents; it is an input. Drawing is a log of calls.
- Real I/O, USB back ends, RSA keys, debuggerd, gpttool, option and configuration parsing: easy members or calls into other code.
