# Verified models of the 4.4BSD-Lite2 kernel

This project models the parts of the 4.4BSD-Lite2 kernel whose correctness depends on long arguments
about state, and proves those arguments in Dafny. Each module follows one mechanism:

- `UnixRights`, `UnixGc`, `UnixSleep`: file descriptors in flight in Unix-domain messages, the
  mark-and-sweep collector that closes those nobody can receive any more, and what happens when it sleeps
  halfway.
- `LockMgr`, `LockOutcome`, `LockWakeups`: the shared/exclusive/upgrade/drain lock, as a transition
  system whose steps are the stretches between two sleeps; what every request comes to; who is woken, and
  which steps leave behind a sleeper that could go on.
- `Select`: how a process in `select` and the interrupts that make descriptors ready avoid a lost wakeup.
- `Mbuf`, `MbufOps`: mbuf chains as sequences of bytes, with cluster references.
- `SockBuf`, `SockList`: socket buffers as queues of bytes and records, and the mbufs linked through
  m_next and m_nextpkt that hold them.
- `CdMap`, `CdDisk`: the concatenated disk, its interleave table, address translation and completion.
- `Callout`, `CalloutList`: the delta-encoded timeout queue against absolute deadlines, and the slots
  linked through c_next that hold it.
- `JobControl`: the counts by which process groups are found to be orphaned.
- `NameCache`: the name cache against a map.
- `UnixStream`, `UnixConn`: flow control and connections of Unix-domain sockets.
- `FileDesc`, `PidAlloc`, `Signals`: descriptor tables, process IDs, signal state.

Callout slots and the mbufs of socket buffers are objects linked on the heap. Elsewhere pointers are
numbers of entries in a table and linked lists are sequences. Integers are unbounded. `Common` holds
what several modules share.
Code that changes state in place is a class whose methods are proved against functions on values, and
runs are sequences of events over those functions. What other processes or interrupts may do at a
point is an event that may happen there.

Where the code does not do what its comments or its purpose suggest, the code is followed:

- `unp_gc` casts the data of every swept file to a socket (sys/kern/uipc_usrreq.c:774). A vnode whose
  only reference is in flight in a cycle is swept too; `Gc` says exactly when the cast happens, and
  nothing about what follows it.
- `unp_gc` may sleep for memory between marking and sweeping (sys/kern/uipc_usrreq.c:761). A file opened,
  sent and closed meanwhile is swept although it can still be received; `SleepExact` says exactly when.
- The second wait for an exclusive lock tests only the share count (sys/kern/kern_lock.c:336-337). A
  woken waiter can find that an upgrader got in first, and panics; `ResumeKeeps` says exactly when.
- `LK_NOWAIT` does not keep an upgrade from sleeping when exactly one other share is held, because the
  count is looked at after the caller's own share has been dropped (sys/kern/kern_lock.c:270-276).
- A refused `LK_EXCLUPGRADE` or `LK_NOWAIT` upgrade drops its share without a wakeup, and a sleeping
  upgrade or exclusive request that is interrupted gives up its claim without one
  (sys/kern/kern_lock.c:255-304, 311-337). Those whom only that kept asleep stay asleep; `StepWakes` says
  exactly when.
- `m_copym` takes the packet length from the length asked for unless that is M_COPYALL itself, although a
  longer one can also mean everything (sys/kern/uipc_mbuf.c:286-296); `Copym` says exactly when the header
  is wrong.
- A concatenated-disk request of zero bytes is never completed, and a negative block number is not
  refused (sys/dev/cd.c:441-456, 491-499).
- `m_split` leaves the length of its new first mbuf unset in one case, and does not put the packet
  length back when the inner split fails (sys/kern/uipc_mbuf.c:545-561).
- The storage a stream may take is not looked at for each chunk, so the storage limit can go below zero
  (sys/kern/uipc_socket.c:399-424); `StorageOvercommits` says when and `StorageBounded` how far.
- `fdavail` counts free slots above a limit that has been lowered (sys/kern/kern_descrip.c:571-578).
- `exit1` gives children to init without counting them for their groups (sys/kern/kern_exit.c:179-216).

## Model

| member | source | states |
|---|---|---|
| UnixGc.FileTable.MarkPhase | sys/kern/uipc_usrreq.c:681-721 | the mark loop ends, with FMARK on exactly the files reachable from those held outside any queue, through rights queued on sockets, and nothing deferred |
| UnixGc.FileTable.MarkPass | sys/kern/uipc_usrreq.c:684-720 | a pass marks every root, marks nothing unreachable, and leaves only newly marked files deferred, which is why the passes end |
| UnixGc.FileTable.UnpScan | sys/kern/uipc_usrreq.c:790-818 | for each queued record, in its place, visits the files of its first rights message wherever in the record that stands, in order, and nothing for a record without one |
| UnixRights.FirstRightsFound | sys/kern/uipc_usrreq.c:802-815 | what is visited in a record are the files of the first message that is SCM_RIGHTS, and no files if there is none |
| UnixGc.FileTable.UnpMark | sys/kern/uipc_usrreq.c:820-829 | marks and defers a file once only, and counts the deferral |
| UnixGc.FileTable.Gc | sys/kern/uipc_usrreq.c:669-779 | the bad cast happens if and only if an unreachable file is no socket, and nothing is claimed after it; otherwise, garbage sockets of other domains included, everything open is then reachable or held by a flush under way, reachable files keep their messages and references, and all counts stay exact |
| UnixGc.FileTable.TakeExtra | sys/kern/uipc_usrreq.c:762-772 | the extra references go to exactly the unreachable files, once each |
| UnixGc.FileTable.CountExtra | sys/kern/uipc_usrreq.c:762-772 | the loop takes an extra reference to exactly the files its test picks, and lists each once |
| UnixGc.FileTable.MarkThenSleep | sys/kern/uipc_usrreq.c:678-772 | if the collector sleeps for memory after marking, whatever other processes open, send, receive and close meanwhile: a file is picked if and only if it is open, all its references are in flight, and it was opened during the sleep or was unreachable before |
| UnixGc.FileTable.Perform | sys/kern/uipc_usrreq.c:761 | during the sleep an operation of another process keeps every count exact, starts no second collection, leaves the marks alone, and makes nothing that was unmarked reachable |
| UnixGc.FileTable.FlushExtra | sys/kern/uipc_usrreq.c:773-774 | the bad cast is reached if and only if a swept file is no socket; otherwise the count of each swept file is then its extra reference and the rights to it that a flush under way still holds, and files outside the garbage are unchanged |
| UnixGc.FileTable.CloseExtra | sys/kern/uipc_usrreq.c:775-777 | each of these closes is the last one if and only if no flush under way still holds a right to the file; none of them runs into a bad cast |
| UnixGc.FileTable.Closef | sys/kern/kern_descrip.c:729-773 | takes one reference, keeps every count exact and every reachable queue whole, and collects the garbage a dying socket leaves, unless the collection runs into the bad cast |
| UnixGc.FileTable.LastClose | sys/kern/uipc_usrreq.c:351-380 | detaching a socket flushes its queue and collects while rights are in flight; a collection under way is not entered again |
| UnixGc.FileTable.Sorflush | sys/kern/uipc_socket.c:809-829 | the queue is gone before its rights are given up, no other reachable queue is touched, and nobody's held references change |
| UnixGc.FileTable.Discard | sys/kern/uipc_usrreq.c:831-839 | one right in flight is given up and its file closed |
| UnixGc.FileTable.DiscardAll | sys/kern/uipc_usrreq.c:781-788 | all rights of a flushed queue are given up, each once |
| UnixGc.FileTable.Send | sys/kern/uipc_usrreq.c:632-664 | fails with nothing changed if and only if some descriptor is not open; else the files are counted as in flight and queued, and the sender keeps its own |
| UnixGc.FileTable.Receive | sys/kern/uipc_usrreq.c:600-630 | rights of the record become held references, or are all given up if there is no room for descriptors |
| UnixGc.FileTable.Close | sys/kern/uipc_usrreq.c:351-380 | unless the bad cast happens: after the last close of a socket with rights in flight, everything still open is reachable and no reachable file has lost a message |
| UnixGc.SweepStep | sys/kern/uipc_usrreq.c:722-760 | whatever closing and flushing garbage entails, a file outside the garbage keeps its references and its queue |
| UnixGc.GarbageUnreferenced | sys/kern/uipc_usrreq.c:722-760 | no queue left after the sweep holds a right to garbage |
| UnixGc.SweepDone | sys/kern/uipc_usrreq.c:761-777 | from emptied garbage queues it follows that the table is what a collection has to leave |
| UnixGc.MarkDecides | sys/kern/uipc_usrreq.c:765-767 | the sweep's test on counts and FMARK picks exactly the unreachable open files |
| UnixSleep.SleepExact | sys/kern/uipc_usrreq.c:761-772 | over every run during the sleep, the sweep picks a reachable file if and only if it was opened during the sleep and all its references are in flight |
| UnixSleep.SweptThoughReachable | sys/kern/uipc_usrreq.c:761-772 | a run in which it does: a file opened, sent on a live socket and closed |
| UnixSleep.HappensKeeps | sys/kern/uipc_usrreq.c:761 | every operation keeps: roots are marked or new, and rights queued on such files are to such files |
| UnixGc.BadCastHappens | sys/kern/uipc_usrreq.c:773-774 | a table with exact counts in which the swept file is no socket |
| UnixRights.ClosedCovers | sys/kern/uipc_usrreq.c:681-721 | a set with all roots that is closed under queued rights contains every reachable file |
| UnixRights.FewerReachable | sys/kern/uipc_usrreq.c:722-760 | emptying queues and dropping references makes nothing reachable |
| UnixRights.GarbageUnheld | sys/kern/uipc_usrreq.c:761-768 | garbage has no reference outside queues |
| UnixRights.Enqueue | sys/kern/uipc_usrreq.c:655-662 | counting a right when it is queued keeps the accounts |
| UnixRights.MoveRights | sys/kern/uipc_usrreq.c:831-839 | moving rights between a queue and a flush or receive under way loses and makes up none |
| LockMgr.EnterKeeps | sys/kern/kern_lock.c:154-421 | a request keeps the invariant that counts, flags and holder are the sums of what the processes hold and wait for, and panics only for the caller's own fault |
| LockMgr.ResumeKeeps | sys/kern/kern_lock.c:91-106 | so does the rest of a request that slept; it panics if and only if it is in the second exclusive wait, has no error, and finds the lock held exclusively |
| LockMgr.RunSafe | sys/kern/kern_lock.c:154-421 | every run keeps the invariant up to its first panic, and the upgrade-grant panic is never that one |
| LockMgr.Exclusion | sys/kern/kern_lock.c:305-348 | an exclusive holder is the only holder of any kind, and the counts are its own |
| LockMgr.DrainExcludes | sys/kern/kern_lock.c:369-408 | while the lock drains, the drainer is the only holder and nobody sleeps in ACQUIRE |
| LockMgr.WithoutUpgrades | sys/kern/kern_lock.c:305-348 | a run without upgrade requests never panics in the exclusive grant |
| LockMgr.UpgradeOvertakes | sys/kern/kern_lock.c:336-344 | a run of three processes that ends in that panic |
| LockMgr.EnterEffect | sys/kern/kern_lock.c:199-421 | a request that is granted leaves its caller with exactly what it asked for; one that sleeps or fails gains nothing, a failed upgrade having lost its share |
| LockOutcome.EnterResult | sys/kern/kern_lock.c:154-421 | whether a request is granted, sleeps, fails or panics, and with which panic, for every request, flag and state: in terms of what is held, wanted and awaited |
| LockOutcome.WrongCalls | sys/kern/kern_lock.c:264-265 | an upgrade by the exclusive holder or without a share to upgrade panics, and so does the release of an exclusive lock by another |
| LockOutcome.FreeLockGrants | sys/kern/kern_lock.c:218-395 | on a lock nobody holds, wants or waits for, shared, exclusive and drain requests are granted at once; no request but LK_EXCLUPGRADE fails on entry without LK_NOWAIT |
| LockMgr.ResumeEffect | sys/kern/kern_lock.c:91-106 | a resumed request is granted, asleep again, or failed with its holds unchanged |
| LockOutcome.ResumeResult | sys/kern/kern_lock.c:91-106 | what a sleeper comes to when it runs again: an error or LK_SLEEPFAIL fails it, else it sleeps again if and only if what it waits for still stands |
| LockWakeups.StepWakes | sys/kern/kern_lock.c:218-421 | if everyone who could go on has been woken, that is so after a step, except exactly after a refused upgrade that dropped the last share an upgrader waits for, or an interrupted upgrade or exclusive request whose claim was all that kept another asleep; drainers are woken if and only if nothing is held, wanted or awaited; who goes to sleep is not already woken |
| LockWakeups.StepRouses | sys/kern/kern_lock.c:218-368 | only a release, a downgrade, or an upgrade that drops the last share behind another upgrade wakes anyone in ACQUIRE |
| LockWakeups.ReleaseSpares | sys/kern/kern_lock.c:350-367 | a release wakes everyone in ACQUIRE, and drainers if the lock is then quiet |
| LockWakeups.RunWakesAll | sys/kern/kern_lock.c:154-421 | over every run without such a step, whoever could go on has been woken |
| LockWakeups.UpgraderAbandoned | sys/kern/kern_lock.c:244-254 | a run from a new lock after which nobody holds it and the upgrader sleeps though it could go on |
| LockMgr.NowaitSleeps | sys/kern/kern_lock.c:255-304 | a request with LK_NOWAIT sleeps if and only if it is an upgrade, no other upgrade is wanted, and exactly two shares are held |
| LockMgr.NowaitSleepHappens | sys/kern/kern_lock.c:255-304 | a run from a new lock in which an upgrade with LK_NOWAIT sleeps |
| LockMgr.InitInv | sys/kern/kern_lock.c:111-127 | a new lock satisfies the invariant |
| Select.NoLostWakeup | sys/kern/sys_generic.c:541-572 | in every run, a process on selwait has all the descriptors it asked for open and not ready, and whichever becomes ready first takes it off the queue |
| Select.FiredScanRetries | sys/kern/sys_generic.c:564-572 | once a polled descriptor has fired, the scan under way does not end in a sleep, whatever follows |
| Select.SettleOutcome | sys/kern/sys_generic.c:545-574 | after a scan select returns if and only if something was found ready; else it sleeps if and only if P_SELECT is still set and no collision has been counted since the scan began, and otherwise scans everything asked for again |
| Select.SelectReturns | sys/kern/sys_generic.c:541-626 | whatever interrupts and other processes do during a scan, select then returns if and only if one of the descriptors asked for was ready when it was polled |
| Select.ScanCounts | sys/kern/sys_generic.c:595-626 | the count of a scan is the number of descriptors that were ready when polled |
| Select.PollOutcome | sys/kern/sys_generic.c:612-621 | a ready descriptor is counted, one that is not is noted and recorded, one that is not open ends the call; no other process and no other selinfo changes |
| Select.StepOutcome | sys/kern/sys_generic.c:541-574 | what the other steps leave: a scan of everything asked for with the collision count of that moment, or the end of the call |
| Select.StepKeeps | sys/kern/sys_generic.c:541-690 | every step keeps: a sleeper is recorded in each selinfo it polled, and a scanner too unless it has been told to retry |
| Select.FireKeeps | sys/kern/sys_generic.c:663-690 | when a condition comes true, each process that had polled it is made runnable or told to retry |
| Select.FireOutcome | sys/kern/sys_generic.c:663-690 | the condition is ready with an empty record, a collision is counted if there was one, and nobody is put to sleep or told not to retry |
| Select.SelrecordCovers | sys/kern/sys_generic.c:642-658 | recording covers the caller, and takes another's record if and only if that one is named, not on selwait and not in a collision |
| Select.PreemptedScanLosesWakeup | sys/kern/sys_generic.c:595-626 | if processes could interleave within a scan, a process would sleep through an event |
| Select.Kernel.SelRecord | sys/kern/sys_generic.c:642-658 | the caller is covered for the condition, the invariant of the runs is kept, and no process asleep and no other record of the caller loses its cover |
| Select.Kernel.SelWakeup | sys/kern/sys_generic.c:663-690 | every process the selinfo records is taken off selwait or told by P_SELECT or the collision count that its scan is stale; the record is then empty |
| Select.Kernel.Fire | sys/kern/sys_generic.c:663-690 | an event keeps the invariant, and afterwards no process that had polled the condition is asleep or in a scan that will end in a sleep |
| Select.Kernel.PollNext | sys/kern/sys_generic.c:595-626 | one descriptor of a scan keeps the invariant and is the step of the runs |
| Select.Kernel.Wakeup | sys/kern/kern_synch.c:496-532 | takes every process off selwait and changes nothing else |
| SockBuf.PackKeeps | sys/kern/uipc_socket2.c:657-700 | no byte, no type and no end-of-record mark is lost in compaction, the mark ends up on the last mbuf if and only if there was one, and there is always a mbuf to put it on |
| SockBuf.PackLean | sys/kern/uipc_socket2.c:666-673 | an empty mbuf is kept only where its type would be lost: none is followed by one of its own type |
| SockBuf.PackEnds | sys/kern/uipc_socket2.c:666-673 | a marked record ends with the type that came last |
| SockBuf.PackRoom | sys/kern/uipc_socket2.c:674-676 | a mbuf filled to its last byte came so; none is filled up by joining |
| SockBuf.PackTight | sys/kern/uipc_socket2.c:657-700 | compaction is complete: in what was added no mbuf could still be joined to the one before it, and none is empty unless it carries a mark |
| SockList.Sockbuf.Append | sys/kern/uipc_socket2.c:447-467 | the data continue the last record, or begin a new one if that is marked as ended; the mbufs are relinked in place, records stay linked, no mbuf is in two places, and counts stay exact |
| SockList.Sockbuf.AppendRecord | sys/kern/uipc_socket2.c:498-525 | the data become a record of their own with their mark, linked behind the last one; counts stay exact |
| SockList.Sockbuf.Compress | sys/kern/uipc_socket2.c:657-700 | freeing, copying and relinking one mbuf after the other makes the chain that compaction on values makes, keeps every link to a next record, and adds to both counts what was added |
| SockList.Sockbuf.NewRecord | sys/kern/uipc_socket2.c:498-525 | the chain is linked behind the last record and compacted behind its own first mbuf, and no other record changes |
| SockList.Sockbuf.Drop | sys/kern/uipc_socket2.c:723-760 | exactly the first bytes are dropped, across records, the mbuf that is then first taking over the link to the next record; it panics if and only if there are fewer; counts stay exact |
| SockList.Sockbuf.Skip | sys/kern/uipc_socket2.c:730-749 | the walk stops at the mbuf that holds the end of what is dropped, with both counts right for what is left |
| SockList.Sockbuf.Relink | sys/kern/uipc_socket2.c:755-759 | what is left becomes the buffer, well linked, whichever mbuf is first |
| SockList.Sockbuf.DropRecord | sys/kern/uipc_socket2.c:767-780 | exactly the first record is dropped, and the second is then first |
| SockList.Sockbuf.Flush | sys/kern/uipc_socket2.c:707-717 | ends with the buffer empty and both counts zero, even with records of no bytes |
| Mbuf.SpaceCovers | sys/sys/socketvar.h:149-155 | the storage counted for a chain covers its bytes, and is whole mbufs if there is no cluster |
| SockBuf.Fifo | sys/kern/uipc_socket2.c:447-780 | over any run, what came out followed by what is left is what was there followed by what went in |
| SockBuf.DropStream | sys/kern/uipc_socket2.c:723-760 | dropping n bytes leaves the byte stream from n on |
| SockBuf.DropTokens | sys/kern/uipc_socket2.c:723-760 | what is dropped is a beginning of bytes and marks with exactly the bytes asked for in it; no mark behind it is lost |
| SockBuf.AppendStream | sys/kern/uipc_socket2.c:447-467 | appending puts the new bytes at the end of the stream, whatever the records |
| SockBuf.AddRecords | sys/kern/uipc_socket2.c:447-525 | where record boundaries are after an append: a new record if and only if asked for, or the last one is marked as ended, or there is none; no earlier record changes |
| SockBuf.AppendTokens | sys/kern/uipc_socket2.c:447-467 | with their end-of-record mark the new bytes come behind all bytes and marks that are there |
| MbufOps.Pool.Copym | sys/kern/uipc_mbuf.c:254-318 | the copy is the slice asked for, mbuf by mbuf, up to the end if the length counts down to M_COPYALL there, with one more reference for each cluster it shares and its pointer at the same bytes there; the first mbuf has a header if and only if the copy is from the front of a packet, and its length is right if and only if the length asked for is not above M_COPYALL and yet means everything; a range outside the chain is never copied, it panics for no other reason, and it gives everything back when mbufs run out |
| MbufOps.Copydata | sys/kern/uipc_mbuf.c:324-355 | copies the bytes from the offset on, as many as there are up to the length, and fails if and only if the offset is past the end |
| MbufOps.Pool.Cat | sys/kern/uipc_mbuf.c:362-381 | the bytes are concatenated and references follow the mbufs that remain |
| MbufOps.AdjHead | sys/kern/uipc_mbuf.c:383-411 | exactly the bytes asked for are cut from the front, and the packet length by as many; pointers into clusters show the bytes that are left |
| MbufOps.AdjTail | sys/kern/uipc_mbuf.c:412-455 | exactly the bytes asked for are cut from the end, and the packet length is set accordingly; pointers into clusters stay |
| MbufOps.Pool.Pullup | sys/kern/uipc_mbuf.c:467-524 | the bytes stay the same with the wanted number in the first mbuf, or the whole chain is freed; pointers into clusters behind it show the bytes that are left; succeeds if and only if there are enough bytes and either room in place or a small enough length and a free mbuf |
| MbufOps.Pool.Split | sys/kern/uipc_mbuf.c:532-589 | the chain is cut after the given bytes except for what an unset length puts in between; returns nothing, with bytes and references unchanged, if and only if bytes or mbufs are too few or nothing is behind the cut; says when the packet length is not put back |
| MbufOps.SplitPlace | sys/kern/uipc_mbuf.c:541-543 | the cut falls into the first mbuf whose end is not before it, and there is none if and only if it is past the end |
| MbufOps.CutViews | sys/kern/uipc_mbuf.c:562-588 | both sides of a cut show their own bytes of the cluster they share; copied bytes lie aligned at the end of the new mbuf; a record mark stays with the front |
| MbufOps.SplitLengths | sys/kern/uipc_mbuf.c:545-561 | both packet headers have the right length after a split, but for what an unset length puts there; when nothing is split the header is wrong if and only if the second mbuf could not be had |
| MbufOps.SplitPutsJunk | sys/kern/uipc_mbuf.c:545-561 | a packet that comes back from being split and joined with a byte it never had |
| MbufOps.SplitLosesLength | sys/kern/uipc_mbuf.c:545-557 | a packet that is not split for want of mbufs and keeps a wrong length in its header |
| MbufOps.SplitThenJoin | sys/kern/uipc_mbuf.c:545-561 | splitting and joining is the identity if and only if the unset length does not occur or happens to be zero |
| CdDisk.Cdinterleave | sys/dev/cd.c:299-388 | the table lists the groups of levels that the same components reach, with their first block and offset, ends with a mark, and never takes more than one entry per component and the mark |
| CdDisk.Components | sys/dev/cd.c:176-241 | sizes are multiples of the interleave, their sum is the size of the disk, and it fails if and only if a component has no usable block |
| CdDisk.UsableLargest | sys/dev/cd.c:195-202 | the largest multiple of the interleave a component has room for is used |
| CdDisk.Cdbuffer | sys/dev/cd.c:505-591 | the piece lies on one component and is, block by block, where the numbering puts those blocks; it stops at a block boundary unless it is the last |
| CdDisk.Cdstart | sys/dev/cd.c:466-500 | the pieces cover the request in order without gap or overlap, each in its own place in memory |
| CdDisk.BytePlaced | sys/dev/cd.c:493-499 | every byte of the request is moved by a piece to the home of its block |
| CdMap.HomeExists | sys/dev/cdvar.h:69-94 | every block of the disk is a block of some component |
| CdMap.HomeUnique | sys/dev/cdvar.h:69-94 | of one only |
| CdMap.BlockOf | sys/dev/cdvar.h:69-94 | every component block is some block of the disk |
| CdMap.HomeInjective | sys/dev/cdvar.h:69-94 | of one only, so that the numbering is a bijection |
| CdMap.RankInjective | sys/dev/cd.c:545-559 | no two interleave units have the same number |
| CdMap.RankOrder | sys/dev/cdvar.h:69-94 | units are numbered level by level, and on a level in the order of the components |
| CdMap.HomeOrder | sys/dev/cd.c:525-559 | the order in which blocks go over the components: serially one after the other; interleaved level by level, on each level unit by unit, and within a unit block by block |
| CdMap.ThreeDisks | sys/dev/cdvar.h:69-94 | the documented example of three components has its documented layout |
| CdMap.GroupLookup | sys/dev/cd.c:551-558 | division and remainder within a group give the unit with that number |
| CdDisk.EntryFound | sys/dev/cd.c:546-551 | the entry before the first that starts later is the right one |
| CdDisk.ClipInRange | sys/dev/cd.c:439-454 | a block number that is not negative is refused if and only if it is beyond the end, ends at once if and only if it is at the end, and else is started with all that fits; a negative one is always started |
| CdDisk.InterruptsOnce | sys/dev/cd.c:617-658 | completions in any order never hit the count panic, and cdintr is called exactly once, when the last is in, if and only if the request has bytes; the error flag is set if and only if a piece failed, and the residue is then the whole count, else zero |
| CdDisk.RequestDone | sys/dev/cd.c:466-658 | when the pieces of a request are issued in order and completed in any order, cdintr has been called, exactly once, if and only if as many have completed as there are pieces and there are any |
| CdDisk.PiecesIssue | sys/dev/cd.c:491-499 | the pieces cdstart makes can be issued one after the other |
| CdDisk.Buf.Cdiodone | sys/dev/cd.c:617-658 | completing any outstanding piece keeps the accounts of the request, does not hit the count panic, and calls cdintr if and only if it was the last piece and all have been issued |
| CdDisk.Buf.Issue | sys/dev/cd.c:491-499 | handing a piece to its driver keeps the accounts of the request |
| Callout.RunRefines | sys/kern/kern_clock.c:155-324 | over every run the queue of differences keeps step with the list of absolute deadlines, makes the same calls and has the same slots free |
| Callout.StepEffect | sys/kern/kern_clock.c:155-324 | what each event does to deadlines, free slots and calls: where an entry is put and which is taken, and that nothing else changes |
| Callout.TickRefines | sys/kern/kern_clock.c:155-162 | a tick lowers every deadline by one although it touches only some entries |
| Callout.InsertRefines | sys/kern/kern_clock.c:279-298 | an entry is put at its deadline, before those not earlier, and no other deadline moves |
| Callout.InsertPlace | sys/kern/kern_clock.c:285-298 | a new entry stands before all that are not earlier and behind all that are |
| Callout.UntimeoutRefines | sys/kern/kern_clock.c:310-322 | the first matching entry is removed and no other deadline moves |
| Callout.RemovePlace | sys/kern/kern_clock.c:310-322 | the entry taken is the first that matches, and none is taken if and only if none matches |
| Callout.CallsInOrder | sys/kern/kern_clock.c:224-243 | over every run no call is made before it is due, calls are made in the order of their deadlines, and slots are conserved |
| Callout.CallWasSet | sys/kern/kern_clock.c:224-300 | over every run each call made goes back to a timeout with its function and argument, and was due exactly as many ticks after that as asked for, but at least one |
| Callout.CallMade | sys/kern/kern_clock.c:224-243 | over every run the i-th call is made by the i-th round of softclock, at the tick noted for it |
| Callout.CallsAsSet | sys/kern/kern_clock.c:224-324 | over every run a call for a function, argument and tick is made no more often than it was asked for; without untimeout every request is met once or still pending |
| Callout.SoftclockDue | sys/kern/kern_clock.c:232-241 | softclock goes on exactly as long as a deadline has come |
| CalloutList.CalloutTable.TickQueue | sys/kern/kern_clock.c:155-162 | the walk over the linked slots computes the tick in place, and asks for softclock if and only if something is due |
| CalloutList.CalloutTable.SetTimeout | sys/kern/kern_clock.c:257-300 | relinks the first free slot into the queue at its place, at least one tick away, or fails if and only if no slot is free; both lists stay well linked and apart |
| CalloutList.CalloutTable.Cancel | sys/kern/kern_clock.c:302-324 | relinks the first matching slot from the queue to the free list, its time passing to the next; does nothing if there is none |
| CalloutList.CalloutTable.Softclock | sys/kern/kern_clock.c:224-243 | calls what is due, in order, while the functions called and clock interrupts set, cancel and tick as they like, is a run of the model, and leaves only what is to come |
| CalloutList.CalloutTable.Hardclock | sys/kern/kern_clock.c:155-191 | the linked queue makes the step of the runs |
| CalloutList.CalloutTable.Enqueue | sys/kern/kern_clock.c:275-298 | taking a free slot, the walk and the relinking together insert the entry into the queue of differences |
| CalloutList.CalloutTable.Walk | sys/kern/kern_clock.c:288-291 | ends at the slot to insert behind, with the ticks left |
| CalloutList.CalloutTable.Find | sys/kern/kern_clock.c:311-312 | ends at the first slot with the function and argument, or at the end of the list |
| CalloutList.CalloutTable.TakeOut | sys/kern/kern_clock.c:314-320 | unlinks the slot, puts it first on the free list, and leaves the differences that untimeout should |
| CalloutList.CalloutTable.LinkIn | sys/kern/kern_clock.c:297-298 | the list is the old one with the slot inserted; no cycle, no slot on both lists |
| CalloutList.CalloutTable.LinkOut | sys/kern/kern_clock.c:318-320 | the queue is the old one without the slot, the free list the old one with it; no cycle, no slot on both lists |
| CalloutList.CalloutTable.CallFirst | sys/kern/kern_clock.c:233-239 | the first slot is free before its function is called; the step of the runs |
| CalloutList.CalloutTable.AddSlot | sys/hp300/hp300/machdep.c:359-361 | a new slot goes on the free list and changes nothing else |
| JobControl.RunExact | sys/kern/kern_proc.c:173-325 | over every run of fork, group changes, clean exits and wait, pg_jobc is the number of running members whose parent is in another group of the same session |
| JobControl.ExitExact | sys/kern/kern_exit.c:179-216 | an exit keeps the counts exact if and only if no running child is in another group of init's session |
| JobControl.UncleanExit | sys/kern/kern_exit.c:200-211 | a table in which an exit leaves a count wrong |
| JobControl.EnterExact | sys/kern/kern_proc.c:174-246 | entering a group, new or not, in the same or a new session, keeps every count exact |
| JobControl.EnterMoves | sys/kern/kern_proc.c:174-246 | the process is then in the group, and no other has moved; a new group is in a session of its own or in that of the process, an old one stays where it was |
| JobControl.StepMoves | sys/kern/kern_proc.c:173-325 | who is where, whose child and in what state after each step, and that nobody else is touched |
| JobControl.JobTable.Fixjobc | sys/kern/kern_proc.c:293-325 | changes each count by what the process and its children contribute, and orphans exactly the groups whose count goes from positive to zero, each once |
| JobControl.JobTable.EnterGroup | sys/kern/kern_proc.c:174-246 | the process is then in that group and that session, counts stay exact, and orphanpg is called for exactly the groups that lose their last qualifying member in the whole move |
| JobControl.JobTable.ExitProc | sys/kern/kern_exit.c:179-216 | the process is a zombie, its children and no others are init's, nobody changes group; the counts are exact if and only if the exit is clean, and orphanpg is called for exactly the groups whose count goes from positive to zero |
| JobControl.JobTable.ForkChild | sys/kern/kern_fork.c:215-218 | the child is in its parent's group with that parent, nobody else moves, and no count changes |
| NameCache.Cache.Lookup | sys/kern/vfs_cache.c:121-192 | a hit is what was entered last for the name with neither vnode purged since; it misses if and only if there is no live entry or the caller does not want it; such an entry is dropped, and no other; what was hit becomes the most recently used, and the others keep their order of use |
| NameCache.Cache.Find | sys/kern/vfs_cache.c:140-156 | finds the live entry for a name if and only if there is one, and drops only stale entries on the way |
| NameCache.Cache.Enter | sys/kern/vfs_cache.c:198-258 | after a miss the name is known and most recently used, every other live name stays known, in its order of use, except the one whose entry was taken, and the invariants of LRU list and chains are kept; fails if and only if no entry can be had |
| NameCache.Cache.Take | sys/kern/vfs_cache.c:215-238 | a new entry is made if and only if fewer than the limit exist and none is free, else the first of the LRU list is taken; exactly that one ceases to be live, no other entry changes, and the others keep their order of use |
| NameCache.Cache.PurgeVnode | sys/kern/vfs_cache.c:279-294 | exactly the entries that mention the vnode become stale, and exactly those names are no longer known |
| NameCache.FoundInBucket | sys/kern/vfs_cache.c:74-75 | a live entry lies in the chain searched for its name |
| NameCache.FillUnique | sys/kern/vfs_cache.c:246-257 | names stay unique if and only if there was no live entry for the new one |
| NameCache.PurgeKeeps | sys/kern/vfs_cache.c:88-93 | PURGE keeps the chains and the free entries at the front of the LRU list, and ends exactly one entry's life |
| NameCache.TouchKeeps | sys/kern/vfs_cache.c:99-104 | TOUCH keeps them too |
| UnixStream.Bounded | sys/kern/uipc_usrreq.c:148-162 | over any run of chunks and receives, queued bytes never exceed the sender's first high-water mark, and after a chunk or a notice limit plus queue is that mark again, in bytes and in storage |
| UnixStream.StepKeeps | sys/kern/uipc_usrreq.c:210-236 | each step keeps limit plus recorded queue constant, and a sender never reckons with more space than it has |
| UnixStream.ChunkFits | sys/kern/uipc_socket.c:399-432 | a chunk is no longer than the space and the rest, and not empty if there is any of both |
| UnixStream.ChunkFull | sys/kern/uipc_socket.c:411-424 | a chunk is all that is left, or fills its mbuf or cluster, or uses up the space; when it is a cluster |
| UnixStream.ChunkUses | sys/kern/uipc_socket.c:411-424 | what a chunk takes from the space the sender reckons with and adds to the receiver's storage |
| UnixStream.BeginOutcome | sys/kern/uipc_socket.c:375-391 | sosend goes on if and only if the control data can ever fit, and either all fits or there is the low-water mark and room for the control data |
| UnixStream.RunSends | sys/kern/uipc_socket.c:389-465 | over any run every byte accepted is unsent, in the receiver's buffer, or taken from it |
| UnixStream.SenderGoesOn | sys/kern/uipc_socket.c:365-466 | a sender under way can always go on, in one way only: with a chunk while there is space, else back to the head of the loop; and when the chunk is joined to what the receiver has |
| UnixStream.StepSends | sys/kern/uipc_socket.c:389-465 | a step moves bytes from unsent to queued, or accepts a message, and sosend is done if and only if nothing is unsent |
| UnixStream.StorageOvercommits | sys/kern/uipc_socket.c:399-424 | a chunk takes the storage limit below zero if and only if what the receiver holds and the mbuf and cluster the chunk adds exceed the first limit |
| UnixStream.StorageBounded | sys/kern/uipc_socket.c:389-465 | over every run, how far below zero it can go: a little more than a quarter of the high-water mark |
| UnixStream.GoesBelowZero | sys/kern/uipc_socket.c:399-424 | a run from the default limits of a new pair in which it does |
| UnixStream.Pair.Send | sys/kern/uipc_usrreq.c:225-234 | changes both ends as the step used in the runs does |
| UnixStream.Pair.Rcvd | sys/kern/uipc_usrreq.c:154-161 | what the receiver removed is given back: limit plus queue is again what limit plus recorded queue was, in bytes and in storage, and the record is exact |
| UnixStream.Pair.Receive | sys/kern/uipc_usrreq.c:148-162 | taking bytes from an exactly recorded queue raises the sender's limits by as much and keeps the record exact |
| UnixStream.Pair.SendChunks | sys/kern/uipc_socket.c:389-465 | what the loop takes off the rest is what arrives at the receiver, and the byte limit does not go below zero |
| UnixConn.Graph.Connect2 | sys/kern/uipc_usrreq.c:486-516 | stream links are mutual, a datagram block is listed exactly where it is connected |
| UnixConn.Graph.Disconnect | sys/kern/uipc_usrreq.c:518-553 | the link is gone on both sides and no other changes; the panic is not reached |
| UnixConn.Graph.Drop | sys/kern/uipc_usrreq.c:576-591 | the same, and a block still on a listener's queue is freed |
| UnixConn.Graph.Detach | sys/kern/uipc_usrreq.c:351-368 | every link to and from the block is gone, no other changes, and the loop over its list ends |
| FileDesc.Filedesc.Fdalloc | sys/kern/kern_descrip.c:495-556 | returns the lowest descriptor from the wanted one on that is not in use, and fails if and only if there is none below the limit; both hints stay right |
| FileDesc.Filedesc.Fdavail | sys/kern/kern_descrip.c:564-580 | true if and only if that many slots are free in the table and up to the limit together |
| FileDesc.Filedesc.Externalize | sys/kern/uipc_usrreq.c:612-628 | hands out free descriptors, one for each file; refuses, with nothing changed, if and only if table and limit together have too few free; panics if and only if the limit was lowered below the table and too few are left under it |
| FileDesc.ExternalizePanics | sys/kern/uipc_usrreq.c:612-628 | for a table of 50 slots with ten open and the limit lowered to ten it panics, because fdavail counts the 40 slots above |
| FileDesc.Filedesc.Dup2 | sys/kern/kern_descrip.c:120-155 | the target refers to the source's file, nothing else changes, what was there is closed, and the panic is not reached |
| FileDesc.Filedesc.Close | sys/kern/kern_descrip.c:335-360 | exactly that descriptor is free; every open one is at most fd_lastfile and every one below fd_freefile open |
| FileDesc.CopySize | sys/kern/kern_descrip.c:669-687 | the shrunken table of a child covers every open descriptor |
| FileDesc.Fdcopy | sys/kern/kern_descrip.c:648-695 | the child has the same descriptors, and every file one more reference for each |
| PidAlloc.PidTable.FindPid | sys/kern/kern_fork.c:114-158 | finds the first ID after the last one given out that no process, live or zombie, has as its own or its group's, or the first from 100 on if there is none up to the largest; keeps the cached range unused, and ends if some ID from 100 on is free |
| PidAlloc.PidTable.Pass | sys/kern/kern_fork.c:129-158 | one scan steps over used IDs only, and leaves nextpid and everything up to pidchecked unused, or has moved nextpid up |
| PidAlloc.PidTable.Fork | sys/kern/kern_fork.c:160-166 | the new process has that ID and its parent's group, and the range stays unused |
| PidAlloc.PidTable.Setpgid | sys/kern/kern_proc.c:173-246 | moving to one's own or an existing group keeps the range unused |
| Signals.RunSafe | sys/kern/kern_sig.c:127-1104 | over every run pending and ignored signals are disjoint, SIGCONT and a stop signal are not pending together, SIGKILL and SIGSTOP are not masked, caught or ignored, and postsig does not panic |
| Signals.SetsigvecKeeps | sys/kern/kern_sig.c:127-181 | setting an action keeps the sets in agreement with the actions |
| Signals.ActionSet | sys/kern/kern_sig.c:127-181 | the action and mask of that signal are set and of no other; it stops being pending if and only if it is ignored from then on, and no other does |
| Signals.MaskSet | sys/kern/kern_sig.c:242-270 | the mask after blocking, unblocking and replacing; SIGKILL and SIGSTOP are never added |
| Signals.ExecKeeps | sys/kern/kern_sig.c:203-225 | after exec no handler is left, what was ignored is still ignored, and the mask is the same |
| Signals.ExecActions | sys/kern/kern_sig.c:203-225 | caught signals and no others get the default action, and stop being pending if and only if that is to ignore them |
| Signals.SigProc.Siginit | sys/kern/kern_sig.c:185-198 | the loop leaves process 0 with sets that agree with its actions, changing only what is ignored |
| Signals.PsignalKeeps | sys/kern/kern_sig.c:669-862 | posting a signal keeps pending and ignored disjoint and SIGCONT apart from stop signals |
| Signals.PsignalPending | sys/kern/kern_sig.c:669-862 | exactly when a signal is pending after it has been sent, in every state of the process, and exactly which other pending signals it cancels |
| Signals.KillArrives | sys/kern/kern_sig.c:736-849 | SIGKILL is pending after it was sent, whatever the state, and the process is not stopped |
| Signals.PsignalRest | sys/kern/kern_sig.c:736-862 | sending a signal changes nothing but pending signals, run state and sleep, and says when a sleeper leaves its wait |
| Signals.IssignalPicks | sys/kern/kern_sig.c:880-1015 | a round looks at the lowest signal that is pending, not masked and, while the parent waits, no stop signal, and returns it if and only if it is caught or ends the process by default |
| Signals.HeldSignalKept | sys/kern/kern_sig.c:669-862 | a signal sent while held back, and held back throughout any run, is pending at its end unless a step discarded it; if it was not sent again, if and only if |
| Signals.StepHeld | sys/kern/kern_sig.c:127-1018 | exactly which steps discard a held signal: an action or exec that ignores it, SIGCONT against stop signals, a stop signal against SIGCONT, and the end of the stop it caused |
| Signals.StoppedUntil | sys/kern/kern_sig.c:786-818 | over any run a stopped process stays stopped up to the first SIGCONT or SIGKILL, and that one sets it going however it is handled |
| Signals.Delivered | sys/kern/kern_sig.c:1039-1104 | what issignal returns is pending and not masked, and postsig takes it off, masks it and does not panic |
| Signals.PostsigEffect | sys/kern/kern_sig.c:1039-1104 | the process ends if and only if the action is the default; else exactly that signal is no longer pending and exactly it and the handler's mask are masked in addition |
| Signals.OwnSteps | sys/kern/kern_sig.c:876-1104 | exactly when a process looks at its signals, enters a handler, goes on after a stop or sleeps |
| Signals.StepStates | sys/kern/kern_sig.c:836-1018 | what continuing, sleeping, waking and a change of group do, and that they change nothing else |
| Signals.IssignalKeeps | sys/kern/kern_sig.c:876-1018 | a round of issignal only takes pending signals away |
| Signals.SigProc.Execsigs | sys/kern/kern_sig.c:203-225 | the loop ends with nothing caught and no handler left |
| Signals.SigProc.Cursig | sys/kern/kern_sig.c:876-1018 | the loop ends with a signal to deliver, nothing to do, or the process stopped |

## Left out

- Integer width: counters, times, v_id and nselcoll do not wrap.
- Multiprocessors (NCPUS > 1), interlocks, LK_KERNPROC and lock debugging in lockmgr.
- Liveness: LockWakeups says who has been woken, not that a woken process runs or that a lock is released in the end.
- Sockets without an open file: rights queued on a connection that has not been accepted.
- PRU_SEND when the append fails: the model appends successfully, as does the flow-control model.
- Control messages that soreceive drops because the caller gave no buffer for them.
- selscan's walk over the bits of the descriptor sets, itimerfix and the copies to and from user space.
- UnixStream.Bounded: user data only; data that the kernel hands to sosend in a prepared chain are sent without regard to the space.
- sbinsertoob, sbappendaddr and sbappendcontrol; record locks and sleeping for socket buffers.
- MbufOps.Pool.Copym: every mbuf holds fewer than M_COPYALL (1,000,000,000) bytes, as any mbuf or cluster does.
- MbufOps.Pool.Cat: M_EOR of a mbuf that is copied and freed is lost in the source and not tracked here.
- Contents of clusters are values: a write through one sharer is not seen by another. No routine modelled here writes to a cluster.
- The chains of MbufOps as linked structures: they are sequences, as are the lists of sockets, files and name-cache entries.
- UnixGc.FileTable.Gc: malloc is taken not to sleep; UnixGc.FileTable.MarkThenSleep says what is picked when it does, and what the flushes and closes after that do to a file picked though reachable is left out.
- JobControl: exit1 is one step, although it may sleep in accounting between the count and the reparenting; what orphanpg does to stopped members.
- NameCache.Cache.Enter: called after a miss, as its callers do; NameCache.FillUnique says what happens otherwise.
- cache_purgevfs, and the flush of the whole cache when nextvnodeid wraps.
- Traced processes, core dumps, signal stacks and the notice to the parent of a stopped process.
- Descriptor flags, record locks on close, and file-table limits in falloc.
- Drivers, file systems, virtual memory, networking and the scheduler.
