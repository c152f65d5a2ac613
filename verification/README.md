# A verified model of L4P9's 9P server, locks, scheduler and buffered input

The project models, in Dafny, the parts of the repository that are state machines or pointer
algorithms, and proves what they promise over all runs.

* **The lib9p request engine** (`src/lib9p/srv.c`, `req.c`). `FlushProtocol` is the transition
  system: the critical sections of `getreq`, `sflush`, `rflush` and `respond` are single steps, and
  steps of different requests interleave freely. `FlushInvariant` has the invariant and what each
  step keeps of it, `FlushTheorems` the results over every run, `FlushDrain` the recursive
  `respond` as a method, and `FlushOrder` the order in which the flushes of a request are answered.
* **Fids** (`src/lib9p/srv.c`, `fid.c`, `intmap.c`, the fid part of `req.c`). `Intmap` is the hash
  table, `Fids` the transition system of handlers, replies and frees, `FidProofs` and `FidRuns` the
  results, `FidReplies` what is answered and held, and `FidCode` the handlers on the hash table.
* **The file tree** (`src/lib9p/file.c`). `Directory` and `DirectoryProofs` treat one directory
  list with its readers, `FileTree`, `FileTreeProofs` and `FileTreeRuns` the whole tree,
  `FileWalks` and `FileChanges` what walking, creating and removing mean in terms of entries,
  `FileReaders` when a directory can be freed under a reader, `FileFailures` the runs that go wrong,
  and `FileCode` the routines as they run, with `filewalk` of `srv.c`.
* **Blocking locks** (`doc/tmp/lowlevel.c`, the libc listing). `RWLock` and `QLock` give each
  routine as a function on the abstract lock and as a method on the linked queue of `WaitList`;
  `RWLockRuns` and `QLockRuns` prove safety over runs of any number of threads, `QLockOrder` who is
  served when.
* **Sleep and wakeup** (`doc/Process/proc.c`): `SleepWakeup`, `SleepInvariant`, `SleepTheorems`,
  and `SleepCalls` on one call of `sleep` from beginning to end.
* **Run queues and priorities** (`doc/Process/proc.c`): `RunQueue`, `RunQueueCode`, `CpuShare`.
* **Timers** (`doc/tmp/p9-process.c`, the `portclock.c` listing): `Timers`, `TimerCode`.
* **Buffered input** (`src/libbio`): `Biobuf` with the class `Biobufhdr` on a byte array, over a
  file whose reads may be short or fail at any time, and `BiobufRuns`.
* `Counting` and `Options` hold what several of these use.

A run is a sequence of states and events; the theorems are about every run and every state in it.
Where the code does not keep a promise on all inputs the model keeps the code as it is: there is a
lemma with a failing run and another one with the exact condition. That is so for a Tflush of its
own tag (`SelfFlushIsStranded`, `AllAnsweredIffNoSelfFlush`), for a flush that overtakes another one of the
same request (`LateFlushOvertakes`, `OvertakesIff`), for a clunk of a fid that is still being
made (`ImpoliteClunkFaults`, `ClunkIsSafeIff`), for a walk that fails with all its names walked
(`CrookedWalkMisleads`, `TurnAgreesIff`), for a directory that is freed while it is read
(`RemovedWhileRead`, `FreedWithItsLastFile`, `FreedWhileReadIff`), for ".." in a removed directory
(`DotDotCrashes`, `WalkCrashesIff`) and for a process whose state is not saved (`SpinsForever`,
`Rebalance`). Where the contract of a method has the condition, a method calls it where it fails: a
timer without a period (`PeriodZero`, `TimerAdd`), pushback of nothing (`PutsBackNothing`, `Bungetc`),
pushback before a full buffer that is lost (`LosesPushback`, `Brdline`, `Brdstr`), and seeks to a
negative position or into bytes that were never read (`SeeksBeforeStart`, `SeeksIntoStaleBytes`, `Bseek`).

Integers are unbounded. The operations whose C operands are never negative use Dafny's division,
which agrees with C there.

## Model

| member | source | states |
|---|---|---|
| `FlushTheorems.KeepInv` | src/lib9p/srv.c:763-845 | Every step of getreq, the serve loop, rflush and respond keeps the invariant of the request engine, in any interleaving. |
| `FlushTheorems.RunInv` | src/lib9p/srv.c:724-845 | Every reachable state of the request engine has the invariant. |
| `FlushTheorems.RflushComesLast` | src/lib9p/srv.c:255-286 | Once the reply to a Tflush is written, the reply to every earlier request with the flushed tag was written before it, whether the lookup found that request or missed it between removal and write. |
| `FlushTheorems.AnsweredAtMostOnce` | src/lib9p/srv.c:763-829 | No reply is written twice, and only requests that were read are answered. |
| `FlushTheorems.CountIsExact` | src/lib9p/req.c:39-105 | The count of a request is [in the tag pool] + [its respond not finished] + the number of flushes whose oldreq it is, and it is freed exactly when there are none. |
| `FlushTheorems.NeverFaults` | src/lib9p/srv.c:258-284 | In no run does an assert of respond, rflush or closereq fail, nor is a freed request used. |
| `FlushTheorems.ParkedInOneList` | src/lib9p/srv.c:273-279 | A parked flush is in exactly one flush list, exactly once: that of the earlier request it found. |
| `FlushTheorems.Progress` | src/lib9p/srv.c:763-845 | A request that is neither done nor parked has a step to make; or, while it answers the flushes parked on it, one whose chain of found requests leads to it has; or one of these waits for the write lock and its holder can write. |
| `FlushTheorems.AnsweredUnlessSelf` | src/lib9p/srv.c:266-286 | When nothing is left to do, a request has been answered exactly once if and only if its chain of oldreq links does not end in a flush of its own tag. |
| `FlushTheorems.AllAnsweredIffNoSelfFlush` | src/lib9p/srv.c:831-839 | When nothing is left to do, every request has its answer if and only if no client flushed its own tag. |
| `FlushTheorems.SelfFlushIsStranded` | src/lib9p/srv.c:259-279 | The failing case exists: a single Tflush of its own tag is parked on itself and never answered. |
| `FlushTheorems.WorkShrinks` | src/lib9p/srv.c:763-845 | Every step except reading a request uses up work. |
| `FlushTheorems.RunEnds` | src/lib9p/srv.c:831-845 | A run that reads no more requests is finite; the drain recursion cannot go on for ever. |
| `FlushDrain.Engine.Admit` | src/lib9p/srv.c:266-286 | rflush for a request that need not wait: it goes on to its reply and nothing else changes. |
| `FlushDrain.Engine.Reply` | src/lib9p/srv.c:763-833 | respond up to the drain loop appends the reply to the log and marks the request responded. |
| `FlushDrain.Engine.Respond` | src/lib9p/srv.c:763-845 | The recursive respond terminates, writes the reply to r and to all flushes parked below it in pre-order, and changes no request outside that tree. |
| `FlushDrain.TreeIsAllParkedBelow` | src/lib9p/srv.c:835-839 | What respond(r) answers is r and every flush that is parked on r directly or through other parked flushes, each exactly once, and nothing else. |
| `FlushDrain.ParkedChainEnds` | src/lib9p/srv.c:266-286 | In every run the oldreq chain of a parked flush goes strictly back in order of arrival and ends at a request that is neither parked nor done, unless it ends in a flush of its own tag. |
| `FlushOrder.FlushesInOrder` | src/lib9p/srv.c:273-279 | In every run, flushes that park on the same request are answered in the order in which they parked. |
| `FlushOrder.OvertakesIff` | src/lib9p/srv.c:266-286 | A flush that calls rflush after another one has parked on the same request can be answered before that one if and only if the request has responded and the reply to the other is neither written nor being written. |
| `FlushOrder.LateFlushOvertakes` | src/lib9p/srv.c:831-839 | The failing case exists: a run in which the second of two flushes asks between the response and the drain. |
| `Intmap.Intmap.constructor` | src/lib9p/intmap.c:52-62 | A new table is the empty map. |
| `Intmap.Intmap.LLookup` | src/lib9p/intmap.c:83-92 | The loop stops at the node with the id, or at the end of the bucket exactly when the map does not have it. |
| `Intmap.Intmap.LookupKey` | src/lib9p/intmap.c:100-114 | Returns what the map has for the id, or nothing. |
| `Intmap.Intmap.InsertKey` | src/lib9p/intmap.c:116-139 | The map gets the new value, and the old one is returned. |
| `Intmap.Intmap.CanInsertKey` | src/lib9p/intmap.c:141-162 | Adds the id if and only if the map does not have it, and changes nothing otherwise. |
| `Intmap.Intmap.DeleteKey` | src/lib9p/intmap.c:164-179 | The map loses the id, and its value is returned; a missing id changes nothing. |
| `Intmap.OneMap` | src/lib9p/intmap.c:34-45 | The 128 buckets determine the map: two maps that both describe them are equal. |
| `FidProofs.KeepStart` | src/lib9p/srv.c:200-368 | Every handler, with all its error paths, keeps counts, table and destroy calls consistent. |
| `FidProofs.KeepFinish` | src/lib9p/srv.c:216-253 | So does the part of respond that takes a failed fid back. |
| `FidProofs.KeepFree` | src/lib9p/req.c:78-86 | So does closereq at the last reference, also when two slots name one fid. |
| `FidRuns.RunInv` | src/lib9p/srv.c:724-747 | Every reachable state of the fid engine has the invariant, whatever the interleaving of handlers, replies and frees. |
| `FidRuns.CountIsExact` | src/lib9p/fid.c:36-82 | The count of a fid is [in the table] + the number of fid, newfid and afid slots of live requests that name it. |
| `FidRuns.DestroyedOnce` | src/lib9p/fid.c:63-76 | Destroy has run exactly once for a fid with no reference left and never for another. |
| `FidRuns.NoFreedFidIsNamed` | src/lib9p/req.c:78-86 | Neither the table nor a live request names a destroyed fid. |
| `FidRuns.PoliteNeverFaults` | src/lib9p/srv.c:216-253 | If no fid is clunked or removed while its attach, auth or walk is unanswered, the server never takes back a missing fid. |
| `FidRuns.FailureTakesBackItsOwn` | src/lib9p/srv.c:348-358 | Then a failing request takes out of the table the fid it made itself, and nothing else. |
| `FidRuns.ClunkIsSafeIff` | src/lib9p/srv.c:560-578 | After a clunk or remove some pending request can fault by failing if and only if the fid was still being made. |
| `FidRuns.ImpoliteClunkFaults` | src/lib9p/srv.c:248-253 | The failing case exists: attach, clunk of the same fid, failure of the attach. |
| `FidRuns.TurnAgreesIff` | src/lib9p/srv.c:348-368 | Over one turn the table stays what a client computes from messages and replies alone, if and only if no walk is answered with an error and all its names walked. |
| `FidRuns.TableIsClientView` | src/lib9p/srv.c:200-368 | After any sequence of such turns the table equals the abstract fid map: attach and auth add on success only, walk only if every name was walked, a number in use changes nothing, clunk and remove always drop. |
| `FidRuns.CrookedWalkMisleads` | src/lib9p/srv.c:351-358 | The failing case exists: rwalk reports success for an erring walk with all names walked and still drops the new fid. |
| `FidRuns.NothingLeaks` | src/lib9p/fid.c:36-82 | Between turns a fid is in the table with count one, or it has been destroyed. |
| `FidReplies.ReplyIs` | src/lib9p/srv.c:348-368 | The same reply in every run, at every answering step. |
| `FidReplies.RefusedIsError` | src/lib9p/srv.c:200-589 | In every run a message that names a fid which is not there, makes one that is, or walks from an open one is answered Rerror; any other message but a walk as its handler says. |
| `FidReplies.FreeToAnswer` | src/lib9p/srv.c:200-589 | The handler of a message is free to answer either way if and only if the message is not refused. |
| `FidReplies.HoldsItsFids` | src/lib9p/srv.c:200-589 | From its handler until it is freed a request holds exactly the fids that its numbers named and the one it made. |
| `FidCode.Server.CloseFid` | src/lib9p/fid.c:63-76 | Drops one reference and destroys at zero. |
| `FidCode.Server.AllocFid` | src/lib9p/fid.c:36-55 | Takes two references, and gives both up and destroys the fid when the number is in use. |
| `FidCode.Server.LookupFid` | src/lib9p/fid.c:57-61 | A reference to the fid the table has, or nothing. |
| `FidCode.Server.RemoveFid` | src/lib9p/fid.c:78-82 | The fid leaves the table and the reference of the table goes to the caller. |
| `FidCode.Server.SAuth` | src/lib9p/srv.c:200-215 | The handler of Tauth computes its step of the fid engine. |
| `FidCode.Server.SAttach` | src/lib9p/srv.c:223-247 | The handler of Tattach does, with a number in use, an unknown afid, and NOFID. |
| `FidCode.Server.SWalk` | src/lib9p/srv.c:314-347 | The handler of Twalk does, for an unknown, refused, duplicate and shared fid. |
| `FidCode.Server.SClunk` | src/lib9p/srv.c:560-589 | The handlers of Tclunk and Tremove take the fid out of the table at once. |
| `FidCode.Server.Serve` | src/lib9p/srv.c:729-746 | The switch of the serve loop computes the step of every message. |
| `FidCode.Server.RWalk` | src/lib9p/srv.c:348-368 | Takes the new fid back unless all names were walked, and makes the reply an error exactly if no name was walked and the handler erred or there were names. |
| `FidCode.Server.Respond` | src/lib9p/srv.c:763-800 | The fid part of respond computes the answering step; the reply to a walk that got somewhere is how far it got, to one that got nowhere an error if it erred or had names, and to any other message an error exactly if the handler erred. |
| `FidCode.Server.CloseReq` | src/lib9p/req.c:67-86 | Closes the three slots of a request in turn. |
| `FidCode.Server.Session` | src/lib9p/srv.c:724-747 | Over a whole session the 128-bucket table ends up as the map of the abstract client view. |
| `DirectoryProofs.KeepInv` | src/lib9p/file.c:79-110 | Create, remove, open, read and close keep the order, the counters and all cursors of a directory right. |
| `DirectoryProofs.CursorsStayValid` | src/lib9p/file.c:382-432 | Every open cursor is nil or still points to a node of the list. |
| `DirectoryProofs.BlanksOnlyWhileRead` | src/lib9p/file.c:85-109 | nchild and nxchild count live and blank entries, and blanks exist only while a reader is open. |
| `DirectoryProofs.ReaderSeesEachFileOnce` | src/lib9p/file.c:407-421 | A file present from open until the cursor has run off the end is returned exactly once, and files come in creation order, whatever the read sizes. |
| `DirectoryProofs.ReadReturnsLive` | src/lib9p/file.c:413-418 | A read returns only files that are in the directory at that time. |
| `DirectoryProofs.ScanIsFull` | src/lib9p/file.c:413-418 | A read passes as many entries as fit one after the other, stops only at the end or at one that does not fit, and takes the bytes of what it has passed. |
| `FileTreeProofs.KeepCreateFile` | src/lib9p/file.c:183-248 | createfile keeps links, names, counts and destroy calls right. |
| `FileTreeProofs.KeepRemoveFile` | src/lib9p/file.c:126-181 | So does removefile, in every error case, and its search finds the entry. |
| `FileTreeProofs.KeepWalkFile1` | src/lib9p/file.c:250-276 | So does walkfile1, which trades one reference for another. |
| `FileTreeRuns.RunInv` | src/lib9p/file.c:57-276 | Every state reached by any calls of callers that hold a reference has the invariant of the tree, whoever removes, closes or walks away from a directory that is being read; a run ends before a freed directory is read or closed. |
| `FileTreeRuns.CountIsExact` | src/lib9p/file.c:112-119 | The count of a file is [listed in a directory] + live children + handles, and one more for the root. |
| `FileTreeRuns.DestroyedOnce` | src/lib9p/file.c:112-119 | Destroy runs once for a file, exactly when its last reference goes, and never for the root. |
| `FileTreeRuns.NamesAreDistinct` | src/lib9p/file.c:204-210 | Live siblings have distinct names, and no file is listed in two places. |
| `FileTreeRuns.RemoveAssertHolds` | src/lib9p/file.c:163-166 | The assert of removefile holds in every run. |
| `FileTreeRuns.FreeAssertHolds` | src/lib9p/file.c:57-77 | The asserts of freefile hold: a freed file has no reference, handle or parent entry and only blank entries, and none at all unless it is still being read. |
| `FileTreeRuns.WalkFindsLive` | src/lib9p/file.c:265-271 | A walk that succeeds finds a file that has not been freed and gives a handle to it. |
| `FileTreeRuns.WalkCrashesIff` | src/lib9p/file.c:257-259 | walkfile1 uses a nil parent exactly for ".." in a directory other than the root that is no longer listed. |
| `FileWalks.WalkedIff` | src/lib9p/file.c:250-276 | walkfile1 finds a file if and only if a live entry of the directory has it under that name, or for "..", it lists the directory; and nothing if and only if there is none. |
| `FileChanges.CreatesIff` | src/lib9p/file.c:183-248 | In every run createfile makes a file if and only if its parent is a directory without a file of that name; then it is there under that name, empty, with one handle, and all other entries stay; else nothing changes. |
| `FileChanges.CreateThenWalk` | src/lib9p/file.c:183-276 | A walk to the name of a file just made finds it. |
| `FileChanges.RemovesIff` | src/lib9p/file.c:126-181 | In every run removefile removes a file if and only if it is not the root, is listed and has no files itself; then only its entry goes, else none; the handle goes in every case. |
| `FileReaders.RuleIff` | src/lib9p/file.c:382-405 | A call leaves a handle for every open reader if and only if it does not give up a handle, or open a reader, when there are as many readers as handles. |
| `FileReaders.ReadersKeepTheirDirectory` | src/lib9p/file.c:57-119 | If all calls of a run keep that rule, no directory is ever freed while it is read, and every reader can still be read and closed. |
| `FileReaders.FreedWhileReadIff` | src/lib9p/file.c:112-181 | In any run in which that has not happened yet, a call frees a directory under a reader if and only if it gives up the last handle of an empty one that it removes or that was removed before, or removes the last file of one that was removed before and has no handle. |
| `FileReaders.CarefullyFreedIff` | src/lib9p/srv.c:591-604 | After a run that keeps the rule only the first of the two can happen. |
| `FileFailures.RemovedWhileRead` | src/lib9p/srv.c:591-604 | The failing case exists: create, open for reading and remove through one handle, as Topen and Tremove of one fid do. |
| `FileFailures.FreedWithItsLastFile` | src/lib9p/file.c:160-181 | The other failing case exists: a directory is opened for reading and removed, a file is made in it, the last handle is closed, and the file is removed. |
| `FileFailures.DotDotCrashes` | src/lib9p/file.c:257-259 | A run reaches ".." in a directory that has been removed, where walkfile1 uses a nil parent. |
| `FileCode.Files.constructor` | src/lib9p/file.c:315-358 | A new tree is the root alone, with the reference of the tree. |
| `FileCode.Files.CleanFileList` | src/lib9p/file.c:79-110 | The loop removes exactly the blank entries, and only when no reader is open. |
| `FileCode.Files.CloseFile` | src/lib9p/file.c:112-119 | Keeps the invariant of the tree, gives one handle back and changes nothing else; the file is destroyed exactly if it is not the root, has no parent entry, no children and no other handle. |
| `FileCode.Files.CreateFile` | src/lib9p/file.c:183-248 | Fails for a non-directory or a name in use, else appends the file at the end with its three references. |
| `FileCode.Files.RemoveFile` | src/lib9p/file.c:126-181 | Fails without parent, for the root and with children; gives the handle back in every case; else blanks the entry and drops parent, tree and caller references. |
| `FileCode.Files.WalkFile1` | src/lib9p/file.c:250-276 | Returns the file that the name leads to by an entry, the directory that lists this one for "..", the root from the root, and nothing exactly if there is none; crashes exactly for ".." in a directory other than the root that nothing lists. |
| `FileCode.Files.OpenDir` | src/lib9p/file.c:382-405 | A new cursor at the first node, for directories only, on any handle. |
| `FileCode.Files.ReadDir` | src/lib9p/file.c:407-421 | Advances the cursor over exactly as many entries as fit the room, one after the other, and returns the bytes of the files passed. |
| `FileCode.Files.CloseDir` | src/lib9p/file.c:423-432 | The cursor goes, and with the last one the blanks. |
| `FileCode.Files.FileWalk` | src/lib9p/srv.c:123-145 | filewalk returns a file exactly if there is a path of entries to it along all names, and the length of the longest prefix of the names that has one; the only reference it leaves is to the file found; it crashes exactly if a path leads to a directory that nothing lists and the next name is "..". |
| `FileCode.ResolvedIff` | src/lib9p/srv.c:133-143 | All names are walked exactly when a file is found. |
| `RWLockRuns.KeepInv` | doc/tmp/lowlevel.c:1209-1366 | Every routine keeps holders, counters and queue in step. |
| `RWLockRuns.WriterIsAlone` | doc/tmp/lowlevel.c:1209-1366 | A thread that writes is alone: nobody else reads or writes. |
| `RWLockRuns.NeverAborts` | doc/tmp/lowlevel.c:1254-1366 | None of the aborts of runlock and wunlock is reached by threads that unlock what they hold. |
| `RWLockRuns.QueueOnlyWhileHeld` | doc/tmp/lowlevel.c:1209-1366 | The queue is empty unless the lock is held, and has a writer at its head while readers hold it. |
| `RWLockRuns.FirstComeFirstServed` | doc/tmp/lowlevel.c:1327-1366 | The lock is granted to queued threads in exactly the order in which they queued. |
| `RWLockRuns.NoBarging` | doc/tmp/lowlevel.c:1215-1316 | A lock taken at once or by a try-lock is taken with nobody queued. |
| `RWLockRuns.TakenIff` | doc/tmp/lowlevel.c:1209-1324 | A thread that asks or tries to read has the lock at once if and only if no thread writes and none waits, one that asks or tries to write if and only if none reads or writes; else it waits, or has nothing if it tried. |
| `RWLockRuns.LastReaderHandsOver` | doc/tmp/lowlevel.c:1253-1279 | The last reader hands the lock to the writer that waited longest, other readers to nobody. |
| `RWLockRuns.BatchOfReaders` | doc/tmp/lowlevel.c:1327-1366 | wunlock grants one writer, or all leading readers as one batch and the next waiter is a writer. |
| `RWLockCode.RWLock.RLock` | doc/tmp/lowlevel.c:1209-1237 | Takes the lock or queues at the tail of the linked list. |
| `RWLockCode.RWLock.CanRLock` | doc/tmp/lowlevel.c:1239-1251 | Takes the lock only with no writer and an empty queue. |
| `RWLockCode.RWLock.RUnlock` | doc/tmp/lowlevel.c:1253-1279 | The last reader hands the lock to the writer at the head; both aborts are as in the specification. |
| `RWLockCode.RWLock.WLock` | doc/tmp/lowlevel.c:1281-1310 | Takes a free lock or queues. |
| `RWLockCode.RWLock.CanWLock` | doc/tmp/lowlevel.c:1312-1324 | Takes a free lock only. |
| `RWLockCode.RWLock.WUnlock` | doc/tmp/lowlevel.c:1326-1366 | Hands the lock to the head writer or to the leading readers, or frees it. |
| `RWLockCode.RWLock.WakeReaders` | doc/tmp/lowlevel.c:1355-1363 | The loop wakes exactly the leading readers and counts them. |
| `QLockRuns.KeepInv` | doc/tmp/lowlevel.c:1145-1454 | Every routine of QLock and Rendez keeps owner, queue and sleepers in step. |
| `QLockRuns.OneOwner` | doc/tmp/lowlevel.c:1145-1193 | There is at most one owner, one exactly while the lock is locked, and nobody queues for a free lock. |
| `QLockRuns.BlockedInOneList` | doc/tmp/lowlevel.c:1368-1454 | A blocked thread is in exactly one list, once; any other thread is in none. |
| `QLockOrder.TakenIff` | doc/tmp/lowlevel.c:1145-1207 | A thread that asks has the lock at once if and only if nobody has it; a try-lock also needs the inner lock. |
| `QLockOrder.FirstComeFirstServed` | doc/tmp/lowlevel.c:1145-1193 | A thread that asks while another waits is not served as long as that one waits. |
| `QLockOrder.HandedOn` | doc/tmp/lowlevel.c:1174-1193 | An owner that unlocks or sleeps hands the lock to exactly one queued thread, if there is one. |
| `QLockOrder.WakeupWakesOne` | doc/tmp/lowlevel.c:1410-1444 | rwakeup moves exactly one thread that sleeps there to the queue, if there is one. |
| `QLockOrder.WokenComesFirst` | doc/tmp/lowlevel.c:1410-1444 | A sleeper that is woken is served before all that were queued. |
| `QLockOrder.SleepersInOrder` | doc/tmp/lowlevel.c:1368-1444 | Sleepers are woken in the order in which they went to sleep. |
| `QLockCode.LockAndRendez.QLock` | doc/tmp/lowlevel.c:1145-1172 | Takes a free lock or queues at the tail. |
| `QLockCode.LockAndRendez.CanQLock` | doc/tmp/lowlevel.c:1195-1207 | Takes a free lock only. |
| `QLockCode.LockAndRendez.QUnlock` | doc/tmp/lowlevel.c:1174-1193 | Passes the lock to the head of the queue, or frees it. |
| `QLockCode.LockAndRendez.RSleep` | doc/tmp/lowlevel.c:1368-1408 | The caller joins the sleepers and passes the lock on. |
| `QLockCode.LockAndRendez.RWakeup` | doc/tmp/lowlevel.c:1410-1444 | The first sleeper moves to the front of the lock queue. |
| `QLockCode.LockAndRendez.RWakeupAll` | doc/tmp/lowlevel.c:1446-1454 | The loop ends, returns the number of sleepers and leaves them reversed ahead of the old queue. |
| `SleepInvariant.KeepInv` | doc/Process/proc.c:733-807 | Every step of sleep, wakeup and postnote keeps the invariant. |
| `SleepTheorems.RunInv` | doc/Process/proc.c:733-944 | Every reachable state has it. |
| `SleepTheorems.LinksAgree` | doc/Process/proc.c:733-807 | With neither lock held, r->p is p exactly when p->r is r and p is in state Wakeme. |
| `SleepTheorems.NeverPanics` | doc/Process/proc.c:860-944 | "double sleep" is never reported and neither panic is reached. |
| `SleepTheorems.OneReadyPerSleep` | doc/Process/proc.c:860-944 | Each committed sleep gets exactly one ready. |
| `SleepTheorems.HolderGoesOn` | doc/Process/proc.c:860-944 | Who holds the lock of a Rendez can go on, or waits for an rlock that a poster has, and that one can. |
| `SleepTheorems.Blocker` | doc/Process/proc.c:733-944 | A process inside one of the routines can go on, or the one that has the lock it needs can, or the one that has the lock which that one needs. |
| `SleepTheorems.StepShrinksWork` | doc/Process/proc.c:733-944 | Every step of sleep, wakeup and postnote leaves less work, except a failed canlock, which leaves one step more. |
| `SleepTheorems.RetryMakesWay` | doc/Process/proc.c:917-941 | When the canlock of a poster fails, the holder of the Rendez can go on, or waits for just this poster and can then wake the sleeper. |
| `SleepTheorems.StepsAreBounded` | doc/Process/proc.c:733-944 | In any stretch of a run without new calls the number of steps is at most the work at its start plus two for each failed canlock. |
| `SleepTheorems.Progress` | doc/Process/proc.c:733-944 | While a process is inside one of the routines somebody can make a step that leaves less work, if need be after one failed canlock of a poster: no deadlock, and no two that only give way to each other. |
| `SleepTheorems.NothingLost` | doc/Process/proc.c:733-944 | When all calls have run their course, a process still asleep has a false condition and no note pending. |
| `SleepTheorems.WakerOnTheWay` | doc/Process/proc.c:860-944 | A sleeper whose condition is true has a waker on the way, and one with a note a poster. |
| `SleepCalls.SleepSleeps` | doc/Process/proc.c:749-791 | A process that saw the condition false and then no note has gone to sleep once more and stays in state Wakeme on r until it is made ready, once. |
| `SleepCalls.NeverMinds` | doc/Process/proc.c:751-758 | One that saw the condition true, or a note, is out of sleep again without having slept. |
| `SleepCalls.WakesUp` | doc/Process/proc.c:778-801 | One that slept goes on only after it was made ready, and is then out of sleep. |
| `SleepCalls.ReturnsForCause` | doc/Process/proc.c:734-803 | A call of sleep returns only if it found the condition true or a note at its tests, or the process slept once and was made ready once. |
| `SleepCalls.NotePendingIff` | doc/Process/proc.c:793-801 | A note is pending from when it is posted until the end of a sleep takes it, and at no other time. |
| `SleepCalls.ConditionIff` | doc/Process/proc.c:733-944 | The routines leave the condition alone: it is true exactly from when an event makes it so until one uses it up. |
| `CpuShare.UpdateIs` | doc/Process/proc.c:274-302 | For any averaging time D > 0, updatecpu keeps cpu within 0..1000, rises only for a running and falls only for a process that does not run, strictly unless at the end of the range; after D half ticks nothing of the past is left. |
| `CpuShare.UpdateValue` | doc/Process/proc.c:274-302 | The new cpu is the part (D-n)/D of the old one, rounded down, or 1000 less that part of what was missing, where n is the time since, D at most. |
| `CpuShare.YieldCosts` | doc/Process/proc.c:444-452 | A yield makes the next update raise cpu even in the same tick, unless it is at its end. |
| `CpuShare.UpdateTwice` | doc/Process/proc.c:283-288 | A second update in the same tick changes nothing. |
| `CpuShare.AlwaysAShare` | doc/Process/proc.c:274-302 | Over any history of updates and yields cpu stays within 0..1000. |
| `CpuShare.MovesWithUse` | doc/Process/proc.c:234-302 | Over any stretch of a history in which the process only runs cpu does not fall, and in which it never runs it does not rise. |
| `CpuShare.RoundsHalfUp` | doc/Process/proc.c:331 | (fairshare+n/2)/n is fairshare/n rounded to the nearest whole number, halves up, for odd and even n. |
| `CpuShare.OnlyOneRounding` | doc/Process/proc.c:331 | No other number is that rounding. |
| `CpuShare.PriorityInRange` | doc/Process/proc.c:313-338 | The priority is within 0..basepri, so the panic is unreachable. |
| `CpuShare.PriorityValue` | doc/Process/proc.c:313-338 | The priority is the fair share, rounded down, over cpu, rounded to the nearest, or the base priority where that is less or there is no load. |
| `CpuShare.PriorityFalls` | doc/Process/proc.c:313-338 | More processor use or more load never gives a higher priority. |
| `RunQueueCode.Sched.QueueProc` | doc/Process/proc.c:343-361 | Appends to the linked queue; links, n, nrdy, runvec and priority stay right. |
| `RunQueueCode.Sched.DequeueProc` | doc/Process/proc.c:366-407 | Unlinks the process found by the trailing-pointer loop, or fails and changes nothing. |
| `RunQueueCode.Sched.UpdateCpu` | doc/Process/proc.c:274-302 | Writes the new share of the process. |
| `RunQueueCode.Sched.Ready` | doc/Process/proc.c:413-439 | The process joins exactly the queue of its new priority. |
| `RunQueueCode.Sched.Rebalance` | doc/Process/proc.c:461-493 | Keeps the multiset of ready processes and all counters. Once a second has passed, which is an unsigned difference, it terminates with no queue that has a head of this machine that belongs elsewhere, or it comes to a queue where the C loop spins; the latter if and only if a queue jams before the call, that is, has a process that ought to be moved and has its state not saved, behind only processes that ought to be moved. It is the first such queue. |
| `RunQueueCode.SpinsForever` | doc/Process/proc.c:461-493 | The failing case exists: one process on the wrong queue whose state is not saved. |
| `RunQueueCode.MoveJams` | doc/Process/proc.c:476-491 | Moving a process to the queue it belongs to changes for no queue whether it jams. |
| `RunQueue.OnOneQueue` | doc/Process/proc.c:343-407 | A process on one queue is on no other. |
| `TimerCode.Clock.Schedule` | doc/tmp/p9-process.c:1298-1323 | The time of a relative timer is at least one ns from now, of a periodic one a period after its last time, or together with the first timer of the same period, or a period from now. |
| `TimerCode.Clock.TAdd` | doc/tmp/p9-process.c:1293-1335 | Inserts behind all timers that are not later, keeps the list sorted, and returns the time if the timer is first. |
| `TimerCode.Clock.TDel` | doc/tmp/p9-process.c:1338-1358 | Removes the timer and returns the time of the new first timer if it was the first. |
| `TimerCode.Clock.TimerAdd` | doc/tmp/p9-process.c:1361-1381 | The list is the old one without the timer, and the timer, with its time, behind all that are not later; the hardware is never programmed later than the head, no time zero and no period zero, exactly if the time and the period of the new timer are positive. |
| `TimerCode.AddThenInterrupt` | doc/tmp/p9-process.c:1361-1476 | A timer just added goes off in the next interrupt if and only if that comes at its time or later. |
| `TimerCode.PeriodZero` | doc/tmp/p9-process.c:1304-1323 | The failing case exists: with a period of no ticks a due timer goes off and leaves as much to do as before. |
| `TimerCode.Clock.TimerDel` | doc/tmp/p9-process.c:1384-1398 | The other timers stay in their order, and the hardware is never programmed later than the head. |
| `TimerCode.Clock.TimerIntr` | doc/tmp/p9-process.c:1434-1476 | Terminates, fires in non-decreasing time, each timer exactly as often as it was due, and leaves a sorted list whose head is after now and is the time programmed. |
| `Timers.FiredExactly` | doc/tmp/p9-process.c:1447-1474 | A due periodic timer fires (now-twhen)/period+1 times at twhen, twhen+period, ..., a due one-shot once; others not at all. |
| `Timers.NotBeforeItsTime` | doc/tmp/p9-process.c:1447-1474 | A timer goes off in an interrupt if and only if its time has come. |
| `Timers.DueIs` | doc/tmp/p9-process.c:1299-1323 | The time that tadd computes, told from the list and the clock. |
| `Timers.InsertIs` | doc/tmp/p9-process.c:1325-1331 | A timer goes behind all that are not later and before all that are. |
| `Timers.WorkShrinks` | doc/tmp/p9-process.c:1447-1474 | A firing leaves less to do if and only if it is not that of a periodic timer with period zero. |
| `BiobufCode.Biobufhdr.constructor` | src/libbio/binit.c:54-88 | A new buffer is empty and at position 0. |
| `BiobufCode.Biobufhdr.Refill` | src/libbio/bgetc.c:21-41 | The refill makes one read, keeps the position, puts the new bytes last and up to four old ones before them; Binactive exactly if that read fails, Bracteof at the end of the file. |
| `BiobufCode.Biobufhdr.Bgetc` | src/libbio/bgetc.c:5-42 | Hands out the byte of the file at the position, or EOF exactly if nothing is buffered and the file is at its end, the one read made fails, or the state forbids to read; pushback depth grows by one up to five. |
| `BiobufCode.Biobufhdr.Bungetc` | src/libbio/bgetc.c:44-54 | Moves the position back by one and clears an end of file; what is read next is right exactly if there was a byte to put back. |
| `BiobufCode.Biobufhdr.Boffset` | src/libbio/boffset.c:5-26 | The position in the file. |
| `BiobufCode.Biobufhdr.Bread` | src/libbio/bread.c:5-48 | Hands out the next bytes of the file, exactly as many as asked for or as there are unless a read fails; Binactive exactly if one failed, Bracteof exactly if the file ended. |
| `BiobufCode.Biobufhdr.Bseek` | src/libbio/bseek.c:5-57 | In the buffer or by a real seek, the position afterwards is the target, and what is handed out next is the file from there exactly if the target is not negative and the bytes gbuf vouches for are the file's; they are wherever Seekable holds. |
| `BiobufCode.Biobufhdr.Brdline` | src/libbio/brdline.c:5-88 | Unless a read fails, shows a line in the buffer if and only if there is one that fits it or is in the pushback, and consumes exactly through the first delimiter; else the next rdline bytes have no delimiter and are a full buffer or all there is, and it consumes nothing but the pushback before a full buffer, which is lost. |
| `BiobufCode.Biobufhdr.Brdstr` | src/libbio/brdstr.c:24-112 | Unless a read fails, consumes through the first delimiter if there is one ahead, however long the line is, else to the end of the file, and returns those bytes, without the delimiter if asked; pushback before a full buffer is lost exactly if the bytes left have no delimiter; after a delimiter one can put back and seek. |
| `BiobufRuns.Mix` | src/libbio/boffset.c:16-19 | Any mix of Bgetc, Bungetc, Bread, Brdline, Brdstr and Bseek agrees call by call with an unbuffered stream at Boffset, and every call without a failing read gives all that it should. |
| `BiobufRuns.PutBack` | src/libbio/bgetc.c:21-54 | Up to four bytes read by Bgetc can be put back and are handed out again, even if each came with a refill of its own; fewer only if a read fails or the file ends. |
| `BiobufRuns.LosesPushback` | src/libbio/brdline.c:37-87 | The failing case exists: two bytes put back before a buffer of one, and Brdline, which finds no delimiter, goes on behind the first. |
| `BiobufRuns.PutsBackNothing` | src/libbio/bgetc.c:44-54 | A byte can be put back that was never read. |
| `BiobufRuns.SeeksBeforeStart` | src/libbio/bseek.c:5-57 | A seek before the beginning leaves the position at -1. |
| `BiobufRuns.SeeksIntoStaleBytes` | src/libbio/bgetc.c:28 | The failing case exists: after an end of file was met and cleared a seek back within the buffer hands out a byte that was never read. |

## Left out

- FlushTheorems.RflushComesLast: a duplicate tag on a Tflush is excluded, because respond asserts on the error that getreq stored (src/lib9p/srv.c:271).
- FidCode.Server.SWalk: whether the fid is open or is no directory is an input (`refused`); open modes and qids are not modelled.
- FidRuns.TableIsClientView: requests are handled one at a time there; for interleaved requests the counts and the rule about clunks are proved instead.
- File references held by fids, which an in-place walk overwrites (src/lib9p/srv.c:140-143); file counts are stated for the routines of file.c and for filewalk.
- What happens after a crash or in memory that has been freed: a walk that crashes changes nothing, and a run ends before a freed directory is read or closed.
- FileCode.Files.ReadDir: a packed entry has more than two bytes; packing itself is a size function.
- Multi-component `walkfile`, `freetree`, qid numbers, permissions, times and the free list of files.
- The lists of file.c, intmap.c and the timers are sequences that the methods reassign; links and nodes are modelled for the lock queues and the run queues only.
- Tversion, reads and writes of data, authentication, wire marshalling, and the file descriptor loop around the server.
- Atomicity of `incref` and `decref`, and of each critical section under a spin lock, is assumed.
- getqlp: the search for a free queue slot; a thread's slot stands for the thread.
- RWLockRuns.NeverAborts: threads unlock only what they hold.
- More than one sleeper on a Rendez, `tsleep`, EDF scheduling, `runproc`, and processors other than the one that rebalances.
- RunQueueCode.Sched.Rebalance: the run queue lock is free when dequeueproc tries it; a busy one only makes the loop look again.
- RunQueueCode.Sched.UpdateCpu: 1000 * D fits in an int.
- RunQueueCode.Sched.QueueProc: runvec is the set of its one bits.
- TimerCode.Clock.TimerAdd: after a move of the head the programmed time can be too early, so only "not later" is stated; the assert on periods under 100 microseconds is not modelled.
- TimerCode.Clock.TimerIntr: timer functions do not touch the list; the deferred call of hzclock is not modelled.
- BiobufCode.Biobufhdr.Brdstr: promises no pushback or seek after a string that ends with the file.
- BiobufCode.Biobufhdr.Bseek: which bytes are good is a ghost count; a caller knows them by Seekable, which every routine keeps unless an end of file is met and cleared.
- BiobufRuns.Mix: stops before a call that has nothing to put back, would seek to a negative position or after an end of file was met and cleared (src/libbio/bgetc.c:28, src/libbio/brdstr.c:60-81), or has pushback before a full buffer.
- Writing through a Biobuf, formatted input, and the 32-bit range of icount.
- libcontrol, libString, libbin, libactobj, graphics, factotum and the L4 wrappers.
