# A model of diod in Dafny

diod is a file server for the 9P2000.L protocol. This project models the parts of it whose
correctness rests on reasoning across functions and across threads, and proves that they do
what the code and its comments promise.

- **Requests** (`Lifecycle*.dfy`, `Server.dfy`, `ReqLists.dfy`). A request is received, queued on a
  thread pool, worked on, replied to, unlinked and freed, while Tflush, the closing of a connection
  and the clean-up of thread pools act on it at any of these moments. Each critical section under
  `srv->lock` is one action of a state machine. A log of events lets the theorems speak of whole
  runs. `Server.Server` has the code that searches or runs over several pools, and
  `ReqLists.Nptpool` the two doubly linked lists of one pool, which share their link fields.
- **Fids** (`Fid*.dfy`). The fid table with its zombies and move-to-front buckets, and the
  references that requests hold. `FidHandlers` has the request handlers with all their exits, each
  proved to be steps of the protocol that leave no reference behind. `FidBucket` is one bucket as
  the doubly linked list it is.
- **Paths and open files** (`Path*.dfy`). The pool of shared Paths, the files that fids have open
  through them, and the handlers that replace one Path by another.
- **Messages** (`Wire`, `Messages`, `Codec`, `Cbuf`, `Packets`). The field layout of every message type is
  written down three times, as the builders write it, as `np_deserialize` reads it and as the
  builders compute its size; the three are proved to agree, and encoding and decoding to be
  inverse. `CbufModule` is the cursor code over byte arrays.
- **Framing** (`Fdtrans`), **directory reading** (`Readdir`), **host lists** (`Host*.dfy`), **lists
  with iterators** (`List*.dfy`), **id allocation** (`IdPool`) and the **credentials** of worker
  threads (`Credentials`).

The lemmas about values state the results; the classes and methods follow the C code statement
by statement and are proved to compute the functions those lemmas are about. Allocation
failures, system calls, the kernel and the peer are parameters.

Some promises hold only under a condition. Each of these has a lemma that gives the exact
condition, and where it is of interest a lemma with an input outside it:

- `np_flush` searches the pools that are in the server's list. A request being worked on in a
  pool that has left the list is not found, is answered by an Rflush at once, and replies
  afterwards (`FlushFinds`, `FlushCanMiss`). `np_conn_flush` misses such a request too: after the
  close of its connection a request replies exactly if its pool was unlisted at that moment and
  nothing else silenced it (`ClosedReplies`, `CloseCanMiss`).
- `hostrange_cmp` subtracts two `unsigned long` values into an `int`. The result has the sign of
  the order exactly when the difference survives this (`CmpIsKeyOrder`, `CmpOverflows`). Where it
  does not, a range with a larger lower end can sort first. `hostrange_join` then takes the second
  range for a part of the first and drops it, and `hostlist_coalesce` takes the first for empty
  and deletes the second, which it goes on to read. Coalesce does so exactly if the lower ends are in
  the wrong order (`Split`, `SplitNeighbours`), as in `n[3221225472,0000000000]` (`FarApart`). A
  join loses hosts exactly if the lower ends are in the wrong order, or if a range that ends at
  `ULONG_MAX` is followed by one that starts at 0 (`Join`, `AttemptRangeJoin`, `UniqPair`), as in
  `n[0-18446744073709551615],n[0]` (`AroundLoses`).
- A range may end at `ULONG_MAX`, which an `unsigned long` counter cannot pass (`CountingEnds`).
  `hostlist_sort` comes to an end exactly if no two ranges of one prefix, of two or more hosts each,
  end there (`Sort`, `SplitOverlaps`, `InsertSingles`); with
  `n[18446744073709551613-18446744073709551615,18446744073709551614-18446744073709551615]` it does not
  (`EndlessSort`). `hostlist_create` comes to an end exactly if no such range is followed by a suffix
  (`Create`); on `n[18446744073709551615]x` it does not (`SuffixEndless`). `hostlist_delete_nth` takes what
  is left of such a range for empty: it deletes all of it, exactly if asked for its first host
  (`DeleteNth`, `FirstTakesAll`).
- Names are told apart by prefix, number and printed length. Two hosts that are not the same can
  have the same name if a prefix or a name ends in a digit, as in `f[01],f0[1]`, and then
  `hostlist_uniq` keeps both (`NameInjective`, `OneNameTwice`).
- On `unsigned long` 0 comes after `ULONG_MAX`: `hostlist_push_range` extends a range that ends
  there by one that starts at 0, and hosts are lost. If no push does so, and only then, the hosts
  pushed are those of the list, in order (`PushExactly`, `PushAllExactly`, `BothLost`), and a list
  that comes to an end in `hostlist_create` stands for the hosts of its text (`Create`). Ranges that
  end below `ULONG_MAX` never do (`BelowNeverWraps`). `hostlist_collapse` has the same condition
  (`CollapseExactly`).
- `hostlist_ranged_string` writes no comma while it has written nothing, so that a list of several
  ranges that starts with the empty name is printed without it, and only such a list
  (`PrintedExactly`).
- `hostlist_delete_nth` accepts `n == nhosts`; it then deletes nothing and still decrements the
  count (`DeleteNth`).
- The parser's limit of 16384 hosts in a range lets through exactly one larger range, 0 to
  `ULONG_MAX`, whose size is 0 in an `unsigned long` (`LimitPassed`).
- A data count of 2^31 or more is negative as the `int` that `buf_alloc` takes: the cursor moves
  backwards, which is no overflow. `np_deserialize` accepts exactly the packets that begin with a
  message and those with such a count, which do not (`Deserialize`, `NegativeIsNone`,
  `BackwardsCount`).
- `np_fid_decref_bynum` keeps the accounts exactly when there is no such fid, which is why the
  fix-up of an interrupted walk is harmless; a clunk keeps them exactly when the client still
  has a reference, or nobody else a pointer (`DecrefByNumNeedsNothing`, `ClunkNeedsClient`,
  `SecondClunkFrees`).
- `np_auth` gives the client its reference to the afid before it looks up the user. A Tauth that
  fails after that leaves the client a reference it was told it did not get (`FidHandlers.Conn.Auth`).
- Replacing the Path of a fid, in a walk in place or a rename, keeps the accounts of open files
  exactly when the fid is not open, or keeps its Path (`ReplaceExactly`).
- A walk copies the flags of its fid to the new one. This breaks the table exactly if it revives a
  zombie beside a fid of the same number, and the fix-up of an interrupted walk exactly if it finds
  a fid (`InheritExactly`, `FinishExactly`). Neither happens to a client that leaves alone the
  number of a fid that is being made (`PoliteRuns`).
- A kernel that refuses `setfsuid` or `setfsgid` in silence is not noticed by the call it refuses.
  A success has the ids asked for exactly if the last switch attempted was obeyed; later calls for
  the same uid succeed with the wrong one, and the first for another uid fails, as do all after it
  (`SuccessExactly`, `AfterRefusal`, `RefusedRun`).
- `npc_get_id` returns ids beyond `maxid` except for the values of `maxid` that
  `IdsWithinMaxid` names. Both values in use, NOTAG and NOFID, are among them, and `maxid`
  itself can be returned.

## Model

| member | source | states |
|---|---|---|
| `LifecycleInv.StepInv` | src/libnpfs/srv.c:176-873 | every critical section keeps the invariant: places and requests agree both ways, counts are exact, closed connections are silenced, unlinked pools have no queue |
| `LifecycleInv.RunInv` | src/libnpfs/srv.c:176-873 | the invariant holds in every state of every run |
| `LifecycleOrder.TakenInOrder` | src/libnpfs/srv.c:176-229 | in every run, of two requests queued on one pool the one queued first is taken first, and is no longer queued when the other is taken; stated on where the requests are |
| `LifecycleOrder.StepThins` | src/libnpfs/srv.c:176-229 | every step but a queueing one leaves in each queue some of its members, in the order they had |
| `LifecycleOrder.EnqueueJoins` | src/libnpfs/srv.c:176-189 | a request that is queued joins the end of one queue, and no other changes |
| `LifecycleInv.FlushLateKeeps` | src/libnpfs/fcall.c:256-299 | a Tflush takes over a request being worked on, and frees the one attached before: places, counts and references still agree |
| `LifecycleInv.AnswerFlushKeeps` | src/libnpfs/conn.c:266-278 | so when the reader answers and frees a Tflush that need not wait |
| `LifecycleInv.FinishFlushKeeps` | src/libnpfs/srv.c:722-729 | so when an attached Tflush is answered after its request has left the work list |
| `LifecycleTheorems.OwnedOnce` | src/libnpfs/srv.c:176-229 | a request is live exactly while one place holds it: reader, a queue slot, a work list slot, a finishing worker or another request's flushreq; never two |
| `LifecycleTheorems.FlushedNeverReplies` | src/libnpfs/fcall.c:256-299 | after the Rflush of a Tflush that found its request being worked on, that request never replies; one found queued never replies at all |
| `LifecycleTheorems.FlushAnsweredOnce` | src/libnpfs/srv.c:722-766 | a Tflush is answered at most once; once it is freed it was answered exactly once, or else a later Tflush of the same request took its place, and then never |
| `LifecycleTheorems.SettledOnce` | src/libnpfs/srv.c:769-873 | each request is freed once; an ordinary one is replied to, suppressed or dropped, exactly one of these and once |
| `LifecycleTheorems.ConnCounts` | src/libnpfs/conn.c:75-168 | a connection counts its live requests, is destroyed only when it has none, and nothing is sent on it afterwards |
| `LifecycleSilence.RepliesExactly` | src/libnpfs/srv.c:671-780 | in every run the worker's reply is sent if and only if no EINTR of that request and no close of its connection, met while it was on the work list of a listed pool, came before; nothing undoes either |
| `LifecycleSilence.ClosedReplies` | src/libnpfs/conn.c:288-311 | a request that answers after the close of its connection was being worked on at the close, and replies if and only if it still had its reply then, its pool was not in the list then, and no EINTR came after |
| `LifecycleMissedFlush.CloseCanMiss` | src/libnpfs/conn.c:288-311 | there is a run in which a reply is sent on a connection that was closed before |
| `LifecycleTheorems.PoolCounts` | src/libnpfs/srv.c:323-408 | a pool counts the fids assigned to it, the default pool one more; an unlinked pool has an empty queue; the default pool stays while the server is up |
| `LifecyclePools.SelectExactly` | src/libnpfs/srv.c:333-367 | a fid gets the default pool if there is to be only one or its name is no path, else the listed pool of its name; a new one is made and listed after the default if and only if there is none |
| `LifecyclePools.NamesApart` | src/libnpfs/srv.c:333-367 | in every run the listed pools have different names |
| `LifecyclePools.OnePoolPerName` | src/libnpfs/srv.c:333-367 | so two fids have one pool if and only if their pools have one name |
| `LifecyclePools.CleanupExactly` | src/libnpfs/srv.c:384-408 | with a connection exactly the listed pools go that no fid has, the default one excepted; the others keep their order |
| `LifecyclePools.PoolStays` | src/libnpfs/fcall.c:355-357 | a fid made by a walk has the pool of the fid walked from, and no other step but its own selection changes the pool of a fid |
| `LifecycleInv.CleanupSparesQueues` | src/libnpfs/srv.c:384-408 | a pool whose count is zero has no queued request |
| `LifecycleTheorems.FlushFinds` | src/libnpfs/fcall.c:256-299 | np_flush finds a queued or working request exactly when its pool is in the list, and then that request |
| `LifecycleSilence.FlushSilences` | src/libnpfs/fcall.c:256-299 | if a Tflush is carried out while the request it names is queued or worked on in a listed pool, no reply of that request comes after the Rflush, in any later state of the run |
| `LifecycleMissedFlush.FlushCanMiss` | src/libnpfs/fcall.c:256-299 | there is a run in which the reply of a request comes after the Rflush of a Tflush that named it |
| `Server.Server.constructor` | src/libnpfs/srv.c:44-84 | the server starts with the default pool alone, held by one reference |
| `Server.Server.Find` | src/libnpfs/fcall.c:256-299 | the nested loops find what Search finds: pools in order, each queue before the work list |
| `Server.Server.Flush` | src/libnpfs/fcall.c:256-299 | performs the FlushReq action in all three branches, and says whether the caller answers |
| `LifecycleInv.UnrefKeeps` | src/libnpfs/srv.c:840-873 | freeing a request that is on no list keeps all places and counts, its connection's included |
| `LifecycleInv.DequeueKeeps` | src/libnpfs/srv.c:195-206 | so does unlinking and freeing a queued request, which never has a flushreq |
| `Server.Server.ConnFlush` | src/libnpfs/conn.c:288-311 | performs the CloseConn action: queued requests are dropped, working ones silenced, pool by pool |
| `Server.Server.DestroyConn` | src/libnpfs/conn.c:157-168 | performs the DestroyConn action, pool clean-up included |
| `Server.Server.CleanupPools` | src/libnpfs/srv.c:384-408 | unlinks exactly the pools Cleanup unlinks |
| `Server.Server.SelectPool` | src/libnpfs/srv.c:333-367 | performs the SelectPool action: the default pool, the pool of that name, or a new one after the default |
| `ReqLists.Nptpool.AddReq` | src/libnpfs/srv.c:176-193 | the pointer writes append to the queue, and the pool is then as the Enqueue action leaves it; the two lists stay linked if and only if the next field, which is not written, was null |
| `ReqLists.EnqueuesAt` | src/libnpfs/srv.c:176-193 | the Enqueue action appends to the pool of the fid of the request, or to the default pool if there is none |
| `ReqLists.Nptpool.RemoveReq` | src/libnpfs/srv.c:195-206 | they take exactly that request out of the queue, first and last included; its own next and prev stay as they were and the work list is not touched |
| `ReqLists.Nptpool.AddWorkreq` | src/libnpfs/srv.c:209-217 | they put the request at the head of the work list whatever its next and prev were |
| `ReqLists.Nptpool.RemoveWorkreq` | src/libnpfs/srv.c:220-229 | they take exactly that request out of the work list |
| `ReqLists.Nptpool.Take` | src/libnpfs/srv.c:176-229 | the first queued request goes to the head of the work list, and the pool is then as the Take action leaves it |
| `ReqLists.Find` | src/libnpfs/fcall.c:266-294 | following next from the head returns the first request of the connection and tag, or null |
| `ReqLists.FirstIsMatch` | src/libnpfs/fcall.c:266-294 | that is the request the FlushReq action finds in that list |
| `ReqLists.Nptpool.Drain` | src/libnpfs/conn.c:295-302 | unlinking while following next, read beforehand, leaves exactly the requests of other connections, in order |
| `ReqLists.DrainFilters` | src/libnpfs/conn.c:295-302 | those are what the CloseConn action leaves in that queue |
| `ReqLists.Nptpool.Silence` | src/libnpfs/conn.c:303-309 | exactly the requests of the connection on the work list are marked, and no link changes |
| `Fids.LookupFinds` | src/libnpfs/fidpool.c:158-172 | the lookup finds a fid exactly when it is the live one of that number that is no zombie |
| `Fids.TouchKeeps` | src/libnpfs/fidpool.c:145-172 | moving a found fid to the front keeps the table |
| `Fids.FindKeeps` | src/libnpfs/fidpool.c:201-213 | np_fid_find keeps the table: counts equal holders, buckets hold each live fid once |
| `Fids.CreateKeeps` | src/libnpfs/fidpool.c:218-246 | np_fid_create keeps it, and one number has one fid that is no zombie |
| `Fids.CreateExactly` | src/libnpfs/fidpool.c:218-246 | if the server is not loose and the number leads to a fid, nothing changes; else the fid is made with one reference, and of the others exactly one of that number becomes a zombie |
| `Fids.ReleaseKeeps` | src/libnpfs/fidpool.c:267-291 | np_fid_decref keeps it; the last reference unlinks and destroys |
| `FidInv.StepInv` | src/libnpfs/fcall.c:66-584 | every step of every handler keeps the accounts of fid references; the end of a handler needs no assumption about what it holds |
| `FidInv.RunInv` | src/libnpfs/fcall.c:66-584 | they are right in every state of every run in which clients drop a fid they were given, once, and the two steps of InheritExactly and FinishExactly meet their conditions |
| `FidManners.PoliteRuns` | src/libnpfs/fcall.c:302-401 | every run of clients that do not name the number of a fid that is being made is such a run |
| `FidTheorems.RefsCounted` | src/libnpfs/fidpool.c:201-291 | a live fid's count is the client's reference plus the pointers of requests; a pointer leads to a live fid of its number; a handler that has ended holds neither a second fid nor a new one |
| `FidTheorems.DestroyedOnce` | src/libnpfs/fidpool.c:267-291 | every fid ever made is live or was destroyed, once |
| `FidTheorems.OneFidPerNumber` | src/libnpfs/fidpool.c:158-246 | a number has at most one fid that is no zombie, and the lookup finds it |
| `FidTheorems.NeverZombies` | src/libnpfs/fidpool.c:225-237 | in every run of a server that is not loose no fid is a zombie |
| `FidTheorems.NumberIsKept` | src/libnpfs/fidpool.c:218-246 | and a number leads to the fid the client was given for it as long as the client has its reference |
| `FidTheorems.StepHolds` | src/libnpfs/fcall.c:66-120 | which references each step takes and drops: the client is given its reference by an auth, an attach or a walk that succeeds, and loses it by its clunk or remove, which an interrupted one gives back |
| `FidTheorems.InterruptedWalk` | src/libnpfs/srv.c:671-713 | a walk ends with EINTR only after it has lost the fid it made, and the fix-up then changes nothing |
| `FidTheorems.InheritExactly` | src/libnpfs/fcall.c:302-401 | copying the flags of the walked fid keeps the accounts if and only if it does not revive a zombie beside a fid of its number |
| `FidTheorems.FinishExactly` | src/libnpfs/srv.c:671-713 | the end of a request keeps the accounts if and only if the fix-up of an interrupted walk finds no fid |
| `FidTheorems.DecrefByNumNeedsNothing` | src/libnpfs/fidpool.c:294-315 | np_fid_decref_bynum keeps the accounts if and only if it finds nothing |
| `FidTheorems.ClunkNeedsClient` | src/libnpfs/fcall.c:514-550 | a clunk keeps the accounts if and only if the client has a reference or the clunk holds the only pointer |
| `FidTheorems.SecondClunkFrees` | src/libnpfs/fcall.c:514-550 | the first of two clunks of one fid keeps the accounts; the second frees it under a third request that points to it |
| `FidTheorems.PoolDestroyed` | src/libnpfs/fidpool.c:104-123 | with the connection, each fid ever made has been destroyed exactly once |
| `FidManners.LoseNewClears` | src/libnpfs/fcall.c:302-401 | after a failed walk no fid of the new number is left |
| `FidHandlers.Conn.Auth` | src/libnpfs/fcall.c:66-120 | performs these steps on each of its exits; the reply is no error exactly if no authentication is required or every callee agrees |
| `FidHandlers.Conn.Attach` | src/libnpfs/fcall.c:123-253 | succeeds if and only if there is a fid, the afid, if one is named, leads to one of its kind, and every callee agrees; the client is then given its reference, and the afid is dropped on every exit |
| `FidHandlers.Conn.Walk` | src/libnpfs/fcall.c:302-401 | succeeds if and only if there is a fid and not too many names, the new number is free and its fid can be cloned, and at least the first name, if there is one, can be walked; the new fid is kept exactly then, and an interruption comes only after it was made and lost |
| `FidHandlers.Walked` | src/libnpfs/fcall.c:372-396 | all names counted could be walked, each but the last to a directory, and the count ends at the last name, at an error, which is returned, or at what is no directory |
| `FidHandlers.Conn.ClunkOrRemove` | src/libnpfs/fcall.c:514-584 | the client reference goes exactly if there was a fid; the reply is no error exactly if every callee agrees |
| `FidHandlers.Conn.Rename` | src/libnpfs/fcall.c:755-791 | succeeds if and only if both fids are there and every answer permits it; the second fid is dropped on every exit |
| `FidHandlers.Conn.XattrWalk` | src/libnpfs/fcall.c:896-955 | so for xattrwalk |
| `FidHandlers.Conn.Link` | src/libnpfs/fcall.c:1127-1163 | so for link |
| `FidHandlers.Conn.Renameat` | src/libnpfs/fcall.c:1205-1242 | so for renameat |
| `FidHandlers.Conn.Postprocess` | src/libnpfs/srv.c:671-713 | after np_postprocess_request the request holds no reference at all |
| `FidHandlers.StepOfOther` | src/libnpfs/fidpool.c:201-291 | whatever step another request makes, the pointers and the stage of this one stay, and so does the invariant |
| `FidBucket.Bucket.Link` | src/libnpfs/fidpool.c:188-196 | the pointer writes put the fid at the head of the doubly linked bucket |
| `FidBucket.Bucket.Unlink` | src/libnpfs/fidpool.c:175-185 | they take exactly that fid out, in order, links intact both ways |
| `FidBucket.Bucket.Optimize` | src/libnpfs/fidpool.c:145-155 | they move it to the head and keep the order of the rest |
| `FidBucket.Bucket.Lookup` | src/libnpfs/fidpool.c:158-172 | the loop returns the first fid of the number that is no zombie, moved to the head, or null and no change |
| `FidBucket.LookupIsTouch` | src/libnpfs/fidpool.c:157-172 | what the lookup does to the nodes of a bucket is what the table has it do |
| `Paths.StepInv` | src/libdiod/diod_ioctx.c:437-523 | every step on Paths and open files keeps the invariant |
| `Paths.RunInv` | src/libdiod/diod_ioctx.c:437-523 | the invariant holds in every state of every run in which the Path of an open fid is not replaced |
| `PathTheorems.PathsCounted` | src/libdiod/diod_ioctx.c:437-500 | a Path is in the pool exactly while somebody holds it, and its count is the number of holders |
| `PathTheorems.StringsShared` | src/libdiod/diod_ioctx.c:466-500 | two holders share a Path exactly when their strings are equal |
| `PathTheorems.ListedWhileOpen` | src/libdiod/diod_ioctx.c:195-249 | an open file is on a Path's list exactly while some fid on that Path has it open |
| `PathTheorems.ClosedOnce` | src/libdiod/diod_ioctx.c:195-214 | an open file counts its fids and has been closed, once, exactly when none has it open any more |
| `PathTheorems.LastFidCloses` | src/libdiod/diod_ioctx.c:195-214 | the close happens in the step in which the last fid lets go, and in no other |
| `PathTheorems.SharedForReading` | src/libdiod/diod_ioctx.c:217-249 | two fids share an open file only if it is a regular file open for reading, on one Path |
| `PathTheorems.OwnFile` | src/libdiod/diod_ioctx.c:217-249 | in every run the file a fid has open was opened with the flags of its own open and for the user of that open |
| `PathTheorems.OpenedFor` | src/libdiod/diod_ioctx.c:217-249 | and every open file by an open() that succeeded for that user with those flags |
| `PathTheorems.OpenExactly` | src/libdiod/diod_ioctx.c:217-249 | an open that may share takes a file that a fid of the same Path has open with the same flags for the same user; a new file is opened if and only if there is none or it may not share, and open() succeeds |
| `PathTheorems.StepHolds` | src/libdiod/diod_ioctx.c:438-523 | whose references to Paths and open files each step changes, and how |
| `PathTheorems.ReplaceExactly` | src/libdiod/diod_ops.c:451-452 | replacing the Path of a fid keeps the invariant if and only if the fid is not open or keeps its Path |
| `PathHandlers.PathOps.Append` | src/libdiod/diod_ioctx.c:510-523 | the Path of the joined string is allocated, or nothing changes |
| `PathHandlers.JoinedSplits` | src/libdiod/diod_ioctx.c:464-523 | the last slash of a joined path is the one put in: before it is the directory and after it the name |
| `PathHandlers.PathOps.FidAlloc` | src/libdiod/diod_fid.c:49-68 | the fid holds the Path of its string, or nothing changes |
| `PathHandlers.PathOps.FidClone` | src/libdiod/diod_fid.c:72-88 | the clone shares the Path and not the open file |
| `PathHandlers.PathOps.FidDestroy` | src/libdiod/diod_fid.c:93-108 | an open fid is closed, then its Path dropped; nobody else's references change |
| `PathHandlers.PathOps.Attach` | src/libdiod/diod_ops.c:298-338 | a failed attach leaves pool, counts and holders as they were |
| `PathHandlers.PathOps.Replaced` | src/libdiod/diod_ops.c:855-890 | rename: the fid moves to the joined string, or everything is as before; with the exact condition for the invariant |
| `PathHandlers.PathOps.Walk` | src/libdiod/diod_ops.c:423-463 | walk: the same; the invariant is kept if and only if the fid is not open |
| `PathHandlers.PathOps.Symlink` | src/libdiod/diod_ops.c:771-812 | on each of its exits, with the steps of other requests in between, the temporary Path is given up again and the accounts are right; if nobody else steps in, pool, counts and holders are as they were |
| `PathHandlers.PathOps.MakeNode` | src/libdiod/diod_ops.c:815-850 | so on each exit of mknod, and of mkdir (1388-1420), which has the same ones |
| `PathHandlers.PathOps.Link` | src/libdiod/diod_ops.c:1354-1385 | so for link |
| `PathHandlers.PathOps.Unlinkat` | src/libdiod/diod_ops.c:1528-1575 | so for unlinkat, with the two kinds of removal and its quiet exits |
| `PathHandlers.StepOfOther` | src/libdiod/diod_ioctx.c:438-523 | every step of another request that drops no fid in use is one that may come in between |
| `PathHandlers.PathOps.Renameat` | src/libdiod/diod_ops.c:1484-1525 | on every exit, with the steps of other requests in between, both Paths are given up again and the accounts are right; if nobody else steps in, pool, counts and holders are as they were |
| `PathHandlers.PathOps.IoctxOpen` | src/libdiod/diod_ioctx.c:217-249 | the loop shares the first open file that fits, else opens a new one at the head of the list |
| `PathHandlers.PathOps.Lopen` | src/libdiod/diod_ops.c:677-714 | a failed open leaves no open file and no changed count |
| `PathHandlers.PathOps.Lcreate` | src/libdiod/diod_ops.c:717-768 | success leaves the fid open on the new Path; every failing exit restores the old Path and all counts |
| `PathHandlers.PathOps.Clunk` | src/libdiod/diod_ops.c:541-565 | the fid is closed, and its Path stays |
| `Wire.FieldReads` | src/libnpfs/np.c:157-229 | reading the bytes of a field gives the field and its length, whatever follows |
| `Wire.FieldIs` | src/libnpfs/np.c:157-229 | what was read is what those bytes encode: no other bytes are accepted |
| `Messages.CodeReads` | src/libnpfs/np.c:1370-1671 | the type byte of every known message type is read back as that type |
| `Messages.CodeIs` | src/libnpfs/np.c:1370-1671 | and no other byte is read as a type |
| `Messages.TablesAgree` | src/libnpfs/np.c:287-1344 | builders and np_deserialize agree on every message's fields, kinds and order |
| `Messages.RoomAgrees` | src/libnpfs/np.c:287-1344 | the sizes the builders compute are those of the fields they write |
| `Codec.SizeIs` | src/libnpfs/np.c:240-284 | the computed size is the length of the encoded fields, for all values |
| `Codec.RoundTrip` | src/libnpfs/np.c:1370-1671 | decoding the encoding of any message returns its type, tag and fields, and its size field is its length |
| `Codec.DecodesWhatBegins` | src/libnpfs/np.c:1370-1671 | decoding returns a message if and only if the packet begins with its full encoding |
| `Packets.VersionPacket` | src/libnpfs/np.c:287-300 | Tversion is type 100 with msize[4] version[s], for all values; so the next for their types |
| `Packets.AttachPacket` | src/libnpfs/np.c:400-420 | 104: fid[4] afid[4] uname[s] aname[s] n_uname[4] |
| `Packets.WalkPacket` | src/libnpfs/np.c:437-465 | 110: fid[4] newfid[4] and the names |
| `Packets.OpenedPacket` | src/libnpfs/np.c:716-730 | 13: qid[13] iounit[4] |
| `Packets.WritePacket` | src/libnpfs/np.c:539-560 | 118: fid[4] offset[8] count[4] data[count] |
| `Packets.ReadPacket` | src/libnpfs/np.c:495-522 | 117: count[4] data[count] |
| `Packets.ErrorPacket` | src/libnpfs/np.c:630-642 | 7: ecode[4] |
| `Packets.FlushPacket` | src/libnpfs/np.c:356-368 | 108: oldtag[2] |
| `Packets.LinkPacket` | src/libnpfs/np.c:1220-1240 | 70: dfid[4] fid[4] name[s] |
| `Packets.RenamePacket` | src/libnpfs/np.c:838-857 | 20: fid[4] dfid[4] name[s] |
| `Packets.FlushBytes` | src/libnpfs/np.c:356-368 | the nine bytes of one Tflush |
| `Packets.LittleEndian` | src/libnpfs/np.c:97-110 | the least significant byte comes first |
| `Codec.TruncationRejected` | src/libnpfs/np.c:40-69 | every proper truncation of a message is rejected |
| `Codec.DecodedViews` | src/libnpfs/np.c:217-221 | every string and data view of a decoded message lies inside the packet |
| `Codec.TagSet` | src/libnpfs/np.c:232-237 | setting the tag in the bytes is encoding the message with that tag |
| `Codec.CountSet` | src/libnpfs/np.c:524-536 | shrinking the count of Rread or Rreaddir leaves the encoding of the data prefix, and decodes to it |
| `CbufModule.Create` | src/libnpfs/np.c:240-284 | the builder fills a packet of exactly the computed size with the encoding |
| `CbufModule.Deserialize` | src/libnpfs/np.c:1370-1671 | for every packet: it is accepted if and only if it begins with a message, or its data count is negative as an int; the message is the one Decode returns |
| `CbufModule.Reader.GetData` | src/libnpfs/np.c:46-69 | for every count: the cursor moves backwards, and is not past the end, if and only if the count is there and is 2^31 or more; otherwise the data are what Wire reads, or the overflow stays visible |
| `CbufModule.NegativeIsNone` | src/libnpfs/np.c:1370-1671 | a packet with such a count is no message |
| `CbufModule.BackwardsCount` | src/libnpfs/np.c:1444-1447 | an Rread or Rreaddir of nothing but a count of 2^31 or more is such a packet |
| `CbufModule.SetTag` | src/libnpfs/np.c:232-237 | writes the two tag bytes and nothing else |
| `CbufModule.SetCount` | src/libnpfs/np.c:524-536 | writes the count and the packet size and nothing else |
| `CbufModule.Cbuf.PutFields` | src/libnpfs/np.c:72-154 | appends the bytes of the fields if they fit, else an overflow that stays |
| `CbufModule.Reader.GetStrs` | src/libnpfs/np.c:217-221 | the loop over names reads what Wire reads, or leaves the overflow visible |
| `CbufModule.Reader.GetFields` | src/libnpfs/np.c:157-229 | reads what GetAll reads, with sticky overflow, unless it comes to a data count that is negative as an int, and says exactly when |
| `FdtransModule.Fdtrans.Recv` | src/libnpfs/fdtrans.c:92-154 | one call returns the next frame of the stream for every way read() may cut it up; delivered and cached bytes are the bytes read |
| `FdtransModule.Fdtrans.Send` | src/libnpfs/fdtrans.c:157-178 | all bytes are written, in order, for every way write() may cut them up |
| `FdtransModule.RecvAll` | src/libnpfs/fdtrans.c:92-154 | repeated calls return the frames of the stream until it ends or is broken |
| `FdtransModule.CutAsSent` | src/libnpfs/np.c:1347-1354 | a stream of frames is cut where they were joined |
| `FdtransModule.MessagesArrive` | src/libnpfs/fdtrans.c:92-154 | encoded messages sent one after another arrive as the same messages |
| `Readdir.EntryReads` | src/libnpfs/np.c:1674-1719 | a directory entry is read back as it was written |
| `Readdir.EntryLayout` | src/libnpfs/np.c:1674-1696 | an entry is qid[13] offset[8] type[1] name[s] |
| `Readdir.CtlReaddir` | src/libnpfs/ctl.c:457-485 | the reply holds the entries from the offset on that fit, and no more bytes than asked for |
| `Readdir.FitMaximal` | src/libnpfs/ctl.c:457-485 | as many entries as fit go into a page: one more would not |
| `Readdir.DeserializeDirent` | src/libnpfs/np.c:1699-1719 | reads an entry whose name fits the caller's buffer, else nothing |
| `Readdir.Dir.ReaddirR` | src/libnpclient/readdir.c:91-130 | returns the entry at the offset and advances by one, refilling where needed, or the end |
| `Readdir.FirstEntry` | src/libnpclient/readdir.c:91-130 | the first entry of a page is the one at its offset, and the rest is the next page |
| `Readdir.ReadAll` | src/libnpclient/readdir.c:91-130 | repeated calls return the children in order, each once, up to the first that is too large for the buffer; all of them if and only if all fit |
| `HostRange.CanonExpands` | src/liblsd/hostlist.c:435-465 | widths that print the lowest host alike stand for the same hosts |
| `HostRange.WidthEquiv` | src/liblsd/hostlist.c:435-465 | says whether two padded numbers can share a width, and changes neither as printed |
| `HostRange.Compare` | src/liblsd/hostlist.c:712-776 | the sign is that of the key order for lower ends less than 2^31 apart; the widths it changes leave both expansions alone |
| `HostRange.LeTotal` | src/liblsd/hostlist.c:712-724 | the order by prefix, single flag, printed length and lower end is total |
| `HostRange.LeTrans` | src/liblsd/hostlist.c:712-724 | and transitive |
| `HostRange.StrcmpIsEarlier` | src/liblsd/hostlist.c:735-745 | of two prefixes the first compares as less if and only if it is a proper prefix of the second, or has the smaller character where they first differ |
| `HostRange.CanonCompares` | src/liblsd/hostlist.c:712-776 | the width changes alter no later comparison |
| `HostRange.CmpIsKeyOrder` | src/liblsd/hostlist.c:712-724 | the comparison is the key order if and only if the difference of the lower ends keeps its sign as an int |
| `HostRange.CmpOverflows` | src/liblsd/hostlist.c:712-724 | two ranges 2^32 apart compare as equal |
| `HostRange.CountingEnds` | src/liblsd/hostlist.c:2039-2054 | a loop that runs while its unsigned long counter is at most hi comes to an end if and only if hi is not ULONG_MAX |
| `HostSeq.RearrangedHosts` | src/liblsd/hostlist.c:1956-1984 | sorting the ranges keeps the bag of hosts |
| `HostSort.SplitHosts` | src/liblsd/hostlist.c:2012-2060 | splitting two overlapping ranges keeps the bag of hosts |
| `HostSort.SplitMeasure` | src/liblsd/hostlist.c:2012-2060 | it lowers the total spread, or keeps it and lowers the position-weighted spread, though the loop starts over |
| `HostSort.ApartSorted` | src/liblsd/hostlist.c:1964-1984 | sorted ranges that do not overlap expand to hosts in the order of a dictionary by prefix, names before numbers, then by printed length and number |
| `Hostlist.Join` | src/liblsd/hostlist.c:850-876 | for every two ranges that pass its assertion, joins them if and only if they touch as the code sees it, with the duplicates as an int; the joined range stands for the hosts of both if and only if the lower ends are in order and the first does not end at ULONG_MAX with the second starting at 0 |
| `Hostlist.Intersect` | src/liblsd/hostlist.c:884-907 | a range comes out if and only if the code sees an overlap and the widths combine; it stands for the common hosts if and only if the lower ends are in order |
| `Hostlist.Hostlist.PushRange` | src/liblsd/hostlist.c:1142-1174 | the code does what Push does to every list and range; the count stays right as an int if the push does not wrap |
| `HostPush.PushExactly` | src/liblsd/hostlist.c:1142-1174 | for all ranges the parser can make, the hosts of the new range come after those of the list if and only if the push does not wrap from ULONG_MAX to 0 |
| `HostPush.PushAllExactly` | src/liblsd/hostlist.c:1473-1481 | so for any number of pushes: the hosts come out in order if and only if none wraps |
| `HostPush.BothLost` | src/liblsd/hostlist.c:1142-1174 | the ranges of n[18446744073709551615,00000000000000000000] lose both hosts |
| `HostPush.BelowNeverWraps` | src/liblsd/hostlist.c:1142-1174 | pushes of ranges that end below ULONG_MAX never wrap |
| `Hostlist.Hostlist.Split` | src/liblsd/hostlist.c:2012-2060 | the body of coalesce deletes the second range, in the branch for an empty one, if and only if its lower end is the smaller; its inner loop has no end if and only if both ranges end at ULONG_MAX; otherwise the neighbours become the pieces of SplitAt, every common host in a range of its own |
| `Hostlist.Hostlist.InsertSingles` | src/liblsd/hostlist.c:2039-2054 | the inner loop ends if and only if the counter can pass the upper end, that is if it is not ULONG_MAX; then every common host has a range of its own in place |
| `Hostlist.Hostlist.SplitNeighbours` | src/liblsd/hostlist.c:2012-2060 | for neighbours in the order of the comparison: something happens if and only if they overlap, the second is deleted if and only if the lower ends are in the wrong order, there is no end if and only if both end at ULONG_MAX, and otherwise the bag of hosts is kept |
| `Hostlist.Hostlist.SplitOverlaps` | src/liblsd/hostlist.c:2012-2060 | coalesce ends if and only if no two ranges of one prefix, of two or more hosts each, end at ULONG_MAX; then with the same bag of hosts and no two neighbours overlapping |
| `Hostlist.Hostlist.Collapse` | src/liblsd/hostlist.c:1990-2007 | the code does what CollapsedAll does to every list; the sequence of hosts is unchanged if and only if no range that ends at ULONG_MAX is followed by one that starts at 0 |
| `Hostlist.CollapseExactly` | src/liblsd/hostlist.c:1990-2007 | of the whole loop, by induction on its passes: the sequence of hosts is unchanged if and only if no range that ends at ULONG_MAX is followed by one that starts at 0 |
| `Hostlist.Hostlist.Sort` | src/liblsd/hostlist.c:1964-1984 | comes to an end if and only if no two ranges of one prefix, of two or more hosts each, end at ULONG_MAX; then the hosts come out in the order of a dictionary by prefix, names before numbers, then by printed length and number, as a permutation, with the count unchanged |
| `Hostlist.EndlessSort` | src/liblsd/hostlist.c:2039-2054 | the ranges of n[18446744073709551613-18446744073709551615,18446744073709551614-18446744073709551615], which the parser makes, are sorted, of one width and near, and the loop that splits them has no end |
| `Hostlist.Hostlist.AttemptRangeJoin` | src/liblsd/hostlist.c:2066-2079 | for neighbours in the order of the comparison: the number of duplicates as an int decides whether the joined range replaces both; if it does and the join is a good one the set of hosts, the order and the count are kept, and if not the set of hosts is kept |
| `Hostlist.Hostlist.Uniq` | src/liblsd/hostlist.c:2081-2102 | keeps the set of hosts and the count exact; with one width per prefix no host is left twice and no two ranges can be joined, and if prefixes and names do not end in a digit no name is left twice |
| `Hostlist.UniqPair` | src/liblsd/hostlist.c:2081-2102 | for every list of two ranges, the set of hosts is kept if and only if the comparison does not put two ranges that touch in the wrong order, or around ULONG_MAX, with a number of duplicates that is not negative as an int |
| `Hostlist.AroundLoses` | src/liblsd/hostlist.c:850-876 | the ranges of n[0-18446744073709551615] and n[0] are in order, and joining them leaves one host |
| `Hostlist.FarApart` | src/liblsd/hostlist.c:712-724 | n[3221225472,0000000000] is such a list: the host n0000000000 is lost by uniq, and coalesce takes its branch for an empty range |
| `Hostlist.OneNameTwice` | src/liblsd/hostlist.c:2081-2102 | the ranges of f[01],f0[1] are not joined, and both are the host f01 |
| `HostUniq.GapsDistinct` | src/liblsd/hostlist.c:2081-2102 | ranges with gaps between them have distinct hosts and cannot be joined |
| `Hostlist.Hostlist.DeleteNth` | src/liblsd/hostlist.c:1880-1915 | removes exactly host n if and only if it is not the first of a range of two or more hosts that ends at ULONG_MAX; the list stays valid if and only if, besides, n is less than the count |
| `Hostlist.FirstTakesAll` | src/liblsd/hostlist.c:1880-1915 | n[18446744073709551614-18446744073709551615] has two hosts, and its first is such a host |
| `HostText.ValueOfPad` | src/liblsd/hostlist.c:1004-1063 | reading a padded number gives the number |
| `HostText.PadOfValue` | src/liblsd/hostlist.c:1004-1063 | and padding the value of digits gives the digits |
| `HostRoundTrip.RangeReads` | src/liblsd/hostlist.c:1408-1446 | the printed form of a range is read as that range, padding included |
| `HostRoundTrip.BracketReads` | src/liblsd/hostlist.c:1455-1561 | the printed form of a bracketed group is read as its ranges |
| `HostRoundTrip.HostReads` | src/liblsd/hostlist.c:482-529 | a name is read as a range that stands for exactly that name |
| `HostRoundTrip.BracketEnds` | src/liblsd/hostlist.c:353-409 | a token with brackets ends after them, commas inside notwithstanding |
| `HostRoundTrip.RoundTrip` | src/liblsd/hostlist.c:2194-2217 | the printed list, ranges that end at ULONG_MAX included, is parsed without an endless loop to a list of the same names in the same order |
| `HostRoundTrip.ExampleText` | src/liblsd/hostlist.c:2149-2217 | a list of three ranges is printed as n[08-10,12],login |
| `HostRoundTrip.ExampleNames` | src/liblsd/hostlist.c:1455-1568 | and that text stands for n08, n09, n10, n12 and login |
| `HostRoundTrip.NameInjective` | src/liblsd/hostlist.c:482-529 | hosts with the same name, whose prefix or name does not end in a digit, are the same host |
| `HostRoundTrip.NamesDistinct` | src/liblsd/hostlist.c:2081-2102 | distinct hosts of that kind have distinct names |
| `HostRoundTrip.LimitPassed` | src/liblsd/hostlist.c:1432-1436 | the text of the range 0 to ULONG_MAX is accepted, and hostrange_count of it is 0 |
| `HostRoundTrip.LimitExactly` | src/liblsd/hostlist.c:1432-1436 | two numbers are accepted as a range if and only if it has at most 16384 hosts, or is the range 0 to ULONG_MAX |
| `HostRoundTrip.SuffixEndless` | src/liblsd/hostlist.c:1484-1503 | prefix[18446744073709551615]suffix parses, and the loop that pushes its hosts has no end |
| `HostPrinter.NumStr` | src/liblsd/hostlist.c:1043-1063 | writes the text of a range, or reports an overrun |
| `HostPrinter.GetBracketed` | src/liblsd/hostlist.c:2149-2192 | writes the text of one group and says where the next begins, or reports an overrun; a NUL ends what was written on each exit |
| `HostPrinter.RangedString` | src/liblsd/hostlist.c:2194-2217 | for every list, the buffer holds the whole text with its terminator, or the result is -1, if and only if it does not fit |
| `HostPrinter.PrintedExactly` | src/liblsd/hostlist.c:2194-2217 | that text is the ranges in compressed form with commas between, if and only if the list does not start with the empty name followed by more |
| `HostPrinter.Create` | src/liblsd/hostlist.c:1484-1568 | for every text, has no end if and only if a range that ends at ULONG_MAX is given a suffix; otherwise succeeds if and only if the text parses, and the list stands for exactly the hosts of the text, in order, if and only if no push wraps |
| `HostPrinter.PrintAndCreate` | src/liblsd/hostlist.c:2194-2217 | printing into a buffer and creating from it, read up to the NUL, gives the same names in order if and only if no push wraps |
| `ListCursor.TraversalComplete` | src/liblsd/list.c:576-591 | whatever is inserted and removed meanwhile, a traversal that comes to the end has returned the items present throughout exactly once each, in order |
| `ListCursor.RunKeeps` | src/liblsd/list.c:655-723 | at every moment what was returned and what lies ahead hold those items in order |
| `List.CreateAdjusts` | src/liblsd/list.c:655-687 | the adjustment at an insertion keeps pos at *prev or at (*prev)->next |
| `List.DestroyAdjusts` | src/liblsd/list.c:690-723 | so does the one at a removal |
| `List.List.NodeCreate` | src/liblsd/list.c:655-687 | the node is linked into its slot, tail and count follow, every iterator is adjusted |
| `List.List.NodeDestroy` | src/liblsd/list.c:690-723 | the node in the slot is unlinked, tail and count follow, every iterator is adjusted |
| `List.List.Append` | src/liblsd/list.c:300-311 | the item becomes the last |
| `List.List.Push` | src/liblsd/list.c:447-458 | the item becomes the first |
| `List.List.Pop` | src/liblsd/list.c:462-472 | the first item leaves, or the list was empty |
| `List.List.IteratorCreate` | src/liblsd/list.c:519-536 | a new iterator stands before the first item |
| `List.List.IteratorReset` | src/liblsd/list.c:539-550 | so does a reset one |
| `List.List.Next` | src/liblsd/list.c:577-591 | returns the next item and advances, or the end |
| `List.List.Insert` | src/liblsd/list.c:595-607 | the item goes before the one last returned |
| `List.List.Remove` | src/liblsd/list.c:624-636 | the item last returned leaves, unless it already has |
| `List.List.MoveNode` | src/liblsd/list.c:401-443 | the three pointer writes of list_sort move one node back, the rest stays linked |
| `List.List.Sort` | src/liblsd/list.c:401-443 | the nodes come out sorted, as a permutation, ties in their old order; tail is right and iterators start over |
| `ListOrder.MoveSorts` | src/liblsd/list.c:401-443 | moving an item before the first greater one extends the sorted part |
| `ListOrder.MoveStable` | src/liblsd/list.c:401-443 | and keeps the order of tied items |
| `IdPool.Npcpool.constructor` | src/libnpclient/pool.c:65-88 | a new pool has no id outstanding |
| `IdPool.Npcpool.GetId` | src/libnpclient/pool.c:100-138 | returns the smallest id not outstanding and adds it; none only when every id is outstanding, and with memory only at the limit |
| `IdPool.Npcpool.PutId` | src/libnpclient/pool.c:141-147 | takes exactly that id away |
| `IdPool.Npcpool.Grow` | src/libnpclient/pool.c:113-125 | growing keeps the outstanding ids |
| `IdPool.FirstFree` | src/libnpclient/pool.c:29-62 | the table m2id gives the smallest free id in the first byte that is not full |
| `IdPool.IdsWithinMaxid` | src/libnpclient/pool.c:113-125 | no id exceeds maxid if and only if maxid is at least 255 and is 7 modulo 8 or a multiple of 256 |
| `Credentials.Worker.constructor` | src/libnpfs/srv.c:232-257 | a worker starts with the process's ids, capable if root |
| `Credentials.Worker.CheckOverride` | src/libnpfs/user-linux.c:98-114 | the loop allows a group override exactly for root, trusted connections, no user database, or a group of the user |
| `Credentials.Worker.SetFsid` | src/libnpfs/user-linux.c:84-207 | the code performs the switches of After, on copy and kernel alike, on every exit |
| `Credentials.SuccessIsExact` | src/libnpfs/user-linux.c:84-207 | over any sequence of calls, success means the kernel has the ids asked for, and the capabilities exactly for uid 0 or a bypass for root |
| `Credentials.GidPermitted` | src/libnpfs/user-linux.c:98-115 | on success the gid is the override, or without one the user's own; an override is one of the user's groups unless the user or the client is root or there is no user database |
| `Credentials.OverrideRefused` | src/libnpfs/user-linux.c:98-115 | any other override is refused, and nothing is switched |
| `Credentials.SucceedsExactly` | src/libnpfs/user-linux.c:84-202 | as long as no switch has failed, a call succeeds if and only if its override may be used, the kernel obeys each switch that is needed, and the capabilities can be changed if they have to be |
| `Credentials.NoneAfterFailure` | src/libnpfs/user-linux.c:116-188 | after a failed gid, uid or group switch no later call on the worker succeeds |
| `Credentials.OtherFailuresHarmless` | src/libnpfs/user-linux.c:189-207 | any other failure leaves copy and kernel in agreement |
| `Credentials.SuccessExactly` | src/libnpfs/user-linux.c:80-83 | over any sequence of calls and answers, a success has the uid asked for if and only if the last uid switch attempted, in that call or an earlier one, was obeyed; and likewise for the gid |
| `Credentials.AfterRefusal` | src/libnpfs/user-linux.c:116-188 | after a refused uid switch reported as done, calls for the same uid pass the switch and run under the uid the kernel kept; the first call that asks for another uid fails, and so does every later call |
| `Credentials.RefusedRun` | src/libnpfs/user-linux.c:80-83 | a root worker that is refused uid 5 runs two calls as root, then fails for uid 7 and for uid 5 |
| `Credentials.GroupsFollowSwitch` | src/libnpfs/user-linux.c:177-186 | the supplementary groups are replaced exactly when the uid is |

## Left out

- Sockets, RDMA, signals, thread creation and joining, real file system calls, logging, configuration, command-line tools, export matching and munge authentication.
- Liveness: lost wake-ups, shutdown ordering and progress under a fair scheduler; only safety and the termination of sequential loops are proved.
- Races on fields without a lock, such as two requests using one fid's aux at once: each handler step is atomic.
- np_req_ref is not called anywhere, so a request's own count is always one and is not modelled.
- FidInv.RunInv: clients clunk or remove a fid they were given, once; ClunkNeedsClient and SecondClunkFrees show what is lost otherwise. The other condition on its steps is exact, and PoliteRuns gives a sufficient one on clients.
- FidHandlers.Conn.Walk: each handler runs for clients that leave alone the number of a fid being made; InheritExactly and FinishExactly have the other clients. The file server's own callees are answers.
- FidHandlers.Conn.XattrWalk: the same.
- The request model and the fid model are two: that a fid is destroyed only when no live request has it is a condition of the DestroyFid step in `Lifecycle`, and is proved of the fid model by FidTheorems.RefsCounted.
- The methods of `PathHandlers` are proved against the state of `Paths`, and are not shown to be sequences of its steps; diod_lcreate, diod_walk and the others that replace a Path run without steps of other requests in between.
- Fids.ReleaseKeeps: the last decrement and the unlinking are one step, while the code takes the pool lock in between.
- ReqLists.Nptpool.AddReq: one pool at a time; that a request is in the lists of one pool only is proved of the request model.
- Partial walks: the model keeps newfid as the code does, and states nothing of the rule in the Plan 9 manual.
- LifecycleSilence.ClosedReplies: says nothing of an attached Tflush, which the code still answers after the connection is closed.
- Paths.RunInv: runs in which the Path of an open fid is replaced are excluded; ReplaceExactly gives the condition. Extended attributes of fids are not modelled.
- CbufModule.Deserialize: packets are as long as their size field says, as the transport makes them; what the server does with an accepted packet of negative count is not modelled.
- FdtransModule.Fdtrans.Recv: msize does not change between calls; a smaller msize could be exceeded by the cached remainder.
- Readdir.ReadAll: names are at most PATH_MAX long and the directory does not change; the file server's own readdir over a host directory is not modelled.
- Hostlist.Hostlist.Sort: ranges of one prefix share a width and their lower ends are less than 2^31 apart, which is sufficient for lists; the exact condition is proved for neighbours (SplitNeighbours). Where it has no end, nothing is said of the ranges inserted on the way.
- Hostlist.Hostlist.Split: what the code does after it has freed a range that it goes on to read is not modelled, nor what it inserts in a loop without end.
- Hostlist.Hostlist.Uniq: lower ends less than 2^31 apart and fewer than 2^31 hosts in all, which is sufficient for lists; the exact conditions are proved for neighbours and pairs (AttemptRangeJoin, UniqPair).
- Hostlist.Hostlist.DeleteNth: fewer than 2^31 hosts, so that the count in an int is the number of hosts.
- Hostlist.Qsort: the C library's sort is replaced by an insertion sort; any sort by the comparison would do.
- HostPrinter.Create: the parser works on values, not by writing terminators into a copy of its input.
- HostRoundTrip.RoundTrip: names hold no separators or brackets, ranges at most 16384 hosts, brackets at most 10240 ranges, and tokens without brackets are shorter than 1024 characters, as in the source.
- Host list iterators, host sets, hostlist_find and deletion by name.
- list_find, list_find_first, list_for_each, list_delete_all and list_destroy: they only repeat the operations modelled.
- IdPool.Npcpool.GetId: the int arithmetic of the new size is unbounded here; it would overflow at 2^31 outstanding ids. Waiting for an id is an answer of None.
- Credentials.SuccessIsExact: the kernel does not refuse in silence; SuccessExactly and AfterRefusal have that case. Ids are not NONUNAME.
- The hash tables of hash.c are maps, and locks are the boundaries of the actions.
