# Verified model of the caching file system and of the libfuse it is built on

The repository has two layers. The upper one is a caching file system: reads go through a frequency-based
replacement (FBR) buffer cache in front of a directory tree on disk. The lower one is libfuse 2.9.6, which keeps a tree
of nodes known to the kernel, locks paths in it, and passes options, directory listings, symbolic links and data
buffers around. This project models the stateful and the string-transforming cores of both and proves what they
promise, for all inputs and over whole runs.

| file | what it models |
|---|---|
| `NodeTree.dfy`, `NodeSteps.dfy`, `NodeRuns.dfy` | the node tree, reference counts and tree locks as a state machine of steps taken under `f->lock`; its invariants, and their consequences for every reachable state |
| `FuseNodes.dfy` | the imperative code that performs those steps, as a class |
| `QueueSteps.dfy`, `QueueRuns.dfy` | the queue of requests waiting for paths, as steps on tree and queue together; what every reachable state keeps |
| `QueueProgress.dfy`, `QueueTurns.dfy`, `QueueDeadlock.dfy`, `QueueScenes.dfy` | who is served, told from the lock words; what a wake-up, a first attempt and a forget come to; a deadlock and why it lasts; a run into it and a run that leaks a path |
| `LockQueue.dfy` | the imperative code of the queue, as a class |
| `Common.dfy`, `Paths.dfy` | a few shared types and functions; path texts and their components |
| `NodeTable.dfy` | the incremental linear-hash tables of nodes, and the allocation of node ids |
| `NodeSlab.dfy` | the page-wise allocator of node memory |
| `RecordLocks.dfy` | POSIX byte-range locks |
| `FbrCache.dfy`, `CachingRead.dfy` | the FBR cache and the read path through it |
| `OptionStrings.dfy`, `FusermountOptions.dfy` | mount option escaping and its two decoders |
| `SymlinkRewrite.dfy` | the relative rewriting of absolute links in the subdir module |
| `BufVec.dfy` | scatter/gather copies |
| `DirStream.dfy`, `DirHandle.dfy` | the stream of directory entries |

`dafny verify dfyconfig.toml` checks everything.

## How the pieces fit

**Tree and locks.** `State` holds the nodes field by field. `holds` is a ghost record of the paths callers hold; `Inv`
says that parent chains end, that the name table and the parent pointers agree, that a node's `refctr` is one for the
kernel plus one for each node hashed under it, that every held chain is the current chain of its directory, and that
each `treelock` word decodes to exactly the readers and writers in `holds`. Every step keeps `Inv`
(`NodeRuns.StepKeepsInv`), hence it holds in every reachable state; that renaming creates no cycle, that the assertions of
`unlock_path` and `delete_node` never fail and that held paths stay what they are follow from it. The class `Fuse` runs the
code's own loops and recursion, including the deletion cascade that dereferences the parent while the node's fields are
still set, and each method is proved equal to its step. What the steps do is stated apart from them: a path leads
where it was asked for (`FuseNodes.PathLeads`), an entry that is removed or moved is gone and nothing else is, and the
lookup counts are the finds less the forgotten lookups over every run (`NodeRuns.LookupsCounted`).

**Queue.** A `System` is a tree with a queue. Getting one or two paths (try, then wait), giving them back and waking the
waiters, leaving the queue, forgetting a node, with or without a wait, and the other operations on the tree are actions
on it; each keeps the invariants of both (`QueueRuns.Do`), so they hold in every reachable state
(`QueueRuns.ReachableQueue`). Who is served in a turn is stated in terms of the lock
words and the tree before it (`QueueProgress.ServedIff`), and so is when the head is served once only the queue holds paths
(`QueueProgress.HeadServedIff`). In a wake-up everybody has a turn (`QueueTurns.EveryTurn`), and a waiter for one path
that is passed over really is blocked in the tree that results (`QueueTurns.WaiterBlocked`). The class `PathQueue`
is proved equal to the actions. Where memory may run out, the failing allocation is a parameter, so nothing fails that
was not told to.

**Reference definitions.** The byte-range locks are proved against a pointwise map from owner and offset to lock type, the
hash tables against a plain set, the cache against a sequence of entries with a declarative choice of the victim, option
decoding against the list that was encoded, link rewriting against lexical resolution of both links, scatter/gather copies
against the flattened vectors, directory replies against the list of entries.

**Where the code does not do what its use suggests**, the model keeps the code and the exact condition is proved:

- A read that is neither block-aligned nor within one block counts its blocks without the offset inside the first one
  (CachingFileSystem.cpp:291). `CachingRead.Read` states exactly which requests are served, and that the others copy past the end of
  a block buffer; `CrossingNotServed` is a concrete instance.
- Empty options in front of others vanish, since the escaper writes a comma only after a non-empty string.
  `OptionStrings.RoundTrip` gives the exact condition, `EmptyOptionLost` an instance.
- A symbolic link whose own path has a `.` or `..` component between the common directory and its last directory resolves
  elsewhere after rewriting. `SymlinkRewrite.TransformSymlink` states the exact condition, for targets with dot components too; `DotsInPathLose` is an instance
  in which the dot comes from the base directory and extra slashes in the link get it past the length guard.
- A request in the lock queue that is done with an error is woken like the others until it has left. If it is at the
  head and asked for two paths, it can be given one of them and leave with its error, still holding it.
  `QueueProgress.WakeLeaks` says when, in terms of the lock words, `QueueRuns.LeaveHolds` what a leaving request holds, and
  `QueueScenes.Leak` is a run in which it happens: a rename, with readers of both files.
- The rule that only the head may hold one of its two paths does not exclude deadlock. A rename within a directory that
  has its first path reads the directory; if another request asks to write-lock the directory, that puts a waiting mark on
  it, and the mark is in the way of the rename's second path. `QueueDeadlock.DeadlockStays` and `DeadlockForever` show that
  no action of anyone ends this unless an allocation fails for the head; `QueueScenes.Deadlock` is a run into it.
- After a failed resize a hash table stays completely split, and no number of insertions makes it grow again, even
  with memory to be had (`NodeTable.StuckStays`); only a merge does (`NodeTable.Table.Remerge`). The bound of one key per
  bucket in use survives an insertion exactly if that does not leave the table stuck (`NodeTable.LightIff`);
  `NodeTable.BoundBroken` is a run that breaks it.
- Inserting a record lock keeps write locks exclusive exactly if `locks_conflict` finds nothing
  (`RecordLocks.InsertExclusiveIff`); `fuse_lib_setlk` does not ask (resources/fuse-2.9.6/lib/fuse.c:3945-3961), it relies
  on the file system having granted the lock. `RecordLocks.TwoWriters` is an instance.

## Model

| member | source | states |
|---|---|---|
| `NodeTree.LockWord` | resources/fuse-2.9.6/lib/fuse.c:915-1016 | read back from any lock word: 0 iff no holder, -1 iff a writer, non-negative means that many readers, and no word leaves the int range |
| `NodeTree.WriterExcludes` | resources/fuse-2.9.6/lib/fuse.c:936-1016 | a write-held node has no reader, and its writer is unique |
| `NodeTree.UnreferencedUnlocked` | resources/fuse-2.9.6/lib/fuse.c:789-809 | a node without kernel reference and without children is unlocked, so the assertion in `delete_node` holds |
| `NodeSteps.TryPathEffect` | resources/fuse-2.9.6/lib/fuse.c:936-1016 | a failed attempt at a path changes nothing but at most the writer-waiting mark of the entry it would have locked; a successful one adds exactly one hold |
| `NodeSteps.TryWithKeepsInv` | resources/fuse-2.9.6/lib/fuse.c:936-1016 | so does an attempt in which any allocation may fail |
| `NodeSteps.TryPathKeepsInv` | resources/fuse-2.9.6/lib/fuse.c:936-1016 | acquiring a path, whatever the outcome, keeps every invariant of tree, references, holds and lock words |
| `NodeSteps.ReleaseKeepsInv` | resources/fuse-2.9.6/lib/fuse.c:915-934 | releasing a held path keeps every invariant |
| `NodeSteps.FindKeepsInv` | resources/fuse-2.9.6/lib/fuse.c:843-880 | finding or creating an entry keeps every invariant |
| `NodeSteps.ForgetKeepsInv` | resources/fuse-2.9.6/lib/fuse.c:1288-1324 | forgetting lookups, with the deletion cascade it may start, keeps every invariant |
| `NodeSteps.FellKeepsInv` | resources/fuse-2.9.6/lib/fuse.c:706-732 | dropping a reference restores every invariant whatever the length of the cascade; every node it deletes was unlocked and is not the root |
| `NodeSteps.UnhashHeld` | resources/fuse-2.9.6/lib/fuse.c:706-732 | unhashing an entry of a directory the kernel still references deletes nothing and drops one reference of the directory |
| `NodeSteps.WriteHeldOutside` | resources/fuse-2.9.6/lib/fuse.c:936-1016 | the entry write-locked with a path is in no held chain, of this or any other path |
| `NodeSteps.RenameTargetOutside` | resources/fuse-2.9.6/lib/fuse.c:1204-1223 | with both paths held, the target directory is neither the moved node nor below it |
| `NodeSteps.RenameKeepsInv` | resources/fuse-2.9.6/lib/fuse.c:1346-1380 | a rename keeps every invariant: all parent chains still end |
| `NodeSteps.RenameEffect` | resources/fuse-2.9.6/lib/fuse.c:1346-1380 | after a rename the node is the new entry and not the old one, a replaced entry is gone, and all other entries, lookup counts, lock words and holds are unchanged |
| `NodeSteps.RenameFails` | resources/fuse-2.9.6/lib/fuse.c:1346-1380 | the other outcomes: nothing to move or a hidden name that is taken changes nothing; without memory for the name both entries are gone and the counts, words and holds stay |
| `NodeSteps.RemoveEffect` | resources/fuse-2.9.6/lib/fuse.c:1335-1344 | a removed entry is gone from its directory, which has one reference less, and its node has neither parent nor name; all other entries, lookup counts, lock words and holds stay; with no such entry nothing changes |
| `NodeSteps.FindEffect` | resources/fuse-2.9.6/lib/fuse.c:836-880 | a find adds one to the lookup count of the node it returns, 0 before if it is new, and to no other; an existing entry is returned, a new one is entered where it was missing |
| `NodeSteps.FindSelfEffect` | resources/fuse-2.9.6/lib/fuse.c:836-880 | so does a find of a node by itself |
| `NodeSteps.ReleaseEffect` | resources/fuse-2.9.6/lib/fuse.c:915-934 | a release ends one hold and changes nothing but lock words: a word is 0 afterwards iff nobody else is there, and a waiting mark stays iff somebody still reads |
| `NodeRuns.InitialInv` | resources/fuse-2.9.6/lib/fuse.c:4706-4727 | the tree with only the root satisfies the invariants |
| `NodeRuns.StepKeepsInv` | resources/fuse-2.9.6/lib/fuse.c:915-1380 | every step of acquiring, releasing, finding, forgetting, removing and renaming keeps the invariants |
| `NodeRuns.ReachableLocks` | resources/fuse-2.9.6/lib/fuse.c:915-1016 | in every reachable state the lock words are exactly what the held paths make them, each held chain is its current chain up to the root, and write-held nodes lie outside all held chains |
| `NodeRuns.ReachableTree` | resources/fuse-2.9.6/lib/fuse.c:706-880 | in every reachable state parent chains end, no node has a dead parent, and refctr is the kernel reference plus the nodes hashed below |
| `NodeRuns.HeldPathStable` | resources/fuse-2.9.6/lib/fuse.c:936-1380 | as long as a path is held, no step of anyone changes the chain it stands for |
| `NodeRuns.DoomedUnreferenced` | resources/fuse-2.9.6/lib/fuse.c:789-809 | the cascade deletes only nodes without kernel reference whose last child is the node deleted just before |
| `NodeRuns.ForgetEffect` | resources/fuse-2.9.6/lib/fuse.c:1288-1324 | a forget takes exactly its lookups from its node and none from any other, deleted ones included; while some are left nothing else changes |
| `NodeRuns.LookupsCounted` | resources/fuse-2.9.6/lib/fuse.c:836-1324 | over every run the lookup count of every node changes by the finds that returned it less the lookups forgotten |
| `NodeRuns.ReachableLookups` | resources/fuse-2.9.6/lib/fuse.c:836-1324 | so from the start it is the number of finds that returned the node less the lookups forgotten, with one more for the root |
| `FuseNodes.Fuse.Unlock` | resources/fuse-2.9.6/lib/fuse.c:915-934 | with the words of a held chain none of the assertions fails, and exactly the walked nodes and the write-locked one are given back |
| `FuseNodes.Fuse.TryGetPath` | resources/fuse-2.9.6/lib/fuse.c:936-1016 | performs the acquisition step with the given memory; runs out of memory exactly if the failing allocation is reached before anything blocks the climb; on success, splitting the path at its slashes and looking the names up from the root leads to the directory, with the name asked for at the end, and the path of the root is a slash |
| `FuseNodes.PathLeads` | resources/fuse-2.9.6/lib/fuse.c:882-1002 | the text built from the names of a held chain leads there: its components, looked up one by one from the root, arrive at the directory, and the name asked for comes last |
| `FuseNodes.Fuse.Climb` | resources/fuse-2.9.6/lib/fuse.c:977-1000 | the climb takes the read locks of the whole chain or none; its result is decided by the first of a missing name, a failing allocation and a lock that it meets; on success it has built the text that `PathLeads` is about |
| `FuseNodes.Fuse.Unwind` | resources/fuse-2.9.6/lib/fuse.c:1008-1015 | undoing a partial climb restores every lock word |
| `FuseNodes.Fuse.FreePath` | resources/fuse-2.9.6/lib/fuse.c:1258-1267 | performs the release step on a held path |
| `FuseNodes.Fuse.TryGetPath2` | resources/fuse-2.9.6/lib/fuse.c:1204-1223 | equals the two acquisition steps one after the other, with the first given back if the second fails; both paths lead where they were asked for |
| `FuseNodes.Fuse.UnrefNode` | resources/fuse-2.9.6/lib/fuse.c:803-809 | performs the whole cascade: deletes exactly the doomed part of the parent chain and drops one reference of the first survivor |
| `FuseNodes.Fuse.DeleteNode` | resources/fuse-2.9.6/lib/fuse.c:789-801 | the same, from the node that has lost its last reference; its lock word is 0 |
| `FuseNodes.Fuse.UnhashName` | resources/fuse-2.9.6/lib/fuse.c:706-732 | takes the node out of the name table and dereferences its parent before clearing its own fields |
| `FuseNodes.Fuse.HashName` | resources/fuse-2.9.6/lib/fuse.c:763-787 | enters the node under its directory, which gains a reference |
| `FuseNodes.Fuse.FindNode` | resources/fuse-2.9.6/lib/fuse.c:843-880 | returns the entry, created if missing; its lookup count is one more than before, 1 if it is new, and all other counts are as they were; on allocation failure nothing changes |
| `FuseNodes.Fuse.IncNlookup` | resources/fuse-2.9.6/lib/fuse.c:836-841 | every lookup counts, the first one as a reference; no other count changes |
| `FuseNodes.Fuse.ForgetNode` | resources/fuse-2.9.6/lib/fuse.c:1288-1324 | performs the forget step |
| `FuseNodes.Fuse.RemoveNode` | resources/fuse-2.9.6/lib/fuse.c:1335-1344 | the entry goes and no other does; lookup counts, lock words and held paths stay |
| `FuseNodes.Fuse.RenameNode` | resources/fuse-2.9.6/lib/fuse.c:1346-1380 | performs the rename step; EBUSY exactly when hiding onto an existing name, ENOMEM exactly when the name could not be copied |
| `FuseNodes.TryBoth` | resources/fuse-2.9.6/lib/fuse.c:1204-1223 | both paths or neither, with every invariant kept |
| `QueueSteps.Wake` | resources/fuse-2.9.6/lib/fuse.c:1034-1088 | a turn keeps every invariant and the paths of all others; only the head may end it with one of two paths; a request is done without error iff it has all its paths |
| `QueueSteps.WakeAll` | resources/fuse-2.9.6/lib/fuse.c:1090-1096 | waking the whole queue keeps the invariants of tree and queue; `QueueTurns.EveryTurn` says that nobody is passed over |
| `QueueRuns.Do` | resources/fuse-2.9.6/lib/fuse.c:1018-1380 | every action of acquiring, waiting, waking, giving back, leaving, forgetting and changing the tree keeps the invariants of tree and queue |
| `QueueRuns.ReachableQueue` | resources/fuse-2.9.6/lib/fuse.c:1018-1147 | in every reachable state only the head holds one of its two paths without the other, flags equal holds, done without error iff all paths are held, and done with an error means nothing held but for a head given one path since |
| `QueueRuns.LeaveHolds` | resources/fuse-2.9.6/lib/fuse.c:1136-1147 | a request leaves with exactly the paths its flags say; behind the head, with an error means with none |
| `QueueRuns.ForgetKeepsReferenced` | resources/fuse-2.9.6/lib/fuse.c:1288-1324 | the cascade of a forget deletes nothing that the kernel references |
| `QueueProgress.TryWords` | resources/fuse-2.9.6/lib/fuse.c:963-1006 | an attempt succeeds iff the entry is not locked, no node of the climb has a negative word or is the entry, and the chain ends in the root; it is EAGAIN iff one of the former fails |
| `QueueProgress.ServedIff` | resources/fuse-2.9.6/lib/fuse.c:1047-1067 | a turn serves the request iff for each path it lacks there is memory, the words are clear and the chain is rooted, and, if it lacks both, neither takes a lock that the other needs |
| `QueueProgress.WakeLeaks` | resources/fuse-2.9.6/lib/fuse.c:1034-1088 | a request done with an error ends a turn holding a path, still with its error, iff it is the head, asked for two, has memory, and by the lock words can have exactly one |
| `QueueProgress.HeadServedIff` | resources/fuse-2.9.6/lib/fuse.c:1064-1080 | when only the queue holds paths and nobody is done, the head is served iff its chains are rooted, its paths take no lock the other needs, and no writer waits for a node of both |
| `QueueProgress.HeadTurn` | resources/fuse-2.9.6/lib/fuse.c:1090-1096 | a wake-up gives the head its turn first, and the turns of the others leave it alone |
| `QueueTurns.EveryTurn` | resources/fuse-2.9.6/lib/fuse.c:1090-1096 | in a wake-up every element has its turn, in a state that differs from the first one only in lock words, holds and the elements before it, and ends the wake-up as its turn has left it |
| `QueueTurns.WakeOutcome` | resources/fuse-2.9.6/lib/fuse.c:1034-1088 | a turn ends with the error of the first path that cannot be had for want of memory or a directory that is cut off, with all paths, or waiting, with one of two paths only at the head |
| `QueueTurns.WaiterBlocked` | resources/fuse-2.9.6/lib/fuse.c:1034-1096 | after a wake-up a request for one path that had memory and is not done has a lock in its way in the resulting tree |
| `QueueTurns.GetIff` | resources/fuse-2.9.6/lib/fuse.c:1149-1171 | what a first attempt returns: ENOMEM if the climb runs out of memory, else EAGAIN, Ok or ENOENT as the lock words and the chain say |
| `QueueTurns.BothIff` | resources/fuse-2.9.6/lib/fuse.c:1204-1223 | both paths are had iff for each there is memory, the words are clear before the attempt and the chain is rooted, and neither takes a lock that the other needs |
| `QueueTurns.Get2Iff` | resources/fuse-2.9.6/lib/fuse.c:1225-1256 | so it is for a request of two paths |
| `QueueTurns.FreeWakes` | resources/fuse-2.9.6/lib/fuse.c:1258-1286 | giving back one path or two ends these holds, and afterwards a waiting request for one path that had memory and is not done has a lock in its way |
| `QueueTurns.ForgetNow` | resources/fuse-2.9.6/lib/fuse.c:1288-1324 | a forget waits iff it takes the last lookups of a node on somebody's path; then it is put at the end of the queue and nothing else changes; else its lookups are taken at once |
| `QueueTurns.LateForget` | resources/fuse-2.9.6/lib/fuse.c:1288-1324 | a forget that has waited leaves the queue and then takes its lookups, and none of any other node |
| `QueueDeadlock.SelfBlocked` | resources/fuse-2.9.6/lib/fuse.c:988-994 | a head that reads a directory a writer awaits is refused its second path there, and nothing about it changes |
| `QueueDeadlock.DeadlockStays` | resources/fuse-2.9.6/lib/fuse.c:1018-1380 | no action of anyone ends that, unless an allocation fails for the head |
| `QueueDeadlock.DeadlockForever` | resources/fuse-2.9.6/lib/fuse.c:1018-1380 | nor does any run of actions |
| `QueueScenes.Leak` | resources/fuse-2.9.6/lib/fuse.c:1034-1147 | a run from the start in which a rename leaves with ENOMEM and a path that nobody will give back |
| `QueueScenes.Deadlock` | resources/fuse-2.9.6/lib/fuse.c:1069-1080 | a run from the start into such a deadlock: a rename within a directory and a rename of the directory |
| `LockQueue.PathQueue.Unlock` | resources/fuse-2.9.6/lib/fuse.c:1018-1032 | gives back whatever paths the element holds |
| `LockQueue.PathQueue.Wakeup` | resources/fuse-2.9.6/lib/fuse.c:1034-1088 | performs the turn of one element |
| `LockQueue.PathQueue.WakeUpQueued` | resources/fuse-2.9.6/lib/fuse.c:1090-1096 | performs the turns of all elements in order, which is what `QueueTurns.EveryTurn` is about |
| `LockQueue.PathQueue.GetPath` | resources/fuse-2.9.6/lib/fuse.c:1149-1171 | the path, a place in the queue exactly on EAGAIN, or the error of the attempt with nothing held |
| `LockQueue.PathQueue.GetPath2` | resources/fuse-2.9.6/lib/fuse.c:1225-1256 | both paths, a place in the queue exactly on EAGAIN, or the error of the attempt with nothing held |
| `LockQueue.PathQueue.FreePath` | resources/fuse-2.9.6/lib/fuse.c:1258-1267 | gives the path back and wakes the waiters |
| `LockQueue.PathQueue.FreePath2` | resources/fuse-2.9.6/lib/fuse.c:1275-1286 | gives both paths back and wakes the waiters |
| `LockQueue.PathQueue.WaitPath` | resources/fuse-2.9.6/lib/fuse.c:1136-1147 | a request that is done leaves the queue with its result |
| `LockQueue.PathQueue.ForgetNode` | resources/fuse-2.9.6/lib/fuse.c:1288-1324 | forgets at once, or waits exactly if the node is locked and this is its last lookup |
| `LockQueue.PathQueue.ForgetWoken` | resources/fuse-2.9.6/lib/fuse.c:1300-1324 | a waiting forget leaves the queue and forgets |
| `NodeTable.ComputeNameHash` | resources/fuse-2.9.6/lib/fuse.c:661-668 | wrapping at every step gives the parent and the characters, read as digits to the base 31, modulo 2^64 |
| `NodeTable.SlotSplit` | resources/fuse-2.9.6/lib/fuse.c:486-495 | splitting one more bucket moves only keys of that bucket, and only to its upper half |
| `NodeTable.SlotResize` | resources/fuse-2.9.6/lib/fuse.c:486-495 | doubling a completely split table, or halving a merged one, moves no key |
| `NodeTable.UpperEmpty` | resources/fuse-2.9.6/lib/fuse.c:486-495 | the buckets at or above size/2 + split are empty |
| `NodeTable.SplitMove` | resources/fuse-2.9.6/lib/fuse.c:633-645 | moving one key of the bucket being split keeps the split invariant |
| `NodeTable.SplitDone` | resources/fuse-2.9.6/lib/fuse.c:631-645 | a finished split leaves every key in exactly the bucket its hash gives |
| `NodeTable.MergeKeeps` | resources/fuse-2.9.6/lib/fuse.c:571-586 | merging the last split bucket leaves every key in exactly the bucket its hash gives |
| `NodeTable.GrowKeeps` | resources/fuse-2.9.6/lib/fuse.c:604-619 | doubling keeps every key in its bucket |
| `NodeTable.ReduceKeeps` | resources/fuse-2.9.6/lib/fuse.c:547-561 | halving keeps every key in its bucket |
| `NodeTable.Table.constructor` | resources/fuse-2.9.6/lib/fuse.c:4556-4568 | an empty table of the smallest size |
| `NodeTable.Table.Address` | resources/fuse-2.9.6/lib/fuse.c:486-495 | the bucket of a key is inside the array |
| `NodeTable.Table.Find` | resources/fuse-2.9.6/lib/fuse.c:497-507 | finds exactly the keys of the table |
| `NodeTable.Table.Resize` | resources/fuse-2.9.6/lib/fuse.c:604-619 | doubles the table, or on failure leaves it completely split, with every key in place |
| `NodeTable.Table.Reduce` | resources/fuse-2.9.6/lib/fuse.c:547-561 | halves the table even if the array could not be shrunk, with every key in place |
| `NodeTable.Table.Rehash` | resources/fuse-2.9.6/lib/fuse.c:621-648 | splits one bucket with every key in place, doubling after the last if memory allows; a completely split table stays as it is |
| `NodeTable.Table.Hash` | resources/fuse-2.9.6/lib/fuse.c:650-659 | adds exactly the key; the bound of one key per bucket in use survives iff the insertion does not split the last bucket without being able to grow |
| `NodeTable.Table.Remerge` | resources/fuse-2.9.6/lib/fuse.c:563-587 | merges at least one and at most eight buckets unless the table is minimal, with every key in place, and leaves a bucket to split |
| `NodeTable.Table.Unlink` | resources/fuse-2.9.6/lib/fuse.c:708-716 | removes exactly the key, before the removal is counted |
| `NodeTable.Table.CountRemoval` | resources/fuse-2.9.6/lib/fuse.c:721-725 | counts a removal and shrinks; never more keys than buckets in use |
| `NodeTable.Table.Unhash` | resources/fuse-2.9.6/lib/fuse.c:589-602 | removes exactly the key, keeping the load bound |
| `NodeTable.LightIff` | resources/fuse-2.9.6/lib/fuse.c:650-659 | when an insertion keeps the load bound, and when it leaves the table stuck |
| `NodeTable.StuckStays` | resources/fuse-2.9.6/lib/fuse.c:621-659 | no run of insertions changes the size or the split of a stuck table |
| `NodeTable.LightStays` | resources/fuse-2.9.6/lib/fuse.c:621-659 | with every reallocation succeeding the load bound holds over every run of insertions |
| `NodeTable.BoundBroken` | resources/fuse-2.9.6/lib/fuse.c:621-659 | a run with one failed reallocation after which the bound is broken |
| `NodeTable.Replay` | resources/fuse-2.9.6/lib/fuse.c:486-659 | after any run of insertions and removals, removals nested in others included, with failing reallocations, lookup agrees with a plain set |
| `NodeTable.ReplayIds` | resources/fuse-2.9.6/lib/fuse.c:486-507 | the same for the table of ids with its hash function |
| `NodeTable.ReplayNames` | resources/fuse-2.9.6/lib/fuse.c:822-834 | the same for the table of names with its hash function |
| `NodeTable.NextId` | resources/fuse-2.9.6/lib/fuse.c:811-820 | terminates with an id not in use; the pair of generation and id strictly increases |
| `NodeSlab.SlotInPage` | resources/fuse-2.9.6/lib/fuse.c:407-420 | a slot lies inside its page behind the header, and rounding its address down finds the page |
| `NodeSlab.SlotsApart` | resources/fuse-2.9.6/lib/fuse.c:407-420 | different slots of a page do not overlap |
| `NodeSlab.Slabs.Guarantees` | resources/fuse-2.9.6/lib/fuse.c:392-472 | the mapped pages are exactly those of live nodes, live nodes overlap neither each other nor a header, and without live nodes both lists are empty |
| `NodeSlab.Slabs.AllocSlab` | resources/fuse-2.9.6/lib/fuse.c:392-422 | a mapped page joins the partial list with all its slots free |
| `NodeSlab.Slabs.AllocNode` | resources/fuse-2.9.6/lib/fuse.c:424-445 | returns a slot that was not live; a page is mapped only if no page has a free slot; fails exactly if that mapping fails |
| `NodeSlab.Slabs.FreeNode` | resources/fuse-2.9.6/lib/fuse.c:457-472 | the slot becomes free; its page is unmapped exactly if it was its last live node |
| `NodeSlab.Slabs.FreeAll` | resources/fuse-2.9.6/lib/fuse.c:4788-4799 | freeing all nodes in any order leaves both lists empty |
| `RecordLocks.LockList.Insert` | resources/fuse-2.9.6/lib/fuse.c:3738-3810 | for every owner and offset the type afterwards is the requested one inside the range for its owner and unchanged elsewhere; each owner stays sorted, disjoint and maximally merged; every record is the request with its pid, merged or not, or what is left of an old one with the pid it had; fails without effect exactly when the allocations are needed and fail; the spare records are used at most once each, which its loop invariants carry |
| `RecordLocks.LockList.MergeAt` | resources/fuse-2.9.6/lib/fuse.c:3761-3772 | a record of the same type is passed over, ends the scan, contains the request, which is then done, or is merged into it; the meaning of list and pending request stays |
| `RecordLocks.LockList.CutAt` | resources/fuse-2.9.6/lib/fuse.c:3773-3793 | a record of another type is passed over, ends the scan, is deleted, cut at one end or split, the last iff it reaches beyond both ends; the meaning stays |
| `RecordLocks.Absorb` | resources/fuse-2.9.6/lib/fuse.c:3761-3772 | merging a touching record of the same type keeps the meaning of list and pending request |
| `RecordLocks.CutOut` | resources/fuse-2.9.6/lib/fuse.c:3773-3793 | truncating, splitting or deleting a record of another type keeps that meaning |
| `RecordLocks.CutPieces` | resources/fuse-2.9.6/lib/fuse.c:3773-3793 | what is left of a record around the request is such a cut |
| `RecordLocks.NormalForm` | resources/fuse-2.9.6/lib/fuse.c:3738-3810 | two lists as `locks_insert` leaves them mean the same for an owner iff they hold the same ranges |
| `RecordLocks.FindConflict` | resources/fuse-2.9.6/lib/fuse.c:3712-3723 | finds the first conflicting record; there is one iff another owner holds a clashing lock on a requested offset |
| `RecordLocks.InsertExclusiveIff` | resources/fuse-2.9.6/lib/fuse.c:3712-3810 | inserting keeps a write lock exclusive at every offset iff the request is an unlock or no record conflicts with it |
| `RecordLocks.TwoWriters` | resources/fuse-2.9.6/lib/fuse.c:3945-3961 | an instance: two owners insert a write lock on the same bytes and both have it |
| `RecordLocks.FlockToLock` | resources/fuse-2.9.6/lib/fuse.c:3812-3820 | the lock covers exactly the bytes the flock describes, length 0 meaning to the end |
| `RecordLocks.FlockRoundTrip` | resources/fuse-2.9.6/lib/fuse.c:3812-3829 | a lock converted to a flock and back is the same lock |
| `RecordLocks.Replay` | resources/fuse-2.9.6/lib/fuse.c:3738-3810 | after any run of requests the lock at each owner and offset is what the last granted request covering it said |
| `FbrCache.CacheManager.constructor` | CacheManager.cpp:14-42 | a chain of null blocks with the boundaries at their fixed positions, an empty middle section included |
| `FbrCache.CacheManager.FindBlock` | CacheManager.cpp:55-98 | finds exactly the cached ids; a hit moves the block to the head, counts it only outside the new section, keeps the order of the others and all structural invariants |
| `FbrCache.CacheManager.RetrieveBuffer` | CacheManager.cpp:104-112 | the buffer of the cached block, or nothing exactly if it is not cached |
| `FbrCache.CacheManager.InsertBlock` | CacheManager.cpp:118-156 | exits exactly if the block is cached; otherwise admits it at the head in place of a null block or of the victim, keeping all structural invariants |
| `FbrCache.CacheManager.LeastReferenced` | CacheManager.cpp:139-147 | the block nearest the tail among those with the smallest count in the old section |
| `FbrCache.CacheManager.MakeRoom` | CacheManager.cpp:133-150 | removes the last null block if there is one, else the victim, from chain and map |
| `FbrCache.VictimUnique` | CacheManager.cpp:137-150 | that description determines the victim |
| `FbrCache.PromotedOk` | CacheManager.cpp:64-97 | a hit keeps addresses, map, null suffix and the section tag of every position |
| `FbrCache.InsertedOk` | CacheManager.cpp:128-155 | so does an insertion |
| `FbrCache.RunSound` | CacheBlock.cpp:9-35 | over every run ids are unique, null blocks form a suffix, and a count is one plus the hits outside the new section since insertion |
| `FbrCache.RunRecency` | CacheManager.cpp:55-156 | over every run the block of the last access is at the head and the blocks stand in the order of their last accesses |
| `FbrCache.AdmitKeepsAll` | CacheManager.cpp:133-136 | as long as there is a null block, a miss evicts nothing |
| `FbrCache.AdmitEvictsOne` | CacheManager.cpp:137-150 | a miss on a full cache evicts exactly the victim |
| `CachingRead.FetchBlock` | CachingFileSystem.cpp:310-336 | the block from the cache or the disk, equal to the file there, unless it is not cached and its pread fails; the cache makes exactly that access and stays coherent; the duplicate-insert exit is not reached |
| `CachingRead.ReadBlock` | CachingFileSystem.cpp:303-374 | one turn copies the next bytes of the file behind the last ones and nothing else, fails only with its pread, or is about to copy past the block buffer, and that only for unserved requests |
| `CachingRead.TurnStep` | CachingFileSystem.cpp:302-374 | one turn either continues exactly where the last ended or copies past the block buffer, and the latter only for unserved requests |
| `CachingRead.Read` | CachingFileSystem.cpp:275-375 | fails only if the pread of a block of the request fails; otherwise returns min(size, file size - offset) and exactly those bytes, the rest of the buffer untouched, for any cache state, iff the request is a served one; the cache makes one access per visited block and stays coherent |
| `CachingRead.ReadSound` | CachingFileSystem.cpp:303-336 | so what holds over every run of the cache holds after every read: unique ids, null suffix, counts |
| `CachingRead.CrossingNotServed` | CachingFileSystem.cpp:291-291 | an instance of a request across a block boundary that is not served |
| `OptionStrings.AddOptCommon` | resources/fuse-2.9.6/lib/fuse_opt.c:117-139 | appends the escaped option after a comma if there was something before; the allocated size always suffices |
| `OptionStrings.AppendOpt` | resources/fuse-2.9.6/lib/fuse_opt.c:131-136 | the copying loop stays inside the buffer and writes the escaped option |
| `OptionStrings.CopyChar` | resources/fuse-2.9.6/lib/fuse_opt.c:312-326 | decodes one character without overwriting what is still to be read |
| `OptionStrings.ProcessOptionGroup` | resources/fuse-2.9.6/lib/fuse_opt.c:294-332 | decoding in place hands out the options of the original text up to the first rejected one |
| `OptionStrings.EncodeIsJoin` | resources/fuse-2.9.6/lib/fuse_opt.c:117-139 | adding options one by one gives their escaped forms joined by commas, without the empty ones in front |
| `OptionStrings.DecodeEscaped` | resources/fuse-2.9.6/lib/fuse_opt.c:294-332 | an escaped option decodes to itself whatever follows |
| `OptionStrings.DecodeOctal` | resources/fuse-2.9.6/lib/fuse_opt.c:312-321 | a backslash and the three octal digits of a code below 256 decode to that character, whatever follows |
| `OptionStrings.DecodeBackslash` | resources/fuse-2.9.6/lib/fuse_opt.c:312-324 | a backslash takes any other character as it is, and stands for itself at the end |
| `OptionStrings.DecodePlain` | resources/fuse-2.9.6/lib/fuse_opt.c:303-326 | a comma ends an option, and any other character stands for itself |
| `OptionStrings.RoundTrip` | resources/fuse-2.9.6/lib/fuse_opt.c:117-332 | encoding and decoding gives the list back iff it is non-empty and has no empty option in front of others; otherwise exactly those are lost |
| `OptionStrings.EmptyOptionLost` | resources/fuse-2.9.6/lib/fuse_opt.c:117-332 | an instance: an empty option in front of another |
| `FusermountOptions.ScanOption` | resources/fuse-2.9.6/util/fusermount.c:742-747 | the option reaches to the first comma that is not escaped |
| `FusermountOptions.GetStringOpt` | resources/fuse-2.9.6/util/fusermount.c:688-713 | the unescaped value after the option name |
| `FusermountOptions.ReadValue` | resources/fuse-2.9.6/util/fusermount.c:738-807 | the value of the last option of that name in the whole string |
| `FusermountOptions.OptLenFirst` | resources/fuse-2.9.6/util/fusermount.c:742-747 | in any text an option ends at the first comma with an even number of backslashes before it, or at the end |
| `FusermountOptions.UnescapeBares` | resources/fuse-2.9.6/util/fusermount.c:703-711 | in any text the decoder takes away the backslashes that escape something and nothing else; one at the very end stays |
| `FusermountOptions.UnescapeEscape` | resources/fuse-2.9.6/util/fusermount.c:703-711 | the value decoder inverts the libfuse escaper |
| `FusermountOptions.CrossProgram` | resources/fuse-2.9.6/util/fusermount.c:738-753 | on a string built by the libfuse escaper, fusermount reads exactly the last such option of the list |
| `FusermountOptions.ValueSurvives` | resources/fuse-2.9.6/util/fusermount.c:738-753 | an option comes back with its value, commas and backslashes included, if no later one sets it again |
| `FusermountOptions.MountValuesSurvive` | resources/fuse-2.9.6/util/fusermount.c:740-753 | so do the two options that are read this way, fsname and subtype |
| `SymlinkRewrite.CountComponents` | resources/fuse-2.9.6/lib/modules/subdir.c:91-101 | the number of components |
| `SymlinkRewrite.StripCommon` | resources/fuse-2.9.6/lib/modules/subdir.c:103-114 | strips the components both begin with, but for a last one that ends both, and the slashes behind them |
| `SymlinkRewrite.TransformSymlink` | resources/fuse-2.9.6/lib/modules/subdir.c:116-151 | for tidy texts and a base directory above the path, rewrites exactly if the link points into the base, the path goes on where it leaves the link, and the new text fits; in general exactly if the guards hold, and leaves the buffer alone otherwise; the text it writes is a function of path and link; it means the original target iff the directory of the link and the common directory agree as far up as the rest of the target starts from, in particular if no dot component of the path lies between them |
| `SymlinkRewrite.RewritesIff` | resources/fuse-2.9.6/lib/modules/subdir.c:125-139 | without repeated slashes and with the path below the base, the guards let a link pass iff the base is a prefix of it, the path has a component beyond those it shares with it, or both are the same file, and text and terminator fit with a byte to spare |
| `SymlinkRewrite.Rewrite` | resources/fuse-2.9.6/lib/modules/subdir.c:141-150 | the in-place writes produce that text with its terminator |
| `SymlinkRewrite.CompsRelative` | resources/fuse-2.9.6/lib/modules/subdir.c:141-150 | the components of the rewritten link |
| `SymlinkRewrite.MeaningPreserved` | resources/fuse-2.9.6/lib/modules/subdir.c:116-151 | for every link below the common directory the rewritten link resolves to the same place, iff no dot component lies in between or the common directory is the root |
| `SymlinkRewrite.TargetKept` | resources/fuse-2.9.6/lib/modules/subdir.c:116-151 | the rewritten link, resolved from the directory of the symlink, is the original absolute target under exactly that condition |
| `SymlinkRewrite.ResolveTogether` | resources/fuse-2.9.6/lib/modules/subdir.c:116-151 | a relative path leads where its ups and downs taken together lead |
| `SymlinkRewrite.DotsInPathLose` | resources/fuse-2.9.6/lib/modules/subdir.c:116-151 | a base, a path and a link that is rewritten to another target |
| `BufVec.CopyOne` | resources/fuse-2.9.6/lib/buffer.c:224-239 | copies the bytes, also between overlapping ranges, and nothing else |
| `BufVec.Vector.Advance` | resources/fuse-2.9.6/lib/buffer.c:262-277 | the cursor moves by exactly the length, over the end of a buffer too; neither assertion fails |
| `BufVec.BufSize` | resources/fuse-2.9.6/lib/buffer.c:19-32 | the total size of a vector |
| `BufVec.CopyLoop` | resources/fuse-2.9.6/lib/buffer.c:287-315 | copies min(left in source, left in destination) bytes: that prefix of the flattened source is in the flattened destination, no other byte changes, and the source cursor moves by that count |
| `BufVec.BufCopy` | resources/fuse-2.9.6/lib/buffer.c:279-318 | the same; a vector copied onto itself returns its size and changes nothing |
| `DirStream.LeRoundTrip` | resources/fuse-2.9.6/lib/fuse_lowlevel.c:259-262 | a field stored in its bytes reads back as its value |
| `DirStream.ParseRecord` | resources/fuse-2.9.6/lib/fuse_lowlevel.c:250-270 | a record parses back to its entry and offset, whatever follows |
| `DirStream.ParsePrefix` | resources/fuse-2.9.6/lib/fuse_lowlevel.c:250-280 | any prefix of a stream parses to exactly the records that lie wholly inside it |
| `DirStream.CookieIsPosition` | resources/fuse-2.9.6/lib/fuse.c:3434-3443 | in a listing filled without offsets, each offset is the byte position of the next record |
| `DirStream.FillUnnumbered` | resources/fuse-2.9.6/lib/fuse.c:3434-3443 | filling without offsets never stops early and builds that listing |
| `DirStream.FillNumbered` | resources/fuse-2.9.6/lib/fuse.c:3423-3433 | filling with offsets keeps exactly the entries that fit into the request |
| `DirStream.SessionInOrder` | resources/fuse-2.9.6/lib/fuse.c:3479-3509 | for any request sizes, a reader resuming at the last offset sees a run of entries without gap, repetition or reordering |
| `DirStream.ProgressIff` | resources/fuse-2.9.6/lib/fuse.c:3499-3509 | a request makes no progress iff the listing is exhausted or the next record is larger than the request |
| `DirStream.ListingSeenOnce` | resources/fuse-2.9.6/lib/fuse.c:3397-3509 | without offsets, requests no smaller than the largest record show every entry once and in order |
| `DirStream.OffsetsSeenOnce` | resources/fuse-2.9.6/lib/fuse.c:3397-3509 | so they do for a file system that passes its own distinct offsets |
| `DirHandle.AddDirent` | resources/fuse-2.9.6/lib/fuse_lowlevel.c:250-270 | writes exactly the bytes of the record at its place |
| `DirHandle.AddDirentry` | resources/fuse-2.9.6/lib/fuse_lowlevel.c:272-280 | returns the size of the record and writes it only if it fits |
| `DirHandle.Handle.ExtendContents` | resources/fuse-2.9.6/lib/fuse.c:3372-3395 | fails exactly if it must grow and cannot; the new size is at least doubled up to the 32-bit limit, and the contents stay |
| `DirHandle.Handle.FillDir` | resources/fuse-2.9.6/lib/fuse.c:3397-3445 | adds one entry in either mode, or stops with the listing as it was exactly if memory is needed and not to be had |
| `DirHandle.Handle.FillEntries` | resources/fuse-2.9.6/lib/fuse.c:3447-3477 | the entries of the file system end up in the handle as the fill steps say, given the outcome of each allocation |
| `DirHandle.FillEnough` | resources/fuse-2.9.6/lib/fuse.c:3372-3445 | when no allocation fails, the listing is what unlimited memory gives and there is no error |
| `DirHandle.Handle.Readdir` | resources/fuse-2.9.6/lib/fuse.c:3479-3509 | the listing is made anew at offset 0 or if incomplete, and the reply is the requested piece of it; an error exactly if the path, the file system or an allocation fails, and then the listing is not kept |
| `DirHandle.ReadDirectory` | resources/fuse-2.9.6/lib/fuse.c:3479-3509 | reading through a handle request by request, as many requests as entries and none smaller than the largest record, sees every entry once and in order, when the file system passes no offsets |
| `DirHandle.ReadDirectoryAfter` | resources/fuse-2.9.6/lib/fuse.c:3479-3509 | the same when the file system passes its own, distinct offsets |

## Left out

- NodeSteps.TryPathKeepsInv: assumes that the kernel keeps its reference to the directory and entry of a request, and fewer than INT_MAX - 1 paths held at a time.
- NodeSteps.RenameKeepsInv: assumes the serialisation of directory operations by the kernel, that is, that the entry moved or replaced is the node held for writing.
- NodeSteps.TryWithKeepsInv: assumes the same as TryPathKeepsInv.
- FuseNodes.Fuse.TryGetPath: the growth of the path buffer in `add_name` is not modelled; the path is a string.
- FuseNodes.Fuse.ForgetNode: starts after the wait for the node to be unlocked, which is in LockQueue.
- LockQueue.PathQueue.Wakeup: condition variables and the threads that wait on them are not modelled, only the `done` flag.
- QueueRuns.Do: assumes that the kernel keeps its references to what a queued request waits for, that ids of requests are new, and fewer than INT_MAX - 3 paths asked for at a time; what a request does with its path is among the other actions.
- NodeTable.Table.Hash: chains are sequences and keys stand for nodes; that `unhash_name` recurses into the table between unlinking and counting is modelled by the count of pending removals.
- NodeTable.NextId: some id must be free, else the source's loop does not end.
- NodeSlab.Slabs.AllocNode: pages are any size that holds a header and a node; the address mask is modelled as rounding down; the contents of a node and a failing munmap are left out.
- FbrCache.CacheManager.LeastReferenced: counts are unbounded; the source starts its minimum at INT_MAX, so a count beyond it is not modelled.
- FbrCache.CacheManager.MakeRoom: when the victim is the first block of the old section, the source steps an iterator to an erased list cell back; it is modelled as the position before it.
- FbrCache.CacheManager.constructor: section sizes are integers; the rounding of the fractions is left out, and the sizes are those `main` accepts.
- CachingRead.Read: whether the pread of a block fails is an input, by block; files are smaller than 2 GiB, so that the casts to int and the division in double are exact; the file does not change between reads; a copy past a block buffer ends the read.
- BufVec.CopyLoop: the destination cursor when the source runs out is not specified, since the source then skips its last advance; buffers lie in one memory and are disjoint; sizes of SIZE_MAX are left out.
- OptionStrings.AddOptCommon: the failure of the allocation is left out; the 32-bit type of the old length is not modelled.
- FusermountOptions.ReadValue: follows one `name=value` option; the flags, the other options, the error exits and the options copied to the kernel are left out.
- DirHandle.Handle.Readdir: lengths beyond 32 bits are stored truncated, and then only the bounds of the buffer are claimed; a file system passes offsets always or never, as resources/fuse-2.9.6/include/fuse.h:288-300 demands; the choice of inode number and file type bits is an input; byte order is little endian.
- The nodes' linked lists, hash chains and memory addresses, except in the slab allocator: nodes are named by id and their fields kept in maps.
- The remember option and its LRU list, which unhash nodes by the clock and outside the lock discipline; the pinning of nodes for lookups of `.` and `..`.
- `updatePaths` and `cacheToString` of the cache, logging and command-line parsing: bookkeeping only.
- File-descriptor buffers, splice, mounting, signals, sockets and the FUSE callbacks that only forward system calls.
