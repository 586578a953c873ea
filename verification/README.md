# Dafny models of the dentry cache and of ouichefs

The project models two pieces of kernel code and proves what they are for.

**The dentry cache** (`labs/7/task-1/dcache-export.c`). A dentry is a number; the fields that the C code updates in place
are the maps and sets of a class.

| file | what is in it |
|---|---|
| `forest.dfy` | parent pointers, ancestors, what lies below a dentry |
| `dcache_tree.dfy`, `tree_moves.dfy` | children lists and reference counts; `d_ancestor`, the guards, the tree and the locks of `__d_move` |
| `dcache_index.dfy`, `dcache_lru.dfy` | the hash table and the list of hashed roots; LRU and shrink-list flags and their counters |
| `dcache_state.dfy`, `dcache_runs.dfy`, `dcache_fields.dfy` | the whole cache, its steps, every run of them, and what each step does to each dentry, field by field |
| `dcache_put.dfy` | `dput` as a recursion, and exactly whom it kills |
| `dcache_walk.dfy`, `dcache_visits.dfy` | `d_walk` with its jumps against a recursive preorder walk; which dentries it enters |
| `dcache_shrink.dfy`, `dcache_reap.dfy`, `dcache_rounds.dfy` | `select_collect`, `shrink_dentry_list`, the rounds of `shrink_dcache_parent` |
| `dcache.dfy` | the class: `dput`, `__d_lookup`, `__d_move`, `shrink_dentry_list`, `shrink_dcache_parent` as methods |
| `dcache_names.dfy`, `dcache_strings.dfy` | where names are stored and shared; comparing them a word at a time |
| `parallel_lookup.dfy`, `lookup_answers.dfy`, `lookup_progress.dfy` | parallel lookup as a transition system with any number of threads, one step a section under a lock; what a call ends with; why no call is ever stuck |
| `free_once.dfy`, `free_counts.dfy` | killing and freeing as such a system; counts as references, and what is never forgotten |

**ouichefs** (`project/projet_PNL`). A file is an index block of up to 1024 packed entries; its contents are the
used prefixes of its blocks, one after the other (`file_contents.dfy`). The disk is a sequence of blocks.

| file | what is in it |
|---|---|
| `packed_entry.dfy`, `packed_bits.dfy` | a 20-bit block number and a 12-bit size in one word; the C bit operations, and what they do to the number a word stands for |
| `volume.dfy`, `mkfs.dfy`, `allocator_runs.dfy` | bitmaps and counters; the layout mkfs computes; every run of the allocator from there on |
| `file_read.dfy` | `ouichefs_read` |
| `write_alloc.dfy`, `write_split.dfy`, `write_data.dfy`, `file_write.dfy`, `write_then_read.dfy` | `ouichefs_write`, and reading back |
| `defrag_steps.dfy`, `defrag.dfy` | the packing loop of `defrag` |
| `directory.dfy`, `rename.dfy` | directory blocks as ordered lists |
| `file_lives.dfy` | create, unlink and truncation with the volume: what is taken and what comes back |
| `other_files.dfy` | what each call on one file leaves to any other |
| `witnesses.dfy` | inputs at which calls do not do what they mean to |

`helpers.dfy` holds `Option` and two small functions that several modules use.

Where the code does less than it means to, the exact condition is proved:

- `ouichefs_write` inserts if and only if it needs no clipping at 1024 blocks and a one-block file does not spill past its
  block (the test of `nr_blocks == 1` at file.c:721). Otherwise it runs past the data block if and only if the last turn of
  the copy loop goes beyond byte 4096, and else leaves the sizes one block short. For a file without blocks this assumes
  that `block_jump` and `byte_jump`, which the source then leaves unset (file.c:446), hold 0; a one-block write to such a
  file stores the data, whatever the disk held, if and only if `byte_jump` is 0.
  `witnesses.dfy` has an input for either failure: 4090 or 4086 bytes written at the end of a file of 10.
- `defrag` overwrites block 0, the superblock, if and only if no block is free and the first block that is not full is
  followed by one with more bytes than it has room for: `get_free_block` then gives 0. Otherwise the contents are kept.
- `unlink`, and open with O_TRUNC, give whole index entries to `put_block`: of the data blocks exactly the empty ones come
  back, so all of them do if and only if the file holds no byte. The loop of the truncation leaves the index block if and
  only if all 1024 entries are in use, and `i_blocks` ends as 0, where an empty file has 1.
- A name of 28 characters is taken by create and stored cut to 27, so lookup finds a new name if and only if it has at
  most 27. Renaming in place (inode.c:432-456) writes before the first slot if and only if no slot has the old name; of the
  files just created, those are the ones with a name of 28 characters.
- Renaming from a full directory reads past the directory block (the loop at inode.c:484 has no bound), and only then.
- `put_block` and `put_inode` keep the counter exact if and only if the number was handed out or is refused. A number equal
  to the size is not refused: it sets the bit behind the last, which lies outside if the bitmap ends there.
- The layout of mkfs wraps around to no inodes for one size of image, 26 blocks short of 2^32.
- Exchanging two dentries keeps the tree a forest if and only if not both are roots, and keeps the counts right if and only if neither is.
- `__d_move` onto a root takes one lock twice, and onto no other target.
- In every run the flags, the references, the hash table and `nr_dentry_unused` are right. `nr_dentry_negative` is off by
  exactly the sum of what these steps add: 1 for a positive dentry killed or deleted on a shrink list, 1 for a negative
  dentry on the real list that `__d_add` or `__d_instantiate_anon` makes positive, -1 for a negative one on a shrink list that `__d_instantiate` does.

`dafny verify dfyconfig.toml` checks everything.

## Model

| member | source | states |
|---|---|---|
| ParallelLookup.AtMostOnePerName | labs/7/task-1/dcache-export.c:2633-2741 | in every state of every interleaving of lookups, additions, moves onto a dentry in lookup, and removals, two dentries of one parent and name are never both in-lookup, in transit or hashed |
| ParallelLookup.StepKeepsInv | labs/7/task-1/dcache-export.c:2600-2617 | each step of each thread keeps the invariant: chain locks held by one thread, the sequence odd just while one addition is under way, a checked dentry without a namesake |
| ParallelLookup.KeepsOneOf | labs/7/task-1/dcache-export.c:2777-2802 | no step makes two dentries of one parent and name present at once |
| ParallelLookup.KeepsNamesakeOk | labs/7/task-1/dcache-export.c:2677-2716 | a thread that has re-checked the sequence under the chain lock keeps having no namesake in the hash or in transit, whatever others do |
| ParallelLookup.SpliceKeepsOneOf | labs/7/task-1/dcache-export.c:2975-3012 | when a dentry is moved onto one in lookup, it takes its place: still one of the name |
| ParallelLookup.SpliceKeepsNamesakeOk | labs/7/task-1/dcache-export.c:2975-3012 | and no thread that looks the name up is misled by the move |
| LookupAnswers.AnswersAreRight | labs/7/task-1/dcache-export.c:2633-2741 | at every step of every run: a call that ends from its walk or its wait ends with a dentry other than its own, hashed and of the key looked up; one that has hashed ends with what it hashed, its own or the one moved onto it; it waits only for a dentry in lookup of its key, and until that is out of lookup; it goes on past the chain lock only if the sequence is what it read |
| LookupAnswers.CallAnswers | labs/7/task-1/dcache-export.c:2633-2741 | from allocation to end: a call for a key ends with a hashed dentry of that key, or with its own, taken off the chain unhashed |
| LookupAnswers.CarriesUntil | labs/7/task-1/dcache-export.c:2633-2741 | all through a call the thread carries the dentry it allocated, under the key asked for |
| LookupProgress.WaitsAlways | labs/7/task-1/dcache-export.c:2600-2617 | in every run each held chain lock is held by a thread under it, each dentry in lookup belongs to a thread that will take it off, and the sequence is odd only while somebody is adding |
| LookupProgress.NeverStuck | labs/7/task-1/dcache-export.c:2633-2802 | in every state in which some thread is inside a call one of them can take a step |
| FreeOnce.FreedAtMostOnce | labs/7/task-1/dcache-export.c:580-625 | in every interleaving of killers, lockless and waiting droppers of references, list owners and third parties a dentry is freed at most once, and only when dead and on no list |
| FreeOnce.KilledIsFreed | labs/7/task-1/dcache-export.c:1179-1205 | once a dead dentry is on no list and no thread is still liable for it, it has been freed |
| FreeOnce.NotTouchedAfterFree | labs/7/task-1/dcache-export.c:1584-1613 | no step touches a freed dentry but a second look under RCU: a third party's at its victim, fast_dput's after its lockless decrement |
| FreeOnce.LooksLeaveFreedAlone | labs/7/task-1/dcache-export.c:842-858 | such a second look changes nothing when the dentry has been freed |
| FreeOnce.HeldIsAlive | labs/7/task-1/dcache-export.c:713-757 | while dentry_kill waits for a lock with d_lock dropped, nobody kills or frees the dentry, whose count stays at least 1 |
| FreeOnce.StepKeepsInv | labs/7/task-1/dcache-export.c:446-452 | each section keeps: one liable party for each dead dentry, handed over by SHRINK_LIST and MAY_FREE |
| FreeCounts.CountIsRefs | labs/7/task-1/dcache-export.c:713-862 | in every interleaving the count of a live dentry is the references taken on it less those given back by put, fast_dput and the ends of dentry_kill, counted along the steps |
| FreeCounts.StepsAreRight | labs/7/task-1/dcache-export.c:580-862 | a dentry is killed only unused or by the holder of its last reference; one that becomes unused is on a list or still to be looked at by fast_dput; it leaves its lists unused only when found disrupted; fast_dput is done only with a dentry in use, dead or listed; shrink_dcache_parent waits for its victim, or kills it, only while it is unused |
| FreeCounts.DeadIsOffLru | labs/7/task-1/dcache-export.c:599-602 | a dead dentry is on no list but a shrink list |
| FreeCounts.EveryoneGoesOn | labs/7/task-1/dcache-export.c:1179-1205 | a thread in the middle of something, and the owner of a list that is not empty, always has a step to take |
| FreeCounts.IdleStarts | labs/7/task-1/dcache-export.c:767-862 | what an idle thread may start on a live dentry is decided by count and lists alone |
| TreeMoves.DAncestor | labs/7/task-1/dcache-export.c:3066-3075 | terminates; gives a dentry if and only if p1 is a proper ancestor of p2, and then the child of p1 that is p2 or above it |
| TreeMoves.GuardsDecide | labs/7/task-1/dcache-export.c:2953-2966 | the BUG_ON tests all pass if and only if neither dentry is an ancestor of the other |
| TreeMoves.MoveKeepsForest | labs/7/task-1/dcache-export.c:2988-2989 | hanging d under the target's parent keeps the forest, for all dentries that pass the guards |
| TreeMoves.ExchangeKeepsForest | labs/7/task-1/dcache-export.c:2988-2997 | trading parents keeps the forest if and only if not both are roots |
| TreeMoves.MoveOk | labs/7/task-1/dcache-export.c:2988-3004 | a move keeps forest, children lists and counts, whether d is a root, has the same parent as the target, or neither |
| TreeMoves.ExchangeOk | labs/7/task-1/dcache-export.c:2996-3004 | an exchange keeps all of them if and only if neither dentry is a root |
| TreeMoves.LocksAreDisciplined | labs/7/task-1/dcache-export.c:2957-3019 | in all cases no lock is taken twice or on an ancestor of one held, and each is given back once, if and only if the target is not a root |
| TreeMoves.LocksCover | labs/7/task-1/dcache-export.c:2957-3019 | the locks held at once are just those of the two dentries and their two parents, and each is given back |
| TreeMoves.OrderIsFromAbove | labs/7/task-1/dcache-export.c:2957-2971 | the parents are locked outermost first, and neither dentry is above a lock already held |
| DcacheTree.LastRefHasNoKids | labs/7/task-1/dcache-export.c:917-932 | a dentry with one external reference, or none at all, has no children |
| DcacheTree.AllocOk | labs/7/task-1/dcache-export.c:1849-1865 | a new child keeps forest, lists and counts |
| DcacheTree.AllocRootOk | labs/7/task-1/dcache-export.c:1868-1871 | so does a new root |
| DcacheTree.KillOk | labs/7/task-1/dcache-export.c:580-625 | killing on the last reference, or an unused dentry, keeps them, and leaves the caller with a reference on the parent |
| DcacheTree.KillUnusedOk | labs/7/task-1/dcache-export.c:1199-1203 | so does killing an unused dentry whose reference on the parent was dropped first |
| DcacheTree.RemoveSplit | labs/7/task-1/dcache-export.c:542-578 | what stays in a list of children keeps its order |
| DcacheIndex.BucketHalves | labs/7/task-1/dcache-export.c:105-108 | each position of the shift halves the hash |
| DcacheIndex.DLookup | labs/7/task-1/dcache-export.c:2455-2509 | walking one bucket finds a match if and only if some hashed non-root has that parent and name |
| DcacheIndex.RehashOk | labs/7/task-1/dcache-export.c:2576-2583 | an unhashed non-root goes into the bucket of its hash, once, and every chain stays exact |
| DcacheIndex.DropHashOk | labs/7/task-1/dcache-export.c:488-513 | a dentry leaves the list it is on, bucket or list of roots, and every list stays exact |
| DcacheIndex.HashRootOk | labs/7/task-1/dcache-export.c:2106-2110 | a root goes on the list of roots and every list stays exact |
| DcacheIndex.MovedOk | labs/7/task-1/dcache-export.c:2982-3005 | after a move each hashed dentry is in exactly the bucket of its current hash, and the target is unhashed |
| DcacheIndex.ExchangedOk | labs/7/task-1/dcache-export.c:2982-3005 | after an exchange too, and both are hashed |
| DcacheIndex.MovedHashes | labs/7/task-1/dcache-export.c:2912-2928 | hashes stay a function of parent and name in a move onto a non-root |
| DcacheIndex.ExchangedHashes | labs/7/task-1/dcache-export.c:2869-2910 | and in an exchange of non-roots |
| DcacheIndex.MovedIsFound | labs/7/task-1/dcache-export.c:2982-3005 | after a move d is found where the target was and nowhere else, the target nowhere, all others as before |
| DcacheIndex.ExchangedAreFound | labs/7/task-1/dcache-export.c:2982-3005 | after an exchange each is found where the other was |
| DcacheIndex.MarkedLate | labs/7/task-1/dcache-export.c:2982-2995 | leaving the unhashed mark to the end, as __d_move does, comes to the same as unhashing both first |
| DcacheLru.LruAddOk | labs/7/task-1/dcache-export.c:426-434 | adding a dentry on no list to the LRU keeps the flags and the unused counter right and leaves the error of the negative counter as it was |
| DcacheLru.LruDelOk | labs/7/task-1/dcache-export.c:436-476 | so does taking one off the real list, by d_lru_del or d_lru_isolate |
| DcacheLru.ShrinkAddOk | labs/7/task-1/dcache-export.c:454-460 | so does putting one on a shrink list; SHRINK_LIST stays within LRU_LIST |
| DcacheLru.ShrinkDelOk | labs/7/task-1/dcache-export.c:446-452 | so does taking one off a shrink list |
| DcacheLru.ShrinkMoveOk | labs/7/task-1/dcache-export.c:478-486 | so does moving one from the real list to a shrink list |
| DcacheLru.ClearTypeOk | labs/7/task-1/dcache-export.c:354-363 | a positive dentry that becomes negative adds 1 to the error on a shrink list, else 0; exact counters stay so if and only if it is on none |
| DcacheLru.InstantiateOk | labs/7/task-1/dcache-export.c:1998-2015 | a negative dentry that __d_instantiate makes positive adds -1 on a shrink list, else 0; exact counters stay so if and only if it is on none |
| DcacheLru.SetTypeOk | labs/7/task-1/dcache-export.c:2788-2795 | __d_add making a dentry positive adds 1 if it was negative on the real list, else 0; exact counters stay so if and only if it was not |
| DcacheLru.KilledOk | labs/7/task-1/dcache-export.c:599-610 | a kill adds 1 for a positive dentry on a shrink list, else 0; exact counters stay so if and only if it is negative or on no shrink list |
| DcacheLru.CollectedOk | labs/7/task-1/dcache-export.c:1563-1571 | collecting a dentry on the real list or on none adds nothing |
| DcacheLru.RetainedOk | labs/7/task-1/dcache-export.c:684-690 | retaining adds nothing and leaves the dentry on the LRU |
| DcacheLru.KillOnListMiscounts | labs/7/task-1/dcache-export.c:599-610 | an input: exact counters, one positive unused dentry on a shrink list; killing it leaves the negative counter at 1 where 0 is right |
| DcacheState.KillLastOk | labs/7/task-1/dcache-export.c:580-625 | killing on the last reference, or an unused dentry, keeps references and hash table always, and the counters but for a positive dentry on a shrink list |
| DcacheState.ShrinkKillOk | labs/7/task-1/dcache-export.c:1199-1203 | reclaiming an unused dentry keeps both and adds nothing to the error of the counter, with its parent joining the list when its count reaches zero |
| DcacheState.KillVictimOk | labs/7/task-1/dcache-export.c:1637-1651 | killing an unused victim on somebody else's list, where it stays, keeps both, and adds 1 for a positive one |
| DcacheState.PutToListOk | labs/7/task-1/dcache-export.c:920-932 | dropping a reference that may be the last, with the dentry put on a list or left on the one it is on, keeps both and adds nothing |
| DcacheState.MoveOverOk | labs/7/task-1/dcache-export.c:2941-3020 | d_move onto a non-root keeps references and hash table |
| DcacheState.SwapOk | labs/7/task-1/dcache-export.c:3044-3056 | so does d_exchange of two non-roots |
| DcacheState.DeleteOk | labs/7/task-1/dcache-export.c:2556-2573 | d_delete keeps both in either of its branches, and adds 1 to the error for the only user of a dentry on a shrink list, else 0 |
| DcacheState.RetainOk | labs/7/task-1/dcache-export.c:665-691 | retaining keeps both and adds nothing |
| DcacheState.NewChildOk | labs/7/task-1/dcache-export.c:1765-1865 | d_alloc keeps both |
| DcacheState.UnhashOk | labs/7/task-1/dcache-export.c:506-539 | d_drop keeps both |
| DcacheState.SwapTwice | labs/7/task-1/dcache-export.c:2996-3005 | exchanging twice gives back parents, counts, names and hashes |
| DcacheFields.ChildFields | labs/7/task-1/dcache-export.c:1765-1865 | d_alloc, in fields: the child has count 1, one outside reference, is unhashed, negative and on no list; the parent has it at the head of its list and one count more; no other dentry changes |
| DcacheFields.RootFields | labs/7/task-1/dcache-export.c:1868-1871 | d_alloc_anon, in fields |
| DcacheFields.HashRootFields | labs/7/task-1/dcache-export.c:2081-2119 | __d_instantiate_anon, in fields: hashed at the head of the roots, and positive |
| DcacheFields.AddFields | labs/7/task-1/dcache-export.c:2777-2802 | __d_add, in fields: hashed at the head of its bucket, other buckets the same, positive if it gets an inode |
| DcacheFields.DropFields | labs/7/task-1/dcache-export.c:506-539 | d_drop, in fields: unhashed, and nothing else |
| DcacheFields.DeleteFields | labs/7/task-1/dcache-export.c:2556-2573 | d_delete, in fields: the only user's dentry becomes negative and stays hashed, any other is unhashed |
| DcacheFields.RetainFields | labs/7/task-1/dcache-export.c:665-691 | retain_dentry, in fields: yes if and only if hashed, connected, cacheable and not refused; then a count and a reference less, on the LRU, and referenced if it was there before |
| DcacheFields.PutToListFields | labs/7/task-1/dcache-export.c:920-932 | dput_to_list, in fields: off the real list, and on the shrink list if that was the last count |
| DcacheFields.KillFields | labs/7/task-1/dcache-export.c:580-625 | __dentry_kill, in fields: gone from tree, hash table and real list, still on a shrink list if it was on one; the parent loses the child and keeps its count for the caller |
| DcacheFields.ShrinkKillFields | labs/7/task-1/dcache-export.c:1179-1205 | reclaiming, in fields: gone from everywhere, and the parent loses child and count and is listed if that was its last |
| DcacheFields.VictimFields | labs/7/task-1/dcache-export.c:1637-1651 | killing a victim, in fields: the same, but that it stays on the shrink list it is on |
| DcacheFields.MoveFields | labs/7/task-1/dcache-export.c:2941-3020 | d_move onto a non-root, for each dentry, in fields |
| DcacheFields.SwapFields | labs/7/task-1/dcache-export.c:3044-3056 | d_exchange of non-roots, for each dentry, in fields |
| DcacheFields.ListFields | labs/7/task-1/dcache-export.c:426-486 | the steps that move dentries between lists, in fields |
| DcacheFields.ListSpares | labs/7/task-1/dcache-export.c:1207-1255 | they touch neither tree nor hash table; the mark of a late look goes only when the shrinker passes a dentry by for it |
| DcacheRuns.StepKeepsSound | labs/7/task-1/dcache-export.c:665-757 | each of twenty-two steps, every caller of __dentry_kill among them, with no guard but what callers must see to, keeps forest, lists, counts and hash table |
| DcacheRuns.SoundAlways | labs/7/task-1/dcache-export.c:767-932 | in every run from the empty cache each count is the external references plus the children, parents form a forest, chains are exact |
| DcacheRuns.StepDrifts | labs/7/task-1/dcache-export.c:354-486 | each step keeps SHRINK_LIST within LRU_LIST and the unused counter exact, and adds its stated drift to the error of the negative counter |
| DcacheRuns.CountersAlways | labs/7/task-1/dcache-export.c:354-486 | in every run the error of the negative counter is the sum of the drifts of the steps taken |
| DcacheRuns.CacheOkIff | labs/7/task-1/dcache-export.c:354-486 | all counters are right in a state of a run if and only if the drifts up to it cancel |
| DcacheRuns.KilledAreLeaves | labs/7/task-1/dcache-export.c:1179-1205 | in every run no dentry is killed, by dput, from a shrink list, as a victim or by d_prune_aliases, while it has children |
| DcacheRuns.ListedAlways | labs/7/task-1/dcache-export.c:599-602 | in every run the real LRU list has only dentries that are in the tree |
| DcacheRuns.StepStrays | labs/7/task-1/dcache-export.c:426-486 | no step leaves an unused dentry off all lists but two: one found disrupted on a shrink list, and one whose last child is moved away, which the source warns about |
| DcacheRuns.PutHasStep | labs/7/task-1/dcache-export.c:896-917 | the holder of a reference can drop it, and count and retain_dentry decide how |
| DcacheRuns.UnusedHasStep | labs/7/task-1/dcache-export.c:1555-1582 | count, lists and sign decide whether a dentry can be reclaimed, killed as a victim or pruned; any can be looked up |
| DcacheRuns.ListHasStep | labs/7/task-1/dcache-export.c:1207-1255 | they and the mark of a late look decide what the shrinker and select_collect do with a dentry |
| DcachePut.PutKillsChain | labs/7/task-1/dcache-export.c:896-917 | dput kills exactly the unbroken row of ancestors on their last reference and not to be kept; the next one loses one count, and no other parent, count or reference changes |
| DcachePut.PutSparesRest | labs/7/task-1/dcache-export.c:896-917 | just the killed leave the hash table; every other dentry keeps name, hash, sign, flags and children, but that the one above the killed loses the topmost of them as a child and goes on the LRU if it is retained |
| DcachePut.PutSound | labs/7/task-1/dcache-export.c:896-917 | dput keeps references and hash table right all the way up, whatever is on shrink lists |
| DcachePut.PutDrifts | labs/7/task-1/dcache-export.c:896-917 | and adds to the error of the negative counter one for each positive dentry of its chain on a shrink list |
| DcachePut.PutOk | labs/7/task-1/dcache-export.c:896-917 | dput keeps all counters right if and only if no dentry of its chain is a positive one on a shrink list |
| DcachePut.KillStep | labs/7/task-1/dcache-export.c:713-757 | a killed dentry had no children, its parent is held by the caller, and the tree is one smaller |
| DcachePut.PutDecides | labs/7/task-1/dcache-export.c:896-917 | dput in fields: on the last reference the dentry stays, unused and on the LRU, if and only if it is hashed, connected, cacheable and not refused; otherwise it is unhashed and off the real list |
| DcachePut.PutSparesDead | labs/7/task-1/dcache-export.c:896-917 | dput puts nothing dead back on a list or into the hash table |
| Dcaches.Dcache.DPut | labs/7/task-1/dcache-export.c:896-917 | the loop terminates and is the recursion, whatever locks others hold in each round; on the last reference the dentry stays if and only if it is hashed, connected, cacheable and not refused by d_delete, and then it is on the LRU |
| Dcaches.Dcache.FastDput | labs/7/task-1/dcache-export.c:767-867 | either the reference is dropped as the slow path would have, or nothing has changed and it is the last |
| Dcaches.Dcache.RetainDentry | labs/7/task-1/dcache-export.c:665-691 | says yes exactly to a hashed, connected, cacheable dentry that d_delete spares; then the reference is gone and the dentry on the LRU |
| Dcaches.Dcache.DentryKill | labs/7/task-1/dcache-export.c:713-757 | with or without the second look under both locks, kills the dentry and gives its parent |
| Dcaches.Dcache.DentryKillNow | labs/7/task-1/dcache-export.c:580-625 | takes the dentry off the real LRU list but not off a shrink list, out of the hash table and the tree, and drops its inode; no other dentry changes lists |
| Dcaches.Dcache.Lookup | labs/7/task-1/dcache-export.c:2455-2509 | gives the match, if and only if there is one, with one more count and outside reference on it and nothing else changed, and keeps references and hash table right |
| Dcaches.Dcache.DMove | labs/7/task-1/dcache-export.c:2941-3020 | stops at a BUG_ON if and only if one dentry is an ancestor of the other; otherwise moves or exchanges, with the locks listed; then parents, names, hashes and the hashed set are given, and the locks held at once are those of both dentries and both parents |
| Dcaches.Dcache.SwitchNames | labs/7/task-1/dcache-export.c:2982-3005 | unhashes both, copies or trades names and hashes again, as the value functions say |
| Dcaches.Dcache.SwitchInTree | labs/7/task-1/dcache-export.c:2988-3004 | sets parents, children lists and counts, as the value functions say |
| Dcaches.Dcache.DputToList | labs/7/task-1/dcache-export.c:920-932 | drops a count; a dentry on no shrink list leaves the real list and, if and only if the count is then zero, joins the given one |
| Dcaches.Dcache.Reclaim | labs/7/task-1/dcache-export.c:1198-1203 | one entry off the list, its parent's count down, and killed |
| Dcaches.Dcache.ShrinkDentryList | labs/7/task-1/dcache-export.c:1179-1205 | terminates with an empty list and no shrink flag left; kills only dentries below start that nobody outside needs |
| Dcaches.Dcache.ShrinkRound | labs/7/task-1/dcache-export.c:1624-1638 | one turn kills something, or is the last because all below start is in use |
| Dcaches.Dcache.ShrinkDcacheParent | labs/7/task-1/dcache-export.c:1621-1656 | terminates for every behaviour of need_resched; below start exactly the dentries with an externally referenced descendant-or-self are left, elsewhere all; references, hash table and flags stay right and the error of the negative counter as it was; what is left below start, other than start and the cursors, is off the LRU, and what is elsewhere on it as before |
| DcacheShrink.OneRound | labs/7/task-1/dcache-export.c:1555-1582 | a walk of select_collect lists only unused dentries below start, and lists none only if none is unused; found is how many it has listed |
| DcacheShrink.SelectFields | labs/7/task-1/dcache-export.c:1555-1582 | one call, in fields: whom it counts, whom it lists, whom it takes off the real list, and when the walk quits or may not be retried |
| DcacheShrink.UnusedNotBusy | labs/7/task-1/dcache-export.c:1555-1582 | a dentry that is unused after some have been reclaimed had no external reference at or below it to begin with |
| DcacheShrink.LeftAreBusy | labs/7/task-1/dcache-export.c:1621-1656 | when all below start is in use, each dentry there has an external reference at or below it |
| DcacheReap.ReapOne | labs/7/task-1/dcache-export.c:1179-1205 | each turn keeps: the list holds just the dentries with the shrink flag, all below start |
| DcacheRounds.Survivors | labs/7/task-1/dcache-export.c:1621-1656 | who survives, for each dentry, both ways |
| DcacheWalk.DWalk | labs/7/task-1/dcache-export.c:1350-1454 | the walk with its jumps terminates and gives the state, the calls, the stop and the retry flag of the recursive preorder walk, for every tree and callback |
| DcacheWalk.LeftFalls | labs/7/task-1/dcache-export.c:1377-1412 | going on to the next child, or into one, leaves strictly less work |
| DcacheWalk.GoUp | labs/7/task-1/dcache-export.c:1417-1438 | ascending to the next sibling still to come leaves the same work to do |
| DcacheVisits.VisitFolds | labs/7/task-1/dcache-export.c:1350-1454 | the final state is the callback applied to the dentries entered, in order |
| DcacheVisits.VisitOnce | labs/7/task-1/dcache-export.c:1350-1454 | no dentry is entered twice |
| DcacheVisits.VisitStaysBelow | labs/7/task-1/dcache-export.c:1350-1454 | the start is entered first, and nothing that is not below it |
| DcacheVisits.VisitCovers | labs/7/task-1/dcache-export.c:1350-1454 | a walk that neither skips nor quits enters all that is below the start, but the cursors |
| DcacheVisits.VisitFlags | labs/7/task-1/dcache-export.c:1350-1454 | the walk stops at a call if and only if that call said so, and may be retried if and only if no call forbade it |
| DcacheVisits.VisitSkips | labs/7/task-1/dcache-export.c:1350-1454 | nothing below a dentry at which the callback said to skip is entered |
| DcacheVisits.VisitParentFirst | labs/7/task-1/dcache-export.c:1350-1454 | each dentry is entered after its parent |
| DcacheVisits.ListOrder | labs/7/task-1/dcache-export.c:1350-1454 | children are entered in the order of the list, each with all below it before the next |
| DcacheNames.Names.SwapNames | labs/7/task-1/dcache-export.c:2869-2910 | in all four inline and external cases the two trade the name and hash that are seen and where they are kept, and the counts stay exact |
| DcacheNames.SwapSlots | labs/7/task-1/dcache-export.c:2869-2910 | the four cases on two dentries, with both buffers still ending in a zero byte |
| DcacheNames.Names.CopyName | labs/7/task-1/dcache-export.c:2912-2928 | d is seen with the target's name and shares it if it is a shared one, the counts stay exact, a name without users is freed, nobody else sees a change |
| DcacheNames.Names.TakeSnapshot | labs/7/task-1/dcache-export.c:315-327 | a snapshot sees what the dentry's readers see, and points to the same shared name if it is one |
| DcacheNames.Names.Release | labs/7/task-1/dcache-export.c:330-380 | freeing a dentry or snapshot frees a shared name if and only if it was the last user |
| DcacheNames.Names.AllocName | labs/7/task-1/dcache-export.c:1765-1805 | a new dentry is seen with the given name, stored outside, with a zero byte behind it and a count of 1, if and only if it is too long for the buffer |
| DcacheNames.NamesEnd | labs/7/task-1/dcache-export.c:1776-1782 | a reader without a lock comes to a zero byte at the end of every name and of every dentry's buffer |
| DcacheNames.RepointedCounts | labs/7/task-1/dcache-export.c:2912-2928 | taking the new name and then dropping the old leaves every count the number of users, also when the two are the same |
| DcacheStrings.DentryStringCmp | labs/7/task-1/dcache-export.c:223-242 | comparing whole words and masking the last tells exactly whether some of the first count bytes differ, whatever follows them |
| DcacheStrings.DentryStringCmpBytes | labs/7/task-1/dcache-export.c:246-256 | so does comparing byte by byte, for at least one byte |
| DcacheStrings.MaskedSame | labs/7/task-1/dcache-export.c:240-241 | two words agree under the mask if and only if the bytes it covers do |
| PackedEntry.NumberBitsAreRemainder | project/projet_PNL/block.c:11-14 | the mask gives the word modulo 2^20 |
| PackedEntry.SizeBitsAreQuotient | project/projet_PNL/block.c:22-25 | the shift gives the word divided by 2^20 |
| PackedEntry.SetNumberBitsIsWithNumber | project/projet_PNL/block.c:16-20 | setting the number keeps the size |
| PackedEntry.SetSizeBitsIsWithSize | project/projet_PNL/block.c:27-31 | setting the size keeps the number |
| PackedBits.GetNumberIsNumber | project/projet_PNL/block.c:11-14 | the number field of what a word stands for is what get_block_number gives |
| PackedBits.GetSizeIsSize | project/projet_PNL/block.c:22-25 | and its size field what get_block_size gives |
| PackedBits.SetNumberIsWithNumber | project/projet_PNL/block.c:16-20 | set_block_number on a word puts the number into what it stands for, modulo 2^20, and keeps the size |
| PackedBits.SetSizeIsWithSize | project/projet_PNL/block.c:27-31 | set_block_size puts the size in, modulo 2^12, and keeps the number |
| PackedBits.ValueIsBytes | project/projet_PNL/block.c:8-31 | what a word stands for is its four bytes as numbers, the first counting least |
| PackedEntry.SetBlockNumber | project/projet_PNL/block.c:16-20 | the entry in place gets the number and keeps its size |
| PackedEntry.SetBlockSize | project/projet_PNL/block.c:27-31 | the entry in place gets the size and keeps its number |
| Volumes.GetFirstFreeBit | project/projet_PNL/bitmap.h:19-31 | clears and gives the lowest free bit, or gives 0 and changes nothing when there is none |
| Volumes.PutFreeBit | project/projet_PNL/bitmap.h:70-80 | sets the bit, refusing only numbers above the size; the number after the last bit of the bitmap is told apart as outside |
| Volumes.Volume.GetFreeBlock | project/projet_PNL/bitmap.h:54-65 | gives the lowest free block, never 0, and fails if and only if the counter is 0 |
| Volumes.Volume.PutBlock | project/projet_PNL/bitmap.h:97-104 | for every number: the counter stays exact if and only if the block was handed out or is refused, and the bit set lies outside the bitmap if and only if it is the one after its end |
| Volumes.Volume.GetFreeInode | project/projet_PNL/bitmap.h:37-48 | gives the lowest free inode, and fails if and only if the counter, which is one too high, is 1 |
| Volumes.Volume.PutInode | project/projet_PNL/bitmap.h:85-92 | for every number: the counter stays one too high if and only if the inode was handed out or is refused, and the bit set lies outside the bitmap if and only if it is the one after its end |
| Mkfs.LayoutDoesNotUnderflow | project/projet_PNL/mkfs/mkfs-ouichefs.c:96-115 | from 100 blocks on, for every 32-bit number of blocks, the free blocks are those without metadata and root and no subtraction wraps, but that of the free inodes if and only if the inodes have wrapped to 0 |
| Mkfs.WrapsToNoInodes | project/projet_PNL/mkfs/mkfs-ouichefs.c:96-115 | they have for one number of blocks, 2^32 - 26 |
| Mkfs.LayoutSizes | project/projet_PNL/mkfs/mkfs-ouichefs.c:76-115 | the bitmaps hold a bit for each block and inode and the store a place for each inode; there are as many inodes as blocks, and less than 51 more, if and only if the addition of the remainder does not wrap; their number is given in either case |
| Mkfs.MetadataFits | project/projet_PNL/mkfs/mkfs-ouichefs.c:243-256 | every image whose block numbers fit 20 bits has its metadata in the first bitmap block |
| Mkfs.ClearLine | project/projet_PNL/mkfs/mkfs-ouichefs.c:258-268 | a 64-bit word has exactly its first nr_used bits cleared |
| Mkfs.WriteBfreeBlocks | project/projet_PNL/mkfs/mkfs-ouichefs.c:237-291 | exactly the metadata and root block bits are clear |
| Mkfs.WriteIfreeBlocks | project/projet_PNL/mkfs/mkfs-ouichefs.c:195-235 | exactly the bits of inodes 0 and 1 are clear |
| Mkfs.Format | project/projet_PNL/mkfs/mkfs-ouichefs.c:84-291 | the formatted volume has exact block and one-too-high inode counters |
| AllocatorRuns.AllocationIsSafe | project/projet_PNL/bitmap.h:19-104 | in every run that returns only what it was given: counter exact, no number given twice or from the metadata, failure if and only if nothing is free |
| AllocatorRuns.CallKeepsExact | project/projet_PNL/bitmap.h:37-104 | each call keeps: free are exactly the numbers past the metadata that are not handed out |
| AllocatorRuns.FormatPools | project/projet_PNL/mkfs/mkfs-ouichefs.c:195-291 | mkfs leaves both pools as the runs start |
| AllocatorRuns.CallBlocks | project/projet_PNL/bitmap.h:54-104 | a call on the volume is a step of the block pool |
| AllocatorRuns.CallInodes | project/projet_PNL/bitmap.h:37-92 | a call on the volume is a step of the inode pool |
| FileRead.OuichefsRead | project/projet_PNL/file.c:245-401 | gives exactly the contents from offset to min(offset + len, size), through partial and empty blocks; the error cases too |
| FileRead.Locate | project/projet_PNL/file.c:287-306 | finds the block in which the offset falls |
| FileRead.CopyOut | project/projet_PNL/file.c:314-372 | copies the used parts of the following blocks in order |
| FileWrite.OuichefsWrite | project/projet_PNL/file.c:403-819 | inserts the data at the offset, keeping sizes and distinct numbers, taking only free blocks and changing no other that was handed out, if and only if it is not clipped and not a spilling one-block file; otherwise it runs past a block if and only if the last turn of the copy loop goes beyond byte 4096, and else leaves the sizes one block short; every error answer, with nothing changed, each with its own exact condition |
| FileWrite.Accept | project/projet_PNL/file.c:555-804 | the accepted write, with size and block count at the end; if it takes one block, zeros follow the data up to byte 4095 |
| FileWrite.SplitResult | project/projet_PNL/file.c:629-779 | splitting and copying come to old part, data, old rest |
| FileWrite.SplicedContents | project/projet_PNL/file.c:629-673 | an index with the split block replaced by run and tail holds the data inserted at the offset |
| FileWrite.CleanIsFits | project/projet_PNL/file.c:531-553 | the arithmetic condition before the write decides how the copy loop ends |
| FileWrite.PlaceIsJumpFor | project/projet_PNL/file.c:490-522 | the search ends at the first block that reaches the offset |
| FileWrite.UnsetByteJump | project/projet_PNL/file.c:446-553 | a one-block write to a file without blocks stores the data, whatever the disk held, if and only if byte_jump, which nobody has set, holds 0 |
| WriteSplit.FindPlace | project/projet_PNL/file.c:490-522 | the block and the byte in it where the offset falls |
| WriteSplit.OpenUp | project/projet_PNL/file.c:555-621 | later entries move up and fresh distinct blocks fill the gap |
| WriteSplit.SplitAt | project/projet_PNL/file.c:629-691 | what follows the offset in its block goes to the last fresh block, the two sizes are divided, and the block at the offset is padded with zeros from the end of the data to byte 4095 |
| WriteSplit.Shift | project/projet_PNL/file.c:555-561 | entries after the place move up by k, the rest stays |
| WriteAlloc.AllocateRun | project/projet_PNL/file.c:582-616 | k distinct free blocks are taken, all of size 0 |
| WriteData.CopyData | project/projet_PNL/file.c:704-779 | the copy loop puts the data into the run of blocks in order, and runs past a block if and only if its last turn has more than 4096 bytes to place; one block keeps what is behind the data |
| WriteData.TurnStep | project/projet_PNL/file.c:707-779 | one turn: how much goes where, and when it would run past the block |
| WriteThenRead.WriteThenRead | project/projet_PNL/file.c:245-819 | reading back gives the data, and reading after it what was at the offset before |
| Defrag.Defrag | project/projet_PNL/defrag.c:82-179 | terminates; unless no block is free and the first block that is not full is followed by one too big for its room, keeps the contents and all other files, packs all but the last block full, and frees exactly the blocks it counts; in that case, and only then, the first of the two blocks is filled, the rest of the second goes over block 0, and no other block changes |
| Defrag.PackInto | project/projet_PNL/defrag.c:95-176 | the inner loop fills block i up from later ones or finds nothing more, and overwrites block 0 if and only if none is free and the next block has more bytes than fit |
| Defrag.Absorb | project/projet_PNL/defrag.c:119-164 | bytes move to block i; block j is given up, or what is left of it moves to a fresh block, or over block 0 if and only if none is free |
| Defrag.Relocate | project/projet_PNL/defrag.c:148-160 | the rest of block j goes to a fresh block, and its own is given back |
| Defrag.Trample | project/projet_PNL/defrag.c:148-159 | with no block free the rest of block j goes over the start of block 0 |
| DefragSteps.PackedCount | project/projet_PNL/defrag.c:82-176 | a packed index has exactly ceil(size/4095) non-empty entries |
| DefragSteps.MovedBytes | project/projet_PNL/defrag.c:119-146 | bytes moved between two blocks with nothing in between leave the concatenation as it was |
| DefragSteps.BitsMove | project/projet_PNL/defrag.c:148-160 | giving a file another block keeps: free is exactly what was free or its own and is no longer named |
| DefragSteps.BitsDrop | project/projet_PNL/defrag.c:109-117 | so does giving one up |
| Directories.Directory.Lookup | project/projet_PNL/inode.c:100-142 | finds the entry if and only if it is there, though it stops at the first free slot |
| Directories.Directory.Create | project/projet_PNL/inode.c:220-299 | in the parent: appends the entry under the name cut to 27 characters; names stay distinct if and only if that was not there; links exact |
| Directories.Directory.Unlink | project/projet_PNL/inode.c:308-349 | in the parent: removes the entry and keeps the order of the rest; links exact |
| Directories.Directory.RmdirTest | project/projet_PNL/inode.c:520-542 | the two tests tell exactly whether the directory is empty |
| Directories.Directory.CloseGap | project/projet_PNL/inode.c:338-341 | slots after the removed one move down and the last used one is cleared |
| Directories.SameNameIs | project/projet_PNL/inode.c:122-131 | names pass for the same if and only if they are, or begin with the same 28 characters |
| Directories.StoredNameIsFound | project/projet_PNL/inode.c:122-131 | a created name is found if and only if it has at most 27 characters |
| Directories.AppendSlot | project/projet_PNL/inode.c:243-285 | filling the first free slot appends to the list |
| Directories.RemovedSlot | project/projet_PNL/inode.c:329-349 | closing the gap removes from the list, and used slots stay a prefix |
| FileLives.NewInode | project/projet_PNL/inode.c:147-211 | takes the lowest free inode and block, or fails with every counter and bit as before if and only if the mode is neither file nor directory, no block is free or the inode counter, which is one too high, is 1 |
| FileLives.Create | project/projet_PNL/inode.c:220-299 | each error answer and when it is given, with directory and volume as before; otherwise the lowest free inode and block are taken, the block is zeroed, the entry is appended and the new file is well formed and empty; a new directory has the size of a block; a failure changes neither the inode nor its block |
| FileLives.Unlink | project/projet_PNL/inode.c:308-405 | the entry, the index block and the inode are gone; a data block is free afterwards if and only if its entry has size 0, and just those and the index block are zeroed; both counters stay exact |
| FileLives.PutBlocks | project/projet_PNL/inode.c:363-377 | the loop gives back exactly the blocks of empty entries and counts them |
| FileLives.AllBack | project/projet_PNL/inode.c:363-377 | all data blocks come back if and only if the file holds no byte |
| FileLives.BackIfEmpty | project/projet_PNL/inode.c:363-377 | a data block comes back if and only if its entry has size 0 |
| FileLives.CreateThenUnlink | project/projet_PNL/inode.c:220-405 | creating a file or directory and unlinking it leaves both bitmaps, both counters, the directory and its link count as they were, and the disk too but that the block it had for an index, the lowest free one, is zeroed |
| FileLives.OpenTruncating | project/projet_PNL/file.c:212-243 | gives back exactly the blocks of empty entries, leaves the index block if and only if all 1024 entries are in use, and leaves a well formed file if and only if there was nothing to truncate |
| OtherFiles.OtherKept | project/projet_PNL/file.c:403-819 | a file that shares no block with the one written or packed keeps its blocks and its contents, and shares none afterwards |
| OtherFiles.WriteBeside | project/projet_PNL/file.c:403-819 | a write, whether it inserts or leaves the sizes one block short, leaves any such file a file with the same bytes |
| OtherFiles.DefragBeside | project/projet_PNL/defrag.c:82-179 | so does packing, unless it overwrites block 0 |
| OtherFiles.UnlinkBeside | project/projet_PNL/inode.c:308-405 | so does unlinking a file or directory |
| OtherFiles.TruncateBeside | project/projet_PNL/file.c:212-243 | so does truncating |
| OtherFiles.CreateBeside | project/projet_PNL/inode.c:220-299 | so does creating, and the new index block is none of any other file |
| Witnesses.WritePastTheBlock | project/projet_PNL/file.c:721-734 | an input: 4090 bytes at the end of a file of 10 run past the block |
| Witnesses.WriteToTheBrim | project/projet_PNL/file.c:721-734 | an input: 4086 bytes there leave the sizes one block short |
| Witnesses.DefragWhenFull | project/projet_PNL/defrag.c:148-159 | an input: blocks of 4000 and 200 bytes and none free; block 0 begins with the last 105 of the 200 |
| Witnesses.RenameFromFull | project/projet_PNL/inode.c:484-490 | an input: moving a file out of a directory of 128 |
| Rename.RenameWithin | project/projet_PNL/inode.c:432-456 | for every old name: replaces the name in place if a slot has the old one and else writes outside the block; the directory stays well formed if and only if the new name is no other's |
| Rename.CreateThenRename | project/projet_PNL/inode.c:243-456 | a file renamed in its directory right after it was created: outside the block if and only if its name has 28 characters |
| Rename.RenameAcross | project/projet_PNL/inode.c:432-505 | moves the entry with exact links on both sides, unless the source is full |
| Rename.SearchUnbounded | project/projet_PNL/inode.c:484-490 | the loop leaves the block if and only if the directory is full |
| Rename.FindRoom | project/projet_PNL/inode.c:432-448 | tells whether the new name is there and, if not, the first free slot |
| Rename.FindBoth | project/projet_PNL/inode.c:432-448 | in one directory, for every old name: tells whether the new name is there and, if not, where the old one is, or -1 if and only if no slot has it |

## Left out

- Pointers between dentries: a dentry is a number, its fields are entries of maps held by one object, so aliasing is out of sight; a freed dentry is one that the maps no longer have.
- `labs/7/task-1/dcache-original.c` and `project/rendu`: the same code again.
- The other lab modules, `benchmark.c`, scripts and build files: input, output and demonstrations.
- Memory barriers, RCU grace periods, per-CPU splitting of counters: one counter, and memory is not reused while it is looked at.
- Renames during a d_walk (the `rename_retry` jump), the KILLED test on ascent, and concurrent changes of the tree by the callback.
- Concurrency inside `dput`, `__d_move` and `shrink_dcache_parent`: locks others hold are inputs to `dput`, but nobody changes the dentry meanwhile; the second walk of `shrink_dcache_parent` is then never reached, which is proved. Concurrent drops and kills are in `free_once.dfy`.
- Renames, other than onto a dentry in lookup, and reuse of dentry numbers during parallel lookups; the directory sequence number does not wrap around; the walk of the hash table under RCU is one step at its beginning and one at its end.
- The callbacks of `d_op`, but for the answer of `d_delete`; fsnotify, fscrypt and security hooks; mounts; NFS alias splicing; `d_genocide`; tables allocated at boot.
- `DNAME_INLINE_LEN` and `bytemask_from_count` are defined outside the repository: the first is a parameter, the second all ones in the lowest bytes.
- Memory beyond a page boundary, which the word-wise comparison reads as zeros, is part of the arbitrary bytes after a name.
- The page-cache path of `file.c`, `super.c`, `dir.c`, `fs.c`, `fileinfo.c` and the ioctl registration.
- Failing `sb_bread`, `copy_from_user` and `copy_to_user`, timestamps, marking buffers and inodes dirty, the return of written bytes through `*pos`.
- Writes beyond the end of a file.
- FileWrite.OuichefsWrite: the local variables `block_jump` and `byte_jump`, which a write to a file without blocks leaves unset, are taken as 0; what another `byte_jump` does is said by FileWrite.UnsetByteJump for one block.
- FileWrite.Accept: takes the two unset locals of a file without blocks as 0, likewise.
- WriteSplit.FindPlace: gives 0 and 0 for a file without blocks, where the source leaves both locals unset.
- Defrag.Defrag: does not say what follows once block 0 has been overwritten; the method stops there.
- Dcaches.Dcache.FastDput: does not model another user taking or killing the dentry between the lockless decrement and the lock; that is in `free_once.dfy`.
- Dcaches.Dcache.DentryKill: does not model a second look that finds the count or the sign changed, since nobody else changes the dentry in this class; that is in `free_once.dfy`.
- Dcaches.Dcache.DMove: does not model the section for a target that is still in lookup (dcache-export.c:2975-2979 and 3011-3012); that is in `parallel_lookup.dfy`.
- Dcaches.Dcache.ShrinkDentryList: does not model dead entries with MAY_FREE and the paths of shrink_lock_dentry that drop a lock; they are in `free_once.dfy`.
- DcacheWalk.DWalk: does not model the `rename_retry` jump and the KILLED test on ascent, which need other threads.
- The second loop of `defrag` (defrag.c:194-212), which moves index entries after the index buffer was released.
- An index block is the array of its entries; its copy among the blocks of the disk is written where the source zeroes it, and not kept up to date otherwise.
- FileLives.OpenTruncating: unused index entries are taken as 0, which after the second loop of `defrag` they need not be.
- Directories.Directory.Create: the inode and the index block that ouichefs_new_inode allocates are the caller's, FileLives.Create adds them; the name is assumed not to be there, as the VFS sees to.
- Directories.Directory.Unlink: does not free the inode and the blocks; FileLives.Unlink adds that.
- FileLives.Create: does not model a failing `ouichefs_iget`; the clean-up after a failing `get_free_block` is shown not to be reached.
