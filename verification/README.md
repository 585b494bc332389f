# Camel: threading, block files, change sets, summaries and codecs

A Dafny model of five stateful pieces of the Camel mail library, with proofs about them.  Classes
stand for the structures that the C code updates in place, loops for its loops; pure datatypes are
the specifications that the methods are proved against and that the theorems are about.

- **Threading** (`Thread*.dfy`).  Messages are arranged into a tree by their references, placeholder
  nodes are pruned, roots merged by subject, siblings sorted and phantom nodes removed.  `Node` has the
  intrusive `next`, `child` and `parent` pointers; `Forest` is their mathematical picture, with the
  child list and the line of ancestors of every node.  A slot before a list entry (the address of a
  `child` field cast to a node in C) is an owner together with the previous node or null; the variable
  that holds the list of roots is the `child` field of an extra node.
- **Block file** (`BlockStore`, `BlockView`, `BlockCache`, `BlockRun`).  An allocator whose free list
  runs through the blocks, under a write-back cache.  `Cache` is the picture of a block file; the view
  of it is the cached data of a block or else the file.  I/O fails nondeterministically, counted in ghost
  fields (`unread`, `unwritten`), and a write that fails may leave anything in its block.
- **Key file** (`KeyFile`).  Chains of record lists appended to one file of bytes.
- **Locks** (`Locks`).  What every call of block and key files does with locks and what it uses under
  them, as a tree of its possible courses, and the interleavings of any number of threads.
- **Change sets** (`Changes`, `ChangeDiff`, `Freezing`).  Lists and table of a change set, histories of
  a folder, concatenation, diffs, and a folder that is frozen and thawed.
- **Folder summary** (`SummaryIndex`).  The array of messages and the table by uid.
- **Codecs** (`Codec`, `Tokens`, `ContentTree`, `ContentParts`).  Integers, strings, dictionary words,
  and the tree of message parts, on a stream of bytes.

Where the code and its comments disagree the model follows the code: the integer encoder returns the
last byte written instead of 0, the token encoder returns -1 for the empty string although it writes
the right bytes, a failed write to a key file can leave bytes behind, after which lists are not found
under their heads, a concatenated change set can list a uid as removed that is there, and opening a
block file looks at its root block and size, and may initialise it, without the locks that guard them.
The last three have lemmas with the exact condition.

`dafny verify dfyconfig.toml` checks everything.

## Model

| member | source | states |
|---|---|---|
| ThreadSummary.ThreadSummary | camel/camel-folder-thread.c:436-567 | The whole of threading, subject grouping on or off, for any summary of distinct message infos: the tree holds each message exactly once and no node without a message; child lists, `next` chains and parent pointers agree exactly; every root has a null parent; roots are in strictly increasing summary order; and every phase is the one the lemmas below speak about (`Threaded`) |
| ThreadReferences.RepliesBelow | camel/camel-folder-thread.c:436-567 | When the references of a summary agree (no id is said to be directly below two others, or above itself), then in the tree that is delivered, with or without grouping by subject, the nearest ancestors of every message are the messages it refers to that are in the summary, nearest first |
| ThreadKept.ReferencesKept | camel/camel-folder-thread.c:436-567 | Over the whole pipeline, the message ancestors that reference linking gives a message are, in the same order, its nearest ancestors in the final tree: pruning, grouping, sorting and promotion only add ancestors behind them |
| ThreadKept.RunKept | camel/camel-folder-thread.c:232-315 | No run of the merge loop takes an ancestor cited by references away from a message or puts one in between |
| ThreadKept.TopRunKept | camel/camel-folder-thread.c:524-555 | Neither does the removal of phantom nodes |
| ThreadLinks.ContainerAddChild | camel/camel-folder-thread.c:52-59 | The node becomes the first child and its parent pointer is set; the pointers are those of the forest with the node attached there |
| ThreadLinks.ContainerParentChild | camel/camel-folder-thread.c:61-101 | For distinct nodes: refused when already right or when it would close a loop, otherwise the node leaves its old list and heads the new one; the result is again a forest (each node once in one list, finite ancestor lines, exact parents) and the fall-through after the search cannot be reached |
| ThreadForest.DetachOk | camel/camel-folder-thread.c:84-101 | Taking a node out of the list that holds it leaves a forest in which the node has no parent and is in no list |
| ThreadForest.AttachOk | camel/camel-folder-thread.c:52-59 | Putting a node that is in no list below a node that is not below it leaves a forest: no loop can arise |
| ThreadForest.NotOwnAncestor | camel/camel-folder-thread.c:70-77 | In every forest reached the ancestor walk is finite and no node is above itself |
| ThreadBuild.EnterMessage | camel/camel-folder-thread.c:455-476 | Which node a message gets: the one under its id unless another message has it, a node of its own for a duplicate or missing id; order is position plus one |
| ThreadBuild.LinkReferences | camel/camel-folder-thread.c:477-498 | The chain of references, zero ids skipped, unknown ids given placeholders, is linked as the specification `LinkChain` says, each step as LinkStepParents says, and leaves a forest with exact pointers |
| ThreadBuild.LinkReference | camel/camel-folder-thread.c:480-497 | On the pointers: the node of the id, new if there was none, becomes the parent of the child unless it is the child or below it; no other parent changes; the node is the next child |
| ThreadBuild.LinkStepParents | camel/camel-folder-thread.c:480-497 | The same of the parents in the specification `LinkStep` |
| ThreadBuild.BuildForest | camel/camel-folder-thread.c:448-500 | All messages: every message is the content of exactly one node, the tables of ids hold every node once, the forest is the fold of all reference chains (what that means for the ancestors is LinesCited), and no root is listed yet |
| ThreadReferences.LinesCited | camel/camel-folder-thread.c:448-500 | After linking, for references that agree: the line of ancestors of every message begins with the nodes of its references, nearest first, and is exactly that if nothing is said to be above the last of them |
| ThreadReferences.ChainedOn | camel/camel-folder-thread.c:480-497 | A reference that agrees is never refused: it becomes the parent of the one before, and links made earlier stay |
| ThreadBuild.DuplicateIsLater | camel/camel-folder-thread.c:455-468 | A message counts as a duplicate exactly when an earlier message of the summary has its id |
| ThreadBuild.ListRoots | camel/camel-folder-thread.c:501-504 | Whatever the order of the hash tables, exactly the nodes without a parent are in the root list, each once |
| ThreadPrune.PruneEmpty | camel/camel-folder-thread.c:103-143 | Terminates although promoted children are visited again; afterwards message-less nodes below are exactly roots with two or more children; every ancestor line is the old one restricted to what is left, so the ancestor relation of messages is unchanged; a removed root leaves at most one root of its tree behind |
| ThreadPrune.SpliceNode | camel/camel-folder-thread.c:117-139 | One empty node is replaced, in place, by its children in reverse order, which get its parent |
| ThreadPrune.PruningTrans | camel/camel-folder-thread.c:103-143 | What pruning has kept of ancestor lines stays kept over recursive calls and promotions |
| ThreadForest.SpliceOk | camel/camel-folder-thread.c:117-139 | Replacing a node by its children leaves a forest |
| ThreadGroup.StepOk | camel/camel-folder-thread.c:255-313 | Every turn of the merge loop keeps the invariant (forest, every parentless node a root, message-less nodes are roots that keep a child no table entry names, table entries are where the loop can find them), keeps all messages, and comes nearer to the end of the root list |
| ThreadGroup.MergeIntoOk | camel/camel-folder-thread.c:263-273 | Two message-less roots become one and the invariant holds |
| ThreadGroup.AdoptCurrentOk | camel/camel-folder-thread.c:278-287 | The current root goes below the table's node and the root list shrinks |
| ThreadGroup.AdoptEntryOk | camel/camel-folder-thread.c:274-291 | The table's node goes below the current root, wherever it was |
| ThreadGroup.PairOk | camel/camel-folder-thread.c:292-310 | Two replies go below a new message-less root that takes the table entry over |
| ThreadGroupRun.GetRootSubject | camel/camel-folder-thread.c:157-201 | The subject and reply mark of a node, or of its first child with a message |
| ThreadGroupRun.FirstSubjectIs | camel/camel-folder-thread.c:157-201 | A node without a message has the subject of its first child with one, and none if there is no such child |
| ThreadOutcome.TableIsChosen | camel/camel-folder-thread.c:238-252 | Which root the table names for a subject: the first message that is no reply; without one, of the replies and the message-less roots whose subject is no reply, each of which supersedes the other kind, the first of the last stretch of one kind; without those, the first root |
| ThreadGroupRun.RemoveNode | camel/camel-folder-thread.c:205-230 | The node is always found; the list that holds it loses it, and the slot before the current root stays a slot before the same place |
| ThreadGroupRun.Turn | camel/camel-folder-thread.c:255-313 | One turn of the loop on the pointers is one `Step` of the specification |
| ThreadGroupRun.GroupRootSet | camel/camel-folder-thread.c:232-315 | The loop ends, is a run of steps from the gathered table of subjects (which root is in it: TableIsChosen; what becomes of the roots: the next rows), makes only new nodes, and leaves parent pointers exact but below merged message-less roots |
| ThreadOutcome.RepliesJoinOriginal | camel/camel-folder-thread.c:232-315 | If a root with a subject is a message and no reply, the table names the first such root; when the merge is done every reply that was a root with the subject is a child of it, every other root with the subject is still a root, and it is a root itself unless there were message-less roots with the subject, of one of which it is then a child |
| ThreadOutcome.EmptyTakesAll | camel/camel-folder-thread.c:232-315 | If there is no such root and the table names a message-less root, that stays a root, every reply becomes its child, and the other message-less roots with the subject disappear and leave it their children |
| ThreadOutcome.RepliesGetParent | camel/camel-folder-thread.c:232-315 | If there is no such root and the table names a reply: all replies with the subject, if there are two or more, become children of one new message-less root; a single one stays a root unless there are message-less roots with the subject, of one of which it is then a child |
| ThreadSubject.ReplyRootsAlone | camel/camel-folder-thread.c:232-315 | When the merge is done, for every run from the gathered table: of two different roots with the same subject, not empty, neither is a reply; a reply that is still a root is the only root with its subject |
| ThreadSubject.RunSifts | camel/camel-folder-thread.c:255-313 | At every turn: a reply the loop has passed is the table's node for its subject and the only passed root with it, and once a root with a subject has been passed the table's node still ahead is no reply |
| ThreadSort.SortThread | camel/camel-folder-thread.c:384-420 | Every sibling list below is rearranged (same nodes) into strictly increasing summary order, where a node without a message counts as its already sorted first child; nothing else changes |
| ThreadSort.ResortingOk | camel/camel-folder-thread.c:384-420 | Rearranging child lists leaves a forest with the same roots |
| ThreadTop.RemovePhantoms | camel/camel-folder-thread.c:524-555 | Every message-less root gives its place to its first child, which gets its other children; afterwards parent pointers are exact everywhere and the root list is still strictly increasing |
| ThreadTop.PromotedTop | camel/camel-folder-thread.c:530-549 | Replacing a phantom by its first child keeps the order of the roots |
| ThreadTop.PromotedParents | camel/camel-folder-thread.c:530-549 | Who is whose parent after one replacement |
| BlockStore.RunOk | camel/camel-block-file.c:472-526 | Over any run that frees only blocks in use, free and used ids together are exactly the block places before the end, each once, and none is lost or gained |
| BlockStore.FreesAreStacked | camel/camel-block-file.c:507-526 | Freed ids are stacked on the free list |
| BlockStore.NewsUnstack | camel/camel-block-file.c:478-487 | New blocks take them off again, last freed first |
| BlockStore.FreesThenNews | camel/camel-block-file.c:472-526 | Freeing any blocks in use and allocating as many gives back the same store |
| BlockStore.ChainUnique | camel/camel-block-file.c:478-487 | The links stored in the blocks determine the free list |
| BlockStore.FreeEndsIff | camel/camel-block-file.c:515-520 | Writing the links of a freed block leaves a free chain that ends exactly when the block was not free already |
| BlockStore.FreeOkIff | camel/camel-block-file.c:507-526 | After freeing any id, free and used ids still partition the block places exactly when that id was in use |
| BlockStore.TrimFacts | camel/camel-block-file.c:572-587 | What the eviction loop leaves: blocks that clients hold or that cannot be written stay, in order, and either enough blocks went or only such are left |
| BlockStore.TrimIsLru | camel/camel-block-file.c:572-587 | A block that goes is less recently used than any evictable block that stays |
| BlockView.WriteBackOk | camel/camel-block-file.c:696-710 | Writing a block back, with success or not, changes nothing a reader sees, and a block that is clean afterwards is as on disk |
| BlockView.ChangeOk | camel/camel-block-file.c:655-671 | A change that a client marks shows in that block and nowhere else |
| BlockView.NewBlockOk | camel/camel-block-file.c:472-498 | The allocator invariant and the chain hold after new_block; only the root block and the new, zeroed block look different |
| BlockView.FreeBlockOk | camel/camel-block-file.c:507-526 | The same for free_block |
| BlockView.FreeChainEnds | camel/camel-block-file.c:507-526 | After free_block on any id, in use or not, the chain that the stored links make ends exactly when the id was not free already |
| BlockView.ClientWriteOk | camel/camel-block-file.c:655-671 | Clients that write only blocks in use keep the free chain |
| BlockView.SyncThenOpen | camel/camel-block-file.c:712-741 | With nothing dirty and the SYNC flag set the file ends where the root block says, the root passes validation, and opening gives the same blocks, free list and end |
| BlockView.InitOk | camel/camel-block-file.c:133-146 | An initialised root block is valid and describes an empty store |
| BlockCache.BlockFile.SyncBlockNolock | camel/camel-block-file.c:696-710 | A dirty block is written and clean if that succeeds, dirty if not; a clean one is left alone |
| BlockCache.BlockFile.Flush | camel/camel-block-file.c:572-587 | The list is what `Trim` leaves of it; hash and list agree, the view is the same |
| BlockCache.BlockFile.GetBlock | camel/camel-block-file.c:538-606 | It returns nothing exactly for id 0, an id behind the end, one that is no multiple of 1024, or one not cached when opening or reading the file failed; otherwise the block with the view's data; what becomes of list, hash and reference counts on a hit, a miss and a failure; after a miss without a failed write the count is within the limit of 256 or every block that was and is cached has a client, and no block goes while the count is below it; the view is unchanged, hash and list agree, and the whole is a run of loads, write-backs and evictions |
| BlockCache.MissKeepsLimit | camel/camel-block-file.c:572-587 | The part of it about the limit, for any list and any sets of blocks that cannot go |
| BlockCache.BlockFile.NewBlock | camel/camel-block-file.c:472-498 | It fails exactly when opening or reading the file failed; otherwise a zeroed block whose id was not in use, the head of the free list or the old end, on 32 bits; all invariants hold, and the whole is a run of `BlockRun`, unless the end wraps around |
| BlockCache.BlockFile.FreeBlock | camel/camel-block-file.c:507-526 | It fails exactly for an id that get_block turns down or when opening or reading the file failed; otherwise the id heads the free list, its first word leads to the old head, the invariants hold afterwards exactly if it was in use, and the free chain ends exactly if it was not free already |
| BlockCache.BlockFile.TouchBlock | camel/camel-block-file.c:655-671 | Whatever other changes are still unmarked: the block is dirty, and the first mark after a sync takes the SYNC flag off the root block, which is written at once |
| BlockCache.BlockFile.WriteBlock | camel/camel-block-file.c:655-671 | A client's change shows in the view and the flag is off; if it was on and no I/O failed, the file as it is then is not valid, so that it would be initialised when opened |
| BlockCache.BlockFile.SyncNolock | camel/camel-block-file.c:712-741 | It fails exactly when a write failed; on success nothing is dirty and the SYNC flag is set; on failure nothing a reader sees has changed |
| BlockCache.BlockFile.Sync | camel/camel-block-file.c:776-795 | It fails exactly when an I/O call failed; on success the file equals the view, its size is the end, its root is valid, and opening it gives the same store |
| BlockCache.BlockFile.Open | camel/camel-block-file.c:366-407 | It fails exactly when an I/O call failed; a valid file is taken as it is, any other is initialised with an empty store and size of one block: one whose SYNC bit is off, whose size is not the recorded end, or whose version, block size, end or free list do not fit |
| BlockRun.RunRefines | camel/camel-block-file.c:472-741 | Over any run of loads, write-backs (failing or not), evictions, allocations, frees, client writes, flag changes and reopenings, every block in use holds what a plain store of blocks would hold |
| BlockRun.ReachesOn | camel/camel-block-file.c:472-741 | Runs can be put one behind the other; each method of the block file states that its effect is such a run (`Reaches`), so what is proved of runs holds for any calls in any order |
| KeyFile.ChainsHold | camel/camel-block-file.c:1088-1129 | However writes for different keys are interleaved, the chain of each key holds exactly the lists written for it, newest first, every link leading further back |
| KeyFile.KeyFile.Write | camel/camel-block-file.c:1088-1129 | For any number of records: a write of nothing changes nothing; another succeeds exactly if no I/O call fails; a success appends the record, with the count cut to 32 bits, and returns the place before as the new head, on 32 bits; a failure keeps head and end, though any beginning of the record may remain in the file |
| KeyFile.KeyFile.Read | camel/camel-block-file.c:1143-1187 | Fails exactly when opening the file fails or the record is not wholly there or has more than 1024 keys; otherwise gives the record and the next link |
| KeyFile.KeyFile.ReadChain | camel/camel-block-file.c:1143-1187 | Reading from link to link ends and gives the lists of the chain, newest first; it gets to the end exactly when opening the file does not fail and no list is longer than 1024 |
| KeyFile.ChainUnique | camel/camel-block-file.c:1143-1187 | The file determines the chain |
| KeyFile.ReadBackIff | camel/camel-block-file.c:1112-1168 | A list just written can be read back under the head that the write returned, whatever follows in the file, exactly when it holds at most 1024 keys and the file was below 4 GB |
| KeyFile.AppendsFoundIff | camel/camel-block-file.c:1112-1122 | The documentation says that a failed write leaves the file unchanged; the code may leave bytes behind the recorded end.  Every list of up to 1024 keys appended next is found under the 32-bit head that the write returns if and only if the recorded end is the end of the file and below 4 GB |
| KeyFile.FailedWriteSpoils | camel/camel-block-file.c:1106-1129 | After a failed write in a file below 4 GB later lists are sure to be found if and only if no byte was left behind |
| Locks.BodyDisciplined | camel/camel-block-file.c:49-343 | Every call, with every outcome of its branches and any list of other files to turn offline, waits only for locks that rank above all it holds, tries others only under the list lock, uses only the resources of `Uses`, each under the lock that guards it except for those of `Bare`, and gives all locks back |
| Locks.NoDeadlock | camel/camel-block-file.c:262-343 | In every state in which a call is unfinished some thread can move |
| Locks.CallsFinish | camel/camel-block-file.c:262-343 | For any number of threads making any calls in any interleaving: no lock is ever held twice, every run is finite, and a run that cannot go on has finished all calls with all locks free |
| Locks.TableIsExact | camel/camel-block-file.c:49-795 | The table of resources (root block, cache, descriptor and path of each file, lists of open files) is exact: a call can come to use exactly those of `Uses`, and exactly those of `Bare` without the lock that guards them: only calls that open or close a file have any |
| Locks.NeverTwoAtOnce | camel/camel-block-file.c:49-60 | What the locks are for: in no run do two threads use the same resource of a file at once, if what one of them uses without the lock no other uses |
| Locks.MeetIff | camel/camel-block-file.c:355-392 | The comments promise a lock for every change of the root block and for all I/O, but camel_block_file_new compares the root block with the size of the file and initialises it without them, when the file is already in the list that other threads go through.  For threads that close no file and do not otherwise use a file that another opens: two of them can come to use a resource at once if and only if one opens a file that another may turn offline |
| Locks.OpeningRaces | camel/camel-block-file.c:355-392 | Such a run, for any threads and calls, as far as the root block of the file |
| Locks.InOneHold | camel/camel-block-file.c:538-606 | Looking a block up, reading it and entering it are one hold of the cache lock; when a block is allocated, reading and changing the root block are one hold of its lock |
| Changes.ApplyOk | camel/camel-folder.c:2261-2349 | Every operation keeps the three lists duplicate-free, disjoint and in agreement with the table |
| Changes.HistoryClassified | camel/camel-folder.c:2261-2349 | Over any legal history: removed are exactly the touched uids absent at the end, added those present at the end that were absent at the start and never removed, changed the other touched ones |
| Changes.RecordedTells | camel/camel-folder.c:2261-2349 | What the operations record of any legal history is truthful about the folder before and after it, in the sense of the next rows |
| Changes.CatFinds | camel/camel-folder.c:2223-2252 | Where every uid is after concatenation, from where it was in the two change sets |
| Changes.CatTellsIff | camel/camel-folder.c:2241-2252 | The concatenation of two truthful change sets is truthful exactly when no uid removed in the first is changed in the second |
| Changes.CatCanLie | camel/camel-folder.c:2241-2252 | Such a uid: removed, then added, removed and added again; it is there but listed as removed |
| ChangeDiff.DiffRightIff | camel/camel-folder.c:2040-2189 | From a fresh change set, added are the updates that are no sources, removed the sources that are no updates and nothing is changed, exactly when no source is updated twice |
| ChangeDiff.DiffInOrder | camel/camel-folder.c:2040-2189 | With distinct updates the added uids come in the order of the updates |
| ChangeDiff.ChangeInfo.Add | camel/camel-folder.c:2261-2284 | On the lists and the table, as `AddUid`: a removed uid becomes changed, others stay |
| ChangeDiff.ChangeInfo.Remove | camel/camel-folder.c:2296-2320 | As `RemoveUid`: from whichever list to the removed list |
| ChangeDiff.ChangeInfo.MarkChanged | camel/camel-folder.c:2330-2350 | As `ChangeUid`: only a uid not yet touched is entered |
| ChangeDiff.ChangeInfo.Append | camel/camel-folder.c:2241-2252 | Concatenation, five lists one after the other, is `Cat` |
| ChangeDiff.ChangeInfo.Update | camel/camel-folder.c:2102-2123 | A source is struck out, anything else added |
| ChangeDiff.ChangeInfo.BuildDifference | camel/camel-folder.c:2145-2189 | The sources left over are removed, in whatever order the table gives them |
| Freezing.NothingIsLost | camel/camel-folder.c:1543-1599 | Over any run of freeze, thaw and reports, with or without work for a filter thread, listeners are told each event let through and, at each return to zero, one event that joins everything held back from left to right, or none if that is empty; an event with such work freezes the folder and begins what is held back |
| Freezing.HasChangesIff | camel/camel-folder.c:2380-2385 | An event counts as empty exactly when there is nothing in it |
| Freezing.FiltersKept | camel/camel-folder.c:1861-1953 | Over any run, the uids to be filtered of all events reported are, in order and each once, those given to filter threads, those in events that listeners were told, and after them those still held back |
| Freezing.StepJobs | camel/camel-folder.c:1861-1953 | An event let through either goes to one new thread, with its uids to be filtered if there is a driver and exactly its changed uids that are marked to be learned, in order, and freezes the folder; or listeners are told it, and then there is nothing in it to filter or learn |
| Freezing.JobsAreDue | camel/camel-folder.c:1861-1953 | Over any run every thread started was given that by some event let through |
| Freezing.JoinedTellsIff | camel/camel-folder.c:1574-1599 | The joined event is truthful about the whole time the folder was frozen if and only if every uid that some event changed while it was listed as removed is removed by a later event |
| Freezing.UidHonestIff | camel/camel-folder.c:1574-1599 | The same for each uid; the only lie is that a uid which is there is listed as removed |
| Freezing.Folder.DoThaw | camel/camel-folder.c:1574-1616 | One step of that specification, including the event being sent through folder_changed again |
| Freezing.Folder.FolderChanged | camel/camel-folder.c:1861-1953 | While the folder is frozen the event is joined to what is held back; otherwise, if there are new messages for a filter driver or messages to learn, a thread is given them, the folder is frozen and the rest held back; only else is the event passed on |
| SummaryIndex.Summary.AssignUid | camel/camel-folder-summary.c:823-857 | Ends with a uid that is not empty and not taken, even when the counter wraps around, or finds that the message is already there; a message without a uid, or whose uid another has, gets the first number from the counter on that nobody has, and is flagged if any number or its own uid was taken; every other message is left as it is |
| SummaryIndex.TakenAreFew | camel/camel-folder-summary.c:836-855 | The search for a free uid cannot fail more often than there are keys, since no two numbers print alike |
| SummaryIndex.WordCount | camel/camel-folder-summary.c:464-479 | The counter gives no number twice until it has gone round all 32-bit numbers |
| SummaryIndex.Summary.Add | camel/camel-folder-summary.c:863-896 | A message already there changes nothing; another is appended and entered under its uid, no other entry changes, the summary is dirty, and array and table agree |
| SummaryIndex.Bijection | camel/camel-folder-summary.c:823-896 | Array and table in agreement have as many entries, and uids are pairwise distinct |
| SummaryIndex.Summary.Remove | camel/camel-folder-summary.c:1189-1200 | Array and table agree afterwards exactly when the message was in the summary or its uid was no key |
| SummaryIndex.RemoveAgrees | camel/camel-folder-summary.c:1189-1200 | The same for any array and table |
| SummaryIndex.Summary.RemoveUid | camel/camel-folder-summary.c:1210-1229 | Removes the message under the uid, if any; then the summary is dirty and the message counted as expunged |
| SummaryIndex.Summary.RemoveIndex | camel/camel-folder-summary.c:1239-1255 | Removes the message at an index in range and makes the summary dirty, nothing otherwise |
| SummaryIndex.Summary.RemoveRange | camel/camel-folder-summary.c:1266-1299 | Removes exactly the messages from start to end inclusive, as far as there are any, and their entries; the summary is dirty if there were any |
| SummaryIndex.CutAgrees | camel/camel-folder-summary.c:1266-1299 | Array and table agree after any stretch has been taken out |
| SummaryIndex.Summary.Clear | camel/camel-folder-summary.c:1159-1179 | Both are empty; the summary is dirty if it was not empty |
| Codec.IntegerRoundTrip | camel/camel-file-utils.c:61-106 | Decoding what was encoded gives the number and uses exactly its bytes, whatever follows |
| Codec.CodeForm | camel/camel-file-utils.c:61-74 | A code is the number in groups of seven bits, most significant first and without leading zeros, with the top bit set on the last byte only |
| Codec.PrefixFree | camel/camel-file-utils.c:61-74 | No code is the beginning of another |
| Codec.Shortest | camel/camel-file-utils.c:61-105 | Codes have one to five bytes and nothing shorter decodes to the same number |
| Codec.EncodeUint32 | camel/camel-file-utils.c:61-74 | The loop over shifts writes the code of the number; the result is the last byte written and not 0 as documented |
| Codec.DecodeUint32 | camel/camel-file-utils.c:87-106 | The loop decodes on 32 bits and fails exactly at the end of the file, where it stores what it has so far |
| Codec.StoredIs | camel/camel-file-utils.c:87-106 | Decoding fails exactly when no byte has its top bit set; then what is stored is the low 25 bits of the number that the bytes make |
| Codec.StringRoundTrip | camel/camel-file-utils.c:262-316 | A string comes back, cut at 65536 bytes, a missing one as the empty string |
| Codec.ReadString | camel/camel-file-utils.c:290-318 | The decoder computes `DecodeString`, including its failures |
| Codec.StreamRoundTrip | camel/camel-file-utils.c:61-316 | Any sequence of numbers and strings is read back in order and exactly its bytes are used |
| Tokens.Search | camel/camel-folder-summary.c:1381-1384 | bsearch finds a word exactly when it is in the table |
| Tokens.TokensInOrder | camel/camel-folder-summary.c:1301-1331 | The table of words is in the order bsearch needs |
| Tokens.TokenRoundTripIff | camel/camel-folder-summary.c:1362-1454 | A string comes back, words of the dictionary in lower case, exactly when it is a word or has at most 10208 bytes |
| Tokens.TokenCodesDiffer | camel/camel-folder-summary.c:1362-1454 | Equal codes come from strings that come back equal |
| Tokens.EncodeToken | camel/camel-folder-summary.c:1361-1402 | Writes the code; -1 is returned for the empty string although its bytes are right |
| Tokens.ReadToken | camel/camel-folder-summary.c:1414-1457 | The decoder computes `DecodeToken`, including its failures |
| ContentTree.TreeBack | camel/camel-folder-summary.c:519-547 | Loading undoes saving for every tree of any depth within the limits, keeps the order of children, and uses exactly the bytes saved |
| ContentTree.TreeBackIff | camel/camel-folder-summary.c:519-547 | For every tree C can hold: what is loaded is what was saved if and only if every string, in every part, has at most 10208 bytes and no part has more than 500 parameters or children |
| ContentTree.InfoLost | camel/camel-folder-summary.c:2035-2114 | A part with a string that is too long or too many parameters does not load or loads as a different part |
| ContentTree.InfoBack | camel/camel-folder-summary.c:2035-2114 | The same for one part; a missing content type comes back as one without types |
| ContentTree.ParamsInOrder | camel/camel-folder-summary.c:2055-2066 | Parameters whose names differ in more than case come back in order |
| ContentTree.SetNew | camel/camel-mime-utils.c:2163-2197 | Setting a parameter with a new name appends it |
| ContentTree.SetKnown | camel/camel-mime-utils.c:2163-2185 | Setting a parameter whose name is there in any case replaces the value in its place |
| ContentParts.SaveTree | camel/camel-folder-summary.c:617-636 | Saving the linked parts writes the code of their tree |
| ContentParts.ReadTree | camel/camel-folder-summary.c:519-547 | Loading makes new parts, linked by child, next and parent pointers as the tree that `Load` gives, or fails when that does |
| ContentParts.AddKid | camel/camel-folder-summary.c:1459-1468 | The new part is the last child and its parent link is set; the parts before are untouched |
| ContentParts.ReadInfo | camel/camel-folder-summary.c:2035-2083 | One part is read as `LoadInfo` says, including which failures are noticed and a size that the end of the file cuts off |

## Left out

- Subject text, message ids and references are inputs: the parsing of "Re:" prefixes and the hashing of ids are not modelled, and id 0 stands for no id.
- The order of nodes (`order`) is an unbounded number; the C field has 32 bits, and a summary of that many messages is out of reach.
- qsort is modelled by an insertion sort with the comparison of the code; only that its result is a sorted permutation is used.
- The order in which hash tables are walked is left open: the theorems hold for every order.
- Freeing of nodes, blocks and parts, reference counts of objects, memory pools and the counts of open files.
- camel_folder_threaded_messages_dump and the warnings printed at the end of threading.
- Attaching and detaching blocks other than the root block; the cache count is not adjusted there, so the detached root block is counted as one more cached block.
- BlockCache.BlockFile.NewBlock: when the end of the file wraps around 32 bits only the new root block is stated, since the file is no longer valid then.
- BlockCache.BlockFile.TouchBlock: a write of the root block that fails is ignored as in the code, so no claim is made that a SYNC flag on disk means a consistent file; new_block and free_block do not clear the flag either.
- Locks: the marks of single blocks (dirty, detached) are no resource of their own: new_block and free_block set them under the root lock, touch_block under the cache lock, and a client that syncs one block clears its mark under the io lock.
- Locks: two looks at a field without its lock are no use of the resource: get_block compares the id with the end in the root block, and block_file_use asks whether another file is open before it tries the locks of that file.
- Locks: the list of other files is any list, fixed for each call; that a file being closed has left it is not shown, so of closing a file NeverTwoAtOnce asks that no other thread uses it.
- Turning another block file offline is a sync whose result is ignored, which Sync covers; in the lock model it is part of every call that opens a file.
- Codes are written to a stream that does not fail; a reading stream fails only at its end.
- Words in the bytes of a key file are little-endian; the code writes them in the order of the machine.
- SummaryIndex.Summary.Add: for fewer than 2^32 messages, which is what the length of the C array can count.
- KeyFile.ChainsHold: for files below 4 GB; places are stored in 32 bits.
- ContentParts.SaveTree: string lengths and child counts below 2^32, as C integers have them; content types are values and their parameter lists sequences.
- What the filter thread does with the messages it is given, and which of the messages to learn are junk and which are not; resetting the flag of a message to learn can report a change of its own, which here is just another report.
- The locks of a folder: each call is one step.
- Strings hold any bytes; C strings end at a zero byte, so a zero byte inside a string in a damaged file would cut it short.
- camel_folder_summary_load and camel_folder_summary_save write a header and then one message info after the other, field by field, with the codes modelled here; which fields there are is up to each provider's own summary, and StreamRoundTrip is what makes a sequence of them readable.
- Building a message info from headers, the flags of a message and the meta summary: these copy fields and keep no structure that other parts rely on.
- The fixed-width codes of integers, times and off_t, and camel_file_util_encode_fixed_string: each writes a constant number of bytes in network order and reads them again, and none of the code modelled here uses them.
