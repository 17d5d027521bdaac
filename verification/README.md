# Verified models of a slice of Linux `fs/` and of three coursework programs

The repository holds a part of the Linux file-system layer and some systems-programming
coursework.  This project models the parts of both that are hard to get right and proves what
their code and comments promise.  Run `dafny verify dfyconfig.toml` here to check it.

Locks and regions with interrupts off are atomic steps.  Memory allocation, copies to user
space, `get_block`, short writes and thread schedules are nondeterministic choices or
parameters.  Code that updates fields, arrays or lists in place is a class or a method with a
loop, proved against a function on values; protocols between threads are state machines over
those functions, and their theorems are about every run.

- **AIO completion ring** (`AioSizing`, `AioRing`, `AioProtocol`, `AioSubmit`, `AioFifo`): the ring
  laid out over pages, batched per-CPU slot counters, reclaiming with a possibly stale head, and
  whole runs of submitters, files, completions, reclaimers and a reader.
- **Dentry tree** (`DentryForest`, `DcacheTree`, `DcacheWalk`, `DcacheWalkExact`): re-parenting on
  the heap, and the stackless `d_walk` against recursive preorder.
- **Buffer cache** (`BufferLru`, `BufferCache`, `BufferSteps`, `BufferTransparency`): the per-CPU
  LRU in front of the page lookup, with reference counts.
- **Page completion** (`PageIo`, `PageRead`, `PageWrite`): which buffer completion ends the I/O
  of a page.
- **Block-device claims** (`BlockClaims`, `BlockDevices`): the two-phase exclusive claim between a
  disk and its partitions, and the open counts.
- **ELF core dump** (`ElfFormat`, `CoreFile`, `CoreLog`, `CoreDump`, `FilesNote`, `FilesNoteFill`): the two-pass
  writer as bytes, against a reader of the finished file, and the NT_FILE note.
- **eventfd** (`Eventfd`), **character-device regions** (`CharDev`, `CharDevTable`), **compat ioctl
  table** (`CompatIoctl`).
- **Coursework**: the text request queue (`RequestQueue`), the bounded buffers (`BoundedBuffer`,
  `BufferDelivery`, `BufferOverrun`, `BufferProgress`), the directory listing (`DirListing`,
  `DirList`, `DirCounts`).

Where the code does not meet what it promises, the model follows the code and the exact
condition is proved:

- `ioctx_alloc` doubles the request count in 32 bits.  The promise that a caller sees the capacity
  it asked for holds on all runs exactly below 2^31 (`AioProtocol.NoEarlyRefusalIffNoWrap`).
- A request gives its slot back exactly once if and only if the submitter is told -EIOCBQUEUED just
  when the file has kept the request (`AioSubmit.OnceIffToldSo`); `io_submit_one` and `aio_ret`
  leave that to the files (`AioSubmit.GivesBackOnce` for files that keep to it).
- An LRU hit is the slow lookup's answer exactly if the buffer is mapped.  That is always so on runs
  that never make its device shorter, and fails for every hit once its device shrinks and the page
  is reinitialised (`BufferTransparency.Transparent`, `BufferTransparency.ShrinkBreaks`).
- The overlap tests for character devices miss a range that strictly encloses its successor, and
  nothing else (`CharDev.DisjointIff`; over whole runs `CharDevTable.DisjointAlways`).
- The server's buffer is created with 10 permissions whatever its size.  Some schedule puts an item on
  a slot nobody has read exactly if there are more permissions than slots and more items, the
  sentinel counted, than slots (`BufferOverrun.OverwriteIff`).
- The text queue never reuses memory in front of its header.  A request can be added exactly if all
  requests ever added leave room for it (`RequestQueue.RoomIff`), and a run ends with an empty
  queue that has no room (`RequestQueue.Starves`).
- `dump_emit` never advances the address it writes from, so after a short write the start of the data
  is written again.  Positions stay right; the contents are right exactly if every piece written is
  the one due at its place, in particular without resumed writes (`CoreLog.EmitIff`,
  `CoreDump.ElfCoreDump`), and a dump that succeeds can be spoilt (`CoreDump.SpoiltDump`).
- `fill_files_note` estimates its buffer in 32 bits.  The table fits the first buffer exactly below 2^26
  mappings or if the wrapped estimate is refused (`FilesNoteFill.TableFitsIff`, `FilesNoteFill.WrapTried`).

## Model

| member | source | states |
|---|---|---|
| AioSizing.RingShape | Lin/dirlist/files/linux-master/fs/aio.c:444-473 | for every request count the ring holds at least two records more than asked for, and header plus records fill the last page exactly |
| AioSizing.LayoutConstants | Lin/dirlist/files/linux-master/fs/aio.c:444-473 | records per page and the records' offset are the values the layout macros give for 4096-byte pages and 32-byte records |
| AioSizing.StrandedBelowHalf | Lin/dirlist/files/linux-master/fs/aio.c:709-719 | for any number of CPUs fewer than half of the slots can be stuck on other CPUs' counters, which is what the comment on the doubling claims |
| AioSizing.DoubledRing | Lin/dirlist/files/linux-master/fs/aio.c:718-728 | the 32-bit doubling yields at least twice the request below 2^31, and an accepted ring is always smaller than 2^31 records |
| AioSizing.PromiseIffNoWrap | Lin/dirlist/files/linux-master/fs/aio.c:718-763 | an allocated context keeps more than n slots outside the stranded ones if and only if n < 2^31, where doubling does not wrap |
| AioSizing.WrapAccepted | Lin/dirlist/files/linux-master/fs/aio.c:718-728 | concrete input: asking for 2^31 + 1 requests is accepted and gives a ring of 127 records |
| AioSizing.RefusalExact | Lin/dirlist/files/linux-master/fs/aio.c:718-728 | exactly which requests are refused, and whether with EINVAL or EAGAIN, wrap-around included |
| AioRing.Spill | Lin/dirlist/files/linux-master/fs/aio.c:904-909 | how much the spilling loop hands back: whole batches, leaving less than two of them |
| AioRing.SpillStep | Lin/dirlist/files/linux-master/fs/aio.c:906-909 | one turn of the spilling loop is one batch of the closed form |
| AioRing.PutHolds | Lin/dirlist/files/linux-master/fs/aio.c:897-912 | put conserves the total of global and per-CPU counters plus n and leaves the CPU's counter below twice the batch |
| AioRing.GetHolds | Lin/dirlist/files/linux-master/fs/aio.c:914-942 | get takes exactly one slot from the total, keeps every counter below twice the batch, and refuses only when the CPU has none and fewer than a batch are global |
| AioRing.RefillHolds | Lin/dirlist/files/linux-master/fs/aio.c:951-974 | whatever head user space shows, refill moves slots from completed to available without changing their sum |
| AioRing.PlaceIsOwn | Lin/dirlist/files/linux-master/fs/aio.c:1117-1124 | two ring positions share a page and place only if they are the same position |
| AioRing.WindowExtends | Lin/dirlist/files/linux-master/fs/aio.c:1224-1254 | copying the next run of places side by side extends the sequence read in ring order |
| AioRing.OnOnePage | Lin/dirlist/files/linux-master/fs/aio.c:1233-1239 | a copy chunk never crosses a page border |
| AioRing.ChunkAdvances | Lin/dirlist/files/linux-master/fs/aio.c:1229-1253 | a chunk is not empty, stays before the tail, and moves the head by its length round the ring |
| AioRing.Kioctx.PutReqsAvailable | Lin/dirlist/files/linux-master/fs/aio.c:897-912 | the loop computes Put on the context and touches nothing else |
| AioRing.Kioctx.SpillOver | Lin/dirlist/files/linux-master/fs/aio.c:906-909 | the spilling loop moves exactly the closed form from the CPU's counter to the global one |
| AioRing.Kioctx.GetReqsAvailable | Lin/dirlist/files/linux-master/fs/aio.c:914-942 | succeeds exactly when Get does, with its new counters |
| AioRing.Kioctx.RefillReqsAvailable | Lin/dirlist/files/linux-master/fs/aio.c:951-974 | the new context is Refill of the old one |
| AioRing.Kioctx.PostEvent | Lin/dirlist/files/linux-master/fs/aio.c:1117-1143 | the record goes to the place of the tail in the paged ring and to no other, and the tail moves on |
| AioRing.Kioctx.ReadHeadShowTail | Lin/dirlist/files/linux-master/fs/aio.c:1145-1149 | reads the head and publishes the tail |
| AioRing.Kioctx.AccountCompletion | Lin/dirlist/files/linux-master/fs/aio.c:1151-1153 | counts the completion and refills from the second one on |
| AioRing.Kioctx.AioComplete | Lin/dirlist/files/linux-master/fs/aio.c:1115-1154 | the locked region composed of its three parts |
| AioRing.Kioctx.CopyChunk | Lin/dirlist/files/linux-master/fs/aio.c:1229-1253 | one copy hands over the records from the head on, as many as lie on the page, are wanted and are there |
| AioRing.Kioctx.CollectEvents | Lin/dirlist/files/linux-master/fs/aio.c:1221-1254 | page by page the loop collects the oldest records in ring order, as many as there are or as are wanted, whatever the page layout |
| AioRing.Kioctx.ReadEvents | Lin/dirlist/files/linux-master/fs/aio.c:1202-1265 | on a fault nothing is taken and the head stays; otherwise the head moves past exactly the records handed over |
| AioProtocol.ConservedStep | Lin/dirlist/files/linux-master/fs/aio.c:897-974 | every step of submitters, completions, refills, readers and of user space writing the ring keeps: available + per-CPU + in flight + completed == ring size - 1, and all indices in range |
| AioProtocol.ConservedAlways | Lin/dirlist/files/linux-master/fs/aio.c:1010-1031 | slot conservation in every state of every run |
| AioProtocol.StepsPossible | Lin/dirlist/files/linux-master/fs/aio.c:897-1265 | nobody is kept from the next step: a request in flight can be released or completed, a holder of the lock can finish, a reader starts on what is shown and can end |
| AioProtocol.ScribblesAnything | Lin/dirlist/files/linux-master/fs/aio.c:1206-1219 | user space may at any time leave any head, tail and records in the ring, and touches nothing else |
| AioSubmit.OnceIffToldSo | Lin/dirlist/files/linux-master/fs/aio.c:1457-1476 | on every run, whatever files and checks answer: a settled request has given its slot back exactly once if and only if the submitter was told -EIOCBQUEUED just when the file had kept the request; told so wrongly never, kept without a word twice |
| AioSubmit.EventHoldsAnswer | Lin/dirlist/files/linux-master/fs/aio.c:1457-1476 | on every run: if the file answers ret for a request it has not queued and the request is then completed, the ring gets an event with res2 0 and res ret, or -EINTR where ret asks for a restart |
| AioSubmit.ErrorIsReturned | Lin/dirlist/files/linux-master/fs/aio.c:1624-1640 | on every run a request refused or failing a check with ret makes io_submit_one return ret |
| AioSubmit.ToldWrongly | Lin/dirlist/files/linux-master/fs/aio.c:1457-1461 | from any state with a slot to be had: a file that answers -EIOCBQUEUED for a request it has not kept makes the slot stay out for ever |
| AioSubmit.KeptSilently | Lin/dirlist/files/linux-master/fs/aio.c:1470-1475 | from any such state: a file that keeps a request and answers 0 all the same makes the slot come back twice |
| AioSubmit.FreesOnlyInFlight | Lin/dirlist/files/linux-master/fs/aio.c:1632-1639 | with honest files a submitter that releases a slot on its return value finds the request in flight and nobody completing it |
| AioSubmit.CompletesOnlyInFlight | Lin/dirlist/files/linux-master/fs/aio.c:1470-1475 | so does a completion, whether called by aio_ret or later by the file |
| AioSubmit.Refines | Lin/dirlist/files/linux-master/fs/aio.c:1550-1640 | every run of submitters, files and completions, in which nothing looks at whether a request is in flight, is a run of the slot accounting |
| AioSubmit.GivesBackOnce | Lin/dirlist/files/linux-master/fs/aio.c:1624-1639 | on every such run from a new context a slot is given back at most once and, when the request has settled, exactly once; a submission that returned 0 has then produced exactly one event and one that failed none |
| AioSubmit.QueuedGoesWell | Lin/dirlist/files/linux-master/fs/aio.c:1457-1476 | from any state with a slot to be had, a file that keeps a request, says so and completes it later leaves one event and the slot given back once |
| AioSubmit.InlineGoesWell | Lin/dirlist/files/linux-master/fs/aio.c:1457-1476 | so does a file that answers at once, with its answer as the event's result, or -EINTR for a restart code |
| AioSubmit.EverybodyGoesOn | Lin/dirlist/files/linux-master/fs/aio.c:1457-1640 | no submitter or file is kept from its next step: checks may fail with any code, a file may keep a request and answer anything, and who has to complete can once the lock is free |
| AioProtocol.RefusalBound | Lin/dirlist/files/linux-master/fs/aio.c:914-942 | a refused get leaves at most the stranded slots unused |
| AioProtocol.DrainUntilRefused | Lin/dirlist/files/linux-master/fs/aio.c:914-942 | from any state submitting on one CPU ends in a refusal |
| AioProtocol.NoEarlyRefusalIffNoWrap | Lin/dirlist/files/linux-master/fs/aio.c:709-763 | on all runs of a context for n requests no get is refused while n or fewer slots are in flight or unreclaimed, if and only if n < 2^31 |
| AioFifo.NeverOverwrites | Lin/dirlist/files/linux-master/fs/aio.c:1115-1143 | a completion never writes on an unread record, not even while a reader is copying |
| AioFifo.EmptyExactly | Lin/dirlist/files/linux-master/fs/aio.c:1206-1219 | head equal to tail means exactly that nothing shown is unread |
| AioFifo.StaleHeadReclaims | Lin/dirlist/files/linux-master/fs/aio.c:951-974 | a head read earlier reclaims no slot of a record still unread |
| AioFifo.CountReclaims | Lin/dirlist/files/linux-master/fs/aio.c:1151-1153 | the first completion is only counted; from then on each one reclaims exactly the slots that had been read when it looked at the head |
| AioFifo.RefillReclaims | Lin/dirlist/files/linux-master/fs/aio.c:976-1008 | so does a submitter that finds no slot: it reclaims the slots of all records read when it looked at the head, uninterrupted all but those of unread ones |
| AioFifo.ReadEndTakes | Lin/dirlist/files/linux-master/fs/aio.c:1224-1259 | a reader that finishes has taken what it wanted or all there was when it looked, in completion order |
| AioFifo.ReadEventsTakes | Lin/dirlist/files/linux-master/fs/aio.c:1202-1265 | in every reachable state one uninterrupted read takes the oldest records shown, as many as wanted or as there are, and moves the head past them |
| AioFifo.ReaderDelivers | Lin/dirlist/files/linux-master/fs/aio.c:1202-1265 | from every reachable state with something unread, a reader left to itself gets, chunk by chunk and whatever the page borders, the oldest unread records, as many as it wants or all there are |
| AioFifo.FifoStep | Lin/dirlist/files/linux-master/fs/aio.c:1202-1265 | every step other than user writes keeps order, placement and conservation together |
| AioFifo.FifoAlways | Lin/dirlist/files/linux-master/fs/aio.c:1115-1265 | over every run readers receive every event once, in completion order, although heads used for reclaiming may be stale |
| AioFifo.FifoFromAlloc | Lin/dirlist/files/linux-master/fs/aio.c:709-763 | the same from ioctx_alloc on, for every accepted request count and number of CPUs, with head equal to tail exactly when nothing shown is unread |
| DentryForest.MoveKeepsForest | Lin/dirlist/files/linux-master/fs/dcache.c:2799-2860 | switching two dentries neither of which is above the other leaves the parents a forest |
| DentryForest.MoveBelowItselfLoops | Lin/dirlist/files/linux-master/fs/dcache.c:2807-2808 | moving a dentry into the place of one more than one step below it closes a chain of parents: no ranking of the result exists |
| DentryForest.ForestIff | Lin/dirlist/files/linux-master/fs/dcache.c:2836-2847 | the parents stay a forest if and only if neither dentry lies more than one step below the other |
| DentryForest.NeighboursSpoilLists | Lin/dirlist/files/linux-master/fs/dcache.c:2836-2847 | parent and child that change places leave the parent on its own list of children |
| DentryForest.GuardIff | Lin/dirlist/files/linux-master/fs/dcache.c:2807-2847 | the two BUG_ONs are exact: the switch leaves a forest whose lists agree if and only if neither dentry is above the other |
| DentryForest.ReachesRoot | Lin/dirlist/files/linux-master/fs/dcache.c:2906-2915 | every chain of parents ends in a root |
| DentryForest.MoveKeepsLists | Lin/dirlist/files/linux-master/fs/dcache.c:2836-2852 | after the switch every non-root, non-cursor dentry is on its new parent's child list |
| DentryForest.MovedListsAre | Lin/dirlist/files/linux-master/fs/dcache.c:2836-2847 | every list after the switch, element by element: d in front where t was, t in front where d was unless d was a root, both gone from where they were, all else in its order |
| DentryForest.OnOneList | Lin/dirlist/files/linux-master/fs/dcache.c:1682-1699 | a dentry is on at most one child list, and there once |
| DcacheTree.RootJoins | Lin/dirlist/files/linux-master/fs/dcache.c:1642-1655 | a new dentry joins as its own parent |
| DcacheTree.LeafJoins | Lin/dirlist/files/linux-master/fs/dcache.c:1682-1699 | d_alloc keeps the tree |
| DcacheTree.CursorJoins | Lin/dirlist/files/linux-master/fs/dcache.c:1702-1710 | d_alloc_cursor keeps the tree, with the cursor on no list |
| DcacheTree.MoveKeepsTree | Lin/dirlist/files/linux-master/fs/dcache.c:2799-2860 | the switch keeps parents, ranks and child lists consistent |
| DcacheTree.ChildlessAboveNone | Lin/dirlist/files/linux-master/fs/dcache.c:2978-3024 | a dentry without listed children is above no non-cursor, so splicing onto it trips no BUG_ON |
| DcacheTree.ExchangeTwice | Lin/dirlist/files/linux-master/fs/dcache.c:2884-2896 | exchanging twice restores all parents |
| DcacheTree.StepKeepsTree | Lin/dirlist/files/linux-master/fs/dcache.c:2799-2860 | every allocation, move, exchange or splice keeps the tree |
| DcacheTree.TreeAlways | Lin/dirlist/files/linux-master/fs/dcache.c:2799-3024 | over any run of these operations the dentries stay a tree: acyclic, each on exactly its parent's list |
| DcacheTree.Dcache.Alloc | Lin/dirlist/files/linux-master/fs/dcache.c:1682-1699 | the new child is first on its parent's list; nothing else changes |
| DcacheTree.Dcache.AllocCursor | Lin/dirlist/files/linux-master/fs/dcache.c:1702-1710 | the new cursor has a parent and is on no list |
| DcacheTree.Dcache.AllocRoot | Lin/dirlist/files/linux-master/fs/dcache.c:1720-1723 | the new dentry is a root |
| DcacheTree.Dcache.DAncestor | Lin/dirlist/files/linux-master/fs/dcache.c:2906-2915 | terminates, and finds the child of p1 on the way up from p2 exactly if p1 is strictly above p2 |
| DcacheTree.Dcache.Move | Lin/dirlist/files/linux-master/fs/dcache.c:2799-2860 | reports a bug exactly if one dentry is above the other; otherwise, on the fields: d gets the parent and name of t, t the parent of d or itself if d was a root, which then is on no list; every other dentry keeps its parent, and every list is stated |
| DcacheTree.Dcache.Relink | Lin/dirlist/files/linux-master/fs/dcache.c:2836-2847 | the pointer and list updates in the source's order give the switched tree, whose parents and lists DcacheTree.SwitchedPlaces states dentry by dentry |
| DcacheTree.Dcache.SpliceAlias | Lin/dirlist/files/linux-master/fs/dcache.c:2978-3024 | each outcome exactly when it occurs; a spliced alias takes the place and name of the dentry, which for a disconnected alias becomes a root on no list; all other parents and lists stated |
| DcacheTree.SwitchedPlaces | Lin/dirlist/files/linux-master/fs/dcache.c:2836-2847 | the switched tree, dentry by dentry: parent and list of each in terms of those before |
| DcacheWalk.Descend | Lin/dirlist/files/linux-master/fs/dcache.c:1254-1260 | going down to a child leaves the rest of the walk the same and smaller |
| DcacheWalk.PassOver | Lin/dirlist/files/linux-master/fs/dcache.c:1229-1252 | stepping over a cursor or a skipped child leaves the rest of the walk the same and smaller |
| DcacheWalk.Ascend | Lin/dirlist/files/linux-master/fs/dcache.c:1268-1286 | going back up resumes behind the child just finished |
| DcacheWalk.DWalk | Lin/dirlist/files/linux-master/fs/dcache.c:1200-1307 | the stackless walk terminates and shows the callback exactly the entries of the recursive preorder walk, in order, with the same outcome |
| DcacheWalkExact.VisitExact | Lin/dirlist/files/linux-master/fs/dcache.c:1200-1307 | what a walk has entered is exactly what its answers led to |
| DcacheWalkExact.EnteredOnce | Lin/dirlist/files/linux-master/fs/dcache.c:1200-1307 | no dentry is entered twice |
| DcacheWalkExact.PrunesExactly | Lin/dirlist/files/linux-master/fs/dcache.c:1229-1260 | unless told to quit, a non-cursor below the root is entered if and only if its parent was and the answer there was not to skip |
| DcacheWalkExact.QuitExact | Lin/dirlist/files/linux-master/fs/dcache.c:1230-1262 | a walk is quit exactly if its last entry was answered so, and no other entry ever was |
| DcacheWalkExact.SeesWholeSubtree | Lin/dirlist/files/linux-master/fs/dcache.c:1200-1307 | a callback that never skips or quits sees every non-cursor of the subtree |
| BufferLru.BhLru.Install | Lin/dirlist/files/linux-master/fs/buffer.c:1288-1309 | the swapping loop refines move-to-front truncated to sixteen slots; a newly kept buffer gains one reference and the one that fell out loses one |
| BufferLru.BhLru.MoveToFront | Lin/dirlist/files/linux-master/fs/buffer.c:1327-1334 | the shifting loop moves one slot to the front and keeps the order of the others |
| BufferLru.BhLru.Lookup | Lin/dirlist/files/linux-master/fs/buffer.c:1314-1342 | returns the first matching slot with one more reference and moves it to the front; otherwise changes nothing and no slot matches |
| BufferCache.LruSlotFirst | Lin/dirlist/files/linux-master/fs/buffer.c:1315-1342 | the search of an LRU gives the first slot whose buffer has the device, block number and size asked for, or none |
| BufferCache.Scan | Lin/dirlist/files/linux-master/fs/buffer.c:217-230 | the walk over a page's buffers finds a mapped buffer with the block's number if there is one |
| BufferCache.HitIsSlow | Lin/dirlist/files/linux-master/fs/buffer.c:200-253 | a buffer that an LRU lookup would hit is what the slow lookup returns if it is mapped, and otherwise the slow lookup finds nothing |
| BufferSteps.HitKeeps | Lin/dirlist/files/linux-master/fs/buffer.c:1314-1342 | an LRU hit keeps every buffer's count equal to its users plus its LRU slots |
| BufferSteps.FoundKeeps | Lin/dirlist/files/linux-master/fs/buffer.c:200-253 | so does the reference the slow lookup takes on what it found |
| BufferSteps.InstalledKeeps | Lin/dirlist/files/linux-master/fs/buffer.c:1288-1320 | so does installing it later, evictions included; a buffer that waits to be installed is held and still there |
| BufferSteps.ReleaseAllCounts | Lin/dirlist/files/linux-master/fs/buffer.c:1429-1439 | invalidating an LRU takes exactly one reference from each buffer in it |
| BufferSteps.AttachedKeeps | Lin/dirlist/files/linux-master/fs/buffer.c:948-975 | new buffers get consecutive block numbers of their page |
| BufferSteps.RegrownKeeps | Lin/dirlist/files/linux-master/fs/buffer.c:948-975 | reinitialising a page's unmapped buffers gives each the number of its place |
| BufferSteps.DiscardedKeeps | Lin/dirlist/files/linux-master/fs/buffer.c:1484-1500 | a discarded buffer names no device, and places and references stay |
| BufferSteps.DroppedKeeps | Lin/dirlist/files/linux-master/fs/buffer.c:3266-3293 | buffers are freed only when no user and no LRU holds any buffer of the page |
| BufferSteps.DroppedExact | Lin/dirlist/files/linux-master/fs/buffer.c:3266-3315 | buffers are freed exactly if none of the page is busy or referenced, and then all of that page and no others |
| BufferSteps.StepKeeps | Lin/dirlist/files/linux-master/fs/buffer.c:1288-1364 | every step keeps pages, places, numbers, distinct LRU entries and reference counts consistent; LRU lookup, slow lookup and install are steps of their own, with anything in between |
| BufferSteps.StepsPossible | Lin/dirlist/files/linux-master/fs/buffer.c:1349-1364 | blocks can be looked up at any time, a reference found installed and any other given back, a page cut, truncated or stripped |
| BufferTransparency.StepSized | Lin/dirlist/files/linux-master/fs/buffer.c:948-975 | unless the step makes the device shorter: mapped buffers stay inside it, and LRU entries stay inside it and mapped while they name a block |
| BufferTransparency.Transparent | Lin/dirlist/files/linux-master/fs/buffer.c:1288-1364 | in every reachable state, installs of buffers found earlier included, an LRU hit is attached, referenced and equal to the slow lookup's answer exactly if mapped; always so as long as its device was never made shorter, whatever other devices did |
| BufferTransparency.ShrinkBreaks | Lin/dirlist/files/linux-master/fs/buffer.c:2992-3002 | from every state with a hit: discard the page, which stays cached, shorten the device to below the block, reinitialise, and the LRU still finds the buffer while the slow lookup finds none |
| BufferTransparency.FoundStays | Lin/dirlist/files/linux-master/fs/buffer.c:1349-1364 | a block found by the slow lookup and installed at once is in front of the LRU |
| BufferTransparency.HitTakes | Lin/dirlist/files/linux-master/fs/buffer.c:1315-1342 | a lookup that matches takes one reference and puts the buffer in front, the other slots keeping their order; nothing else changes |
| BufferTransparency.SlowAt | Lin/dirlist/files/linux-master/fs/buffer.c:186-253 | in every reachable state the slow lookup of a block at a cached page's place finds exactly the buffer there, if it is mapped |
| BufferTransparency.DiscardedLost | Lin/dirlist/files/linux-master/fs/buffer.c:1484-1553 | discarding part of a page makes the slow lookup lose the blocks of that part and no others of the page |
| BufferTransparency.TruncatedGone | Lin/dirlist/files/linux-master/fs/buffer.c:1502-1553 | after a page is truncated none of its blocks is found, and its place in the cache is free for a new page |
| BufferTransparency.AttachedFound | Lin/dirlist/files/linux-master/fs/buffer.c:948-975 | every block of a page given new buffers is found by the slow lookup in its own buffer exactly if it lies below the device's end |
| BufferTransparency.RegrownFound | Lin/dirlist/files/linux-master/fs/buffer.c:948-975 | so is every block of a page initialised again, if it was mapped or lies below the end |
| PageIo.Page.WalkRead | Lin/dirlist/files/linux-master/fs/buffer.c:309-318 | one round of the ring finds out whether a buffer is still pending and, if not, whether all are up to date; the BUG_ON in it holds |
| PageIo.Page.WalkWrite | Lin/dirlist/files/linux-master/fs/buffer.c:366-373 | the same for writes, leaving the completing buffer out |
| PageIo.Page.EndBufferAsyncRead | Lin/dirlist/files/linux-master/fs/buffer.c:280-335 | bits of page and buffers after the read handler are ReadEnded of those before |
| PageIo.Page.EndBufferAsyncWrite | Lin/dirlist/files/linux-master/fs/buffer.c:341-383 | bits after the write handler are WriteEnded of those before |
| PageIo.ReadEndedExact | Lin/dirlist/files/linux-master/fs/buffer.c:280-335 | a completed read releases its buffer and leaves the others; the last one, and no other, unlocks the page, and marks it up to date exactly if all its buffers are and nothing failed |
| PageIo.WriteEndedExact | Lin/dirlist/files/linux-master/fs/buffer.c:341-383 | the same for a write, the last one ending writeback |
| PageRead.QuietKeeps | Lin/dirlist/files/linux-master/fs/buffer.c:304-329 | the last completion, and only it, gets to close the page |
| PageRead.UnlockedOnce | Lin/dirlist/files/linux-master/fs/buffer.c:280-335 | whatever the order of completions a read page is unlocked at most once, only when no buffer is pending, and is then up to date exactly if no error was recorded, in which case all its buffers are |
| PageRead.MissingIsRead | Lin/dirlist/files/linux-master/fs/buffer.c:2295-2358 | on every run a buffer that is not up to date and is mapped, or gets mapped without being brought up to date, has been read when the page is unlocked |
| PageRead.OnlyMissingIsRead | Lin/dirlist/files/linux-master/fs/buffer.c:2295-2325 | only such buffers are listed; others are left alone, or zeroed and up to date where there is no block |
| PageRead.NoBug | Lin/dirlist/files/linux-master/fs/buffer.c:288-316 | the handler's BUG_ONs are unreachable |
| PageRead.HandlerIsThreeSteps | Lin/dirlist/files/linux-master/fs/buffer.c:280-335 | the handler on the heap does what report, quiet and close of the protocol do together |
| PageRead.StepsRunOut | Lin/dirlist/files/linux-master/fs/buffer.c:2295-2358 | after the first pass every step leaves less to do |
| PageRead.NotStuck | Lin/dirlist/files/linux-master/fs/buffer.c:2295-2358 | while the page is locked some step is possible or a listed buffer is locked by somebody else |
| PageRead.OthersAreFree | Lin/dirlist/files/linux-master/fs/buffer.c:2312-2350 | other threads may lock, unlock and bring up to date any buffer that is not under I/O |
| PageWrite.QuietKeeps | Lin/dirlist/files/linux-master/fs/buffer.c:360-377 | the last completion, and only it, gets to end the writeback |
| PageWrite.EndedOnce | Lin/dirlist/files/linux-master/fs/buffer.c:1794-1849 | writeback ends at most once, only when no buffer is being written, by the writer itself if it submitted nothing, on the normal and on the recovery path; the BUG_ON on PageWriteback holds |
| PageWrite.DirtyIsIssued | Lin/dirlist/files/linux-master/fs/buffer.c:1794-1830 | on every run a buffer that is mapped and dirty when the writer comes to it, and not locked unless the writer waits, has been issued by the time the writer is through; on the recovery path one that is mapped, dirty and not delayed |
| PageWrite.CleanedIsIssued | Lin/dirlist/files/linux-master/fs/buffer.c:1805-1826 | on the normal path the writer takes the dirty bit only from buffers it then issues |
| PageWrite.OnlyDirtyIsMarked | Lin/dirlist/files/linux-master/fs/buffer.c:1805-1806 | what gets marked was mapped, dirty and unlocked, and on the recovery path not delayed |
| PageWrite.IssuedOnce | Lin/dirlist/files/linux-master/fs/buffer.c:1822-1830 | on every run there are as many submissions as buffers issued: none is issued twice |
| PageWrite.IssuedIsClean | Lin/dirlist/files/linux-master/fs/buffer.c:1851-1895 | a buffer under I/O has been cleaned, and the page of a failed get_block carries its error |
| PageWrite.RecoveryCleans | Lin/dirlist/files/linux-master/fs/buffer.c:1862-1876 | on the recovery path the other buffers lose their dirty bit |
| PageWrite.NeverWaits | Lin/dirlist/files/linux-master/fs/buffer.c:1799-1804 | a writer that is not to wait passes over locked buffers and leaves them as they are |
| PageWrite.NoBug | Lin/dirlist/files/linux-master/fs/buffer.c:348-371 | the handler's BUG_ONs are unreachable |
| PageWrite.HandlerIsThreeSteps | Lin/dirlist/files/linux-master/fs/buffer.c:341-383 | the handler on the heap does what report, quiet and close of the protocol do together |
| PageWrite.StepsRunOut | Lin/dirlist/files/linux-master/fs/buffer.c:1794-1849 | every step of writer and completions leaves less to do |
| PageWrite.NotStuck | Lin/dirlist/files/linux-master/fs/buffer.c:1794-1849 | until writeback has ended some step is possible or the writer waits for a lock |
| PageWrite.OthersAreFree | Lin/dirlist/files/linux-master/fs/buffer.c:1794-1830 | other threads may do what they like to a buffer that is not under I/O |
| BlockClaims.ClaimKeeps | Lin/dirlist/files/linux-master/fs/block_dev.c:1609-1621 | finishing an allowed claim keeps one holder per device, disk against partitions exclusive, and the counts balanced |
| BlockClaims.ReleaseKeeps | Lin/dirlist/files/linux-master/fs/block_dev.c:1802-1821 | so does releasing one |
| BlockClaims.ReleaseLeavesClaimable | Lin/dirlist/files/linux-master/fs/block_dev.c:1010-1026 | a release never takes back a permission to claim, which is why the BUG_ON at the finish cannot fire |
| BlockClaims.MayClaimIff | Lin/dirlist/files/linux-master/fs/block_dev.c:1010-1026 | a claim may be made if and only if all claims on the device are by the same holder, and nobody claims the disk for a partition, or a partition for the disk |
| BlockClaims.GrantedIff | Lin/dirlist/files/linux-master/fs/block_dev.c:1042-1069 | in every state of every run a claim is granted exactly if it is claimable and no other is under way, and refused with EBUSY exactly if it is not claimable |
| BlockClaims.OpenCounts | Lin/dirlist/files/linux-master/fs/block_dev.c:1802-1821 | in every state of every run open counts and partition counts are those of the opens, with one open of the disk per open partition |
| BlockClaims.ClaimEnds | Lin/dirlist/files/linux-master/fs/block_dev.c:1602-1636 | in every reachable state a claim under way can be ended, by success or failure of the open, and then nothing keeps others from claiming |
| BlockClaims.HolderLetsGo | Lin/dirlist/files/linux-master/fs/block_dev.c:1795-1843 | in every reachable state a holder can release its claim and then close the device |
| BlockClaims.FinishKeeps | Lin/dirlist/files/linux-master/fs/block_dev.c:1602-1628 | at the finish the device may still be claimed and this holder is the one claiming |
| BlockClaims.StepKeeps | Lin/dirlist/files/linux-master/fs/block_dev.c:1010-1141 | every step of claimers, plain opens, releases and closes keeps all of it |
| BlockClaims.Exclusive | Lin/dirlist/files/linux-master/fs/block_dev.c:1010-1141 | on every run no device has two holders, a disk held by a real holder has no held partition, and holder counts balance with a whole-disk claim counting twice |
| BlockClaims.NoBug | Lin/dirlist/files/linux-master/fs/block_dev.c:1609-1625 | on every run both BUG_ONs at the finish hold, and at most one claim is in progress |
| BlockClaims.ClosedUnheld | Lin/dirlist/files/linux-master/fs/block_dev.c:1768-1774 | a device whose last open is closed has no holders left, so the warning there cannot fire |
| BlockClaims.RoundTrips | Lin/dirlist/files/linux-master/fs/block_dev.c:1609-1821 | release undoes claim and close undoes open, field by field |
| BlockDevices.MayClaimNow | Lin/dirlist/files/linux-master/fs/block_dev.c:1010-1026 | the decision on the devices is bd_may_claim of their fields |
| BlockDevices.StartClaiming | Lin/dirlist/files/linux-master/fs/block_dev.c:1049-1136 | EBUSY, wait or granted as the prepare step says; only a grant marks the disk |
| BlockDevices.FinishClaiming | Lin/dirlist/files/linux-master/fs/block_dev.c:1602-1628 | the two updates, on one and the same device for a whole disk, give the claimed fields; claiming ends either way |
| BlockDevices.ReleaseClaim | Lin/dirlist/files/linux-master/fs/block_dev.c:1802-1821 | the two decrements and two tests give the released fields, also when the device is its own container |
| BlockDevices.Get | Lin/dirlist/files/linux-master/fs/block_dev.c:1417-1564 | success counts the open, and the first open of a partition the disk too; every failure leaves all counts as they were |
| BlockDevices.Put | Lin/dirlist/files/linux-master/fs/block_dev.c:1759-1796 | counts the close, and the last close of a partition closes the disk |
| ElfFormat.NotesLength | Lin/dirlist/files/linux-master/fs/binfmt_elf.c:1396-1406 | the bytes of the notes are as many as notesize adds up to, and a multiple of four |
| ElfFormat.PhdrBack | Lin/dirlist/files/linux-master/fs/binfmt_elf.c:2303-2320 | a program header read back from its bytes is the header written |
| ElfFormat.EhdrBack | Lin/dirlist/files/linux-master/fs/binfmt_elf.c:1419-1441 | the layout fields of the ELF header read back |
| ElfFormat.ShdrBack | Lin/dirlist/files/linux-master/fs/binfmt_elf.c:2161-2175 | the segment count of extended numbering reads back |
| ElfFormat.NotesBack | Lin/dirlist/files/linux-master/fs/binfmt_elf.c:1408-1417 | reading a note segment gives the notes written, names, types and contents |
| CoreFile.CountReadBack | Lin/dirlist/files/linux-master/fs/binfmt_elf.c:2220-2233 | a reader's count of program headers, extended numbering included, is one for the notes plus one for every mapping and the gate mapping |
| CoreFile.NotesReadBack | Lin/dirlist/files/linux-master/fs/binfmt_elf.c:2247-2262 | the PT_NOTE header gives place and size of the notes, and reading there gives exactly the notes |
| CoreFile.SegmentReadBack | Lin/dirlist/files/linux-master/fs/binfmt_elf.c:2300-2321 | every other program header describes its mapping, those of the list in order and the gate last: type, flags, address, sizes, alignment, and an aligned range inside the file |
| CoreFile.PageReadBack | Lin/dirlist/files/linux-master/fs/binfmt_elf.c:2342-2358 | every byte of every dumped page is at the place its header gives: the page's own byte, or zero if the page was absent |
| CoreFile.HeaderReadBack | Lin/dirlist/files/linux-master/fs/binfmt_elf.c:2161-2175 | the ELF header gives the tables and entry sizes; from 0xffff program headers on a section header at the end of the file holds their number |
| CoreDump.WalkVisits | Lin/dirlist/files/linux-master/fs/binfmt_elf.c:2135-2159 | first_vma and next_vma visit every mapping once, the gate mapping last |
| CoreDump.NoteInfoSize | Lin/dirlist/files/linux-master/fs/binfmt_elf.c:2076-2087 | the size computed in the first pass is that of all notes of process and threads |
| CoreDump.FlatAt | Lin/dirlist/files/linux-master/fs/binfmt_elf.c:2089-2110 | the notes of the threads follow each other in the order of the threads |
| CoreDump.Measure | Lin/dirlist/files/linux-master/fs/binfmt_elf.c:2272-2279 | the first pass records what is dumped of every mapping and the total |
| CoreLog.LogIff | Lin/dirlist/files/linux-master/fs/coredump.c:787-806 | for any log of writes: what they put into the file is as long as what was due, and equal to it if and only if every piece is the one due at its place |
| CoreLog.EmitIff | Lin/dirlist/files/linux-master/fs/coredump.c:787-806 | one completed call with any counts: as many bytes as asked for, and they are the data if and only if every piece from the start of the data repeats the piece due |
| CoreLog.ShortWriteRepeats | Lin/dirlist/files/linux-master/fs/coredump.c:794-804 | concrete input: two different bytes written one at a time come out as the first one twice |
| CoreLog.ZeroRounds | Lin/dirlist/files/linux-master/fs/coredump.c:813-826 | zeroes come out right however short the writes |
| CoreDump.Coredump.Emit | Lin/dirlist/files/linux-master/fs/coredump.c:787-806 | every write puts in bytes from the start of the data; the counts add up to the data exactly on success, and it fails only for the limit, an interruption or a failed write |
| CoreDump.Coredump.Skip | Lin/dirlist/files/linux-master/fs/coredump.c:809-827 | seekable or not and however short the writes, the file reads as that many more zeroes |
| CoreDump.Coredump.Align | Lin/dirlist/files/linux-master/fs/coredump.c:830-836 | pads to the next multiple of four of the file position |
| CoreDump.Coredump.WriteNote | Lin/dirlist/files/linux-master/fs/binfmt_elf.c:1408-1417 | from an aligned position the bytes due are those of the note with its padding |
| CoreDump.Coredump.WriteNoteInfo | Lin/dirlist/files/linux-master/fs/binfmt_elf.c:2089-2110 | the bytes due are the notes of the process and of its threads, in order |
| CoreDump.Coredump.WriteLoads | Lin/dirlist/files/linux-master/fs/binfmt_elf.c:2300-2321 | due is one header per mapping with the running offset |
| CoreDump.Coredump.WritePages | Lin/dirlist/files/linux-master/fs/binfmt_elf.c:2342-2358 | due are the dumped pages of a mapping, absent ones as zeroes |
| CoreDump.Coredump.WriteData | Lin/dirlist/files/linux-master/fs/binfmt_elf.c:2337-2359 | due are the contents of all mappings in order |
| CoreDump.Plan | Lin/dirlist/files/linux-master/fs/binfmt_elf.c:2220-2292 | the first pass computes header, note header, data offset and trailer of the core file |
| CoreDump.ElfCoreDump | Lin/dirlist/files/linux-master/fs/binfmt_elf.c:2220-2368 | on success every part was written at its place in the core file and the length is right; the contents are those of the core file if and only if no piece was spoilt by a resumed write; without resumed writes what is there is the core file or a prefix of it; it fails only for the limit or the environment |
| CoreDump.SpoiltDump | Lin/dirlist/files/linux-master/fs/coredump.c:794-804 | for every process whose identification starts with two different bytes: a first write of one byte gives a dump that succeeds with the right length and the wrong contents |
| FilesNote.DescBack | Lin/dirlist/files/linux-master/fs/binfmt_elf.c:1568-1577 | decoding the finished note gives exactly the mappings it was made of, in order |
| FilesNote.MappedAt | Lin/dirlist/files/linux-master/fs/binfmt_elf.c:1599-1631 | exactly the named mappings are listed, each with its range, offset and name, in their order |
| FilesNoteFill.MoveDown | Lin/dirlist/files/linux-master/fs/binfmt_elf.c:1620-1625 | moving bytes down in place, overlap included, copies the old bytes |
| FilesNoteFill.AddName | Lin/dirlist/files/linux-master/fs/binfmt_elf.c:1610-1625 | a name filled in at the end of the free space is moved down behind the names before it, or does not fit and nothing changes |
| FilesNoteFill.TryFill | Lin/dirlist/files/linux-master/fs/binfmt_elf.c:1599-1631 | one pass succeeds exactly if all names fit, and then table and names are in place |
| FilesNoteFill.Finish | Lin/dirlist/files/linux-master/fs/binfmt_elf.c:1633-1650 | storing the header and moving the names down gives the finished note |
| FilesNoteFill.TableFitsIff | Lin/dirlist/files/linux-master/fs/binfmt_elf.c:1586-1598 | for every map_count the buffer of the first attempt holds header and table if and only if there are fewer than 2^26 mappings or no attempt is made |
| FilesNoteFill.WrapTried | Lin/dirlist/files/linux-master/fs/binfmt_elf.c:1588-1593 | concrete input: with 2^26 + 1 mappings the 32-bit estimate wraps to one page for a table of 1.6 GB |
| FilesNoteFill.FillFilesNote | Lin/dirlist/files/linux-master/fs/binfmt_elf.c:1578-1651 | wherever the first buffer holds the table: terminates; a filled note is that of the named file mappings in order; EINVAL only for very many mappings or names that need more than four fifths of the cap |
| Eventfd.SignalAmount | Lin/dirlist/files/linux-master/fs/eventfd.c:54-67 | adds all of n or fills the counter to the brim |
| Eventfd.StepExact | Lin/dirlist/files/linux-master/fs/eventfd.c:117-325 | what every step does: a semaphore read takes one and any other read everything, a write adds all it was given, a signal what fits; a thread sleeps exactly if it blocks and does not give up |
| Eventfd.RunKeeps | Lin/dirlist/files/linux-master/fs/eventfd.c:224-325 | the invariants below hold along every run |
| Eventfd.NothingLost | Lin/dirlist/files/linux-master/fs/eventfd.c:54-325 | over every run initial + accepted == read + count without wrap-around, and a thread still asleep could not proceed: count is 0 for a reader, there is no room for a writer |
| Eventfd.ReadyIsServed | Lin/dirlist/files/linux-master/fs/eventfd.c:236-325 | in every reachable state a waiter who can go on is awake, and its next turn takes it off the queue with what it asked for |
| Eventfd.PollExact | Lin/dirlist/files/linux-master/fs/eventfd.c:117-173 | POLLIN and POLLOUT are set exactly if a read, or a write of 1, would not block |
| Eventfd.OnlySignalsOverflow | Lin/dirlist/files/linux-master/fs/eventfd.c:54-67 | only a signal can fill the counter to ULLONG_MAX |
| Eventfd.EventfdCtx.SignalBy | Lin/dirlist/files/linux-master/fs/eventfd.c:54-67 | adds n if it fits and otherwise what fits, and returns that; wakes all |
| Eventfd.EventfdCtx.DoRead | Lin/dirlist/files/linux-master/fs/eventfd.c:175-179 | takes 1 in semaphore mode, else everything, and wakes all |
| Eventfd.EventfdCtx.StartRead | Lin/dirlist/files/linux-master/fs/eventfd.c:224-262 | reads, fails with EAGAIN or goes to sleep, by the count and the flag |
| Eventfd.EventfdCtx.ResumeRead | Lin/dirlist/files/linux-master/fs/eventfd.c:236-257 | a woken reader reads, is interrupted or sleeps again |
| Eventfd.EventfdCtx.StartWrite | Lin/dirlist/files/linux-master/fs/eventfd.c:288-325 | refuses ULLONG_MAX, writes if the sum stays below it, else EAGAIN or sleep |
| Eventfd.EventfdCtx.ResumeWrite | Lin/dirlist/files/linux-master/fs/eventfd.c:300-325 | a woken writer writes, is interrupted or sleeps again |
| CharDev.InsertKeepsOrder | Lin/dirlist/files/linux-master/fs/char_dev.c:105-143 | an accepted region keeps its chain strictly sorted and was not there before |
| CharDev.DisjointIff | Lin/dirlist/files/linux-master/fs/char_dev.c:112-137 | an accepted region leaves the chain disjoint if and only if it does not strictly enclose its successor |
| CharDev.FreeAccepted | Lin/dirlist/files/linux-master/fs/char_dev.c:112-137 | a region that overlaps nothing registered is accepted |
| CharDev.AcceptedIff | Lin/dirlist/files/linux-master/fs/char_dev.c:112-137 | what the two tests let through: exactly the ranges that overlap nothing and those that enclose their successor |
| CharDev.RemoveKeepsOrder | Lin/dirlist/files/linux-master/fs/char_dev.c:149-167 | removal keeps the order and removes exactly the one region |
| CharDev.TableUnique | Lin/dirlist/files/linux-master/fs/char_dev.c:105-143 | a table in order is determined by the regions in it |
| CharDev.TakeUndoesPut | Lin/dirlist/files/linux-master/fs/char_dev.c:178-201 | unregistering what was registered restores the table exactly, for any regions and any sharing of chains |
| CharDevTable.DisjointStep | Lin/dirlist/files/linux-master/fs/char_dev.c:105-167 | one registration or removal keeps all ranges disjoint exactly if it does not enclose a successor |
| CharDevTable.SortedAlways | Lin/dirlist/files/linux-master/fs/char_dev.c:105-167 | over every run of registrations and removals every bucket stays strictly sorted by major and first minor |
| CharDevTable.DisjointAlways | Lin/dirlist/files/linux-master/fs/char_dev.c:105-167 | ranges stay disjoint in all states of a run if and only if no accepted range strictly encloses its successor |
| CharDevTable.EnclosingAccepted | Lin/dirlist/files/linux-master/fs/char_dev.c:119-137 | concrete input: minors 0 to 9 are accepted around registered minors 3 to 4 |
| CharDevTable.CharDevs.Highest | Lin/dirlist/files/linux-master/fs/char_dev.c:87-103 | the dynamic major is the highest empty bucket above 0 |
| CharDevTable.CharDevs.RegisterOne | Lin/dirlist/files/linux-master/fs/char_dev.c:73-147 | registers exactly the region asked for, or a dynamic one, or fails for the stated reason and changes nothing |
| CharDevTable.CharDevs.UnregisterOne | Lin/dirlist/files/linux-master/fs/char_dev.c:149-167 | removes the matching region if there is one |
| CharDevTable.CharDevs.Register | Lin/dirlist/files/linux-master/fs/char_dev.c:178-201 | a range over several majors is registered completely, or the table is as before; EBUSY only if some chunk is taken |
| CharDevTable.CharDevs.Rollback | Lin/dirlist/files/linux-master/fs/char_dev.c:194-200 | the failure loop restores the table |
| CharDevTable.CharDevs.Unregister | Lin/dirlist/files/linux-master/fs/char_dev.c:289-300 | removes the chunks of the range |
| RequestQueue.SharedQueue.constructor | BlackBoxTestingFull_P3/server-rev1.c:193-199 | the initial memory is the empty queue |
| RequestQueue.RoomIff | BlackBoxTestingFull_P3/client-rev1.c:124-134 | from any memory holding a queue: storing a request and its marks stays inside and leaves a queue with its final NUL if and only if all requests ever added leave room for it |
| RequestQueue.FifoAlways | BlackBoxTestingFull_P3/client-rev1.c:121-136 | over every run of adding and taking, what waits is what was there and was added, less as many of the oldest as were taken; and the room used never shrinks |
| RequestQueue.Starves | BlackBoxTestingFull_P3/server-rev1.c:309-315 | a run from any queue ends with an empty queue in which a given request has no room any more |
| RequestQueue.SharedQueue.AddReq | BlackBoxTestingFull_P3/client-rev1.c:121-136 | as long as the stores stay inside the memory the request is appended as the youngest; the result is a queue exactly if there was room for one character more |
| RequestQueue.SharedQueue.DequeueItem | BlackBoxTestingFull_P3/server-rev1.c:297-315 | returns the oldest request and leaves spaces, header and the remaining requests |
| RequestQueue.SharedQueue.ReadOldest | BlackBoxTestingFull_P3/server-rev1.c:300-305 | the scan finds the oldest request and its end mark |
| RequestQueue.SharedQueue.MoveHeader | BlackBoxTestingFull_P3/server-rev1.c:310-315 | the backward loop writes the header so as to end at the mark, and spaces before it |
| RequestQueue.SharedQueue.CharCount | BlackBoxTestingFull_P3/server-rev1.c:505-510 | counts one more than there are requests, so it is above 1 exactly if one is waiting |
| RequestQueue.Added | BlackBoxTestingFull_P3/client-rev1.c:127-134 | the memory after storing a request is again a queue, with that request last |
| RequestQueue.Dequeued | BlackBoxTestingFull_P3/server-rev1.c:310-315 | the memory after moving the header is the queue without its oldest request |
| BoundedBuffer.BalancedStep | BlackBoxTestingFull_P3/server-rev1.c:414-460 | every step keeps the semaphore counts balanced with the slots and the threads between their waits and posts |
| BoundedBuffer.PutIsSafe | BlackBoxTestingFull_P3/server-rev1.c:512-519 | with at most as many permissions as slots a put finds its slot free of unread cells |
| BoundedBuffer.GetIsNext | BlackBoxTestingFull_P3/server-rev1.c:521-527 | a get takes the oldest unread cell |
| BoundedBuffer.EndStep | BlackBoxTestingFull_P3/server-rev1.c:277-287 | sentinels come last and every consumer stops at its first one |
| BoundedBuffer.Slots.PutItem | BlackBoxTestingFull_P3/server-rev1.c:512-519 | stores at the put position and moves it round the ring |
| BoundedBuffer.Slots.GetItem | BlackBoxTestingFull_P3/server-rev1.c:521-527 | reads at the get position and moves it round the ring |
| BufferDelivery.NeverOverwrites | BlackBoxTestingFull_P3/server-rev1.c:249-287 | on every run of any number of producers and consumers, given no more permissions than slots (BUFFERSIZE at least the hard-coded 10), no unread slot is overwritten and gets come in order |
| BufferOverrun.FewStep | BlackBoxTestingFull_P3/server-rev1.c:512-527 | with no more items than slots no step overwrites an unread cell, however many permissions there are |
| BufferOverrun.Overruns | BlackBoxTestingFull_P3/server-rev1.c:249-252 | with more permissions and more items than slots, for any number of producers, a run puts an item on an unread cell |
| BufferOverrun.OverwriteIff | BlackBoxTestingFull_P3/server-rev1.c:249-287 | for any number of producers and consumers some run overwrites an unread cell if and only if there are more permissions than slots and more items than slots |
| BufferDelivery.Delivered | BlackBoxTestingFull_P3/server-rev1.c:414-460 | when all consumers have stopped every item was taken exactly once, each producer's in its order, sentinels last, one for each consumer |
| BufferDelivery.NotStuck | buffer/buf.c:30-84 | as long as not everybody has finished somebody can go on |
| BufferProgress.StepsRunOut | buffer/buf.c:30-84 | every step uses up exactly one of the six each item takes |
| BufferProgress.RunsEnd | BlackBoxTestingFull_P3/server-rev1.c:414-460 | every schedule ends: a run that cannot go on has exactly six steps for each item, all producers finished and all consumers stopped, each with one sentinel |
| DirListing.PrecedesTransitive | Project2-5243528/pardirlist.c:278-283 | the comparison of paths is transitive |
| DirListing.PrecedesTotal | Project2-5243528/pardirlist.c:278-283 | and a strict total order |
| DirListing.PrecedesIff | Project2-5243528/pardirlist.c:280 | the order of strings through the first position where they differ |
| DirListing.AddedByLevel | Project2-5243528/pardirlist.c:121-153 | insertion keeps the list in the order of levels |
| DirListing.SwapHelps | Project2-5243528/pardirlist.c:278-283 | exchanging neighbours in the wrong order leaves exactly one inversion less and the same items |
| DirListing.NeatSorted | Project2-5243528/pardirlist.c:270-295 | a list in level order with no neighbours to swap and no path twice is sorted by level and path |
| DirListing.Canonical | Project2-5243528/pardirlist.c:270-295 | the sorted permutation is unique |
| DirListing.RankNext | Project2-5243528/pardirlist.c:297-309 | ranks go up by one within a level and start again at a new one |
| DirList.Sdll.AddPath | Project2-5243528/pardirlist.c:109-155 | the doubly linked list stays well formed and grows by one item at the place its level gives it |
| DirList.Sdll.LinkMiddle | Project2-5243528/pardirlist.c:147-152 | the four pointer updates insert the node between its neighbours |
| DirList.Sdll.BubblePass | Project2-5243528/pardirlist.c:276-286 | a pass that swaps leaves fewer inversions; one that does not leaves the list unchanged and without neighbours to swap |
| DirList.Sdll.SortHelper | Project2-5243528/pardirlist.c:270-295 | terminates with the same items, each place keeping its level, and no neighbours to swap |
| DirList.Sdll.NumberChildren | Project2-5243528/pardirlist.c:297-309 | every number is the rank within the level |
| DirList.Listing | Project2-5243528/pardirlist.c:349-361 | for any order of discovery and distinct paths the listing is the sorted permutation with ranks as numbers |
| DirList.SameListing | Project2-5243528/pardirlist.c:349-361 | two runs that find the same items produce the same listing |
| DirCounts.SameCounts | Project2-5243528/pardirlist.c:221-261 | on every schedule of walk, threads, sort and writer each printed count is the sequential one, and a finished listing prints exactly the lines of the sequential program |
| DirCounts.NotStuck | Project2-5243528/pardirlist.c:318-323 | until everything is printed some step other than a swap is possible |
| DirCounts.RunsEnd | Project2-5243528/pardirlist.c:318-323 | whatever the schedule, a listing takes at most three steps and four for each path besides the exchanges of the sort, and one that took so many has printed everything |
| CompatIoctl.XformInvolution | Lin/dirlist/files/linux-master/fs/compat_ioctl.c:833-835 | the transform is its own inverse on 32 bits |
| CompatIoctl.XformBits | Lin/dirlist/files/linux-master/fs/compat_ioctl.c:833-835 | which bits of the number go where |
| CompatIoctl.Guess | Lin/dirlist/files/linux-master/fs/compat_ioctl.c:1523-1529 | the guessed start lies in the table |
| CompatIoctl.CheckTable | Lin/dirlist/files/linux-master/fs/compat_ioctl.c:1520-1540 | for any sorted table of at most 2^16 entries the search answers exactly whether the number is there |
| CompatIoctl.LookupDecides | Lin/dirlist/files/linux-master/fs/compat_ioctl.c:833-835 | looking the transformed number up decides whether the number itself is listed |

## Left out

- AIO: the system-wide `aio_nr` limit, the context table, cancellation, page migration and user-space reaping of the ring; sizes are those of x86-64.
- AioProtocol.ConservedAlways: put and get are single steps, so the compare-and-exchange loop of `get_reqs_available` is not split further.
- AioSubmit.GivesBackOnce: for files that call `ki_complete` once for each request they keep and answer -EIOCBQUEUED exactly then, and checks that never fail with that code.
- AioFifo.FifoAlways: assumes that only the kernel's reader moves the head; conservation alone also holds when user space writes the ring.
- Dentry tree: hashing and rehashing, sequence counts, inline and external name storage (names are values), negative dentries, killing of dentries and path printing.
- DcacheWalk.DWalk: no concurrent rename, so the retry path and the skipping of killed siblings are not modelled; the `finish` callback is not either.
- DcacheTree.Dcache.SpliceAlias: for directory inodes; other inodes only reach the final `__d_add`.
- Buffer cache: dirtying, writeback of buffers to disk, block-size changes of a device (its block size is fixed), and devices whose length is not a whole number of blocks beyond what `blkdev_max_block` rounds off.
- BufferSteps.StepKeeps: pages and buffers are values in maps here; the in-place loops are those of BufferLru and PageIo.
- PageRead.UnlockedOnce: other threads may lock buffers that are not under I/O and bring them up to date, but do not take an up-to-date bit away while the page is being read.
- PageWrite.EndedOnce: the pass that maps dirty buffers appears only through its effect on the buffers and its error; redirtying of the page is not modelled; in the recovery path looking at a buffer and locking it is one step.
- Block devices: `bd_write_holder`, event blocking, module and disk references, rescanning of partitions, holders equal to NULL or to the marker itself.
- BlockDevices.Get: the disk is opened for a partition in the same step.
- ELF: the regset variant of the notes, the extra hooks, the filling of registers and process information, and the choice made by `vma_dump_size`, which is an input; the loading half of the file.
- CoreDump.Coredump.Skip: a seekable file that ends in skipped pages gets its length only from `dump_truncate`, whose failure the program ignores; here a skipped range is in the file.
- CoreDump.ElfCoreDump: requires what the machine types allow (notes below 2 GiB, the file below 2^63 bytes, addresses below 2^64) and page-aligned mappings.
- FilesNoteFill.FillFilesNote: where the wrapped estimate gives a buffer shorter than the table, what the program then writes past it is not modelled.
- FilesNote.DescBack: names are free of NUL.
- eventfd: `eventfd_ctx_remove_wait_queue`, which in semaphore mode reads without looking at the count, reference counting and copies from user space.
- Character devices: the cdev map, major 0 inside a range given to `register_chrdev_region`, and counts that wrap a device number.
- Request queue: parsing of a request into path and keyword, the semaphores around the queue (each operation is one step), and requests containing the layout's own characters.
- Bounded buffers: reading and matching of files; at most 20 workers fit the server's thread array, which the model does not use.
- RequestQueue.SharedQueue.AddReq: requires that its stores stay inside the shared memory; what stores past its end do is not modelled.
- BufferDelivery.Delivered: lines are assumed to differ from the sentinel text; the consumer loop of `buf.c` is read as a do-while loop.
- Directory listing: reading directories, matching of words, the unsynchronised total of matches, and the root's uninitialised thread.
- DirList.Listing: adds the items from a sequence in place of the directory recursion.
- Compat ioctl: the sorting of the table at start-up and the translation of arguments.
- Files of the repository not named in the table are not part of this model.
