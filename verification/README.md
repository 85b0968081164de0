# Verified models of the kernel driver's protocols

The kernel driver in `KSystemInformer/` rests on a few small protocols and data
structures whose correctness depends on many functions at once: a lock in the low
bits of a pointer, a radix tree that is read while it grows, reference cycles that
exit notifications take apart, asynchronous procedure calls that race with their
waiters.  This project models them in Dafny and proves what callers rely on, for
every input, every run and every interleaving.

`dafny verify dfyconfig.toml` checks all of it.

## What is modelled

* **Atomic object references** (`LockWord`, `ObjectRef`, `ObjectRefSafety`,
  `ObjectRefTheorems`, `ObjectRefLinear`, `ObjectRefClients`, `ObjectRefProgress`).  Any number of threads work on any number
  of cells; a transition is one interlocked operation, one plain read, or one local
  decision.  What the source asserts, and any access to freed memory, raises `fault`,
  which no run does.  The weight of the exclusive bit is a parameter, so both builds
  are covered.  The main results are the invariant of every run, linearizability to a
  register for each cell in terms of what clients do and get, and that nobody is locked
  out for good.
* **The CID table** (`CidMemory`, `CidGrowth`, `CidContents`, `CidDelete`, `CidTable`).
  The class `Table` changes root and blocks store by store, with an allocator that may
  fail at any request, and its ghost `history` is what concurrent readers can see.
  The table is a growing injective map, also for a reader whose reads are spread over
  that history.  Enumeration, rundown and deletion are loops over the same memory.
* **Process and thread tracking** (`CidLinks`, `CidTracking`, `CidRuns`).  Each method of
  `Tracking` that corresponds to a section under a lock keeps the invariant on its own:
  every count is exactly table cell + list membership + initial thread slot +
  back-pointers + system slot + holders.  `held` are references that somebody will
  drop, `lost` those that nobody will.  `CidRuns` is the same sections as a transition
  relation, in any interleaving.
* **Authenticode hashing and its cache** (`HashRegions`, `TurnedRegions`, `ImageHeaders`,
  `ImageRegions`, `EaRecords`, `HashCache`, `HashProgress`, `Hashing`).  A digest is an
  arbitrary function of the absorbed bytes.  The headers of an image are read from the
  bytes of the mapping.  The loops over chunks and regions are methods on the buffer and the
  entries; what they feed is compared with the simple definition, the file without
  three gaps ("Calculating the PE Image Hash" in Microsoft's "Windows Authenticode
  Portable Executable Signature Format").  The records in extended attributes are
  bytes, written and parsed in place.
* **Asynchronous procedure calls** (`KernelApc`).  Any number of APCs, each with a
  waiter and a target thread, and the references to the driver object.
* **Messages** (`MessageQueue`, `ReplyAuthority`).  Senders, workers and shutdown as a
  state machine; the drain loop over a ring without head; the loop over the clients.
* **File names and file operations** (`NameCache`, `FileOperations`).  The cache of
  names by file object address, whose memory is reused; and the ownership of messages,
  replies, names and completion contexts across both filter callbacks.
* **Two-pass builders** (`ObjectName`, `RegistryNames`).  Measuring and filling loops.

Allocators, hash providers, reading of mapped pages and the answers of clients are
parameters: what an operation does is stated for all of them, and what it must achieve
for those that do not fail.

`Division` and `Wrappers` hold arithmetic and the option type.

## Where the code does not do what it is meant to do

* `KSystemInformer/hash.c:731` compares with `>=`, so a chunk that ends exactly where a
  region starts is fed as a whole.  `HashRegions.WholeFileWalk` and
  `ImageRegions.FileWalk` say exactly when the whole-file walk is right,
  `ImageRegions.UnluckyImage` is an image for which it is not.
* `KSystemInformer/hash.c:1998` keeps the length of a region in 32 bits.
  `HashRegions.RegionByRegionWalk` and `ImageRegions.InformationWalk` say exactly when
  the walk region by region is right, `ImageRegions.HugeImage` is an image for which
  it is not.
* The loop at `KSystemInformer/hash.c:1440-1449`, which is meant to check the bounds of
  the regions, ends at the first region in use (`Hashing.HashingContext.VerifyRegions`).
  Whether the regions are in order then depends on the file (`ImageRegions.OrderedIff`,
  and `ImageRegions.DisorderedImage` for one that is accepted and is not).  If they are
  not, the assertion at `KSystemInformer/hash.c:761` may fail (`ImageRegions.AssertionHolds`
  says exactly when), wrong bytes are hashed (`ImageRegions.FileWalk`), and the walk
  region by region leaves the mapping (`ImageRegions.StaysInsideIff`).
* `KSystemInformer/cid_tracking.c:1314-1323` documents that a context that is already
  tracked is returned, and NULL if it is of another type.  The code does the opposite,
  and in the first case takes two references that nobody drops
  (`CidTracking.Tracking.TrackExisting`).
* A thread that finds its process before the process is untracked, and is linked with
  it only afterwards, leaves a cycle of references that cleanup cannot break
  (`CidRuns.OrphansArise`).  `CidTracking.Tracking.Cleanup` says exactly when cleanup
  frees everything, and `CidRuns.FreedUnlessLate` which runs do.
* A waiter without timeout waits for ever if the target thread exits before the APC is
  delivered: rundown does not set the event (`KernelApc.WaiterIsStranded`).
  `KernelApc.AlwaysQuiet` says that every run ends well iff the waiter has a timeout or
  does not wait.
* `KSystemInformer/comms.c:1115-1116` documents that the last client to connect has
  authority for the reply.  Clients are appended to the list
  (`KSystemInformer/comms.c:493`) and the first reply stands, so it is the first one
  (`ReplyAuthority.FirstOfTwo`).  `ReplyAuthority.LastHasAuthority` and
  `ReplyAuthority.DocumentedReply` say exactly when the documentation is right.
* `KSystemInformer/object.c:825` adds up the length of a name in 16 bits, so success may
  be reported with a length that is too short (`ObjectName.LongName`, and
  `ObjectName.ExtractName` for when it is right).
* `KSystemInformer/object.c:788-805` compares the size of the buffer with the length that
  the query of the device reports even if that fails; `ObjectName.NoOverrunIff` says
  exactly when no name is written behind the buffer.

## Model

| member | source | states |
|---|---|---|
| LockWord.Decoded | KSystemInformer/kphobject.c:16-27 | the three masks split every word into pointer, exclusive bit and shared count without losing anything |
| LockWord.DecodeEncode | KSystemInformer/kphobject.c:16-27 | every combination of the three fields has exactly one word |
| LockWord.Masks64 | KSystemInformer/kphobject.c:16-20 | the 64-bit masks select exactly these fields |
| LockWord.Masks32 | KSystemInformer/kphobject.c:21-26 | the 32-bit masks select exactly these fields |
| LockWord.LockIs | KSystemInformer/kphobject.c:16-27 | the lock bits are the remainder that the masks select |
| LockWord.AddShared | KSystemInformer/kphobject.c:237-252 | adding one to a word whose lock bits are below the maximum takes one shared hold and touches nothing else |
| LockWord.DropShared | KSystemInformer/kphobject.c:274-278 | subtracting one from a shared word gives back one hold and touches nothing else |
| LockWord.SetExclusive | KSystemInformer/kphobject.c:308-324 | setting the flag of a word that has it clear changes only the flag, sharers stay counted |
| LockWord.ResetExclusive | KSystemInformer/kphobject.c:351-354 | resetting the bit changes only the flag |
| ObjectRefSafety.Exclusion | KSystemInformer/kphobject.c:295-333 | two threads are never both between setting and resetting the exclusive bit of a cell |
| ObjectRefSafety.StepKeeps | KSystemInformer/kphobject.c:138-484 | every single step of the three calls and of dereferencing keeps the invariant: lock bits count the threads inside, and an object's count is the cells holding it plus the references threads account for |
| ObjectRefSafety.NextKeeps | KSystemInformer/kphobject.c:89-182 | so does any other action: creating, referencing, dropping and handing over objects, new threads and cells, beginning a call |
| ObjectRefSafety.RunsAreSafe | KSystemInformer/kphobject.c:138-484 | in every state of every interleaving the invariant holds and no assertion of the source was ever violated: no increment finds zero, no freed object is touched, the lock is never released by someone who does not have it |
| ObjectRefTheorems.LockMeaning | KSystemInformer/kphobject.c:224-357 | the shared bits are the number of threads inside the shared section, the exclusive bit is set iff exactly one thread drains or holds, and once it has drained nobody shares |
| ObjectRefTheorems.StepWord | KSystemInformer/kphobject.c:414-422 | a step changes the pointer of a cell only as the exchange of its exclusive holder, which replaces exactly the pointer that it read before |
| ObjectRefTheorems.PointerWrites | KSystemInformer/kphobject.c:414-422 | in every run, whenever a pointer changes the writer is the one exclusive holder, nobody shares, and only the pointer field differs, so no lock count is overwritten |
| ObjectRefTheorems.ReferencesKeepAlive | KSystemInformer/kphobject.c:374-392 | an object that a thread owns a reference to or a cell holds is allocated, with a count that is exactly cells plus references |
| ObjectRefTheorems.FreedOnce | KSystemInformer/kphobject.c:154-182 | an object leaves the heap only by the free step of the one thread that took the last reference, when no cell and no thread has it |
| ObjectRefTheorems.NothingLeaks | KSystemInformer/kphobject.c:441-459 | when all cells are cleared and all references given back, every object ever created has been freed |
| ObjectRefLinear.RunsHaveHistory | KSystemInformer/kphobject.c:374-484 | in every run the cells contain what a register would after the calls that have taken effect, in the order of their effects |
| ObjectRefLinear.LogExplains | KSystemInformer/kphobject.c:374-484 | the calls that have taken effect, in the order of their effects, are a legal history of the register with the results that were returned |
| ObjectRefClients.Linearizable | KSystemInformer/kphobject.c:374-484 | reference, assign and move are linearizable, in terms of what clients do and get: for every run there is an order of the calls, given by the actions that made them, that contains every call that returned once, in which reference and move gained exactly the reference to what the cell contained, assign gained none, and calls that do not overlap come in their order |
| ObjectRefClients.OwnedExactly | KSystemInformer/kphobject.c:89-182 | a thread's references change only by what it creates, references, drops, hands over or moves into a cell, and by what its calls return |
| ObjectRefProgress.SomebodyMoves | KSystemInformer/kphobject.c:224-333 | the spinning on lock bits never locks everybody out: whoever waits for a lock, some thread does not |
| ObjectRefProgress.EverybodyFinishes | KSystemInformer/kphobject.c:138-484 | from every state of every run all calls that are under way can be finished |
| CidMemory.BuildLimits | KSystemInformer/cid_table.c:22-33 | the page sizes of both builds give a table of exactly 1 << 24 ids |
| CidMemory.LookupInjective | KSystemInformer/cid_table.c:246-324 | different ids never lead to the same cell |
| CidMemory.GrowsLookup | KSystemInformer/cid_table.c:384-483 | no store of the table code takes a cell away from an id or moves it |
| CidMemory.ContainedLookup | KSystemInformer/cid_table.c:384-452 | whatever is found through an older root is what the current root gives, because the older one is shared as its first child |
| CidMemory.LockFreeLookup | KSystemInformer/cid_table.c:246-324 | a lookup whose reads happen at arbitrary moments of a growth knows only things that are true ever after |
| CidMemory.LockFreeResult | KSystemInformer/cid_table.c:246-324 | it ends with NULL, or with the cell that the id has from then on and no other id has |
| CidMemory.UndisturbedLookup | KSystemInformer/cid_table.c:259-323 | done without stores in between, the single reads amount to the lookup function |
| CidGrowth.MigrateLookup | KSystemInformer/cid_table.c:396-447 | a root with one more level serves exactly the ids, and stores exactly the objects, of the old one |
| CidGrowth.LeafLookup | KSystemInformer/cid_table.c:415-483 | a new block serves the requested id, moves none, adds only ids of the same block, and contains no object |
| CidGrowth.TableWellFormed | KSystemInformer/cid_table.c:461-472 | linking a new level 1 table keeps the tree well formed: no block shared, none unreachable |
| CidTable.ReaderCatchesUp | KSystemInformer/cid_table.c:246-324 | what a concurrent reader of a table returns, having read at any moments of its life, is what the table gives now |
| CidTable.ConcurrentLookup | KSystemInformer/cid_table.c:246-324 | and belongs to that id alone |
| CidTable.Table.constructor | KSystemInformer/cid_table.c:125-140 | a new table serves the ids of one page, all empty |
| CidTable.Table.AllocateTable | KSystemInformer/cid_table.c:83-114 | a new block is zeroed and at an address not in use; NULL is returned iff the allocator fails, and changes nothing |
| CidTable.Table.LookupEntry | KSystemInformer/cid_table.c:246-324 | the walk through one, two or three levels reads allocated tables within their bounds only, and its result is an existing cell that no other id has, or NULL, by the map that readers at any moments agree with (`CidTable.ReaderCatchesUp`) |
| CidTable.Table.Migrate | KSystemInformer/cid_table.c:389-452 | the tree gains a level and misses one block less, or nothing changes because the allocator fails; either way each id keeps its cell and object |
| CidTable.Table.ExpandTableFor | KSystemInformer/cid_table.c:335-490 | the map is extended by the block of the id at most, in as many allocations as blocks are missing on the way, and fails iff the id is over the limit or one of these fails, without changing the map; the assertions about levels and empty entries hold |
| CidTable.Table.GetEntry | KSystemInformer/cid_table.c:502-518 | the result is the id's one cell from now on, earlier cells and all objects stay, and NULL is returned iff the id is over the limit or the allocation of one of the blocks missing for it fails |
| CidTable.Table.AssignObject | KSystemInformer/cid_table.c:44-52 | the object of this id changes and of no other |
| CidTable.VisitOne | KSystemInformer/cid_table.c:557-569 | taking the object out of the cell of the next id advances a rundown by exactly that id |
| CidTable.EnumerationDone | KSystemInformer/cid_table.c:583-703 | a walk to the end has shown every object of the table |
| CidTable.Table.InvokeCallback | KSystemInformer/cid_table.c:532-572 | an object is shown once, an empty cell not at all, and rundown leaves the cell empty |
| CidTable.Table.Enumerate | KSystemInformer/cid_table.c:583-745 | objects are shown in ascending id order, each once, up to and with the first at which the callback stops; rundown shows all and leaves every cell empty, without touching the tree |
| CidTable.ConcurrentVisit | KSystemInformer/cid_table.c:597-689 | while the table grows, an enumeration that captured the root and reads the pointers to an id's block later visits the one cell of the id, unless the id had none when the root was captured |
| CidContents.ContentsComplete | KSystemInformer/cid_table.c:583-703 | that list contains each stored object, at the place given by its id |
| CidContents.SetOne | KSystemInformer/cid_table.c:44-52 | setting the cell of an id changes the object of that id only |
| CidContents.StopAt | KSystemInformer/cid_table.c:617-623 | stopping at an id has shown exactly the objects up to that id |
| CidDelete.AllBelow2 | KSystemInformer/cid_table.c:198-226 | the entries below a level 2 root are all tables and all blocks there are |
| CidDelete.EntryRemains | KSystemInformer/cid_table.c:204-222 | freeing the tables before an entry leaves the table of that entry and all its blocks allocated |
| CidTable.Table.FreeTables | KSystemInformer/cid_table.c:204-222 | the loop over a level 2 root frees every table and block, each once, blocks first |
| CidTable.Table.Delete | KSystemInformer/cid_table.c:148-234 | at each level every block that was ever allocated is freed, and only blocks that are still allocated are |
| CidLinks.Count | KSystemInformer/kphobject.c:138-182 | referencing and dereferencing a context, for a holder, keep all counts exact |
| CidLinks.Exchange | KSystemInformer/kphobject.c:403-425 | moving a holder's reference into the cell of its CID and taking out what was there keeps all counts exact |
| CidLinks.LastThreadRef | KSystemInformer/cid_tracking.c:1013-1035 | the last reference to a thread goes when it is in no list, in no initial thread slot and in no cell |
| CidLinks.FreeThread | KSystemInformer/cid_tracking.c:1013-1035 | freeing a thread turns its back-pointer into a reference to drop, and keeps all counts exact |
| CidLinks.LastProcessRef | KSystemInformer/cid_tracking.c:586-632 | the last reference to a process goes when no thread points back to it: its list is empty and its number of threads zero, as asserted |
| CidLinks.Link | KSystemInformer/cid_tracking.c:970-987 | entering list and initial thread slot takes one reference each |
| CidLinks.Unlist | KSystemInformer/cid_tracking.c:1194-1208 | leaving the list hands out exactly the reference that entering it took |
| CidLinks.ClearInitial | KSystemInformer/cid_tracking.c:1210-1214 | so does leaving the initial thread slot |
| CidTracking.Tracking.Lookup | KSystemInformer/cid_tracking.c:58-82 | a new reference to the context of the cell, if it is of the wanted type; otherwise no reference changes |
| CidTracking.Tracking.DropProcess | KSystemInformer/cid_tracking.c:586-632 | one reference less; a process that goes with it had no threads, so nothing else changes |
| CidTracking.Tracking.DropThread | KSystemInformer/cid_tracking.c:1013-1035 | one reference less; a thread that goes takes its reference to its process along, and the process may go as well |
| CidTracking.Tracking.Assign | KSystemInformer/cid_table.c:44-52 | the cell holds the context with a reference of its own; that of the previous one is dropped |
| CidTracking.Tracking.CreateProcess | KSystemInformer/cid_tracking.c:390-577 | unless the allocation fails there is a new process without links, referenced by its creator; the system slot holds it iff it is the system process, with one more reference, and the reference to a process that was there before is lost |
| CidTracking.Tracking.CreateThread | KSystemInformer/cid_tracking.c:910-1004 | unless the allocation fails there is a new thread, referenced by its creator, that points to the process that the cell of its process id leads to, if any, in whose list it is and whose reference it has taken over; the same sections in any interleaving are those of `CidRuns` |
| CidTracking.Tracking.LinkThread | KSystemInformer/cid_tracking.c:970-987 | the section under the thread list lock, whatever happened to the process before: the thread becomes the last of the list, and the initial thread iff there is none |
| CidTracking.Tracking.Track | KSystemInformer/cid_tracking.c:1294-1340 | an untracked CID gets a new context, referenced by cell and caller, with its links, iff neither table nor memory is exhausted; otherwise nothing changes; for a tracked one the code does the opposite of its documentation |
| CidTracking.Tracking.TrackExisting | KSystemInformer/cid_tracking.c:1313-1323 | a context of the right type is not returned and keeps two references that nobody will drop; one of the wrong type is returned |
| CidTracking.Tracking.Unlink | KSystemInformer/cid_tracking.c:1186-1217 | list and initial thread slot are empty afterwards, every entry counted as unlinked, every link reference dropped once, other processes untouched |
| CidTracking.Tracking.UntrackContext | KSystemInformer/cid_tracking.c:1355-1382 | the context leaves its cell and is handed to the caller, if it is of the wanted type |
| CidTracking.Tracking.UntrackProcess | KSystemInformer/cid_tracking.c:1737-1756 | the process is out of the table and has no links, whatever its threads did before |
| CidTracking.Tracking.UntrackThread | KSystemInformer/cid_tracking.c:1793-1831 | the thread is out of the table, out of the list of its process and not its initial thread, whether or not process unlinking was faster |
| CidTracking.Tracking.CleanupCallback | KSystemInformer/cid_tracking.c:1229-1248 | a process that comes out of the table loses its links |
| CidTracking.Tracking.RunDownTable | KSystemInformer/cid_table.c:736-745 | in whatever order the cells are run down, they end up empty and only links of processes outside of the table are left |
| CidTracking.RunDownFrees | KSystemInformer/cid_tracking.c:1254-1277 | after that everything is freed iff no reference was held or lost and no process outside of the table was linked |
| CidTracking.Tracking.Cleanup | KSystemInformer/cid_tracking.c:1254-1277 | cleanup frees every context, despite the cycle of references, if and only if that was so at its start |
| CidRuns.SectionKeeps | KSystemInformer/cid_tracking.c:960-1035 | every section under a lock, every interlocked exchange and every reference given up, by whomever, keeps all counts exact |
| CidRuns.RunsKeep | KSystemInformer/cid_tracking.c:1186-1382 | so it is in every interleaving of the sections of notifications, lookups and cleanup |
| CidRuns.AstrayStep | KSystemInformer/cid_tracking.c:960-1382 | what every section makes of the set of processes that have links but are out of the table: one more if a process with links leaves its cell or one that has left gets a thread, one less if one gets back or loses its last link, and otherwise the same |
| CidRuns.AllFreed | KSystemInformer/cid_tracking.c:1254-1277 | in every run, when table and system slot are empty and nobody holds a reference, everything is freed iff that set is empty |
| CidRuns.LinkedSince | KSystemInformer/cid_tracking.c:970-987 | every link was made by a section that linked this thread with this process, and has stayed since |
| CidRuns.FreedUnlessLate | KSystemInformer/cid_tracking.c:1737-1831 | in every run in which processes are unlinked after they leave the table, everything is freed at the end iff no thread was linked with a process that had left the table, and stayed linked |
| CidRuns.OrphansArise | KSystemInformer/cid_tracking.c:967-987 | a run that ends with an empty table, no holder, and a process and a thread that are never freed: the thread finds the process, this is untracked, and only then they are linked |
| CidRuns.OrphansStay | KSystemInformer/cid_tracking.c:1186-1217 | no section that can follow, now or ever, drops one of their references |
| HashRegions.ChunkRight | KSystemInformer/hash.c:697-771 | for one chunk the bytes of the regions are fed, in order, iff no region starts at its end; otherwise more |
| HashRegions.CoveredSplits | KSystemInformer/hash.c:1728-1757 | going chunk by chunk yields the regions' bytes in the same order as going region by region |
| HashRegions.WholeFileWalk | KSystemInformer/hash.c:1728-1757 | for any chunk size and ordered disjoint regions: the whole-file walk feeds the concatenated regions iff no region that is not empty starts at a positive multiple of the chunk size |
| HashRegions.HitsMeaning | KSystemInformer/hash.c:1728-1757 | that condition in terms of the remainder |
| HashRegions.RegionByRegionWalk | KSystemInformer/hash.c:1984-2030 | the walk region by region feeds the concatenated regions iff no region adjoins the next and none has 2^32 bytes |
| HashRegions.WalksAgree | KSystemInformer/hash.c:1984-2030 | outside of these cases both walks feed the same bytes |
| TurnedRegions.AssertedIff | KSystemInformer/hash.c:761 | for a region that ends before it starts the assertion on the bounds holds in every chunk iff no chunk has both its start and its end |
| TurnedRegions.BackwardWalk | KSystemInformer/hash.c:718-766 | then the beginning of the one chunk and the rest of the other are fed for it, none of which is between its bounds |
| TurnedRegions.TurnedWalk | KSystemInformer/hash.c:1728-1757 | so with such a region more than the concatenated regions is fed, if it starts in the mapping or does not end where a chunk begins |
| TurnedRegions.RegionsAtLeast | KSystemInformer/hash.c:1984-2030 | and so it is in the walk region by region, if that stays in the mapping and cuts nothing off |
| ImageHeaders.CheckSumOffset | KSystemInformer/hash.c:1368-1399 | the fields in front of the check sum take 64 bytes in both formats |
| ImageHeaders.DirectoryOffset | KSystemInformer/hash.c:1379-1404 | those in front of an entry of the data directory take 16 bytes more in a PE32+ |
| ImageRegions.OrderedIff | KSystemInformer/hash.c:1438-1477 | for a file that is accepted the regions are in order and in the mapping iff the certificates come behind the headers |
| ImageRegions.HashedBytes | KSystemInformer/hash.c:1374-1436 | the regions, which the code sets up from the offsets in its structures, cover the file without the check sum, the security directory entry and the certificates, where these fields are given by the sizes of those in front of them |
| ImageRegions.HashedImages | KSystemInformer/hash.c:1377-1436 | the bytes that are to be hashed of three images, of either format and with and without certificates |
| ImageRegions.AssertionHolds | KSystemInformer/hash.c:761 | for an accepted image the assertion holds in every chunk of the file iff the certificates come behind the headers, or begin in another chunk than the one in which the security directory entry ends |
| ImageRegions.ThirdRegionFed | KSystemInformer/hash.c:718-766 | what is fed for the region between security directory entry and certificates if these come first |
| ImageRegions.FileWalk | KSystemInformer/hash.c:1728-1757 | the file hash is fed exactly these bytes iff the certificates come behind the headers and no part begins at a positive multiple of the buffer size; undecided only if the mapping ends with the security directory entry and the certificates begin at such a multiple |
| ImageRegions.UnluckyImage | KSystemInformer/hash.c:731-733 | an image whose second part begins at 16 KiB: all that is in front of the check sum is fed twice, and the check sum is fed |
| ImageRegions.DisorderedImage | KSystemInformer/hash.c:1440-1449 | an image that is accepted although its certificates lie in the headers, and for which the assertion on the bounds fails |
| ImageRegions.StaysInsideIff | KSystemInformer/hash.c:1997-2005 | the walk region by region stays in the mapping iff the certificates come behind the headers or the length that wraps around fits; in a mapping of less than 2^32 bytes, iff they come behind |
| ImageRegions.InformationAsserted | KSystemInformer/hash.c:1984-2030 | in this walk the assertion on the bounds holds for every accepted image |
| ImageRegions.InformationWalk | KSystemInformer/hash.c:1984-2030 | it stays in the mapping and feeds exactly these bytes iff the certificates come behind the headers and every part has less than 2^32 bytes; undecided only if it stays inside although the certificates come first, and a part has more |
| ImageRegions.HugeImage | KSystemInformer/hash.c:1998 | an image with a part of more than 2^32 bytes, of which other bytes are fed |
| EaRecords.RecordsApart | KSystemInformer/hash.c:1554-1578 | records start at multiples of four and do not overlap, and only the last one has offset zero |
| EaRecords.LaidAppend | KSystemInformer/hash.c:1554-1578 | a record written where the last one leads extends the chain |
| EaRecords.Close | KSystemInformer/hash.c:1586 | setting the last offset to zero closes the chain and harms no record |
| EaRecords.ChainUnique | KSystemInformer/hash.c:1001-1048 | the bytes of a chain determine its records |
| HashCache.NamesDiffer | KSystemInformer/hash.c:118-127 | no two algorithms have the same record name |
| HashCache.Purged | KSystemInformer/hash.c:18-24 | the names of all records start with the prefix by which the file system drops them when the file is written |
| HashCache.BoundFits | KSystemInformer/hash.c:32-55 | the bound that is compared with the buffer size at compile time is 676 |
| HashCache.RecordsFit | KSystemInformer/hash.c:32-55 | whichever hashes are written, the records stay within it |
| HashCache.Recognized | KSystemInformer/hash.c:1011-1040 | the reader assigns a written record to the algorithm it was written for, and to no other |
| HashCache.RoundTrip | KSystemInformer/hash.c:1001-1048 | reading the records written for any subset of the algorithms recovers exactly those hashes and leaves other entries alone |
| HashProgress.Bounds | KSystemInformer/hash.c:718-766 | the bounds computed case by case delimit exactly the bytes fed for the region, and are in order, as asserted |
| HashProgress.AllOneChunkOn | KSystemInformer/hash.c:1728-1757 | after each chunk, what every hash has absorbed and what is to come make up the whole |
| Hashing.HashingContext.UpdateFromRegion | KSystemInformer/hash.c:711-770 | one region adds its part of the chunk, cut out of the buffer |
| Hashing.HashingContext.UpdateHash | KSystemInformer/hash.c:678-774 | an Authenticode hash absorbs the parts of all regions before the first unused one, any other the whole chunk |
| Hashing.HashingContext.UpdateHashes | KSystemInformer/hash.c:790-831 | every hash in progress absorbs its part of the chunk, all others stay |
| Hashing.HashingContext.HashMappedFile | KSystemInformer/hash.c:1726-1757 | every hash in progress absorbs what the whole-file walk feeds |
| Hashing.HashingContext.HashRange | KSystemInformer/hash.c:1997-2029 | one region adds what the walk over its 32-bit length feeds |
| Hashing.HashingContext.HashMappedRegions | KSystemInformer/hash.c:1984-2030 | every hash in progress absorbs what the walk region by region feeds, and success means that the walk stayed in the mapping |
| Hashing.HashingContext.WriteRecord | KSystemInformer/hash.c:1556-1576 | the buffer holds the record, leading behind it, and everything before is unharmed |
| Hashing.HashingContext.AppendRecord | KSystemInformer/hash.c:1554-1578 | following the offset of the last record leads behind all of them, where the next one is laid |
| Hashing.HashingContext.FinishHashes | KSystemInformer/hash.c:1498-1601 | every hash in progress is finished; bytes are stored iff the file has a cache, it is still consistent and some hash was computed, and they are a chain of exactly the computed hashes within the bound |
| Hashing.HashingContext.LoadRecord | KSystemInformer/hash.c:1005-1040 | a record is taken over iff value size and name are those of an algorithm |
| Hashing.HashingContext.LoadHashes | KSystemInformer/hash.c:948-1053 | following the chain in the buffer loads each of its records |
| Hashing.HashingContext.InitializeHashes | KSystemInformer/hash.c:844-938 | success means that all requests are algorithms and each is known or begun, none twice; hashing is required iff one was begun |
| Hashing.HashingContext.VerifyRegions | KSystemInformer/hash.c:1438-1462 | the check succeeds whenever the first region is in use, whatever the bounds |
| Hashing.HashingContext.InitializeAuthenticode | KSystemInformer/hash.c:1338-1487 | the headers are read from the bytes of the mapping; an image is accepted iff its certificates lie in the mapping; then the regions are those of its headers, otherwise all are unused |
| Hashing.HashingContext.CopyHashes | KSystemInformer/hash.c:1611-1637 | each request gets the hash of its algorithm, all of them complete as asserted |
| Hashing.NewContext | KSystemInformer/hash.c:1300-1323 | cached hashes are known, the other requested ones begun |
| Hashing.OneAnswered | KSystemInformer/hash.c:1770-1772 | a request is answered from the cache if it was there, and with the digest of its input otherwise |
| Hashing.HashFile | KSystemInformer/hash.c:1654-1787 | unless providers or reading fail, it succeeds iff all requests are algorithms, and the file is mapped or all hashes are cached; then every request is answered from the cache or with the digest of what the walk feeds; hashes are stored iff one was computed and the cache may be written, and what is stored reads back as exactly the requested hashes that were not known |
| Hashing.InputMeaning | KSystemInformer/hash.c:1712-1757 | what is fed is the file, or for an accepted image the file without its three gaps iff the certificates come behind the headers and no part begins at a positive multiple of the buffer size; a file that is no image gets the Authenticode hash of nothing |
| Hashing.InformationInputMeaning | KSystemInformer/hash.c:1984-2030 | the Authenticode information is computed in the mapping, and of the file without its three gaps, iff the certificates come behind the headers and every part has less than 2^32 bytes |
| Hashing.InputsAgree | KSystemInformer/hash.c:1654-2093 | both functions compute their Authenticode hashes of the bytes of the image hash iff none of these cases occurs |
| Hashing.CachesComputed | KSystemInformer/hash.c:1520-1590 | a later context that reads what was stored knows the computed hashes and nothing else |
| Hashing.AnsweredFromCache | KSystemInformer/hash.c:1654-1787 | so asking again gives the same answers, whatever would be fed now |
| Hashing.GetAuthenticodeInformation | KSystemInformer/hash.c:1899-2093 | unless providers or reading fail, it succeeds iff the image is accepted, and both hashes are cached or the walk region by region stays in the mapping; then both are answered from the cache or with the digest of what this walk feeds, and the signature is the bytes of the certificates; an image of less than 2^32 bytes whose certificates do not come behind its headers is only answered from the cache |
| KernelApc.StepKeeps | KSystemInformer/ksidll.c:61-222 | every step of waiter, kernel, normal, rundown and removal paths keeps the carrier's count exact, never uses a freed carrier or a stale routine, keeps driver references and cleanups paired, and brings the run nearer to its end |
| KernelApc.Meaning | KSystemInformer/back_trace.c:399-527 | the carrier is alive while its routine runs, is freed at most once, cleaned up at most once, and results are copied only if the capture completed |
| KernelApc.WokenCopies | KSystemInformer/back_trace.c:485-520 | a waiter that was woken copies what was captured before it gives up its reference, and nobody else copies anything |
| KernelApc.QuietMeaning | KSystemInformer/ksidll.c:61-222 | when nobody has anything left to do, the carrier was freed once, an inserted APC was cleaned up once, and the driver reference is gone |
| KernelApc.Outcomes | KSystemInformer/ksidll.c:61-222 | when everything is over, an APC that was inserted was either delivered, run down or removed; a delivered one has captured and set the event, and its normal routine ran iff the kernel routine left one in kernel mode; a waiter that waits was either woken and has copied, or timed out and tried to remove the APC, which succeeds iff it is possible and not too late |
| KernelApc.OrdinaryRun | KSystemInformer/back_trace.c:475-520 | for either mode, with and without a timeout, the run in which the results are captured and copied |
| KernelApc.AtRest | KSystemInformer/back_trace.c:485-504 | an instance comes to rest iff it is quiet, or its waiter waits without timeout for an APC that is over and did not set the event |
| KernelApc.Fixed | KSystemInformer/ksidll.c:147-172 | the mode of an APC, and whether and how long its waiter waits, stay as they were chosen |
| KernelApc.CompleteRun | KSystemInformer/cid_tracking.c:807-897 | every complete run, with any mode, wait and timeout, and any failures, takes at most twenty steps; it strands the waiter iff that waits without timeout and the APC was run down, and otherwise everything is freed and cleaned up once |
| KernelApc.WaiterIsStranded | KSystemInformer/ksidll.c:61-76 | for either mode there is a complete run that strands a waiter without timeout: the APC is run down |
| KernelApc.AlwaysQuiet | KSystemInformer/back_trace.c:485-504 | for all modes and all ways of waiting: every complete run ends with nothing left to do iff the waiter does not wait or has a timeout |
| KernelApc.RunsAreSafe | KSystemInformer/ksidll.c:174-222 | over all interleavings of any number of instances, the driver is referenced once for every insertion under way and every APC not through with its cleanup |
| MessageQueue.StepKeeps | KSystemInformer/comms.c:1070-1112 | every step of senders, workers and shutdown leaves each message in exactly one place |
| MessageQueue.RunsKeep | KSystemInformer/comms.c:1330-1392 | so it is in every run, with any number of senders and workers |
| MessageQueue.FreedOnce | KSystemInformer/comms.c:134-175 | no message is freed twice, and after shutdown each one whose sender is through with it has been freed once |
| MessageQueue.SentOnce | KSystemInformer/comms.c:1370-1389 | a message that was put in the queue is sent exactly once before it is freed, by a worker or by the thread that stops, and no other message is sent |
| MessageQueue.MessageFate | KSystemInformer/comms.c:1070-1112 | in every run, a message that has been freed was sent exactly once iff its sender found the rundown open and its queue item was allocated |
| MessageQueue.NothingQueuedLater | KSystemInformer/comms.c:1603-1605 | once the rundown is complete no sender is about to insert, and the queue stays empty |
| MessageQueue.SomebodyWorks | KSystemInformer/comms.c:1603-1656 | until everything has stopped and all senders are through, a sender, a worker or the thread that stops can go on |
| MessageQueue.StoppingEnds | KSystemInformer/comms.c:1590-1656 | and whoever goes on leaves less to do, so everything stops after a bounded number of steps, with every message freed once |
| MessageQueue.DrainRing | KSystemInformer/comms.c:1621-1656 | the loop over the ring without head ends, sends and frees each item once and follows no link of a freed item |
| ReplyAuthority.SendMessage | KSystemInformer/comms.c:1134-1322 | the reply is that of the first eligible client whose reply stands, or unhandled if there is none; it is always the valid answer of an interested client of another process with maximum protection, and unhandled only if there is no such answer; and which clients are tried in which way |
| ReplyAuthority.OneClient | KSystemInformer/comms.c:1252-1317 | what the caller gets from a single client, by what that lacks |
| ReplyAuthority.LastHasAuthority | KSystemInformer/comms.c:1114-1116 | the client with authority is the last one, as documented, iff at most one client's reply stands |
| ReplyAuthority.DocumentedReply | KSystemInformer/comms.c:1114-1131 | the caller gets the documented reply iff it wants none, or the first and the last of the clients whose replies stand have the same |
| ReplyAuthority.NewcomerHasAuthority | KSystemInformer/comms.c:491-495 | a client that connects is documented to have authority from then on, and has it iff nobody's reply stood before |
| ReplyAuthority.FirstOfTwo | KSystemInformer/comms.c:1193-1206 | a list of two clients with different replies, for which the caller gets the first one's |
| ReplyAuthority.TriedOnce | KSystemInformer/comms.c:1161-1317 | a client is tried exactly once iff it is eligible and not passed over because its own copy cannot be allocated, and otherwise never; synchronously, or by a copy of the message |
| NameCache.StepKeeps | KSystemInformer/informer_filenc.c:257-401 | every step of lookup, creation, insertion, release, reaping and cleanup keeps counts exact, at most one entry for each file object, and names right |
| NameCache.RunsKeep | KSystemInformer/informer_filenc.c:257-401 | so it is in every run of any number of requests |
| NameCache.NeverAnOldName | KSystemInformer/informer_filenc.c:257-401 | a request never gets the name of an earlier file object at the same address |
| NameCache.RequestFate | KSystemInformer/informer_filenc.c:257-401 | a request that is through has held a name, or its entry could not be made, or it was that of a reaped file object: exactly one of these |
| NameCache.RequestsEnd | KSystemInformer/informer_filenc.c:257-401 | every step of a request brings it nearer to its end, after five at most |
| NameCache.InsertsOnce | KSystemInformer/informer_filenc.c:350-394 | a request that has made an entry leaves one listed, its own or that of a faster request, and goes on with that |
| NameCache.SharedEntry | KSystemInformer/informer_filenc.c:273-307 | from when an entry is listed until its file object is reaped, all new requests about it get this entry, and none makes another one |
| NameCache.ListedAreStanding | KSystemInformer/informer_filenc.c:350-379 | every listed entry is of a file object, open or closed, that has not been reaped, has its name, and is the only one of it |
| NameCache.NoNameSurvives | KSystemInformer/informer_filenc.c:782-822 | from reaping on no entry is found for the address of a file object, until another file object is there |
| NameCache.AllFreed | KSystemInformer/informer_filenc.c:869-890 | after cleanup and the last release no entry is left |
| FileOperations.Filter.FreeContext | KSystemInformer/informer_fileop.c:1580-1612 | exactly what the context owns is released, itself included |
| FileOperations.Filter.CreateContext | KSystemInformer/informer_fileop.c:1759-1887 | a context owns a message and the names that have to be resolved after the operation, all newly acquired; on any failure nothing is |
| FileOperations.Filter.PreOpSend | KSystemInformer/informer_fileop.c:1903-2036 | message and reply are gone on every path, and unless an allocation fails the operation is completed with the client's status iff it is a create for which a reply is asked and the client refuses |
| FileOperations.Filter.PostOp | KSystemInformer/informer_fileop.c:1626-1741 | the context and all it owns are gone on every path, at most one message is sent, which names the first callback, an opening is canceled with the client's status iff that refuses it, and every close is reaped once |
| FileOperations.Filter.PreOp | KSystemInformer/informer_fileop.c:2139-2312 | only what the completion context owns is left behind, a close always asks for the second callback, and without a failed allocation a message is sent iff it is wanted before the operation and a context is made iff one is wanted after it |
| FileOperations.Filter.Perform | KSystemInformer/informer_fileop.c:1626-2312 | over both callbacks, on all paths, everything acquired is released or handed over exactly once, a close is reaped exactly once, and the messages are the wanted ones, before and after the operation, with matching sequence numbers: no others ever, and none is missing unless an allocation failed, the operation was completed first, or the filter drains; and unless an allocation failed the operation fails with the client's status iff a client that is asked refuses it, before or after |
| ObjectName.PathSplits | KSystemInformer/object.c:807-823 | the names copied so far are always the end of the path |
| ObjectName.MeasureNames | KSystemInformer/object.c:772-786 | the first walk adds up exactly the names that the path is made of |
| ObjectName.RelatedName | KSystemInformer/object.c:772-823 | the name of a file that was opened in a directory: device, directory, file |
| ObjectName.NameBuffer.CopyNames | KSystemInformer/object.c:800-823 | the second walk stops at the same file object, and fills exactly its span with the path, farthest name first |
| ObjectName.NameDevice | KSystemInformer/object.c:709-748 | the device name is in front, and its length with terminator is counted even if it does not fit |
| ObjectName.LongName | KSystemInformer/object.c:825 | a file object with a name of 65538 bytes, of which two are reported |
| ObjectName.NoOverrunIff | KSystemInformer/object.c:719-805 | names are never written behind the buffer, whatever its size, iff a failing device query does not report less than the header or there are no names |
| ObjectName.ExtractName | KSystemInformer/object.c:657-830 | success iff the reported length fits (or the device query fails for a file without name), and then the buffer holds the device name followed by the path, and reports its length iff that is below 64 KiB |
| RegistryNames.Measure | KSystemInformer/informer_registry.c:1032-1063 | the first pass computes the length of the field, and gives up only if it cannot fit |
| RegistryNames.Copy | KSystemInformer/informer_registry.c:1096-1160 | the second pass succeeds iff the field fits the buffer, and leaves exactly the field |
| RegistryNames.CopyMultipleValueNames | KSystemInformer/informer_registry.c:1008-1179 | there is a field iff there are names, memory, at most 65534 bytes to copy, and not more of them in the second pass than in the first; it is the field of the names that the second pass read |
| RegistryNames.RoundTrip | KSystemInformer/informer_registry.c:1096-1160 | splitting the field at the NULs gives back all names, and the characters of "(Default)" for empty ones, if they contain no NUL, and nothing comes behind them |

## Left out

- Weak memory: steps are sequentially consistent; the code puts barriers around the words it reads without a lock.
- IRQL, paging, tracing and access checks.
- The total and high-water counters of object types, and the lookaside lists that objects come from.
- Linked lists are sequences: the pointers of list entries are not modelled, except for the ring that is drained at shutdown.
- Tracking keeps its cells in a map instead of the table's memory, whose refinement to a map is proved separately; lookups that allocate are lookups that may find no cell.
- References to process, thread and file objects of the system, session tokens, protection and image names in contexts.
- The APCs that tracking queues for new threads hold a context through a carrier; they are modelled by themselves, with the carrier only.
- CidTable.Table.GetEntry: an id over the limit also violates an assertion of the source, which is not modelled as a failure.
- CidTable.Table.Enumerate: the table does not change while it runs; what a concurrent enumeration visits is stated for each id by `CidTable.ConcurrentVisit`.
- Hashing.HashFile: if an Authenticode hash of an accepted image has to be computed, it requires that the assertion at KSystemInformer/hash.c:761 holds, in the form of its exact condition (`ImageRegions.AssertionHolds`), as without it the code hashes memory behind its buffer; the addition of addresses does not wrap around; oplocks are a flag that says whether the cache may still be written.
- ImageRegions.FileWalk: does not decide whether the fed bytes agree by chance if the certificates begin in the headers, at a multiple of the buffer size, and the mapping ends with the security directory entry.
- ImageRegions.InformationWalk: does not decide whether they do if the certificates begin in the headers of a mapping of more than 2^32 bytes, with a part of that size.
- Hashing.HashingContext.InitializeAuthenticode: the address of the optional header is a parameter, as RtlImageNtHeaderEx, which finds it, is not part of this model; the fields that are read have to be in the mapping.
- Hashing.GetAuthenticodeInformation: reading out of the mapping raises an exception; the failure to allocate or copy the signature, and an in-page error while headers are read, only add exits without a result.
- Hashing.HashingContext.LoadHashes: relies on the file system to return a well-formed chain of records.
- HashRegions.RegionByRegionWalk: for at most four regions, the size of the array, and buffers of up to 2^28 bytes.
- KernelApc.Meaning: the number of frames that fit the allocation is not claimed, as KSystemInformer/back_trace.c:437 adds a number of frames to a number of bytes.
- MessageQueue.RunsKeep: the order in which messages are sent is not modelled; the code inserts at the head of the queue.
- ReplyAuthority.SendMessage: what a client would answer is part of the client, and clients do not connect or disconnect during the call.
- NameCache.NeverAnOldName: the name of a file object is what it is when the request is made; a request is part of an operation on an open file object, which the file system does not close before the operation is over.
- FileOperations.Filter.Perform: references taken and dropped inside of the resolution of tunneled names, and the contents of messages, are left out.
- ObjectName.ExtractName: requires the lengths to be below 2^32, and that no name is written behind the buffer, in the form of the exact condition (`ObjectName.NoOverrunIff`).
- RegistryNames.CopyMultipleValueNames: exceptions while names are read add exits without a field; names have whole characters.
- The object name builder of the registry informer (KSystemInformer/informer_registry.c:639-740), which repeats the two-pass pattern.
- The HTTP client, downloads, other informers, handlers and parameters: wrappers, dispatch tables and field filling.
