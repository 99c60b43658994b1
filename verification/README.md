# Power-cut safety of UBI and UBIFS

UBI gives volumes of logical eraseblocks (LEBs) on raw flash; UBIFS is a file system on top of such a
volume. This project models what the two do to flash and to their own books, one flash operation or one
critical section at a time, and proves what holds whenever the power is cut and whatever the threads do
meanwhile. `dafny verify dfyconfig.toml` checks all of it.

**LEBs on flash** (`modules/ubi/eba.c`, `scan.c`). A physical eraseblock (PEB) is an erase-counter header,
a VID header and data; a checksum is modelled by the bytes it covers, so torn data never matches (`Flash`).
`LebLayer`, `LebSteps` and `LebInvariant` are a machine over all LEBs at once: headers and data are written,
fail and are tried again, PEBs are erased, LEBs are moved, the power is cut and everything is rebuilt.
`LebRefinement` proves that it behaves like a map from LEBs to bytes. `LebLimits` holds the sharper results
and the places where the code does less than that; `LebWear` counts erasures. `Eba` is the code with its retry
loops; each of its methods is shown to be a run of that machine. `RecoverPeb` is what follows a failed write inside
a LEB. `Scan` is the attaching code, with `LebAttach` to tie it to the machine.

**Wear-leveling** (`wl.c`). `WlTree`, `WlState` and `WearLeveling` are the trees, queue and lists with their
critical sections, `WlRuns` runs of the two workers beside users while PEBs go bad and memory runs out, `WlFlush`
waiting until what is pending has been done, `MoveProtocol` all interleavings of unmapping, writing, putting,
scrubbing and moving, and `Locking` the locks.

**Volumes** (`vtbl.c`, `vmt.c`, `cdev.c`, `upd.c`). `VolTable`, `Volumes`, `Renaming` and `VolumeRuns` are the
volume table and the accounting of PEBs. `LayoutVolume` is the pair of copies on flash, `Update` the streaming
of new data, `UpdateMarker` the order of marker, unmapping and writing; `LebCuts` shows that what `LayoutVolume` and
`UpdateMarker` take for granted about one LEB follows from `LebLayer`.

**UBIFS** (`modules/ubifs`). `WriteBuffer` is a journal head, `GcMove`, `GcOrder` and `GcIndex` the garbage
collector, `Budget`, `PageBudget` and `PageMedia` the promises of space, `Directory` sizes and link counts.

`Arith`, `Misc`, `Wrappers` and `UbifsMedia` are shared.

Results of the environment are parameters: which write or erase fails and what it leaves, which PEB is free,
whether memory or a lock is to be had, what the rest of the file system did meanwhile.

## Model

| member | source | states |
|---|---|---|
| Flash.KeptBeatsTheOthers | modules/ubi/scan.c:508-557 | reading the PEBs in any order, the copy of a LEB that is kept beats every other copy read (newer, unless its checksum fails); none is kept only if there is none. Only the choice of the copy: the erase list, the highest number and header mismatches are in Scan |
| Misc.DataLenIsLeast | modules/ubi/misc.c:35-49 | no shorter aligned prefix has only 0xFF behind it: together with the contract of DataLen, the length that is computed is the least one |
| Misc.CalcDataLen | modules/ubi/misc.c:35-49 | the backward loop computes DataLen |
| Misc.CheckPattern | modules/ubi/misc.c:116-124 | the result is true exactly when every byte equals the pattern |
| LebInvariant.StepKeepsInv | modules/ubi/eba.c:595-1166 | every flash operation, failed write, retry, cancelled move, erasure, power cut and attach keeps: the mapped PEB beats every copy waiting for erasure (but recorded rivals), targets have the highest number, numbers of a LEB differ |
| LebInvariant.AttachGivesInv | modules/ubi/eba.c:1217-1303 | attaching to any flash with unambiguous, fitting headers, not only to one left by a cut, gives a state in which the invariant holds; in particular the next number exceeds all on flash |
| LebRefinement.StepRefines | modules/ubi/eba.c:595-1166 | each flash operation is a step of a simple map from LEBs to bytes: begin, finish, fail or tear a write, forget, or nothing at all |
| LebRefinement.RunRefines | modules/ubi/kapi.c:593-601 | every run with any number of power cuts and re-attachments is a run of that map, in which a cut forgets no mapped LEB, keeps idle and moved LEBs as they are, leaves a LEB being changed old or new, and damages only the range being written of another; a LEB with copies that outrank it may show one of the contents the map has recorded for them when they were left, or, if one has no checksum, anything |
| LebLimits.ChangeIsAtomicInEveryRun | modules/ubi/eba.c:841-942 | wherever any run is cut, a mapped LEB touched only by atomic changes holds exactly what it held or the bytes of one of the changes |
| LebLimits.ChangeRunIsAtomic | modules/ubi/eba.c:899-942 | within one change, after any number of failed and retried writes and even if it is given up, a cut finds the old or the new contents |
| LebLimits.IdleIsExactIff | modules/ubi/eba.c:1092-1155 | an idle mapped LEB is found byte for byte after every cut if and only if no copy waiting for erasure outranks it |
| LebLimits.ContentsAreExactIff | modules/ubi/scan.c:508-589 | an idle mapped LEB shows its contents after every cut if and only if each copy that outranks it has the same contents and a checksum (finding 1) |
| LebCuts.LayerCutIsLebCut | modules/ubi/scan.c:508-589 | whatever a cut leaves of a LEB in the LEB layer is among what LayoutVolume and UpdateMarker allow for |
| Eba.Device.UnmapLeb | modules/ubi/eba.c:324-349 | exactly the entry goes, and its PEB awaits erasure; nothing on a read-only device |
| Eba.Device.AtomicLebChange | modules/ubi/eba.c:841-942 | the code is a run of the LEB layer, leaves the LEB with exactly the new bytes and header on success and, unless their length is zero, the table alone on failure, is old-or-new at every cut if the LEB was mapped, and touches no other LEB; another attempt is made exactly after an I/O error on a device that tolerates bad PEBs, three times at most, any other failure makes the device read-only, and it is out of space only if no PEB is free |
| Eba.Device.WriteLeb | modules/ubi/eba.c:595-701 | as a run of the LEB layer: the bytes are added at their offset, a cut damages nothing but that range, and no other LEB is touched; an unmapped LEB is written with the same rule for another attempt, a failed write inside a mapped one makes the device read-only |
| Eba.Device.WriteLebSt | modules/ubi/eba.c:726-821 | a static LEB reads back exactly the data without its padding, with its size and checksum in the header; the table is untouched on failure; the same rule for another attempt |
| Eba.Device.CopyLeb | modules/ubi/eba.c:985-1166 | a move is a run of the LEB layer that shows the same contents throughout; it is refused exactly when the lock is contended or the LEB no longer is in that PEB, and else ends as reading, writing and reading back say; the target is given back when it fails |
| RecoverPeb.RecoverIsSafeIff | modules/ubi/eba.c:518-552 | while a LEB is saved after a failed write inside it, every cut finds what was there before that offset if and only if nothing was, or all of it is covered by the checksum of an earlier copy (finding 17) |
| RecoverPeb.RescuedIsFound | modules/ubi/eba.c:539-552 | once the copy is complete it is found, whatever becomes of the other copies |
| RecoverPeb.Device.RecoverPeb | modules/ubi/eba.c:498-578 | on success the LEB is in another PEB with what was there before the offset, the bytes that could not be written and 0xFF, under the highest number; else it stays where it is, untouched; every failed write is answered by another attempt, three times at most; each PEB stays free, is put, or has the LEB |
| LebWear.ErasuresAreCounted | modules/ubi/wl.c:510-560 | over any run in which failures and cuts leave the counter of a PEB readable, it grows by exactly the number of erasures of that PEB |
| Scan.CompareLebs | modules/ubi/scan.c:317-429 | the verdict is Beats of the two copies, whichever comes first, with the corrupted flag for the newer one |
| Scan.ScanInfo.AddUsed | modules/ubi/scan.c:447-590 | one more copy: the trees, erase list, highest number, highest LEB and last size again describe exactly the copies read so far, and it is refused exactly if a number repeats or headers clash; of two copies the one not kept is put on the erase list, at its head exactly if it is the newer |
| Scan.ScanAll | modules/ubi/scan.c:1150-1243 | the scan ends with exactly that description of the whole flash, and succeeds if and only if no copy was refused and none or few PEBs are corrupted: at least 20 times one more than them, or less than eight of a flash with less than 20 |
| Scan.KeptIs | modules/ubi/scan.c:508-557 | the copy kept is the newest of those that can be trusted, or the oldest of all if none can |
| Scan.OrderDoesNotMatter | modules/ubi/scan.c:1150-1243 | which copy is kept and which list every PEB ends up on does not depend on the order of reading |
| Scan.AcceptedInEveryOrderIff | modules/ubi/scan.c:186-236 | attaching succeeds in every order if and only if numbers differ per LEB, the headers of each volume agree and no erase counter overflows |
| LebAttach.CutIsAccepted | modules/ubi/scan.c:838-1067 | whatever a power cut leaves is accepted in every order |
| LebAttach.ScanIsAttach | modules/ubi/eba.c:1217-1303 | the table, the next number and the fate of every PEB made from the scan's result are those of the LEB layer's attach |
| LebAttach.InitScan | modules/ubi/eba.c:1217-1264 | the loops fill every volume's table with exactly the LEBs found |
| WlTree.FindWlEntry | modules/ubi/wl.c:355-377 | the search returns the largest entry below the lowest erase counter plus the bound |
| WlTree.PickIsNotTooWorn | modules/ubi/wl.c:410-456 | no PEB handed out is worn WL_FREE_MAX_DIFF more than the least worn one (for data of unknown type, if the lowest counter is low) |
| WlTree.PickSuits | modules/ubi/wl.c:410-456 | long-term data gets the most worn PEB within the bound, short-term data the least worn of all, data of unknown type the most worn one up to half-way |
| WlState.ProtectedForLong | modules/ubi/wl.c:327-345 | a PEB that was handed out stays protected until exactly PROT_QUEUE_LEN others have been erased, and is an ordinary one then |
| WearLeveling.WearLeveling.GetPeb | modules/ubi/wl.c:389-475 | an entry picked by the rule for its data type goes from the free tree to the newest slot of the protection queue; nothing else changes; it fails only without free PEBs |
| WearLeveling.WearLeveling.PutPeb | modules/ubi/wl.c:1134-1208 | an entry in use leaves the one structure it is in, or marks the target of the move, or waits for the move; every other entry stays where it is |
| WearLeveling.WearLeveling.ScrubPeb | modules/ubi/wl.c:1220-1271 | an entry in use goes to the scrub tree unless it is there, erroneous or being moved; it is tried again exactly for the target |
| WearLeveling.WearLeveling.BeginMove | modules/ubi/wl.c:680-730 | a move begins exactly if a PEB is free and one has to be scrubbed or wear differs by WL_THRESHOLD; its source is the least worn PEB to scrub, or if there is none the least worn one in use, its target the most worn free one below the bound; both become the current move, and all trees still hold exactly the rest |
| WearLeveling.WearLeveling.EndNotMoved | modules/ubi/wl.c:879-911 | the source goes to exactly one of four places, the target is taken out, and the erroneous count stays right and bounded |
| WearLeveling.WearLeveling.ServeProtQueue | modules/ubi/wl.c:570-604 | exactly the PEBs of the oldest slot become used ones, and the slot becomes the newest |
| WearLeveling.WearLeveling.EnsureWearLeveling | modules/ubi/wl.c:948-1003 | a move is queued exactly if none is scheduled and there is a PEB to scrub, or the free PEB a move would take is worn WL_THRESHOLD more than the least worn one in use |
| WearLeveling.WearLeveling.InitScan | modules/ubi/wl.c:1429-1507 | every PEB found is in exactly the place the scan says, with its counter, no erasure tortures, and a move is scheduled and queued exactly if it is needed |
| WlRuns.EveryPebIsSomewhere | modules/ubi/wl.c:667-1121 | over any run of users, do_work, the erase worker and the wear-leveling worker, with bad PEBs and failing allocations: unless the device is read-only, every PEB is bad or in exactly one place, each waiting erasure has exactly one work, each PEB in transit has exactly one holder |
| WlRuns.GoesOnIff | modules/ubi/wl.c:679-681 | some run reaches the start of another move if and only if the worker is not stuck after lacking memory for its VID header (finding 5) and there is any PEB at all: the proof has one scrubbed, so wear need not differ |
| WlRuns.StuckForever | modules/ubi/wl.c:954-956 | once it has lacked that memory, no run frees it (finding 5) |
| WlRuns.Device.DoWork | modules/ubi/wl.c:218-256 | taking the first work, and beginning the move BeginMove says if it is one and one is needed, is a run of that machine |
| WlRuns.Device.EraseEnds | modules/ubi/wl.c:1032-1121 | however an erasure ends, the whole new state is stated: the PEB is free with its new counter, the oldest protected ones are released and a move is queued exactly if needed; or it is queued again; bad and forgotten; or lost with the device read-only; as a run of that machine |
| WlRuns.Device.MoveEnds | modules/ubi/wl.c:744-930 | for each outcome of the copying, with memory for either erasure or not, the whole new state: the source is the newest protected PEB (no header, race), to be scrubbed (bit-flips), where it came from (bad target), erroneous and counted (unreadable, up to the limit) or to be erased (copied); the target is in use, or queued for an erasure that tortures exactly a bad one; else both are lost and the device is read-only; as a run of that machine |
| WlFlush.FlushIsCompleteIff | modules/ubi/wl.c:1280-1314 | once the flush has waited for everybody, then, however it, the background thread and users go on, everything given up before it began is erased when it returns if and only if none of that was still queued; so in particular if no work was (finding 13) |
| WlFlush.FlushIsComplete | modules/ubi/wl.c:1280-1314 | a flush that returns 0 has erased everything given up before, whoever does the works and whatever is moved, cancelled, put or given up meanwhile, if at its beginning no failed erasure was just being queued again and the target of the move was not put, and none of these erasures fails (finding 13) |
| WlFlush.RunKeepsFit | modules/ubi/wl.c:1280-1314 | in every run what was given up stays on its way to its erasure, through moves, failures and queues, until it is erased, unless the device becomes read-only |
| WlFlush.ErasureIsOvertaken | modules/ubi/wl.c:1306-1311 | an erasure fails while the flush waits and is queued again; another thread takes it, and the flush returns while it is under way (finding 13) |
| MoveProtocol.ErasedExactlyOnce | modules/ubi/wl.c:1143-1206 | in every interleaving a PEB is scheduled for erasure exactly as often as it was given up, or once less while exactly somebody is about to |
| MoveProtocol.CancelledTargetIsNotPut | modules/ubi/wl.c:905-908 | no interleaving sets move_to_put on a move that is cancelled, and a target is put only after the LEB was moved to it, once |
| MoveProtocol.MappedIsInUse | modules/ubi/eba.c:324-349 | no PEB an unlocked LEB is mapped to is free or on its way to erasure, no two LEBs share one, and what is put is always found |
| MoveProtocol.ScrubMarks | modules/ubi/wl.c:1220-1271 | scrubbing asked for while reading is noted at once, except for the target of a move: the PEB is to be scrubbed, erroneous or being moved then, and no other changes its place |
| Locking.NoCyclicWait | modules/ubi/eba.c:1020-1050 | among any sleeping threads, at any of the places where a lock is waited for, one waits for none of the others |
| Locking.SitesAreOfTheProtocol | modules/ubi/wl.c:1143-1160 | the locks the table of places gives a waiting or copying thread are those its program counter in MoveProtocol holds |
| Locking.NoDeadlock | modules/ubi/wl.c:667-938 | in every reachable state of MoveProtocol the worker can go on, or if it rests, every thread that has begun something can |
| VolTable.CheckTable | modules/ubi/vtbl.c:177-293 | the nested loops accept exactly the sound tables, and report a wrong checksum only if everything before is in order |
| Volumes.Device.CreateVolume | modules/ubi/vmt.c:204-395 | which error is returned, in the order of the checks; on success the requested number or else the lowest free one, the least number of PEBs that holds the bytes, all fields as requested and exactly that many PEBs less available; it is out of space exactly if the bytes exceed what the available PEBs hold; PEBs stay conserved and names distinct, also on a device whose table in memory is not right; every failure restores all counts and volumes; only a failed write changes the table in memory |
| Volumes.Device.RemoveVolume | modules/ubi/vmt.c:407-475 | which error is returned; the PEBs of the volume first fill up the reserve to its level and then become available; a failure leaves volumes and counts alone, and the table too if and only if it came before the table was touched (a failing unmap comes after) |
| Volumes.Device.ResizeVolume | modules/ubi/vmt.c:486-604 | both directions: which error is returned in the order of the checks, what exactly becomes of available, reserved and reserve counts; a failure, of the write or of unmapping what a smaller volume loses, leaves all but the table in memory |
| Volumes.Device.PebWentBad | modules/ubi/wl.c:1076-1121 | a bad PEB is paid for by the reserve, which is first replenished to one more than its level as far as PEBs are available, or the device becomes read-only; all counts are stated, the level follows the good PEBs, and conservation holds with the bad ones counted |
| Volumes.Device.Attach | modules/ubi/vtbl.c:805-881 | attaching succeeds exactly if all that is reserved fits, and then every PEB is accounted for, the reserve is as full as it can be, and static volumes have the sizes that were found |
| Volumes.VerifyMkvolReq | modules/ubi/cdev.c:601-646 | exactly the requests that volumes can be created from pass; a name that is too long is reported as such only if all else is in order |
| Volumes.ReserveLevelIs | modules/ubi/misc.c:98-104 | the level of the reserve is five PEBs for each full hundred of good ones, and two at least |
| Volumes.ResizedRecordOkIff | modules/ubi/vmt.c:549-552 | going on after a failed write: the record a resizing writes passes the check if and only if the one in memory was not emptied by a failed removal (finding 14) |
| Volumes.AddedRecordOkIff | modules/ubi/vmt.c:340-352 | the same for a new record: if and only if no record in memory, such as that of a failed creation, has its name (finding 14) |
| Volumes.MarkedRecordOkIff | modules/ubi/upd.c:66-72 | the same for setting the update marker: if and only if the record was not emptied (finding 14) |
| Volumes.ResizeAfterFailedRemoval | modules/ubi/vmt.c:549-552 | a volume that could not be removed and is resized then: the table written has a record without a name (finding 14) |
| Renaming.RenamedRecordsOkIff | modules/ubi/vtbl.c:133-148 | going on after a failed write: the table a renaming writes passes the check if and only if no record that gets a name was emptied, and no record left alone has such a name (finding 14) |
| VolumeRuns.Execute | modules/ubi/vmt.c:204-643 | any operation, on a device that may go on after failed writes, does exactly what it is for or fails without changing volumes, and keeps volumes and accounting in order; if the table in memory was right, then, whatever fails, the table before and the one in memory can both be attached, and the latter is right unless a failed operation has changed it |
| VolumeRuns.Run | modules/ubi/vtbl.c:560-686 | any sequence of creations, removals, resizings, renamings, marker changes, bad PEBs, failures and cuts, going on with the table in memory, a cut finding any table that may be on flash: each operation that can be done is done, volumes and accounting are always in order, the table is right unless an operation has failed since the last attaching, and attaching is refused only after a further operation on such a device (finding 14) |
| VolumeRuns.RoomIff | modules/ubi/vtbl.c:675-683 | a table in memory that is not right still finds room when attached if and only if what it reserves too much is available or in the reserve (finding 14) |
| VolumeRuns.RenameIsAllOrNothing | modules/ubi/vtbl.c:124-167 | a cut in the middle of a rename finds the table before or after it, never a mixture, fitting the volumes with all their old or all their new names; or, if changes had just failed, a table one of those has left |
| Renaming.RenameVolumes | modules/ubi/cdev.c:677-826 | volumes and table become exactly what the request means (swaps, cycles, overwritten names removed); which error is returned, in the order of the checks; a failure changes nothing if and only if it came before the table was touched; a failed write or removal after that leaves the new table, some overwritten volumes removed and nothing renamed |
| Renaming.ListRemovals | modules/ubi/cdev.c:749-800 | the list is complete: each volume whose name is taken and that is not renamed itself is removed, and nothing else is |
| Renaming.TableAfter | modules/ubi/vtbl.c:124-167 | the renamed table fits the renamed volumes with distinct names, and passes vtbl_check if and only if no new name is empty |
| Renaming.BusyVolumeStopsRename | modules/ubi/vmt.c:615-640 | volume 1 takes over the name of volume 2, which is being looked at: both volumes stay as they were, and the table on flash has neither (finding 9) |
| LayoutVolume.Volume.ProcessLvol | modules/ubi/vtbl.c:401-514 | it returns the first whole copy and leaves both copies equal to it, passing only through the states of the machine; attaching fails exactly if there is none, or the other copy cannot be written |
| LayoutVolume.Volume.ChangeTable | modules/ubi/vtbl.c:102-113 | changing the table passes through exactly the six states of the machine, or those before the step that fails, and a copy that could not be written is left unmapped |
| LayoutVolume.TablesNeverGoBack | modules/ubi/vtbl.c:85-167 | over any number of changes without a flush, failures, retries, erasures in queue order, cuts, and cuts while recovering, the table that holds never gets older, as long as the second copy has it when a change begins (finding 15) |
| LayoutVolume.CutInRunReturns | modules/ubi/vtbl.c:401-514 | a cut at any moment of such a run returns the table that held, the one being written, or one whose change has failed since; it holds from then on, in both copies once attached |
| Update.Volume.MoreUpdateData | modules/ubi/upd.c:282-381 | however the data is cut into calls, what is stored is a function of all bytes taken, and the update finishes exactly with the last byte; if a LEB cannot be written, exactly the data before it is taken |
| Update.Volume.Read | modules/ubi/cdev.c:201-272 | reading in chunks of any size gives the bytes of the volume at that offset, cut at its end |
| Update.ReadsBack | modules/ubi/upd.c:234-267 | reading a complete update gives the data, followed by 0xFF in a dynamic volume |
| Update.StaticSizeIsFound | modules/ubi/vtbl.c:633-648 | the size attaching computes for a static volume is the size written |
| UpdateMarker.UpdateIsSafe | modules/ubi/upd.c:129-170 | over any number of updates, failures, other table changes, cuts and new attempts, a cut finds the marker, or the whole previous volume, or exactly the image of the new data, as long as no update starts with a marker that is set in memory but not on flash (finding 16) |
| UpdateMarker.CompleteIsFound | modules/ubi/upd.c:366-378 | once the marker is cleared, every cut finds the new volume without marker, and any update may follow |
| UpdateMarker.StoredIsImage | modules/ubi/upd.c:366-378 | what the streaming code stores is that image |
| WriteBuffer.Wbuf.WriteNode | modules/ubifs/io.c:567-735 | flash and buffer together are a log: exactly the node is appended, flash only grows in whole units at its end, and it fails exactly without room |
| WriteBuffer.Wbuf.Sync | modules/ubifs/io.c:377-445 | the log is on flash, padded to the next unit and no further |
| WriteBuffer.Wbuf.ReadNode | modules/ubifs/io.c:795-861 | a read is that part of the log, from buffer, flash or both |
| WriteBuffer.StaysReadable | modules/ubifs/io.c:808-834 | a node is found where it was appended whatever follows |
| GcMove.Gc.SortNodes | modules/ubifs/gc.c:247-308 | exactly the live nodes are listed, data and others apart and in order, taking at most a LEB |
| GcMove.Gc.MoveNodes | modules/ubifs/gc.c:349-431 | what the file system reads does not change, no live node stays behind, each is written once, and the head is switched at most once, so one reserved LEB is enough |
| GcMove.Gc.MoveNondata | modules/ubifs/gc.c:349-431 | nodes are moved in their order; those passed over are inodes with data that do not fit, and it stops exactly when nothing is left, nothing would fit any more, or an entry or a plain inode does not |
| GcMove.Gc.CollectLeb | modules/ubifs/gc.c:469-610 | after a successful collection a LEB is reserved again: the collected one exactly if there was none or it became the head, else that stays reserved; unless it is kept so, the collected LEB is unmapped; the head moves on by exactly what was live |
| GcOrder.NothingIsLost | modules/ubifs/gc.c:446-458 | over any run of writing, deleting, buffering, moving, syncing, unmapping and committing, with any number of power cuts and mounts, clean or not: what was on flash once is found at every later cut, or a newer version |
| GcOrder.CutFindsNewest | modules/ubifs/gc.c:565-597 | recovery finds the newest version of a node that reached flash, whatever LEBs have been unmapped |
| GcOrder.RemountedIsMounted | modules/ubifs/replay.c:220-276 | what recovery builds after a cut from the last committed index and the journal is again a state in which all of this holds, with exactly the nodes that had reached flash |
| GcOrder.CutIsAlwaysPossible | modules/ubifs/replay.c:220-276 | whenever the invariant holds there is a state recovery can build, so each run can go on after a cut at any moment |
| GcOrder.UnmapsWhenSafe | modules/ubifs/gc.c:808-814 | a LEB is unmapped only when nothing refers to it and no buffer holds what made its nodes obsolete |
| GcIndex.Index.Run | modules/ubifs/gc.c:840-985 | over any sequence of collections and commits, each event having exactly its effect, an index LEB is unmapped only at the end of a commit begun after its collection, and never while the index on flash needs it |
| Budget.CalcMinIdxLebs | modules/ubifs/budget.c:178-200 | the least number of LEBs, two at least, that covers three times the index besides the head |
| Budget.AvailableFalls | modules/ubifs/budget.c:209-262 | reserving more for the index never makes more available |
| Budget.FeasibleIff | modules/ubifs/budget.c:209-262 | in bytes and LEBs: what is promised, used, dead, dark and set aside for index, collector, journal heads and deletions fits into the main area, and the index finds the LEBs it may still need |
| Budget.GrowthOfOne | modules/ubifs/budget.c:375-423 | what each new or dirtied thing asks for on its own |
| Budget.GrowthAdds | modules/ubifs/budget.c:375-423 | a request made of two others asks for what both ask for |
| Budget.Budgeting.DoBudgetSpace | modules/ubifs/budget.c:306-365 | granted exactly if everything promised is feasible and reserved-pool space is not touched by others |
| Budget.Budgeting.BudgetSpace | modules/ubifs/budget.c:439-516 | which attempt grants the request, and how it ends if none does: it is granted at the first one for which there is room and no lack of space was noted, then feasible and held exactly; it is tried again exactly as long as making space says so, or once more after it found none; refused means nothing is held, and the lack is noted after the second time |
| Budget.Budgeting.ReleaseBudget | modules/ubifs/budget.c:529-574 | giving back keeps the minimum exact and everything promised feasible |
| Budget.Budgeting.ConvertPageBudget | modules/ubifs/budget.c:585-597 | the same for turning a new page's budget into an existing one's |
| PageBudget.StepKeepsInvIff | modules/ubifs/file.c:220-597 | a step of any writer, of mmap, write-back or invalidation keeps the books right if and only if it is not one of findings 11 and 12 |
| PageBudget.RunKeepsInv | modules/ubifs/file.c:220-597 | so in every run of many threads without those steps, each counter equals what dirty pages, dirty inodes and requests under way hold |
| PageBudget.WhatIsHeldIsThere | modules/ubifs/file.c:199-218 | so what a page holds can always be given back and no counter becomes negative |
| PageMedia.DirtyPagesAreBudgeted | modules/ubifs/file.c:220-312 | in every such run a dirty page without data node holds a new page's budget, index node included, until it is written back, and every other dirty page at least what overwriting costs |
| PageMedia.FastCharges | modules/ubifs/file.c:327-389 | what the fast path charges: nothing for a dirty page, a new page if there is no data node or the page is overwritten unread, else an existing page; and the inode if it becomes dirty |
| PageMedia.NoLockIsLeft | modules/ubifs/file.c:220-597 | in every such run, whenever no thread is between looking a page up and being done with it, no page and no inode is locked |
| Directory.Fs.Create | modules/ubifs/dir.c:254-306 | success adds exactly the entry; failure restores every size and count; the books agree with the entries |
| Directory.Fs.Mkdir | modules/ubifs/dir.c:713-767 | the same for a directory, with the parent's link |
| Directory.Fs.Link | modules/ubifs/dir.c:503-557 | the same for another name of a file |
| Directory.Fs.Unlink | modules/ubifs/dir.c:559-619 | exactly that entry goes; it goes on without budget only when there is no space |
| Directory.Fs.Rmdir | modules/ubifs/dir.c:650-711 | only an empty directory goes, and its parent loses a link; failure restores all three |
| Directory.Fs.Rename | modules/ubifs/dir.c:961-1126 | within or across parents, over a file or an empty directory: exactly that entry moves, or everything is undone; if only writing the synchronous inode at the end fails, the entry has moved |
| Directory.Fs.Run | modules/ubifs/debug.c:1128-1181 | over any operations and faults, entries change exactly as the operations ask, and directory sizes, directory link counts and file link counts are what the entries make them |
| LebLimits.CancelIsExactIff | modules/ubi/eba.c:1099-1155 | after a move is given up at any stage, every cut finds the LEB exactly in its old PEB if and only if the target was left without a copy that can be trusted (finding 1) |
| LebLimits.StaleContentsReturn | modules/ubi/eba.c:1099-1155 | a move is given up after its target was written, bytes are then written inside the LEB: some cut shows the LEB without them (finding 1) |
| LebLimits.ChangeIsAtomicIffMapped | modules/ubi/scan.c:561-589 | at every moment and cut of an atomic change the LEB is old or new, if and only if it is mapped (finding 2) |
| LebLimits.TornChangeIsKept | modules/ubi/scan.c:561-589 | for every unmapped LEB without copies there is a cut after which it is neither old nor new (finding 2) |
| LebLimits.ZeroLengthChangeIsAtomicIff | modules/ubi/eba.c:851-860 | once unmapped by a change to length zero, every cut, erasures being finished in any order or interrupted, finds old contents or none if and only if no copy shows any byte (finding 3) |
| LebLimits.UninterruptedZeroLengthIff | modules/ubi/eba.c:851-860 | the same for cuts that interrupt no erasure: if and only if every copy has the same contents (finding 3) |
| LebLimits.DamagedCopyReturns | modules/ubi/scan.c:561-589 | any copy that shows a byte can be found damaged by its erasure, alone and thus not looked at (finding 3) |
| LebLimits.OlderCopyReturns | modules/ubi/eba.c:851-860 | any copy of the LEB can be the one that is found, with all others erased first (finding 3) |
| LebLimits.MoveKeepsIffBlankBeyond | modules/ubi/wl.c:694-727 | the copy shows what the source shows if and only if the target reads 0xFF behind the copied bytes or the volume is static (finding 4) |
| WlTree.UnknownBoundIff | modules/ubi/wl.c:423-446 | for data of unknown type the bound holds of every free tree with a given lowest counter if and only if that is at most WL_FREE_MAX_DIFF + 1 (finding 6) |
| LayoutVolume.AnyOrderIsSafeIff | modules/ubi/wl.c:1053-1065 | with erasures in any order, a change that has begun returns the old or the new table after every cut, if and only if no whole copy of the first LEB waits with a third table (finding 7) |
| LayoutVolume.OvertakenErasureBringsBack | modules/ubi/vtbl.c:102-113 | three tables, two changes in a row, one erasure overtaken: process_lvol takes the first table (finding 7) |
| LayoutVolume.AnyOrderIsSafeAfterFlush | modules/ubi/wl.c:1280-1314 | with nothing waiting when the change begins, as after a flush that is complete (WlFlush), every order of erasures returns the old or the new table (finding 7) |
| LayoutVolume.BeginIsSafeIff | modules/ubi/vtbl.c:102-113 | with the first copy unmapped and erasures in order, every cut returns the old or the new table if and only if the second copy is there with one of them (finding 15) |
| LayoutVolume.NoTableIsLeft | modules/ubi/vtbl.c:102-113 | a change fails after unmapping the second copy, the next one unmaps the first: both copies are erased, and a cut leaves no table (finding 15) |
| UpdateMarker.ClearingIsSafeIff | modules/ubi/upd.c:366-378 | every cut after clearing the marker finds the volume as it is, if and only if no unmapped LEB has a copy waiting for erasure (finding 8) |
| UpdateMarker.UnmarkedUpdateIsSafeIff | modules/ubi/upd.c:57-72 | an update that goes on with a marker set in memory is safe at every cut, from its beginning until the marker is cleared or it is given up, if and only if the marker is on flash, or the volume is empty and the update brings nothing (finding 16) |
| UpdateMarker.UnmappingIsSafeIff | modules/ubi/upd.c:142-146 | the same while the volume is unmapped: if and only if the marker is on flash or the volume is empty (finding 16) |
| UpdateMarker.NeitherVolumeIsLeft | modules/ubi/upd.c:57-72 | setting the marker fails, the next attempt takes it for set and unmaps the volume: a cut finds no marker and neither volume (finding 16) |
| Volumes.FailedCreateIsNotUndone | modules/ubi/vtbl.c:102 | the first volume of a device, its record not written: the table in memory has a volume that does not exist (finding 9) |
| Renaming.NamesLeftBehind | modules/ubi/vtbl.c:127-167 | whatever effective renaming stops after the table was touched, the table fits the volumes no more (finding 9) |
| Renaming.EmptyNames | modules/ubi/cdev.c:701-702 | after a renaming no volume has an empty name if and only if no request did (finding 10) |
| Renaming.RenamedNameOkIff | modules/ubi/cdev.c:697-702 | the record of a renamed volume passes the check if and only if the name is not empty and as long as it says (finding 10) |
| PageBudget.SlowReadFailureLeaks | modules/ubifs/file.c:260-265 | whenever the slow path fails to read, the counters exceed what is held by exactly a new page and, if appending, an inode (finding 11) |
| PageBudget.ShortCopyKeepsIff | modules/ubifs/file.c:551-571 | a short copy keeps the books right if and only if the page was clean, or is read again without error and found as it was (finding 12) |
| PageBudget.UnreadDirtyPageBreaks | modules/ubifs/file.c:444-459 | a dirty page that could not be read again and is then written whole is taken for a new one whose budget was never taken (finding 12) |

## Findings

What documentation or symmetry leads one to expect, and the code does not keep; each with the input and the
exact condition under which it does hold.

| no | expected | fails for | holds if and only if | members |
|---|---|---|---|---|
| 1 | a cancelled move leaves no trace | a move cancelled after its target was written whole (eba.c:1099-1155): the target is newer, and comes back after a cut before its erasure, with the contents of that time; what was written inside the LEB since is gone | for the place: the target was left without a copy that can be trusted; for the contents: every copy that outranks the LEB has its contents and a checksum | LebLimits.CancelIsExactIff, IdleIsExactIff, ContentsAreExactIff, StaleContentsReturn |
| 2 | an atomic change is old or new | an unmapped LEB cut while its data is written: the only copy is kept without looking at its checksum (scan.c:561-589) | the LEB is mapped | LebLimits.ChangeIsAtomicIffMapped, TornChangeIsKept |
| 3 | the same for length zero | an older copy still waits while the newer one is erased first: the older contents are back; or the only copy left has been damaged by its erasure: it is kept without looking at its checksum | no copy shows any byte, which is never so for a dynamic volume; as long as no erasure is interrupted: no copy waiting has other contents | LebLimits.ZeroLengthChangeIsAtomicIff, UninterruptedZeroLengthIff, OlderCopyReturns, DamagedCopyReturns |
| 4 | a move shows the same contents | the target is not erased before the move, unlike a PEB from ubi_wl_get_peb: what is there behind the copied bytes shows | it reads 0xFF there, or the volume is static | LebLimits.MoveKeepsIffBlankBeyond |
| 5 | wear-leveling goes on | no memory for the VID header of the worker (wl.c:679-681): the work is gone but still counts as scheduled, so neither moves nor scrubbing are ever scheduled again | that allocation never failed (and there is a PEB at all) | WlRuns.GoesOnIff, StuckForever |
| 6 | what is handed out is not worn WL_FREE_MAX_DIFF more than the least worn | data of unknown type when counters are high: the limit is lowest + (lowest + WL_FREE_MAX_DIFF) / 2 (wl.c:439-440) | the lowest counter is at most WL_FREE_MAX_DIFF + 1 | WlTree.UnknownBoundIff |
| 7 | the volume table never goes back | two changes in a row, the erasure of the oldest copy fails and is queued again behind the newer one (wl.c:1053-1065), or two workers erase at once, then a cut: the first table is back | no copy of the first LEB waits with a third table; a flush before the change suffices if it is complete (finding 13) | LayoutVolume.AnyOrderIsSafeIff, OvertakenErasureBringsBack, AnyOrderIsSafeAfterFlush |
| 8 | clearing the update marker shows the new volume | an unmapped LEB of the new volume whose old copy still waits for erasure: it is back after a cut | no LEB left unmapped has a copy waiting; the flush in upd.c:366-378 sees to it if it is complete (finding 13) | UpdateMarker.ClearingIsSafeIff |
| 9 | a failed creation, removal, resizing or renaming changes nothing | the write of the table fails: the record in memory was overwritten before (vtbl.c:102) and stays; unmapping LEBs fails after the write (vmt.c:438-442, 555-561); a renaming overwrites a volume that is just being looked at (vmt.c:88, 421): the new table is on flash, both volumes are as before | the failure came before the table was touched | Volumes.Device.CreateVolume, RemoveVolume, ResizeVolume, FailedCreateIsNotUndone, Renaming.RenameVolumes, NamesLeftBehind, BusyVolumeStopsRename |
| 10 | every table written passes the check on the next attach | an empty name, which neither verify_mkvol_req nor rename_volumes refuses (cdev.c:636-638, 701-702), or a new name shorter than its length says, which rename_volumes notices but goes on (cdev.c:700-702) | no new name is empty, and each is as long as it says | Renaming.TableAfter, EmptyNames, RenamedNameOkIff, Volumes.Device.CreateVolume |
| 11 | budget counters are what is held | a page that cannot be read on the slow path (file.c:260-265): its new-page budget stays counted for ever | that read does not fail | PageBudget.SlowReadFailureLeaks |
| 12 | the same for a short copy | less copied than announced onto a page that is dirty already (file.c:551-571), found with more or less on flash than it was, or not read again at all: the next whole write then takes it for a new page | the page was clean, or is read again without error and found as it was | PageBudget.ShortCopyKeepsIff, UnreadDirtyPageBreaks |
| 13 | ubi_wl_flush returns when all pending works are done | an erasure fails and is queued again, or a move whose target was put before ends and queues it, while the flush waits for work_sem; the background thread takes it before the second loop looks (wl.c:1306-1311): the flush returns 0 while it is under way | nothing that was given up before is queued once work_sem has been had; so it does if none of its erasures fails and the target of the move was not put before | WlFlush.FlushIsCompleteIff, FlushIsComplete, ErasureIsOvertaken |
| 14 | a device that goes on after a failed write of its table can be attached again | a volume whose removal failed is resized, renamed or marked for an update (its record has no name or no size), a volume is created or renamed with the name of one whose creation or renaming failed, or one takes the PEBs a failed resizing has left in the record | no operation follows the failed one before the next attaching; else the record in memory was not empty, no record left alone has the name, and what is reserved too much is available | VolumeRuns.Run, RoomIff, Volumes.ResizedRecordOkIff, MarkedRecordOkIff, AddedRecordOkIff, ResizeAfterFailedRemoval, Renaming.RenamedRecordsOkIff |
| 15 | one of the two copies of the table is whole | writing the second copy fails without the device becoming read-only (no memory, no free PEB), and the next change unmaps the first one (vtbl.c:102-113): after both erasures a cut finds no table | the second copy is there, with the old or the new table, when a change begins | LayoutVolume.BeginIsSafeIff, NoTableIsLeft, TablesNeverGoBack |
| 16 | an interrupted update is found by its marker | setting the marker fails but leaves it set in memory (upd.c:66-72); the next attempt takes it for set (upd.c:57-61) and unmaps the volume, or fills it if it was empty | the marker has reached flash all the same, with a later change of the table, or the volume is empty and the update brings nothing | UpdateMarker.UnmarkedUpdateIsSafeIff, UnmappingIsSafeIff, NeitherVolumeIsLeft, UpdateIsSafe |
| 17 | a failed write inside a LEB costs no more than the bytes being written | recover_peb gives the copy a higher number but no checksum of its own (eba.c:518-552): a cut while it is written finds it, and what was there before the offset is gone | nothing was before the offset, or all of it is covered by the checksum of an earlier copy | RecoverPeb.RecoverIsSafeIff |

Also visible in the contracts: when the number of attempts is exceeded without an error in giving back the PEB,
the writing functions of eba.c return 0 on a device they have just made read-only (eba.c:694-699, 807-812,
929-933), so the contracts of `Eba` say `err == Ok && !roMode`; a PEB gone bad lowers `good_peb_count` but not
`rsvd_pebs` (wl.c:1105), so `Volumes` counts those in `newBad`; the bound cdev.c:436-438 puts on the size of an
update is weaker than what the volume holds, so `Update` asks for the size that fits.

## Left out

- Eba.Device.WriteLeb: recover_peb (eba.c:498-578) is no step of that machine but stands on its own in RecoverPeb; in Eba a failed write inside a LEB makes the device read-only at once.
- RecoverPeb.Device.RecoverPeb: for one LEB without rivals; that a copy becomes a rival of the LEB when all attempts fail is seen only in what cuts find.
- LebWear.ErasuresAreCounted: a counter that cannot be read starts again from zero, where the source takes the mean of the others; an erasure that tortures is one erasure; counters do not overflow.
- Eba.Device.WriteLebSt: for an unmapped LEB, as its callers have it; an update unmaps first.
- Eba.Device.CopyLeb: for a target that reads as erased, finding 4 says what happens otherwise; a volume that is just being deleted counts as a LEB that is no longer in the PEB.
- LebLimits.ChangeIsAtomicInEveryRun: for a LEB without a rival of finding 1.
- LebCuts.LayerCutIsLebCut: for cuts in which erasures of the LEB finish in queue order and copies are trusted; finding 7 covers other orders.
- Scan.ScanInfo.AddUsed: the image sequence number, flags of compatible internal volumes, means of erase counters, and bit-flips found while a checksum is computed do not enter the description.
- Scan.ScanAll: bad-block marks and I/O errors of reading headers are not modelled; a PEB that cannot be read is one without headers.
- WearLeveling.WearLeveling.GetPeb: the loop that produces a free PEB by doing works, and the erasure of the PEB handed out, are the caller's; the latter is in Eba.Device.GetPeb.
- WearLeveling.WearLeveling.ServeProtQueue: the pause after every 32 entries is not modelled.
- WlRuns.EveryPebIsSomewhere: entries are PEB numbers; erase_worker frees the entry before it queues it again (wl.c:1051, 1058), which numbers do not show.
- MoveProtocol.ErasedExactlyOnce: failing allocations and errors of the copy other than a cancelled move are in WlRuns, not here.
- Locking.NoCyclicWait: spin locks and locks outside UBI are not modelled.
- Volumes.Device.ResizeVolume: the table of LEBs that is replaced, and freed when unmapping fails, is not modelled.
- Volumes.Device.CreateVolume: device nodes and sysfs are faults before or after the table is written.
- Update.Volume.MoreUpdateData: a LEB that cannot be written stays unmapped, as Eba.Device.WriteLeb has it; failing to copy from the user is not modelled.
- Renaming.RenameVolumes: for names as long as they say; finding 10 says what becomes of the others.
- LayoutVolume.TablesNeverGoBack: a table is one value; what is in it is the concern of VolTable.
- WriteBuffer.Wbuf.WriteNode: timers, statistics and write errors, which make the file system read-only, are not modelled; the buffer passed in has the aligned length, as its callers see to.
- WriteBuffer.Wbuf.Sync: padding has no content but its length.
- GcMove.Gc.MoveNodes: the index does not change under the collector here; GcOrder has other writers.
- GcOrder.NothingIsLost: a commit, the log and the index are reduced to which LEBs are buds and which version the index refers to.
- Budget.Budgeting.BudgetSpace: make_free_space is its possible outcomes.
- PageBudget.RunKeepsInv: truncation (but for the data nodes it removes, in PageMedia) and bulk reading are left out; a page holds one block, as UBIFS_BLOCKS_PER_PAGE is one for 4 KiB pages.
- Directory.Fs.Run: mknod and symlink do what create does; extended attributes, times and orphans are left out.
- WlRuns.GoesOnIff: erase counters are not part of that machine; a step says whether they differ enough, and EnsureWearLeveling when they do.
- WlFlush.FlushIsCompleteIff: works are not assigned to threads; the flush may fail at any time it does works, and nothing is said of what it leaves then.
- LayoutVolume.Volume.ChangeTable: that a copy is tried in several PEBs is a step of the machine (Retry), not of this method.
- UpdateMarker.UpdateIsSafe: erasures that are over when the marker is cleared are taken for granted; finding 13 says when the flush has seen to them.
- VolumeRuns.Run: a cut finds one of the tables written or tried since the last success; when the copies themselves are whole is in LayoutVolume.
- UpdateMarker.UnmarkedUpdateIsSafeIff: for a volume none of whose LEBs has been found damaged before.
- Reading data and correcting bit-flips (ubi_eba_read_leb), streaming of a single LEB change, the character devices, sysfs, gluebi, the block layer and mounting would add only easy members.
- TNC, LPT, log and orphan code of UBIFS is not part of this model.
