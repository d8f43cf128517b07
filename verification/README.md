# Verification of the vertex-os core

A Dafny model of four parts of vertex-os, with proofs about them.

**Kernel memory.** `Frames` is the owned-frame allocator as a class over fixed arrays, with a ghost view (ranges, recycle stack, record list, ledger) that every method keeps. `PageTables`, `Paging`, `Restore`, `Teardown` and `AddressSpaces` are the four-level page tables over an explicit physical memory: a map from frame addresses to tables of 512 entries or to bytes. The joint invariant, `PageTables.TreeOk`, says that the tables of every root form a tree of distinct frames which the ledger ascribes to that root. `Elf` reads an executable, `Programs` says what it asks for, and `Loader` loads it with rollback. `Shortfalls` has the runs in which things are not as they were.

**VertexFS.** `VertexFs` gives both image formats as one layout with parsers and the acceptance `Verify`. `VertexFsUpdate` has the four writes of an update and the crash theorem. `VertexFsCode` has the tool's loops and its writers in place on a byte array, proved equal to those. `VertexFsPaths` says when its walks over parents and its lookup of a path end, and `VertexFsCycles` has images on which they do not.

**KrustBoot.** `Wire`, `BootRecords`, `BootPayload`, `BootReader`, `BootEnvelope`, `BootManifest` and `BootOffsets` are the boot manifest as the compiler writes it and the kernel reads it; `BootRoundTrip` says exactly when it is read back, and `BootBudget` what the compiler's own limits miss. `GraphRecords` and `GraphHeaders` are the second reader of graph records and the header sector of the graph store. `KernelPolicy` is the kernel's policy check. `FactTables`, `CompilerFacts`, `CompilerPaths`, `CompilerGrants`, `CompilerMounts`, `CompilerOffers`, `CompilerEndpoints` and `CompilerBootstraps` are the compiler's derivation of grants and policy facts, `CompilerPolicy`, `CompilerUses` and `CompilerChecks` its agreement with the kernel, and `CompilerRun` its run. `Bits`, `Bytes`, `Buffers`, `BufferCode`, `Text`, `PolicyTerms` and `Results` are shared.

**Service ordering.** `Supervisor`, `LinkedOrder` and `ServiceClosure` are the three graph algorithms over the generation manifest, which is `Manifests` throughout.

`dafny verify dfyconfig.toml` checks everything.

## Where the code falls short of a simpler claim

- An allocator that refuses has not necessarily run out of memory: a contiguous request moves the current range past ranges that still have room. `Frames.SkippedRangeWitness` is a run; `Frames.RefusalIsExhaustion` is the exact condition.
- A failed load is not always undone: a full recycle stack stops the rollback. `Shortfalls.FailedLoadLeavesFrames` is a run; `Loader.Load` has the exact condition, on the program and the allocator before the call.
- A teardown can be refused for the same reason. `Shortfalls.LoadedTooLarge` is a run; `Teardown.ReclaimUserAddressSpace` has the exact condition.
- Teardown frees what is in the tree or mapped, not what the ledger ascribes to the root. `Shortfalls.UnmappedFrameOutlives` is a run; `Teardown.ReclaimUserAddressSpace` says exactly when nothing of the root is left.
- Mapping and unmapping a user page can leave user bits on links. `Shortfalls.UserBitStays` is a run; `Restore.MapUnmapPrune` has the exact condition.
- VertexFS verification follows parents without a bound, and does not end on a cycle of directories above a file. `VertexFsCycles.CycleNeverEnds` has one; `VertexFsPaths.PathsDecided` has the exact condition.
- The lookup of an update walks above directories too, so it need not end on an image that verifies. `VertexFsCycles.LookupNeverEnds` has one; `VertexFsPaths.VerifiedLookup` has the exact condition. Where the original would not end, `VertexFsCode.UpdateImage` answers with an error of its own.
- The compiler tells a service with a health check to report readiness (`crates/vertexctl/src/krustboot.rs` line 1034), and the kernel wants the kind of that check not to be empty (`kernel/krust/src/boot_manifest.rs` line 2700). `CompilerRun.UnnamedHealthRefused` is a run; `CompilerRun.Compile` has the exact condition.
- The compiler's path check lets a NUL through (`crates/vertexctl/src/krustboot.rs` line 3012) and the kernel's does not (`kernel/krust/src/boot_manifest.rs` line 3269); nor does the compiler ask capabilities and store objects for names. `CompilerRun.NulPathRefused` is a run; `CompilerChecks.FactsDecided` has the exact condition. The validation of manifests, which is not part of this model, refuses both.
- The compiler does not check the kernel's budget of runtime objects (`kernel/krust/src/boot_manifest.rs` line 1488). `BootBudget.OverBudget` has a payload; `BootBudget.BudgetDecides` has the exact condition.
- The generation record of the boot record table is two bytes off (`crates/vertexctl/src/krustboot.rs` line 4772). `BootOffsets.GenerationRecordMisses` shows that it never covers the names.
- The compiler writes strings that hold a NUL, and empty ones; the readers do not give them back. `GraphRecords.SlotReads`, `GraphRecords.NodeRoundTrip`, `GraphHeaders.HeaderStrings`, `BootRoundTrip.PayloadRoundTrip` and `BootManifest.ManifestRoundTrip` are exact.

## Model

| member | source | states |
|---|---|---|
| Frames.FrameAllocator.InitFromLimine | kernel/krust/src/memory.rs:192-231 | The allocator ends up managing exactly the whole frames of the usable map entries, none of them in use; the two errors are told apart exactly; on a disjoint map the invariant holds and every frame is free. |
| Frames.FrameAllocator.AllocateOwned | kernel/krust/src/memory.rs:237-268 | Refuses exactly when the ledger is full or the recycle stack is empty and no range from the current one on has room, which is exactly when the supply is zero; otherwise hands out a frame that was not live, from the top of the recycle stack if there is one and else from the current range; the ledger gains exactly that frame, and the limit of live frames is unchanged. |
| Frames.FrameAllocator.AllocateContiguousOwned | kernel/krust/src/memory.rs:270-322 | A granted block is contiguous, entirely fresh and recorded frame by frame; every range moved past was too small; a refusal changes nothing but the current range and the failure count. |
| Frames.FrameAllocator.SetOwner | kernel/krust/src/memory.rs:336-352 | Each error exactly when it applies, in the order of the checks; otherwise the owner of that one frame changes and nothing else does. |
| Frames.FrameAllocator.OwnerOf | kernel/krust/src/memory.rs:354-357 | The ledger as a map: the owner of a live frame, nothing for any other. |
| Frames.FrameAllocator.FreeWithOwner | kernel/krust/src/memory.rs:359-393 | Fails exactly on an unaligned, foreign, dead or differently owned frame or a full recycle stack, changing nothing; otherwise the frame leaves the ledger and becomes the top of the stack. |
| Frames.FrameAllocator.FreeOwned | kernel/krust/src/memory.rs:328-334 | Freeing with an expected owner, outcome and effect exactly. |
| Frames.FrameAllocator.Free | kernel/krust/src/memory.rs:324-326 | Freeing without an expected owner, outcome and effect exactly. |
| Frames.FrameAllocator.Contains | kernel/krust/src/memory.rs:433-444 | The linear search finds a frame exactly when some usable range holds it. |
| Frames.FrameAllocator.RecordIndex | kernel/krust/src/memory.rs:451-463 | The search finds a record exactly for live frames. |
| Frames.FrameAllocator.RemoveRecord | kernel/krust/src/memory.rs:465-469 | Swap-with-last removal of a record, on the record array. |
| Frames.RefusedAtLimit | kernel/krust/src/memory.rs:237-268 | Single allocations can make live exactly as many frames as the smaller of the record table and all that is live, recycled or unbumped from the current range on: at that limit, and only there, one is refused. |
| Frames.StepSound | kernel/krust/src/memory.rs:237-393 | Every step of the allocator keeps the invariant: live frames distinct, disjoint from the recycle stack, below their range's bump address, and all three groups adding up. |
| Frames.RunConserves | kernel/krust/src/memory.rs:237-393 | Over every sequence of allocate, allocate-contiguous, set-owner and free: the invariant holds at the end, the ranges keep their size, and live, recycled and never-bumped frames add up to it. |
| Frames.FreshIsSound | kernel/krust/src/memory.rs:192-231 | The state after reading a disjoint memory map satisfies the invariant with every frame unbumped. |
| Frames.UsableAreDisjoint | kernel/krust/src/memory.rs:192-231 | Disjoint map entries give disjoint, aligned, non-empty frame ranges. |
| Frames.SkippedRangeWitness | kernel/krust/src/memory.rs:270-322 | A concrete run: after a contiguous request that no range can serve, a single frame is refused although both frames of memory are free. |
| Frames.RefusalIsExhaustion | kernel/krust/src/memory.rs:237-268 | A refusal with an empty stack means that memory is exhausted if and only if no range already moved past has room. |
| PageTables.PlacesAreDistinct | kernel/krust/src/paging.rs:485-563 | Under the tree invariant a (root, level, prefix) place is held by one frame: the tables of a root form a tree of distinct frames. |
| PageTables.WalkOffPath | kernel/krust/src/paging.rs:485-563 | Changing one slot changes no walk that does not go through that slot. |
| PageTables.LinkStep | kernel/krust/src/paging.rs:532-563 | Linking a zeroed table keeps the tree invariant of every root and changes no translation of any root. |
| PageTables.RelinkStep | kernel/krust/src/paging.rs:532-563 | Adding the user bit to a link changes no leaf translation. |
| PageTables.LeafStepOk | kernel/krust/src/paging.rs:485-530 | Writing a leaf slot changes the translation of exactly the page of that slot, in exactly one root. |
| PageTables.UnlinkStep | kernel/krust/src/paging.rs:216-266 | Unlinking an empty table keeps the invariant without it and changes no translation. |
| PageTables.RootStep | kernel/krust/src/paging.rs:300-329 | A new root table starts with no user translation and disturbs no other root. |
| PageTables.DropRootStep | kernel/krust/src/paging.rs:364-403 | Dropping an emptied root disturbs no other root. |
| Paging.PageIndexOk | kernel/krust/src/paging.rs:704-711 | The four nine-bit indexes of an address are the digits of its page number. |
| Paging.NeverHuge | kernel/krust/src/paging.rs:485-563 | No walk over user tables meets a huge page, so the huge-page errors cannot arise below a valid root. |
| Paging.Machine.EnsureNextTable | kernel/krust/src/paging.rs:532-563 | Returns the table at exactly the next place on the page's path, creating it zeroed and owned by the root if missing; on error nothing at all has changed. |
| Paging.Machine.MapPage | kernel/krust/src/paging.rs:485-530 | Refines a flat map: on success the translation of exactly one page of one root changes, from unmapped to the given leaf; on error no translation of any root changes. It succeeds if and only if the page was unmapped and the allocator can supply the tables missing on its path; already-mapped and out-of-frames are told apart exactly; the tree and ledger invariant is kept either way. |
| Paging.TablesMade | kernel/krust/src/paging.rs:532-563 | The frames a mapping takes are one for each table made, no table twice. |
| Paging.MapSupplied | kernel/krust/src/paging.rs:485-563 | An unmapped page can be mapped if and only if the supply covers the tables missing on its path. |
| Paging.Machine.UnmapPage | kernel/krust/src/paging.rs:183-214 | Clears exactly one translation, or reports exactly that the page was not mapped; tables and ledger stay. |
| Paging.Machine.CollectPath | kernel/krust/src/paging.rs:216-266 | Follows the links of a page exactly as far as they go. |
| Paging.Machine.PageTableIsEmpty | kernel/krust/src/paging.rs:721-730 | True exactly when no entry is present. |
| Paging.Machine.FreePageTableFrame | kernel/krust/src/paging.rs:465-478 | Frees a root's table frame, or reports exactly that the recycle stack is full. |
| Paging.Machine.PruneEmptyUserPageTables | kernel/krust/src/paging.rs:216-266 | Changes no translation; frees exactly the empty tables at the bottom of the page's path, in the ledger and in the tree; the one failure is a full recycle stack, with the state it leaves. |
| Restore.MapUnmapPrune | kernel/krust/src/paging.rs:183-266 | Mapping an unmapped page, unmapping and pruning it, with no empty tables on its path beforehand, succeeds exactly when the missing tables can be supplied and restores the tree and the ledger exactly; the entries are bit for bit those of before if and only if the mapping had no user bit to add. |
| Restore.TreeRestored | kernel/krust/src/paging.rs:216-266 | The tables that pruning cuts are exactly the tables that mapping made. |
| Restore.TablesIdentical | kernel/krust/src/paging.rs:532-563 | The exact condition for identical tables: the links on the path let user mode through already. |
| Restore.RoomToPrune | kernel/krust/src/memory.rs:383-393 | What mapping took from the recycle stack fits on it again, so the pruning after a mapping never fails. |
| Teardown.ReclaimLeafFrame | kernel/krust/src/paging.rs:445-463 | Frees a leaf frame if and only if the ledger says this process owns it; device and shared frames are left alone. |
| Teardown.ReclaimPageTable | kernel/krust/src/paging.rs:405-443 | A sweep of one table: everything claimed below it is freed or the recycle stack is full; the counts match what was swept. |
| Teardown.ReclaimUserHalf | kernel/krust/src/paging.rs:364-403 | The sweep over the 256 lower root slots. |
| Teardown.ReclaimUserAddressSpace | kernel/krust/src/paging.rs:364-403 | Succeeds if and only if the recycle stack has room for everything the root claims; then exactly those frames leave the ledger, each once, every other root keeps every entry and translation, the statistics count tables, pages and device mappings exactly, and no frame of the root is left in the ledger if and only if all of them were reachable beforehand; on failure only claimed frames were freed and no other root's translation changed. |
| Teardown.RoomDecides | kernel/krust/src/memory.rs:383-393 | The sweep stops early exactly when the claimed frames do not fit on the recycle stack. |
| Teardown.ClaimedExactly | kernel/krust/src/paging.rs:405-463 | What a root claims: its tables, and the pages mapped in it whose frames it owns; never a device frame, never another process's frame. |
| Teardown.NothingLeftBehind | kernel/krust/src/paging.rs:364-403 | After a finished teardown no live frame is owned by the root if and only if, beforehand, every table frame of the root was in its tree and every page frame of the root was mapped in it. |
| AddressSpaces.NewFromActiveKernelMappings | kernel/krust/src/paging.rs:300-329 | A new root owned by itself, with no user translation and the 256 upper entries of the active table; refused exactly when no frame is left. |
| AddressSpaces.LeafDecides | kernel/krust/src/paging.rs:152-160 | On user tables the leaf alone decides what the processor allows at all four levels (Intel SDM volume 3A, section 4.6), because links are created writable and carry the user bit whenever a leaf below does. |
| AddressSpaces.ValidateUserPage | kernel/krust/src/paging.rs:639-673 | Accepts a page if and only if the hardware walk would allow the access. |
| AddressSpaces.ValidateUserRange | kernel/krust/src/paging.rs:577-606 | Accepts a range if and only if it is canonical and every byte of it may be accessed; the overflow and non-canonical errors exactly. |
| AddressSpaces.UserPageIsMapped | kernel/krust/src/paging.rs:675-702 | True exactly when the page has a translation. |
| AddressSpaces.UserRangeIsUnmapped | kernel/krust/src/paging.rs:608-637 | True exactly when no byte of the range is mapped; fails exactly outside the user half. |
| Elf.ParseExact | kernel/krust/src/elf.rs:45-94 | The chain of checks accepts exactly the files that are well formed as stated independently of it. |
| Elf.HeadersPresent | kernel/krust/src/elf.rs:104-120 | Every program header of a parsed file can be read, so none is skipped. |
| Loader.CheckExact | kernel/krust/src/userspace.rs:137-165 | The overflow-checked tests accept exactly the segments that lie in the file and in the user half, and compute their page span. |
| Loader.CopySegmentBytes | kernel/krust/src/userspace.rs:228-251 | The bytes of the page are the file's where the segment has file bytes, and zero elsewhere. |
| Loader.LoadPage | kernel/krust/src/userspace.rs:137-200 | One page of a segment: a fresh frame with exactly the right bytes and permissions at an unmapped page, or the load is given up with the error and the number of frames held that its plan and the supply decide. |
| Loader.LoadSegment | kernel/krust/src/userspace.rs:137-200 | On success exactly the segment's pages are added, disjoint from all earlier ones; on failure the error and the frames held are those of the segment's plan, or the frames ran out first. |
| Loader.MapUserStack | kernel/krust/src/userspace.rs:202-226 | Eight zero pages below the stack top, or failure where the plan says or where the frames ran out. |
| Loader.LoadIntoAddressSpace | kernel/krust/src/userspace.rs:48-73 | On success the address space holds exactly the image of the program and its stack, with exactly the tables of its pages; on failure the error and the frames held are decided by the program's plan and the supply. |
| Loader.Load | kernel/krust/src/userspace.rs:31-46 | Succeeds if and only if the file parses, its segments are well formed and share no page with each other or the stack, and the allocator can supply the frames the program asks for. On success every page holds exactly the image: file bytes, zero fill, permissions, fresh frames, kernel half copied. On failure the error is the fault of the program's plan, or out-of-frames exactly when the supply is short of its need; the ledger, the tables and the live frames are those of before if and only if the smaller of need and supply fits on the recycle stack; other address spaces are as before in any case. |
| Loader.FramesTaken | kernel/krust/src/userspace.rs:31-73 | The frames a load has taken are one root, one for each table and one for each page. |
| Loader.ClaimsWhatWasTaken | kernel/krust/src/userspace.rs:31-46 | What tearing down a half-loaded address space frees is exactly what the load took. |
| Loader.RolledBack | kernel/krust/src/userspace.rs:31-46 | A completed teardown of a half-loaded address space restores the state before the load. |
| Loader.RollbackDecided | kernel/krust/src/userspace.rs:31-46 | The rollback of a failed load restores everything if and only if the smaller of what the program asks for up to its first fault and what the allocator could supply fits on the recycle stack. |
| Programs.HeadersDecided | kernel/krust/src/userspace.rs:48-73 | The plan of the first program headers places exactly their pages if they are well formed and disjoint, and has a fault otherwise. |
| Programs.PlanDecided | kernel/krust/src/userspace.rs:48-73 | The plan of a program, page by page in loading order, places its whole image if the program is loadable and otherwise ends in one of the two faults the loader reports. |
| Shortfalls.FailedLoadLeavesFrames | kernel/krust/src/userspace.rs:31-46 | A run on a fresh machine: a program whose first segment has one page more than the recycle stack holds and whose second is malformed fails to load and leaves live frames behind. |
| Shortfalls.LoadedTooLarge | kernel/krust/src/paging.rs:364-403 | A run on a fresh machine: the same program without the malformed segment is loaded, and its address space cannot be torn down because the recycle stack is too small. |
| Shortfalls.UnmappedFrameOutlives | kernel/krust/src/paging.rs:364-403 | A run on a fresh machine: a page frame allocated for a root but never mapped is still owned by the root after its successful teardown. |
| Shortfalls.UserBitStays | kernel/krust/src/paging.rs:183-266 | A run on a fresh machine: page 0 is mapped for the supervisor; mapping, unmapping and pruning page 1 for user mode leaves the user bit on the root's link. |
| Buffers.OneByteDetected | crates/vertexctl/src/vertexfs.rs:1769-1788 | The additive checksum never accepts two buffers that differ in one byte, for any buffer up to 16 MiB. |
| BufferCode.Checksum32 | crates/vertexctl/src/vertexfs.rs:1782-1788 | The loop computes the position-weighted sum modulo 2^32. |
| BufferCode.WriteChecksum | crates/vertexctl/src/vertexfs.rs:1769-1773 | Sealing a section in place: zero the field, sum, write the sum. |
| VertexFs.FormatsOk | crates/vertexctl/src/vertexfs.rs:321-327 | Both image formats are instances of the one layout the proofs are about. |
| VertexFs.PendingParses | crates/vertexctl/src/vertexfs.rs:740-782 | The pending journal sector that is written is read back as exactly that target and payload, in both formats. |
| VertexFs.CleanParses | crates/vertexctl/src/vertexfs.rs:724-738 | The clean journal sector is read back as clean. |
| VertexFs.MetadataParses | crates/vertexctl/src/vertexfs.rs:823-845 | After the metadata write the inode table parses to the same inodes with the target's size and checksum replaced. |
| VertexFsUpdate.StageHolds | crates/vertexctl/src/vertexfs.rs:279-308 | What each of the four writes leaves in every section of the image. |
| VertexFsUpdate.CrashSafe | crates/vertexctl/src/vertexfs.rs:279-308 | Crash atomicity: an image accepted with a clean journal, interrupted after any of the four writes of an update, is still accepted; the target reports the new length and checksum from the first write on, everything else exactly as before. |
| VertexFsUpdate.CrashContents | crates/vertexctl/src/vertexfs.rs:433-459 | The contents behind those reports: after any write the target reads as the payload and every other file reads as before. |
| VertexFsUpdate.FuelEnough | crates/vertexctl/src/vertexfs.rs:1473-1486 | A path found by following any number of parents is found by following as many as there are inodes, so bounding the walk loses no path. |
| VertexFsPaths.WalkExact | crates/vertexctl/src/vertexfs.rs:1473-1486 | Where parents exist, the unbounded recursion over parents ends if and only if the bounded walk finds a path. |
| VertexFsPaths.PathsDecided | crates/vertexctl/src/vertexfs.rs:1292-1370 | On a consistent directory graph the last check passes if and only if the contents do and every walk above a file ends: of the images whose contents pass, it refuses exactly those on which the original does not terminate. |
| VertexFsPaths.LookupDecided | crates/vertexctl/src/vertexfs.rs:1488-1495 | The lookup of a path, inode by inode in order of id, ends if and only if the walk above every inode up to the smallest id with that path ends, or above every inode if none has it; where it ends it answers with that smallest id, or that there is none. |
| VertexFsPaths.VerifiedLookup | crates/vertexctl/src/vertexfs.rs:1488-1495 | The same exact condition on every image that verifies. |
| VertexFsCycles.CycleNeverEnds | crates/vertexctl/src/vertexfs.rs:1473-1486 | An image, byte by byte: two directories are each other's parent and one holds a file. It passes every check but the one for paths, the check of contents included, and the walk above the file never ends. |
| VertexFsCycles.LookupNeverEnds | crates/vertexctl/src/vertexfs.rs:1488-1495 | An image, byte by byte: the same two directories, with the file in the root. It verifies, the file has its path, and the lookup of that path never ends. |
| VertexFsCycles.UpdateNeverEnds | crates/vertexctl/src/vertexfs.rs:279-308 | A run: an update of that file is turned away because its lookup has no end. |
| VertexFsCode.ReadInodeTable | crates/vertexctl/src/vertexfs.rs:1004-1058 | The parsing loop returns exactly the inode map of the section. |
| VertexFsCode.ReadDirectory | crates/vertexctl/src/vertexfs.rs:1060-1098 | The parsing loop returns exactly the directory entries of the section. |
| VertexFsCode.ReadJournal | crates/vertexctl/src/vertexfs.rs:1100-1165 | Clean, pending or invalid, exactly as the sector says. |
| VertexFsCode.CheckFreeMap | crates/vertexctl/src/vertexfs.rs:1167-1235 | Accepts exactly the free maps that mark metadata used and hold only known marks. |
| VertexFsCode.VerifyDirectoryGraph | crates/vertexctl/src/vertexfs.rs:1237-1268 | Accepts exactly the directories whose names are unique per parent, whose entries match their inodes and that reach every inode but the root. |
| VertexFsCode.VerifyJournal | crates/vertexctl/src/vertexfs.rs:1270-1290 | Accepts a pending journal exactly when its target is a file it fits. |
| VertexFsCode.VerifyFile | crates/vertexctl/src/vertexfs.rs:1292-1454 | One file: bounds, free-map marks, no sector claimed twice, data or journal matching the checksum, and a path. |
| VertexFsCode.VerifyFileExtents | crates/vertexctl/src/vertexfs.rs:1292-1454 | Accepts exactly when all extents are in bounds, marked used and pairwise disjoint and all data matches; then reports every file. |
| VertexFsCode.VerifyImage | crates/vertexctl/src/vertexfs.rs:187-210 | The loops decide exactly the acceptance that the crash theorem speaks of, with the same report, for both formats. |
| VertexFsCode.WriteJournalPending | crates/vertexctl/src/vertexfs.rs:740-782 | The in-place journal write changes the journal sector only, to the pending record. |
| VertexFsCode.WriteJournalClean | crates/vertexctl/src/vertexfs.rs:724-738 | The in-place clean write changes the journal sector only. |
| VertexFsCode.WriteFilePayload | crates/vertexctl/src/vertexfs.rs:794-821 | The in-place data write fills the target's extent with the payload and zeros, and nothing else. |
| VertexFsCode.WriteInodeMetadata | crates/vertexctl/src/vertexfs.rs:823-845 | The in-place metadata write changes the size and checksum of one inode and reseals the table. |
| VertexFsCode.InodeByPath | crates/vertexctl/src/vertexfs.rs:1488-1495 | Three answers, told apart exactly: the inode of smallest id with that path; no inode has it; or, exactly where the original does not terminate, that the lookup has no end. |
| VertexFsCode.UpdateImage | crates/vertexctl/src/vertexfs.rs:279-308 | An update succeeds exactly when the image verifies with a clean journal, the lookup of the path ends, and the first inode of that path is a file the payload fits; the result is the fourth stage for that inode, and verifies. Otherwise the error is the first that applies, in the order of the checks. |
| VertexFsCode.UpdateFile | crates/vertexctl/src/vertexfs.rs:279-308 | The same success and result on raw bytes, choosing the format by the magic. |
| VertexFsCode.FormatKept | crates/vertexctl/src/vertexfs.rs:321-327 | No write of an update changes which format the image is taken for. |
| Wire.RowReads | kernel/krust/src/boot_manifest.rs:3403-3541 | A record of fixed-size fields that is read is the record written with every text cut at its first NUL, and reading stops at its last byte; it is read unchanged if and only if no text has a NUL and no name is empty. |
| Wire.TablesRead | crates/vertexctl/src/krustboot.rs:225-395 | The same for tables written one after the other, with the counts as the only guide. |
| Wire.DecodedField | kernel/krust/src/boot_manifest.rs:3421-3453 | A record that was read is what its fields read, each at its own offset. |
| BootRecords.ProcessRoundTrip | crates/vertexctl/src/krustboot.rs:4418-4504 | A process record with its padded mount, reference and requirement lists is read back exactly. |
| BootRoundTrip.ProcessKept | crates/vertexctl/src/krustboot.rs:4418-4504 | A process record that comes back from cut text was not cut, and its mount, reference and requirement lists are within the kernel's limits. |
| BootRoundTrip.NamespacesRead | crates/vertexctl/src/krustboot.rs:225-395 | The variable-length namespace records are read back exactly if and only if their texts are clean and none has more than four entries. |
| BootRoundTrip.SectionsRead | kernel/krust/src/boot_manifest.rs:1022-1486 | All sections, the graph checksum, the policy hash and the end of the payload: what is read is what was written, cut; and it is read unchanged if and only if it was clean and the counts are within the kernel's limits. |
| BootRoundTrip.PayloadRoundTrip | crates/vertexctl/src/krustboot.rs:225-395 | Of every payload the compiler can write, for all 24 record kinds, the kernel reads back field for field what was written if and only if no text has a NUL, no name is empty and the payload is within the kernel's limits. |
| BootBudget.BudgetDecides | kernel/krust/src/boot_manifest.rs:1488-1523 | Of the clean payloads that the compiler's own limits let through, the kernel reads back exactly those whose objects are within its budget. |
| BootBudget.OverBudget | crates/vertexctl/src/krustboot.rs:3449-3577 | A payload with as many endpoints, stores, ports and device ranges as the compiler allows: clean and within all the compiler's limits, and the kernel does not take it. |
| BootReader.Reader.ReadExact | kernel/krust/src/boot_manifest.rs:3528-3536 | The cursor gives the next bytes and moves past them, or refuses exactly when they are not there. |
| BootReader.Reader.ReadRow | kernel/krust/src/boot_manifest.rs:3403-3453 | Reading a record through the cursor is the record decoder on what is left. |
| BootReader.Reader.ReadTables | kernel/krust/src/boot_manifest.rs:1022-1486 | Reading the counted sections through the cursor. |
| BootReader.Reader.ReadNamespaces | kernel/krust/src/boot_manifest.rs:1022-1486 | Reading the namespaces through the cursor. |
| BootReader.ParseCompact | kernel/krust/src/boot_manifest.rs:1022-1486 | The reader: the cursor-driven parser computes exactly the decoder the round trip is about, up to the validation that follows it. |
| BootEnvelope.StepInjective | kernel/krust/src/boot_manifest.rs:3585-3599 | One FNV-1a step is injective in the state and in the byte: the prime has the inverse 899433627 modulo 2^32. |
| BootEnvelope.V1Checksum | kernel/krust/src/boot_manifest.rs:3585-3599 | The loop computes the hash with the checksum field masked. |
| BootEnvelope.HashesApart | kernel/krust/src/boot_manifest.rs:3585-3599 | Hashes of two byte strings that differ in one unmasked byte part there and never meet again. |
| BootEnvelope.OneByteCaught | kernel/krust/src/boot_manifest.rs:3585-3599 | No byte can change without the stored checksum and the hash disagreeing, the checksum field included. |
| BootManifest.CheckRecords | kernel/krust/src/boot_manifest.rs:989-1017 | The record table is accepted exactly when every kind from 1 to 9 occurs once and every record lies in the manifest. |
| BootManifest.ParseV1Payload | kernel/krust/src/boot_manifest.rs:953-1020 | Accepts exactly the well-formed envelopes and returns exactly the payload. |
| BootManifest.ParseManifest | kernel/krust/src/boot_manifest.rs:945-951 | The reader: envelope and payload together, up to the validation that follows. |
| BootManifest.OneByteRefused | kernel/krust/src/boot_manifest.rs:953-1020 | Two manifests of one length that differ in exactly one byte, any byte, are never both accepted. |
| BootManifest.RewriteV1Checksum | crates/vertexctl/src/krustboot.rs:4892-4900 | Resealing in place writes exactly the checksum of the rest. |
| BootManifest.ResealedMatches | crates/vertexctl/src/krustboot.rs:4892-4900 | A resealed manifest matches its checksum. |
| BootManifest.WrapIs | crates/vertexctl/src/krustboot.rs:4671-4768 | Writing the checksum into the finished bytes gives the header that carries it. |
| BootManifest.SectionPlace | crates/vertexctl/src/krustboot.rs:4771-4859 | Each of the fourteen fixed-size sections lies at the computed offset and has the computed length. |
| BootManifest.RestPlace | crates/vertexctl/src/krustboot.rs:4747-4761 | The policy record spans exactly from the network ports to the end of the VFS roots. |
| BootManifest.Accepted | crates/vertexctl/src/krustboot.rs:4671-4768 | The payload lies in every envelope the compiler writes, and the kernel accepts the envelope if the names of generation and parent are clean. |
| BootManifest.ManifestRoundTrip | crates/vertexctl/src/krustboot.rs:225-395 | From the compiler's bytes to the reader's records: of every manifest the compiler can write, the reader returns field for field what was written if and only if its texts are clean and it is within the kernel's limits. |
| BootOffsets.RecordLengths | crates/vertexctl/src/krustboot.rs:23-60 | The compiler's record-length constants are the sizes of the records it writes. |
| BootOffsets.ProcessLength | crates/vertexctl/src/krustboot.rs:29-33 | The same for the 900-byte process record. |
| BootOffsets.CompactVfsRootsTable | crates/vertexctl/src/krustboot.rs:5133-5185 | The walker computes the walk it is specified by. |
| BootOffsets.CompactPolicyHeaderOffset | crates/vertexctl/src/krustboot.rs:5202-5215 | The same for the policy header, behind the graph. |
| BootOffsets.RootsFound | crates/vertexctl/src/krustboot.rs:5133-5185 | On every manifest the compiler writes, the walk lands on the VFS-root table with the right count. |
| BootOffsets.PolicyFound | crates/vertexctl/src/krustboot.rs:5202-5215 | On every manifest the compiler writes, the walk lands on the policy header. |
| BootOffsets.RecordsCover | crates/vertexctl/src/krustboot.rs:4671-4768 | Records one to six of the record table cover exactly the sections they name. |
| BootOffsets.GenerationRecordMisses | crates/vertexctl/src/krustboot.rs:4770-4773 | The generation record never covers the generation names, in any manifest within the limits whose generation name is clean: it starts at byte 48, two bytes early; the names start at byte 50. |
| GraphRecords.FixedStrAt | crates/vertex-abi/src/lib.rs:113-132 | The two scans return the string exactly when everything behind its first NUL is NUL, it is UTF-8, and it is not empty where that is refused. |
| GraphRecords.SlotReads | crates/vertex-abi/src/lib.rs:113-132 | A written string is read back if and only if it has no NUL and is not empty where that is refused. |
| GraphRecords.SerializeGraphRecords | crates/vertexctl/src/krustboot.rs:4506-4545 | Succeeds exactly when counts, strings and edge ends are acceptable, and writes exactly the nodes and then the edges with their ends numbered. |
| GraphRecords.NodeRoundTrip | crates/vertex-abi/src/lib.rs:82-94 | Every node written is decoded unchanged if and only if its strings are clean. |
| GraphRecords.EdgeRoundTrip | crates/vertex-abi/src/lib.rs:96-110 | Every edge written is decoded with its ends numbered if and only if its id is clean. |
| GraphRecords.EdgeNames | crates/vertexctl/src/krustboot.rs:4506-4545 | Following the numbers of a decoded edge leads back to the node ids the plan named. |
| GraphRecords.NodeInverse | crates/vertex-abi/src/lib.rs:82-94 | A decoded node record is the only encoding of what was decoded. |
| GraphRecords.EdgeInverse | crates/vertex-abi/src/lib.rs:96-110 | A decoded edge record is the only encoding of what was decoded. |
| GraphRecords.ReadsApart | crates/vertex-abi/src/lib.rs:51-110 | Two readable record sets that decode alike are the same bytes. |
| GraphHeaders.WriteGraphStoreHeader | crates/vertex-abi/src/lib.rs:304-341 | Which error when, in order; on success the first sector is exactly the sealed header; nothing behind it changes, and the first three errors change nothing. |
| GraphHeaders.MetadataChecksumValid | crates/vertex-abi/src/lib.rs:343-362 | The masked loop accepts exactly the sectors whose stored checksum is that of the rest. |
| GraphHeaders.NewHeader | crates/vertex-abi/src/lib.rs:264-273 | Accepts exactly on magic, version and checksum, and looks at the first sector only. |
| GraphHeaders.HeaderRoundTrip | crates/vertex-abi/src/lib.rs:279-341 | A written header is accepted and every number reads back. |
| GraphHeaders.HeaderStrings | crates/vertex-abi/src/lib.rs:275-301 | Its generation and hash read back if and only if they are not empty and have no NUL. |
| GraphHeaders.HeaderOneByte | crates/vertex-abi/src/lib.rs:264-273 | A header and the same header with any one byte of the sector changed are never both accepted. |
| KernelPolicy.ValidatePolicyFacts | kernel/krust/src/boot_manifest.rs:2038-2288 | The scans accept exactly the policies that satisfy the stated conditions on every fact, grant, process and use. |
| KernelPolicy.GrantAuthorized | kernel/krust/src/boot_manifest.rs:2812-2843 | A grant is authorised exactly when it is built in, or some capability fact speaks for it and the state volumes agree. |
| KernelPolicy.StatePathPolicyAllowsGrant | kernel/krust/src/boot_manifest.rs:2405-2433 | True exactly when every state volume is decided, and every covered one allows the service and has a fact with the rights. |
| KernelPolicy.StatePathMatchesGrant | kernel/krust/src/boot_manifest.rs:2457-2487 | The accumulated rights are the union over the matching grants. |
| KernelPolicy.MountMatchesProcess | kernel/krust/src/boot_manifest.rs:2355-2385 | True exactly when some process declares the mount. |
| KernelPolicy.MountsExact | kernel/krust/src/boot_manifest.rs:2194-2249 | In an accepted manifest the mount facts are exactly the roots and mounts the processes declare, each once. |
| KernelPolicy.StatePathExact | kernel/krust/src/boot_manifest.rs:2457-2487 | In an accepted manifest the rights of a state-path fact are exactly the union of the rights of the VFS-root grants that reach its volume at its root, and not none. |
| KernelPolicy.StatePathsComplete | kernel/krust/src/boot_manifest.rs:2405-2487 | In an accepted manifest there is a state-path fact for a place if and only if some VFS-root grant reaches that volume there. |
| KernelPolicy.OwnerOnly | kernel/krust/src/boot_manifest.rs:2405-2433 | In an accepted manifest a VFS-root grant that covers an owner-only volume belongs to that volume's owner. |
| FactTables.Push | crates/vertexctl/src/krustboot.rs:2298-2310 | Adding in place merges into the first entry of the key or appends. |
| FactTables.LookupMerged | crates/vertexctl/src/krustboot.rs:2298-2353 | Adding an entry changes the rights of its key only, by exactly the entry's rights. |
| FactTables.LookupAll | crates/vertexctl/src/krustboot.rs:2298-2353 | A table built by additions gives a key exactly the union of everything added to it. |
| CompilerFacts.RawRightsMask | crates/vertexctl/src/krustboot.rs:4079-4104 | The loop over right names computes the union of their bits, or fails exactly on an unknown name. |
| CompilerFacts.RightsGranted | crates/vertexctl/src/krustboot.rs:4050-4077 | Rights are granted exactly when rights are declared, every declared right is known and everything asked for is known and declared; the mask is then the least one that holds every right asked for, or every declared one if none is asked for. |
| CompilerFacts.PushCapability | crates/vertexctl/src/krustboot.rs:2274-2296 | Refuses exactly when an earlier fact of the id speaks of another object; otherwise merges. |
| CompilerFacts.AddCapabilityFacts | crates/vertexctl/src/krustboot.rs:1722-1761 | The facts and port requirements of all declared capabilities, or failure exactly when a mask or an object conflicts. |
| CompilerFacts.AddStoreFacts | crates/vertexctl/src/krustboot.rs:1763-1775 | A read fact for every store object of the plan. |
| CompilerFacts.AddServiceNeeds | crates/vertexctl/src/krustboot.rs:1777-1822 | The requirement facts of every native service, for needs and configs, or failure exactly on an unknown capability or bad rights. |
| CompilerMounts.AddMountFacts | crates/vertexctl/src/krustboot.rs:1696-1720 | The mount facts are exactly the roots and mounts of the processes, none twice. |
| CompilerMounts.MountsAgree | crates/vertexctl/src/krustboot.rs:2325-2337 | On the mount facts the compiler emits, the kernel finds every declared mount among the facts, every fact declared and none twice. |
| CompilerPaths.SameReach | crates/vertexctl/src/krustboot.rs:2514-2532 | On volumes with proper ids the compiler and the kernel agree about what a VFS root reaches. |
| CompilerPaths.AddStatePathFacts | crates/vertexctl/src/krustboot.rs:1891-1928 | The state-path facts are exactly those of the VFS-root grants and the volumes they reach. |
| CompilerGrants.GrantNeeds | crates/vertexctl/src/krustboot.rs:1176-1356 | The grants and objects of a service's needs, or failure exactly on a need that cannot be granted, unauthorised VFS roots included. |
| CompilerGrants.GrantConfigs | crates/vertexctl/src/krustboot.rs:1358-1379 | The grants and objects of a service's configs. |
| CompilerGrants.GrantServices | crates/vertexctl/src/krustboot.rs:1176-1380 | The same over all native services but the root. |
| CompilerPolicy.GrantOrigin | crates/vertexctl/src/krustboot.rs:1176-1380 | Every grant of the derivation comes from a named need or config of a native service. |
| CompilerPolicy.GrantsAuthorized | crates/vertexctl/src/krustboot.rs:1695-1928 | Compiler and kernel agree on authority for needs and configs: every such grant of a successful compilation passes the kernel's policy check on the emitted facts, state-path and owner checks for VFS roots included. |
| CompilerOffers.AddOffers | crates/vertexctl/src/krustboot.rs:1824-1855 | The facts and provisions of offered endpoints, or failure exactly when a native service offers an unknown capability. |
| CompilerOffers.AddDrivers | crates/vertexctl/src/krustboot.rs:1861-1884 | The facts of device drivers, or failure exactly when a synthetic id is too long for a record. |
| CompilerEndpoints.CollectEndpoints | crates/vertexctl/src/krustboot.rs:985-1001 | The two reserved endpoints, then those provided and asked for inside the plan, each once. |
| CompilerEndpoints.GrantBasics | crates/vertexctl/src/krustboot.rs:1003-1043 | Logging for every granted service and readiness for those with a health check. |
| CompilerEndpoints.GrantEndpoints | crates/vertexctl/src/krustboot.rs:1045-1114 | Receiving for providers and delegation for the initial process, or failure exactly when a provider does not offer an endpoint, a name is reserved or someone asks for more than sending. |
| CompilerEndpoints.GrantDevices | crates/vertexctl/src/krustboot.rs:3248-3292 | Control of devices for their drivers, or failure exactly when the root service is a driver. |
| CompilerEndpoints.GrantPorts | crates/vertexctl/src/krustboot.rs:3294-3321 | Control of network ports for their providers, or failure exactly on a port without a capability. |
| CompilerBootstraps.PushBootstraps | crates/vertexctl/src/krustboot.rs:2355-2369 | On facts that agree, the table holds exactly the facts added, one to a rule. |
| CompilerBootstraps.BootstrapsConsistent | crates/vertexctl/src/krustboot.rs:1930-2126 | The bootstrap facts of a plan agree: the service and the rule decide the rights, so merging never changes a fact. |
| CompilerRun.DeriveProcesses | crates/vertexctl/src/krustboot.rs:920-983 | The initial process first, then one for each other entry of the order, or failure exactly when a service is unknown or cannot be described; services, flags and health kinds are those of the manifest. |
| CompilerRun.ProcessesApartNow | crates/vertexctl/src/krustboot.rs:3600-3604 | Where all names differ no service has two processes, since a service has one description: an order that lists a service other than the root twice is refused, one that repeats the root is not. |
| CompilerRun.DeriveStates | crates/vertexctl/src/krustboot.rs:1140-1163 | The state volumes with the owners and sharing modes of the manifest, or failure exactly on a volume without a mode or a mountable name. |
| CompilerRun.DerivePlan | crates/vertexctl/src/krustboot.rs:985-1442 | Succeeds exactly when every endpoint, need and config can be granted, no device is driven by the root service and every port has a capability; the plan then has exactly the grants of all seven kinds and exactly the objects they need. |
| CompilerRun.DeriveFacts | crates/vertexctl/src/krustboot.rs:1695-1889 | Derivation succeeds exactly when every mask is readable, no facts conflict, everything offered is known and synthetic ids fit; the tables are exactly the merged contributions of capabilities, stores, offers, the log daemon's secret, drivers, needs, configs and the store verifier, and the provisions are exactly those of offered endpoints. |
| CompilerRun.NumberGrants | crates/vertexctl/src/krustboot.rs:284-291 | Every grant with the indexes its names stand for, or failure exactly on a name that is not in the plan. |
| CompilerRun.CheckPlan | crates/vertexctl/src/krustboot.rs:3600-3794 | Passes exactly when every process has a proper mount root and at most four proper mounts at paths of their own, no two volumes share a mount component, no grant is empty, and no process has two grants in one slot. |
| CompilerRun.Compile | crates/vertexctl/src/krustboot.rs:225-395 | Succeeds exactly when processes, volumes, plan and facts can be derived, the plan passes its checks and every name can be numbered. The kernel's whole policy check accepts a payload that comes out if and only if every service told to report readiness has a health check with a kind, capabilities and stores in the plan have names, and no NUL is in a mount, a mount root or a granted VFS root that reaches a volume; all three can be read off the manifest and the plan. |
| CompilerUses.AllAuthorized | kernel/krust/src/boot_manifest.rs:2812-2866 | Every grant of a compiled payload passes the kernel's policy check, for services, endpoints, devices, ports and the store verifier alike, unless a health check without a kind is told to report readiness. |
| CompilerUses.UnnamedUnused | kernel/krust/src/boot_manifest.rs:2688-2707 | The readiness fact of a service whose health check has an empty kind matches no grant, so the kernel refuses the payload. |
| CompilerUses.UsesDecided | kernel/krust/src/boot_manifest.rs:2169-2287 | Grants, mounts, state paths and bootstrap facts of a compiled payload all pass the kernel's checks on their use if and only if every service told to report readiness has a health check with a kind. |
| CompilerChecks.CleanPath | kernel/krust/src/boot_manifest.rs:3262-3275 | Of the paths the compiler accepts, the kernel accepts exactly those without a NUL. |
| CompilerChecks.InputFair | crates/vertexctl/src/krustboot.rs:1695-1889 | Everything asked for in a derivation is asked by a service that runs, and backed by a contribution to the capability it names. |
| CompilerChecks.AlwaysPass | kernel/krust/src/boot_manifest.rs:2069-2167 | The requirements, provisions and bootstrap facts of a compiled payload pass the kernel's checks on them whatever the manifest. |
| CompilerChecks.CapabilitiesDecided | kernel/krust/src/boot_manifest.rs:2043-2067 | Its capability facts pass if and only if every capability whose object is in the plan has an id and a provider and every store object has an id. |
| CompilerChecks.CleanDecided | kernel/krust/src/boot_manifest.rs:2101-2145 | Its mount and state-path facts pass if and only if no NUL is in a mount root, a mount or a granted VFS root that reaches a volume. |
| CompilerChecks.FactsDecided | kernel/krust/src/boot_manifest.rs:2038-2168 | All facts of a compiled payload pass the kernel's checks on each fact exactly under these two conditions. |
| CompilerChecks.PolicyDecided | kernel/krust/src/boot_manifest.rs:2038-2288 | The kernel accepts the policy of a compiled payload if and only if these two conditions hold and every service told to report readiness has a health check with a kind. |
| CompilerRun.CompileQuiet | crates/vertexctl/src/krustboot.rs:225-395 | A family of runs: a manifest of two services compiles whatever the kind of its health check and whatever mount root the compiler accepts; uses pass exactly if the kind is not empty, facts exactly if the mount root has no NUL. |
| CompilerRun.UnnamedHealthRefused | crates/vertexctl/src/krustboot.rs:1033-1042 | One of them: the empty kind is the only reason for which the kernel refuses the payload. |
| CompilerRun.NulPathRefused | crates/vertexctl/src/krustboot.rs:3012-3025 | Another: a NUL in a mount root is the only reason. |
| CompilerPolicy.PathFactsExact | crates/vertexctl/src/krustboot.rs:1891-1928 | Every state-path fact the compiler emits has exactly the rights the kernel counts for it, so the kernel's check that facts are used accepts it. |
| Supervisor.ActivationRuntime.ServiceDependencies | crates/vertex-supervisor/src/main.rs:213-239 | Succeeds exactly when all requirements are known; lists exactly the dependencies, each once. |
| Supervisor.ActivationRuntime.StartService | crates/vertex-supervisor/src/main.rs:241-362 | A service is spawned only with all its dependencies started and ready, enters `started` at most once, and fails only by an outside fault. |
| Supervisor.ActivationRuntime.EnsureServiceReady | crates/vertex-supervisor/src/main.rs:364-408 | A service becomes ready, or an outside fault is recorded. |
| Supervisor.ActivationRuntime.StartServiceTree | crates/vertex-supervisor/src/main.rs:185-196 | Terminates on every manifest, cyclic or not; restores the set of services being started; fails without outside fault only if the path obstructs itself. |
| Supervisor.ActivationRuntime.StartServiceTreeInner | crates/vertex-supervisor/src/main.rs:198-211 | The same below the cycle check. |
| Supervisor.ActivationRuntime.ActivateStartOrder | crates/vertex-supervisor/src/main.rs:178-183 | On success everything in the start order is started, in dependency order, each service once; with no outside fault it succeeds if and only if nothing reachable from the start order is obstructed by a cycle or an unknown service or capability. |
| Supervisor.LoggedIsClear | crates/vertex-supervisor/src/main.rs:185-211 | A service that was started is obstructed by nothing. |
| LinkedOrder.CollectDependencies | crates/vertexctl/src/main.rs:1336-1361 | The dependency map: start-after and capability providers among the linked services. |
| LinkedOrder.EmitRound | crates/vertexctl/src/main.rs:1369-1383 | One round emits every service it can, and reports no progress exactly when none is ready. |
| LinkedOrder.StuckHasNoOrder | crates/vertexctl/src/main.rs:1384-1388 | Services that each wait for another of them have no order at all. |
| LinkedOrder.LinkedStartOrder | crates/vertexctl/src/main.rs:1317-1393 | Terminates with a duplicate-free order of all services, root first and every other service after all its dependencies, or with an error exactly when no such order exists. |
| ServiceClosure.Expand | crates/vertexctl/src/krustboot.rs:2567-2596 | One worklist step adds everything the service needs, or fails exactly when the service is incomplete. |
| ServiceClosure.ClosedHoldsChain | crates/vertexctl/src/krustboot.rs:2548-2599 | A list closed under needs holds everything reachable. |
| ServiceClosure.NativeServiceClosure | crates/vertexctl/src/krustboot.rs:2548-2605 | Terminates with exactly the services reachable from the start order and the root through start-after and provider edges, adding none twice; fails exactly when a reachable service is incomplete. |

## Left out

Kernel memory:

- The `Mapper` of the kernel's own upper half, `invlpg`, reading CR3 and the raw addresses behind `phys_to_virt`: memory is an explicit map and roots are arguments.
- Bit layout of page-table entries: an entry is a record of its address and flags.
- The statistics counters that no check reads (`high_water`, `failed_allocations` beyond its own update, per-kind counts).
- Loader.Load: the error that a copy would run past the page cannot arise under the loader's own bounds, so the model's copy has no error; the printing of errors is not part of this model.
- Loader.Load: usable memory ranges are taken to be disjoint, which the allocator's invariant asks of the memory map.

VertexFS:

- Creating images, the corruption modes of the test tooling, and file I/O. A write is taken to be atomic; torn writes inside one section are not part of this model.
- VertexFs.MetadataParses: speaks of tables that parse, as every verified image's does.
- Error texts, and the order in which reports are printed.
- The parent walk behind paths is bounded by the number of inodes; `VertexFsUpdate.FuelEnough` shows that the bound loses nothing. Where the original would not terminate, the model refuses: verification, exactly where `VertexFsPaths.PathsDecided` says, and the lookup of an update, exactly where `VertexFsPaths.VerifiedLookup` says.

KrustBoot:

- blake3: the digest is an arbitrary function of the policy records.
- JSON: a generation manifest is a value; what `serde_json` would reject is not there.
- BootReader.ParseCompact: says whether and what it parses, not which parse error, and stops before the kernel's `validate_manifest`.
- BootManifest.ParseManifest: stops before the kernel's `validate_manifest`; of that, the policy check is modelled in `KernelPolicy`, and the rest (graph edges, hardware ranges, namespaces) are independent field checks that are not part of this model.
- KernelPolicy.ValidatePolicyFacts: a rejection is a rejection; which error and which denial is logged are not part of this model. The version and the presence of the hash are checked where the payload is read.
- CompilerGrants.GrantNeeds: device and namespace properties are the parameter `resolves`; running out of capability slots is not part of this model.
- CompilerGrants.GrantServices: the same parameter `resolves`, and no capability slots.
- CompilerRun.DerivePlan: the same parameter `resolves`; capability slots are numbered by the parameter `slots` of `CompilerRun.Compile`.
- CompilerRun.Compile: names, modules and mounts of processes (`describe`), descriptions of volumes (`volume`), slot numbers (`slots`), what objects hold (`contents`) and the remaining sections (`rest`) are parameters, as is the order of services, which `ServiceClosure` derives. Of the checks on a plan, those on names, mounts, volumes, grants and slots are modelled; counts, module strings, the reference lists of processes, namespaces, hardware ranges and graph records are not part of this model. Service ids are taken to be non-empty, which the validation of manifests asks for.
- CompilerRun.DeriveFacts: requirements and capabilities are derived in two passes where the original makes one.
- CompilerChecks.PolicyDecided: speaks of the payload as compiled; that the reader cuts texts at a NUL is in `BootRoundTrip`.

Service ordering:

- Spawning, health checks, sockets and clocks: each may fail at will, counted as a fault.
- LinkedOrder.LinkedStartOrder: the iteration order of the set of ids is an argument; the statement holds for every order.
