# BexOS core, modelled and proved in Dafny

BexOS is an operating system written in Rust. This project models the parts of it whose correctness rests on
state that must stay consistent over long runs, and proves what those parts are for. `dafny verify
dfyconfig.toml` checks all files together.

**The heap** (`Memory`, `ExtentTree`, `ExtentSets`, `FreeIndex`, `Layouts`, `FreeOps`, `Heap`). Free extents
are indexed by an AVL tree whose nodes live inside the extents themselves. Memory is a map of bytes, the
nodes are little-endian words in it, and the methods rewrite those words as the original rewrites node
fields. Every reachable heap keeps the index ordered, balanced, exact in its `height` and `maximum` fields
and maximally merged; live blocks and free extents exactly partition the granted bytes; no operation touches
another live block; the pruned search is a first fit; a block is placed at the lowest address that suits its
layout and takes as little as can hold it; a request is refused exactly when no free extent could hold it at
any address; freeing everything restores exactly the merged granted regions.

**Verified boot** (`BigInt`, `Rsa`, `VbMeta`, `SignedVbMeta`). Limb arithmetic on 64 words of 32 bits
computes products modulo N, so the RSA check accepts exactly the signatures section 8.2.2 of RFC 8017 asks
for. The image tool's descriptors and signed metadata are read back by the boot verifier, and a partition
passes the check exactly when it begins with as many bytes as the tool was given, of the same digest. Five
Newton steps invert every odd word.

**The firmware owner** (`Records`, `Persistent`, `OwnerSpec`, `OwnerRuns`, `OwnerEffects`, `Owner`). The
two-sector store survives a crash at any byte: the next load gives the old or the new state, exactly for the
records that cannot be cut off to another state, a condition that can be checked before the save. Over all
runs of calls, boots and crashes the durable generation never decreases, stored states are valid, and a
pending candidate is booted at most once. Memory agrees with the store in every run that does not activate a
second time while a candidate runs; when one does, it may not, and a reachable example shows it. A candidate
that reports ready is made durable without a call only while the flag of a trial boot is set, which a
rollback does not clear. For each call and each boot it is proved what it leaves in memory and in the store,
and exactly when it is refused.

**The scheduler** (the modules whose names begin with `Sched`). Every public operation that changes its
state, but for restoring a snapshot, is a function on values, and a class with the original's loops refines
them. In every state of every run each CPU's current task exists, runs and may run there; each running task
is current on exactly one CPU; group counts are exact; admitted utilisation is at most a million; deadline
budgets are aligned and bounded. Selection, lag clamping and charging are characterised. What each request
does to the task or group it names is proved, that it leaves the others alone, and exactly when it is
refused; no task sleeps past a tick at its deadline, a process that is held and let go again is where it
was, and no CPU idles after a wake while a fair task could run there. Over whole runs, whatever operations
come between and whatever other tasks come and go, a group's picks on a CPU go round its candidates as long
as these are the same; and each group's time is the sum of what was charged in its subtree, from a new
scheduler on and with groups created on the way. Group re-parenting can close a cycle; exactly when is
proved.

**Live transplant** (`Bits`, `FrameMap`, `FrameTable`, `BitRange`, `Packets`, `Transplant`,
`TransplantProgress`, `LiveKernel`). For every interleaving of frame allocation, release and record changes
with bulk and catch-up copying, the candidate kernel holds exactly what the source holds when copying
decides to finish, and both sides agree on sequence and digest after each packet. What a turn sends is
exact, and a source that keeps quiet is wholly copied after a number of turns that is given. A packet
altered in one byte, its checksum's included, is refused.

**Application archives** (`ArchivePaths`, `ArchiveFormat`, `ArchiveRoundTrip`, `ArchiveSigned`,
`ArchiveOpened`, `ArchiveCanonical`, `ArchiveTool`). An archive built from distinct valid paths opens
exactly when no certificate and not the signature is empty, and then gives back every path, mode and byte
and the signer's envelope. Any archive that opens is byte for byte its signed part signed by its signer, and
all its entries and data lie in that part; so two archives that open under one envelope are the same file,
or a collision of the hash.

Hash functions, UTF-8 validity and foreign signers are parameters. Machine widths are written out where they
matter: 32-bit limbs and wrapping Newton steps, 64-bit words, saturating scheduler times.

Where code and documentation differ the model follows the code. Six properties that one would expect turn
out false of the code; each has a concrete counterexample and the exact condition under which it holds:
`OwnerRuns.ReissueDisagrees` with `OwnerRuns.ActivateAgrees`, `OwnerRuns.StaleTrialCommits` with
`OwnerRuns.ReadyCommits` and `OwnerRuns.RunFlag`, `SchedGroups.ReparentCanClose` with
`SchedGroups.ReparentAcyclic`, `FrameMap.StraddlingRunMissed` with `FrameMap.MissedRunsStraddle`,
`ArchiveSigned.EmptyCertificateRefused` with `ArchiveSigned.BuiltParses`, and `ArchiveSigned.OverlongPasses`
with `ArchiveFormat.LocateFooled`.

Whether the store survives a crash depends on the keyed hash, of which nothing is assumed.
`Persistent.SafeExactlyWhenTelling` gives the exact condition on the record that is saved, and
`Persistent.BlankHashForges` a hash and a record for which it fails; the original's own hash is not claimed
to be such a hash.

## Model

| member | source | states |
|---|---|---|
| `ExtentTree.BalanceKeepsExtents` | lib/allocator/free_tree.rs:32-71 | Rotations and rebalancing never change which extents are indexed. |
| `ExtentTree.BalanceKeepsOrder` | lib/allocator/free_tree.rs:32-71 | Rebalancing keeps address order, disjointness and minimum sizes within the same bounds. |
| `ExtentTree.BalanceRepairs` | lib/allocator/free_tree.rs:52-71 | A node whose balanced subtrees differ by at most two levels comes out balanced, with its height unchanged or one less than before. |
| `ExtentTree.AddCorrect` | lib/allocator/free_tree.rs:72-84 | Adding a disjoint extent adds exactly it, keeps order and balance, and grows the height by at most one. |
| `ExtentTree.LeastCorrect` | lib/allocator/free_tree.rs:85-94 | Detaching the minimum removes exactly the extent below all others and keeps order and balance. |
| `ExtentTree.EraseCorrect` | lib/allocator/free_tree.rs:95-119 | Erasing removes exactly the extent at the base, if there is one, and keeps order and balance. |
| `ExtentTree.MaximumBounds` | lib/allocator/free_tree.rs:20-31 | The subtree maximum bounds the size of every extent in the subtree. |
| `ExtentTree.NodesOfHeight` | lib/allocator/free_tree.rs:52-71 | A balanced tree of height h has at least Fibonacci(h + 2) - 1 nodes. |
| `ExtentTree.HeightIsLogarithmic` | lib/allocator/free_tree.rs:52-119 | The same bound on the number of distinct extents indexed, so searches are logarithmic. |
| `ExtentTree.HeightFitsSpan` | lib/allocator/free_tree.rs:6-15 | The height times the minimum extent size is at most the address span, so the height field never overflows. |
| `ExtentSets.CanonicalUnique` | lib/allocator/free_tree.rs:122-154 | Two maximally merged sets that hold the same bytes are the same set. |
| `ExtentSets.MergeCorrect` | lib/allocator/free_tree.rs:135-152 | Absorbing the touching neighbours keeps the set maximally merged and adds exactly the new bytes. |
| `FreeIndex.Update` | lib/allocator/free_tree.rs:23-31 | Rewrites a linked node's height and maximum to the exact values and changes no byte outside the node. |
| `FreeIndex.NodeHeight` | lib/allocator/free_tree.rs:17-19 | The height word read from memory is the height of the stored subtree, zero for null. |
| `FreeIndex.NodeMaximum` | lib/allocator/free_tree.rs:20-22 | The maximum word read from memory is the greatest extent of the stored subtree, zero for null. |
| `FreeIndex.RotateNodeLeft` | lib/allocator/free_tree.rs:32-41 | The pointer rotation stores exactly the rotated tree and touches only the tree's own extents. |
| `FreeIndex.RotateNodeRight` | lib/allocator/free_tree.rs:42-51 | The mirror image. |
| `FreeIndex.BalanceNode` | lib/allocator/free_tree.rs:52-71 | Afterwards memory stores exactly the rebalanced tree; only the tree's own extents change. |
| `FreeIndex.AddNode` | lib/allocator/free_tree.rs:72-84 | Linking a written node leaves memory storing the tree with that extent added; nothing else changes. |
| `FreeIndex.DetachMin` | lib/allocator/free_tree.rs:85-94 | Unlinks the lowest node, returns it with its size intact, and stores the tree without it. |
| `FreeIndex.ReplaceRoot` | lib/allocator/free_tree.rs:111-115 | The successor takes over the erased root's links and the result is rebalanced in memory. |
| `FreeIndex.EraseNode` | lib/allocator/free_tree.rs:95-119 | Afterwards memory stores exactly the tree without the extent at the base. |
| `FreeOps.AtNode` | lib/allocator/free_tree.rs:162-173 | Returns the node at an address exactly when an extent starts there. |
| `Layouts.HoldNeedsMinimum` | lib/allocator/free_tree.rs:182-189 | An extent that can hold a layout is at least as large as the pruning bound. |
| `Layouts.RoundedIsLowest` | lib/allocator/free_tree.rs:176-177 | Rounding up from the end of the header gives the lowest aligned address that leaves room for it. |
| `Layouts.PlacementLeast` | lib/allocator/free_tree.rs:175-180 | The placed address is the lowest that suits the layout, and the length the shortest whole number of granules, at least an extent, that spans it. |
| `Layouts.FitsExactly` | lib/allocator/free_tree.rs:175-197 | The test made of an extent passes if and only if some address in it suits the layout and leaves room for its bytes. |
| `FreeOps.NothingFits` | lib/allocator/free_tree.rs:184-189 | A subtree whose maximum is below the bound holds no extent that could hold the layout at any address, which justifies pruning. |
| `FreeOps.FindFit` | lib/allocator/free_tree.rs:182-199 | Returns the lowest extent that can hold the layout at some address, and null only when none can. |
| `FreeOps.FindNeighbours` | lib/allocator/free_tree.rs:124-134 | The descent ends with the last extent before a gap and the first after it. |
| `FreeOps.AbsorbNeighbours` | lib/allocator/free_tree.rs:135-143 | Erases exactly the neighbours that touch the new extent and returns the grown extent. |
| `FreeOps.WriteNode` | lib/allocator/free_tree.rs:144-151 | The record written over an extent stores a tree of that one node. |
| `FreeOps.Insert` | lib/allocator/free_tree.rs:122-154 | The index stays ordered, balanced, aligned and maximally merged and holds exactly the old bytes and the new ones. |
| `HeapAllocator.Heap.constructor` | lib/allocator/lib.rs:17-22 | A new heap is valid, owns nothing and has granted nothing. |
| `HeapAllocator.Heap.Init` | lib/allocator/lib.rs:24-30 | Starts afresh with one granted region, all of it free. |
| `HeapAllocator.Heap.AddRegion` | lib/allocator/lib.rs:32-39 | Grants a further region, keeping every live block's bytes. |
| `HeapAllocator.Heap.Carve` | lib/allocator/lib.rs:83-88 | Takes an extent, or its first part when the rest can stand alone, out of the index, and no other byte. |
| `HeapAllocator.Heap.Alloc` | lib/allocator/lib.rs:75-97 | Fails exactly when no free extent can hold the layout at any address, and then changes nothing; otherwise a new block in the lowest extent that can, at the lowest address that suits, as long as it must be or all of an extent whose rest cannot stand alone; no live byte changes. |
| `HeapAllocator.Heap.Dealloc` | lib/allocator/lib.rs:98-110 | The block's bytes join the free bytes; the other blocks keep all theirs; null is ignored. |
| `HeapAllocator.Heap.ResizeInPlace` | lib/allocator/resize.rs:7-50 | Succeeds exactly when the shortest block that spans the new size lies in the block and the free extent that follows; the new length is the shortest, or takes a rest that cannot stand alone; a refusal changes nothing; kept payload bytes and other blocks stay. |
| `HeapAllocator.Heap.Shrink` | lib/allocator/resize.rs:22-29 | Gives the tail back to the index and rewrites the header. |
| `HeapAllocator.Heap.Grow` | lib/allocator/resize.rs:31-48 | Grows exactly when the following free extent is long enough. |
| `HeapAllocator.Heap.GrowInto` | lib/allocator/resize.rs:37-46 | Takes what is needed of the following extent, or all of it when the rest cannot stand alone. |
| `HeapAllocator.Heap.Realloc` | lib/allocator/lib.rs:59-74 | Stays exactly when it can, and then as long as it must be; else moves to the lowest extent that can hold it, at the lowest address that suits; fails exactly when the layout is too large or no extent can; a failure changes nothing; a success keeps the first min(old, new) bytes and every other block. |
| `HeapAllocator.Heap.CopyThenFree` | lib/allocator/lib.rs:67-72 | The copied prefix equals the original payload although the source is freed. |
| `HeapAllocator.FreeingAllRestores` | lib/allocator/lib.rs:98-110 | With no block live, the index is exactly the merged granted regions. |
| `BigInt.Compare` | lib/avb/lib.rs:215-223 | The limb comparison orders the numbers. |
| `BigInt.AddLimbs` | lib/avb/lib.rs:186-192 | Sum and carry-out together are the exact sum. |
| `BigInt.Subtract` | lib/avb/lib.rs:200-213 | The difference, wrapping around 2^2048 exactly when it would be negative. |
| `BigInt.AddMod` | lib/avb/lib.rs:185-198 | The sum modulo N of two reduced numbers, also when it no longer fits in 64 limbs. |
| `BigInt.LowBitsBelow` | lib/avb/lib.rs:176-178 | Testing bits limb by limb reads the binary digits of the whole number. |
| `BigInt.MultiplyMod` | lib/avb/lib.rs:173-183 | The product modulo N for every N > 1, A < N and any B. |
| `Rsa.FromOctets` | lib/avb/lib.rs:162-171 | The limbs stand for the big-endian number of 256 octets; other lengths are refused. |
| `Rsa.ToOctets` | lib/avb/lib.rs:142-145 | The octets are the big-endian encoding of the limbs. |
| `Rsa.Exponentiate` | lib/avb/lib.rs:131-141 | The loop computes s^65537 mod N. |
| `Rsa.MatchesIsPkcs1` | lib/avb/lib.rs:146-159 | The comparisons made one by one accept exactly the PKCS#1 v1.5 encoding of the digest. |
| `Rsa.VerifyRsa` | lib/avb/lib.rs:122-160 | Accepts exactly when the lengths are right, s < N, and s^65537 mod N is the PKCS#1 v1.5 encoding of the digest. |
| `VbMeta.FindHashDescriptor` | lib/avb/lib.rs:40-61 | The loop over what remains returns what the recursive search finds, error by error. |
| `VbMeta.PrintFixed` | tools/image/vbmeta.rs:132-139 | Filling a zeroed buffer at the tool's offsets gives the fixed part of a descriptor. |
| `VbMeta.PrintHashDescriptor` | tools/image/vbmeta.rs:129-143 | The tool's buffer is the printed descriptor, padded to eight bytes. |
| `VbMeta.ParseLaidOut` | lib/avb/lib.rs:225-248 | A descriptor whose name, salt and digest follow its fixed part at the stated lengths parses to them, whatever the salt. |
| `VbMeta.ParsePrinted` | lib/avb/lib.rs:225-248 | A printed descriptor parses back to its name, size and digest, with an empty salt. |
| `VbMeta.FindPrinted` | lib/avb/lib.rs:40-61 | In a printed list a name finds the first image so named, and a missing name is reported missing. |
| `VbMeta.PrintedImageJudged` | lib/avb/lib.rs:109-120 | The verdict of the descriptor found for a name on any image: out of bounds exactly if it is shorter than the original, else a wrong digest exactly if so many bytes have another. |
| `VbMeta.PrintedImageAccepted` | lib/avb/lib.rs:109-120 | The descriptor found for a name accepts an image if and only if it has the length of the first image so named and so many bytes of its digest; so that image is accepted, with or without trailing bytes. |
| `SignedVbMeta.VerifyVbmeta` | lib/avb/lib.rs:64-107 | Returns the verdict, error by error, and accepts exactly when the regions are well formed, the digest covers header and auxiliary block, and the signature is valid for the trusted modulus. |
| `SignedVbMeta.PrintHeaderLow` | tools/image/vbmeta.rs:75-86 | The header's first half, filled field by field. |
| `SignedVbMeta.PrintHeaderHigh` | tools/image/vbmeta.rs:87-92 | The header's second half. |
| `SignedVbMeta.PrintAux` | tools/image/vbmeta.rs:69-73 | Key and descriptors, padded to 64 bytes. |
| `SignedVbMeta.SignMetadata` | tools/image/vbmeta.rs:62-108 | Header, digest, signature, padding and auxiliary block in order; stops unless the signature has 256 octets. |
| `SignedVbMeta.ReadStructure` | lib/avb/lib.rs:68-90 | The verifier finds in signed metadata exactly the digest, signature, key and descriptors the tool put there. |
| `SignedVbMeta.SignedAccepted` | tools/image/vbmeta.rs:62-108 | What the tool signs is accepted by a verifier that trusts the key's modulus, with the same rollback index, location and descriptors. |
| `SignedVbMeta.SignedImagesAccepted` | tools/image/vbmeta.rs:110-127 | For every list of images, each name is found in the signed metadata, and the verdict on any image, error by error, is decided by the first image so named, which passes. |
| `SignedVbMeta.NewtonDoubles` | tools/image/vbmeta.rs:149-151 | One wrapping step turns an inverse modulo m into one modulo m squared, up to 2^32. |
| `SignedVbMeta.NewtonInverse` | tools/image/vbmeta.rs:147-151 | Five steps give the exact inverse modulo 2^32 of every odd word. |
| `SignedVbMeta.NegatedInverse` | tools/image/vbmeta.rs:154-156 | The negated inverse of the low word times the modulus is -1 modulo 2^32. |
| `SignedVbMeta.PublicKey` | tools/image/vbmeta.rs:145-160 | The key block holds the bit size, the negated inverse, the modulus and 2^4096 modulo it. |
| `Records.IdentityRoundTrip` | lib/secure_firmware/src/selection.rs:50-79 | A valid identity decodes to itself. |
| `Records.IdentityCanonical` | lib/secure_firmware/src/selection.rs:58-79 | Bytes that decode are exactly the encoding of what they decode to. |
| `Records.FillFixed` | secure/platform/arm_persistent.rs:63-75 | The fixed fields, written into a zeroed buffer. |
| `Records.EncodeState` | secure/platform/arm_persistent.rs:62-83 | The filled buffer is the record of the state, tag included. |
| `Records.ParseRoundTrip` | secure/platform/arm_persistent.rs:85-118 | The authenticated part of a valid state's record parses back to the state. |
| `Records.ParseCanonical` | secure/platform/arm_persistent.rs:85-118 | Parsing accepts nothing but the encoding of a valid state. |
| `Records.DecodeIsInverse` | secure/platform/arm_persistent.rs:62-118 | Decoding is exactly the inverse of encoding valid states, in both directions. |
| `Persistent.Disk.Read` | secure/platform/arm_persistent.rs:130-143 | Returns the sector's bytes and refuses sectors past the end. |
| `Persistent.Disk.Write` | secure/platform/arm_persistent.rs:145-159 | After a write, or a power failure within it, exactly the bytes that got through have changed. |
| `Persistent.ReadRecord` | secure/platform/arm_persistent.rs:168-172 | The state a sector's record decodes to, if any. |
| `Persistent.LoadState` | secure/platform/arm_persistent.rs:174-191 | The newest decodable record; the initial state when both sectors are erased; else an error. |
| `Persistent.SaveState` | secure/platform/arm_persistent.rs:193-208 | With enough power the state with its revision advanced is stored and returned; with less, the image is that many byte writes into erasing and writing the sector. |
| `Persistent.HomesAlternate` | secure/platform/arm_persistent.rs:197-198 | A save goes to the sector that does not hold the newest record. |
| `Persistent.TornDecodes` | secure/platform/arm_persistent.rs:85-118 | What a record cut off at any byte decodes to, for every hash: itself if nothing is missing, another state exactly when its beginning parses and hashes to the blank tag, else nothing. |
| `Persistent.ForgedRevision` | secure/platform/arm_persistent.rs:85-118 | Such another state carries the new revision. |
| `Persistent.TornRecord` | secure/platform/arm_persistent.rs:85-95 | A partly written record that cannot be cut off to another state decodes to nothing, unless it already equals the whole. |
| `Persistent.CrashedSector` | secure/platform/arm_persistent.rs:201-204 | A sector crashed at any byte then decodes to what it held, to the new record, or to nothing. |
| `Persistent.CrashRecords` | secure/platform/arm_persistent.rs:193-208 | A crash then leaves the other record alone and its own unchanged, gone or new. |
| `Persistent.CrashKeepsOldOrNew` | secure/platform/arm_persistent.rs:174-208 | With a record stored, a crash at any byte of a save makes the next load return the old state or the new one, never a third, provided that the new record cannot be cut off to another state. |
| `Persistent.CrashFromBlank` | secure/platform/arm_persistent.rs:174-208 | From a blank store, with such a record, the only other outcome is an error from a torn first record. |
| `Persistent.WholeSaveLands` | secure/platform/arm_persistent.rs:193-208 | A save that is not interrupted lands, for every hash. |
| `Persistent.CrashStaysSound` | secure/platform/arm_persistent.rs:193-208 | For every hash, a crash leaves the newest record in the sector its revision selects. |
| `Persistent.ForgedLoads` | secure/platform/arm_persistent.rs:174-208 | When a record can be cut off to another state, a crash at that byte makes the next load return exactly that state, which is neither old nor new. |
| `Persistent.SafeExactlyWhenTelling` | secure/platform/arm_persistent.rs:174-208 | Every crash of a save leaves the old or the new state if and only if none of the 481 places before the tag cuts this record off to another state. |
| `Persistent.BlankHashForges` | secure/platform/arm_persistent.rs:62-118 | A record that can be cut off so, under a hash that returns the blank tag. |
| `OwnerRuns.CommitKeeps` | secure/platform/arm_owner_core.rs:483-523 | A commit keeps the staging invariant and moves the store forward to a valid state whose active generation is no older. |
| `OwnerRuns.RollbackKeeps` | secure/platform/arm_owner_core.rs:525-564 | The same for a rollback. |
| `OwnerRuns.ActivateKeeps` | secure/platform/arm_owner_core.rs:371-407 | The same for an activation in either mode. |
| `OwnerRuns.SealKeeps` | secure/platform/arm_owner_core.rs:289-342 | What a seal leaves staged is a valid candidate newer than the durable image, in the other slot. |
| `OwnerRuns.StageKeeps` | secure/platform/arm_owner_core.rs:253-288 | Staging calls leave the store alone and keep the invariant. |
| `OwnerRuns.BootKeeps` | secure/platform/arm_owner_core.rs:593-677 | A boot keeps the store valid; if it runs a candidate, a pending record has become a trial. |
| `OwnerRuns.StepKeeps` | secure/platform/arm_owner_core.rs:371-677 | Every event, also a crash within its save, keeps the world sound, and generation and revision never decrease. |
| `OwnerRuns.RunKeeps` | secure/platform/arm_owner_core.rs:371-677 | Over every run: stored states stay valid, the durable active generation never decreases, and no pending record has its candidate booted twice. |
| `OwnerRuns.StartOk` | secure/platform/arm_persistent.rs:40-45 | The blank store, powered down, is sound. |
| `OwnerRuns.CommitAgrees` | secure/platform/arm_owner_core.rs:483-523 | After a commit, memory names the image just made durable. |
| `OwnerRuns.RollbackAgrees` | secure/platform/arm_owner_core.rs:525-564 | After a rollback, memory names the durable image again. |
| `OwnerRuns.ActivateAgrees` | secure/platform/arm_owner_core.rs:371-407 | An activation keeps memory and store in agreement if and only if it is not a live activation while a candidate runs. |
| `OwnerRuns.BootAgrees` | secure/platform/arm_owner_core.rs:593-677 | After a successful boot selection memory and store agree. |
| `OwnerRuns.RunAgrees` | secure/platform/arm_owner_core.rs:253-564 | In every run without such a reissued activation, whenever no candidate runs memory names the durable active image, and the staged slot is never the active one. |
| `OwnerRuns.ReissueDisagrees` | secure/platform/arm_owner_core.rs:371-407 | A reachable state in which a reissued live activation followed by a failure leaves memory naming an image that is not durable. |
| `OwnerRuns.ReadyCommits` | secure/platform/arm_owner_core.rs:446-466 | A candidate that reports ready becomes durable without a call if and only if the flag of a trial boot is set, nothing else is pending and a revision is left; then exactly it is active. |
| `OwnerRuns.StepFlag` | secure/platform/arm_owner_core.rs:446-677 | The flag is set by exactly the boots that run a candidate, and cleared exactly when the durable generation rises; a rollback leaves it set. |
| `OwnerRuns.RunFlag` | secure/platform/arm_owner_core.rs:446-677 | In every run, while the machine is up, the flag is set if and only if it came up with a candidate and nothing became durable since. |
| `OwnerRuns.StaleTrialCommits` | secure/platform/arm_owner_core.rs:525-564 | A reachable state in which the trial is over and a candidate that was activated live becomes durable on reporting ready, no call resolving it. |
| `OwnerEffects.CommitCall` | secure/platform/arm_owner_core.rs:408-523 | Deciding for the candidate makes exactly it durable and idle, memory names it, and the caller gets its generation and retires the other bank; refused exactly when something else is pending or no revision is left, and then nothing durable changes. |
| `OwnerEffects.RollbackCall` | secure/platform/arm_owner_core.rs:408-564 | Deciding against it keeps the durable image and drops what is pending, memory names the image it came from, and the caller is told that bank; refused exactly when the store does not load or must change and has no revision left. |
| `OwnerEffects.RollbackIsDurable` | secure/platform/arm_owner_core.rs:525-564 | While memory and store agree, the image and the bank that a rollback returns to are the durable ones. |
| `OwnerEffects.ResolveNeedsCandidate` | secure/platform/arm_owner_core.rs:408-416 | Without a ready candidate of this owner a decision is refused and changes nothing. |
| `OwnerEffects.ActivateLiveCall` | secure/platform/arm_owner_core.rs:371-407 | A live activation names the staged bank, remembers the running image to fall back to and leaves the store alone; refused exactly when nothing is sealed. |
| `OwnerEffects.ActivateOnRebootCall` | secure/platform/arm_owner_core.rs:371-407 | An activation on reboot leaves the active image durable and the candidate pending beside it; accepted exactly when a revision is left and the slots differ. |
| `OwnerEffects.ReadyRuns` | secure/platform/arm_owner_core.rs:446-466 | A candidate that reports ready is what memory names from then on, and waits to be decided about unless the boot was its trial. |
| `OwnerEffects.FailedReturns` | secure/platform/arm_owner_core.rs:567-586 | A candidate that fails leaves memory naming the image it came from and answers with its bank; when the store forbids it, recovery is asked for. |
| `OwnerEffects.BootAnswers` | secure/platform/arm_owner_core.rs:593-677 | A boot answers with the bank of the pending candidate, marked as a trial, else of the durable image; zero exactly when the store does not load, a needed revision is missing or the image does not load. |
| `OwnerEffects.BootMemory` | secure/platform/arm_owner_core.rs:593-677 | After a boot memory names the durable image; a trial has its candidate staged, the durable image to fall back to, and a record that says trial. |
| `OwnerEffects.BeginCall` | secure/platform/arm_owner_core.rs:253-271 | A stage begins exactly for a newer image of the known component while no candidate is applied or runs, empty and in the other slot. |
| `OwnerEffects.WriteCall` | secure/platform/arm_owner_core.rs:272-288 | A chunk is taken exactly when it comes next and fits window and image, and advances the upload by its length and nothing else. |
| `OwnerEffects.UploadCounts` | secure/platform/arm_owner_core.rs:272-288 | Chunks within the window whose lengths sum to no more than the image are all taken in order. |
| `OwnerEffects.SealCall` | secure/platform/arm_owner_core.rs:289-342 | A seal succeeds exactly for a complete upload of a trusted bundle that installs, and stages its digest and length; a failure never closes the stage. |
| `OwnerEffects.AbortCall` | secure/platform/arm_owner_core.rs:343-370 | An abort drops the stage unless its candidate runs, and takes back no outcome that is settled. |
| `OwnerEffects.BindingCalls` | secure/platform/arm_owner_core.rs:211-238 | One buffer at a time is bound, and it is unbound exactly by its owner while no candidate is applied or runs. |
| `OwnerEffects.ForeignCall` | secure/platform/arm_owner_core.rs:197-252 | A call that does not name the bound buffer is refused and changes nothing. |
| `Owner.CrashFate` | secure/platform/arm_persistent.rs:193-208 | Every byte-level crash of a save whose record cannot be cut off is one of the three fates the runs consider; a whole save lands, and the store stays sound, for every hash. |
| `Owner.FirmwareOwner.constructor` | secure/platform/arm_owner_core.rs:31-51 | The statics as the image is loaded. |
| `Owner.FirmwareOwner.SaveDurable` | secure/platform/arm_persistent.rs:193-208 | With power left, the specified save; without, the store is as one of its fates leaves it, provided that the record cannot be cut off; always sound. |
| `Owner.FirmwareOwner.RegisterPinned` | secure/platform/arm_owner_core.rs:211-224 | Binds a readable buffer under its handle, unless another one is bound. |
| `Owner.FirmwareOwner.UnregisterPinned` | secure/platform/arm_owner_core.rs:225-238 | Unbinds the current owner's buffer, or refuses. |
| `Owner.FirmwareOwner.BeginStage` | secure/platform/arm_owner_core.rs:253-271 | Starts a stage of the given size and generation, or refuses. |
| `Owner.FirmwareOwner.WriteChunk` | secure/platform/arm_owner_core.rs:272-288 | Accepts exactly the next chunk. |
| `Owner.FirmwareOwner.SealStage` | secure/platform/arm_owner_core.rs:289-342 | Verifies the bundle, installs it beside the durable image and closes the stage; refusals and reports are the specified ones, check by check. |
| `Owner.FirmwareOwner.AbortStage` | secure/platform/arm_owner_core.rs:343-370 | Drops the stage unless a candidate runs. |
| `Owner.FirmwareOwner.ActivateStaged` | secure/platform/arm_owner_core.rs:371-407 | On reboot, stores a pending record; live, records what to fall back to and asks for the switch. |
| `Owner.FirmwareOwner.Commit` | secure/platform/arm_owner_core.rs:483-523 | Stores the candidate as active, then ends the trial; a failed save ends nothing. |
| `Owner.FirmwareOwner.Rollback` | secure/platform/arm_owner_core.rs:525-564 | Stores the fallback as active and idle, then ends the trial and restores it in memory. |
| `Owner.FirmwareOwner.ResolveCandidate` | secure/platform/arm_owner_core.rs:408-416 | Commits or rolls back a ready candidate, and nothing else; what either ending leaves is stated by the two rows named for those calls. |
| `Owner.FirmwareOwner.Handle` | secure/platform/arm_owner_core.rs:197-420 | The whole call dispatch equals the specified step, with the handle check in front. |
| `Owner.FirmwareOwner.FirmwareCall` | secure/platform/arm_owner_core.rs:425-440 | Hands the pending action to the caller once. |
| `Owner.FirmwareOwner.CandidateIsReady` | secure/platform/arm_owner_core.rs:446-466 | The applying candidate becomes the running image, and a boot trial is committed. |
| `Owner.FirmwareOwner.CandidateHasFailed` | secure/platform/arm_owner_core.rs:567-586 | The failing candidate is rolled back; a failed rollback asks for recovery. |
| `Owner.FirmwareOwner.Select` | secure/platform/arm_owner_core.rs:643-677 | The selected slot becomes the active image once it loads. |
| `Owner.FirmwareOwner.AbandonTrial` | secure/platform/arm_owner_core.rs:599-618 | A trial found at boot is made idle before anything runs, and reported as rolled back. |
| `Owner.FirmwareOwner.StartTrial` | secure/platform/arm_owner_core.rs:619-639 | A pending candidate is selected only once the stored record says that it is on trial. |
| `Owner.FirmwareOwner.BootSelection` | secure/platform/arm_owner_core.rs:593-677 | Boots the durable image, starts a pending trial once, or abandons a trial that was interrupted. |
| `SchedGroups.Path` | kernel/core/src/sched.rs:1113-1135 | The walk from a group to its root: it starts at the group and every member exists. |
| `SchedGroups.PathDistinct` | kernel/core/src/sched.rs:1113-1135 | The walk meets every group at most once. |
| `SchedGroups.TimeIsSubtreeSum` | kernel/core/src/sched.rs:1113-1144 | Over any list of charges, each group's time grows by exactly what was charged in its subtree. |
| `SchedGroups.ClampWithin` | kernel/core/src/sched.rs:1146-1168 | After clamping every runnable group lies within eight scaled quanta of the minimum. |
| `SchedGroups.ClampOrder` | kernel/core/src/sched.rs:1146-1168 | Clamping keeps the order of any two runnable groups. |
| `SchedGroups.ClampLeast` | kernel/core/src/sched.rs:1146-1168 | Clamping keeps the minimum itself. |
| `SchedGroups.ClampOthers` | kernel/core/src/sched.rs:1146-1168 | Groups without runnable tasks are left alone. |
| `SchedGroups.FairChargeLevels` | kernel/core/src/sched.rs:1113-1168 | After a fair charge no runnable group is more than eight scaled quanta ahead of another; the clamp reorders none of them, keeps their minimum and leaves idle groups alone. |
| `SchedGroups.ReparentAcyclic` | kernel/core/src/sched.rs:254-310 | Giving a root a parent keeps every walk finite if and only if the parent is outside the root's own subtree. |
| `SchedGroups.AppendRanked` | kernel/core/src/sched.rs:280-309 | A new group below an existing one, or at the top, closes no cycle. |
| `SchedGroups.EnsureAcyclic` | kernel/core/src/sched.rs:254-310 | Creating or updating a group keeps walks finite unless the request is accepted and hangs a root below its own subtree. |
| `SchedGroups.ReparentCanClose` | kernel/core/src/sched.rs:254-310 | Three accepted requests to a new scheduler, the last of which closes a cycle. |
| `SchedSelect.MarkSets` | kernel/core/src/sched.rs:1256-1259 | Marking a priority sets its bit and no other. |
| `SchedSelect.HighestReady` | kernel/core/src/sched.rs:1261-1270 | The word scan returns the highest marked priority, and none only when no bit is set. |
| `SchedSelect.EarliestIs` | kernel/core/src/sched.rs:1016-1029 | The chosen deadline task has the earliest deadline among those ready with budget, first among equals; none only when there is none. |
| `SchedSelect.QuotaIsPath` | kernel/core/src/sched.rs:1170-1187 | A group has quota exactly when every group on its walk has some left and the walk ends at a root. |
| `SchedSelect.LeastRunIs` | kernel/core/src/sched.rs:1077-1092 | The chosen group has the least virtual runtime among those with quota and a ready fair task, first among equals; none only when there is none. |
| `SchedSelect.FairBitmap` | kernel/core/src/sched.rs:1094-1107 | The bitmap marks exactly the priorities at which the group has a ready fair task. |
| `SchedSelect.TopPriority` | kernel/core/src/sched.rs:1033 | Building the bitmap and scanning it gives the maximum priority over the tasks. |
| `SchedSelect.MaxFairIs` | kernel/core/src/sched.rs:1033 | The maximum taken task by task is the highest ready priority, so the bitmap form refines it. |
| `SchedSelect.ScanFinds` | kernel/core/src/sched.rs:1052-1073 | The ring scan finds a candidate whenever there is one, and none lies nearer after the start. |
| `SchedSelect.ScanNext` | kernel/core/src/sched.rs:1052-1073 | A ring scan that starts after a candidate finds the next one in order, and after the last one the first. |
| `SchedOps.PickIs` | kernel/core/src/sched.rs:978-1014 | The choice is the earliest deadline with budget; else, in the least-run group, a task of the highest ready priority; none only when nothing is eligible. |
| `SchedOps.InGroupIs` | kernel/core/src/sched.rs:1031-1075 | Within a group the pick is eligible and of the highest ready priority. |
| `SchedRobin.SlotsKeepCursors` | kernel/core/src/sched.rs:306-308 | What keeps CPUs, cursors and group ids keeps a cursor for every group and CPU. |
| `SchedRobin.EnsureCursors` | kernel/core/src/sched.rs:280-309 | A new group gets a cursor for every CPU, at least one. |
| `SchedRobin.AdmitCursors` | kernel/core/src/sched.rs:394-433 | Adding a task keeps a cursor for every group and CPU, also when the first CPU is added with it. |
| `SchedRobin.Remembered` | kernel/core/src/sched.rs:1062-1070 | Remembering a pick moves the cursor of that group and CPU and no other. |
| `SchedRobin.ScheduleTakesTurn` | kernel/core/src/sched.rs:978-1075 | A scheduling step that picks fairly runs the task whose turn it is and moves exactly the cursor of that group and CPU to it; any other step moves no cursor. |
| `SchedRobin.ScheduleIsNext` | kernel/core/src/sched.rs:978-1075 | So the next pick starts after it, as long as the cursor is not moved in between. |
| `SchedRobin.NextPick` | kernel/core/src/sched.rs:1034-1075 | When the cursor remembers a candidate, the next candidate in task order is picked, and after the last the first, wherever they stand in the list. |
| `SchedRobin.PickedAre` | kernel/core/src/sched.rs:1034-1075 | However many picks there are for a group and CPU, each finding the one before in the cursor, they go round the ids of the unchanged candidates in task order, from some first one on. |
| `SchedRobin.RoundRobinHolds` | kernel/core/src/sched.rs:1034-1075 | With the same k candidates in the same order, k picks for a group and CPU of which each finds the one before in the cursor choose each candidate exactly once, wherever the cursor was at first and whatever other tasks come and go. |
| `SchedRobin.TurnsGoRound` | kernel/core/src/sched.rs:1034-1075 | The same for picks that directly follow each other, from any state in which the cursor exists. |
| `SchedRobin.WithoutCursor` | kernel/core/src/sched.rs:1062-1070 | Without a cursor the same task would be picked again. |
| `SchedOwnership.OwnedDrop` | kernel/core/src/sched.rs:546-570 | When running tasks stop and exactly their CPUs are vacated, ownership is kept. |
| `SchedOwnership.OwnedAssign` | kernel/core/src/sched.rs:999-1014 | An idle CPU that takes a ready task that may run there keeps ownership. |
| `SchedOwnership.RefilledOk` | kernel/core/src/sched.rs:978-998 | A refill keeps the deadline aligned with the period grid and counts one grant for at least one more period. |
| `SchedOwnership.ScheduleKeeps` | kernel/core/src/sched.rs:978-1014 | Scheduling an idle CPU keeps ownership, runnable counts and sound budgets. |
| `SchedInvariants.FillKeeps` | kernel/core/src/sched.rs:394-433 | Filling idle CPUs keeps ownership and counts. |
| `SchedInvariants.TickKeeps` | kernel/core/src/sched.rs:474-537 | A tick keeps ownership, counts and sound budgets. |
| `SchedInvariants.AccountKeeps` | kernel/core/src/sched/runtime.rs:33-61 | So does runtime accounting. |
| `SchedInvariants.AccountExecutingKeeps` | kernel/core/src/sched/runtime.rs:64-73 | So does accounting for a thread that has already left its CPU. |
| `SchedInvariants.BlockKeeps` | kernel/core/src/sched.rs:546-570 | So does blocking the current task. |
| `SchedInvariants.WakeKeeps` | kernel/core/src/sched.rs:572-590 | So does waking a task. |
| `SchedInvariants.WakeAllKeeps` | kernel/core/src/sched.rs:592-641 | So does waking every task of a list, as expired deadlines do. |
| `SchedInvariants.SuspendKeeps` | kernel/core/src/sched.rs:643-659 | So does suspending a task wherever it runs. |
| `SchedInvariants.ExitKeeps` | kernel/core/src/sched.rs:665-685 | So does the exit of any task. |
| `SchedInvariants.ExitCurrentKeeps` | kernel/core/src/sched.rs:687-711 | So does the exit of the current task. |
| `SchedInvariants.ProfilesKeep` | kernel/core/src/sched.rs:743-833 | Profile and priority changes move nobody. |
| `SchedInvariants.YieldKeeps` | kernel/core/src/sched.rs:842-909 | So does yielding to a target or to anyone. |
| `SchedInvariants.YieldAtKeeps` | kernel/core/src/sched.rs:911-929 | So does yielding at a given time. |
| `SchedInvariants.AffinityKeeps` | kernel/core/src/sched.rs:931-952 | So does a new affinity mask, which moves the task off CPUs it no longer allows. |
| `SchedInvariants.HoldKeeps` | kernel/core/src/sched/quiescence.rs:5-79 | So does quiescing or stopping a process. |
| `SchedInvariants.ResumeKeeps` | kernel/core/src/sched/quiescence.rs:33-97 | So does resuming it. |
| `SchedInvariants.LimitsKeep` | kernel/core/src/sched.rs:312-344 | So do new shares and limits of a group. |
| `SchedRuns.CleanupKeeps` | kernel/core/src/sched.rs:713-730 | So does dropping exited tasks. |
| `SchedRuns.AddKeeps` | kernel/core/src/sched.rs:394-433 | So does adding a task that is not running. |
| `SchedRuns.SetDeadlineAdmits` | kernel/core/src/sched.rs:764-805 | The admission test keeps the rounded utilisation of all live deadline tasks at or below a million. |
| `SchedRuns.TrueBound` | kernel/core/src/sched.rs:1272-1274 | Rounding loses less than one part per million for each task. |
| `SchedRuns.AdmittedBound` | kernel/core/src/sched.rs:764-805 | The true utilisation of n admitted tasks is below 1 + n / 1,000,000. |
| `SchedRuns.GrantBound` | kernel/core/src/sched.rs:978-998 | By time t a server was granted at most capacity * (floor((t - s0) / period) + 1), counting from when its profile was set. |
| `SchedRuns.StepSound` | kernel/core/src/sched.rs:254-952 | Every allowed operation keeps all of the above at once, a cursor for every group and CPU, and the group hierarchy walkable. |
| `SchedRuns.RunSound` | kernel/core/src/sched.rs:254-952 | In every state of every run: current tasks exist, run and are allowed there; each running task is current on exactly one CPU; counts are exact; utilisation and budgets are bounded; every group has its cursors; the hierarchy has no cycle. |
| `SchedRuns.NewSound` | kernel/core/src/sched.rs:205-224 | A new scheduler is sound. |
| `SchedRuns.SoundTurns` | kernel/core/src/sched.rs:1031-1075 | So in every reachable state, for every group and CPU, round robin chooses each candidate exactly once. |
| `SchedRuns.RunTraced` | kernel/core/src/sched.rs:254-952 | Every run of allowed operations from a sound state can be written with its operations, as the statements about whole runs take it. |
| `SchedPicks.OpChain` | kernel/core/src/sched.rs:474-1075 | Whatever an operation does, what the cursors remember changes only at the moments at which it schedules a CPU, no group loses its cursors, and unique ids stay unique. |
| `SchedPicks.OnlyPicksMove` | kernel/core/src/sched.rs:1031-1075 | An operation after which a cursor remembers something else has picked fairly for that group and CPU. |
| `SchedPicks.ChainFollows` | kernel/core/src/sched.rs:1034-1075 | Each pick for a group and CPU starts after the one before it, whatever was scheduled in between. |
| `SchedPicks.ChainUnique` | kernel/core/src/sched.rs:394-730 | Task ids are unique at every pick, since every operation keeps them so. |
| `SchedPicks.RunRoundRobin` | kernel/core/src/sched.rs:1034-1075 | In every run, any k picks for a group and CPU that follow each other, the k candidates being the same in the same order at each, choose every candidate exactly once, whatever operations come between and whatever other tasks they add or drop. |
| `SchedTime.OpGains` | kernel/core/src/sched.rs:474-537 | Each operation adds to each group time exactly what it charged in the subtree: a tick the elapsed time, a yield one quantum, anything else nothing; a group that is created has time zero. |
| `SchedTime.RunTimeIsSum` | kernel/core/src/sched.rs:254-952 | Over every run, whatever is created or relinked, each group time grows by exactly what was charged in the subtree it had at the time of each charge. |
| `SchedTime.OpGrows` | kernel/core/src/sched.rs:254-310 | No operation drops a group or changes an id or parent of one, but for a request that hangs a root below another group; exactly that one does. |
| `SchedTime.RunTimeIsSubtreeSum` | kernel/core/src/sched.rs:1113-1144 | Over every run that relinks no root, each group time is that at the start, or zero for a group created since, and exactly the sum of what the run charged in its subtree. |
| `SchedTime.TickLevels` | kernel/core/src/sched.rs:474-537 | After a tick that charged a fair task no runnable group is more than eight scaled quanta ahead of another. |
| `SchedTime.YieldGroups` | kernel/core/src/sched.rs:842-909 | With exact counts a yield leaves the groups as its charge left them: the recount changes nothing. |
| `SchedTime.OpLevels` | kernel/core/src/sched.rs:474-929 | With ownership and counts in order, after every operation that charged a fair task, be it a tick or a yield, no runnable group is more than eight scaled quanta ahead of another. |
| `SchedEffects.SchedulePasses` | kernel/core/src/sched.rs:978-1014 | Scheduling a CPU gives it to a ready task that may run there, or leaves it idle, and does nothing to any other CPU or task. |
| `SchedEffects.FillBusy` | kernel/core/src/sched.rs:394-433 | After the idle CPUs are filled, none is idle while a fair task that may run there is ready and its group has quota. |
| `SchedEffects.WakeEffect` | kernel/core/src/sched.rs:572-590 | A wake makes a blocked or suspended task ready or lets it run, clears what it waited for, and leaves every other task alone; a held task stays held, an exited one exited; refused exactly for an unknown one. |
| `SchedEffects.WakeBusy` | kernel/core/src/sched.rs:572-590 | After a wake no CPU is idle that could run a fair task. |
| `SchedEffects.WakeAllEffect` | kernel/core/src/sched.rs:592-614 | A list of wakes blocks nobody, and leaves blocked only tasks that it does not name. |
| `SchedEffects.TickWakes` | kernel/core/src/sched.rs:474-641 | After an accepted tick no task is still blocked on a time that has come. |
| `SchedEffects.TickLetsSleep` | kernel/core/src/sched.rs:474-641 | And it wakes nobody early: who is blocked on a later time, or on an event, stays blocked on it. |
| `SchedEffects.TickLeavesTime` | kernel/core/src/sched.rs:474-537 | Whoever is on the CPU after a tick runs and has quantum, or budget, left. |
| `SchedEffects.TickKeepsRunner` | kernel/core/src/sched.rs:474-537 | A tick takes the CPU from nobody who has time left, and takes one tick of a fair quantum; a fair task without time starts a new quantum. |
| `SchedEffects.ScheduleGivesTime` | kernel/core/src/sched.rs:978-1014 | Whoever is given a CPU has quantum, or budget, to use there. |
| `SchedEffects.BlockEffect` | kernel/core/src/sched.rs:546-570 | The current task is blocked on the given reason, its CPU goes to another ready task or idle, and nothing is done to anyone else; refused exactly when the CPU runs nobody. |
| `SchedEffects.ExitCurrentEffect` | kernel/core/src/sched.rs:687-711 | The same for the current task that exits with a code. |
| `SchedEffects.SuspendEffect` | kernel/core/src/sched.rs:643-659 | A suspended task is on no CPU, wherever it ran; an exited one stays exited; the others are left alone. |
| `SchedEffects.ExitEffect` | kernel/core/src/sched.rs:665-685 | A task that exits has its code, waits for nothing and is on no CPU; the others are left alone. |
| `SchedEffects.HoldEffect` | kernel/core/src/sched/quiescence.rs:5-79 | Quiescing or stopping holds exactly the tasks of the process that were ready, running or blocked, for a stop also suspended ones, on no CPU and still waiting for what they waited for; the others are left alone. |
| `SchedEffects.ResumeEffect` | kernel/core/src/sched/quiescence.rs:33-97 | Every held task of the process is blocked again if it waits for something and ready or running if not; the others are left alone. |
| `SchedEffects.HoldThenResume` | kernel/core/src/sched/quiescence.rs:5-97 | A process held and let go again is where it was: runnable tasks are runnable, blocked ones wait for the same. |
| `SchedSettings.SetFairEffect` | kernel/core/src/sched.rs:743-762 | A fair profile is accepted exactly for a known task with a priority and a weight, ends any server, and touches no other task and no CPU. |
| `SchedSettings.RealtimeIsPath` | kernel/core/src/sched.rs:1189-1201 | Real time is allowed exactly when every group on the walk to the root allows it. |
| `SchedSettings.SetDeadlineEffect` | kernel/core/src/sched.rs:764-805 | A server is admitted exactly when its profile is valid, every group on the walk allows real time and the utilisation of the other servers with it is at most a million; it starts with a full budget. |
| `SchedSettings.DonateEffect` | kernel/core/src/sched.rs:807-833 | A donation never lowers a fair task and raises it to at least the donor; giving back returns it to its own priority; servers are not touched. |
| `SchedSettings.DonateThenRestore` | kernel/core/src/sched.rs:807-833 | Restoring after any donation gives what restoring without it would. |
| `SchedSettings.AffinityEffect` | kernel/core/src/sched.rs:931-952 | A mask is accepted exactly if it names some CPU and only existing ones, and becomes the mask of that task alone. |
| `SchedSettings.YieldToEffect` | kernel/core/src/sched.rs:842-909 | A yield to a target is accepted exactly if it is ready and may run there; then it runs there and the yielding task is ready. |
| `SchedSettings.YieldAnyEffect` | kernel/core/src/sched.rs:842-909 | A yield to anyone does not come back to the yielding task while a fair task could run there. |
| `SchedSettings.AddEffect` | kernel/core/src/sched.rs:394-433 | A task is added exactly when its id is new, some CPU may run it and its group exists or may be made; it stands last with a thread that has not run, and the others are left alone. |
| `SchedSettings.CleanupEffect` | kernel/core/src/sched.rs:713-730 | A cleanup drops exactly the tasks that have exited. |
| `SchedSettings.EnsureEffect` | kernel/core/src/sched.rs:254-310 | A group request is accepted exactly when it is well formed and does not move a group away from its parent; it changes that group alone and keeps the runtime it had. |
| `SchedSettings.NewGroupStarts` | kernel/core/src/sched.rs:280-309 | A new group starts at the least runtime of the groups that have something to run, or at zero. |
| `SchedSettings.LimitsEffect` | kernel/core/src/sched.rs:312-344 | New shares and limits are accepted exactly for an existing group and allowed values, and change nothing else. |
| `SchedSettings.CountIs` | kernel/core/src/sched.rs:1222-1241 | The recount counts each runnable task of the group exactly once. |
| `SchedSettings.ThrottledWaits` | kernel/core/src/sched.rs:1077-1187 | A fair task is picked only if its group and every group above have used less than their share of the window. |
| `SchedSettings.ChargedUses` | kernel/core/src/sched.rs:1113-1135 | A charge adds the elapsed time to what the group used in its window, which begins anew once it is over, to its time, and one tick. |
| `SchedSettings.ChargedRuns` | kernel/core/src/sched.rs:1113-1135 | The virtual runtime grows by the elapsed time, scaled by 2^20, over the shares, rounded down. |
| `SchedSettings.SharesSlow` | kernel/core/src/sched.rs:1113-1135 | More shares never make virtual time run faster. |
| `SchedSettings.RefilledFull` | kernel/core/src/sched.rs:978-998 | A server whose period goes on keeps its budget; else it gets its full capacity once, and its deadline moves by whole periods so that the time lies in its period. |
| `SchedSettings.AccountPays` | kernel/core/src/sched/runtime.rs:33-61 | Each thread is paid the time since the last boundary for each CPU that it runs on, and nothing else. |
| `SchedSettings.AccountSpends` | kernel/core/src/sched/runtime.rs:33-61 | A running server loses the time since the last boundary from its budget, down to zero; one that does not run loses nothing. |
| `Scheduler.Scheduler.constructor` | kernel/core/src/sched.rs:205-224 | No tasks, no groups, idle CPUs. |
| `Scheduler.Scheduler.ReplenishAll` | kernel/core/src/sched.rs:978-998 | The loop refills every budget whose period has begun, as specified. |
| `Scheduler.Scheduler.NextDeadlineReady` | kernel/core/src/sched.rs:1016-1029 | The loop returns the specified earliest deadline task. |
| `Scheduler.Scheduler.GroupHasQuota` | kernel/core/src/sched.rs:1170-1187 | The upward walk decides the recursive quota predicate and ends. |
| `Scheduler.Scheduler.NextFairGroup` | kernel/core/src/sched.rs:1077-1092 | The loop returns the specified least-run group. |
| `Scheduler.Scheduler.NextInGroup` | kernel/core/src/sched.rs:1034-1075 | The cyclic loop returns the task of the highest ready priority whose turn it is. |
| `Scheduler.Scheduler.NextFairReady` | kernel/core/src/sched.rs:1031-1075 | Group, priority and task choice together are the specified fair choice, and exactly its cursor moves. |
| `Scheduler.Scheduler.ScheduleNextOnCpu` | kernel/core/src/sched.rs:978-1014 | The whole new state is the specified one. |
| `Scheduler.Scheduler.RebuildRunnableIndexes` | kernel/core/src/sched.rs:1222-1241 | The counting loops give each group its saturated number of runnable tasks. |
| `Scheduler.Scheduler.AddGroupTick` | kernel/core/src/sched.rs:1113-1135 | The walk charges exactly the groups on the path, each once. |
| `Scheduler.Scheduler.ClampRunnableGroupLag` | kernel/core/src/sched.rs:1146-1168 | Minimum loop and clamp loop give the specified groups. |
| `Scheduler.Scheduler.ChargeIfPresent` | kernel/core/src/sched.rs:1137-1144 | Charges and, after a fair charge, clamps. |
| `Scheduler.Scheduler.FillIdleCpus` | kernel/core/src/sched.rs:394-433 | Every idle CPU is scheduled in order, as specified. |
| `Scheduler.Scheduler.AccountRuntime` | kernel/core/src/sched/runtime.rs:33-61 | Every running CPU pays once for the elapsed time. |
| `Scheduler.Scheduler.AccountForExecuting` | kernel/core/src/sched/runtime.rs:64-73 | The thread that is still executing pays in the place of its successor. |
| `Scheduler.Scheduler.WakeTask` | kernel/core/src/sched.rs:572-590 | The new state and the error are those of the specified wake, whose effect on the task and on the others is stated below. |
| `Scheduler.Scheduler.WakeExpiredDeadlines` | kernel/core/src/sched.rs:616-641 | Wakes, in order, exactly the tasks whose block reason has a deadline that has passed. |
| `Scheduler.Scheduler.TickAtOnCpu` | kernel/core/src/sched.rs:474-537 | The new state and the error are the specified ones. |
| `Scheduler.Scheduler.BlockCurrentOnCpu` | kernel/core/src/sched.rs:546-570 | The same for blocking. |
| `Scheduler.Scheduler.ExitCurrentOnCpu` | kernel/core/src/sched.rs:687-711 | The same for the current task's exit. |
| `Scheduler.Scheduler.SuspendTask` | kernel/core/src/sched.rs:643-659 | The same for suspending. |
| `Scheduler.Scheduler.ExitTask` | kernel/core/src/sched.rs:665-685 | The same for any task's exit. |
| `Scheduler.Scheduler.CleanupExited` | kernel/core/src/sched.rs:713-730 | Drops exactly the exited tasks and what refers to them. |
| `Scheduler.Scheduler.SetFairProfile` | kernel/core/src/sched.rs:743-762 | The same for a fair profile. |
| `Scheduler.Scheduler.GroupAllowsRealtime` | kernel/core/src/sched.rs:1189-1201 | The upward walk finds whether every group on the path allows real-time tasks. |
| `Scheduler.Scheduler.UtilisationWithout` | kernel/core/src/sched.rs:764-805 | The sum loop gives the rounded utilisation of all live tasks but one. |
| `Scheduler.Scheduler.SetDeadlineProfile` | kernel/core/src/sched.rs:764-805 | The same for a deadline profile, admission test included. |
| `Scheduler.Scheduler.DonatePriority` | kernel/core/src/sched.rs:807-821 | The same for a priority donation. |
| `Scheduler.Scheduler.RestoreBasePriority` | kernel/core/src/sched.rs:823-833 | The same for restoring the base priority. |
| `Scheduler.Scheduler.YieldCurrentToOnCpu` | kernel/core/src/sched.rs:842-909 | The same for a yield. |
| `Scheduler.Scheduler.YieldCurrentToAtOnCpu` | kernel/core/src/sched.rs:911-929 | The same for a yield at a given time. |
| `Scheduler.Scheduler.SetCpuAffinity` | kernel/core/src/sched.rs:931-952 | The same for an affinity mask. |
| `Scheduler.Scheduler.HoldProcessTasks` | kernel/core/src/sched/quiescence.rs:5-79 | The same for quiescing and stopping a process. |
| `Scheduler.Scheduler.ResumeProcessTasks` | kernel/core/src/sched/quiescence.rs:33-97 | The same for resuming it. |
| `Scheduler.Scheduler.EnsureResourceGroup` | kernel/core/src/sched.rs:254-310 | The same for creating or updating a group. |
| `Scheduler.Scheduler.SetResourceGroupShares` | kernel/core/src/sched.rs:312-325 | The same for new shares. |
| `Scheduler.Scheduler.SetResourceGroupLimits` | kernel/core/src/sched.rs:327-344 | The same for new limits. |
| `Scheduler.Scheduler.AddNewTask` | kernel/core/src/sched.rs:394-433 | The same for adding a task. |
| `FrameMap.MarkRoomy` | lib/migration/src/dirty.rs:13-38 | A dirty set sized for all its keys never fails and gains exactly the marked key. |
| `FrameMap.TakeFramesRecorded` | kernel/src/memory/mod.rs:186-230 | Every word that an allocation changes is dirty afterwards, and dirty words stay dirty. |
| `FrameMap.FreeFramesRecorded` | kernel/src/memory/mod.rs:245-256 | The same for a release. |
| `FrameMap.TakeFramesAt` | kernel/src/memory/mod.rs:205-230 | Taking a run uses exactly its frames and clears exactly their boot marks. |
| `FrameMap.FreeFramesAt` | kernel/src/memory/mod.rs:245-256 | Freeing a run frees exactly its frames. |
| `FrameMap.AllocateThenRelease` | kernel/src/memory/mod.rs:205-256 | Releasing what was allocated gives back the same free frames. |
| `FrameMap.OnePageComplete` | kernel/src/memory/mod.rs:205-244 | A single page is refused exactly when every frame is used. |
| `FrameMap.MissedRunsStraddle` | kernel/src/memory/mod.rs:210-213 | Allocation of pages fails if and only if every free run of that length straddles the hint. |
| `FrameMap.StraddlingRunMissed` | kernel/src/memory/mod.rs:205-256 | A run of seven calls from a new table of any size, after which two free frames lie side by side and a request for two is refused. |
| `FrameTable.FrameTable.constructor` | kernel/src/memory/mod.rs:43-51 | Everything used, nothing marked. |
| `FrameTable.FrameTable.BeginLiveSnapshot` | kernel/src/memory/mod.rs:52-54 | Starts with an empty dirty set that has room for every word. |
| `FrameTable.FrameTable.MarkUsed` | kernel/src/memory/mod.rs:186-193 | Sets or clears one bit and marks its word. |
| `FrameTable.FrameTable.MarkBoot` | kernel/src/memory/mod.rs:197-204 | The same for the boot-file bits. |
| `FrameTable.FrameTable.TakeOne` | kernel/src/memory/mod.rs:214-223 | Hands out one frame, counting a reused boot frame. |
| `FrameTable.FrameTable.FindFreeRun` | kernel/src/memory/mod.rs:231-244 | Returns the lowest free run between the bounds, and none only when there is none. |
| `FrameTable.FrameTable.Allocate` | kernel/src/memory/mod.rs:205-230 | Takes the lowest run at or above the hint, else the lowest below it, and moves the hint; otherwise nothing changes and neither side has a run. |
| `FrameTable.FrameTable.Release` | kernel/src/memory/mod.rs:245-256 | Frees the run and lowers the hint. |
| `BitRange.MaskBits` | kernel/src/memory/mod.rs:287-299 | The conjunction of the two masks has exactly the bits of the range. |
| `BitRange.MaskedBits` | kernel/src/memory/mod.rs:287-304 | Or-ing the mask in, or and-ing it out, sets exactly those bits of a word to the value. |
| `BitRange.WordFilled` | kernel/src/memory/mod.rs:278-305 | One more word extends the filled range up to its end and changes no other bit. |
| `BitRange.SetBitRange` | kernel/src/memory/mod.rs:274-306 | The word-wise fill sets exactly the bits from start to end that there are and leaves all others. |
| `Packets.ChecksumOf` | kernel/core/src/transplant.rs:185-191 | The loop computes the specified 32-bit fold. |
| `Packets.MixInjective` | kernel/core/src/transplant.rs:185-191 | One rotate-and-xor step loses neither the value nor the byte. |
| `Packets.OneByteChanges` | kernel/core/src/transplant.rs:185-191 | Two strings that differ in exactly one byte have different checksums. |
| `Packets.AlteredRefused` | kernel/src/transplant/prepare.rs:137-147 | A packet altered in any one byte, of its body or of its checksum, is refused and leaves the candidate as it was. |
| `Packets.AdoptSent` | kernel/src/transplant/prepare.rs:137-171 | A packet the sender made passes length, checksum and sequence checks and reaches the record stage. |
| `Packets.AdoptFrameSent` | kernel/src/transplant/prepare.rs:154-170 | A sent frame record sets exactly that word. |
| `Packets.AdoptRuntimeSent` | kernel/src/transplant/prepare.rs:165-170 | A sent runtime record becomes exactly that record. |
| `Packets.AcceptedIsSent` | kernel/src/transplant/prepare.rs:137-171 | The candidate accepts nothing but what the sender makes with the next sequence number: a frame word that it has, or a runtime record. |
| `Transplant.SendFrame` | kernel/src/transplant/live.rs:61-91 | Sending a frame word clears its mark and gives the candidate its value, and nothing else moves but counters. |
| `Transplant.SendRecord` | kernel/src/transplant/live.rs:61-91 | The same for a runtime record. |
| `Transplant.BulkKeeps` | kernel/src/transplant/live.rs:111-135 | Every bulk round keeps the invariant: each word and record is not yet copied, dirty, or equal. |
| `Transplant.CatchUpKeeps` | kernel/src/transplant/live.rs:136-143 | So does every catch-up round, which finishes only when both sides are equal. |
| `Transplant.StepKeeps` | kernel/src/transplant/live.rs:105-150 | A turn keeps the invariant and finishes only when the candidate equals the source. |
| `Transplant.ChangeKeeps` | kernel/src/memory/mod.rs:186-256 | So does every change of the source between turns: allocation, release, record writes. |
| `Transplant.RunSettles` | kernel/src/transplant/live.rs:61-150 | For every interleaving of changes and turns: on finishing, the candidate holds exactly the frame words and records that the source holds, and no other record. |
| `Transplant.BeginInv` | kernel/src/transplant/live.rs:27-59 | The invariant holds at the start. |
| `Transplant.ReceiptYieldsSent` | kernel/src/transplant/prepare.rs:185-193 | Sender and candidate agree on sequence and digest after every packet, and taking yields exactly the runtime the sent packets built in order. |
| `TransplantProgress.LateTurn` | kernel/src/transplant/live.rs:105-110 | A turn that comes too late abandons the transplant. |
| `TransplantProgress.BulkTurnMoves` | kernel/src/transplant/live.rs:111-135 | A bulk turn on time sends exactly the next eight records of what is left to copy, or all of it and goes on to catch-up; it abandons exactly when it would go on and may not. |
| `TransplantProgress.CatchUpTurnMoves` | kernel/src/transplant/live.rs:136-150 | A catch-up turn on time clears up to thirty-two marks, a record sent for each, and finishes exactly when it finds fewer in the second such turn or later; it never abandons. |
| `TransplantProgress.CatchUpFinishes` | kernel/src/transplant/live.rs:136-150 | With a quiet source catch-up finishes in exactly the number of turns that its marks call for, and both sides are then equal. |
| `TransplantProgress.BulkEnds` | kernel/src/transplant/live.rs:111-135 | With a quiet source the bulk copy takes one turn for every eight records and one more. |
| `TransplantProgress.QuietFinishes` | kernel/src/transplant/live.rs:105-150 | From any state of the bulk copy a source that keeps quiet is wholly copied within a number of turns that its queue and its marks give. |
| `TransplantProgress.BeginFinishes` | kernel/src/transplant/live.rs:27-150 | From the start it takes exactly one turn for every eight words and records and three more; the candidate then holds the words and records. |
| `LiveKernel.LiveKernel.constructor` | kernel/src/transplant/live.rs:27-59 | The start: a fresh candidate and everything to copy. |
| `LiveKernel.LiveKernel.Deliver` | kernel/src/transplant/prepare.rs:137-171 | The candidate's state and answer after one packet are the specified ones. |
| `LiveKernel.LiveKernel.SendKey` | kernel/src/transplant/live.rs:61-91 | Sends one record, or abandons. |
| `LiveKernel.LiveKernel.NextDirty` | kernel/src/transplant/live.rs:93-101 | The least dirty frame key, else the least dirty record key. |
| `LiveKernel.LiveKernel.BulkTurn` | kernel/src/transplant/live.rs:111-135 | The bounded bulk loop equals the specified rounds. |
| `LiveKernel.LiveKernel.CatchUpTurn` | kernel/src/transplant/live.rs:136-143 | The bounded catch-up loop equals the specified rounds. |
| `LiveKernel.LiveKernel.StepTurn` | kernel/src/transplant/live.rs:105-150 | One turn equals the specified one, including whether it finishes or aborts; what such a turn sends and when it finishes is stated by the rows on progress. |
| `LiveKernel.LiveKernel.TakePrepared` | kernel/src/transplant/prepare.rs:185-193 | The sender's generation, sequence and digest, and no others, get the runtime that the packets sent, in order, made of a blank one. |
| `ArchivePaths.JoinSplit` | lib/app_archive/src/lib.rs:571-586 | Joining the components of a path gives the path. |
| `ArchivePaths.NormalizePath` | lib/app_archive/src/lib.rs:571-586 | The rebuilding loop returns the path unchanged when all components are plain, and refuses it otherwise. |
| `ArchivePaths.LessTotal` | lib/app_archive/src/lib.rs:442 | The byte order on paths is total and irreflexive. |
| `ArchivePaths.SortHas` | lib/app_archive/src/lib.rs:442 | Sorting keeps exactly the files given. |
| `ArchivePaths.SortIncreasing` | lib/app_archive/src/lib.rs:433-442 | Sorting distinct paths gives a strictly increasing list. |
| `ArchivePaths.IncreasingUnique` | lib/app_archive/src/lib.rs:442 | Only one strictly increasing list holds given files, so the sorting method does not matter. |
| `ArchiveFormat.PathErrorNone` | lib/app_archive/src/lib.rs:433-441 | The builder refuses exactly the lists with an invalid or repeated path. |
| `ArchiveFormat.LocateFooled` | lib/app_archive/src/lib.rs:172-184 | The header test, whose sum wraps, lets a directory past the signed bytes through exactly when its end overflows 64 bits. |
| `ArchiveFormat.FooledRefused` | lib/app_archive/src/lib.rs:508-513 | Such an archive is refused all the same. |
| `ArchiveFormat.OpenedWithin` | lib/app_archive/src/lib.rs:157-203 | Whatever opens has its directory within the signed bytes. |
| `ArchiveRoundTrip.ParseRecordBuilt` | lib/app_archive/src/lib.rs:518-532 | A written directory record parses back to its entry. |
| `ArchiveRoundTrip.ParseDirectoryBuilt` | lib/app_archive/src/lib.rs:501-559 | The directory of files in path order parses back to their entries, all within the signed bytes. |
| `ArchiveRoundTrip.ChunksBuilt` | lib/app_archive/src/lib.rs:334-358 | Every chunk of a stored file matches the hash stored for it. |
| `ArchiveRoundTrip.FileReadsBack` | lib/app_archive/src/lib.rs:287-299 | A stored file passes its checks and reads back as it was. |
| `ArchiveRoundTrip.DataReadsBack` | lib/app_archive/src/lib.rs:456-483 | Every entry of built data is good, and the i-th reads back the i-th file. |
| `ArchiveSigned.ParseChainBuilt` | lib/app_archive/src/lib.rs:612-628 | A written chain parses back, unless one of its certificates is empty. |
| `ArchiveSigned.ParseSignatureBuilt` | lib/app_archive/src/lib.rs:590-645 | A written signature block parses back exactly when the signature and all certificates are non-empty. |
| `ArchiveSigned.BuildAccepts` | lib/app_archive/src/lib.rs:383-441 | The builder succeeds exactly on acceptable chains, short enough signatures and distinct valid paths. |
| `ArchiveSigned.OuterReadsBack` | lib/app_archive/src/lib.rs:157-203 | Header, signature block, digest and directory of a built archive read back. |
| `ArchiveSigned.BuiltParses` | lib/app_archive/src/lib.rs:157-221 | What was built parses if and only if the signature and every certificate are non-empty, with the exact error otherwise, and its entries are faithful to the sorted files. |
| `ArchiveSigned.ArchiveRoundTrips` | lib/app_archive/src/lib.rs:383-559 | From distinct valid paths, with signature and certificates, the archive opens with strictly increasing paths, exactly the files' modes and bytes, and the signer's envelope. |
| `ArchiveSigned.EmptyCertificateRefused` | lib/app_archive/src/lib.rs:621-623 | An archive the builder signs with an empty certificate, which the parser refuses. |
| `ArchiveSigned.OverlongPasses` | lib/app_archive/src/lib.rs:182-184 | A header with an overflowing directory that passes the header test. |
| `ArchiveOpened.EntryChecked` | lib/app_archive/src/lib.rs:334-358 | An entry whose hashes are there passes if and only if its stored bytes are too, it has a hash for every chunk of them, and each matches. |
| `ArchiveOpened.DirectoryIs` | lib/app_archive/src/lib.rs:501-559 | A directory that parses has as many entries as stated, in strict path order, each with a good path and all its parts within the signed bytes. |
| `ArchiveOpened.OpenedIs` | lib/app_archive/src/lib.rs:157-221 | Whatever opens: its digest is that of its signed part, its entries are in strict path order and lie with their hashes in that part, and every chunk matches. |
| `ArchiveOpened.SignedPartDecides` | lib/app_archive/src/lib.rs:157-221 | Two archives that open with the same signed part have the same entries and the same data in each. |
| `ArchiveOpened.DigestDecides` | lib/app_archive/src/lib.rs:157-221 | Two archives that open with the same digest have the same entries, or their signed parts are a collision of the hash. |
| `ArchiveCanonical.ChainCanonical` | lib/app_archive/src/lib.rs:612-628 | A chain that parses is written exactly as it was read. |
| `ArchiveCanonical.SignatureCanonical` | lib/app_archive/src/lib.rs:590-645 | A signature block that parses is exactly the block that its envelope is written as, so parsing is the inverse of writing. |
| `ArchiveCanonical.OpenedCanonical` | lib/app_archive/src/lib.rs:157-221 | Every archive that opens is, byte for byte, its signed part signed by its signer. |
| `ArchiveCanonical.EnvelopeDecides` | lib/app_archive/src/lib.rs:157-221 | Two archives that open with the same envelope are the same file, or their signed parts are a collision of the hash. |
| `ArchiveTool.CheckPaths` | lib/app_archive/src/lib.rs:433-441 | The loop with its set of seen paths reports the first path error. |
| `ArchiveTool.AppendHashes` | lib/app_archive/src/lib.rs:465-472 | The loop appends the hash of every chunk in order. |
| `ArchiveTool.AppendStored` | lib/app_archive/src/lib.rs:462-482 | Appends a file's bytes and hashes and returns the entry that describes them. |
| `ArchiveTool.AppendFiles` | lib/app_archive/src/lib.rs:456-483 | The loop appends every file and records where each went. |
| `ArchiveTool.PutRecord` | lib/app_archive/src/lib.rs:487-495 | Patching the fields over zeros writes exactly the record. |
| `ArchiveTool.PutDirectory` | lib/app_archive/src/lib.rs:485-497 | The patching loop fills exactly the room left for the directory. |
| `ArchiveTool.PutHeader` | lib/app_archive/src/lib.rs:450-454 | Patching the fields over zeros writes exactly the header. |
| `ArchiveTool.BuildUnsignedArchive` | lib/app_archive/src/lib.rs:429-499 | Growing and patching one byte vector gives the specified archive or error. |
| `ArchiveTool.AppendChain` | lib/app_archive/src/lib.rs:415-418 | The loop appends every certificate behind its length. |
| `ArchiveTool.AppendSignatureHeader` | lib/app_archive/src/lib.rs:407-414 | The appended fields are the fixed part of the signature block. |
| `ArchiveTool.BuildArchive` | lib/app_archive/src/lib.rs:383-426 | The signed archive or the error, as specified. |
| `ArchiveTool.ReadRecord` | lib/app_archive/src/lib.rs:518-532 | One record, with every error in the code's order. |
| `ArchiveTool.ReadDirectory` | lib/app_archive/src/lib.rs:501-559 | The cursor loop equals the recursive directory parser on all inputs. |
| `ArchiveTool.ReadChain` | lib/app_archive/src/lib.rs:612-628 | The same for the certificate chain. |
| `ArchiveTool.ReadSignature` | lib/app_archive/src/lib.rs:590-645 | The same for the signature block. |
| `ArchiveTool.VerifyEntryChunks` | lib/app_archive/src/lib.rs:334-358 | The loop reports the first missing or wrong chunk hash. |
| `ArchiveTool.ParseArchive` | lib/app_archive/src/lib.rs:157-221 | Opening equals the specified parser on all byte strings. |
| `ArchiveFormat.StoredReads` | lib/app_archive/src/lib.rs:287-299 | An uncompressed entry reads the same whatever decompression does, so what was built reads back. |
| `ArchiveTool.ReadEntry` | lib/app_archive/src/lib.rs:287-299 | An entry's bytes after its chunks are checked again: as stored if uncompressed and of the stated size, else what decompression answers. |

## Left out

- SHA-256, BLAKE3 and the keyed hash: parameters that return 32 octets; nothing is assumed of collisions.
- OwnerRuns.RunKeeps: a crash meets one of three fates; that a record is cut off to another state, which needs a beginning that hashes to the all-zero tag, is left to `Persistent.ForgedLoads`.
- RSA key generation and signing, Ed25519, ECDSA and zstd: foreign code; the signer's answer is an input, the answer of decompression a parameter, and the builder stores entries without compression.
- `parse_and_verify`, `read_file_prefix` and `find` of the archive library: easy members on top of what is modelled.
- ArchiveFormat.LocateFooled: the wrapping sum is that of a build without overflow checks; one with them stops there.
- ArchiveSigned.ArchiveRoundTrips: sizes must fit the format's 32- and 64-bit fields; UTF-8 validity of paths is a parameter.
- The sorting algorithm of the standard library: an insertion sort stands for it, and `ArchivePaths.IncreasingUnique` shows that the result is the same.
- HeapAllocator.Heap.Init: regions end before the last address, so that end addresses fit in a word.
- The heap's spin lock: every heap operation is one critical section.
- Image loading, the ELF checks, the manifest's layout and the bank copies of the firmware owner: what they decide is part of the bundle that a seal is given.
- Register decoding of the owner's calls and of the query call, and the pinned buffer's bytes.
- Flushes of the persistent store: writes reach it byte by byte in order.
- SchedRuns.RunSound: tasks arrive ready and without a deadline, no request hangs a group below its own subtree, and times stay below a horizon at which deadlines do not saturate; runs start from a sound state, as a new scheduler is.
- SchedRuns.GrantBound: the origin of a profile and the number of grants are recorded in the model only, for this statement.
- Waiting on handles and signals: a wake takes the list of tasks it wakes; `wait_many_matches` is not modelled.
- The scheduler's snapshot and its restoration, its scheduler-wide ready bitmap, the mirrored priority field and `next_deadline_on_cpu`: derived data or reports.
- CPU masks are sets of CPU numbers; the limits on the number of CPUs, checked when a scheduler is made, and the mask words are not modelled.
- The panicking empty scheduler, which exists only as a placeholder.
- SchedTime.RunTimeIsSubtreeSum: the run relinks no root, since time already charged does not move with a group; `SchedTime.RunTimeIsSum` has no such condition. A time that reaches the saturation limit stays there.
- TransplantProgress.QuietFinishes: records fit a packet and sequence numbers do not run out; a turn that is late or may not complete abandons, as the rows on turns state.
- SchedSettings.AccountPays: sums that would pass the saturation limit are left to the saturating functions; the same holds of SchedSettings.ChargedRuns and SchedSettings.RefilledFull.
- The bodies of runtime records and `validate_live_snapshot`: a record is an opaque byte string under its key.
- The final part of `finish` and the hand-over page: what is proved is the state in which copying decides to finish, and the receipt.
- Clocks and the session's time limits: a turn is told whether it is on time and whether the bulk phase may complete.
- Zeroing of allocated pages, and `Frames::new` with the boot hand-off's ranges, beyond the range fill itself.
- `read_snapshot` and `write_snapshot` of the frame table: easy members.
- The kernel's system calls, drivers, loaders and user-space services: not part of this model.
