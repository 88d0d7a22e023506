# A verified model of aufs

aufs (version 3.10-20141215, `recipes-kernel/linux/linux-imx-3.10.17/`) is a union file system of the
Linux kernel: it shows a stack of lower directories, its *branches*, as one tree. An entry of an upper
branch covers those below it, a *whiteout* `.wh.x` hides `x` below, an *opaque* directory covers the
directories below it. This project models the algorithms behind that picture and proves what they promise
of every directory content, every failing lower operation, every interleaving or every reachable state.

`dafny verify dfyconfig.toml` checks the project.

| file | component |
|---|---|
| `Basics.dfy` | shared datatypes |
| `Layers.dfy` | the union as it is meant to be: which layer provides a name |
| `Lookup.dfy` | lookup over the layers, the private data of a dentry, whether a whiteout is needed |
| `NameHash.dfy` | the hash tables of readdir |
| `VdirBlocks.dfy` | the packed blocks of directory entries and the cursor that delivers them |
| `Readdir.dfy` | merged readdir and the emptiness test, against lookup |
| `Rename.dfy` | rename on the target branch, with rollback |
| `EntryOps.dfy` | unlink and mkdir, state by state |
| `MoveDown.dfy` | moving a file to a lower branch |
| `Runs.dfy` | whole runs of unlink, mkdir, rename and move-down over several directories, each by itself |
| `DirContent.dfy` | what is in a directory that was just made or renamed |
| `Xib.dfy` | the bitmap of inode numbers |
| `InodeNumbers.dfy` | giving inode numbers, by many threads |
| `Reindex.dfy` | re-indexing cached lower entries in place |
| `Branches.dfy` | branch ids and the branch arrays |
| `DentryWalk.dfy` | the tree walk without a stack, and the refresh at remount |
| `Reval.dfy` | revalidating a stale path |
| `CopyDirs.dfy` | creating missing ancestors |
| `CopyFile.dfy` | sparse copy under short I/O |
| `PlinkMaint.dfy` | the pseudo-link maintenance protocol |
| `BranchPerm.dfy` | branch permissions as text |

A layer is a finite map of raw names to lower inodes; whiteouts are raw names in it. Each lower operation
is a step that either takes effect or fails without any; which steps fail is a parameter, so a statement
about a method holds for every pattern of failures. Loops of the source are loops here, its structures are
classes, and each method is proved equal to a specification function or against a predicate about which
the lemmas speak.

The parts meet in `Runs.RunRefines` and `Runs.RunListing`: in every state of every run of the operations that
change layers, the layered directories show exactly what plain directories would, readdir lists exactly that
and lookup finds exactly that.

## Premises

- Layers are well formed (`Layers.WellFormed`): no whiteout-able layer holds both a name and its whiteout,
  and whiteouts are regular files. Where a theorem does not need this, it does not ask for it.
- Lookup, unlink, mkdir, rename and move-down are stated for names that do not begin with `.wh.`, the names
  lookup accepts. SHWH is off.
- A readdir block holds the longest name (`CalcSize(w, 255) <= sz`), and names are not empty.
- Reads and writes of the inode bitmap move whole pages.
- A run (`Runs.IsRun`) consists of operations for which `Runs.Harmless` holds: no reverting operation fails too;
  a whiteout can be removed that a file was moved down onto; a file is not moved below a whiteout of its parent
  for good; a renamed directory has no second copy above a whiteout; and the destination of a rename has no
  whiteout on the target branch while its parent is on a branch above too. The last three can be seen before
  the call, and `Runs.MvdownRefines` and `Runs.RenExact` prove that the operation is right exactly then. What
  happens otherwise is stated beside each operation: `EntryOps.Parent.Unlink`, `EntryOps.Parent.Mkdir`,
  `Rename.RenArgs.DoRename`, `Lookup.NeedWhExact`, `MoveDown.Mover.DoMvdown`, `Runs.MvdownStays`.
- The branches change only through aufs (no outside edits).
- The configuration has FHSM and XATTR.

## Where the code does other than one would expect

The code is modelled as it is. For each of these there is the exact condition and an example that shows it.

- `au_di_cp` hands a recorded whiteout to the second lookup of `au_wr_dir_need_wh`, which then counts
  nothing. For a directory with a copy between its topmost one and that whiteout the answer is wrong
  (`Lookup.NeedWhExact`, `Lookup.NeedWhMisses`); for files it is always right (`EntryOps.NeedWhRightForFiles`).
- A fresh lookup does not stop at an opaque directory, and `di_bdiropq` is the lowest opaque copy, so an
  opaque directory above another opaque one is merged with what lies between (`Lookup.DirRangeExact`,
  `Lookup.SecondOpaqueCopyIsMerged`). So a directory made over a whiteout merges with a hidden opaque one at
  the next lookup (`EntryOps.MkdirShowsOne`, `EntryOps.MkdirMergesHidden`), and a renamed one may
  (`Rename.RenArgs.RenamedDirRange`).
- `aufs_rename` looks for the destination's whiteout only if the destination's dentry starts at the target
  branch. The negative dentry of a removed name starts at the first branch the parent is on. Otherwise the
  whiteout stays beside the renamed file and both names are gone (`Rename.RenArgs.KeepsWhExact`,
  `Runs.RenExact`, `Rename.LoseBoth`).
- readdir lists an entry called `.wh.`, lookup refuses it (`Readdir.ReaddirAgreesWithLookup`,
  `Readdir.PrefixIsListed`).
- `au_test_empty` lets whiteouts of branches count whose permission says they do not
  (`Readdir.AgreeIffWhable`, `Readdir.TestEmptyIgnoresPermission`), and so does the check before a directory is
  renamed, which may then lose what it showed (`DirContent.MayRenameIffWhable`, `DirContent.UncountedRenames`).
- mkdir goes on with its rollback when the whiteout cannot be made again, and so uncovers what it hid
  (`EntryOps.Parent.Mkdir`, `EntryOps.MkdirUncovers`).
- Move-down does not look for a whiteout of the parent between the two branches; the file then vanishes
  (`MoveDown.Mover.DoMvdown`, `MoveDown.MvdownLoses`).
- `au_ino` takes a mutex of the branch, but branches on one file system share a table
  (`InodeNumbers.SafeIffApart`, `InodeNumbers.Race`).
- `au_do_copy_file` reports success when the byte that makes a trailing hole on NFS was not written
  (`CopyFile.AlwaysRight`, `CopyFile.LosingLoses`).

## Model

| member | source | states |
|---|---|---|
| Layers.FindMeaning | recipes-kernel/linux/linux-imx-3.10.17/aufs/dentry.c:42-116 | a name is provided exactly when some layer holds it and no layer down to that one hides it; the providing layer is the topmost such |
| Lookup.WalkFinds | recipes-kernel/linux/linux-imx-3.10.17/aufs/dentry.c:131-231 | without a recorded whiteout, lookup over well-formed layers counts a positive entry exactly when the union provides the name |
| Lookup.StaleWhiteoutHidesAll | recipes-kernel/linux/linux-imx-3.10.17/aufs/dentry.c:188-196 | a whiteout index left in the private data makes every later lookup count nothing, whatever the layers hold |
| Lookup.FreshLookupMeaning | recipes-kernel/linux/linux-imx-3.10.17/aufs/dentry.c:131-231 | a fresh positive lookup caches exactly the contributing layers; start, end, whiteout and opaque index are the providing layer, the lowest copy, the whiteout that ended a directory and the lowest opaque copy |
| Lookup.DirLookupMeaning | recipes-kernel/linux/linux-imx-3.10.17/aufs/dentry.c:131-231 | the lookup of a dentry that is a directory already caches exactly the copies that no opaque copy is above; its opaque index is the topmost opaque copy, where its range ends, or its range ends at the lowest copy |
| Lookup.FileLookup | recipes-kernel/linux/linux-imx-3.10.17/aufs/dentry.c:131-231 | any other entry is looked up in its topmost copy alone |
| Lookup.UpdateDbstartMeaning | recipes-kernel/linux/linux-imx-3.10.17/aufs/dinfo.c:497-513 | the start moves to the first positive slot and exactly the slots before it are emptied |
| Lookup.DirRangeExact | recipes-kernel/linux/linux-imx-3.10.17/aufs/dinfo.c:374-400 | the layer range of a directory ends at its topmost opaque copy if and only if it has a single opaque copy; without one it reaches the lowest copy |
| Lookup.SecondOpaqueCopyIsMerged | recipes-kernel/linux/linux-imx-3.10.17/aufs/dentry.c:206-218 | a stack in which layers below an opaque directory are merged because a lower copy is opaque too |
| Lookup.ContributesIsMerged | recipes-kernel/linux/linux-imx-3.10.17/aufs/dentry.c:172-219 | for every layer: a fresh lookup caches it and the layer range reaches it exactly if it holds a copy and no opaque copy is above it, or an opaque copy is at or below it as well |
| Lookup.CoveredMergesNothing | recipes-kernel/linux/linux-imx-3.10.17/aufs/dentry.c:51-77 | a whiteout with no copy above it keeps every layer out of the lookup, also in states in which a copy lies beside it |
| Lookup.OnlyLayer | recipes-kernel/linux/linux-imx-3.10.17/aufs/dinfo.c:374-400 | a directory put on top, opaque if there are directories below, is merged from its layer alone if and only if none of those is opaque |
| Lookup.HiddenLookup | recipes-kernel/linux/linux-imx-3.10.17/aufs/dentry.c:78-99 | a lookup ended by a whiteout leaves the dentry at the first layer there is, with a negative slot: that is the whiteout's layer if and only if no layer is above it |
| Lookup.NeedWhSound | recipes-kernel/linux/linux-imx-3.10.17/aufs/i_op_del.c:60-76 | without a recorded whiteout, a new whiteout is called for exactly when removing the topmost copy would let a lower one show |
| Lookup.NeedWhExact | recipes-kernel/linux/linux-imx-3.10.17/aufs/i_op_del.c:60-76 | for every freshly looked-up entry the answer is right if and only if no whiteout is recorded or nothing between the topmost copy and it holds the name |
| Lookup.NeedWhMisses | recipes-kernel/linux/linux-imx-3.10.17/aufs/i_op_del.c:60-76 | a directory on two layers above a whiteout: no whiteout is called for, but the second copy would show |
| Lookup.Dentry.DoLookup | recipes-kernel/linux/linux-imx-3.10.17/aufs/dentry.c:42-116 | one layer: result, cached slot, range, whiteout and opaque index are those of the specification function, in the error cases too |
| Lookup.Dentry.DropLeadingNegatives | recipes-kernel/linux/linux-imx-3.10.17/aufs/dinfo.c:497-513 | the loop does what the specification function does |
| Lookup.Dentry.WalkLayers | recipes-kernel/linux/linux-imx-3.10.17/aufs/dentry.c:172-219 | the loop over the layers, with its early exits and the changing type filter, is the recursive walk |
| Lookup.Dentry.LkupDentry | recipes-kernel/linux/linux-imx-3.10.17/aufs/dentry.c:131-231 | refused names change nothing; otherwise the count, the private data and the EIO answers are the walk's; for a fresh dentry the answer is positive exactly if the union provides the name, and exactly the right layers are cached: those of a file, of a dentry that becomes a directory, and of one that is a directory already |
| Lookup.Dentry.WrDirNeedWh | recipes-kernel/linux/linux-imx-3.10.17/aufs/i_op_del.c:60-76 | the private data is swapped out and back unchanged, and the answer is that of a lookup from the next layer on with the copied indices |
| VdirBlocks.SizeIsLeast | recipes-kernel/linux/linux-imx-3.10.17/aufs/vdir.c:24-27 | an entry takes the least multiple of the word that holds the inode number, a byte of type, a byte of length and the name |
| VdirBlocks.ParseAppend | recipes-kernel/linux/linux-imx-3.10.17/aufs/vdir.c:300-347 | storing an entry over the terminator of a block adds exactly that entry behind those the block held |
| VdirBlocks.TailAtBoundary | recipes-kernel/linux/linux-imx-3.10.17/aufs/vdir.c:41-47 | from the start of an entry on, a block holds exactly the entries whose offset is at least that |
| VdirBlocks.FlatHead | recipes-kernel/linux/linux-imx-3.10.17/aufs/vdir.c:271-298 | entries run from block to block in order |
| VdirBlocks.CursorTail | recipes-kernel/linux/linux-imx-3.10.17/aufs/vdir.c:766-775 | a cursor and the file position it stands for leave the same entries to deliver, at the end of a block too |
| VdirBlocks.RestHit | recipes-kernel/linux/linux-imx-3.10.17/aufs/vdir.c:778-831 | a search that starts from an entry's own position stops exactly there |
| VdirBlocks.HandedOverAt | recipes-kernel/linux/linux-imx-3.10.17/aufs/vdir.c:833-879 | what was handed over is a prefix of what was to come, in order, each once, and each came with a position from which exactly it and its successors remain |
| VdirBlocks.HandOverMore | recipes-kernel/linux/linux-imx-3.10.17/aufs/vdir.c:833-879 | deliveries of successive calls join without loss or repetition |
| VdirBlocks.StartRests | recipes-kernel/linux/linux-imx-3.10.17/aufs/vdir.c:619-672 | position 0 leaves all entries |
| VdirBlocks.StoreDe | recipes-kernel/linux/linux-imx-3.10.17/aufs/vdir.c:329-341 | the stores of one entry leave the bytes before it, the entry itself, and a terminator behind it |
| VdirBlocks.Vdir.constructor | recipes-kernel/linux/linux-imx-3.10.17/aufs/vdir.c:362-400 | a new vdir has one block and no entries |
| VdirBlocks.Vdir.AppendDeblk | recipes-kernel/linux/linux-imx-3.10.17/aufs/vdir.c:271-298 | a fresh block is added and no entry changes |
| VdirBlocks.Vdir.PutDe | recipes-kernel/linux/linux-imx-3.10.17/aufs/vdir.c:329-341 | the entries are the old ones and the new one |
| VdirBlocks.Vdir.AppendDe | recipes-kernel/linux/linux-imx-3.10.17/aufs/vdir.c:300-347 | any entry with a name of 1 to 255 bytes is appended behind all others, opening blocks as needed, and there is room for a terminator again |
| VdirBlocks.Vdir.Rewind | recipes-kernel/linux/linux-imx-3.10.17/aufs/vdir.c:658-664 | after a successful fill the cursor is at the start and position 0 is a resting position that leaves all entries |
| VdirBlocks.Vdir.ScanBlock | recipes-kernel/linux/linux-imx-3.10.17/aufs/vdir.c:809-821 | the scan stops at the first entry at or behind the wanted position |
| VdirBlocks.Vdir.SeekVdir | recipes-kernel/linux/linux-imx-3.10.17/aufs/vdir.c:778-831 | the cursor ends where exactly the entries at or behind the file position remain; on an entry's own position it ends in step with it; failure means nothing remains |
| VdirBlocks.Vdir.NextEntry | recipes-kernel/linux/linux-imx-3.10.17/aufs/vdir.c:847-877 | stepping over the ends of blocks loses no entry and keeps the file position in step |
| VdirBlocks.Vdir.Deliver | recipes-kernel/linux/linux-imx-3.10.17/aufs/vdir.c:847-877 | the loop hands over the next entries in order until the consumer refuses or nothing is left |
| VdirBlocks.Vdir.FillDe | recipes-kernel/linux/linux-imx-3.10.17/aufs/vdir.c:833-879 | one call from any position: the next entries in order, each once; from a resting position each comes with a position that resumes at it and the call ends where the entries not taken begin; from any other the positions handed over and the one it ends at, if in the first block, are off by the distance to the next entry, those in later blocks are right |
| VdirBlocks.Vdir.FillDes | recipes-kernel/linux/linux-imx-3.10.17/aufs/vdir.c:833-879 | any number of calls, stopped anywhere: together they deliver a prefix of the entries, each once |
| NameHash.HeldInOwnChain | recipes-kernel/linux/linux-imx-3.10.17/aufs/vdir.c:173-188 | a name is in the table exactly when it is in the chain its bytes select |
| NameHash.Table.constructor | recipes-kernel/linux/linux-imx-3.10.17/aufs/vdir.c:75-92 | a new table holds no name |
| NameHash.Table.TestKnown | recipes-kernel/linux/linux-imx-3.10.17/aufs/vdir.c:197-228 | searching one chain decides membership in the whole table |
| NameHash.Table.Append | recipes-kernel/linux/linux-imx-3.10.17/aufs/vdir.c:241-269 | exactly the given name is added |
| NameHash.Table.Hash | recipes-kernel/linux/linux-imx-3.10.17/aufs/vdir.c:173-188 | the loop sums the bytes of the name |
| Readdir.FillName | recipes-kernel/linux/linux-imx-3.10.17/aufs/vdir.c:450-502 | one layer, in any order of its entries: a name is added exactly if it is there and neither listed nor hidden from above, a whiteout counts exactly if the layer is whiteout-able and not the last |
| Readdir.FillLayersName | recipes-kernel/linux/linux-imx-3.10.17/aufs/vdir.c:573-604 | after any number of layers exactly the names seen so far are listed and exactly those hidden from above are known to be |
| Readdir.ReaddirMeaning | recipes-kernel/linux/linux-imx-3.10.17/aufs/vdir.c:549-617 | for every order of the lower entries the merge lists exactly the names the union provides, each once |
| Readdir.DotsListed | recipes-kernel/linux/linux-imx-3.10.17/aufs/vdir.c:450-502 | the dots are listed if there is a layer, and no layer has a whiteout of them |
| Readdir.ReaddirAgreesWithLookup | recipes-kernel/linux/linux-imx-3.10.17/aufs/vdir.c:464-465 | readdir lists a name exactly if lookup finds it, if and only if it is not an existing entry called ".wh." |
| Readdir.PrefixIsListed | recipes-kernel/linux/linux-imx-3.10.17/aufs/vdir.c:464-465 | a layer with an entry ".wh." that readdir lists and lookup refuses |
| Readdir.TestLayersMeaning | recipes-kernel/linux/linux-imx-3.10.17/aufs/dir.c:542-614 | the emptiness test knows exactly the hidden names and passes exactly if every other entry below the given layer is hidden; for both of its entry points |
| Readdir.TestEmptyMeaning | recipes-kernel/linux/linux-imx-3.10.17/aufs/dir.c:591-614 | the test passes exactly if nothing would be visible were every layer whiteout-able |
| Readdir.TestEmptyIsReaddirEmpty | recipes-kernel/linux/linux-imx-3.10.17/aufs/dir.c:591-614 | an empty listing passes the test; the converse holds when whiteouts lie only in whiteout-able layers, for different orders even |
| Readdir.AgreeIffWhable | recipes-kernel/linux/linux-imx-3.10.17/aufs/dir.c:445-458 | test and listing agree for all contents and orders if and only if every layer above another one is whiteout-able |
| Readdir.TestEmptyIgnoresPermission | recipes-kernel/linux/linux-imx-3.10.17/aufs/dir.c:445-458 | a stack in which the test passes although readdir lists a file |
| Readdir.ListedFromTop | recipes-kernel/linux/linux-imx-3.10.17/aufs/vdir.c:471-481 | every listed name carries the inode number and type of the layer that provides it |
| Readdir.FillArg.Fillvdir | recipes-kernel/linux/linux-imx-3.10.17/aufs/vdir.c:450-502 | one callback changes the blocks and both tables as the specification says; it fails exactly if a name that is neither listed nor hidden has no inode number |
| Readdir.FillArg.ReadChunk | recipes-kernel/linux/linux-imx-3.10.17/aufs/vdir.c:597-602 | one vfsub_readdir merges its entries in order and reports whether it was called back |
| Readdir.FillArg.ReadLayer | recipes-kernel/linux/linux-imx-3.10.17/aufs/vdir.c:596-603 | the repeated calls merge all of a layer's entries |
| Readdir.DoReadVdir | recipes-kernel/linux/linux-imx-3.10.17/aufs/vdir.c:549-617 | the blocks hold the merged names in order, each made from an entry of the layer that added it |
| Readdir.ReadDirectory | recipes-kernel/linux/linux-imx-3.10.17/aufs/vdir.c:619-879 | fill, rewind and any number of deliveries: no name is delivered twice and only visible ones are, with the inode number and type of the layer that provides them; once a call delivers less than it has room for, all of them have been, the dots included; it only fails if some entry has no inode number |
| Readdir.TestEmptyCb | recipes-kernel/linux/linux-imx-3.10.17/aufs/dir.c:431-464 | one callback of the emptiness test, with ENOTEMPTY exactly when the specification has none |
| Readdir.DoTestEmpty | recipes-kernel/linux/linux-imx-3.10.17/aufs/dir.c:466-497 | one layer, called until a call delivers nothing, stopped by the first error |
| Readdir.AuTestEmpty | recipes-kernel/linux/linux-imx-3.10.17/aufs/dir.c:591-614 | ENOTEMPTY exactly when the test over all layers fails |
| Readdir.AuTestEmptyLower | recipes-kernel/linux/linux-imx-3.10.17/aufs/dir.c:542-589 | the same, the first layer being read for its whiteouts only |
| Rename.RenArgs.RenamedMeaning | recipes-kernel/linux/linux-imx-3.10.17/aufs/i_op_ren.c:267-363 | after success: source gone, destination is the old source entry, opaque if it was or had to be, whiteout for the source iff asked for, none for the destination, a replaced directory only under the temporary name, all other entries unchanged |
| Rename.RenArgs.RenameInUnion | recipes-kernel/linux/linux-imx-3.10.17/aufs/i_op_ren.c:267-363 | in the union of both parents the destination is the source entry unless its own whiteout is left beside it, the source name is gone exactly if a whiteout was made or nothing lies below, every other name resolves as before |
| Rename.RenArgs.KeepsWhExact | recipes-kernel/linux/linux-imx-3.10.17/aufs/i_op_ren.c:739-892 | with the flag as the lookup of the destination sets it, the destination's whiteout is overlooked if and only if it is on the target branch and the parent is on a branch above too |
| Rename.RenArgs.AnswerableExact | recipes-kernel/linux/linux-imx-3.10.17/aufs/i_op_ren.c:900-945 | with the flag as au_wr_dir_need_wh sets it, the source name stays in view if and only if the source is a directory with a second copy above a recorded whiteout |
| Rename.RenArgs.RenamedDirRange | recipes-kernel/linux/linux-imx-3.10.17/aufs/i_op_ren.c:322-346 | a renamed directory is merged from the target branch alone if and only if no layer below holds an unhidden opaque directory of the destination's name |
| Rename.RenArgs.RenamedOpaque | recipes-kernel/linux/linux-imx-3.10.17/aufs/i_op_ren.c:322-346 | a renamed directory is opaque exactly if it was, if the option asks for it, or if there is a whiteout of its new name, an opaque directory replaced or a copy below |
| Rename.RenArgs.Forward | recipes-kernel/linux/linux-imx-3.10.17/aufs/i_op_ren.c:277-364 | each failing step leaves exactly the state of the steps before it and names the label to jump to |
| Rename.RenArgs.RevDiropq | recipes-kernel/linux/linux-imx-3.10.17/aufs/i_op_ren.c:105-115 | the opaque mark is taken back and the dentry's index restored |
| Rename.RenArgs.RevRenameSrc | recipes-kernel/linux/linux-imx-3.10.17/aufs/i_op_ren.c:117-137 | the source is back under its name, or still where it was when that fails |
| Rename.RenArgs.RevWhtmpRen | recipes-kernel/linux/linux-imx-3.10.17/aufs/i_op_ren.c:151-175 | a directory set aside is back under its name unless that name is taken |
| Rename.RenArgs.RevWhSrcUnlink | recipes-kernel/linux/linux-imx-3.10.17/aufs/i_op_ren.c:177-186 | the new whiteout is removed and the index restored |
| Rename.RenArgs.Rollback | recipes-kernel/linux/linux-imx-3.10.17/aufs/i_op_ren.c:366-388 | from whichever label, with working reverts the branch is as before but for an overwritten non-directory; with any failures nothing is lost |
| Rename.RenArgs.DoRename | recipes-kernel/linux/linux-imx-3.10.17/aufs/i_op_ren.c:267-395 | all or nothing: a failed rename restores branch and indices if and only if it was not the removal of the destination's whiteout that failed after a non-directory was overwritten, which no well-formed layer allows (WellFormedIsSane); it fails exactly if a step it takes fails or an opaque source is to be made opaque; success leaves the indices as they should be |
| Rename.RenArgs.WellFormedIsSane | recipes-kernel/linux/linux-imx-3.10.17/aufs/i_op_ren.c:267-395 | on well-formed layers neither name lies beside its own whiteout: the case in which a failed rename cannot be undone does not arise |
| Rename.LoseBoth | recipes-kernel/linux/linux-imx-3.10.17/aufs/i_op_ren.c:739-892 | a rename that succeeds after which neither name is left |
| EntryOps.ShownIsFound | recipes-kernel/linux/linux-imx-3.10.17/aufs/dentry.c:131-231 | the topmost layer a lookup merges is the one that provides the name |
| EntryOps.Parent.Unlink | recipes-kernel/linux/linux-imx-3.10.17/aufs/i_op_del.c:298-391 | in every state on the way, rollback included, only this name changes, lookup merges no layer it did not merge before when the whiteout question was answered right, and success hides the name exactly then; a failed unlink whose revert works restores the layers; it fails exactly if one of its steps does |
| EntryOps.NeedWhRightForFiles | recipes-kernel/linux/linux-imx-3.10.17/aufs/i_op_del.c:34-81 | for a freshly looked-up file the whiteout question is always answered right |
| EntryOps.Parent.Mkdir | recipes-kernel/linux/linux-imx-3.10.17/aufs/i_op_add.c:644-738 | in every state on the way lookup merges nothing hidden, if and only if no hidden directory below is opaque, or the whiteout is not taken away, and not both making the inode and making the whiteout again fail while the rollback goes on; a failed mkdir whose reverts work restores the layer |
| EntryOps.Parent.Epilog | recipes-kernel/linux/linux-imx-3.10.17/aufs/i_op_add.c:30-84 | the whiteout is removed, and made again when the inode cannot be made |
| EntryOps.MkdirShowsOne | recipes-kernel/linux/linux-imx-3.10.17/aufs/i_op_add.c:644-738 | after success the name is the new directory and all other names resolve as before; a lookup merges it with nothing below if and only if no layer below holds an unhidden opaque directory of its name |
| EntryOps.MkdirMergesHidden | recipes-kernel/linux/linux-imx-3.10.17/aufs/dentry.c:206-218 | an opaque directory under a whiteout with which the next lookup merges a directory made over it |
| EntryOps.MkdirUncovers | recipes-kernel/linux/linux-imx-3.10.17/aufs/i_op_add.c:30-84 | a file under a whiteout that a failing mkdir leaves in view |
| EntryOps.UnlinkStates | recipes-kernel/linux/linux-imx-3.10.17/aufs/i_op_del.c:335-366 | which of the states of unlink show nothing new |
| EntryOps.OnlyNameSeen | recipes-kernel/linux/linux-imx-3.10.17/aufs/dentry.c:172-219 | in each of these states lookup merges for every name exactly the layers the statements speak of |
| EntryOps.WithShows | recipes-kernel/linux/linux-imx-3.10.17/aufs/i_op_add.c:679-727 | which of the states of mkdir let lookup merge nothing new, exactly |
| MoveDown.IntermediateMeaning | recipes-kernel/linux/linux-imx-3.10.17/aufs/mvdown.c:428-447 | the check finds the next lower copy, or else the first lower whiteout |
| MoveDown.CheckArgs | recipes-kernel/linux/linux-imx-3.10.17/aufs/mvdown.c:399-525 | the error for each case: an opaque ancestor, a whiteout or a copy between the branches, an existing target that may not be overwritten; none exactly if there is none of these |
| MoveDown.ChecksPass | recipes-kernel/linux/linux-imx-3.10.17/aufs/mvdown.c:449-513 | then no merged layer between source and destination holds or hides the name |
| MoveDown.WithParentShows | recipes-kernel/linux/linux-imx-3.10.17/aufs/wbr_policy.c:104-199 | making the parent on the destination branch changes no name, and merges that branch unless the parent has a whiteout above it |
| MoveDown.Mover.CopyDown | recipes-kernel/linux/linux-imx-3.10.17/aufs/cpup.c:887-913 | copying under a temporary name and renaming shows nothing until the upper file goes; a failed copy leaves nothing behind, or its temporary file if that cannot be removed; it fails exactly if a step does or the target stands in the way |
| MoveDown.RemovedShows | recipes-kernel/linux/linux-imx-3.10.17/aufs/mvdown.c:277-290 | once the upper file is gone the name shows the copy exactly if the destination branch is merged |
| MoveDown.Mover.DoMvdown | recipes-kernel/linux/linux-imx-3.10.17/aufs/mvdown.c:318-347 | in every state every name shows what it did, if and only if the file is not finally removed above a destination that a whiteout of the parent keeps out of the merge; it fails exactly if a step does, the target stands in the way or the parent is stale |
| MoveDown.MvdownLoses | recipes-kernel/linux/linux-imx-3.10.17/aufs/mvdown.c:318-347 | a parent with a whiteout between the branches: all checks pass and the file is gone |
| MoveDown.LookupIsSound | recipes-kernel/linux/linux-imx-3.10.17/aufs/dinfo.c:374-400 | a fresh lookup of a directory in the layers of its parent leaves private data in which no branch between its range and its whiteout holds it, if and only if the directory ends at a whiteout or an opaque copy, or no branch below those its parent is merged from holds it |
| Runs.UnlinkRefines | recipes-kernel/linux/linux-imx-3.10.17/aufs/i_op_del.c:298-391 | on well-formed layers an unlink from a fresh lookup on removes exactly that name from the directory as a plain one, a failed one changes nothing, and the layers stay well formed |
| Runs.MkdirRefines | recipes-kernel/linux/linux-imx-3.10.17/aufs/i_op_add.c:644-738 | a mkdir adds exactly that entry, a failed one adds nothing, and the layers stay well formed; what the new directory contains is in DirContent.MadeIsEmpty |
| Runs.RenExact | recipes-kernel/linux/linux-imx-3.10.17/aufs/i_op_ren.c:739-945 | a successful rename within or between directories moves exactly that entry and leaves the layers well formed, if and only if the source is not a directory with a second copy above a whiteout and the destination's whiteout is not on the target branch with the parent on a branch above |
| Runs.RenRefines | recipes-kernel/linux/linux-imx-3.10.17/aufs/i_op_ren.c:267-395 | the same of the steps of rename; a failed one whose reverts work changes nothing |
| Runs.MvdownRefines | recipes-kernel/linux/linux-imx-3.10.17/aufs/mvdown.c:318-347 | a move down leaves the plain directory as it is, wherever it stops, if and only if it does not remove the file above a destination that a whiteout of the parent keeps out of the merge |
| Runs.MvdownStays | recipes-kernel/linux/linux-imx-3.10.17/aufs/mvdown.c:318-347 | the layers stay well formed if and only if the move does not stop before it has removed the whiteout it copied the file beside |
| Runs.StepRefines | recipes-kernel/linux/linux-imx-3.10.17/aufs/i_op_ren.c:267-395 | each of the four operations, outside the cases found above, is that operation on plain directories when it succeeds and nothing when it fails |
| Runs.RunRefines | recipes-kernel/linux/linux-imx-3.10.17/aufs/Kconfig:3-6 | the merged single directory the file system promises: over every run of the operations outside those cases, whichever steps fail as long as their reverts work, the layered directories are what the same operations make of plain ones, and the layers stay well formed; an operation fails exactly if it comes to a step that does |
| Runs.NoFailureSucceeds | recipes-kernel/linux/linux-imx-3.10.17/aufs/i_op_ren.c:267-395 | where no lower operation fails, unlink and mkdir succeed, a rename does but for an opaque directory over another opaque copy, a move down does but onto a stale parent or a target in the way |
| Runs.RunListing | recipes-kernel/linux/linux-imx-3.10.17/aufs/vdir.c:549-617 | after every run readdir lists, in whatever order the lower directories come, exactly the names of the plain directory, each once, and lookup finds exactly these |
| Runs.Union.Unlink | recipes-kernel/linux/linux-imx-3.10.17/aufs/i_op_del.c:298-391 | lookup, the whiteout question and the steps of unlink, with the layers they leave, do such an operation |
| Runs.Union.Mkdir | recipes-kernel/linux/linux-imx-3.10.17/aufs/i_op_add.c:644-738 | the steps of mkdir do such an operation |
| Runs.Union.Rename | recipes-kernel/linux/linux-imx-3.10.17/aufs/i_op_ren.c:267-395 | the steps of rename, with the layers they leave, do such an operation on the target branch of all directories: a failed one gives all of them back as they were |
| Runs.Union.Mvdown | recipes-kernel/linux/linux-imx-3.10.17/aufs/mvdown.c:318-347 | the steps of a move down do such an operation |
| DirContent.OpenedIsGood | recipes-kernel/linux/linux-imx-3.10.17/aufs/dentry.c:131-231 | a directory that was just looked up in well-formed layers is one that runs can start from |
| DirContent.OnlyOwn | recipes-kernel/linux/linux-imx-3.10.17/aufs/dir.c:591-614 | a directory shows exactly what its topmost layer shows, whatever the layers below contain, if and only if it is merged from that layer alone |
| DirContent.MadeIsEmpty | recipes-kernel/linux/linux-imx-3.10.17/aufs/i_op_add.c:644-738 | a made directory is empty, whatever lies below, if and only if no layer below holds an unhidden opaque directory of its name |
| DirContent.MayRenameSrcdir | recipes-kernel/linux/linux-imx-3.10.17/aufs/i_op_ren.c:418-449 | EXDEV exactly when the specification does not let the directory be renamed, with the choice between the two emptiness tests |
| DirContent.MayRenameIffWhable | recipes-kernel/linux/linux-imx-3.10.17/aufs/i_op_ren.c:410-449 | a rename that is let through loses nothing of the directory, whatever it contains, if and only if every branch it is merged from, but the last, is whiteout-able; for directories on the target branch and for those to be copied up |
| DirContent.RenamedKeeps | recipes-kernel/linux/linux-imx-3.10.17/aufs/i_op_ren.c:410-449 | a directory that is let through shows under its new name exactly what it showed before, whatever the other branches hold under that name, if and only if no layer below holds an unhidden opaque directory there |
| Xib.CalcRoundTrip | recipes-kernel/linux/linux-imx-3.10.17/aufs/xino.c:471-487 | number and bit position determine each other |
| Xib.Bitmap.XibPindex | recipes-kernel/linux/linux-imx-3.10.17/aufs/xino.c:489-533 | caching another page changes no bit of the set |
| Xib.Bitmap.ClearBit | recipes-kernel/linux/linux-imx-3.10.17/aufs/xino.c:537-557 | exactly one number leaves the set |
| Xib.Bitmap.FindFirstZeroBit | recipes-kernel/linux/linux-imx-3.10.17/aufs/xino.c:632-634 | the first zero bit of the cached page, or that there is none |
| Xib.Bitmap.ScanDown | recipes-kernel/linux/linux-imx-3.10.17/aufs/xino.c:636-644 | the downward scan with its wrap at page 0 ends with the cached page inside the file |
| Xib.Bitmap.ScanUp | recipes-kernel/linux/linux-imx-3.10.17/aufs/xino.c:646-656 | the upward scan always finds a free bit, so BUG is not reached |
| Xib.Bitmap.NewIno | recipes-kernel/linux/linux-imx-3.10.17/aufs/xino.c:617-672 | exactly one number joins the set, and it was free; it lies behind the pages there are only if all their numbers are used |
| Xib.Bitmap.DoXibRestore | recipes-kernel/linux/linux-imx-3.10.17/aufs/xino.c:861-902 | exactly the numbers of one table join the set |
| Xib.IsSbShared | recipes-kernel/linux/linux-imx-3.10.17/aufs/xino.c:782-795 | another branch on the same file system in the range, or that there is none |
| Xib.Bitmap.XibRestore | recipes-kernel/linux/linux-imx-3.10.17/aufs/xino.c:904-927 | exactly the numbers of all tables join the set, although shared tables are read once |
| Xib.Bitmap.XibTrunc | recipes-kernel/linux/linux-imx-3.10.17/aufs/xino.c:929-979 | after a rebuild a number is used exactly if it is at least AUFS_FIRST_INO and in some table, although the cached page index is not reset; the file is no longer than that asks for; a bitmap of one page is left alone |
| InodeNumbers.Safe | recipes-kernel/linux/linux-imx-3.10.17/aufs/inode.c:301-331 | in every interleaving of calls over branches on different file systems one lower inode gets one number, different ones different numbers, and every stored number is used |
| InodeNumbers.SafeIffApart | recipes-kernel/linux/linux-imx-3.10.17/aufs/inode.c:307-312 | all interleavings are safe if and only if no two branches share a file system |
| InodeNumbers.LocksReleased | recipes-kernel/linux/linux-imx-3.10.17/aufs/inode.c:307-331 | in every run a branch is locked exactly while a call is under way on it |
| InodeNumbers.Race | recipes-kernel/linux/linux-imx-3.10.17/aufs/inode.c:307-331 | two branches of one file system: an interleaving that gives one lower inode two numbers |
| InodeNumbers.Numbers.AuIno | recipes-kernel/linux/linux-imx-3.10.17/aufs/inode.c:301-331 | a number once stored is kept; a new one was nobody's and is marked used, also when it cannot be stored |
| Reindex.SwapPlaces | recipes-kernel/linux/linux-imx-3.10.17/aufs/dentry.c:427-436 | each swap puts one entry in its place for good: the measure by which the loop ends |
| Reindex.ReindexedMeaning | recipes-kernel/linux/linux-imx-3.10.17/aufs/dentry.c:409-437 | slot by slot: every surviving entry is at its branch's index, nothing else is held, the others were released |
| Reindex.ReleasedOnce | recipes-kernel/linux/linux-imx-3.10.17/aufs/dentry.c:421-425 | an entry of a removed branch is released exactly once and not kept |
| Reindex.BrIndex | recipes-kernel/linux/linux-imx-3.10.17/aufs/branch.c:120-129 | the first branch with the id |
| Reindex.Info.RefreshSlots | recipes-kernel/linux/linux-imx-3.10.17/aufs/dentry.c:409-437 | the in-place loop ends, moves every entry to its branch's index and releases those without one |
| Reindex.Info.UpdateRange | recipes-kernel/linux/linux-imx-3.10.17/aufs/iinfo.c:150-167 | the range is tight |
| Reindex.Info.RefreshHdentry | recipes-kernel/linux/linux-imx-3.10.17/aufs/dentry.c:394-471 | re-indexed, with a tight range within the parent's, and EIO exactly if nothing is left there |
| Reindex.Info.IiRefresh | recipes-kernel/linux/linux-imx-3.10.17/aufs/inode.c:41-101 | re-indexed while the range grows under the loop, with a tight range at the end; update exactly if something was released |
| DentryWalk.WalkLists | recipes-kernel/linux/linux-imx-3.10.17/aufs/dcsub.c:108-180 | the walk lists exactly the wanted dentries in use whose ancestors are in use |
| DentryWalk.WalkOrder | recipes-kernel/linux/linux-imx-3.10.17/aufs/dcsub.c:108-180 | every listed dentry comes after its listed parent |
| DentryWalk.OnePassSuffices | recipes-kernel/linux/linux-imx-3.10.17/aufs/super.c:616-653 | one pass with successful refreshes leaves no listed dentry stale |
| DentryWalk.DirsStayCurrent | recipes-kernel/linux/linux-imx-3.10.17/aufs/super.c:585-614 | while FAILED_REFRESH_DIR is not set, whatever other refreshes fail, every listed directory is current after the pass, and so is the parent of every listed dentry |
| DentryWalk.PassClosed | recipes-kernel/linux/linux-imx-3.10.17/aufs/super.c:585-614 | whatever fails, a current dentry has a current parent |
| DentryWalk.Pages.Append | recipes-kernel/linux/linux-imx-3.10.17/aufs/dcsub.c:71-106 | the pages hold the appended dentry behind all others, across page boundaries |
| DentryWalk.Pages.DcsubPages | recipes-kernel/linux/linux-imx-3.10.17/aufs/dcsub.c:108-180 | the walk without a stack ends and appends exactly the recursive walk, in which a parent is repeated after each child subtree |
| DentryWalk.Super.AuRefreshD | recipes-kernel/linux/linux-imx-3.10.17/aufs/super.c:616-653 | the two loops over pages and entries are the pass, and FAILED_REFRESH_DIR is set exactly if the refresh of a directory was tried and failed, an error returned exactly if that of anything was |
| Reval.Path.RevalDpath | recipes-kernel/linux/linux-imx-3.10.17/aufs/dentry.c:941-987 | exactly the stale dentries below the nearest current one are refreshed, each once, top down, never below a stale parent; it ends, at the first failure or with the whole path current |
| Reval.Path.SimpleRevalDpath | recipes-kernel/linux/linux-imx-3.10.17/aufs/dentry.c:922-939 | only a stale dentry is refreshed, once |
| Branches.Pigeonhole | recipes-kernel/linux/linux-imx-3.10.17/aufs/sbinfo.c:173-190 | more tries than there are ids in use and zero cannot all fail |
| Branches.Super.NewBrId | recipes-kernel/linux/linux-imx-3.10.17/aufs/sbinfo.c:173-190 | below the limit on branches the wrapping counter always yields an id that is not zero and not in use |
| Branches.ShiftUp | recipes-kernel/linux/linux-imx-3.10.17/aufs/branch.c:449-451 | overlapping memmove upwards |
| Branches.ShiftDown | recipes-kernel/linux/linux-imx-3.10.17/aufs/branch.c:923-925 | overlapping memmove downwards |
| Branches.Super.DoAdd | recipes-kernel/linux/linux-imx-3.10.17/aufs/branch.c:489-511 | the three arrays stay one sequence, with the new branch at its index and distinct ids |
| Branches.Super.DoDel | recipes-kernel/linux/linux-imx-3.10.17/aufs/branch.c:976-1006 | the three arrays stay one sequence, without the removed branch |
| Branches.Super.Add | recipes-kernel/linux/linux-imx-3.10.17/aufs/branch.c:513-574 | a branch is added exactly if it is new, the index is in range and the limit is not reached; otherwise nothing changes; with the error or silent success for each case |
| Branches.Super.Del | recipes-kernel/linux/linux-imx-3.10.17/aufs/branch.c:1014-1047 | a branch is removed exactly if it exists, is not the last and not busy; otherwise nothing changes; with the error or silent success for each case |
| PlinkMaint.RunsAreSafe | recipes-kernel/linux/linux-imx-3.10.17/aufs/plink.c:44-117 | in every run at most one process owns the maintenance, and meanwhile everyone in a read section entered with NOPLM or NOPLMW is the owner or its child |
| PlinkMaint.InvKept | recipes-kernel/linux/linux-imx-3.10.17/aufs/plink.c:44-117 | what every step keeps, waking up and taking the lock being two steps, and the owner leaving at any moment |
| PlinkMaint.FlaglessReaderGetsIn | recipes-kernel/linux/linux-imx-3.10.17/aufs/plink.c:67-83 | a run in which a reader without flags is inside a stranger's maintenance |
| PlinkMaint.WaitsAgain | recipes-kernel/linux/linux-imx-3.10.17/aufs/plink.c:71-79 | a run in which a woken reader finds the maintenance taken again when it has the lock, and waits again |
| PlinkMaint.HeldUpByStrangers | recipes-kernel/linux/linux-imx-3.10.17/aufs/plink.c:53-83 | a reader is held up exactly if it has a flag and somebody else than itself and its parent owns the maintenance: NOPLM has it refused, NOPLMW lets it wait |
| PlinkMaint.WaiterGetsIn | recipes-kernel/linux/linux-imx-3.10.17/aufs/plink.c:71-79 | a waiting reader gets in when nobody owns the maintenance and nobody writes; with the lock in hand it goes in or waits again exactly as nobody or somebody owns it |
| CopyFile.AlwaysRight | recipes-kernel/linux/linux-imx-3.10.17/aufs/cpup.c:223-318 | whatever the I/O does, every copy that succeeds makes the first len bytes of the source, if and only if it is not a copy to NFS whose last block is all zeros |
| CopyFile.CopyRight | recipes-kernel/linux/linux-imx-3.10.17/aufs/cpup.c:286-315 | a successful copy is right exactly if the byte for its trailing hole was written, and that is only ever missed on NFS behind a last block of zeros |
| CopyFile.FailsOnlyOnFailure | recipes-kernel/linux/linux-imx-3.10.17/aufs/cpup.c:235-318 | a copy fails exactly if one of the operations it meets fails: interruptions and short transfers never make it fail, and no failure is passed over |
| CopyFile.LosingLoses | recipes-kernel/linux/linux-imx-3.10.17/aufs/cpup.c:290-315 | the reads and writes that make such a copy succeed too short |
| CopyFile.BlocksCopy | recipes-kernel/linux/linux-imx-3.10.17/aufs/cpup.c:235-288 | after the loop the destination, with a hole to the end, is what was to be copied, and ends in a hole only behind a last block of zeros |
| CopyFile.WritingCopies | recipes-kernel/linux/linux-imx-3.10.17/aufs/cpup.c:259-274 | any pattern of short and interrupted writes writes the whole buffer or fails |
| CopyFile.Files.CopyBlock | recipes-kernel/linux/linux-imx-3.10.17/aufs/cpup.c:239-284 | one block, likewise, in the order read, then write or seek |
| CopyFile.Files.CopyBlocks | recipes-kernel/linux/linux-imx-3.10.17/aufs/cpup.c:235-288 | the outer loop, likewise; it ends |
| CopyFile.Files.WriteAll | recipes-kernel/linux/linux-imx-3.10.17/aufs/cpup.c:259-274 | the loop does what the specification function does with the same I/O |
| CopyFile.Files.LastHole | recipes-kernel/linux/linux-imx-3.10.17/aufs/cpup.c:290-315 | the trailing hole, likewise |
| CopyFile.Files.DoCopyFile | recipes-kernel/linux/linux-imx-3.10.17/aufs/cpup.c:223-318 | for any I/O the outcome is the specified one; success is a right copy unless it goes to NFS with a last block of zeros; it fails exactly if an operation it met did |
| CopyDirs.Ancestors.CpDirs | recipes-kernel/linux/linux-imx-3.10.17/aufs/cpup.c:1178-1240 | it ends; cp is called exactly once for each missing ancestor below the nearest existing one, top down, with its own parent present; success means the parent exists and nothing failed; the first failure stops it |
| BranchPerm.ParseLegal | recipes-kernel/linux/linux-imx-3.10.17/aufs/opts.c:308-351 | whatever the text, the permission has one base mode, at most one of coo_reg, coo_all and moo, and no attribute of the wrong mode |
| BranchPerm.ParseMeaning | recipes-kernel/linux/linux-imx-3.10.17/aufs/opts.c:218-351 | for every mode and list of attributes, bit by bit: the mode is the one named, "ro" if it is none; a bit is set exactly if a word before the first unknown one names it and the mode admits it; of coo_reg, coo_all and moo the last one counts |
| BranchPerm.ModeWords | recipes-kernel/linux/linux-imx-3.10.17/aufs/opts.c:218-225 | "rw", "rr" and "ro" by themselves are their modes, any other word is ro |
| BranchPerm.EveryText | recipes-kernel/linux/linux-imx-3.10.17/aufs/opts.c:250-276 | every text is a mode and a list of words |
| BranchPerm.RoundTrip | recipes-kernel/linux/linux-imx-3.10.17/aufs/opts.c:353-374 | printing a legal permission and parsing the text gives the permission back |
| BranchPerm.PrintFits | recipes-kernel/linux/linux-imx-3.10.17/aufs_type.h:190-204 | the text of every legal permission fits the buffer with its NUL, and the longest one fills it |
| BranchPerm.JoinLength | recipes-kernel/linux/linux-imx-3.10.17/aufs/opts.c:278-306 | the length of the attribute text |
| BranchPerm.RowsFold | recipes-kernel/linux/linux-imx-3.10.17/aufs/opts.c:250-276 | the printed attributes, composite one included, add up to the attributes again |
| BranchPerm.AuOptstr | recipes-kernel/linux/linux-imx-3.10.17/aufs/opts.c:201-216 | the first row all of whose bits are set, and the word without them |
| BranchPerm.BrAttrVal | recipes-kernel/linux/linux-imx-3.10.17/aufs/opts.c:250-276 | cutting the text in place gives the attributes of the specification |
| BranchPerm.BrPermVal | recipes-kernel/linux/linux-imx-3.10.17/aufs/opts.c:308-351 | parsing in place gives the permission of the specification, bit by bit what its words mean, and it is legal |
| BranchPerm.AuDoOptstrBrAttr | recipes-kernel/linux/linux-imx-3.10.17/aufs/opts.c:278-306 | the buffer holds exactly the attribute text and its NUL, and is never overrun |
| BranchPerm.AuOptstrBrPerm | recipes-kernel/linux/linux-imx-3.10.17/aufs/opts.c:353-374 | a buffer of AuBrPermStrSz bytes holds the text of any legal permission, which parses to it again |

## Left out

- Lookup.Dentry.LkupDentry: models the calls with type 0 on private data without cached slots (aufs_lookup, au_wr_dir_need_wh, au_refresh_dentry, au_mvd_args_intermediate); the reuse of cached lower dentries and the revalidating call are not modelled.
- Lookup.Dentry.DoLookup: errors of the lower lookup and of the test for the opaque mark are not modelled; of the whiteout test only that a whiteout is not a regular file.
- Readdir.ReadDirectory: one open file; the cached list of the inode and its copy for each file are not modelled.
- Reindex.Info.RefreshHdentry: says nothing of `di_bwh` and `di_bdiropq`, which the next lookup of the refreshed dentry computes anew.
- InodeNumbers.Safe: covers non-directories; calls for directories take no mutex and can race like two branches with one table. Deletion of numbers while calls are under way is not modelled.
- DentryWalk.Super.AuRefreshD: a dentry is refreshed or not as a parameter says; which of its fields au_refresh_dentry changes is in Reindex and Lookup.
- CopyDirs.Ancestors.CpDirs: nobody else creates an ancestor while the loop sleeps for a lock.
- Reval.Path.RevalDpath: nobody else refreshes a dentry meanwhile; reference counts are not modelled.
- Branches.Super.Add: of test_add only the duplicate, the index and the count checks; overlap, permissions and the xino file are not modelled.
- Branches.Super.Del: whether a branch is busy is a parameter.
- PlinkMaint.RunsAreSafe: the read entry only; a write lock taken with NOPLMW would release a read lock in its wait loop.
- Xib.Bitmap.NewIno: numbers near 2^64 and errors in the middle of moving a page are excluded.
- MoveDown.Mover.DoMvdown: the ancestors above the parent, timestamps, and the indices of the moved dentry; a failing creation of the parent directory is one step.
- MoveDown.WithParentShows: making the parent directory, its opaque mark and the removal of its whiteout are one step.
- Runs.RunRefines: the directories of a run stand side by side; an entry that is a directory is not linked to the layers of its content within a run, so a replaced directory counts as one entry. What is in a directory just made or renamed is in DirContent.MadeIsEmpty and DirContent.RenamedKeeps.
- Reindex.Info.RefreshSlots: the loop occurs a third time for open directories (`file.c:576-602`), where the range is then also cut to files that still have an inode; that cut is not modelled.
- DirContent.MayRenameSrcdir: read permissions of the lower directories and the helper thread that reads them without (`sio_test_empty`).
- Rename.RenArgs.DoRename: the copy-up before the rename, timestamps, the lower dentries cached in the destination and the asynchronous removal inside a replaced directory.
- EntryOps.Parent.Unlink: choosing the branch and copying up parents come before the modelled steps.
- CopyFile.Files.DoCopyFile: the source keeps at least the promised length; a shorter one makes the read loop spin.
- BranchPerm.BrPermVal: warnings are not modelled.
- rmdir, link, symlink, mknod and create: their steps are those of unlink and mkdir.
- Write-branch policies, statfs summation, FHSM, SHWH, notification and outside changes of branches.
- VFS wrappers, mmap, xattr, sysfs, procfs, ioctl copying, NFS handles, work queues and credentials.
- Memory allocation failures, RCU, lock order and reference counts.
- The recipes, image classes and configuration files of the repository.
