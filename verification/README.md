# CipherFS v2: a verified model

CipherFS v2 packs a directory tree into one encrypted container, reads it back at random positions, changes its
passwords in place and publishes results with one rename. This project models that behaviour in Dafny and proves what
the parts keep, over all inputs, all interleavings and all crash points. `dafny verify dfyconfig.toml` checks it.

## Parts

| files | subject |
|---|---|
| `Common`, `Sequences`, `Layout`, `Names`, `Encodings`, `Totals`, `EntryLists` | machine integers, sums and stable sorting, chunk arithmetic, entry names and their encoded lengths, size totals, entries as lists |
| `Format`, `Binding` | header, index and entry records; associated data, keys and nonces and what they bind |
| `Index`, `IndexProperties` | acceptance of an index: tree, child lists, partition of the data area |
| `Scan`, `WalkedTree`, `Pack`, `SourceFiles`, `PackWriter`, `ContainerWriter`, `PackFile`, `PlatformIo` | from a directory walk to a published container, with parallel writes, short transfers and sources that change meanwhile |
| `KeySlots`, `Container`, `FormatRules`, `Verify` | password slots, the two-write password change, the duress wipe; opening, decrypting, verifying; the limits every opened container keeps |
| `Cache`, `ReadFs`, `ReadAgrees` | range reads through the shared chunk cache, and their agreement with extraction |
| `WindowsText`, `WindowsRules`, `WindowsNames`, `WindowsNameMap`, `DisplayPaths`, `Mount`, `MountedTree` | Windows display names, paths and the mount worklist |
| `StagingFs`, `SafeFs`, `ExtractTree`, `FileOutput`, `Extract`, `OutputNames`, `UnixExtract` | transactional extraction, and which names it accepts |
| `PackedImage`, `RoundTrip` | pack, open, verify and extract together |
| `Frames`, `Publish`, `Progress` | worker pipe, parent and worker processes, progress counts |

## How the model is built

- Classes stand for objects that the program updates in place (`ContainerFile`, `DiskFile`, `SourceFile`, `ChunkCache`,
  `ReadOnlyV2Fs`, `SafeRoot`, `PendingFile`, `ParentDir`, `OutputDir`, `ProgressTracker`, `OperationHandle`, the pipe
  ends). Loops stay loops and are proved against a specification function or predicate.
- Library primitives are symbolic. A byte of a file is a `Cell`, and position *k* of a ciphertext, digest or encoding is
  a cell of its own. This gives the laws the program relies on and no others: a ciphertext is 16 bytes longer, it opens
  for exactly the key, nonce and associated data it was sealed with (section 2.8 of RFC 8439), derived keys are as
  distinct as their inputs (section 2.2 and 2.3 of RFC 5869), decoding undoes encoding. The encoded length of an index
  is a parameter.
- Hash maps are walked, parallel loops run, and directories are listed in an arbitrary order: the next element is any
  element that is left. Cancellation, I/O failures, crashes and other threads are arbitrary choices at every point where
  the code allows them. A flag such as `quiet` or `reliable` marks an environment without unexplained failures, so that
  success can be stated too.
- Random values are parameters with the property the code waits for (fresh file ids, a free private name).
- Preconditions of the reading side are established, not assumed: `Container.OpenEstablishes` gives what `ReadOnlyV2Fs`
  needs from a successful open, `OutputNames.UnixApart` and `OutputNames.WindowsNamesExtract` give what `Extract.ExtractV2`
  needs from any accepted index.
- The names of the operating system hold neither a separator nor a NUL in the round trip (`RoundTrip.OsNames`).
- The fingerprint of a source file is the scanned one exactly while nobody has written the file since the scan.
- `SafeFs.Platform` says which names extraction accepts, which of them the system creates a directory under and moves a
  file to, and which directory entry a name denotes. That a file cannot be moved to a name that ends in a separator is an
  assumption about the capability layer (`OutputNames.SystemFileName`); if it dropped the separator, files `a` and `a/`
  would become one.

## Where properties turned out narrower

- `FORMAT_V2.md` asks for one filename component, but `validate_name` accepts `a/` and `a/.` on Unix, because
  path components drop trailing separators and dots, and it accepts names that hold a NUL. The model follows the code
  (`Names.ValidNameIff`). So not every accepted index can be extracted. An index has a tree exactly if the system tells
  all siblings apart (`ExtractTree.TreeExistsIff`), and on Unix it can be extracted exactly if no name holds a NUL, file
  names hold no separator, directory names hold separators only at the end, and siblings differ before the first
  separator (`OutputNames.UnixExtractable`, `UnixExtract.ExtractOnUnix`). A directory `a` beside a file `a/` ends in
  the duplicate-entry error (`UnixExtract.TwinsAcceptedButNoTree`, `UnixExtract.ExtractTwins`); a directory `a/` alone
  comes out (`UnixExtract.TrailingSeparatorComesOut`); `a` followed by a NUL never does (`UnixExtract.NulNeverComesOut`).
- The (depth, id) order excludes a missing parent for every index, but a duplicate entry only where no file collides with
  a directory handled before it: the error is raised exactly for such names (`Extract.ExtractV2`, `Extract.Clashes`).
- A failed extraction does not always leave the output directory as it was: `open_new_at` opens the private directory
  after creating it, and if that fails no root exists whose drop would remove it (`Extract.ExtractWithoutHandles`). The
  directory is as it was if and only if the private directory was never made, or was removed by the drop of an existing
  root (`Extract.LeftAsItWas`).
- A password change that fails between its two header writes leaves both passwords working: the error does not mean that
  the new password is unknown (`KeySlots.ChangeSafe`, `KeySlots.MasterAlwaysOpens`).
- A replaced Windows name can still look reserved: exactly when a device name stands before a dot of the shortened
  original (`WindowsText.MappedNameStillReserved`).
- A read of 0 bytes at offset 0 of a non-empty file is an error; every other read meets the slice contract
  (`ReadFs.ReadSpec`).
- Two threads that miss one key make the cache counter run ahead of the held bytes (`Cache.RacingMissesOverCount`); it
  stays within twice the limit, and is exact if and only if no store overwrote a held chunk
  (`Cache.ExactUnlessOverwritten`).
- A worker killed between the rename and its acknowledgement leaves an installed output that is reported as an error
  (`Publish.KilledAfterRename`); `Publish.InstalledReport` is the exact condition.
- A cancel request checks for an announced commit and writes its command in separate steps, so a command can follow the
  announcement (`Publish.CancelAfterAnnouncement`); the guarantees of `Publish.PublishSafe` do not depend on it.
- `write_frame` accepts an empty payload that `read_frame` refuses (`Frames.EmptyPayloadDisagrees`).

## Model

| member | source | states |
|---|---|---|
| Layout.EncryptedFileSizeExact | crates/cipherfs-core/src/v2.rs:545-561 | the chunk count is the number of chunk starts below the size, the ciphertext is one tag a chunk longer, and only u64 overflow is refused |
| Layout.RecordInExtent | crates/cipherfs-core/src/v2.rs:813-832 | no offset subtraction underflows and every record ends inside its file's extent, the last one exactly at its end |
| Layout.RecordsTileExtent | crates/cipherfs-core/src/pack.rs:545-579 | each ciphertext byte of a file lies in exactly one record |
| Names.ValidNameIff | crates/cipherfs-core/src/v2.rs:667-677 | the rule accepts exactly a short plain name followed by separators and dots only |
| Names.ValidNameWithoutSeparator | crates/cipherfs-core/src/v2.rs:667-677 | without a separator it is plainness and the 255-byte limit |
| Names.ValidNameIsNotAlwaysPlain | FORMAT_V2.md:41-52 | `a/` is accepted and denotes the same entry as `a` |
| Names.SplitJoin | crates/cipherfs-winfsp/src/lib.rs:97-97 | splitting at the separator undoes joining parts without it |
| Encodings.NameLengths | crates/cipherfs-core/src/v2.rs:667-671 | the lengths that the name rules measure are those of the UTF-8 and UTF-16 encodings of the whole name |
| Encodings.Utf8ReadsBack | crates/cipherfs-core/src/v2.rs:667-671 | the UTF-8 bytes of every character read back as that character, whatever follows |
| Encodings.Utf16ReadsBack | crates/cipherfs-core/src/windows_names.rs:194-201 | the UTF-16 units of every character read back as that character, whatever follows |
| Binding.ChunkAadInjective | crates/cipherfs-core/src/v2.rs:366-377 | the chunk associated data determines container, file, size, chunk index and plaintext length |
| Binding.ImmutableAadInjective | crates/cipherfs-core/src/v2.rs:307-324 | the immutable associated data determines every header field outside the key slots |
| Binding.SlotAadInjective | crates/cipherfs-core/src/v2.rs:326-334 | a slot's associated data determines the layout and the slot's own public fields |
| Binding.NoNonceReuse | crates/cipherfs-core/src/v2.rs:278-299 | index and chunk encryptions of one container never share key and nonce |
| Binding.ChunkOpensOnlyInPlace | crates/cipherfs-core/src/v2.rs:808-850 | a sealed chunk opens only for the container, file, index and length it was sealed for |
| Binding.IndexOpensOnlyInPlace | crates/cipherfs-core/src/v2.rs:693-705 | a sealed index opens only with its own key and under the header it was sealed for, up to the key slots |
| Binding.KeysInjective | crates/cipherfs-core/src/v2.rs:278-299 | derived keys determine the master key, the container and the file |
| Binding.DuressAadInjective | crates/cipherfs-core/src/v2.rs:336-352 | the associated data of the duress verifier determines the layout and its own public fields |
| Binding.LeBytes | crates/cipherfs-core/src/v2.rs:301-305 | a u64 field is its eight bytes, the lowest first |
| Binding.ChunkNonceBytes | crates/cipherfs-core/src/v2.rs:359-364 | a chunk nonce is the bytes of `C2CH` and the little-endian index |
| Binding.ChunkAadBytes | crates/cipherfs-core/src/v2.rs:366-377 | the associated data of a chunk as one byte string, field after field |
| Index.ValidateIndex | crates/cipherfs-core/src/v2.rs:563-665 | the loops accept exactly the indexes that satisfy the rule, and return the id table and child lists |
| Index.ValidateRows | crates/cipherfs-core/src/v2.rs:563-623 | the first loop rejects at the first bad row and otherwise builds the three tables |
| Index.ValidateTree | crates/cipherfs-core/src/v2.rs:625-648 | in any order of the hash map: accepts exactly trees with unique sibling names |
| Index.ValidateExtents | crates/cipherfs-core/src/v2.rs:650-664 | accepts exactly extents that follow one another from 0 to the data size |
| IndexProperties.ReachesRoot | crates/cipherfs-core/src/v2.rs:625-648 | every entry reaches the root in exactly `depth` parent steps, through directories only |
| IndexProperties.ChildrenInverse | crates/cipherfs-core/src/v2.rs:619-623 | `children` is the exact inverse of `parent_id`, without repeats |
| IndexProperties.ExtentsDisjoint | crates/cipherfs-core/src/v2.rs:650-664 | extents of different files of an accepted index never meet |
| IndexProperties.ExtentsCover | crates/cipherfs-core/src/v2.rs:650-664 | every byte of the data area lies in some file's extent |
| IndexProperties.EveryByteOwned | crates/cipherfs-core/src/pack.rs:545-579 | every container byte after the index belongs to some record |
| IndexProperties.OwnerUnique | crates/cipherfs-core/src/pack.rs:545-579 | no byte belongs to two records |
| IndexProperties.PositionsFit | crates/cipherfs-core/src/v2.rs:813-832 | no position computed for a record overflows u64 |
| Totals.TotalsFit | crates/cipherfs-core/src/v2.rs:916-919 | stored sizes add up to the data size, so no total of file sizes overflows |
| Scan.ScanSource | crates/cipherfs-core/src/pack.rs:407-524 | the walk loop succeeds exactly on scannable walks that are not cancelled, and lays the entries out |
| Scan.ScannedIsAccepted | crates/cipherfs-core/src/pack.rs:407-524 | whatever the scan returns is accepted by the index validation, runs of empty files included |
| Scan.DataSizeIsPlaintextPlusTags | crates/cipherfs-core/src/pack.rs:481-519 | the data area is the plaintext plus 16 bytes a chunk |
| WalkedTree.WalkIsScanned | crates/cipherfs-core/src/pack.rs:428-524 | the walk of a directory tree, entries in any order, is scanned if and only if its names are short and denote entries, it is at most 1024 levels deep and below 5,000,000 entries, and no size overflows |
| Sequences.SortByKeyIdentity | crates/cipherfs-core/src/v2.rs:650-652 | a stable sort leaves an ordered list alone, ties included |
| Sequences.SortedUnique | crates/cipherfs-core/src/extract.rs:145-146 | with distinct keys the sorted list does not depend on the order of the input |
| Pack.ImageUnique | crates/cipherfs-core/src/pack.rs:324-371 | header, index and records determine every byte of the container |
| Pack.JobsDisjoint | crates/cipherfs-core/src/pack.rs:324-371 | no two stores of the writer meet |
| Pack.JobsCover | crates/cipherfs-core/src/pack.rs:324-371 | every byte of the container is stored by some job |
| Pack.AnyScheduleWritesImage | crates/cipherfs-core/src/pack.rs:349-371 | every interleaving of pieces of the parallel writes leaves the same container |
| PlatformIo.SpliceTwice | crates/cipherfs-core/src/platform_io.rs:36-51 | a store in two adjacent pieces is one store |
| PlatformIo.DiskFile.ReadExactAt | crates/cipherfs-core/src/platform_io.rs:19-34 | over short reads: the whole range or an error, and always an error past the end |
| PlatformIo.DiskFile.WriteAllAt | crates/cipherfs-core/src/platform_io.rs:36-51 | over short writes: the whole buffer, or a prefix of it and an error |
| SourceFiles.SourceFile.ReadChunk | crates/cipherfs-core/src/pack.rs:553-562 | as long as nobody wrote the source, exactly the scanned bytes of the chunk, over short reads |
| PackWriter.EncryptSourceFile | crates/cipherfs-core/src/pack.rs:527-592 | one call on its own, chunks in any order, the source written by others at any time: a fingerprint that is unchanged at the end means that every record holds the scanned bytes; nothing outside the file's extent changes even on failure; each chunk is counted once |
| ContainerWriter.StepFile | crates/cipherfs-core/src/pack.rs:527-592 | opening a source, encrypting any one of its chunks, comparing its fingerprint at the end: each step keeps the finished records right as long as nobody wrote the source |
| ContainerWriter.JobAdvanced | crates/cipherfs-core/src/pack.rs:349-371 | a step of one file leaves the records of every other unfinished or finished file alone |
| ContainerWriter.WriteContainer | crates/cipherfs-core/src/pack.rs:316-371 | files and chunks interleave in any way: success leaves exactly the container of the plan, with every chunk counted once; only the environment can make it fail |
| PackFile.SealHeader | crates/cipherfs-core/src/pack.rs:254-304 | succeeds exactly if index and container sizes fit, and gives a header that only the master password opens, with the requested key-derivation cost in the master and the duress slot and every random draw in its own field |
| PackFile.SourcesAreFiles | crates/cipherfs-core/src/pack.rs:481-519 | the sources of a scan are its file entries in order, and the reported total is the sum of their sizes |
| PackFile.ScanIsPlan | crates/cipherfs-core/src/pack.rs:254-288 | a scan and the header built from it form a valid layout with the snapshots as contents |
| PackFile.SelfVerify | crates/cipherfs-core/src/pack.rs:375-394 | self-verification of a fully written container never fails but for an I/O error or a cancellation |
| PackFile.PackSource | crates/cipherfs-core/src/pack.rs:211-404 | success publishes exactly the packed container, sealed at the requested cost, at a name that never existed before, with both phases counted to their total; failure leaves the directory as it was; undisturbed it succeeds exactly for a packable source and a free name |
| KeySlots.TrySlotIff | crates/cipherfs-core/src/v2.rs:432-456 | a slot opens for exactly the password it was made for and yields exactly the wrapped key |
| KeySlots.UnlockIff | crates/cipherfs-core/src/v2.rs:432-478 | in an intact header a password unlocks if and only if an active slot was made for it; otherwise duress is tried |
| KeySlots.UnlockNewestFirst | crates/cipherfs-core/src/v2.rs:432-478 | in any valid header the newest slot that opens decides, and the duress verifier comes last |
| KeySlots.DuressOpensOnlyInPlace | crates/cipherfs-core/src/v2.rs:391-413 | a duress verifier answers to its own password only, and only in the container it was made for |
| KeySlots.MarkerInjective | crates/cipherfs-core/src/v2.rs:391-413 | the duress marker determines the container |
| KeySlots.MasterExists | crates/cipherfs-core/src/v2.rs:432-456 | every intact header has a master password, one that opens a slot of the highest generation |
| KeySlots.MasterUnique | crates/cipherfs-core/src/v2.rs:432-456 | it has only one, and that one unlocks |
| KeySlots.ChangeSafe | crates/cipherfs-core/src/v2.rs:748-794 | from the first header write on the new password is the master and nobody else gains access; after the first write the former master password, the one of the slot with the highest generation, still unlocks |
| KeySlots.OutcomeSafe | crates/cipherfs-core/src/v2.rs:735-806 | cut off at any point, an operation leaves the container intact, or was a wipe that erased both slots; unless it finished or wiped, every master password still unlocks |
| KeySlots.ChangeDone | crates/cipherfs-core/src/v2.rs:769-794 | a finished change leaves exactly one active slot, which only the new password opens, made from its own draw one generation up with the cost of the slot that was newest; the other slot is erased |
| KeySlots.RunSafe | crates/cipherfs-core/src/v2.rs:735-806 | at every point of every run with crashes the container is wiped if one of the operations wiped it, and intact otherwise |
| KeySlots.MasterAlwaysOpens | crates/cipherfs-core/src/v2.rs:735-794 | over every run without a wipe the last password that reached a slot unlocks, and so does the one before it unless the last operation finished |
| KeySlots.MayChangeIff | crates/cipherfs-core/src/v2.rs:750-785 | a change gets to its header writes if and only if the old password unlocks, the new one is not the duress password and both generations leave room |
| KeySlots.WipeErases | crates/cipherfs-core/src/v2.rs:796-806 | a wipe leaves no active slot and only drawn random bytes in both |
| KeySlots.DuressAlwaysDetected | crates/cipherfs-core/src/v2.rs:391-478 | over every run the duress password yields duress and never unlocks |
| KeySlots.WipeIsFinal | crates/cipherfs-core/src/v2.rs:796-806 | after a wipe nothing unlocks at any later point of any run |
| KeySlots.PackHeaderIntact | crates/cipherfs-core/src/pack.rs:276-293 | a packed header is intact, opens for the master password only, keeps duress separate, and holds the requested cost and each draw in its own place |
| Container.DecryptChunkIff | crates/cipherfs-core/src/v2.rs:808-850 | a chunk decrypts exactly if the record at its place was sealed for it, without overflow or a read past the file |
| Verify.ReadChunk | crates/cipherfs-core/src/v2.rs:808-850 | over short reads: what decrypting the chunk gives, or an I/O error |
| Verify.VerifyAll | crates/cipherfs-core/src/v2.rs:904-940 | chunks in any order, with cancellation in between: success means that every chunk of every file opens and was counted once; if all open, only an I/O error or a cancellation fails it |
| Container.SiblingHeaderOpens | crates/cipherfs-core/src/v2.rs:679-716 | a header that differs in the slots only still opens the same index and chunks |
| Container.ContentsSurviveRuns | crates/cipherfs-core/src/v2.rs:735-794 | after any run of changes and crashes an active password still opens the same index and chunks |
| Container.ContainerFile.Open | crates/cipherfs-core/src/v2.rs:679-716 | opens exactly per specification; the duress password is answered as a wrong one exactly when both slots were erased on disk, which only a failing write or the death of the process prevents; nothing else changes the file |
| Container.ContainerFile.ChangePassword | crates/cipherfs-core/src/v2.rs:735-794 | success leaves a file that only the new password unlocks; failure one that every former master password unlocks, unless the duress password was entered and the file wiped; undisturbed it succeeds if and only if the old password unlocks, the new one is not the duress password and both generations leave room |
| Container.ContainerFile.WipeForDuress | crates/cipherfs-core/src/v2.rs:796-806 | the file reads back with both slots erased, so that no password unlocks it, and is otherwise unchanged; or nothing was written |
| FormatRules.OpenedObeysFormat | crates/cipherfs-core/src/v2.rs:508-543 | whatever opens under whatever password keeps the magic bytes, sizes, cost limits and file length of the format, and its index every rule of the next row |
| FormatRules.AcceptedFollows | FORMAT_V2.md:37-62 | an accepted index keeps the listed rules with their numbers: parents, unique ids and sibling names, depths, name lengths, chunk counts, encrypted lengths, separate extents inside the data area |
| Cache.InsertBounded | crates/cipherfs-core/src/readonly_fs.rs:271-285 | storing keeps all bounds, and the over-count grows exactly by a chunk that is overwritten |
| Cache.ConcurrentBounds | crates/cipherfs-core/src/readonly_fs.rs:252-287 | in every concurrent run held bytes and over-count each stay within the limit and every held key is in `order` |
| Cache.RacingMissesOverCount | crates/cipherfs-core/src/readonly_fs.rs:252-287 | two racing misses of one key count it twice |
| Cache.ExactUnlessOverwritten | crates/cipherfs-core/src/readonly_fs.rs:252-287 | after any concurrent run the counter is the number of held bytes if and only if no store of the run overwrote a held chunk |
| Cache.LoadRefinesLru | crates/cipherfs-core/src/readonly_fs.rs:252-287 | one load of one thread is one step of a plain LRU list with an exact byte count |
| Cache.LoadIsTwoSteps | crates/cipherfs-core/src/readonly_fs.rs:252-287 | a load is the two locked steps of one thread with no other thread in between |
| Cache.OneThreadIsLru | crates/cipherfs-core/src/readonly_fs.rs:252-287 | in every run of one thread from the empty cache, failing chunks included, the cache is that list, the counter is exactly the held bytes, and these stay within the limit |
| Cache.KeepRecentIsSuffix | crates/cipherfs-core/src/readonly_fs.rs:275-282 | the reference eviction keeps the longest recent suffix that fits |
| ReadFs.ReadOnlyV2Fs.Read | crates/cipherfs-core/src/readonly_fs.rs:213-250 | the exact plaintext slice or an error, for any cache content, short reads and any steps of other threads, with the exact error cases; only a failing system read adds to them |
| ReadFs.ReadOnlyV2Fs.LoadChunk | crates/cipherfs-core/src/readonly_fs.rs:252-287 | returns what decrypting the chunk returns, or an I/O error, whatever other threads do in between |
| ReadFs.ReadOnlyV2Fs.Lookup | crates/cipherfs-core/src/readonly_fs.rs:180-195 | finds exactly the child of that name |
| ReadFs.KeyNamesOneFile | crates/cipherfs-core/src/v2.rs:608-611 | a cache key names one file of an accepted index |
| ReadFs.CopyOut | crates/cipherfs-core/src/readonly_fs.rs:231-243 | one loop turn extends the output by exactly the next part of the slice |
| ReadAgrees.ReadsWhatIsExtracted | crates/cipherfs-core/src/readonly_fs.rs:213-250 | a range read gives exactly that range of the file that an extraction writes |
| WindowsText.AttemptsDiffer | crates/cipherfs-core/src/windows_names.rs:218-243 | different attempts for one entry are never ordinally equal |
| WindowsText.MappedNameShape | crates/cipherfs-core/src/windows_names.rs:218-243 | a replacement is non-empty, fits 255 UTF-16 units and has no forbidden character or ending |
| WindowsText.MappedNameStillReserved | crates/cipherfs-core/src/windows_names.rs:194-243 | the exact condition under which a replacement would be replaced again |
| WindowsText.ConTxtStillReserved | crates/cipherfs-core/src/windows_names.rs:204-206 | `CON.txt` meets that condition |
| WindowsRules.NeedsMappingIff | crates/cipherfs-core/src/windows_names.rs:194-216 | a name is replaced if and only if it is empty, ends in a space or dot, holds a forbidden character, is too long, or is one of the 28 device names up to its first dot and the case of its letters |
| WindowsRules.MappedNameText | crates/cipherfs-core/src/windows_names.rs:218-243 | a replacement is the longest beginning of the cleaned name that leaves room, `~cfs-`, the id in sixteen hexadecimal digits, and the number of a later attempt |
| WindowsNames.FreeFromIsFree | crates/cipherfs-core/src/windows_names.rs:84-93 | the retry loop stops at an unused name within one more attempt than there are used names |
| WindowsNames.DirNamesOk | crates/cipherfs-core/src/windows_names.rs:56-96 | names of a directory are pairwise ordinally different, kept where possible and otherwise replaced by the first attempt that no other name has |
| WindowsNameMap.NewNameMap | crates/cipherfs-core/src/windows_names.rs:49-100 | the loops build the specified map in whatever order directories are taken |
| WindowsNameMap.LookupFindsName | crates/cipherfs-core/src/windows_names.rs:132-136 | looking up a node's display name in its directory finds the node |
| WindowsNameMap.LookupSound | crates/cipherfs-core/src/windows_names.rs:132-136 | whatever a lookup finds lies in that directory under an ordinally equal name |
| WindowsNameMap.NamesDiffer | crates/cipherfs-core/src/windows_names.rs:49-100 | display names of one directory differ for Windows |
| WindowsNameMap.NameOfNode | crates/cipherfs-core/src/windows_names.rs:73-93 | valid names without a collision are kept, all others replaced by the first attempt that no sibling is shown under; every display name can be shown |
| WindowsNameMap.MapOrderFree | crates/cipherfs-core/src/windows_names.rs:49-100 | every ordering of the same nodes gives the same names and lookups |
| DisplayPaths.NodePath | crates/cipherfs-core/src/windows_names.rs:176-192 | the upward walk ends and its reversal is the path from the root |
| DisplayPaths.Resolve | crates/cipherfs-winfsp/src/lib.rs:94-104 | the component loop resolves per specification |
| DisplayPaths.ResolveIff | crates/cipherfs-winfsp/src/lib.rs:94-104 | a path resolves to a node if and only if it agrees, component by component, with the node's display path |
| DisplayPaths.PathRoundTrip | crates/cipherfs-core/src/windows_names.rs:176-192 | the printed path of every node, with or without the leading backslash, resolves to that node |
| DisplayPaths.ListChanges | crates/cipherfs-core/src/windows_names.rs:102-116 | the reported changes are the renamed nodes in id order, as original and display paths |
| DisplayPaths.ChangesOrderFree | crates/cipherfs-core/src/windows_names.rs:102-116 | the reported changes do not depend on the order of the nodes |
| Mount.OpenNodes | crates/cipherfs-winfsp/src/lib.rs:69-83 | the worklist ends, visits every entry exactly once, and the size total is exact and never overflows |
| MountedTree.OpenMount | crates/cipherfs-winfsp/src/lib.rs:57-92 | every entry keeps its name if Windows can show it and no sibling shares it, and is otherwise shown under the first attempt that no sibling has; the report lists exactly the renamed entries, each with its own path and a display path that resolves to it; the size total is exact |
| MountedTree.ViewNamesEntries | crates/cipherfs-core/src/windows_names.rs:49-100 | the same for the names of any listing of the entries, as in extraction |
| MountedTree.EveryEntryResolves | crates/cipherfs-winfsp/src/lib.rs:94-104 | every entry of an accepted container is reached by its display path |
| MountedTree.ResolvedExists | crates/cipherfs-winfsp/src/lib.rs:94-104 | what a path resolves to exists and has an agreeing display path |
| MountedTree.ExtractAndMountAgree | crates/cipherfs-core/src/extract.rs:109-128 | extraction and mount get the same names, lookups and changes |
| SafeFs.SafeRoot.OpenNewAt | crates/cipherfs-core/src/safe_fs.rs:38-100 | a private sibling is created only if the destination does not exist; the directory is as it was exactly if that sibling was not made, which it was also when it could not be opened |
| SafeFs.SafeRoot.CreateDirectory | crates/cipherfs-core/src/safe_fs.rs:112-130 | adds one directory in an open parent, or changes nothing outside the private tree; success needs a name that the check and the system take |
| SafeFs.SafeRoot.BeginFile | crates/cipherfs-core/src/safe_fs.rs:132-161 | creates the temporary file; a duplicate entry is reported exactly if the name is accepted, the parent is open and the place is taken |
| SafeFs.SafeRoot.Commit | crates/cipherfs-core/src/safe_fs.rs:170-185 | the whole tree appears at the destination in one step, or nothing changes |
| SafeFs.PendingFile.Commit | crates/cipherfs-core/src/safe_fs.rs:211-218 | moves exactly the written bytes to the final name, which the system must take for a file |
| ExtractTree.StagedAdd | crates/cipherfs-core/src/extract.rs:149-201 | handling one more entry keeps the private tree exact |
| ExtractTree.StagedRename | crates/cipherfs-core/src/extract.rs:203-206 | giving a file its final name keeps the private tree exact |
| ExtractTree.RenameTargetFree | crates/cipherfs-core/src/safe_fs.rs:211-218 | an allowed rename never replaces another extracted file |
| ExtractTree.FinalPlaceFree | crates/cipherfs-core/src/safe_fs.rs:143-145 | without colliding siblings the duplicate check never fires |
| ExtractTree.PlainIsApart | crates/cipherfs-core/src/safe_fs.rs:374-385 | plain output names do not collide |
| ExtractTree.PathsApart | crates/cipherfs-core/src/extract.rs:145-215 | without colliding siblings different entries have different output paths, at any depth |
| ExtractTree.TreeExistsIff | crates/cipherfs-core/src/extract.rs:145-215 | an index has an output tree if and only if the system tells all its siblings apart |
| ExtractTree.NoTemporaryNames | crates/cipherfs-core/src/extract.rs:203-206 | no temporary name remains in the published tree |
| ExtractTree.IndexTreeUnique | crates/cipherfs-core/src/extract.rs:145-215 | the index determines the published tree |
| Extract.ParentFirst | crates/cipherfs-core/src/extract.rs:145-146 | the (depth, id) order handles every parent before its children |
| Extract.InTheWay | crates/cipherfs-core/src/safe_fs.rs:143-145 | in the loop, what is in the way of a file is exactly a directory that collides with it |
| FileOutput.WriteFile | crates/cipherfs-core/src/extract.rs:168-198 | for any batch size the file is exactly its chunks in order, each counted when it was written |
| Extract.ChunksOfNext | crates/cipherfs-core/src/extract.rs:145-198 | in the order of the extraction the chunks of an entry follow those of the entries before it |
| Extract.ExtractV2 | crates/cipherfs-core/src/extract.rs:95-215 | success publishes exactly the index tree in one step, with every chunk counted once; failure never shows the destination, and leaves the directory as it was if and only if the private directory was never made or was removed by the drop of its root; a missing parent is never reported, for damaged containers too; a duplicate entry is reported only, and with accepted names exactly, if a file collides with a directory; undisturbed it succeeds exactly if all chunks open and the names can be extracted |
| Extract.LeftAsItWas | crates/cipherfs-core/src/safe_fs.rs:84-89 | that condition, over every way an extraction can leave its private directory |
| Extract.ExtractWithoutHandles | crates/cipherfs-core/src/safe_fs.rs:84-89 | a private directory that cannot be opened fails the extraction and stays behind, empty |
| OutputNames.UnixApart | crates/cipherfs-core/src/safe_fs.rs:374-377 | plain sibling names of an accepted index denote different directory entries |
| OutputNames.UnixPlain | crates/cipherfs-core/src/safe_fs.rs:374-377 | all output names are plain if and only if no entry name holds a separator (a relation of the names only; extraction is `UnixExtractable`) |
| OutputNames.StemsApart | crates/cipherfs-core/src/safe_fs.rs:374-377 | siblings of an accepted index collide on Unix exactly if they agree before the first separator |
| OutputNames.UnixExtractable | crates/cipherfs-core/src/safe_fs.rs:112-218 | the exact condition on the entries under which an accepted index can be extracted on Unix |
| UnixExtract.ExtractOnUnix | crates/cipherfs-core/src/extract.rs:95-215 | undisturbed, extraction on Unix succeeds if and only if every chunk opens and the entry names meet that condition |
| UnixExtract.TwinsAcceptedButNoTree | crates/cipherfs-core/src/v2.rs:667-677 | an accepted index with a directory `a` and a file `a/` has no tree and trips the duplicate check |
| UnixExtract.TwinContainer | crates/cipherfs-core/src/v2.rs:679-716 | a well-formed container of that index exists and opens with its password |
| UnixExtract.ExtractTwins | crates/cipherfs-core/src/safe_fs.rs:143-145 | extracting it ends in the duplicate-entry error |
| UnixExtract.TrailingSeparatorComesOut | crates/cipherfs-core/src/v2.rs:667-677 | a directory `a/` alone is accepted and can be extracted |
| UnixExtract.NulNeverComesOut | crates/cipherfs-core/src/v2.rs:667-677 | a name with a NUL is accepted and can not be extracted |
| OutputNames.WindowsNamesExtract | crates/cipherfs-core/src/safe_fs.rs:379-385 | display names are legal, plain and different for siblings, whatever the index holds, and are the entry names where Windows can show these; extraction needs exactly that the system takes each of them |
| OutputNames.WindowsLegalIff | crates/cipherfs-core/src/safe_fs.rs:379-385 | the name check on Windows accepts exactly the names that neither separator takes apart, other than the empty one and the dots |
| PackedImage.PackedOpens | crates/cipherfs-core/src/v2.rs:679-716 | a packed container opens with its password and shows exactly the packed entries |
| PackedImage.PackedVerifies | crates/cipherfs-core/src/v2.rs:904-940 | verification of a packed container succeeds |
| PackedImage.PackedContent | crates/cipherfs-core/src/v2.rs:808-850 | every file comes out of the container as it went in |
| RoundTrip.UnixSlots | crates/cipherfs-core/src/extract.rs:149-201 | the output place of a source path is that path, component by component |
| RoundTrip.PackThenExtract | crates/cipherfs-core/src/extract.rs:95-215 | for every source tree that pack accepts the names can be extracted, and any published extraction is exactly the source tree |
| RoundTrip.PackOpenExtract | crates/cipherfs-core/src/extract.rs:95-215 | pack, open and extract in one run: success leaves exactly the source tree, and undisturbed it succeeds exactly for a packable source |
| RoundTrip.PackThenExtractOnWindows | crates/cipherfs-core/src/extract.rs:108-166 | the same under Windows display names, which never conflict: any published tree is the source tree with each path component shown under its display name, which is the walked name where Windows can show it and no sibling shares it |
| Frames.WriteFrame | apps/cipherfs-windows-shell/src/protocol.rs:131-143 | the whole frame or a prefix of it, and nothing when it is too large; into a working pipe it succeeds exactly if it is not too large |
| Frames.FrameBytes | apps/cipherfs-windows-shell/src/protocol.rs:137-139 | a frame is the length in four bytes, the lowest first, and the payload |
| Frames.ReadFrame | apps/cipherfs-windows-shell/src/protocol.rs:145-170 | over short reads and interruptions: the next value, the end, or an error, exactly as the bytes say |
| Frames.DrainPrefix | apps/cipherfs-windows-shell/src/protocol.rs:145-170 | on any prefix of a stream: exactly the whole frames in order, and a clean end if and only if the cut is at a boundary |
| Frames.WholeFramesExact | apps/cipherfs-windows-shell/src/protocol.rs:145-170 | the number of whole frames is the largest that fits the prefix |
| Frames.DrainCut | apps/cipherfs-windows-shell/src/protocol.rs:145-170 | whole frames followed by part of another are read back, and the rest is an error |
| Frames.EmptyPayloadDisagrees | apps/cipherfs-windows-shell/src/protocol.rs:158-162 | a written frame is read back if and only if its payload is not empty and decodes |
| Publish.OperationHandle.RequestCancel | apps/cipherfs-windows-shell/src/operation_controller.rs:56-69 | at most one cancel command is sent, and none by a call that finds the commit announced, whatever the event thread does between its steps; the first call that finds no announcement sends it if the pipe is open and works |
| Publish.OneCancelCommand | apps/cipherfs-windows-shell/src/operation_controller.rs:56-69 | however many threads ask, at most one cancel command is written in any run |
| Publish.CancelAfterAnnouncement | apps/cipherfs-windows-shell/src/operation_controller.rs:56-69 | a run in which the command is written after the announcement was read |
| Publish.ReadCommands | apps/cipherfs-windows-shell/src/worker.rs:78-95 | the command thread cancels for a command and for the end or failure of the pipe, and stops early only if the receiver is gone |
| Publish.OperationHandle.RunEvents | apps/cipherfs-windows-shell/src/operation_controller.rs:99-149 | the event loop over the byte stream tells a cancellation, a success or an error by the first event that ends it, or by an acknowledged commit before a clean end: for all of the stream on a reliable pipe, for a prefix of it if a read fails; after a failure the expected artifact is gone unless it could not be removed |
| Publish.JudgeSuccess | apps/cipherfs-windows-shell/src/operation_controller.rs:99-149 | success is reported exactly for a success event, or a commit event before a clean end |
| Publish.JudgeTells | apps/cipherfs-windows-shell/src/operation_controller.rs:99-149 | on any events: cancelled if and only if the first event that ends the loop reports a cancellation, success if and only if it reports one, or there is none and a commit was acknowledged before a clean end |
| Publish.StepKeepsInv | apps/cipherfs-windows-shell/src/worker.rs:62-110 | every step of either process, a kill or a crash keeps the protocol invariant |
| Publish.PublishSafe | apps/cipherfs-windows-shell/src/operation_controller.rs:56-149 | reported success implies installed, reported cancellation implies not installed, and the output is never partial |
| Publish.CancelReported | apps/cipherfs-windows-shell/src/worker.rs:97-109 | in every run the operation is reported as cancelled if and only if the worker failed by a cancellation and its report was delivered |
| Publish.OutputUntouched | apps/cipherfs-windows-shell/src/operation_controller.rs:187-202 | cleanup and every other step leave what is at the output alone; only the rename or an outsider puts something there |
| Publish.CommitOrder | apps/cipherfs-windows-shell/src/worker.rs:62-110 | in every run the rename comes after the announcement of the commit, and that after the artifact was finished |
| Publish.NothingLeftBehind | apps/cipherfs-windows-shell/src/operation_controller.rs:187-202 | after a failure with a successful cleanup nothing private is left |
| Publish.RunEventsReports | apps/cipherfs-windows-shell/src/operation_controller.rs:99-149 | the report of a run is what the event loop returns on the bytes that the worker left in the pipe |
| Publish.InstalledReport | apps/cipherfs-windows-shell/src/operation_controller.rs:99-149 | an installed output is reported as a success if and only if the acknowledgement arrived whole |
| Publish.KilledAfterRename | apps/cipherfs-windows-shell/src/operation_controller.rs:71-75 | a run in which an installed output is reported as an error |
| Progress.ProgressTracker.Advance | crates/cipherfs-core/src/operation.rs:206-244 | the reports are at all times 0 followed by one clipped count for each completed chunk |
| Progress.TaskListed | crates/cipherfs-core/src/v2.rs:924-937 | the work of a phase is exactly the chunks of the listed files |
| Progress.CountsMonotone | crates/cipherfs-core/src/operation.rs:229-239 | counts never decrease and never pass the total |
| Progress.AllAmountsSum | crates/cipherfs-core/src/v2.rs:924-937 | chunk lengths add up to the file sizes |
| Progress.TasksPermuted | crates/cipherfs-core/src/v2.rs:909-915 | the work does not depend on the order of the files |
| Progress.PhaseCounts | crates/cipherfs-core/src/operation.rs:213-244 | in every completion order each count is the exact bytes done, nothing is clipped, and the last count is the total; encryption, verification and extraction establish the hypothesis |

## Left out

- Bit-level behaviour of ChaCha20-Poly1305, HKDF, Argon2, BLAKE3 and MessagePack, random generation, zeroization: used through their laws only.
- Partial decoding of an oversized index array (`BoundedEntries`) and header bytes behind the encoded record: a decoder returns the encoded value or fails.
- Torn header writes, disk sync, the system calls behind the atomic renames: a header write and a rename happen whole or not at all.
- A write to a source that leaves length, time and identity as they were, and one between the metadata reads of the scan: the fingerprint does not tell.
- The cost of a name to the system beyond its bytes, such as path length limits.
- Which display names Windows itself refuses (`creatable` in `OutputNames.Windows` is a parameter).
- The check that the directory to be packed is a real one, symbolic-link, junction and reparse-point checks, security descriptors.
- The Windows variant of `validate_name` through Windows path parsing; Windows extraction uses display names and its own name check.
- Other processes that write into the output directory during an extraction or a pack, except the occupant of the output name in `Publish`.
- Short or failing reads of header and index: `ContainerFile` reads them whole, chunks go through `PlatformIo.DiskFile`.
- A `symlink_metadata` call that fails for another reason than absence and is taken for absence: looking at a name always succeeds in `SafeFs`.
- Random staging and temporary names: they are parameters or, inside the staged tree, places no entry name can take.
- The order in which `ReadOnlyFs::read_dir` sorts children by name: `Mount.ReadDir` returns them in any order.
- A kill that takes effect only after the parent's cleanup: in `Publish` a killed worker takes no further step.
- Verification, mounting and password changes as worker operations: `Publish` covers pack and extraction.
- The worker program as code: its steps are those of `Publish.Work`, its command thread the step `ReadCommand` and `Publish.ReadCommands`.
- That the worker's steps in `Publish` are those of `PackFile.PackSource` and `Extract.ExtractV2`: both are verified to publish in their last change of the directory, `Publish.CommitOrder` says the same of the steps, and no lemma relates the two.
- The worker's mount session, WinFsp and FUSE callbacks other than `open` and `resolve`, the user interface, the command line, the updater, installers, v1 detection.
- `infer_kind`: text matching on error messages.
- `usize` narrowing on 32-bit targets.
