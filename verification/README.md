# DZFile, modelled and proved

DZFile keeps a file as a sequence of independently compressed 4 MiB blocks in a hidden HDF5
container next to it (`dir/.name.DZF`), leaves a zero-filled placeholder of the same length under
the visible name, and answers later `pread` calls by decompressing blocks. This project models
that behaviour in Dafny and proves what it promises and, where it does not, exactly when it fails.

The main results:

- **Transparency** (`Refinement.RunTransparent`, `Refinement.FailsExactly`). Over every run of open,
  close, pread, pwrite, truncate, unlink, stat and convert, every call whose result is defined and no
  failure gives the answer of a plain store in which converting does nothing. A call fails exactly
  when the plain store's does, or the stat before an open fails, or a converted file refuses it. Its
  result is not defined exactly when a read of a converted file meets block 512 or a later one, or
  starts behind the end in a block that can be read (`Refinement.BehindOneByte`: ten bytes come back
  where there are none). No descriptor is ever served from a stale container, and no container is
  left open (`Handles.HandlesExactly`).
- **Transparency among concurrent calls** (`ConcurrentRuns.ConcurrentTransparent`,
  `ConcurrentRuns.EventFails`). The same while the system calls of any number of converters
  interleave with those of any number of users' calls. An open, a truncate and an unlink look for
  the container at one system call and act on it at later ones. A file must not be changed while it
  is converted, at the rename of its container nobody may have it open or be in the middle of a call
  on it, and an unlink must not overlap another call on its path. From any plain file system,
  `Races.RenameRace` and `Races.UnlinkRace` reach the runs that break the last two conditions.
- **Round trip** (`RoundTrip.ReadBack`, `RoundTrip.PreadStored`). Reading a container back is
  slicing the file, for every file, offset and count, with the 32-bit arithmetic of the source.
  The success condition is exact, and so is the need for full reads (`FullReads.FullReadsNeeded`,
  `ShortReads.ShortReadHidesByte`).
- **Conversion** (`Conversion.RecoverableIff`, `Interleaving.RecoverableIffSeen`). Whatever fails and
  wherever it stops, the original bytes can still be had if the file itself is in place or the stat
  that looks for its container does not fail; also when the system calls of any number of workers on
  distinct paths interleave. The condition is exact: `convert2h5` takes a failing stat for "no
  container", and then replaces the container by one of the placeholder's zeros
  (`Conversion.OneByteLost`). With several workers on one path, a file is kept if whoever passes its
  two checks finds the way clear (`SamePath.KeptWhenClear`); without that, two workers none of whose
  calls fails lose any file but one of zeros (`SamePath.TwoWorkersLose`).
- **Worker pool** (`Pools.ReachableInv`, `Pools.ShutdownBounded`, `Pools.AllTasksRun`). No lost
  wake-up, first in first out, each task once, and a shutdown that ends.
- **Reads built on pread**: the vectored read is one read (`ClientReads.PreadvIsPread`); the
  copy-out tool copies the file exactly when every block can be read back (`GetTool.GetStored`).
- **Names** (`Names.HiddenInjective`, `Names.TriosDisjoint`, `SystemDirs.CheckSysdir`,
  `Blacklist.AgreementIff`, `Listing.ListingUnchanged`).

## Files

| file | what it holds |
|---|---|
| `CStrings.dfy` | the C string operations the program uses |
| `Names.dfy`, `SystemDirs.dfy`, `Blacklist.dfy` | hidden names, the private directory, the extension list |
| `DatasetNames.dfy`, `Container.dfy` | dataset names, the tag, the container as a map from name to bytes |
| `BlockReader.dfy`, `RoundTrip.dfy`, `FullReads.dfy` | `h5fd_pread` on any container, then on what the converter wrote |
| `Conversion.dfy`, `Volume.dfy`, `ShortReads.dfy` | `convert2h5` call by call, on a file system, and with short reads |
| `Interleaving.dfy`, `SamePath.dfy` | several workers, on distinct paths and on the same |
| `Listing.dfy` | `dzfile_readdir` |
| `ThreadPool.dfy` | the pool as atomic steps |
| `ClientReads.dfy`, `GetTool.dfy` | `dzfile_pread`, `dzfile_preadv`, `dzfile_get` |
| `Store.dfy` | the API over inodes and descriptors, one system call at a time, and as the code has it |
| `Relation.dfy`, `Converting.dfy`, `Refinement.dfy` | its refinement of a plain store: call by call, for a conversion, over runs |
| `Concurrent.dfy`, `ConcurrentRuns.dfy` | the same with any number of calls and conversions under way |
| `PlainStore.dfy`, `Handles.dfy` | what the plain store's calls do; no container is left open |
| `Races.dfy` | calls that overlap where they must not, and the runs that lead there |

## Assumptions

- `Container.Sound`: the compressors are lossless on non-empty input and produce something
  non-empty; version strings have at most 1018 characters. HDF5 is a finite map from dataset name to bytes.
- Converting uses zstd, as `process_file` does. A container tagged zlib is modelled too: its reader
  takes an uninitialised length, so a read is `Undefined` as soon as there is a block to decompress
  (`BlockReader.ZlibRead`).
- `Outcome.Undefined`, and `Unspecified` as the reply of a call, stand for what C leaves open: signed
  overflow, a copy from outside a block. The model takes such a read to leave the store as it was.
- The operating system's answers are parameters: to each call of a conversion (`Answer`), to the
  stat, the truncate and the unlinks of a user's call, and the numbers it picks for descriptors,
  inodes and handles (`Pick`).
- An open of a converted file that is refused its descriptor stores -1, the key the map uses for
  erased entries, in the map. What the map does then is not defined, and a build with assertions
  aborts: the model ends such a call in `Aborted`.
- `Refinement.Legal` and `ConcurrentUse.Proper` list what transparency asks of the system and of
  callers. What happens without a condition is shown by `UnseenOpen`, `UnseenTruncate`, `UnseenUnlink`
  (the container is there and not seen), `TruncatingOpen`, `OpenAcrossConvert`, `OpenAcrossRename`,
  `OpenDuringUnlink`, `UnlinkedAlone` and `StatAfterLostSize`.

Where log messages and code disagree the model follows the code: the message at
src/dzfile-api.c:221 names O_APPEND as supported on a converted file, the test at line 220 refuses it.

## Model

| member | source | states |
|---|---|---|
| Names.BuildHiddenFile | src/dz-common.c:305-330 | the in-place shift and append fill the buffer of length + 6 exactly with dir + "/." + name + ".DZF" and its terminator; NULL exactly without a slash |
| Names.HiddenParts | src/dz-common.c:305-330 | the hidden and temporary names keep the directory and change only the base name |
| Names.HiddenInjective | src/dz-common.c:305-330 | a hidden name, or a temporary one, determines the path it was built from |
| Names.HiddenNeverTemp | src/dzfile-intern.cc:300-301 | no hidden name of any path is the temporary name of any path |
| Names.HiddenFormsMatch | src/dz-common.c:432-456 | match_hiddenfile catches both hidden forms of every path |
| Names.CaughtIff | src/dz-common.c:432-456 | and nothing else: a path is caught exactly when its base name is ".", "..", ".DZF" or ".DZF.tmp", or it is the hidden or the temporary name of some path |
| Names.VisibleIsNeither | src/dz-common.c:432-456 | a path it does not catch is neither hidden form of any path: three disjoint name spaces |
| Names.TriosDisjoint | src/dzfile-intern.cc:290-308 | conversions of two distinct visible paths have no file in common |
| SystemDirs.Strtok | src/dz-common.c:415-425 | each call cuts off the next token in place: what was skipped are slashes, what is returned is the path's text up to the next slash |
| SystemDirs.CheckSysdir | src/dz-common.c:410-428 | the token loop returns 1 exactly when the four characters ".dzs" stand somewhere in the path as a whole component, repeated and trailing slashes included |
| Blacklist.PushEntries | src/dzfile-walker.cc:68-87 | the splitting loop terminates and has pushed exactly the texts the entries before the last stand for |
| Blacklist.MatchExtension | src/dzfile-walker.cc:60-111 | true exactly when the name has a dot and what follows its last one is compared with some entry |
| Blacklist.ComparedIff | src/dzfile-walker.cc:68-106 | which texts are compared, read off the list: those an entry before the last is or ends in behind a dot, the last entry as it stands, and the empty text behind an opening semicolon |
| Blacklist.AgreementIff | src/dzfile-walker.cc:68-87 | the loop agrees with the list for every file name if and only if the list neither opens with a stray semicolon nor closes on a dotted entry no earlier one repeats |
| Blacklist.EntriesOfJoin | src/dzfile-walker.cc:68-87 | entries joined with semicolons are split into the same entries |
| Blacklist.ClosingEntryMissed | src/dzfile-walker.cc:77-83 | a closing "*.ext" names ext but is never matched, unless an earlier entry names it |
| Blacklist.ShippedListMissesBz2 | etc/dzfile.conf:8 | the shipped line splits into its six entries and ends that way, so .bz2 files are not skipped |
| DatasetNames.BlockNameInjective | src/dzfile-intern.cc:358 | "block%d" is injective over all ints |
| DatasetNames.BlockNameText | src/dzfile-intern.cc:358 | the name is "block" and the number in decimal digits without a leading zero |
| DatasetNames.BlockNameNotAlgorithm | src/dzfile-intern.cc:325-358 | no block is filed under "algorithm" |
| Container.TagParsesBack | src/dzfile-intern.cc:322-334 | the tag written for a method is parsed back to that method |
| Container.GetAlgorithm | src/dzfile-intern.cc:91-99 | which tags are accepted: shorter than 1024 bytes, and opening with "zlib", "zstd" or "isal" up to a space, a NUL or the end; the method is the one named, and else unknown |
| Container.AlgorithmIff | src/dzfile-intern.cc:407-434 | the same of the function that every read theorem uses |
| Container.BoxLookup | src/dzfile-intern.cc:338-368 | the reader's name for block i is there exactly for i below the count and selects the i-th chunk: nothing is overwritten |
| Container.BoxTag | src/dzfile-intern.cc:322-368 | the blocks leave the tag in place; the container has one dataset for it and one for each block |
| Container.DecodeOfBox | src/dzfile-intern.cc:338-368 | a container decodes, without any other record, to its chunks put together, whatever the cuts |
| Container.ChunksMakeFile | src/dzfile-intern.cc:338-351 | the 4 MiB blocks of a file put together are the file |
| BlockReader.FindPiece | src/dzfile-intern.cc:468-498 | one trip finds the piece to copy, the end, the failure or the undefined case that the rest of the read begins with |
| BlockReader.CopyOut | src/dzfile-intern.cc:467-503 | the loop terminates, delivers the bytes of the functional reader in the buffer and changes nothing else of it |
| BlockReader.H5fdPread | src/dzfile-intern.cc:452-508 | on any container: the value returned and the bytes delivered, or where the result is not defined |
| BlockReader.ZlibRead | src/dzfile-intern.cc:473-488 | a container tagged zlib: the empty read, an error without a block that fits, else undefined |
| BlockReader.OneByteRead | src/dzfile-intern.cc:468-501 | one byte at any offset below 2^31 of any zstd container: the byte of its block, nothing right behind the block, not defined further on; a dataset of no bytes or of 4 MiB or more is an error |
| BlockReader.OtherReads | src/dzfile-intern.cc:463-489 | a container tagged isal is not read, nor is one without a tag |
| RoundTrip.ArithmeticExact | src/dzfile-intern.cc:469-491 | below 2^31 the 32-bit blocknum, product, srcp and validbytes are the unbounded values and srcp is inside the block |
| RoundTrip.FirstOverflowIs512 | src/dzfile-intern.cc:490-491 | blocknum * H5_BUFSIZE leaves int range from block 512 on and not before |
| RoundTrip.ReadBack | src/dzfile-intern.cc:338-508 | reading back what was converted is the slice of the file; past the end of a file of whole blocks -1, and 0 bytes for a count of 0 |
| RoundTrip.PreadStored | src/dzfile-intern.cc:338-508 | for any file below 2^53 bytes: success exactly when every block touched can be read back, then the slice; undefined exactly where a product overflows |
| RoundTrip.OneBlockFile | src/dzfile-intern.cc:210-229 | a file of at most 4 MiB reads back whole exactly if it compresses to less than 4 MiB; what its container holds, name by name |
| RoundTrip.AtTwoGiB | src/dzfile-intern.cc:490-491 | a read at 2 GiB is not defined when that block can be read at all |
| RoundTrip.PreadBehindEnd | src/dzfile-intern.cc:469-502 | behind the end, however far: an undefined copy exactly when the block number, cut to an int, is one of a block that can be read, else -1; below 2^53 only a partial last block is such |
| RoundTrip.PreadEnds | src/dzfile-intern.cc:452-508 | for any count and offset: when a read of a stored file succeeds, and when it is not defined |
| RoundTrip.FarOffsets | src/dzfile-intern.cc:469-491 | at 2^53 and 2^54 the block number has left the ints: an error, and a copy from outside block 0 |
| RoundTrip.SuccessIsTrue | src/dzfile-intern.cc:452-508 | for every file and offset whatsoever, a read that succeeds returns what the file has there |
| FullReads.FullReadsNeeded | src/dzfile-intern.cc:343-358 | of all ways a converter's reads could cut a file, exactly the cut into full blocks lets every byte read back at its offset |
| FullReads.ReadBehindShortChunk | src/dzfile-intern.cc:469-495 | right behind a short chunk the reader reports the end of the file |
| ShortReads.AnyCut | src/dzfile-intern.cc:338-368 | every cut of a file into pieces of at most 4 MiB is made by some short reads, and then the conversion succeeds and the container holds just these pieces |
| ShortReads.ShortReadHidesByte | src/dzfile-intern.cc:338-495 | for every cut but that into full blocks a conversion that no failing call stops, and a byte that then does not read back |
| Conversion.StepMakesProgress | src/dzfile-intern.cc:290-395 | every call of a conversion brings its end nearer, whatever is answered |
| Conversion.RunKeepsInv | src/dzfile-intern.cc:290-405 | what is on disk after any prefix of the calls with any failures |
| Conversion.BlockedIff | src/dzfile-intern.cc:293-308 | given the answers to its two checks, a conversion changes nothing whatever else happens if and only if a leftover is there whose check does not fail, or a directory has the temporary name |
| Conversion.ConversionSafe | src/dzfile-intern.cc:290-405 | whatever fails and wherever it stops, the original bytes stay recoverable, if the file is in place or the first stat does not fail |
| Conversion.RecoverableIff | src/dzfile-intern.cc:293-370 | that condition is exact: otherwise some further answers lose the file, unless there is nothing to read or nowhere to write |
| Conversion.OneByteLost | src/dzfile-intern.cc:293-370 | the smallest loss: one byte, its container, a failing stat |
| Conversion.ConversionOutcomes | src/dzfile-intern.cc:369-405 | on 0 a placeholder of the right length and a container of the bytes; on -1 untouched, a temporary file made or overwritten, or a complete container; changes only if no leftover was seen |
| Conversion.SucceedsIff | src/dzfile-intern.cc:290-395 | 0 is returned exactly when no leftover is seen, no directory is in the way and none of the calls from the open on fails |
| Conversion.LosesSizeIff | src/dzfile-intern.cc:386-391 | a conversion that fails has changed its source exactly when the first call to fail is the second truncate, of a non-empty file |
| Conversion.LeftBehind | src/dzfile-intern.cc:309-405 | what a failed conversion leaves, by its first call that fails: nothing, the temporary file, or the container with the source as it was or empty |
| Conversion.NeverOther | src/dzfile-intern.cc:321-336 | with a method other than zlib and zstd a conversion fails before it reads |
| Conversion.DirSource | src/dzfile-intern.cc:309-350 | a directory passes the open and fails the read: the temporary file is left with its tag |
| Conversion.SuccessStores | src/dzfile-intern.cc:338-395 | without short reads, success leaves exactly the container of the file's blocks |
| Conversion.FullEnds | src/dzfile-intern.cc:338-395 | and on every end container and source are as they were, or the container of the file's blocks is in place |
| Volumes.Volume.FindHiddenFile | src/dz-common.c:335-366 | -1 without a slash or when the stat fails for another reason than that nothing is there; else 1, 2 or 0 for a file, a directory or nothing under the hidden name |
| Volumes.Volume.CopyBlocks | src/dzfile-intern.cc:338-368 | the read-compress-write loop does what the step machine does, and ends |
| Volumes.Volume.Publish | src/dzfile-intern.cc:369-395 | rename, stat and the two truncates, likewise |
| Volumes.Volume.Convert2h5 | src/dzfile-intern.cc:271-406 | the whole function changes only the three files of its path, to the end of the step machine, leftover checks that fail included |
| Volumes.Volume.ProcessFile | src/dzfile-walker.cc:113-145 | a private or hidden name, a stat that fails, a size below the limit, a container that is seen and a listed extension each leave all files alone; without them, with nothing in the way and no failure, the file becomes a placeholder of zeros beside the container of its blocks and nothing else changes |
| Volumes.ConvertSucceeds | src/dzfile-intern.cc:338-405 | returning 0 means placeholder, container of the blocks, no temporary file, nothing else changed |
| Volumes.ConvertKeepsFile | src/dzfile-intern.cc:290-405 | the function does not lose the file, whatever it returns, if the file is in place or its first stat does not fail |
| Volumes.ConvertAgain | src/dzfile-intern.cc:293-308 | a second conversion, or one over a leftover temporary file, changes no file at all and returns -1, if the check of what is there does not fail |
| Interleaving.WorkersIsolated | src/dzfile-intern.cc:290-395 | in any interleaving on distinct visible paths each worker's files and position are those of the worker run alone |
| Interleaving.ForeignUntouched | src/dzfile-intern.cc:290-395 | every other file stays as it was |
| Interleaving.EveryFileRecoverable | src/dzfile-intern.cc:290-405 | in any interleaving, with any failures, stopped anywhere, every visible file stays recoverable that is in place or whose worker's first stat does not fail |
| Interleaving.RecoverableIffSeen | src/dzfile-intern.cc:293-370 | and exactly then, over all interleavings with that first answer |
| Interleaving.OrderIrrelevant | src/dzfile-intern.cc:290-395 | the order of the workers' calls does not change the outcome |
| Interleaving.VisibleNamesStay | src/dz-common.c:432-456 | no call of any worker makes a visible name appear or vanish |
| SamePath.KeptWhenClear | src/dzfile-intern.cc:293-308 | any number of workers on any paths, interleaved, with any failures: a file stays recoverable if whoever passes its two checks on it then finds it in place or no container, and no other worker between its checks and its end |
| SamePath.LateStatIff | src/dzfile-intern.cc:302-308 | a worker that comes to its second stat keeps the file recoverable exactly when the file is in place or no container is there by then, or nothing can be read or written |
| SamePath.TwoWorkersLose | src/dzfile-walker.cc:281-301 | two workers on one path, no call failing: a run in which both report success and the container is one of zeros |
| Listing.Dir.DzfileReaddir | src/dzfile-api.c:553-563 | the next entry that is shown, skipping exactly the hidden forms and ".dzs"; NULL exactly when none is left |
| Listing.Dir.ReadAll | src/dzfile-api.c:553-563 | repeated calls until NULL list a name exactly if it is in the directory and is not ".dzs", ".", "..", ".DZF", ".DZF.tmp" nor of the form of a container or its temporary file |
| Listing.ListedInOrder | src/dzfile-api.c:553-563 | in the order of the directory, each as often as it is there |
| Listing.ListingUnchanged | src/dzfile-api.c:553-563 | the listing before and at any point of any interleaving of conversions shows the same names, each once |
| Pools.ThreadPool.constructor | src/threadPool.hh:19-37 | a pool of awake workers with an empty queue, in the invariant |
| Pools.ThreadPool.Enqueue | src/threadPool.hh:40-44 | the task goes to the back and its notify is still to come |
| Pools.ThreadPool.NotifyOne | src/threadPool.hh:45 | one sleeper wakes; with none asleep the notify is lost |
| Pools.ThreadPool.Turn | src/threadPool.hh:23-32 | under the lock a worker sleeps, leaves, or takes the front task, as `stop` and the queue say |
| Pools.ThreadPool.Return | src/threadPool.hh:33 | the task is finished and the worker goes for the lock |
| Pools.ThreadPool.SpuriousWake | src/threadPool.hh:26 | a sleeper may wake for no reason |
| Pools.ThreadPool.SetStop | src/threadPool.hh:49-52 | the stop flag, under the lock |
| Pools.ThreadPool.NotifyAll | src/threadPool.hh:53 | every sleeper wakes |
| Pools.ThreadPool.JoinNext | src/threadPool.hh:54-56 | the next thread is joined once it has left |
| Pools.StepKeepsWakeups | src/threadPool.hh:22-46 | every step keeps: with a worker asleep, the queue is no longer than the awake idle workers and pending notifies together |
| Pools.StepKeepsAccounts | src/threadPool.hh:26-45 | every step keeps: enqueued is taken followed by the queue, each taken task is finished or held by one worker |
| Pools.ReachableInv | src/threadPool.hh:19-56 | both hold in every reachable state, spurious wake-ups included |
| Pools.QueuedWorkMoves | src/threadPool.hh:22-46 | queued work can always move on without a spurious wake-up |
| Pools.StoppedStep | src/threadPool.hh:26-56 | after `stop` every step lowers a bound, nobody goes to sleep, and only the delay of notify_all leaves anybody asleep |
| Pools.ShutdownBounded | src/threadPool.hh:48-56 | no run from a stopped state is longer than that bound |
| Pools.ShutdownProgress | src/threadPool.hh:48-56 | until the joins complete the code itself can take a step |
| Pools.AllTasksRun | src/threadPool.hh:19-56 | once they complete every enqueued task has run, in order taken, if and only if there was a thread or no task |
| ClientReads.ReadSplit | src/dzfile-intern.cc:467-503 | a read of a + b bytes is a read of a and, if all came, a read of b behind it, failures included |
| ClientReads.ShortReadIsLast | src/dzfile-intern.cc:492-495 | behind a read that came back short the next one gets nothing |
| ClientReads.DzfilePread | src/dzfile-api.c:308-316 | the container's read for a descriptor that has one, else the system's |
| ClientReads.DzfilePreadv | src/dzfile-api.c:432-456 | the loop's return value, for any buffers, and, when they do not coincide, the bytes scattered in order, every part but the last filling its buffer, nothing behind the parts touched |
| ClientReads.PreadvIsPread | src/dzfile-api.c:432-456 | on any source the vectored read is one read of the buffers before the first empty one, failures included |
| ClientReads.PreadvOfStored | src/dzfile-api.c:432-456 | on a converted file and positive lengths it is one pread of the total, same value and same bytes |
| GetTool.DzfileGet | src/dzfile-get.c:105-121 | the copy loop ends and returns 0; the destination holds what its functional form says, cut off in front of the first write that fails |
| GetTool.GetStored | src/dzfile-get.c:105-121 | a converted file is copied out whole, exact block multiples and the empty file included, if and only if every block can be read back |
| GetTool.GetStopsAt | src/dzfile-get.c:105-121 | at the first block too long to be read back the copy ends silently at that block's start; an overflowing one is undefined |
| GetTool.GetPlain | src/dzfile-get.c:105-121 | a file never converted is copied out whole |
| Store.Client.Open | src/dzfile-api.c:184-271 | the new state and the descriptor of `Whole`, or undefined where -1 would be a key of the map |
| Store.OpenOutcome | src/dzfile-api.c:201-270 | from any state: a path under ".dzs", ".DZF" and the name of any container are refused; so is every path whose stat fails or finds a directory, and a converted file opened for writing or whose container does not open; nothing is left of a refusal; else what the map, the handles and the descriptors then are |
| Store.IllegalIff | src/dzfile-api.c:208-213 | the names refused as illegal are ".DZF" and those of containers |
| Store.OpenClose | src/dzfile-api.c:216-284 | opening a file that is there and closing it gives back the store it started from, converted or not |
| Store.Client.Close | src/dzfile-api.c:273-284 | the new state and value of `DzClose` |
| Store.CloseOutcome | src/dzfile-api.c:273-284 | the descriptor goes, with the entry of the map and the handle of that entry, and nothing else |
| Handles.HandlesExactly | src/dzfile-api.c:216-284 | at any point of any interleaving that began with no handles, those open are exactly those of the map's entries and of opens under way, if no open aborted |
| Handles.HandlesOfMap | src/dzfile-api.c:216-284 | the same for calls one after the other |
| Store.Client.Pread | src/dzfile-api.c:308-316 | the buffer and value of a read from the container of the descriptor's entry, or from the file |
| Store.Client.Truncate | src/dzfile-api.c:338-347 | the new state and value of `Whole` |
| Store.TruncateOutcome | src/dzfile-api.c:338-347 | from any state: refused on a container that is seen, else the system's, also after a stat that failed |
| Store.Client.Unlink | src/dzfile-api.c:502-533 | the new state of `Whole` |
| Store.UnlinkOutcome | src/dzfile-api.c:502-533 | from any state: refused under ".dzs"; a container that is seen goes first, then the name itself, as far as the system lets it |
| Refinement.StepRefines | src/dzfile-api.c:184-347 | each call keeps the refinement and, if it neither fails nor aborts and its result is defined, answers as the plain store, but for the size of a placeholder left empty |
| Relation.UserPathIff | src/dz-common.c:410-456 | the paths all this is about: with a slash, no component ".dzs", no converter's name |
| Refinement.RunRefines | src/dzfile-api.c:184-347 | so does every run |
| Refinement.RunTransparent | src/dzfile-api.c:216-270 | in every run each pread that succeeds and is defined returns the slice of the file's content, each stat its length, each open the same descriptor |
| PlainStore.Writes | src/dzfile-api.c:293-301 | the plain store byte by byte: what a write replaces, keeps and fills with zeros |
| PlainStore.Truncates | src/dzfile-api.c:338-347 | the same of a truncate |
| Refinement.FailsExactly | src/dzfile-api.c:216-347 | a call fails exactly when the plain store's does, or the stat before an open does, or a converted file refuses it: writing, truncating, an unreadable block; it aborts exactly when an open of one is refused its descriptor; its result is not defined exactly when a read meets an overflowing product or starts behind the end in a readable block |
| Refinement.BehindOneByte | src/dzfile-intern.cc:491-501 | a read of ten bytes behind the end of a converted file of one byte is not defined, where the plain store gives no bytes |
| Refinement.StartRefines | src/dzfile-api.c:38-108 | any file system of plain files with nothing open and nothing converted is a start |
| Refinement.MapNeverStale | src/sparsehash-map.cc:20-40 | in every run each key is an open descriptor, its entry holds that number, and what it reads is the container of that descriptor's file |
| Converting.ChangeIsStep | src/dzfile-intern.cc:315-395 | one system call of a conversion, on inodes: the three files come out as the step machine says, nothing else is touched, every name keeps an inode of its own |
| Converting.ConvertKeeps | src/dzfile-intern.cc:290-405 | converting, with any failure but that of the stat of an existing container, keeps the refinement with the plain store standing still; one more placeholder stands empty exactly when the second truncate is what fails |
| Converting.ConvertOnNames | src/dzfile-intern.cc:271-406 | conversion over inodes is convert2h5's conversion over names |
| Refinement.StatAfterLostSize | src/dzfile-intern.cc:386-391 | after a conversion whose second truncate is what fails, stat says 0 where the plain store says the length |
| Refinement.UnseenOpen | src/dzfile-api.c:216-270 | an open that acts without having seen the container reads the placeholder, and nothing refines the plain store then |
| Refinement.UnseenTruncate | src/dzfile-api.c:341-346 | a truncate whose stat fails cuts the placeholder of a converted file and reports success; the plain store is still refined if and only if the length is the old one |
| Refinement.UnseenUnlink | src/dzfile-api.c:511-527 | an unlink whose stat fails removes the placeholder, reports success and leaves the container behind: nothing refines the plain store then |
| Refinement.TruncatingOpen | src/dzfile-api.c:217-250 | O_RDONLY with O_TRUNC on a converted file: the plain store's descriptor reads nothing, this one the old bytes; the plain store is still refined if and only if there are none |
| Refinement.OpenAcrossConvert | src/dzfile-intern.cc:380-391 | a descriptor held open across a conversion reads zeros, and nothing refines the plain store then |
| Refinement.UnlinkedAlone | src/dzfile-api.c:511-529 | a container unlinked without its placeholder: the plain store is still refined if and only if the file is what the placeholder is and nobody has it open |
| ConcurrentUse.WorkKeeps | src/dzfile-intern.cc:290-395 | a converter's call, failed or not, keeps the refinement with the plain store standing still, every other conversion in step, and what every waiting call has found |
| ConcurrentUse.GoKeeps | src/dzfile-api.c:216-347 | a system call in the middle of a user's open, truncate or unlink keeps all that and the other calls; if it completes the call, it fails as stated or answers as the plain store |
| ConcurrentRuns.EnterKeeps | src/dzfile-api.c:211-260 | the check for the container keeps all that, refuses exactly what it must, and what it found stays so |
| ConcurrentRuns.EventKeeps | src/dzfile-api.c:184-347 | every event keeps the refinement; a call it completes fails, aborts, is not defined, or gives the plain store's answer |
| ConcurrentRuns.EventFails | src/dzfile-api.c:184-347 | a call fails exactly when the plain store's does, or its check refuses it, or the container cannot be opened or read; it is not defined exactly where such a read is not |
| ConcurrentRuns.StartSees | src/dzfile-api.c:38-108 | a tidy file system of plain files with nothing open, converted or begun is a start |
| ConcurrentRuns.ConcurrentTransparent | src/dzfile-api.c:184-347 | however converters' and users' system calls interleave, each call of a user that succeeds and is defined gives the plain store's answer; only stat says 0 of a placeholder that a conversion has emptied and not, or never, extended |
| ConcurrentRuns.StatWhileEmpty | src/dzfile-intern.cc:386-391 | between the two truncates of a conversion stat does say 0 |
| Races.OpenAcrossRename | src/dzfile-api.c:216-270 | an open that found no container before the rename and opens after the truncates: a descriptor outside the map, reading zeros, and nothing refines the plain store then |
| Races.RenameRace | src/dzfile-api.c:216-270 | from any file of any plain file system a run, proper in every event, to where that happens |
| Races.OpenDuringUnlink | src/dzfile-api.c:511-527 | an open between the two unlinks of a converted file finds no container and reads the placeholder, which the plain store's open does not |
| Races.UnlinkRace | src/dzfile-api.c:511-527 | from any file of any plain file system a proper run to where it reads zeros |

## Left out

- The insides of zlib, zstd, ISA-L and HDF5: foreign libraries, assumed lossless and a finite map.
- FPGA and PCIe code, ZeroMQ notification, logging, command-line parsing, progress printing: I/O.
- The space counters in SQLite: adds and subtracts beside the calls, with double counting in the vectored writes.
- dzfile_read, dzfile_write, dzfile_writev and dzfile_pwritev: the first is not redirected to the container; the others never reach one.
- dzfile_ftruncate and dzfile_fallocate: they act on a descriptor alone, as pwrite does, and are refused on one opened for reading.
- dzfile_creat, and the return code of dzfile_unlink, which reports failure after a removal that worked: the state is modelled, not the code.
- make_parent_dir, isWriteMode and findTempH5File: easy or unused.
- Two workers on one path both past their checks: what HDF5 does with one file created twice and open twice is not modelled.
- A lock on the map from descriptor to container: the source has none, and here each read and update of it is one atomic event.
- Files growing or shrinking while they are converted, and file lengths of 8 PiB and more, where the block counter would wrap.
- Directories, hard links and symbolic links in the refinement: user paths lead to regular files, one name each.
- When a write to an HDF5 file reaches the disk: it counts as done when the call returns, though the file is closed only at the end.
- Descriptors not initialised when convert2h5 fails early, and allocation failures.
- A match_hiddenfile test of a name of 4 to 7 characters for ".DZF.tmp" reads in front of the name; the model takes it as false. The same for the ".DZF" test of dzfile_open on names of fewer than 4 characters.
- The state strtok shares between threads: each call of match_sysdir is atomic here.
- Enqueueing after `stop`: the pool is used by its owner, who is then in the destructor.
- Refinement.RunTransparent: takes each call and each conversion as a whole; ConcurrentRuns takes them apart.
- ConcurrentRuns.ConcurrentTransparent: takes close and pread as one event each, so a close of a descriptor in the middle of a read of it is not covered.
- GetTool.DzfileGet: starts where source and destination are open, and assumes that a pwrite that succeeds writes everything it is given.
- Volumes.Volume.ProcessFile: takes the size that stat reports of what is not a plain file as a parameter, since the size of a container on disk is not modelled.
- Store.Client.Open: requires a slash in the path, since the code looks behind the last one without testing that there is one.
- SystemDirs.CheckSysdir: covers non-null paths; a null path returns -1 before the loop.
