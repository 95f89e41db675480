# The disk backend and three listener-side helpers, as verified models

libtorrent reads and writes a torrent through a disk backend. On Android the files of a torrent
live below a directory the user granted to the application, and only the application can open
them; `swig/flow_saf_disk_io.cpp` is the backend that works through such callbacks. This project
models it, with its errors, and proves what its order of steps is for. Three self-contained Java
classes of the same library are modelled beside it. `dafny verify dfyconfig.toml` checks all of it.

## How the model is laid out

- **The environment** (`Bridge.dfy`). A path names a file identity, a descriptor denotes one, and
  file identities have contents. Every callback and every POSIX call may fail at any time, and a
  call that fails changes nothing; transfers may be short or interrupted. `pwrite` past the end
  fills with zeros, `ftruncate` cuts or zero-extends, opening for writing creates the file.
  `faults` counts the calls that failed although nothing about the files made them fail; what a job
  does while this number stays the same says when the job itself has to work.
- **The reference** (`Layout.dfy`, `FlatView.dfy`). A torrent is one flat array of bytes. The bytes
  of a file are in its public file, or, while the file is skipped (priority 0), in the part file
  that all skipped files share, at their torrent-global offset; pad files are kept nowhere and
  read as zero. `Flat` is that array, `Present` says that a byte can be read at all.
- **The block layer** (`Transfer.dfy`, `BlockLayer.dfy`) is proved to read and write the flat array.
- **Layout changes** (`PublicCopy.dfy`, `MovePlan.dfy`, `MoveStorage.dfy`, `Migration.dfy`,
  `Priorities.dfy`, `FileJobs.dfy`) are proved to keep it, also when they fail half way, or the
  exact condition is given under which they do.
- **The descriptor cache** (`Descriptors.dfy`, `DescriptorCache.dfy`, `Settled.dfy`) is proved to be
  coherent with the tree, to own each open descriptor exactly once, and to refine a list ordered
  by last use. Closing a descriptor that is not open violates a precondition, so no double close
  can happen.
- **Whole runs** (`RunSpec.dfy`, `Runs.dfy`): several torrents on one disk and one cache, any
  sequence of jobs and changes of the settings up to the shutdown, any failures. Every job has a
  reply, an entry in the log and a state it leaves: `RunSpec.Explains` ties the reply, digests
  included, to the entry, and `RunSpec.Effect` ties the states before and after to the reply, says which
  files were touched, and when the job has to succeed. Every step, and so every stretch of a run,
  changes each torrent's bytes as its part of the log says. A delete or a move that cost a torrent bytes
  of its own is logged with the flat array it leaves, and exactly then; the cache and all other torrents
  are covered for these jobs too.
- **Coming and going** (`Tenancies.dfy`): torrents take over the slots of others, or new ones, between
  such runs, on the same disk and cache.
- **The threads** (`Protocol.dfy`): submissions, the single worker, shutdown, and the reuse of
  storage indices as a transition system, for every interleaving. `Workers.dfy` runs the jobs that this
  system accepts on the disk and the cache: each is one step of a run.
- **Further jobs** (`Resume.dfy`, `CheckFiles.dfy`, `Hashing.dfy`) and the Java classes (`PiecesTracker.dfy`,
  `AlertMulticaster.dfy`, `IntSeries.dfy`).
- `Bytes.dfy`, `Errors.dfy`, `Paths.dfy`, `Directories.dfy` and `Torrents.dfy` hold what the others
  share.

A method that specifies a change of state gives the whole new state; where many facts about the
state are irrelevant to a step, `hide *` keeps them away from the solver and small lemmas bring
back those that are needed.

## What is assumed of the environment

- A failing callback has no effect, `-ENOENT` is the truth about a path, `file_size` is exact, and
  a descriptor handed out is not already open. The last argument of `remove` is always false in
  the code and is not modelled. A rename that succeeds takes the place of a file at the new name, as
  `rename` does in POSIX; `flow_saf_storage.hpp` does not say so.
- Signals interrupt only finitely many transfers (`Bridge.interrupts`).
- The files of a torrent that hold data have different paths, none of which is the part file, and
  live torrents use disjoint paths (`Distinct`, `Settled`, `GoodState`). The code does not check
  this in general. Where a job could break it, the exact condition is proved
  (`FileJobs.RenameKeepsDistinct`, `MovePlan.MoveKeepsDistinct`), and a run passes over such jobs
  (`Runs.PassedOver`). What a rename to a taken name costs is `FileJobs.RenameKeepsExactly`.
- Looking a torrent up and queueing its job is one step, because libtorrent calls from one thread;
  `Protocol.LateJobExactly` says when isolation would survive otherwise.
- `file_storage`, `map_block`, `map_file`, `piece_size`, `piece_size2` and `bitfield::all_set` belong
  to libtorrent and are not part of the repository. They are defined in `Layout.dfy`,
  `PiecesTracker.dfy` and `Resume.dfy` as that library documents them. A v1 piece ends with the
  torrent, a v2 piece with the file its first byte lies in (BEP 52). An empty bitfield is not "all
  set"; `async_check_files` validates an empty one only in seed mode, where this is irrelevant.
- The pieces hashed exist, which libtorrent requires of its callers.
- Sizes, offsets and the use counter are unbounded integers; the 64-bit ranges of the code are not
  reached.

What the code does not do, although one might expect it, each with an input and the exact condition:
a rename can lose bytes (`FileJobs.RenameOntoOtherLosesData`, `FileJobs.RenameKeepsExactly`); a move
can replace the torrent's data by files in its way (`MovePlan.AdoptingLosesData`,
`MovePlan.MoveKeepsExactly`), and a change of the root alone leaves it behind
(`MovePlan.RerootLosesData`, `MovePlan.RerootKeepsExactly`); a failing size query hides an existing file from the full check
(`FileJobs.FailingQueryHidesFile`, `FileJobs.InitializeFiles`); and a file whose bytes are in a part
file, or public file, that ends before them cannot change its place, because the copy fails every
time (`Priorities.ShortPartFileHolds`, `Priorities.MigratePriority`; for all files at once
`Priorities.SetFilePriority`).

Where the Java documentation and the code disagree, the model follows the code:
`IntSeries.last` is documented to return the last value always, and does so exactly when
`SampleSeries.IntSeries.Last` says; on an empty series `get` and `last` throw.

## Model

| member | source | states |
|---|---|---|
| Paths.SafeRelativePath | swig/flow_saf_disk_io.cpp:67-83 | the scanning loop accepts a path exactly if all its components are good: not empty, not `.` or `..`, without backslash or NUL |
| Paths.SafeIffJoin | swig/flow_saf_disk_io.cpp:67-83 | safe paths are exactly the `/`-joins of one or more good components |
| Paths.SafeJoin | swig/flow_saf_disk_io.cpp:102-105 | a joined path is safe if and only if both parts are |
| Paths.NormalizedIdempotent | swig/flow_saf_disk_io.cpp:87-95 | normalizing a save root twice is normalizing it once, and gives the root itself or the empty root |
| Paths.RootedSafe | swig/flow_saf_disk_io.cpp:102-105 | a file's path is safe if and only if the root is empty or safe and the logical path is safe |
| Paths.RootedInjective | swig/flow_saf_disk_io.cpp:102-105 | rooting is injective in the logical path and in the root |
| Paths.NamesStaySafe | swig/flow_saf_disk_io.cpp:415-548 | over any sequence of renames, moves and resets with any arguments, names that are safe at the start stay safe, and so does every path made of them |
| Paths.AncestorsExact | swig/flow_saf_disk_io.cpp:772-783 | the directories walked are exactly the strict ancestors, outermost first, and are safe for a safe path |
| Directories.EnsureParentDirectories | swig/flow_saf_disk_io.cpp:763-785 | an unsafe path asks for nothing; otherwise a prefix of the ancestors is asked for, all of them on success, which only a failing bridge prevents |
| Errors.MakeError | swig/flow_saf_disk_io.cpp:48-60 | an error results exactly for a negative code and carries its errno, capped at the largest `int` |
| Layout.MapBytesTiles | swig/flow_saf_disk_io.cpp:876-878 | the slices of a request tile it in order without gap or overlap, no file twice |
| Layout.FileAtUnique | swig/flow_saf_disk_io.cpp:891-892 | a torrent-global byte lies in one file only |
| Layout.SlicesOverlap | swig/flow_saf_disk_io.cpp:1238-1240 | a request has a slice of a file exactly if they have a byte in common |
| Layout.FileStorage.PieceBytes | swig/flow_saf_disk_io.cpp:1238-1239 | an existing piece has bytes, and all of them are in the torrent |
| Bytes.WriteAtConcat | swig/flow_saf_disk_io.hpp:43-52 | two writes one behind the other are one write of the concatenation |
| Transfer.PreadAll | swig/flow_saf_disk_io.hpp:20-36 | for any short transfers and interrupts exactly `size` bytes of the file arrive or a negative code is returned, and this only if the file ends too early or the bridge fails; the rest of the buffer is untouched |
| Transfer.PwriteAll | swig/flow_saf_disk_io.hpp:38-54 | exactly `size` bytes are written at the offset, or, if the bridge fails, a negative code is returned after a prefix was; nothing else changes |
| Descriptors.OldestIsFirst | swig/flow_saf_disk_io.cpp:830-833 | the entry with the least stamp is the first of the order of use |
| Descriptors.EraseInv | swig/flow_saf_disk_io.cpp:834-835 | closing an entry's descriptor and erasing it keeps ownership, coherence, unique keys and the order of use |
| Descriptors.PushInv | swig/flow_saf_disk_io.cpp:822-823 | entering a fresh descriptor under a new key keeps them |
| Descriptors.TouchInv | swig/flow_saf_disk_io.cpp:797-799 | stamping an entry that was hit keeps them and makes it the newest |
| Descriptors.OtherNames | swig/flow_saf_disk_io.cpp:539-545 | renames and removals away from cached paths keep the cache coherent |
| DescriptorCaches.DescriptorCache.constructor | swig/flow_saf_disk_io.cpp:687-692 | an empty cache with a limit of at least one |
| DescriptorCaches.DescriptorCache.SettingsUpdated | swig/flow_saf_disk_io.cpp:687-692 | the limit is never below one |
| DescriptorCaches.DescriptorCache.Erase | swig/flow_saf_disk_io.cpp:834-835 | the entry's descriptor is closed once and only that entry goes, from the list and from the order of use |
| DescriptorCaches.DescriptorCache.EvictOne | swig/flow_saf_disk_io.cpp:827-836 | exactly the least recently used entry goes |
| DescriptorCaches.DescriptorCache.CloseWhere | swig/flow_saf_disk_io.cpp:838-864 | exactly the matching entries go, the others stay in order, files are untouched |
| DescriptorCaches.DescriptorCache.CloseStorage | swig/flow_saf_disk_io.cpp:838-850 | the entries of the storage and no others are closed |
| DescriptorCaches.DescriptorCache.CloseFile | swig/flow_saf_disk_io.cpp:852-864 | the entries of the file and no others are closed |
| DescriptorCaches.DescriptorCache.CloseAll | swig/flow_saf_disk_io.cpp:866-871 | no descriptor obtained from the bridge is open any more |
| DescriptorCaches.DescriptorCache.MakeRoom | swig/flow_saf_disk_io.cpp:814 | the loop ends with room for one entry, having kept the most recently used ones |
| DescriptorCaches.DescriptorCache.Touch | swig/flow_saf_disk_io.cpp:795-800 | an entry that was hit becomes the newest; the keys stay |
| DescriptorCaches.DescriptorCache.Reuse | swig/flow_saf_disk_io.cpp:791-805 | a lookup hits exactly if there is an entry with the key that is writable if asked; a read-only entry is closed for an upgrade |
| DescriptorCaches.DescriptorCache.OpenMissing | swig/flow_saf_disk_io.cpp:807-824 | a miss ends with at most the limit of entries, the new one newest, or an error with the tree unchanged |
| DescriptorCaches.DescriptorCache.OpenFile | swig/flow_saf_disk_io.cpp:787-825 | the descriptor returned denotes the file now at the path, writable if asked; the order of use is the reference list's; the tree changes only by creating the file; unless the bridge fails, only an unsafe path or a missing file to be read is refused |
| Torrents.ResizePriorities | swig/flow_saf_disk_io.cpp:127-127 | one priority per file, the default where none was given |
| Torrents.TorrentStorage.constructor | swig/flow_saf_disk_io.cpp:109-136 | every path is the root joined to the logical path, and the part file is named by the info hash |
| Torrents.TorrentStorage.SetPath | swig/flow_saf_disk_io.cpp:543-544 | logical path and path of one file change together |
| Torrents.TorrentStorage.SetSaveRoot | swig/flow_saf_disk_io.cpp:958-963 | all paths follow the normalized root |
| Torrents.TorrentStorage.EveryPathSafe | swig/flow_saf_disk_io.cpp:128-135 | with a safe or empty root and safe logical paths every path is safe |
| Torrents.HomesAreSafe | swig/flow_saf_disk_io.cpp:885-888 | then every path that holds bytes of the torrent is safe, if the part file's is |
| Torrents.PartPathSafe | swig/flow_saf_disk_io.cpp:114-114 | which it is for a hexadecimal hash |
| Torrents.CreateTorrentStorage | swig/flow_saf_disk_io.cpp:109-136 | an unsafe root is refused, any other only if the bridge fails; the priorities are filled up, the part file is named by the hash, and safe logical paths and a hexadecimal hash make every path safe that the bridge is handed |
| FlatView.HomesApart | swig/flow_saf_disk_io.cpp:885-892 | bytes of different files never share a place, in public files or in the part file |
| FlatView.WriteHome | swig/flow_saf_disk_io.cpp:936-943 | writing a slice to the file that holds it changes the flat array exactly there |
| FlatView.GrownSlice | swig/flow_saf_disk_io.cpp:936-943 | writing a slice makes the file that holds it longer only to end with a byte written |
| FlatView.FlatFrame | swig/flow_saf_disk_io.cpp:885-892 | changes outside a torrent's own files leave its flat array and what is readable of it |
| BlockLayer.OpenHome | swig/flow_saf_disk_io.cpp:885-890 | the descriptor is on the file that holds the file's bytes, the part file if it is skipped; on error the tree is unchanged |
| BlockLayer.PreadSlice | swig/flow_saf_disk_io.cpp:893-914 | the loop delivers the bytes asked for, or a correct prefix with an error; nothing else of the buffer changes |
| BlockLayer.ReadSlice | swig/flow_saf_disk_io.cpp:885-914 | the bytes of the slice arrive, or an error and a correct prefix; end of file only at the file's end |
| BlockLayer.ReadRange | swig/flow_saf_disk_io.cpp:873-917 | what arrives is the flat array's contents, all of it or a prefix with an error, and could all be read; end of file means the next byte was never written, and with safe paths and a sound bridge a byte that cannot be read is all that stops it |
| BlockLayer.ReadBlock | swig/flow_saf_disk_io.cpp:873-917 | the same for a piece request, shortened at the end of the torrent |
| BlockLayer.PwriteSlice | swig/flow_saf_disk_io.cpp:937-953 | exactly the reported prefix is written at the offset |
| BlockLayer.WriteSlice | swig/flow_saf_disk_io.cpp:931-953 | exactly the reported prefix of the slice is written to the file that holds it |
| BlockLayer.WriteRange | swig/flow_saf_disk_io.cpp:919-956 | the flat array is overlaid with exactly the reported bytes, those of pad files dropped, and they can be read afterwards; only files that hold bytes of the request are touched, and none grows beyond what was written to it; with safe paths and a sound bridge all bytes are written |
| BlockLayer.WriteBlock | swig/flow_saf_disk_io.cpp:919-956 | the same for a piece request |
| PublicCopy.CopyLoop | swig/flow_saf_disk_io.cpp:995-1023 | the chunks together are the first `size` bytes of the source at the start of the destination |
| PublicCopy.CopyTo | swig/flow_saf_disk_io.cpp:982-1024 | the destination becomes exactly the source's first bytes, even if it was longer; its descriptor is closed on every way out |
| PublicCopy.CopyPublicFile | swig/flow_saf_disk_io.cpp:965-1025 | on success an exact copy of the first bytes, a file copied onto itself being cut or extended; on failure only the destination may have changed, and unless the bridge fails a path was unsafe or the source missing or too short; no descriptor stays open |
| MovePlan.PlanExact | swig/flow_saf_disk_io.cpp:1059-1066 | the operations are for exactly the files with data whose path changes |
| MovePlan.TargetsApart | swig/flow_saf_disk_io.cpp:1070-1084 | the collision check keeps every copy off every live file of the torrent |
| MovePlan.CollisionsExactly | swig/flow_saf_disk_io.cpp:1059-1084 | the check over the planned operations passes if and only if no file with data would come to the present path of another |
| MovePlan.PlanOneSource | swig/flow_saf_disk_io.cpp:1045-1046 | two operations with one target have one source |
| MovePlan.CopyStep | swig/flow_saf_disk_io.cpp:1155-1165 | a copy leaves the sources intact and the earlier targets right |
| MovePlan.NoCopyStep | swig/flow_saf_disk_io.cpp:1147-1158 | a file not copied finds at its target what was there before the move |
| MovePlan.LayoutMoved | swig/flow_saf_disk_io.cpp:1155-1175 | after copies and clean-up every file that existed is at its new path with its bytes, except where `dont_replace` keeps a file already there |
| MovePlan.RemovalsExact | swig/flow_saf_disk_io.cpp:1168-1175 | the clean-up is about exactly the old paths that existed and that no file has now |
| MovePlan.FlatMoved | swig/flow_saf_disk_io.cpp:1155-1167 | if the public files have their bytes at the new paths the torrent reads as before |
| MovePlan.MoveKeepsExactly | swig/flow_saf_disk_io.cpp:1027-1176 | a move keeps the flat array and what is readable if and only if every file it adopts reads, up to the file's size, like the one it replaces |
| MovePlan.MoveKeepsFlat | swig/flow_saf_disk_io.cpp:1027-1176 | in particular a move that adopts no file does |
| MovePlan.AdoptingLosesData | swig/flow_saf_disk_io.cpp:1146-1151 | a file that `dont_replace` leaves behind for one of other contents, and which the clean-up removes |
| MovePlan.RerootKeepsExactly | swig/flow_saf_disk_io.cpp:1097-1104 | a change of the root alone keeps the flat array and what is readable if and only if every public file reads, up to its size, under its new path like under its old one |
| MovePlan.RerootLosesData | swig/flow_saf_disk_io.cpp:1097-1104 | a file of one byte and a new root below which there is nothing |
| MovePlan.MoveKeepsDistinct | swig/flow_saf_disk_io.cpp:1045-1046 | after a move the names are apart if and only if no file moved onto the part file |
| MoveStorages.CheckPaths | swig/flow_saf_disk_io.cpp:1035-1047 | passes exactly if all logical and present paths are safe |
| MoveStorages.PlanOperations | swig/flow_saf_disk_io.cpp:1059-1066 | the loop builds the plan of which `MovePlan.PlanExact` says what is in it |
| MoveStorages.CheckCollisions | swig/flow_saf_disk_io.cpp:1070-1084 | passes exactly if no target is the path of another file with data |
| MoveStorages.Prepare | swig/flow_saf_disk_io.cpp:1031-1084 | succeeds exactly if all paths are safe and no file would come to where another one is, with a complete and harmless plan |
| MoveStorages.CheckNoneExist | swig/flow_saf_disk_io.cpp:1106-1126 | with `fail_if_exist` success means that no target exists, and a reported file does |
| MoveStorages.Measure | swig/flow_saf_disk_io.cpp:1128-1153 | what is copied and cleaned up follows from what exists; a full check is due exactly if `dont_replace` meets an existing target |
| MoveStorages.CopyAll | swig/flow_saf_disk_io.cpp:1155-1165 | on success every target holds its file, on failure only targets changed; safe paths and a sound bridge are enough |
| MoveStorages.SourceReady | swig/flow_saf_disk_io.cpp:1155-1165 | when its turn to be copied comes a file is there with the size found before |
| MoveStorages.CleanUp | swig/flow_saf_disk_io.cpp:1168-1175 | no path of the new layout is removed, nothing but old paths is, and every removal due is asked for |
| MoveStorages.Perform | swig/flow_saf_disk_io.cpp:1128-1175 | before the switch nothing is lost whatever fails; after it the new layout is in place |
| MoveStorages.MoveStorage | swig/flow_saf_disk_io.cpp:1027-1176 | on every error the root and paths are unchanged, every file with data has its bytes at its old path and nothing was removed; on success every file that existed is at its new path with its bytes, except where `dont_replace` keeps a file already there, exactly the old paths that no file has any more are asked to be removed, and a full check is due exactly if a kept file was in the way; unless the bridge fails a move succeeds if and only if all names are safe, no file would come to where another one is and, with `fail_if_exist`, no new path is taken |
| MoveStorages.MoveJob | swig/flow_saf_disk_io.cpp:429-440 | the same result for every flag, and an unsafe root is refused; the names change at most by setting the root to the normalized path |
| Migration.OthersKept | swig/flow_saf_disk_io.cpp:1314-1321 | filling the new place of one file touches no byte of another, in particular none of another skipped file in the part file |
| Migration.CopyInvisible | swig/flow_saf_disk_io.cpp:1291-1329 | until the priority is switched the torrent reads as before, however far the copy got |
| Migration.SwitchInvisible | swig/flow_saf_disk_io.cpp:1330-1337 | after the complete copy the torrent reads the same with the new priority, also after the public file was removed |
| Migration.SamePlace | swig/flow_saf_disk_io.cpp:618-623 | a priority change that moves no bytes changes nothing |
| Migration.PartUnused | swig/flow_saf_disk_io.cpp:626-633 | with no file skipped the part file holds nothing readable |
| SettledKeys.SettledHome | swig/flow_saf_disk_io.cpp:885-889 | opening the torrent's own files leaves all cached descriptors at their torrents' paths |
| SettledKeys.NobodyHasFile | swig/flow_saf_disk_io.cpp:1259-1260 | after the file's entries were closed no cached descriptor is at its path |
| SettledKeys.NobodyHasPart | swig/flow_saf_disk_io.cpp:629-629 | after the part file's entries were closed no cached descriptor is at its path |
| Priorities.MigrateLoop | swig/flow_saf_disk_io.cpp:1290-1329 | the bytes that arrived are the file's, zeros where the source does not exist; success needs a source that is missing or long enough |
| Priorities.MigrateInto | swig/flow_saf_disk_io.cpp:1274-1331 | the new place is filled with the file's bytes, or a prefix of them with an error; no descriptor stays open |
| Priorities.MigrateBytes | swig/flow_saf_disk_io.cpp:1262-1337 | whatever fails the torrent reads as before; on success it does so with the new priority |
| Priorities.MigratePriority | swig/flow_saf_disk_io.cpp:1250-1338 | the same with the cache, which stays coherent; only the part file and the one public file change; unless the bridge fails the change works if and only if the target is safe and the place the bytes are in is missing or holds all of them |
| Priorities.ApplyPriority | swig/flow_saf_disk_io.cpp:616-624 | the priority changes only after the bytes moved, under the same condition, a file skipped from now on leaves no public file, and the part file has the length that follows |
| Priorities.ShortPartFileHolds | swig/flow_saf_disk_io.cpp:1298-1311 | two skipped files of which only the first was ever written: the second one's priority cannot be changed |
| Priorities.NextPossible | swig/flow_saf_disk_io.cpp:616-624 | whether a file can follow its priority when its turn comes is decided by the state at the start: the files before it do not make its bytes readable, nor unreadable, except by bringing about a part file that ends before them |
| Priorities.PartEndBounds | swig/flow_saf_disk_io.cpp:1314-1316 | what earlier files bring to the part file ends before the place of the next one |
| Priorities.RemovePartFile | swig/flow_saf_disk_io.cpp:626-633 | removing the part file when nothing is skipped loses nothing |
| Priorities.SetFilePriority | swig/flow_saf_disk_io.cpp:611-636 | on success or at any error point the flat array is the same and nothing readable is lost; the error names the file up to which priorities were set, and the removals asked for are those of the files that went to the part file, and of the part file if no file is skipped; only places of files that follow a change are touched; unless the bridge fails the job succeeds if and only if every change is possible, seen from the state at the start |
| FileJobs.RenameFile | swig/flow_saf_disk_io.cpp:523-548 | a bad index or name is refused; on failure nothing changes; on success path, logical path and file move together and the file's descriptors are closed; unless the bridge fails safe names and an existing file are enough; the cache stays coherent if nobody else has the names open |
| FileJobs.RenameKeepsDistinct | swig/flow_saf_disk_io.cpp:536-545 | a rename keeps names apart if and only if the new name is free or the file is a pad file |
| FileJobs.RenameKeepsExactly | swig/flow_saf_disk_io.cpp:536-545 | a rename keeps the torrent's bytes, whatever they are, if and only if no byte of another file, nor of a skipped one, is kept under the new name; that of a pad file if and only if nothing is kept under either name, or both are the same |
| FileJobs.RenameKeepsFlat | swig/flow_saf_disk_io.cpp:539-545 | in particular a rename to a free name does, and touches only the two names |
| FileJobs.RenameOntoOtherLosesData | swig/flow_saf_disk_io.cpp:539-545 | two files for which a rename onto a taken name loses data |
| FileJobs.SizeFile | swig/flow_saf_disk_io.cpp:1185-1196 | the file exists with its full size, or an error; no byte of the torrent changes, no other file does, and this one is at most cut or extended; the answer to the size query is the truth if it is one |
| FileJobs.InitializeFiles | swig/flow_saf_disk_io.cpp:1178-1199 | on success all public files have their full size; the torrent reads as before, and nothing but public files is touched, each at most cut or extended; a full check is due if and only if a public file existed whose size query was answered |
| FileJobs.KnownExactly | swig/flow_saf_disk_io.cpp:1186-1191 | without a failing query a full check is due if and only if a public file existed |
| FileJobs.FailingQueryHidesFile | swig/flow_saf_disk_io.cpp:1186-1187 | an existing file whose size query fails, for which no full check is asked |
| FileJobs.RemoveData | swig/flow_saf_disk_io.cpp:575-581 | the removal of every file with data is asked for, in order, whatever fails; without an error none is left; nothing else is deleted |
| FileJobs.DeleteFiles | swig/flow_saf_disk_io.cpp:568-590 | asks for exactly the removals the options say and deletes nothing else, all of it if no error is reported, which only a failing bridge causes, and keeps the cache coherent |
| RunSpec.StepGood | swig/flow_saf_disk_io.cpp:787-825 | a job of one torrent keeps the names apart and the cached descriptors with their torrents |
| RunSpec.DeletedIs | swig/flow_saf_disk_io.cpp:568-590 | what the removals leave: only files of the torrent go, every byte of it is kept or zero, the bytes of files that are not skipped are kept with their public files, none is left by a complete delete |
| Runs.RunRead | swig/flow_saf_disk_io.cpp:239-249 | a read reports no error exactly if all it was asked for arrived, which is what the flat array holds; with safe paths and a sound bridge all bytes that can be read arrive |
| Runs.RunWrite | swig/flow_saf_disk_io.cpp:282-287 | a write stores a prefix of its bytes, all that fit exactly if it reports no error, and always so with safe paths and a sound bridge; it touches only files that hold bytes of the request; other torrents are as before |
| Runs.RunMove | swig/flow_saf_disk_io.cpp:429-440 | a move keeps the cache coherent and all other torrents' arrays; it keeps its own torrent's if it fails, and on success if and only if every file it adopts, or finds under a root that was only reset, reads like the one it leaves, which `fail_if_exist` guarantees; it succeeds, unless the bridge fails, exactly if it is allowed, and asks for exactly the removals due |
| Runs.ExactMove | swig/flow_saf_disk_io.cpp:1027-1176 | the log entry of a move says that bytes may be lost exactly if a file it adopts reads unlike the one it leaves |
| Runs.MoveOntoNothing | swig/flow_saf_disk_io.cpp:1128-1165 | at any point of a run a move that finds nothing in its way is logged as losing nothing |
| Runs.RunRename | swig/flow_saf_disk_io.cpp:523-548 | a rename to a free name, also of a pad file, keeps every torrent's flat array, and moves path, name and file together or nothing |
| Runs.RunPrioritize | swig/flow_saf_disk_io.cpp:611-636 | a change of priorities keeps every torrent's flat array, works, unless the bridge fails, exactly if it is possible, and reports the priorities set, which end at the file that the error names |
| Runs.RunCheck | swig/flow_saf_disk_io.cpp:477-494 | checking the files keeps every torrent's flat array and touches nothing but public files, without resume data; a full check is due, and a file too long, exactly as the resume data, or the files there, say |
| Runs.RunRelease | swig/flow_saf_disk_io.cpp:450-456 | releasing the files keeps every torrent's flat array |
| Runs.RunHash | swig/flow_saf_disk_io.cpp:318-349 | the digests are those of the bytes that the log entry says the job got, of the flat array; it works, unless the bridge fails, exactly if these can be read and there are places enough |
| Runs.RunHashAt | swig/flow_saf_disk_io.cpp:384-395 | the same for the digest of a block |
| Runs.RunDelete | swig/flow_saf_disk_io.cpp:568-590 | a delete keeps the cache coherent and all other torrents' arrays; it asks for exactly the removals its options say; every byte of its own is kept or reads as zero, those of files that are not skipped are kept if only the part file goes, and with the option for the files and no error, which only a failing bridge causes, all are zero |
| Runs.RunOne | swig/flow_saf_disk_io.cpp:734-738 | one job of any kind, or a change of the settings: its reply, its entry in the log and the states before and after it fit together, every torrent changed as the entry says, and nothing but the torrent's own descriptors came to the cache |
| Runs.Run | swig/flow_saf_disk_io.cpp:722-741 | over any sequence of jobs with any failures: after every step each torrent's flat array is the one before with that step's log entry applied, and at the end the initial one with the whole log; every byte read or hashed is what the log before it says; nothing that could be read or was written is lost except by a delete or by a move that adopts, or finds under a root that was only reset, a file reading unlike its own; every step does what its reply says and, where the bridge does not fail, fails only under its condition; and the cache is coherent and owns every open descriptor |
| Runs.StretchesAdvance | swig/flow_saf_disk_io.cpp:722-741 | between any two states of a run every torrent changed as that stretch of the log says, and the torrents stay apart |
| Runs.RunToShutdown | swig/flow_saf_disk_io.cpp:740-740 | the same, states included, up to the end, when every descriptor that was ever opened has been closed |
| Tenancies.ReplaceTenant | swig/flow_saf_disk_io.cpp:189-217 | a torrent that takes over an index after the removal of its last owner, or a new index: exactly the index's descriptors are closed, and the cache and the other torrents stay as a run needs them |
| Tenancies.RunStays | swig/flow_saf_disk_io.cpp:189-217 | torrents come to the slots, or to new ones, any number of times, with any jobs in between: in the state each finds no descriptor is cached under its index, nothing of the others changed by its coming, and every run is as `Runs.Run` says |
| Protocol.QueueStep | swig/flow_saf_disk_io.cpp:704-741 | accepted jobs are executed, running or queued, in order, after every step |
| Protocol.OutcomesAdded | swig/flow_saf_disk_io.cpp:711-720 | a submission is accepted or aborted, exactly once, and nothing else adds an outcome |
| Protocol.SlotStep | swig/flow_saf_disk_io.cpp:189-217 | the free list holds exactly the empty slots, each once, after every step |
| Protocol.NewIndexUnused | swig/flow_saf_disk_io.cpp:189-207 | a new torrent never gets an index in use |
| Protocol.IsolationStep | swig/flow_saf_disk_io.cpp:209-217 | every queued job will find only descriptors of its own torrent under its index |
| Protocol.RunInv | swig/flow_saf_disk_io.cpp:672-741 | all of this holds in every reachable state |
| Protocol.HistoryGrows | swig/flow_saf_disk_io.cpp:672-741 | executed and accepted jobs are never forgotten, and nothing is accepted once the shutdown began |
| Protocol.ExecutedInOrder | swig/flow_saf_disk_io.cpp:722-741 | accepted = executed, then running, then queued |
| Protocol.DrainedAtExit | swig/flow_saf_disk_io.cpp:672-683 | once the worker has left, every accepted job has been executed and no descriptor is cached |
| Protocol.NothingAcceptedAfterAbort | swig/flow_saf_disk_io.cpp:672-720 | a submission after the shutdown began is aborted exactly once and never accepted |
| Protocol.JobFindsOwnDescriptors | swig/flow_saf_disk_io.cpp:209-217 | a job on a reused index finds no descriptor of an earlier torrent |
| Protocol.WholeRun | swig/flow_saf_disk_io.cpp:189-217 | in every reachable state: over the whole sequence of jobs ever accepted, each finds at most descriptors that jobs of its own torrent before it left open, jobs name slots and torrents there are, and a torrent keeps its slot for ever |
| Protocol.LateJobExactly | swig/flow_saf_disk_io.cpp:697-720 | a job queued some time after its torrent was looked up keeps the isolation if and only if the torrent is still there |
| Protocol.LateJobBreaksIsolation | swig/flow_saf_disk_io.cpp:697-720 | a state that satisfies all invariants and a late job after which the next torrent would find the descriptor of the one before |
| Workers.RunWork | swig/flow_saf_disk_io.cpp:697-720 | the job of a torrent is one step of a run in the torrent's slot; if the slot was another torrent's, no descriptor is cached under its index |
| Workers.RunClose | swig/flow_saf_disk_io.cpp:209-217 | a release, or the job queued by a removal, closes exactly the descriptors of the index; after a removal the slot and its paths are nobody's |
| Workers.RunWorker | swig/flow_saf_disk_io.cpp:672-741 | for every interleaving of the threads: every job ever accepted is run, once and in the order of acceptance, as a step of a run on the disk and the cache, finding no other torrent's descriptors under its index, and at the end no descriptor is open |
| Resume.CheckFile | swig/flow_saf_disk_io.cpp:1207-1223 | pad and skipped files are not asked about; missing, wrongly sized and too long files set exactly their flags |
| Resume.CheckAll | swig/flow_saf_disk_io.cpp:1225-1230 | a full check is due exactly if some relevant file is missing or has the wrong size, oversized exactly if one is too long |
| Resume.PieceSlices | swig/flow_saf_disk_io.cpp:1238-1239 | the slices of a piece name exactly the files it overlaps |
| Resume.CheckSlices | swig/flow_saf_disk_io.cpp:1240-1246 | looks exactly at the named files not looked at before |
| Resume.CheckPiece | swig/flow_saf_disk_io.cpp:1235-1246 | after a held piece the files looked at are exactly those of the held pieces so far |
| Resume.CheckHeld | swig/flow_saf_disk_io.cpp:1232-1247 | a full check is due exactly if a held piece overlaps a relevant file that is missing; exactly the relevant files of held pieces are asked about |
| Resume.ValidateResume | swig/flow_saf_disk_io.cpp:1201-1248 | both cases together; by the bridge's log exactly the files named are asked about, none twice, and an error, which only a failing query causes, names the file |
| CheckFilesJob.CheckFiles | swig/flow_saf_disk_io.cpp:477-494 | hard links are refused; resume data that claims something is compared with the files, with the full check and the oversized files it makes known, and changes none; otherwise the public files are brought to size; nothing else but unsafe paths or a failing bridge makes it fail |
| Hashing.LeavesJoin | swig/flow_saf_disk_io.cpp:342-347 | the leaf blocks tile the piece |
| Hashing.LeavesFull | swig/flow_saf_disk_io.cpp:344-345 | every leaf but the last has 16 KiB |
| Hashing.LeafAt | swig/flow_saf_disk_io.cpp:338-345 | there are as many leaves as the ceiling quotient says, and the range at the k-th offset is the k-th leaf |
| Hashing.HashLeaves | swig/flow_saf_disk_io.cpp:338-347 | refuses exactly if there are too few places, else stores the digests of the leaves in order and leaves the other places alone |
| Hashing.HashPiece | swig/flow_saf_disk_io.cpp:318-349 | v1 is the digest of the whole piece and v2 of the leaves of the part that belongs to its file, both of the flat array; on error nothing was stored; unless the bridge fails it works if and only if these bytes can be read and there are places enough |
| Hashing.HashBlock | swig/flow_saf_disk_io.cpp:384-395 | the digest of up to 16 KiB at any offset in the piece, refused exactly behind its end; at block k's offset it is the one `async_hash` stores for block k; unless the bridge fails it works if and only if these bytes can be read |
| PiecesTrackers.SliceIsShare | src/main/java/org/libtorrent4j/PiecesTracker.java:42-47 | a file's slice of a range is as large as the file's part of the range |
| PiecesTrackers.EmptyFile | src/main/java/org/libtorrent4j/PiecesTracker.java:31-34 | a file of no bytes, looked up at the offsets 0 and -1, has a row of no or one existing piece |
| PiecesTrackers.SliceSize | src/main/java/org/libtorrent4j/PiecesTracker.java:42-47 | the inner loop finds the number of bytes the file has in the piece |
| PiecesTrackers.MakeRow | src/main/java/org/libtorrent4j/PiecesTracker.java:30-48 | the row lists the pieces from the file's first to its last with the file's bytes in each |
| PiecesTrackers.RowSumsToSize | src/main/java/org/libtorrent4j/PiecesTracker.java:30-48 | the row sums to the file's size |
| PiecesTrackers.RowListsPieces | src/main/java/org/libtorrent4j/PiecesTracker.java:31-39 | a file with bytes is listed with exactly the pieces it has a byte in |
| PiecesTrackers.Prefix | src/main/java/org/libtorrent4j/PiecesTracker.java:68-84 | the reference: the longest prefix of the file, byte by byte, in complete pieces |
| PiecesTrackers.PrefixMonotone | src/main/java/org/libtorrent4j/PiecesTracker.java:64-66 | completing pieces never shortens it |
| PiecesTrackers.PrefixWhole | src/main/java/org/libtorrent4j/PiecesTracker.java:68-84 | it is the whole file exactly if every overlapping piece is complete |
| PiecesTrackers.PrefixOfPieces | src/main/java/org/libtorrent4j/PiecesTracker.java:73-81 | the bytes before the first incomplete piece are that prefix |
| PiecesTrackers.PiecesTracker.constructor | src/main/java/org/libtorrent4j/PiecesTracker.java:19-51 | a table with a right row for every file and no piece complete |
| PiecesTrackers.PiecesTracker.SetComplete | src/main/java/org/libtorrent4j/PiecesTracker.java:64-66 | exactly one flag changes, and completing decreases no file's prefix |
| PiecesTrackers.PiecesTracker.GetSequentialDownloadedBytes | src/main/java/org/libtorrent4j/PiecesTracker.java:68-84 | the size of the reference prefix |
| PiecesTrackers.PiecesTracker.GetSequentialDownloadedPieces | src/main/java/org/libtorrent4j/PiecesTracker.java:86-102 | the complete pieces the row begins with, whose bytes are the reference prefix |
| AlertMulticasters.AlertVisitsList | src/main/java/org/libtorrent4j/AlertMulticaster.java:25-28 | an alert visits the tree's listeners from left to right |
| AlertMulticasters.AddAppends | src/main/java/org/libtorrent4j/AlertMulticaster.java:50-54 | adding appends to the list and keeps the tree left-leaning |
| AlertMulticasters.DropLastWhere | src/main/java/org/libtorrent4j/AlertMulticaster.java:38-48 | the reference removal drops exactly one occurrence, the last |
| AlertMulticasters.RemoveDropsLast | src/main/java/org/libtorrent4j/AlertMulticaster.java:38-62 | removing from a left-leaning tree drops the last occurrence and keeps the shape |
| AlertMulticasters.RemoveUndoesAdd | src/main/java/org/libtorrent4j/AlertMulticaster.java:38-62 | taking back the listener added last restores the tree |
| AlertMulticasters.RemoveAbsent | src/main/java/org/libtorrent4j/AlertMulticaster.java:43-45 | removing an absent listener changes nothing |
| AlertMulticasters.SlotRefinesList | src/main/java/org/libtorrent4j/SessionManager.java:1036-1042 | after any adds and removes an alert visits exactly the registered listeners in order |
| AlertMulticasters.RemoveNeedsLeftLeaning | src/main/java/org/libtorrent4j/AlertMulticaster.java:41-47 | a tree no run builds, from which one removal drops two occurrences |
| SampleSeries.SlotIsRemainder | src/main/java/org/libtorrent4j/IntSeries.java:46-49 | the slot of a sample is its number modulo the length |
| SampleSeries.PointersNext | src/main/java/org/libtorrent4j/IntSeries.java:45-57 | wrap-around keeps `head` and `end` at the oldest and the newest sample and `size` at their distance |
| SampleSeries.KeepsNext | src/main/java/org/libtorrent4j/IntSeries.java:45-57 | one more sample overwrites only the oldest |
| SampleSeries.IntSeries.constructor | src/main/java/org/libtorrent4j/IntSeries.java:19-31 | an empty series |
| SampleSeries.IntSeries.Add | src/main/java/org/libtorrent4j/IntSeries.java:37-58 | the values added grow by one and the buffer keeps the last of them |
| SampleSeries.IntSeries.Get | src/main/java/org/libtorrent4j/IntSeries.java:78-80 | after k values `get(i)` is value number k - size + i, coming round again for other i; it throws exactly on an empty series or at a negative position, after 32-bit wrap-around, that is no multiple of the size |
| SampleSeries.IntSeries.Size | src/main/java/org/libtorrent4j/IntSeries.java:92-94 | the smaller of the number of values added and the capacity |
| SampleSeries.IntSeries.Last | src/main/java/org/libtorrent4j/IntSeries.java:88-90 | returns the newest value if and only if it is not in slot 0 or is 0; otherwise 0 |

## Left out

- `get_status`, statistics counters, time stamps and the buffer pool: no influence on the bytes.
- `async_clear_piece` and `async_stop_torrent`: dispatch only.
- Completion handlers are called through an event loop; the model returns their arguments, and
  `Protocol` records whether a handler gets a result or an abort.
- Liveness: `enqueue` does not wake the worker, `submit_jobs` does; `Protocol` proves safety and that
  nothing is left at shutdown.
- `Protocol` does not look inside the jobs: a running job may open and close descriptors of its own
  torrent at any time. What the jobs do to the disk and the cache is the subject of `Workers.RunWorker`.
- Workers.RunWork: passes over the jobs of a torrent that keeps its data at a path of another torrent whose
  jobs have begun and whose removal has not been executed, because the assumption on names ends there.
- Runs.RunOne: passes over renames and moves to safe names that other data has, because the assumption
  on names ends there, and over pieces that do not exist (`Runs.PassedOver`). A change of the
  settings comes between two jobs; during one it would take effect at the next eviction.
- MoveStorages.MoveStorage: the removal of old files is stated as asked for, since the code ignores
  whether it succeeds.
- Transfer.PreadAll: the function passed in is fixed to `pread`, and to `pwrite` in
  `Transfer.PwriteAll`; the check that it does not report more than was asked for is kept.
- PiecesTrackers.PiecesTracker.constructor: the rows of the table are values, since nothing changes
  them after construction, and a torrent with files but without any byte is excluded, for which the
  constructor asks libtorrent for the size and the files of a piece that does not exist.
- Hashing.HashBlock: offsets are not negative, as libtorrent's are.
- SampleSeries.IntSeries.constructor: a null or empty buffer, which the code refuses with an
  exception, is excluded.
- `scoped_descriptor` closes on every way out of its scope; the model calls `Close` there.
- The SWIG classes, the alert wrappers, `SessionManager`, `SessionStats`, `Hex` and `getentropy`:
  foreign calls or simple conversions.
