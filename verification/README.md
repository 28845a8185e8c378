# Jellybird: a model of the library, the local copies and the limiters

Jellybird mirrors the cloud storage of debrid services into a media library: each video becomes
a database row and a `.strm` file that holds a stream URL, and users can keep a file locally
instead. This project models the parts where several stores change together or where a bound must
hold over a whole run, and proves what they promise.

| Modules | What they model |
|---|---|
| `Library`, `Snapshot` | what one sync makes of a cloud snapshot, as functions on rows, copies and disk: which files count, the candidate paths of each, relocation, writing, pruning |
| `LibrarySafety`, `LibraryCopies`, `CopyLosses`, `CopyLossExamples`, `LibraryNames` | what every sync, prune, torrent removal and wipe keeps, and exactly when a sync loses a copy |
| `LibraryConvergence`, `LibraryRounds`, `LibraryFixpoint` | repeated syncs of an unchanged cloud, and how files and copies come to rest |
| `CloudSync` | the outcome of one sync and of repeated syncs, for the snapshots of a cloud |
| `LibraryWriter` | the loops and updates of `SyncProvider` and its helpers, proved equal to those functions |
| `LocalFiles` | the `local_files` table, statement by statement |
| `KeepLocal`, `KeepLocalRuns`, `KeepLocalRaces` | one "keep local" entry as a state machine: any number of downloads, Moves and Removes, sync relocations, crashes and restarts, interleaved; and, of what Removes leave behind, exactly what makes queueing the entry afresh break it |
| `KeepLocalOutcomes` | how a Move, a Remove or a download of that entry ends when nobody interferes, and what an interrupted one leaves |
| `KeepLocalStatements` | the machine's row against the table: every step is one of its statements or none |
| `Download`, `TempNames` | the resumable transfer into the `.part` file, its disk-space check and its name |
| `Folders` | pruning of emptied folders |
| `TokenBucket`, `ProviderClient`, `LoginLimiter` | the two rate limiters and the retry loop |
| `EpisodeNames`, `Discover` | library paths as a printer, read back by two parsers |
| `RealDebrid` | two walks over a file list that must agree |
| `Text`, `Words`, `Paths`, `Wrappers` | strings, words, paths and `Option` |

In each stateful module the imperative part (a class or a method with loops) is proved equal to a
function of the old state; the lemmas about whole runs are about those functions.

## What does not hold

- Two rows share a `.strm` path after a step exactly when all candidates of the file belonged to
  others (`LibrarySafety.StepKeepsDistinct`). For cleanly named files that never happens
  (`LibraryNames.NeverExhausted`).
- The prune loop recognises files by "torrent/file". Two keys of a provider look alike exactly when
  one torrent ID is the other with a slash and some text appended, and the other's file ID starts
  with that text and a slash (`LibrarySafety.SeenKeyCollides`); then a vanished file stays
  (`LibrarySafety.SlashKeepsVanishedRow`). Slash-free file IDs rule it out; Real-Debrid's are
  numbers, TorBox's are whatever its API sends as a string.
- A sync loses a recorded copy exactly when one of its steps relocates another copy onto it, or away
  from it when both are recorded at the same place (`CopyLosses.RunSparesCopiesIff`,
  `CopyLosses.SyncKeepsCopiesIff`). Which runs do so can be read off the copies before the run and the
  paths its files get (`CopyLosses.NeverHarmsIff`). An orphan can be lost
  (`CopyLossExamples.OrphanIsOverwritten`), and so can the source of a Move in progress: it is not
  relocated, yet nothing keeps its place for it (`CopyLossExamples.MovingIsOverwritten`). A finished
  copy at its row's place is never overwritten, but it is taken away when an orphan recorded at the
  same place comes back and has to go elsewhere (`CopyLossExamples.HomeIsTaken`), and only then
  (`LibraryCopies.SyncKeepsDoneCopies`).
- With nothing in flight but Removes and downloads that a Remove has cancelled, queueing an entry
  afresh does harm exactly when a Remove has a finished copy in the download folder to delete yet, or
  one of them the staging file of a file that can be pieced together wrongly, or a cancelled download
  can empty the staging file yet or mark the row failed, or a wrong staging file is left that a
  download would build on (`KeepLocalRaces.EnqueueHarmsIff`). Runs from a clean start get there:
  `KeepLocalRaces.CancelledDownloadHarms`, whose Remove is over, `KeepLocalRaces.FreshCopyIsLost` and
  `KeepLocalRaces.WrongContentIsPromoted`. For downloads that nobody has told to stop and for Moves
  the guard of `KeepLocal` is only sufficient; `KeepLocalRaces.MovedCopyIsLost` is a run with a Move.
- Two entries share a staging file exactly when their IDs differ in replaced characters only, as
  long as provider and file IDs have no dash (`TempNames.TempNamesEqual`, `TempNames.DotsCollide`);
  a dash in a file ID makes further collisions (`TempNames.DashesCollide`).
- A movie whose title starts with two dots is filed but not found by Discover, and no other title
  is missed (`Discover.FoundUnlessDotDot`).
- The limiter's "requests per minute" admits twice that number in one minute, and no more
  (`TokenBucket.TwiceTheRateHappens`, `TokenBucket.MinuteBound`). The login limiter's "5 failed
  logins per 15 minutes" admits 8 in 15 minutes, and no more (`LoginLimiter.BoundIsReached`,
  `LoginLimiter.WindowBound`).
- The documentation names duplicate versions by a release tag; the code numbers them, and the
  model follows the code (`LibraryWriter.Writer.UniquePath`).

## Model

| member | source | states |
|---|---|---|
| `CloudSync.SyncMirrorsCloud` | internal/strm/writer.go:139-346 | after one error-free sync of a cleanly named cloud, whatever was on disk: the provider's rows are exactly the selected files of its ready torrents, each has exactly its URL at its own path or nothing when a finished copy stands in, other providers are untouched, and a vacated path is gone unless another row took it |
| `CloudSync.SyncTracks` | internal/strm/writer.go:111-200 | exactly which files have a row after a sync, in names and sizes: those of a ready torrent with a media name and a size that is unknown or within the limits that are set, and of these with a hint the first largest one, without one those of unknown size or of three tenths of every other; and the row says what the file is |
| `CloudSync.LimitsDecide` | internal/strm/writer.go:111-200 | a file under the minimum or over the maximum size has no row, and the only file of a ready torrent within the limits has one, hint or no hint |
| `CloudSync.StepChooses` | internal/strm/writer.go:262-293 | a file of a cleanly named cloud is recorded at the path that `LibraryNames.PathChosen` describes |
| `CloudSync.SnapshotKeys` | internal/strm/writer.go:144-200 | the loops visit exactly the selected files of ready torrents |
| `CloudSync.SnapshotDistinct` | internal/strm/writer.go:144-200 | distinct IDs in the cloud give each visited file a key of its own |
| `CloudSync.CleanSnapshotItems` | internal/strm/writer.go:262-280 | the files of a cleanly named cloud have cleanly named candidates, all of them `.strm` paths |
| `CloudSync.SnapshotInLibrary` | internal/strm/writer.go:262-280 | and all of them inside the library when the files are laid out there |
| `CloudSync.CloudSyncKeepsCopies` | internal/strm/writer.go:139-346 | a sync of such a cloud loses no recorded copy when all are at their rows' places and no file with a Move in progress changes its place |
| `CloudSync.CloudsComeToRest` | internal/strm/writer.go:139-346 | syncing the same clouds of several providers over and over, from any healthy library and whatever its copies: after the first round at most 10 rounds per file relocate anything, and after at most 11 per file (12 when files are laid out in the download folder) every round writes nothing, renames nothing, deletes nothing and changes nothing but time stamps, with every copy where the syncs want it or missing |
| `Snapshot.HintedTorrentGivesLargest` | internal/strm/writer.go:158-189 | with a hint exactly the first largest video of a torrent counts |
| `Snapshot.UnhintedTorrentGivesFeatures` | internal/strm/writer.go:158-198 | without one, exactly the videos of unknown size and those of at least 3/10 of every video in the torrent count |
| `Snapshot.SnapshotItemsFrom` | internal/strm/writer.go:144-200 | an item is produced if and only if it comes from a selected file of a ready torrent |
| `LibrarySafety.StepKeepsDistinct` | internal/strm/writer.go:377-418 | one file's step leaves all `.strm` paths with one owner if and only if its alternates are not exhausted |
| `LibrarySafety.RunPlaces` | internal/strm/writer.go:280-325 | after the loop every visited file is at one of its candidates with its own URL, or with none when its finished copy stands in: later files undo no earlier one |
| `LibrarySafety.RunLeavesOthers` | internal/strm/writer.go:284-325 | rows not visited, of this or another provider, keep their row and their `.strm` content |
| `LibrarySafety.RunTidies` | internal/strm/writer.go:284-293 | a path that was tracked is afterwards tracked by somebody or not on disk |
| `LibrarySafety.SyncRows` | internal/strm/writer.go:329-345 | exactly which of the provider's rows survive the prune, for any IDs and any clock |
| `LibrarySafety.SeenKeyCollides` | internal/strm/writer.go:199-200 | exactly when two keys of a provider have the same "torrent/file" text |
| `LibrarySafety.SeenKeyInjective` | internal/strm/writer.go:199-200 | slash-free file IDs make that text unambiguous |
| `LibrarySafety.SyncMirrorsSnapshot` | internal/strm/writer.go:329-345 | with such IDs and no row from the future, the rows after a sync are exactly the snapshot's files |
| `LibrarySafety.SlashKeepsVanishedRow` | internal/strm/writer.go:334-337 | a concrete TorBox cloud with a slash in a file ID whose vanished file is not pruned |
| `LibrarySafety.SyncOutcome` | internal/strm/writer.go:139-346 | the outcome of one sync in which no file runs out of alternates, for arbitrary names |
| `LibrarySafety.RemoveRowsKeeps` | internal/strm/writer.go:457-502 | removing any set of rows deletes exactly their `.strm` files and no surviving row's, and touches no copy |
| `LibrarySafety.RemovalsTake` | internal/strm/writer.go:468-502 | a torrent removal takes exactly the rows of that torrent of that provider, a wipe all, and their `.strm` files |
| `LibrarySafety.RunsStayHealthy` | internal/strm/writer.go:139-502 | over every run of syncs of any providers, removals and wipes no two rows share a `.strm` path, unless a sync exhausts its alternates |
| `LibraryNames.FileTagUnique` | internal/strm/writer.go:393-398 | the last alternate's tag belongs to one key only and is never another key's torrent tag |
| `LibraryNames.CandidateShape` | internal/strm/writer.go:377-406 | each candidate extends the stem without a slash, and its bracket tag, if it has one, is the file's own |
| `LibraryNames.CandidatesText` | internal/strm/writer.go:377-407 | the candidates as text and in order: the stem with the version label, eight numbered ones, the label with the torrent tag, the label with the file tag |
| `LibraryNames.PathChosen` | internal/strm/writer.go:377-407 | the path chosen for a clean name: stem and label when that is free, else the label with the least free number from 2 to 9, else with the torrent tag, else with the file tag |
| `LibraryNames.NeverExhausted` | internal/strm/writer.go:377-407 | for clean names some candidate is always free |
| `LibraryNames.CleanItemIsLibraryItem` | internal/strm/writer.go:377-407 | when the base path is a `.strm` inside the library, so is every candidate |
| `LibraryNames.RunStaysOwned` | internal/strm/writer.go:377-407 | a run over clean files never exhausts anybody's alternates, and every row keeps a path that carries no foreign tag |
| `LibraryNames.CleanRunsStayHealthy` | internal/strm/writer.go:139-502 | over every run on cleanly named clouds no two rows ever share a `.strm` path, without further conditions |
| `LibraryNames.CleanRunsAreSmooth` | internal/strm/writer.go:377-407 | and no sync of such a run finds all candidates of a file taken |
| `LibraryConvergence.StepRank` | internal/strm/writer.go:284-293 | a tracked file's place in its own candidate list never rises, and a relocation lowers it |
| `LibraryConvergence.RunStaysSettled` | internal/strm/writer.go:284-325 | over one run no file's rank rises, and each relocation lowers the sum of ranks by at least one |
| `LibraryConvergence.SyncsConverge` | internal/strm/writer.go:139-346 | the same over every schedule of syncs of an unchanged cloud: all relocations together are bounded by the initial sum |
| `LibraryConvergence.TenMovesPerFile` | internal/strm/writer.go:377-407 | so at most 10 syncs per file ever relocate anything |
| `LibraryConvergence.SyncReportCounts` | internal/strm/writer.go:131-345 | a sync reports as created the files that are new, as updated the tracked ones without a finished copy and once more those it relocates, as removed the rows that are gone |
| `LibraryRounds.SyncMakesSteady` | internal/strm/writer.go:139-346 | one sync places its provider's files, whatever else the library holds and wherever the copies are |
| `LibraryRounds.SyncStaysSteady` | internal/strm/writer.go:139-346 | every further sync of the unchanged cloud, relocating or not, keeps all files placed |
| `LibraryRounds.FirstRoundMakesSteady` | internal/strm/writer.go:139-346 | after one round over all providers every file is placed, from any healthy library |
| `LibraryRounds.FirstRoundPrunes` | internal/strm/writer.go:329-345 | and nothing is left to prune |
| `LibraryFixpoint.HopsFall` | internal/strm/local.go:176-203 | following the layout, a copy whose file stays put is renamed at most twice: each rename leaves fewer to come |
| `LibraryFixpoint.OneHop` | internal/strm/local.go:176-203 | and at most once when the file is laid out in the library, outside a separate download folder |
| `LibraryFixpoint.QuietSync` | internal/strm/writer.go:421-432 | a sync with nothing to relocate or prune writes no `.strm` and changes no row but for its time stamp, renames copies only as often as they have renames to come, and when it renames none changes nothing else at all |
| `LibraryFixpoint.QuietRoundIsFixpoint` | internal/strm/writer.go:139-346 | once a round of syncs relocates no file and renames no copy, every repetition of it does nothing but set time stamps |
| `LibraryFixpoint.RoundsComeToRest` | internal/strm/writer.go:139-346 | of any rounds over a placed library of n files at most 10 * n relocate files, and then at most n (2 * n for files in the download folder) rename copies, before all is at rest for good |
| `LibraryFixpoint.CloudComesToRest` | internal/strm/writer.go:139-346 | the same from any healthy library, after its first round, with every copy then where the syncs want it or missing; in particular every finished copy on disk under one of the two roots, of a file laid out in the library, is then at its row's place |
| `LibraryFixpoint.SyncsKeepDoneHome` | internal/strm/local.go:176-203 | finished copies of the cloud's files that are at their rows' places stay there over any syncs of it, whatever orphans and Moves in progress there are |
| `LibraryCopies.HomesApart` | internal/strm/local.go:17-74 | a copy at its row's place is never where another `.strm` path would put a copy |
| `LibraryCopies.StepKeepsCopies` | internal/strm/local.go:176-203 | when every copy sits at its row's place and the file at hand has no Move in progress that its new place would leave behind, one step keeps every copy's content and leaves every copy at its row's place |
| `LibraryCopies.RunKeepsDoneIff` | internal/strm/local.go:176-203 | a finished copy at its row's place survives a run, and is at its row's place afterwards, if and only if no other file's copy is recorded at the same place and has to go elsewhere; orphans, copies elsewhere, missing files and Moves in progress make no difference |
| `LibraryCopies.SyncKeepsDoneCopies` | internal/strm/writer.go:139-346 | the same for a whole sync, its prune included |
| `LibraryCopies.ReadyIsUntaken` | internal/strm/local.go:176-203 | which is so when the finished copies of all visited files are at their rows' places |
| `LibraryCopies.SyncKeepsCopies` | internal/strm/writer.go:139-346 | and none at all, copies with a Move in progress included, when all are at their rows' places and no file with a Move in progress changes its place |
| `LibraryCopies.RemovalsKeepCopies` | internal/strm/writer.go:468-502 | torrent removals and wipes keep every recorded copy, wherever it sits |
| `CopyLosses.StepKeepsCopyIff` | internal/strm/local.go:176-203 | a step leaves another recorded copy as it was if and only if it does not take that very file away or relocate other content onto it |
| `CopyLosses.RunSparesCopiesIff` | internal/strm/local.go:176-203 | at every point of a run all recorded copies have their contents if and only if no step does so |
| `CopyLosses.SyncKeepsCopiesIff` | internal/strm/writer.go:139-346 | after a sync of files with different contents every recorded copy has its content if and only if no step does so |
| `CopyLosses.NeverHarmsIff` | internal/strm/local.go:176-203 | for distinct files no step does so if and only if no copy that has to go elsewhere meets another where it is or where it goes, as told by the copies before the run and the paths the files get |
| `CopyLosses.SyncKeepsCopiesExactly` | internal/strm/writer.go:139-346 | so that tells whether a sync keeps all copies |
| `CopyLossExamples.MovingIsOverwritten` | internal/strm/local.go:186-194 | a concrete library, all copies at their rows' places, in which the source of a Move in progress is overwritten |
| `CopyLossExamples.OrphanIsOverwritten` | internal/strm/local.go:189-194 | a concrete library in which an orphaned copy is lost to a relocation |
| `CopyLossExamples.HomeIsTaken` | internal/strm/local.go:189-194 | a concrete library in which a finished copy at its row's place is taken away by a returning orphan's relocation |
| `LibraryCopies.ReportBalances` | internal/strm/writer.go:131-135 | rows created minus rows removed, as reported, is the change in the number of rows |
| `LibraryCopies.KeepThenGiveUp` | internal/strm/local.go:116-169 | keeping a file and giving it up again restores the library, apart from the consumed download and what was at the copy's place |
| `LibraryCopies.PromotedPlace` | internal/strm/local.go:116-134 | a finished download lies below the download folder where its `.strm` lay below the library, with its file's own extension; the `.strm` and the `.part` file are gone |
| `LibraryCopies.RelocatedPlace` | internal/strm/local.go:176-203 | a finished copy that follows the layout lies below its root where the `.strm` lies below the library, with its file's own extension |
| `LibraryWriter.Writer.SyncProvider` | internal/strm/writer.go:139-346 | the nested loops compute exactly the sync the lemmas are about, and its report |
| `LibraryWriter.Writer.SyncTorrent` | internal/strm/writer.go:145-200 | one ready torrent adds exactly its items to what the sync has done |
| `LibraryWriter.Writer.VisitFile` | internal/strm/writer.go:188-325 | the selection tests pass exactly the selected files on |
| `LibraryWriter.Writer.SyncFile` | internal/strm/writer.go:262-325 | placing, relocating, recording and writing one file is one step, and counts what the report counts |
| `LibraryWriter.Writer.PrimaryFile` | internal/strm/writer.go:158-178 | the loop finds the first largest video |
| `LibraryWriter.Writer.MaxVideoSize` | internal/strm/writer.go:179-189 | the loop finds the largest video size |
| `LibraryWriter.Writer.UniquePath` | internal/strm/writer.go:377-407 | the candidates built in the code's order, and the first free one chosen; the wanted one when none is |
| `LibraryWriter.Writer.StrmPathTakenByOther` | internal/store/store.go:412-421 | true if and only if a row of another key has the path |
| `LibraryWriter.Writer.UpsertFile` | internal/store/store.go:167-190 | inserts or updates one row and tells which |
| `LibraryWriter.Writer.WriteStrm` | internal/strm/writer.go:421-432 | a file that already holds the URL is not written again |
| `LibraryWriter.Writer.KeepLocal` | internal/strm/local.go:176-203 | true if and only if a finished copy stands in; then the copy follows the layout within its root and the `.strm` is gone |
| `LibraryWriter.Writer.PromoteLocal` | internal/strm/local.go:116-134 | succeeds if and only if the row lies in the library and the download exists, and then puts it in the place of the `.strm` |
| `LibraryWriter.Writer.RemoveLocalCopy` | internal/strm/local.go:138-169 | deletes a finished copy under one of the two roots and writes the `.strm` back |
| `LibraryWriter.Writer.Prune` | internal/strm/writer.go:329-345 | in whatever order rows are listed, exactly the unseen rows older than the sync go, with their `.strm` files |
| `LibraryWriter.Writer.RemoveTorrent` | internal/strm/writer.go:468-482 | exactly the rows of the torrent go, with their `.strm` files |
| `LibraryWriter.Writer.WipeLibrary` | internal/strm/writer.go:489-502 | every row goes, with its `.strm` file, and the count is right |
| `Paths.LocalPathIsNotStrm` | internal/strm/local.go:17-23 | a local copy is never named like a `.strm` file, whatever the source file is called |
| `Paths.CopyKeepsExtension` | internal/strm/local.go:17-23 | a copy has the stem of its `.strm` and the extension of its file in small letters; `.mkv` for a `.strm` and for a name without one |
| `Paths.LocalPathInjective` | internal/strm/local.go:17-23 | different `.strm` paths give different copies |
| `Paths.CopyHomeInjective` | internal/strm/local.go:58-74 | within one root, different `.strm` paths give different places |
| `Paths.MoveTarget` | internal/strm/local.go:79-89 | there is a target exactly for a copy in the library and outside the download folder, at the same place below the download folder |
| `LocalFiles.LocalStore.EnqueueLocal` | internal/store/local.go:59-73 | creates a row or re-queues a failed one, and reports success in exactly these cases |
| `LocalFiles.LocalStore.ClaimNextLocal` | internal/store/local.go:104-110 | claims an oldest queued row if and only if there is a queued row |
| `LocalFiles.LocalStore.ResetInterruptedLocal` | internal/store/local.go:115-121 | interrupted downloads are queued, interrupted moves are done, all else is unchanged |
| `LocalFiles.LocalStore.StartMove` | internal/store/local.go:125-135 | only a done row starts moving |
| `LocalFiles.LocalStore.FinishMove` | internal/store/local.go:139-149 | only a moving row takes the new path |
| `LocalFiles.LocalStore.EndMove` | internal/store/local.go:153-159 | only a moving row returns to done, at its old path |
| `LocalFiles.StepQueues` | internal/store/local.go:59-201 | a row is queued after a statement only if it was before, or by a successful enqueue or a reset |
| `LocalFiles.ClaimsAreSeparated` | internal/store/local.go:59-201 | over all sequences of statements, between two claims of one key lies a successful enqueue of that key or a restart |
| `LocalFiles.OnlyEnqueueCreates` | internal/store/local.go:59-201 | a removed entry comes back only through an enqueue of its key |
| `LocalFiles.ResetLeavesNothingInProgress` | internal/store/local.go:115-121 | after a restart no row is in progress, none is lost and finished copies keep their paths |
| `LocalFiles.FirstComeFirstServed` | internal/store/local.go:102-111 | of two entries that wait, the one queued first is claimed first, whatever statements run in between |
| `LocalFiles.RowsStayOk` | internal/store/local.go:59-201 | over every sequence of statements a finished or moving copy has its path, and no entry that waits or is under way shows the reason of an earlier failure |
| `LocalFiles.StepKeepsPath` | internal/store/local.go:59-201 | the path of a row is the one recorded last |
| `KeepLocal.StepKeeps` | internal/download/download.go:158-308 | every step of every process keeps the protocol's invariant |
| `KeepLocal.AlwaysPlayable` | internal/download/download.go:158-308 | in every interleaving of downloads, Moves, Removes, relocations of this entry, crashes and restarts a done or moving row has the complete file at its path |
| `KeepLocal.AlwaysPrefix` | internal/download/download.go:378-551 | and as long as no entry is queued afresh with another staging file, the staging file is a prefix of the remote file whenever the entry has a row |
| `KeepLocal.StartsAreSafe` | internal/store/local.go:115-121 | the invariant holds at the start |
| `KeepLocalOutcomes.LoneMoveEnds` | internal/download/download.go:256-308 | a Move that nobody interferes with ends, whatever errors it meets, with the copy recorded where it is: at its destination with the source deleted, or at its source; it overwrites nothing, and without errors and with its destination free it is done |
| `KeepLocalOutcomes.MoveSucceeds` | internal/download/download.go:256-308 | and with a source and a free destination there is a run in which it is: the row done at the target, the whole content there, the source gone, no process left |
| `KeepLocalOutcomes.SettledMoveDeletes` | internal/strm/local.go:94-110 | in every run, whatever else goes on, a Move that has settled its row and then ends by itself has deleted its source, or its own new copy if it was overtaken |
| `KeepLocalOutcomes.LoneRemoveEnds` | internal/download/download.go:158-180 | a Remove that nobody interferes with ends with the row, the staging file and the finished copy gone, and nothing else |
| `KeepLocalOutcomes.LoneDownloadEnds` | internal/download/download.go:349-450 | a download that nobody interferes with ends with the whole file in the download folder and its row done there, or failed with nothing spoilt; without errors it is done |
| `KeepLocalOutcomes.StopKeepsPart` | internal/download/download.go:349-375 | a download stopped by the end of the program before it asks, while it receives or when it has all is queued again after the restart with every byte it had |
| `KeepLocalOutcomes.EndOutweighsRemoval` | internal/download/download.go:363-370 | for a download that is both removed and stopped the end of the program counts, in either order |
| `KeepLocalOutcomes.WrongSizeIsDeleted` | internal/download/download.go:422-429 | what has arrived with another size than the recorded one is deleted and the entry has failed |
| `KeepLocalOutcomes.RefusedResumeStartsOver` | internal/download/download.go:498-500 | a resume turned down with a 416 starts over from nothing |
| `KeepLocalOutcomes.CancelledMoveTouchesNothing` | internal/download/download.go:223-254 | a Move cancelled while it waits for its turn touches nothing |
| `KeepLocalRaces.EnqueueHarmsIff` | internal/download/download.go:158-375 | with any number of Removes and of downloads cancelled by a Remove in flight, queueing an entry afresh can lead to a missing or wrong file at a done row's path if and only if a Remove has a copy in the download folder to delete yet, or one of them the staging file of a file of at least two bytes that is not of known size and one byte over and over, or a cancelled download of a file that is not empty has its reply in hand, or one is about to mark the row failed, or a wrong staging file is left that a download would build on |
| `KeepLocalRaces.LeftoverHarmsIff` | internal/download/download.go:378-551 | for an idle entry: if and only if the leftover `.part` file is no prefix and shorter than the remote file, or as long and the size is on record |
| `KeepLocalRaces.CancelledDownloadHarms` | internal/download/download.go:349-375 | a run from nothing in which a file is queued, removed while it downloads, and queued again after that Remove is over: the cancelled download deletes the staging file under the next one, and the wrong content is promoted |
| `KeepLocalRaces.FreshCopyIsLost` | internal/download/download.go:158-180 | a run in which an entry, removed and queued again at once, loses its fresh copy to the Remove that is still running |
| `KeepLocalRaces.MovedCopyIsLost` | internal/download/download.go:256-308 | a run in which a Move, overtaken by a Remove after its rename, deletes the download that has taken its place |
| `KeepLocalRaces.WrongContentIsPromoted` | internal/download/download.go:158-551 | a run from nothing that leaves a wrong `.part` file behind and promotes what the next download makes of it |
| `KeepLocalStatements.StepsAreStatements` | internal/store/local.go:59-201 | every step of the machine does to the entry's row what one statement does to the table, or nothing |
| `KeepLocalStatements.RunsAreStatements` | internal/store/local.go:59-201 | every run of the machine does to the row what the statements of its events, in order, do to the table, and the table can take that run as long as no other entry waits |
| `KeepLocalStatements.MachineClaimsAreSeparated` | internal/store/local.go:102-111 | so between two claims of the machine lies a successful enqueue or a restart |
| `TempNames.TempNamesEqual` | internal/download/download.go:338-347 | with dash-free provider and file IDs, two entries share a staging file if and only if their IDs agree after the replacement of unsafe characters |
| `TempNames.TempNamesDiffer` | internal/download/download.go:338-347 | entries with plain IDs share one if and only if they are the same |
| `TempNames.DotsCollide` | internal/download/download.go:338-347 | an ID with a dot shares its staging file with one with an underscore |
| `TempNames.DashesCollide` | internal/download/download.go:338-347 | a dash in a TorBox file ID can be taken for the torrent's |
| `Download.Downloader.Fetch` | internal/download/download.go:458-551 | one attempt's effect on the `.part` file and the free space, for any reply, and that it succeeds exactly on a reply that delivers |
| `Download.Downloader.CheckSpace` | internal/download/download.go:554-568 | true if and only if the reserve survives, space is unknown or nothing is needed |
| `Download.Downloader.Download` | internal/download/download.go:378-450 | against an honest server the `.part` file stays a prefix and a promoted file equals the remote file; with known space and size free space never falls below the smaller of its start and the reserve |
| `Download.AttemptKeepsPrefix` | internal/download/download.go:458-551 | any honest reply, a 200, 206, 416, error or cut, keeps the prefix, and success with a right size means the whole file |
| `Download.DeliveriesSucceed` | internal/download/download.go:458-551 | an attempt succeeds exactly on a link for a complete leftover, an unbroken 200, or an unbroken 206 to a leftover that is neither empty nor oversized, and leaves the leftover, the body, or the leftover and the body behind it |
| `Download.DeliveryDecides` | internal/download/download.go:378-450 | with an honest server, a prefix, a right size and room, a download ends with the whole file promoted if and only if one of the first four replies delivers and row and file are there; and exactly when it ends in each other way |
| `Download.SizeDecides` | internal/download/download.go:420-445 | whatever the server sends, only a file of the recorded size is taken, and a file is turned down for its size only when it has another |
| `Download.AttemptLosesNothing` | internal/download/download.go:482-551 | a leftover loses nothing in an attempt unless the server sends the whole file or rejects the resume, and a partial reply adds all that arrives |
| `Download.LeftoversAreJudged` | internal/download/download.go:464-474 | a leftover of the recorded size is not requested again, and a larger one goes before the request |
| `Download.AlwaysPrefix` | internal/download/download.go:378-551 | so does any number of attempts over any number of restarts |
| `Download.NeverOutgrows` | internal/download/download.go:464-497 | the `.part` file never outgrows the larger of the recorded size and its start |
| `Folders.Tree.PruneEmptyDirs` | internal/strm/local.go:207-219 | terminates, removes only empty folders strictly inside the root, keeps every file, orphans nothing, and stops only at the root, a missing or a non-empty folder |
| `Folders.PruningKeepsTree` | internal/strm/local.go:207-219 | what it leaves is again a whole tree |
| `TokenBucket.Limiter.Wait` | internal/ratelimit/ratelimit.go:38-65 | returns after at most 6000 sleeps; permits are exactly the bucket's grants; it gives up only when the token would come after the deadline; alone, at two requests a minute or more, it never gives up and sleeps at most once |
| `TokenBucket.Budget` | internal/ratelimit/ratelimit.go:38-54 | permits plus what is left never exceed a full bucket plus what flowed in |
| `TokenBucket.WindowBound` | internal/ratelimit/ratelimit.go:38-54 | for any interleaving of callers, a window of length w sees at most max + refill * w permits |
| `TokenBucket.MinuteBound` | internal/ratelimit/ratelimit.go:24-54 | so at most twice the configured requests in one minute |
| `TokenBucket.UnsetRateIsSixty` | internal/ratelimit/ratelimit.go:24-27 | a rate that is not set counts as sixty a minute |
| `TokenBucket.TwiceTheRateHappens` | internal/ratelimit/ratelimit.go:24-54 | and that many do pass, for every configured rate |
| `TokenBucket.PassStaysValid` | internal/ratelimit/ratelimit.go:42-54 | tokens stay between 0 and max |
| `TokenBucket.LoneWaiterSleepsOnce` | internal/ratelimit/ratelimit.go:56-63 | a sleep of the announced length makes the next turn of a lone waiter succeed |
| `TokenBucket.SleepFitsBudget` | internal/ratelimit/ratelimit.go:56-63 | at two requests a minute or more that sleep fits the deadline |
| `ProviderClient.Client.Do` | internal/provider/provider.go:140-185 | each request is sent under a permit that the limiter gave to this call for it alone; at most five are sent, one after another, and none after a reply that is not retried; success exactly on a last reply with a status below 500 other than 429 |
| `ProviderClient.RequestsInWindow` | internal/provider/provider.go:140-185 | all callers and all retries together send at most max + refill * w requests in any window of length w |
| `ProviderClient.Client.RequestsPerMinute` | internal/provider/provider.go:140-185 | so at most twice the configured requests in any minute |
| `LoginLimiter.Limiter.Allowed` | internal/auth/auth.go:170-181 | the answer and the wait for a key |
| `LoginLimiter.Limiter.Fail` | internal/auth/auth.go:184-198 | the new entries after a failure, garbage collection included |
| `LoginLimiter.Limiter.DropStale` | internal/auth/auth.go:208-217 | drops exactly the entries past their window and not locked, in whatever order |
| `LoginLimiter.GcIsInvisible` | internal/auth/auth.go:170-217 | over every run with a nondecreasing clock each key gets the same answers and waits as from a limiter that drops nothing |
| `LoginLimiter.GcDrops` | internal/auth/auth.go:208-217 | although the maps do differ: a run of 1024 or more clients after which only one entry is left |
| `LoginLimiter.Project` | internal/auth/auth.go:184-205 | what the limiter knows of a key is determined by that key's own failures |
| `LoginLimiter.WaitIsFromLastFailure` | internal/auth/auth.go:170-217 | over every run, whatever the other keys did: a key with fewer failures counted than the limit may try at once, from the limit on it waits until a window after its last failure |
| `LoginLimiter.CountStartsAfterPause` | internal/auth/auth.go:184-198 | failures within a window of the first are counted together, and one more than a window after all earlier ones starts a new count |
| `LoginLimiter.WaitAfterReset` | internal/auth/auth.go:201-205 | a reset makes the limiter forget what went before |
| `LoginLimiter.FailuresSpanWindow` | internal/auth/auth.go:170-198 | any 2m - 1 failures in a row, reported only while allowed, span at least a window |
| `LoginLimiter.WindowBound` | internal/auth/auth.go:170-198 | so any window holds at most 2m - 2 failures of a key |
| `LoginLimiter.BoundIsReached` | internal/auth/auth.go:170-198 | and a run of the limiter, each failure reported while it allowed the key, puts that many into one window, for every m and window |
| `EpisodeNames.ParseUndoesLayout` | internal/strm/parse.go:167-413 | parsing the path laid out for an episode gives back show, season, episode and the specials flag, and laying that out gives the same path |
| `EpisodeNames.UnknownSeasonReadsAsFirst` | internal/strm/parse.go:368-413 | an episode of unknown season is laid out as season 1 and read back so |
| `EpisodeNames.LayoutText` | internal/strm/parse.go:368-413 | the path as text: the show's folder, "Season NN", the show with SxxEyy; an unknown season is the first, a show without a usable character "Unknown Show" |
| `EpisodeNames.PackKeepsName` | internal/strm/parse.go:384-388 | a file without an episode number keeps its own name, dots and underscores as spaces |
| `EpisodeNames.ReleaseParses` | internal/strm/parse.go:189-200 | a plain title with dots, underscores or spaces and a code parses to title, season and episode |
| `EpisodeNames.DoubleEpisodeParses` | internal/strm/parse.go:178-187 | with two episodes in the code it parses to the first of them |
| `EpisodeNames.CrossParses` | internal/strm/parse.go:189-200 | and likewise with 1x02, unless the number behind the x names a codec |
| `EpisodeNames.TagIsDropped` | internal/strm/parse.go:167-171 | a leading group tag is not looked at |
| `EpisodeNames.IndexIsDropped` | internal/strm/parse.go:167-171 | nor is a leading zero-padded index |
| `EpisodeNames.NotMulti` | internal/strm/parse.go:178-187 | the multi-episode marker does not match a laid-out name anywhere |
| `EpisodeNames.IsSingle` | internal/strm/parse.go:189-200 | the first single-episode match of a laid-out name is its code |
| `EpisodeNames.CleanTitleKeeps` | internal/strm/parse.go:303-331 | cleaning the text before the code gives the title back |
| `EpisodeNames.SanitizeKeeps` | internal/strm/parse.go:416-429 | sanitizing leaves a plain title alone |
| `Words.SplitThenJoin` | internal/strm/parse.go:416-429 | splitting a single-spaced text into words and joining them gives it back |
| `Discover.SanitizeKeepsNorm` | internal/web/discover.go:171-183 | making a title safe for file names does not change its normal form |
| `Discover.PlainIsNormal` | internal/web/discover.go:168-183 | words in lower case with single spaces are their own normal form, so different such titles stay different |
| `Discover.NormRules` | internal/web/discover.go:168-183 | and every title is brought to such a form by these rules: upper case is lower case, an ampersand is "and", an apostrophe is not there, any other character that is no letter or digit is a space, and white space counts once or, at the edge, not at all |
| `Discover.SplitYearUndoesMovieDir` | internal/web/discover.go:160-166 | reading a movie folder gives back the sanitized title and the year |
| `Discover.MovieDirIsFirst` | internal/web/discover.go:150-157 | the folder of a movie file is read back unless its title starts with two dots |
| `Discover.LibraryIndex.Load` | internal/web/discover.go:95-120 | the index holds exactly the years and episode counts of the tracked paths |
| `Discover.LibraryIndex.Lookup` | internal/web/discover.go:124-147 | a movie is found if and only if it is hinted or a tracked path carries one of its titles and a fitting year; a show reports its files under its first title that has any |
| `Discover.FiledMovieIsFound` | internal/web/discover.go:95-183 | a filed movie is found for every result with the same normal title and a year unknown or off by at most one, whatever else is tracked |
| `Discover.FoundUnlessDotDot` | internal/web/discover.go:95-183 | and if it is all there is, it is found if and only if its title does not start with two dots and the result has the same normal title and a fitting year |
| `Discover.FiledEpisodesAreCounted` | internal/web/discover.go:95-120 | the paths laid out for episodes are counted under their shows' normal titles, each once |
| `Discover.FiledShowIsFound` | internal/web/discover.go:124-147 | so a show has files exactly when an episode is filed under its title or its original title |
| `Discover.UnsortedIsNoMovie` | internal/web/discover.go:108-118 | files that could not be placed are no movies |
| `RealDebrid.Info` | internal/provider/realdebrid/realdebrid.go:267-290 | reports exactly the selected files in order |
| `RealDebrid.FileLink` | internal/provider/realdebrid/realdebrid.go:314-346 | the link at the file's place among the selected ones, or an error |
| `RealDebrid.WalksAgree` | internal/provider/realdebrid/realdebrid.go:279-335 | with distinct IDs the p-th reported file is served from the p-th link |
| `RealDebrid.PlaceIsOfFile` | internal/provider/realdebrid/realdebrid.go:319-335 | an ID has a place if and only if it is a selected file's |
| `RealDebrid.ReportsSelected` | internal/provider/realdebrid/realdebrid.go:267-290 | the p-th file reported is the selected file with p selected ones before it, with its ID, its size and its path without a leading slash |

## Left out

- CloudSync.SyncMirrorsCloud: syncs are error-free and not interleaved with other writers of the library; all rows a sync writes carry one time stamp. Slashes, dashes and opening brackets in IDs and percent signs or opening brackets in titles are excluded by "cleanly named", which is what makes exhausted alternates impossible; `LibrarySafety.SyncOutcome` and `LibrarySafety.SyncRows` need no such names.
- CloudSync.CloudsComeToRest: the clouds and the layout do not change between the rounds, and nobody but the syncs touches the library and the local copies.
- CopyLosses.SyncKeepsCopiesIff: files with equal contents are covered by `CopyLosses.RunSparesCopiesIff` only, which is about every point of the run: with equal contents a lost copy can be made good by chance.
- KeepLocal.AlwaysPlayable: the machine is about one entry. Another entry's copy that a sync relocates onto this one's or away from it (`CopyLosses.StepKeepsCopyIff`) is no step of it, and its own relocation, rename and record, is one step. An entry without a row is queued afresh only when nothing harmful of its past is in flight; what is harmful is exact for Removes, cancelled downloads and staging files (`KeepLocalRaces.EnqueueHarmsIff`). Moves, downloads that nobody has told to stop and downloads at the program's end are kept out altogether, which is more than need be.
- KeepLocal.StepKeeps: no other entry shares the staging file (see `TempNames`). Deletions succeed, the number of attempts is not counted, and the reset runs before new requests are accepted. A download ends at whatever path of the download folder; that it is the row's is part of `LibraryWriter`. Bytes that a download has read but not written when it is told to stop are not written; and once a request has been sent its reply may be in hand.
- LibraryWriter.Writer.KeepLocal: rename and record are one step, so a crash between the two is not modelled. A copy whose file is missing is left as recorded.
- LibraryWriter.Writer.RemoveStrmFile: the folders it empties are not modelled; `Folders` models the similar loop for local copies.
- LibraryWriter.Writer.UniquePath: Go's formatting of the numbered candidates is a parameter; the only law used of it is what it does with a format whose single percent sign starts a `%d` (`LibraryNames.SprintfLawIsMet` shows that the law can be met). With a percent sign in a title it would read another verb.
- Download.Downloader.Download: free space changes only through this transfer; concurrent transfers are each checked alone. A server is honest when it answers ranges with the range asked for.
- Download.Downloader.Fetch: stall detection, progress records and link refresh have no effect on the bytes and are not modelled.
- ProviderClient.Client.Do: what each request meets is an input; a request counts as sent at the time of its permit; the lengths of the back-off are arbitrary.
- TokenBucket.Limiter.Wait: floating-point numbers are reals and durations are not truncated to nanoseconds; other callers take their turns while one sleeps; a lone caller loses no time before its first turn.
- EpisodeNames.ParseUndoesLayout: titles of letters and single spaces with no word from the release-tag list; which words are tags is a parameter. Names with a year, with text behind the code, or with digits in the title are in the model (`EpisodeNames.Parse`), but nothing is proved of them. The branches of `Parse` after the two episode markers are not modelled.
- Discover.FiledMovieIsFound: Unicode case folding and letter classes are a parameter with the laws used (letters and digits stay so, white space and the replaced characters are neither).
- Snapshot: the layout of a file, the media test on its name and the version label are parameters; the size ratio 0.3 is 3/10.
- Paths: cleaned absolute slash-separated paths; extensions are lower-cased in ASCII.
- HTTP handlers, pages, TMDB, Torrentio and TorBox clients, configuration, password hashing and tokens, SQL errors, logging: no part of this model.
- Link cache, cloud listing cache, watchlist, search ranking and back-off: would only add easy members.
