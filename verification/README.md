# nexuscloud: storage, sharing, WebDAV and backup

A model in Dafny of the parts of nexuscloud that hold users' files and their history, with
proofs of what those parts promise. `dafny verify dfyconfig.toml` checks the whole project.

## What is modelled

**Storage.** `FileService` keeps three things together: the rows of `files`, `directories` and
`file_versions`, the physical tree of a pool, and the area inside that tree where old versions
live. `StorageModel` states what it means for them to agree. `Content`, `Uploads`, `Moves`,
`Trash` and `Operations` describe each operation as a step from one state to another and say
when it keeps the agreement, `Effects` what the larger ones leave in the fields of the rows and
on disk, `Backing` when they keep the contents behind the rows; `Service` (FileService.dfy) is
the service itself, a class whose methods change tables and disk one after the other and are
proved to make exactly those steps; `Progress` says what is enough for ordinary calls to go
through, `Runs` draws the consequences for whole runs, and `Witnesses` has states in which an
accepted call goes wrong. Paths are sequences of segments;
`PathStrings`, `SqlPrefix` and `MoveTree` tie them to the text the code and its SQL work on.

**Sharing.** `Shares` is access through shares on an item or on a folder above it and what a
folder move does to it; `Sharing` the service methods; `LimitReader` the reader behind size
limits; `Downloads` the download counter under any interleaving of clients.

**WebDAV.** `WebDav` has recursive delete and moves over existing files as programs over the
service, `Sweep` what a recursive delete does to the rows (section 9.6 and section 9.9.3 of
RFC 4918).

**Backup.** `BackupStore` is the medium, with names and inodes; `BackupHistory` and
`BackupRetention` say when a job can be restored and which jobs stay; `BackupCopies` and
`BackupPasses` follow one run through its files and pools, the inodes it shares with an older
job included; `BackupRuns` follows whole histories of runs and retention; `BackupManager` is the
manager itself, whose methods are proved to make such histories; `BackupOutcomes` says which
options keep the other backups, and the whole history, as they should be; `RestoreToPool` puts a
backup back through the service.

## What the code needs and does not check

The proofs turned up conditions the operations rely on. Each is stated where it is needed, with
a lemma that says exactly when things go wrong or shows an input for which they do.

- A user path may name the folder where versions are kept. The row then lies where no row
  should, and an upload or a moved file may land on a stored version
  (`PathStrings.UploadHitsVersion`) and replace its content: exactly then contents are lost
  (`Backing.StepKeepsContentsIff`, `Witnesses.UploadReplacesVersion`).
- `RestoreVersion` takes a snapshot first, and the limits may prune the very version being
  restored; the file is then left without content (`Uploads.RestoreKeepsIffSurvives`). The
  comment at file_service.go:360-363 says the current content is never lost; it is when
  versioning is off, and when the limits drop it (`VersionHistory.RestoreConservesContents`).
- `RestoreDirectory` takes the row out of the trash before it makes the folder
  (`Trash.RestoreDirectoryKeepsIff`, with a failing state in `Witnesses.RestoreDirectoryBreaks`).
- `MoveDirectory` checks only the moved folder itself, not the folder rows, trashed ones
  included, that lie where the subtree's files will land (`Moves.MoveDirectoryKeepsIffClear`,
  with a failing state in `Witnesses.MoveDirectoryBreaks`).
- A plain incremental backup after an encrypted one links to ciphertext; the new job then
  fails for every unchanged file that the key stream changes (`BackupManager.PlainAfterEncrypted`).
- Nothing removes duplicates from the pools of a run, which `--pool` takes by id and by name. The
  second pass over a pool finds the names taken and writes through the inodes that the first one
  shared with an older job. After an encrypted job a plain incremental run so puts plain content
  into that job's copies, and the job is lost, without any fault
  (`BackupOutcomes.PoolTwiceAfterEncrypted`). `BackupOutcomes.EncryptedSurvivesIff` and
  `BackupOutcomes.CompletedSparesIff` say exactly when the older jobs survive; a write cut short
  on the second pass leaves its remains there (`BackupOutcomes.OthersKeptIffSpared`, and for one
  file the last clause of `BackupManager.Manager.BackupFile`).
- An encrypting run over a pool twice writes each copy again under a new vector, while the first
  list of its manifest keeps the old one: the run completes, and its job then fails to verify and
  to restore, though the last list gives every file back (`BackupOutcomes.PoolTwiceEncrypted`;
  `BackupOutcomes.CompletedIntactIff` says exactly when a new job is good; what a plain run
  copies of pools named twice always is).
- A job whose files retention could remove only in part keeps its row, and is offered for
  restoring (`BackupManager.Manager.PruneOldBackups`, `BackupRuns.RestoredAsBackedUp`).
- `RestoreToPool` makes folders with `Mkdir`, which refuses names that `Upload` accepts in a
  parent path; exactly such files do not come back (`RestoreToPool.RestoreToPool`, with a
  failing input in `RestoreToPool.UploadedButNotNameable`).
- The reader behind size limits panics when the limit is the largest 64-bit integer
  (`LimitReader.ErrLimitReader.Read`).
- Shares are looked up in folders of the default pool only, and folders in the trash still
  grant reading, though not uploading (`Shares.AncestorsExact`, `Sharing.SharingService.UploadGrants`).
- Files in the trash are still served through shares and links (`Sharing.SharingService.Download`,
  `Sharing.SharingService.DownloadViaLink`), and revoking a link does not stop a client that has
  already resolved it (`Downloads.RevocationComesTooLate`).

Beside these: ids are fresh, the clock does not go back, and one call of the service is one
step unless its contract speaks of the disk in between.

## Model

| member | source | states |
|---|---|---|
| `Runs.RunKeepsAgreement` | nexuscloud/internal/storage/file_service.go:152-933 | after any sequence of harmless calls, whatever their outcomes, rows and disk agree: every file row (trashed too) and every version row has its content on disk at its place with its recorded digest and size, no other physical file exists, and the rows lie outside the reserved folders, with unique keys, ordered histories and folders that are there; the first call that is not harmless ends that, and after it, as after any other, the contents are all in their places with nothing else on disk if and only if it put nothing over a version with other content and did not fail to restore one |
| `Operations.StepKeepsAgreementIff` | nexuscloud/internal/storage/file_service.go:152-933 | a call of any operation, refused or not, keeps that agreement, which has the rows outside the reserved folders, if and only if it puts nothing into them, restores no version its own snapshot prunes, moves no file onto a folder row, restores no folder whose place a file has taken |
| `Backing.StepKeepsContentsIff` | nexuscloud/internal/storage/file_service.go:152-933 | wherever its rows may be: a call from a state in agreement leaves every file and every version with its content, and nothing else on disk, if and only if it puts nothing over a stored version with other content, by an upload or a file move into the reserved folders, and does not fail to restore a version; no move, making, restoring or removal of a folder does either |
| `Runs.RunStaysLimited` | nexuscloud/internal/storage/file_service.go:279-321 | over any run, harmless or not, the limits on number and bytes of versions hold for every file in every later state |
| `Runs.NextVersionIsFree` | nexuscloud/internal/storage/version_sql_repository.go:62-73 | one more than the largest version number names a place with nothing on it, and no stored version is newer than the content it would hold |
| `Runs.TrashIsProtected` | nexuscloud/internal/storage/file_service.go:410-437 | over any run of harmless calls, a trashed file keeps its row, its content and its history on disk until a call names it, a purge dooms it or a folder above it moves |
| `Runs.StepSparesTrash` | nexuscloud/internal/storage/file_service.go:563-609 | the single-call form: uploads, new folders, moves of files and deletions of other items never touch a trashed file |
| `Service.FileService.constructor` | nexuscloud/internal/storage/file_service.go:60-76 | an empty service over an empty disk is in agreement |
| `Service.FileService.Upload` | nexuscloud/internal/storage/file_service.go:152-228 | exact error in order, exact new rows and disk: one row under the pool, owner, folder and name asked for, with the size and digest of the stream, active, its content in its place; at every intermediate disk state every other file is intact and the replaced content is still there when it is kept as a version; rows and disk agree afterwards unless the file went into a reserved folder |
| `Service.FileService.StoreContent` | nexuscloud/internal/storage/file_service.go:191-228 | staging, snapshot or overwrite, final move; a broken stream or a blocked place leaves rows and contents as they were |
| `Effects.UploadLands` | nexuscloud/internal/storage/file_service.go:152-266 | the same for the history: a replaced content heads it, numbered one higher and with its own time, when versioning is on and the content is another; what is kept is the longest newest-first prefix within the limits, counted in days of 24 hours; no other row and no other history changes |
| `Service.FileService.SnapshotVersion` | nexuscloud/internal/storage/file_service.go:234-266 | the content moves to the version area, the new row heads the history, the limits are applied; the content is on disk throughout when it is kept |
| `Service.FileService.EnforceMaxVersions` | nexuscloud/internal/storage/file_service.go:279-321 | the history, rows and disk, is cut to the longest newest-first prefix within all active limits |
| `Effects.KeptIsLongest` | nexuscloud/internal/storage/file_service.go:279-321 | in the units of the settings: no version kept is beyond the number, older than so many times 24 hours, or over the bytes, and one more would be |
| `Progress.UploadGoesThrough` | nexuscloud/internal/storage/file_service.go:152-228 | a whole stream under a good name, into an active folder or the root, is accepted when no folder stands in the place and nothing in the trash has the name, over a file if that is allowed |
| `Progress.OverwriteGoesThrough` | nexuscloud/internal/storage/file_service.go:152-228 | over an active file it always is, if that is allowed |
| `VersionPruning.VotesCutAPrefix` | nexuscloud/internal/storage/file_service.go:297-321 | the per-version vote of the loop removes a version if and only if the history up to it breaks a limit |
| `VersionPruning.KeepLen` | nexuscloud/internal/storage/file_service.go:268-321 | the prefix kept meets every active limit and the next longer one breaks one |
| `Backing.UploadBackedIff` | nexuscloud/internal/storage/file_service.go:152-228 | an accepted upload leaves every content in its place and nothing else on disk if and only if no version with other content is stored where it goes |
| `Backing.FileMovedBackedIff` | nexuscloud/internal/storage/file_service.go:595-609 | the same for a file that moves to a free key, in the reserved folders too |
| `Backing.FolderMovedBacked` | nexuscloud/internal/storage/file_service.go:747-766 | a folder takes all its contents along wherever it moves, the reserved folders and foreign folder rows included |
| `VersionHistory.UploadConservesContents` | nexuscloud/internal/storage/file_service.go:184-227 | as a bag, contents plus what the limits let go equal the old contents plus the new one; without a version the old current content is what goes |
| `VersionHistory.NothingLostWithinLimits` | nexuscloud/internal/storage/file_service.go:279-321 | a snapshot loses nothing if and only if the longer history is within the limits |
| `Service.FileService.RestoreVersion` | nexuscloud/internal/storage/file_service.go:364-408 | exact error and exact new state, the case included in which the snapshot has just pruned the version asked for; when it succeeds the owner has the content of that version as the current one, active |
| `Effects.VersionComesBack` | nexuscloud/internal/storage/file_service.go:364-408 | the version restored leaves the history, which the content there was before heads, within the limits, when versioning is on; no other row and no other history changes |
| `Uploads.RestoreKeepsIffSurvives` | nexuscloud/internal/storage/file_service.go:381-408 | restoring keeps rows and disk in agreement if and only if its own snapshot leaves the requested version in the history |
| `Uploads.OneVersionNeverSurvives` | nexuscloud/internal/storage/file_service.go:279-321 | counterexample family: with a limit of one version no version can be restored |
| `VersionHistory.RestoreConservesContents` | nexuscloud/internal/storage/file_service.go:381-407 | restoring permutes current content and history, up to what the limits let go; with versioning off exactly the current content is lost |
| `Service.FileService.MoveFile` | nexuscloud/internal/storage/file_service.go:563-609 | exact error in order and exact new rows and disk; when it succeeds the row has the clean folder and the name asked for, in its pool and under its owner, and nothing else of it or of any other row has changed; the content lies there, no longer at the old place, and the rest of the disk is as before; a refusal changes nothing |
| `Service.FileService.MoveDirectory` | nexuscloud/internal/storage/file_service.go:716-767 | the same for folders, into the reserved ones too: the folder has the place asked for, on disk too and no longer the old one, every row at and below it is re-parented, no other row changes; after a failed transaction the folder is back and only folders made above the destination remain |
| `Effects.FolderArrives` | nexuscloud/internal/storage/file_service.go:716-767 | and every file, below the folder or not, has its content at its place |
| `Service.FileService.MoveDirectoryTree` | nexuscloud/internal/storage/directory_sql_repository.go:147-217 | the three UPDATE statements on the rows as text re-parent both tables by segments; when any of them repeats a natural key both tables are as before, and that happens exactly when a key would be repeated in the end |
| `Moves.FileMovedKeeps` | nexuscloud/internal/storage/file_service.go:595-609 | moving a file to a free, open place keeps rows and disk in agreement |
| `Progress.MoveFileGoesThrough` | nexuscloud/internal/storage/file_service.go:563-609 | the owner's active file can be moved under any good name into any active folder where nothing has it |
| `Moves.MoveDirectoryKeepsIffClear` | nexuscloud/internal/storage/file_service.go:747-766 | moving a folder keeps the agreement if and only if no file of the subtree lands on the key of a folder row outside it, trashed rows included |
| `Progress.MoveDirectoryGoesThrough` | nexuscloud/internal/storage/file_service.go:716-767 | so can the owner's active folder, into any that is not in it, when no folder row was left below the destination |
| `Witnesses.MoveDirectoryBreaks` | nexuscloud/internal/storage/file_service.go:747-766 | failing input: an active folder /src with a file, the row of a folder of the same name in the trash under /dst; the rename of /src to /dst is accepted and leaves a folder row on a file |
| `MoveTree.MoveDirectoryReparents` | nexuscloud/internal/storage/directory_sql_repository.go:147-217 | every row of the subtree, files and folders, trashed too, at any depth, has its full path rebased, every other row and column is unchanged, and the files on disk are rebased alike |
| `MoveTree.MoveBackRestores` | nexuscloud/internal/storage/file_service.go:739-766 | when the move back is accepted, moving away and back restores every row and every physical file, up to the folders made above the destination, if and only if no foreign folder row lay below the destination; and then it is accepted |
| `MoveTree.MoveBackUnoccupied` | nexuscloud/internal/storage/file_service.go:425-437 | the place left is free, so the move back is not refused as occupied |
| `MoveTree.SqlFileIsCarried` | nexuscloud/internal/storage/directory_sql_repository.go:205-211 | on text, the statement on files writes exactly the rebased parent path |
| `MoveTree.SqlDirIsCarried` | nexuscloud/internal/storage/directory_sql_repository.go:154-204 | on text, the two statements on folders write exactly the new key of the moved folder and the rebased parent of every folder below it |
| `SqlPrefix.ChainIsOnePass` | nexuscloud/internal/storage/directory_sql_repository.go:229-238 | the three chained replacements equal escaping every character once |
| `SqlPrefix.SelectorExact` | nexuscloud/internal/storage/directory_sql_repository.go:167-211 | the escaped pattern matches a text if and only if it begins with the old path and a separator, whatever wildcards the names hold |
| `SqlPrefix.SelectsDescendants` | nexuscloud/internal/storage/directory_sql_repository.go:167-211 | equality or LIKE selects exactly the paths at or below the folder |
| `SqlPrefix.UpdateIsRebase` | nexuscloud/internal/storage/directory_sql_repository.go:167-211 | one UPDATE with substr is the rebasing of the paths it selects and the identity elsewhere |
| `PathStrings.GuardIsPathPrefix` | nexuscloud/internal/storage/file_service.go:739-746 | the text guard against moving a folder into itself is the segment-prefix test |
| `Service.FileService.Mkdir` | nexuscloud/internal/storage/file_service.go:661-702 | exact error and new state, a refusal changing nothing; the folder answered has an active row with the pool, owner, folder and name asked for and is on disk, and no other row changes |
| `Progress.MkdirGoesThrough` | nexuscloud/internal/storage/file_service.go:661-702 | a folder can be made in every active folder, or was there, under any good name that no file has nor anything in the trash |
| `Service.FileService.DeleteDirectory` | nexuscloud/internal/storage/file_service.go:773-804 | only the owner, and only a folder in which no active file and no active folder lies directly; its row goes to the trash, or goes; exact error and new state with the trash on and off |
| `Progress.DeleteDirectoryGoesThrough` | nexuscloud/internal/storage/file_service.go:773-804 | with the trash on, the owner's folder goes when nothing active lies directly in it and the folder it lies in is active |
| `Service.FileService.PermanentlyDeleteDirectory` | nexuscloud/internal/storage/file_service.go:806-841 | exact error and new state, an active folder only when nothing active lies directly in it; a trashed folder may still hold trashed files on disk |
| `Service.FileService.RestoreDirectory` | nexuscloud/internal/storage/file_service.go:862-882 | exact error and new state, the row written before the folder is made |
| `Progress.RestoreDirectoryGoesThrough` | nexuscloud/internal/storage/file_service.go:862-882 | the owner gets a folder back whenever the folder it lies in is active |
| `Trash.RestoreDirectoryKeepsIff` | nexuscloud/internal/storage/file_service.go:862-882 | restoring a folder keeps the agreement if and only if its place on disk is not blocked by a file |
| `Witnesses.RestoreDirectoryBreaks` | nexuscloud/internal/storage/file_service.go:862-882 | failing input: a trashed folder below a path that a file has taken; restoring it fails and leaves it active without a folder on disk |
| `Service.FileService.Delete` | nexuscloud/internal/storage/file_service.go:472-485 | exactly the owner: into the trash, the disk not touched, or for good, row, history and content, when there is no trash |
| `Service.FileService.PermanentlyDeleteFile` | nexuscloud/internal/storage/file_service.go:490-527 | exactly the owner: the row, the content, every version row and every version content go, nothing else |
| `Service.FileService.RestoreFile` | nexuscloud/internal/storage/file_service.go:532-547 | exactly the owner: the trash mark is cleared and nothing else changes |
| `Service.FileService.PurgeExpiredTrash` | nexuscloud/internal/storage/file_service.go:897-933 | every active file stays; of the trashed ones, latest deletion first, those stay that were deleted no longer ago than the retention and whose sizes, added to those of all deleted later, are within the limit; every folder row stays that is active or was trashed no longer ago; rows that stay are unchanged, and both counts are the numbers that went |
| `Trash.PurgeLeaves` | nexuscloud/internal/storage/file_service.go:897-933 | that, for the purge as a step on states |
| `Service.FileService.ListAllTrashedFiles` | nexuscloud/internal/storage/file_sql_repository.go:185-193 | every trashed file once, latest deletion first |
| `Trash.PurgeCutsAPrefix` | nexuscloud/internal/storage/file_service.go:904-918 | a trashed file is purged if and only if the latest deletions up to it break the age or the size limit: what stays is the longest newest prefix |
| `Service.FileService.List` | nexuscloud/internal/storage/file_service.go:618-630 | exactly the active files and folders of the owner with this parent, each once, in any pool |
| `Service.FileService.DownloadOwn` | nexuscloud/internal/storage/file_service.go:444-468 | exactly the owner gets the recorded content |
| `PhysicalTree.LocalProvider.Write` | nexuscloud/internal/storage/local_provider.go:34-75 | a complete stream replaces the file in one step; a broken one leaves the contents as they were |
| `PhysicalTree.LocalProvider.Delete` | nexuscloud/internal/storage/local_provider.go:89-98 | a file or an empty folder goes, a missing one is no error, a full folder stays |
| `PhysicalTree.OnlyEmptyFoldersGo` | nexuscloud/internal/storage/local_provider.go:89-98 | a folder is deleted if and only if nothing lies below it at any depth |
| `PhysicalTree.MoveThereAndBack` | nexuscloud/internal/storage/local_provider.go:123-139 | renaming a folder there and back restores the tree up to the folders made for the target |
| `PathStrings.NormalizeIdempotent` | nexuscloud/internal/storage/file_service.go:90-95 | normalising gives a canonical path, never above the root, and normalising again changes nothing |
| `PathStrings.UpTakesBack` | nexuscloud/internal/storage/file_service.go:90-95 | ".." takes back the name before it |
| `PathStrings.DotsSayNothing` | nexuscloud/internal/storage/file_service.go:90-95 | ".." at the root, "." and doubled separators say nothing |
| `PathStrings.NamesRefused` | nexuscloud/internal/storage/file_service.go:35-85 | a name is refused exactly when it is empty, one of the two dots, or has a control character or one of nine others in any position |
| `PathStrings.PhysicalPathInjective` | nexuscloud/internal/storage/file_service.go:97-103 | equal physical paths mean equal owner, parent and name: two owners never collide |
| `PathStrings.UploadHitsVersion` | nexuscloud/internal/storage/file_service.go:108-119 | a user path lands on a stored version if and only if it names the reserved folder, that file and that number |
| `Witnesses.UploadReplacesVersion` | nexuscloud/internal/storage/file_service.go:152-228 | and such an upload is accepted and replaces the content of the version; that version, and with it the contents of the whole storage, stay good if and only if the two contents are equal |
| `PathStrings.SafeJoinStaysInside` | nexuscloud/internal/storage/path.go:22-47 | exactly which requests are answered, and that the answer is the root extended by the clean request |
| `SymlinkGuard.SafeJoinResolved` | nexuscloud/internal/storage/path.go:61-108 | a path is handed out if and only if the deepest existing part of it is the root or resolves, links followed, inside the root; the loop ends |
| `SymlinkGuard.NothingDeeper` | nexuscloud/internal/storage/path.go:71-93 | the part checked is the deepest one that exists |
| `PathStrings.SharedPathStaysInside` | nexuscloud/internal/storage/file_service_sharing.go:353-360 | a shared sub path is answered if and only if its clean form lies at or below the shared folder |
| `Shares.AncestorsExact` | nexuscloud/internal/storage/file_service_sharing.go:237-258 | the walk visits exactly the folder rows of the default pool whose path is a segment prefix |
| `Shares.NearestFirst` | nexuscloud/internal/storage/file_service_sharing.go:237-258 | each visited folder lies strictly below those visited after it |
| `Shares.AccessFollowsMove` | nexuscloud/internal/storage/file_service_sharing.go:206-215 | after a folder move, access to a file of the subtree by shares on it or at or below the folder is what it was; access from above is that of the new ancestors, folders found below the destination included |
| `Shares.AccessInOtherPool` | nexuscloud/internal/storage/file_service_sharing.go:206-215 | when the walk looks at another pool than the one the folder is in, it finds the folders of that pool on the new path |
| `Shares.FolderAccessFollowsMove` | nexuscloud/internal/storage/file_service_sharing.go:220-229 | the same for the moved folder itself and for every folder below it |
| `Shares.FolderAccessInOtherPool` | nexuscloud/internal/storage/file_service_sharing.go:220-229 | and for folders when the walk looks at another pool than theirs |
| `Sharing.SharingService.WalkAncestors` | nexuscloud/internal/storage/file_service_sharing.go:237-258 | the loop visits those folders in that order |
| `Sharing.SharingService.HasShareAccessToFile` | nexuscloud/internal/storage/file_service_sharing.go:206-215 | access if and only if sharing is on and some share, on the file or on a folder of the default pool and its owner above it, is not revoked, not over at this moment, allows downloading, and is addressed to this user or to a group with this user in it |
| `Sharing.SharingService.HasShareAccessToDirectory` | nexuscloud/internal/storage/file_service_sharing.go:220-229 | the same for a folder |
| `Shares.DeadShareIsNoShare` | nexuscloud/internal/storage/share_sql_repository.go:229-253 | a share that is revoked, over, without the right to download, for a link, or elsewhere changes nobody's access: without its row everything would be as it is |
| `Shares.RevokingTheOnlyShare` | nexuscloud/internal/storage/share_sql_repository.go:295-310 | revoking the only share that covers a file takes access from everybody |
| `Sharing.SharingService.Download` | nexuscloud/internal/storage/file_service.go:444-468 | served to the owner and to whoever a share lets read, and to nobody else, with the recorded content |
| `Sharing.SharingService.UploadGrants` | nexuscloud/internal/storage/file_service_sharing.go:638-653 | exactly the shares on the folder, or on a folder above it that is not in the trash, that are not revoked, not over, allow downloading and uploading, and are addressed to this user or a group of this user |
| `Sharing.SharingService.MostPermissive` | nexuscloud/internal/storage/file_service_sharing.go:658-669 | a grant of the list that allows at least as much as every other |
| `Sharing.SharingService.UploadToSharedDirectory` | nexuscloud/internal/storage/file_service_sharing.go:544-577 | who is let in and why not, and the upload made under the best grant and its size limit |
| `Sharing.SharedUploadOnlyAdds` | nexuscloud/internal/storage/file_service_sharing.go:544-577 | a shared upload adds one file within the limit and leaves every existing row, history and content alone |
| `Sharing.SharingService.ResolveLink` | nexuscloud/internal/storage/file_service_sharing.go:305-345 | refused when links are off; granted only when the link of this token is not revoked, not past its end, below its number of downloads, and its password, if it has one, is given; refused with the first of these reasons otherwise |
| `Sharing.SharingService.DownloadViaLink` | nexuscloud/internal/storage/file_service_sharing.go:388-441 | what is served is the shared file or a file below the shared folder, with its recorded content, and it is counted exactly once; otherwise the first reason in order is given and nothing is counted |
| `Sharing.FileBelowIsFound` | nexuscloud/internal/storage/file_service_sharing.go:388-441 | every file at or below a shared folder, in the default pool, is found under its path from there |
| `Sharing.SharingService.IncrementDownloadCount` | nexuscloud/internal/storage/share_sql_repository.go:280-293 | the counter rises by one if and only if the limit is not reached |
| `Downloads.ServedWithinLimit` | nexuscloud/internal/storage/file_service_sharing.go:388-441 | under any interleaving of stale reads, the served downloads are exactly the smaller of the attempts and the limit, and all are counted |
| `Downloads.RevokedServesOnlyWaiting` | nexuscloud/internal/storage/share_sql_repository.go:295-310 | after revocation at most the clients that had resolved the link before are still served |
| `Downloads.RevocationComesTooLate` | nexuscloud/internal/storage/share_sql_repository.go:280-310 | and such a client is served: the counter does not look at the revocation |
| `LimitReader.ErrLimitReader.Read` | nexuscloud/internal/storage/file_service_sharing.go:509-522 | one read: never more than one byte past the limit, and too large exactly when that byte arrives; with the largest 64-bit integer left, and only then, it panics |
| `LimitReader.Drain` | nexuscloud/internal/storage/file_service_sharing.go:496-522 | for any pieces and any buffers, a content within the limit arrives whole and ends as its source does, a longer one fails, and under the largest limit nothing arrives |
| `LimitReader.Receive` | nexuscloud/internal/storage/file_service_sharing.go:482-488 | an upload through a limit gets the same stream, or a broken one when it is too long |
| `WebDav.FileSystem.Lookup` | nexuscloud/internal/webdav/filesystem.go:55-76 | what stands at a path: the root, an active folder before an active file, or nothing |
| `WebDav.FileSystem.RemoveTree` | nexuscloud/internal/webdav/filesystem.go:255-275 | it ends, nothing stops it with the trash on, it touches only active items at or below the folder, and every folder it takes is left listing nothing |
| `WebDav.FileSystem.RemoveAll` | nexuscloud/internal/webdav/filesystem.go:200-219 | as a DELETE the item and, on an ancestor-closed tree, exactly everything active below it goes to the trash and no content leaves the disk; as the first half of MOVE or COPY nothing is removed and only a file may be replaced |
| `Sweep.SweepsAll` | nexuscloud/internal/webdav/filesystem.go:255-275 | on an ancestor-closed tree the sweep takes all active items at and below the folder and no others |
| `Sweep.SweepKeeps` | nexuscloud/internal/webdav/filesystem.go:255-275 | a sweep keeps rows and disk in agreement |
| `WebDav.FileSystem.BeginOverwrite` | nexuscloud/internal/webdav/filesystem.go:240-253 | the agreement to replace is recorded only for an existing file; folders are refused |
| `WebDav.FileSystem.Rename` | nexuscloud/internal/webdav/filesystem.go:289-324 | a plain move that is done has the item at the new path, active, with its content or everything below it, and no longer on disk at the old place, and never replaces anything; an agreed overwrite is used once |
| `WebDav.FileSystem.MoveOverFile` | nexuscloud/internal/webdav/filesystem.go:332-348 | upload before delete: at every intermediate disk state the source content and the old destination content exist |
| `WebDav.OverwriteKeepsBoth` | nexuscloud/internal/webdav/filesystem.go:332-348 | the destination has the source content, its old content joins its history when it differs, the source is in the trash unchanged; rows and disk agree if and only if the destination is outside the reserved folders, and the contents are all in their places if and only if no version with other content is stored there |
| `WebDav.AgreedMoveGoesThrough` | nexuscloud/internal/webdav/filesystem.go:289-348 | an agreed move of a file over an active file of the default pool is carried out |
| `BackupStore.PlacesApart` | nexuscloud/internal/backup/manager.go:243 | on text: two files of a destination, copies or manifests, have the same cleaned path only when job, pool, owner, folder and name are the same |
| `BackupStore.WriteSparesIff` | nexuscloud/internal/backup/destination.go:80-103 | writing one file changes what another reads if and only if they share an inode and the bytes differ |
| `BackupStore.XorTwice` | nexuscloud/internal/backup/manager.go:93-106 | decrypting with the same key stream gives the content back |
| `BackupManager.Manager.CopyToDestination` | nexuscloud/internal/backup/manager.go:795-823 | the copy decrypts to the content and has the expected digest, or there is no copy under the name; every other name of its inode reads what was written, be it a copy, a mismatch or a write cut short |
| `BackupManager.Manager.BackupFile` | nexuscloud/internal/backup/manager.go:242-282 | an unchanged file shares the previous job's inode when linking works and its name is free, any other is copied; on a first pass its entry gives back the recorded content unless it is a link to something else, and no other name reads differently; a second pass over a linked file writes through the shared inode, and the older copy of a plain run reads as before if and only if nothing could be read or the bytes written were there |
| `BackupManager.Manager.BackupPool` | nexuscloud/internal/backup/manager.go:231-284 | the entry lists every active file of the pool once with its digest and the vector of this pass; every copy then holds what this pass stored, under that vector, whatever an earlier list of the pool records, or, linked on a first pass, what the older job held; no other pool of the job is touched, and of other jobs only the copies of linked files, on a later pass, which then hold what was written |
| `BackupManager.Manager.ResolveCandidates` | nexuscloud/internal/backup/manager.go:375-404 | exactly the active pools asked for that do not have backups off, each as often as it was named and in that order, or all of them once; refused exactly for an unknown id, or when none is left |
| `BackupManager.Manager.RunJob` | nexuscloud/internal/backup/manager.go:157-305 | refused, with nothing done, exactly when a passphrase is missing, an id is unknown or no eligible pool is asked for, with the first of these errors; otherwise it completes exactly when every file of every pass is linked, or can be read, has its recorded content and is written to the end, and so is the manifest; then a completed row with right counters, its manifest with a list for every pass, each of exactly the active files of an eligible pool asked for under the vectors of that pass, and every copy holding what the last pass over its pool left; or a failed row without manifest; every other job's rows and passphrases stay, and every name of another job reads as before but for exactly the copies written through, which are none when no pool is named twice |
| `BackupManager.OnlyFaultsStopARun` | nexuscloud/internal/backup/manager.go:231-304 | of a storage in agreement only a file that is not linked and cannot be read, or whose writing is cut short, keeps the copies of a run from completing |
| `BackupManager.Manager.Run` | nexuscloud/internal/backup/manager.go:157-309 | that, for any list of pool ids, followed after success, and only then, by retention; when everything voted out can be removed, the completed jobs at the destination are the newest-first prefix retention asks for |
| `BackupManager.Manager.PruneOldBackups` | nexuscloud/internal/backup/manager.go:342-366 | of the completed jobs beyond that prefix all files go but those that cannot be removed, and the row goes unless such a file is left; failed jobs and other destinations are untouched |
| `BackupRetention.VotesKeepAPrefix` | nexuscloud/internal/backup/manager.go:342-366 | a job is pruned if and only if it lies beyond the larger of what the active policies ask for |
| `BackupManager.StaysByPolicy` | nexuscloud/internal/backup/manager.go:306-366 | in the units of the options: a job stays if no policy is active, it is among so many latest, or it started less than so many times 24 hours ago, and otherwise goes |
| `BackupHistory.JobRemoved` | nexuscloud/internal/backup/manager.go:342-366 | removing a job leaves every other completed job intact, those sharing bytes with it included |
| `BackupRuns.HistoryStaysOk` | nexuscloud/internal/backup/manager.go:157-366 | by induction over any history of refused, failed and completed runs and retention: if every copy of a completed run is good, nothing was written through over other bytes, and nothing voted out was stuck, every completed job listed is intact under the passphrase it was run with: each of its entries verifies, and a file listed more than once has one digest |
| `BackupOutcomes.CarefulHistoryStaysOk` | nexuscloud/internal/backup/manager.go:157-366 | in any sequence of runs and retentions, over pools named any number of times: if no run encrypts a pool named twice, or is plain and incremental while the newest completed job there is encrypted, no incremental run over a pool twice has a write there cut short, and no retention meets a file that cannot be removed, every completed job listed at any time is intact |
| `BackupOutcomes.RunKeepsHistoryIff` | nexuscloud/internal/backup/manager.go:157-305 | a completed run, over any pools, leaves every completed job intact, itself included, if and only if it is not plain and incremental after an encrypted job with which it shares an unchanged file, linkable and changed by the key stream, and does not come back to a file with another key stream |
| `BackupOutcomes.CompletedIntactIff` | nexuscloud/internal/backup/manager.go:157-305 | the job a completed run makes is intact, and every entry of every list of its manifest verifies, if and only if no file of a pool named once was linked to bytes other than its plain content, and no file of a pool named more often meets different key streams under the vectors of an earlier pass and of the last one; of a plain run, all copies from pools named twice are good |
| `BackupOutcomes.PoolTwiceEncrypted` | nexuscloud/internal/cli/backup_cmd.go:149-159 | failing input, without any fault: one pool named twice, encrypted, with a file for which the two vectors give different key streams; the job completes and can be opened, but what Verify and Restore answer about it is false, although every file comes back with its content, from the last list |
| `BackupOutcomes.OthersKeptIffSpared` | nexuscloud/internal/backup/manager.go:231-284 | no run changes the files of another job when no eligible pool is named twice; when one is, exactly if all it wrote through shared inodes was there before |
| `BackupOutcomes.CompletedSparesIff` | nexuscloud/internal/backup/manager.go:231-284 | for a run that comes to its end that is so if and only if no file of a pool named twice was linked to bytes other than its plain content |
| `BackupOutcomes.CarefulKeepsOthers` | nexuscloud/internal/backup/manager.go:216-284 | which is never the case unless the run is plain and incremental after an encrypted job |
| `BackupOutcomes.EncryptedSurvivesIff` | nexuscloud/internal/backup/manager.go:216-284 | after a plain incremental run that comes to its end the encrypted job it linked to is still intact if and only if no file of a pool named twice is unchanged, can be linked and is changed by the key stream |
| `BackupOutcomes.PoolTwiceAfterEncrypted` | nexuscloud/internal/cli/backup_cmd.go:149-159 | failing input, without any fault: one pool named twice, plain and incremental, after an encrypted job, with one unchanged file; the copy of the older job then holds the plain content, and that job is lost |
| `BackupRuns.RunSparesIff` | nexuscloud/internal/backup/manager.go:231-284 | a run leaves a given job as it was if and only if what it wrote through inodes of that job was there before |
| `BackupRuns.NewJobIntactIff` | nexuscloud/internal/backup/manager.go:157-305 | a completed run leaves an intact job if and only if all its copies are good: no link of a pool saved once leads to bytes other than the plain content, and every vector recorded for a pool saved more often will do for the last copy |
| `BackupRuns.RestoredAsBackedUp` | nexuscloud/internal/backup/manager.go:157-490 | whatever happened since, for a completed job still listed whose files retention never tried to remove and no run over a pool twice overwrote: the manifest and the passphrase are those of its run, and restoring it into an empty folder gives exactly the active files of the pools it saved, once or more often, each with the content it had on disk at that run, save for links to something else of a pool saved once |
| `BackupManager.PlainAfterEncrypted` | nexuscloud/internal/backup/manager.go:216-257 | a plain incremental run after an encrypted job: the new job is intact if and only if no file of a pool saved once that is unchanged and can be linked has a ciphertext different from its content, that is, one that meets a key stream byte other than 0 |
| `BackupManager.RunSpoilsNothing` | nexuscloud/internal/backup/manager.go:216-257 | a run that does not link, or follows a plain job that is intact, links to nothing else than plain contents |
| `BackupHistory.AnyPassphrase` | nexuscloud/internal/backup/manager.go:68-87 | a job that is not encrypted is intact under any passphrase |
| `BackupManager.Manager.OpenBackup` | nexuscloud/internal/backup/manager.go:75-87 | a completed job, its manifest and the key of the passphrase; refused exactly when there is no such job, it is not completed, its manifest cannot be read or a passphrase is missing, with that reason |
| `BackupManager.Manager.Verify` | nexuscloud/internal/backup/manager.go:663-697 | answers exactly when the backup can be opened: one true verdict per listed file and one for all, true exactly when every entry of every list verifies; a job that is intact under this passphrase passes |
| `BackupManager.Manager.Restore` | nexuscloud/internal/backup/manager.go:454-490 | restores exactly when the backup can be opened, whatever becomes of single files: of every file the folder then holds what its last entry records if the copy verifies, nothing if it does not, and what it held before if it is not listed or has no copy; the error says whether any entry failed; a job that is intact under this passphrase comes back whole |
| `BackupHistory.PutAllGives` | nexuscloud/internal/backup/manager.go:454-490 | restoring an intact manifest gives back every listed file with its content, files listed more than once included |
| `BackupHistory.PutAllExact` | nexuscloud/internal/backup/manager.go:454-490 | what restoring into any folder leaves of any file: of a listed one with a copy, the content its last entry records if that verifies, and nothing if not; any other as it was |
| `BackupManager.Manager.Recount` | nexuscloud/internal/api/v1/backup_remote_handlers.go:102-110 | the receiver's recount of a manifest equals the number of files and of bytes its lists hold, which is what RunJob records |
| `RestoreToPool.RestoreToPool` | nexuscloud/internal/backup/manager.go:520-597 | goes ahead exactly when the pool is active and the backup can be opened; into a free pool exactly those files come back, active, with their content and reachable folder by folder, whose copy verifies and whose folder and file names the service takes; the others are counted as failed |
| `RestoreToPool.MaterializeAncestors` | nexuscloud/internal/backup/manager.go:609-626 | it succeeds exactly when every segment is a valid name; then every ancestor of the path has an active folder row, and nothing gets in the way of the files to come |
| `RestoreToPool.RestoreReplaces` | nexuscloud/internal/backup/manager.go:586-593 | where the pool has an active file of the same name, the upload of the restored content is accepted over it |
| `RestoreToPool.UploadedButNotNameable` | nexuscloud/internal/backup/manager.go:547-594 | failing input: an upload below a folder whose name has an invalid character is accepted, but no folder of that name can be made |
| `RestoreToPool.ColonFolder` | nexuscloud/internal/backup/manager.go:547-594 | for one, below "/a:b" |
| `RestoreToPool.EmptyPoolIsFree` | nexuscloud/internal/backup/manager.go:547-594 | a pool with no rows of these owners and no stray folders at the places is free |
| `RestoreToPool.BackupFitsEmptyPool` | nexuscloud/internal/backup/manager.go:547-594 | so is such a pool for the backup of one pool of any storage in agreement |
| `RestoreToPool.BackedUpFilesNeverNest` | nexuscloud/internal/backup/manager.go:547-594 | the files of a run never lie above one another, as a free pool demands |
| `RestoreToPool.SinglePoolApart` | nexuscloud/internal/backup/manager.go:547-594 | the files of a manifest with one pool are all different in the target pool |

## Left out

- RunKeepsAgreement: which calls are harmless is stated by `Harmless`, and which leave the contents in place by `KeepsContents`; what further calls do after one that is not harmless is not pursued, as the service's methods are proved to make their steps from states in agreement.
- SafeJoinStaysInside: the root is taken as already absolute and clean; `filepath.Abs` and Windows separators are not modelled.
- SafeJoinResolved: what `Lstat` and `EvalSymlinks` answer is a parameter; changes of the file system between the check and its use are not modelled.
- DownloadViaLink: the sub path arrives cut into `path.Dir` and `path.Base`; token and password hashing are injective digests.
- UploadToSharedDirectory: limits are taken below the largest 64-bit integer, under which the reader panics; `UploadViaPublicShare` is the same program under the link's own limit and has no member of its own.
- RemoveAll: only with the trash switched on; without it the recursive delete is physical and may stop at a folder that still holds trashed files.
- RemoveTree: all its calls happen at one time; the source reads the clock for each.
- Rename: an agreed overwrite is modelled with the trash switched on.
- MoveOverFile: likewise.
- Upload: row ids and staging ids are fresh parameters; the path does not name the staging file of its own upload.
- StoreContent: likewise.
- PurgeExpiredTrash: a deletion that fails on I/O is not modelled.
- Run: ids of pools are unique and ids of runs never used twice; the storage does not change while a run copies it; destinations with different paths are different places.
- BackupFile: a destination file that cannot be opened is treated as a source that cannot be read, which also changes nothing and fails the run.
- Restore: the folder restored into is a map from items to contents; its directories are not modelled.
- RestoreToPool: what happens into a pool that already holds items of these owners, or from a manifest with two entries for one place, as of a pool saved twice, is stated only as agreement and counts; the paths of the manifest are users' paths, as those of a storage in agreement are.
- Remote destinations: the HTTP transport. A remote destination never links, which the model has as a fault at every link.
- JSON: manifests are stored as values; encoding and decoding are taken to be inverse.
- Cryptography: SHA-256 is an injective function, key derivation and key stream are arbitrary functions.
- SQL: tables are maps with unique natural keys, LIKE is case-sensitive, listings called newest first are ordered by time, ties as in the table. `ORDER BY name` is not modelled.
- MIME types, audit records, `fileInfo`, COPY and PUT streaming, WebDAV locks.
- I/O errors of the physical store other than those the tree itself causes, crashes inside a call, and two FileService calls at once; only the download counter is modelled under interleaving.
- User deletion, share creation and listing, `ListVersions`, `DownloadVersion`, `ListTrash`, `SharedUploadPermission`: one-branch queries over the same rows.
