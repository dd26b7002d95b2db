# FolderSync: one synchronization pass, modelled and proved in Dafny

FolderSync keeps a replica directory as a copy of a source directory. Each
synchronization pass calls `FolderSynchronizer.SynchronizeFolders(source,
replica, log)`. At one level, that call does the following:

1. It makes sure the replica directory exists, creating it if needed. When
   creation fails it logs the failure and returns.
2. It copies every source file whose replica counterpart is missing or
   compares different (MD5 of both files). A comparison that throws counts
   as "different".
3. It deletes every replica file that has no same-named source file.
4. It calls itself on every source subfolder. An exception that escapes a
   recursive call is logged, and the loop goes on with the next subfolder.
5. It deletes, recursively, every replica folder that has no same-named
   source folder.

Each copy or delete that throws is caught, logged, and the loop moves on. The
directory listings that start steps 2-5 are not inside a `try`. An exception
from one of them leaves the call and is caught one level up, as a failed
subfolder.

The model has four parts.

- **`FileTree`**: the file system as a value. `Node = File(content) |
  Dir(children)`, with paths as sequences of names.
- **`SyncSpec`**: what one call does, as functions: the new replica node
  (`SyncTree`) and the set of records it logs (`SyncEvents`). The environment
  is a set of `Fault`s, one for each injected failure, keyed by the path of
  the operation that throws. A copy onto a folder and a creation over a file
  throw because of the tree itself, not because of a `Fault`. The description goes entry by entry: every entry name goes
  through the passes that started (`PassesRun`), on its own (`EntryAfter`,
  `EntryEvents`).
- **`SyncPasses`** and **`FolderSynchronizer`**: the code as it runs.
  - `Logger` is a class whose `records` field is the log.
  - `SynchronizeFolders` and one method per `foreach` loop change the logger.
  - Each loop handles one listed name per iteration, in whatever order the
    listing yields, and keeps invariants that tie the partial work to
    `SyncSpec`.
  - The method's contract states the resulting tree and record set. For every
    directory `q`, it also states the order of the records at or below `q`:
    creation, copies, file deletions, everything from the subfolder pass,
    folder deletions (`OrderedAt`).
- **`SyncProperties`**: what the design promises, proved about `SyncSpec`:
  - What happens to each kind of entry.
  - Failures are isolated to the entry they occur at.
  - A pass with no failures, on a replica that is not a file and has no
    folder where the source has a file, leaves a mirror, and the next pass
    with no failures changes nothing and logs nothing. Without that
    restriction a pass with no failures can leave no mirror
    (`BlockedByFolder`).

The body of `SynchronizeFolders` is split across two methods.
`SynchronizeFiles` runs the two file loops and `SynchronizeDirectories` the
two folder loops. Both exit early when a listing throws, as the exception
does in the code. The split keeps each proof small; the order of operations
is the code's.

Where the documented behaviour of the tool and its code disagree, the model
follows the code:

- A failed content comparison is written only to the console (line 186 of
  `FilesHaveSameContent`). It goes through neither `Log` nor the log file,
  so it produces no log record. The documented behaviour has it logged.
- When a replica subfolder cannot be created, the recursive call catches
  the failure itself, logs it and returns normally (lines 72-76). The parent
  therefore logs no "failed to synchronize subfolder" record for it
  (`CreateFailureIsolated`).
- Running twice in a row does not always leave the second run idle.
  Suppose the source has a file where the replica has a folder:
  - the first pass cannot copy onto the folder, then deletes the folder;
  - the second pass copies the file.

  `BlockedByFolder` and `FolderInTheWayOfFile` prove this for a concrete
  tree. The idle second pass is proved (`QuiescentSecondPass`) for replicas
  without such a clash (`Compatible`), and `MirrorAfterTwoPasses` proves
  that two passes with no failures always suffice, unless the replica root
  itself is a file (then creation fails and the replica stays as it is).

## Model

| member | source | states |
|---|---|---|
| FileTree.FileNames | FolderSync/FolderSynchronizer.cs:80 | `Directory.GetFiles` lists exactly the names that are regular files of the directory |
| FileTree.DirNames | FolderSync/FolderSynchronizer.cs:120 | `Directory.GetDirectories` lists exactly the names that are subdirectories of the directory |
| FileTree.IsFile | FolderSync/FolderSynchronizer.cs:87-107 | definition: `File.Exists` at lines 87 and 107 holds exactly when the path names a regular file (a directory does not count) |
| FileTree.IsDir | FolderSync/FolderSynchronizer.cs:143 | definition: `Directory.Exists` at line 143, and at line 65 for the replica itself, holds exactly when the path names a directory |
| SyncPasses.Domain | FolderSync/FolderSynchronizer.cs:80-136 | definition: the names each pass walks are the source files (line 80), the replica files (line 100), the source subfolders (line 120) and the replica subfolders (line 136) |
| SyncSpec.OpenRead | FolderSync/FolderSynchronizer.cs:175-176 | `File.OpenRead` yields the file's bytes exactly when the read does not throw |
| SyncSpec.FilesHaveSameContent | FolderSync/FolderSynchronizer.cs:169-189 | "same" only when both files could be read; when both were read, "same" exactly when their digests are equal; any read failure gives "different" |
| SyncSpec.NeedsCopy | FolderSync/FolderSynchronizer.cs:87 | definition: the copy is attempted when the replica entry is not a file (missing, or a folder) or `FilesHaveSameContent` of the two files, each read under its own read fault, is false |
| SyncSpec.CopySucceeds | FolderSync/FolderSynchronizer.cs:89 | definition: `File.Copy` with overwrite succeeds exactly when the destination is not a directory and no copy fault is injected for that path |
| SyncSpec.CreateFails | FolderSync/FolderSynchronizer.cs:65-76 | definition: the replica directory is not there and cannot be made, because a file stands at its path or `Directory.CreateDirectory` throws; the call then logs the failure and returns |
| SyncSpec.PassesRun | FolderSync/FolderSynchronizer.cs:80-136 | every pass up to the returned count lists its directory without throwing; when fewer than four start, the listing of the next pass is the one that threw |
| SyncSpec.SyncOk | FolderSync/FolderSynchronizer.cs:62-154 | definition: the call returns normally when the replica could not be created (that failure is caught at lines 72-76) or when none of the four listings at lines 80, 100, 120 and 136, which are outside any `try`, throws |
| SyncSpec.SyncTree | FolderSync/FolderSynchronizer.cs:62-154 | a replica that can be neither found nor created is left as it was; otherwise the call leaves a replica directory |
| SyncSpec.LevelAfter | FolderSync/FolderSynchronizer.cs:79-153 | after any number of passes, each entry of the replica listing is what those passes make of that name's own starting replica entry, so replica siblings do not interact (that only the same-named source entry matters is `SyncProperties.EntryLocality`) |
| SyncSpec.EntryAfter | FolderSync/FolderSynchronizer.cs:79-153 | a name that neither side has never appears in the replica |
| SyncSpec.StepEntry | FolderSync/FolderSynchronizer.cs:87-145 | definition: what each pass does to one entry. The copy pass replaces the entry by the source file when the source has a file there, a copy is needed and the copy succeeds (lines 87-89). The orphan-file pass removes a replica file without a same-named source file unless the delete throws (107-109). The subfolder pass replaces the entry by the result of the recursive call for a source subfolder (127). The orphan-folder pass removes a replica folder without a same-named source folder, contents included, unless the delete throws (143-145). Every other entry is left as it is |
| SyncSpec.StepAction | FolderSync/FolderSynchronizer.cs:87-151 | definition: the record each pass logs about one entry. The copy pass logs a copy when it attempts one, as succeeded (line 90) or failed (95). The orphan-file pass logs a deletion of a replica file without a source file, as done (110) or failed (115). The subfolder pass logs a failure when the recursive call for a source subfolder does not return normally (131). The orphan-folder pass logs a folder deletion, as done (146) or failed (151). Otherwise no record |
| SyncSpec.StepEvents | FolderSync/FolderSynchronizer.cs:80-153 | what a pass logs while handling entry `n` is a record about `n` itself or a record from below `n` |
| SyncSpec.EntryEvents | FolderSync/FolderSynchronizer.cs:80-153 | the same for all passes that handled `n` |
| SyncSpec.LevelEvents | FolderSync/FolderSynchronizer.cs:80-153 | the passes at `p` log only records about names that one of the two listings holds, or records from strictly below `p` |
| SyncSpec.SyncEvents | FolderSync/FolderSynchronizer.cs:62-154 | a call at `p` logs only records at `p` or below it |
| SyncPasses.PassMap | FolderSync/FolderSynchronizer.cs:80-153 | once a pass has handled the names in `done`, exactly those entries have had the pass applied, and every other entry is unchanged |
| SyncPasses.PassMapStep | FolderSync/FolderSynchronizer.cs:80-153 | handling one more name changes at most that name's entry, and nothing when the pass leaves it alone |
| SyncPasses.PassEventsStep | FolderSync/FolderSynchronizer.cs:80-153 | handling one more name adds exactly that name's records to the pass's records |
| SyncPasses.OutsideDomain | FolderSync/FolderSynchronizer.cs:80-153 | a name outside the listing a pass walks is neither changed nor logged by that pass |
| SyncPasses.NextPassLevel | FolderSync/FolderSynchronizer.cs:79-153 | running the next pass over the whole of its listing gives the listing after one more pass |
| SyncPasses.NextPassEvents | FolderSync/FolderSynchronizer.cs:79-153 | the records of the first `k+1` passes are those of the first `k` plus those of pass `k+1` |
| SyncPasses.AppendSubfolder | FolderSync/FolderSynchronizer.cs:120-133 | appending a subfolder's records after those of earlier subfolders keeps the log in pass order at every directory |
| SyncPasses.ItemStep | FolderSync/FolderSynchronizer.cs:80-153 | one iteration of a file or orphan-folder loop appends at most the record about its own name, and the log then holds exactly the records of the names handled so far |
| SyncPasses.SubfolderStep | FolderSync/FolderSynchronizer.cs:120-133 | one iteration of the subfolder loop appends the recursive call's records then its failure record, giving exactly the records of the names handled so far, still in order at every directory |
| SyncPasses.AppendSubfolderFailure | FolderSync/FolderSynchronizer.cs:129-132 | the failure record of a subfolder comes after everything its call logged, without breaking the order |
| FolderSynchronizer.Logger.Log | FolderSync/FolderSynchronizer.cs:156-167 | `Log` never fails: the record is appended and nothing else changes |
| FolderSynchronizer.SynchronizeFolders | FolderSync/FolderSynchronizer.cs:62-154 | the method leaves exactly the replica node `SyncTree` describes and appends exactly the records `SyncEvents` describes; every directory's records are in pass order; it returns normally exactly when creation failed (the failure is caught) or no listing at this level threw; a failed creation logs that one record and nothing else |
| FolderSynchronizer.SynchronizeFiles | FolderSync/FolderSynchronizer.cs:79-117 | the copy and orphan-file loops bring the listing and log to the state after the passes that started; it signals an early exit exactly when a file listing threw |
| FolderSynchronizer.SynchronizeDirectories | FolderSync/FolderSynchronizer.cs:119-153 | the subfolder and orphan-folder loops do the same for the last two passes; the method returns normally exactly when both listings succeeded |
| FolderSynchronizer.CopyNewAndChangedFiles | FolderSync/FolderSynchronizer.cs:80-97 | for every source file, in any order, the entry after the copy pass and exactly its copy record; every record concerns this directory and belongs to the copy pass |
| FolderSynchronizer.RemoveOrphanFiles | FolderSync/FolderSynchronizer.cs:100-117 | for every replica file, the entry after the orphan-file pass and exactly its record; only records of that pass at this directory |
| FolderSynchronizer.SynchronizeSubfolders | FolderSync/FolderSynchronizer.cs:120-133 | for every source subfolder, the recursive call's result and records, and a failure record exactly when the call threw; the log stays in order at every directory below |
| FolderSynchronizer.RemoveOrphanFolders | FolderSync/FolderSynchronizer.cs:136-153 | for every replica folder, the entry after the orphan-folder pass and exactly its record; only records of that pass at this directory |
| FolderSynchronizer.StageStep | FolderSync/FolderSynchronizer.cs:79-153 | one finished pass, as its loop establishes it, advances the listing and the record log from after `k` passes to after `k+1` |
| FolderSynchronizer.FinalStage | FolderSync/FolderSynchronizer.cs:62-154 | once the passes that started are done, the listing, the record set and the normal-return flag are those `SyncTree`, `SyncEvents` and `SyncOk` describe |
| SyncProperties.Outcome | FolderSync/FolderSynchronizer.cs:79-153 | when the replica exists or is created, entry `n` ends as the passes that started leave it, starting from its replica entry |
| SyncProperties.EntryItems | FolderSync/FolderSynchronizer.cs:80-153 | a record about entry `n` is logged exactly when one of the passes that handled `n` took that action |
| SyncProperties.ItemRecords | FolderSync/FolderSynchronizer.cs:62-154 | the records a call logs about its entry `n` are exactly the actions its passes took on `n` |
| SyncProperties.RecordsBelow | FolderSync/FolderSynchronizer.cs:120-133 | records from below subfolder `n` are logged exactly when the subfolder pass started, `n` is a source subfolder, and the recursive call for `n` logged them, starting from the replica entry the file passes left |
| SyncProperties.CopyWhenMissingOrDifferent | FolderSync/FolderSynchronizer.cs:80-97 | a source file is copied exactly when the replica has no file there or the two compare different, and the copy does not throw; a throwing copy is reported as failed; a copied entry ends as the source file; a copy that throws onto a missing entry or a replica file leaves that entry as it was; a file that compares the same is untouched and nothing at all is logged about it or below it |
| SyncProperties.UnreadableMeansDifferent | FolderSync/FolderSynchronizer.cs:169-189 | against a replica file, a copy is needed exactly when either read fails or the digests differ |
| SyncProperties.OrphanFileDeleted | FolderSync/FolderSynchronizer.cs:100-117 | once the orphan-file pass starts, a replica file with no same-named source file is reported deleted exactly when deletion does not throw, and as failed otherwise; with no source entry at all, that is its only record and the entry is gone exactly when deletion succeeded |
| SyncProperties.SourceFileNotDeleted | FolderSync/FolderSynchronizer.cs:100-117 | a replica file with a same-named source file is never deleted, and no deletion is reported for it: when the replica exists or is created, it ends as a file, either itself or the copied source file |
| SyncProperties.OrphanFolderDeleted | FolderSync/FolderSynchronizer.cs:136-153 | once the orphan-folder pass starts, a replica folder with no same-named source folder is reported deleted exactly when deletion does not throw, and is then gone with all its contents; nothing is ever logged about its contents |
| SyncProperties.SubfolderSynchronized | FolderSync/FolderSynchronizer.cs:120-133 | once the subfolder pass starts, a source subfolder is synchronized by a recursive call, on the replica entry left by the file passes (a same-named file deleted unless the delete threw); the call's result is the final entry; a failure record is logged exactly when the call did not return normally |
| SyncProperties.CreateFailureIsolated | FolderSync/FolderSynchronizer.cs:64-77 | when the replica folder can be neither found nor created, the call changes nothing, logs exactly that failure and returns normally |
| SyncProperties.TreeLocality | FolderSync/FolderSynchronizer.cs:62-154 | what a call at `p` does, logs and whether it returns normally depend only on the failures at `p` and below |
| SyncProperties.LevelLocality | FolderSync/FolderSynchronizer.cs:79-153 | the same for the listing and records after the first `k` passes |
| SyncProperties.EntryLocality | FolderSync/FolderSynchronizer.cs:79-153 | what the passes do to entry `n` depends only on that entry's source side and the failures at `p+[n]` and below |
| SyncProperties.EntryRecordLocality | FolderSync/FolderSynchronizer.cs:79-153 | the same for what the passes log and report about entry `n` |
| SyncProperties.StepLocality | FolderSync/FolderSynchronizer.cs:80-153 | the same for one pass over entry `n` |
| SyncProperties.SiblingIsolation | FolderSync/FolderSynchronizer.cs:79-153 | given the same passes started, entry `n`'s outcome, its reported actions and every record below it are the same whatever its siblings hold and whatever fails for them |
| SyncProperties.MirrorAfterPass | FolderSync/FolderSynchronizer.cs:62-154 | with no failures, on a replica that is not a file and has no folder where the source has a file (at any depth), one pass leaves a replica directory that mirrors the source (same names and kinds, files of equal digest), and returns normally |
| SyncProperties.EntryMirrors | FolderSync/FolderSynchronizer.cs:79-153 | the entry half of the same statement |
| SyncProperties.IdempotentPass | FolderSync/FolderSynchronizer.cs:62-154 | with no failures, on a replica that mirrors the source, a pass changes nothing, logs nothing and returns normally |
| SyncProperties.EntryIdle | FolderSync/FolderSynchronizer.cs:79-153 | the entry half of the same statement |
| SyncProperties.PassLeavesCompatible | FolderSync/FolderSynchronizer.cs:62-154 | with no failures, on a replica that is not a file, one pass leaves a replica directory with no folder where the source has a file, at any depth |
| SyncProperties.EntryCompatible | FolderSync/FolderSynchronizer.cs:79-153 | the entry half of the same statement |
| SyncProperties.MirrorAfterTwoPasses | FolderSync/FolderSynchronizer.cs:62-154 | two passes with no failures leave a mirror of the source, whatever the replica held, as long as it is not a file |
| SyncProperties.QuiescentSecondPass | FolderSync/FolderSynchronizer.cs:62-154 | starting from a replica that is not a file and has no folder where the source has a file, the pass after a pass with no failures changes nothing and logs nothing, when it has no failures either |
| SyncProperties.BlockedByFolder | FolderSync/FolderSynchronizer.cs:87-146 | source file `a` against replica folder `a`, with no failures: the copy is reported failed, the folder is deleted, and `a` is gone afterwards |
| SyncProperties.FolderInTheWayOfFile | FolderSync/FolderSynchronizer.cs:87-90 | the pass after that copies `a` and logs the copy, so that second pass is not idle |

## Left out

- `StartPeriodicSync`, `StopSynchronization` and `RunSynchronization`
  (lines 23-60), and all of `Program.cs`: the timer, its threads and
  argument parsing. An exception from the top-level call, which
  `RunSynchronization` would catch, is the `ok == false` result.
- MD5 itself is the `digest` parameter. So "same content" means "same
  digest", and a mirror is a mirror up to the digest, as in the code.
- The file system is a value threaded through the calls. Not modelled:
  - other processes changing it during a pass;
  - links;
  - path strings and `Path.Combine`.
- A copy or delete that throws is modelled as changing nothing. A
  `Directory.Delete(dir, true)` that fails half-way, after removing part of
  the folder, is not modelled.
- `Log` writes to the console and appends a timestamp and message text to
  the log file (lines 160-165). Left out:
  - the text, the timestamp and the console output;
  - an append to the log file that throws and is reported only on the
    console, which loses that line from the file.

  `Logger.records` is the sequence of records handed to `Log`, so it holds
  every record.
- The console message of a failed comparison (line 186) is not a log record,
  so it is not modelled.
- Existence checks are exact. `File.Exists` and `Directory.Exists`
  (lines 65, 87, 107 and 143) return false on an I/O or permission error
  instead of throwing. The code would then delete a replica file or folder
  whose source counterpart exists (lines 107-109 and 143-145). The `Fault`
  set has no such case, so `SyncProperties.SourceFileNotDeleted` and the
  orphan-folder pass hold only under exact existence checks.
- Names compare by exact string equality. On a case-insensitive file
  system the code treats source `A.txt` and replica `a.txt` as one entry,
  while the model copies `A.txt` and deletes `a.txt`.
- The source tree, the replica tree and the log file are separate. A replica
  inside the source, or a log file inside either tree, would change what the
  listings see during a pass; that is not modelled.
- The order in which `Directory.GetFiles` and `Directory.GetDirectories`
  list names is unspecified. The loops take the names in any order, and the
  results hold for every order.
- FolderSynchronizer.SynchronizeFolders: states the order of the records
  only between passes, per directory. Within one pass the loop order is
  unspecified. Its record contract is a set, so it does not say how often a
  record appears.
- FolderSynchronizer.Logger.Log: the failure of the log file append is not
  modelled (see above).
