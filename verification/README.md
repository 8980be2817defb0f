# PennCloud: a verified model

PennCloud is a replicated key-value store with a web storage service, a mail service and a load
balancer on top. This project models its hard parts in Dafny and proves, for all inputs and all runs,
what the code promises; where the code does not keep a promise, it proves exactly when it does.

`dafny verify dfyconfig.toml` checks everything.

**The tablet store.** A row key hashes to a tablet t in 1..n (any ring size n >= 3); workers t, t+1 and
t+2 hold it. `Ring` is the placement arithmetic of worker and coordinator, `Wire`, `Serializer` and
`CommandLogger` are the byte formats, `Tablets` the effect and the replay of commands, `Durability`
one tablet copy with its log, checkpoint and counter as a step machine, `Worker` the class with the
handlers and the recovery loop, `Cluster` the whole ring as a step machine (client update, client read,
SHUTDOWN, process death, restart), `ClusterDurability` the projection of a cluster run onto one copy,
`StoreWitnesses` crashes and outages that lose what was acknowledged.
The central theorems are `Cluster.ReplicaAgreement` (over any run, every live holder of a tablet has
exactly the acknowledged updates applied in order, if and only if every total outage ended with a worker
whose files were still good) and `Cluster.RepliesOfOneMap` (no client can tell
the cluster from a single map).

**The file store.** A user's tree lies in the columns of one row. `FileTree.Stores` says that columns
hold an abstract tree; `Col` is injective on paths and kinds of column, which gives every proof its
frame. `Visits` is what a recursion over the child lists sees of a tree; `FileMoves` and `TreeMoves` are
the recursive move, `FolderMove`, `StrayMoves`, `HollowMoves` and `MoveHandler` the move of a folder with its
handler, `SingleMove` moves files, `FolderDelete` deletes, `Upload`, `UploadNames` and `UploadTree` store and read
files in chunks,
`Folders` lists and creates folders, and `StorageWitnesses` are requests after which the store is broken.
Each operation is a method on the mutable row, with the abstract tree as a ghost argument.

**Codecs and framing.** `ChunkedCoding` is chunked transfer coding (section 7.1 of RFC 9112) with the
writer and the reader of the storage service. `SmtpSession` and `SmtpFraming` are the command machine
and the line reader of the SMTP server (sections 2.3.8, 4.1.1 and 4.1.4 of RFC 5321).

**Mail and load balancing.** `Mailbox` is the message index of every mailbox, `MailDelivery` what the SMTP
server writes into mailboxes, `LoadBalancer` the round robin over live frontends. `Text`, `Options` and
`KvRow` are the string operations, optional values and the row as clients see it.

Promises that turned out to hold only under a condition. The condition is exact, proved as an
if-and-only-if; a second member reaches the failing side:

- A torn last log record is skipped by recovery but not cut off, and the next record is appended behind
  it: the log stays readable exactly when nothing torn was left (`CommandLogger.AppendAfterTear`;
  `StoreWitnesses.TearLosesTheNext`).
- A crash between writing a checkpoint and clearing the log recovers the live table exactly when every
  cell first named by a CPUT ended with the value it started with (`Durability.CrashBeforeClearLog`;
  `StoreWitnesses.CPutCaught`, reached by a run of twenty updates in `StoreWitnesses.CaughtInARun`).
- All live holders of a tablet agree with the acknowledged updates exactly when every total outage of it ended
  with a worker whose files give the table that the last leader had (`Cluster.ReplicaAgreement`). A holder that
  was down meanwhile loses them (`StoreWitnesses.StaleHolderReturns`, on every ring); whoever left last with good
  files may come back first (`Cluster.LastOutFirstIn`).
- A restarting worker gets the table of a named primary exactly when that is up and its stream holds; otherwise
  it reads the error text as a table and ends with an empty tablet (`Worker.Worker.RecoverAllTablets`;
  `StoreWitnesses.NamedButDown`, where the worker's own files were good).
- Reads that fail come back as text starting with ERR, and the storage service tests list columns for
  that prefix. Moving or deleting a subtree works exactly when no list in it starts with ERR
  (`FolderMove.MoveFolder`, `FolderDelete.DeletesExactly`), which a folder called `ERRATA` with one child
  brings about (`StorageWitnesses.MoveErrata`, `StorageWitnesses.DeleteErrata`).
- The name guard of a folder move misses exactly the names under a target list that starts with ERR
  (`MoveHandler.WebMoveFolder`): such a move unlists the target's other children, a move of a folder onto
  itself deletes it, and a folder called `metadata` moved to the root destroys the root's list
  (`StrayMoves`; `StorageWitnesses.MoveOntoTaken`). That the source is a folder is not checked: a file is
  destroyed, and where nothing is an empty folder appears (`HollowMoves.HollowResult`).
- An upload under the name of a file is renamed within its folder exactly when the first dot of the whole path
  is in the file's name; without a dot the handler throws, and with one in the name of a folder the file lands
  outside and no tree is left (`UploadTree.WebUpload`; `StorageWitnesses.UploadOutside`).
- Creating a folder or moving a file works exactly when the folder has its list column, and an upload needs it
  (`Folders.WebCreateFolder`, `SingleMove.MoveFile`, `UploadTree.WebUpload`). A move that empties a folder
  can delete that column (`StorageWitnesses.EmptyThenCreate`); listing the folder puts it back, but also
  erases a list that starts with ERR (`Folders.RepairList`).
- A file comes back whole exactly when it fits in one chunk or its path does not contain `not found`,
  the text that the upload loop takes for a missing list, and a list left at its path is dropped or adds
  nothing (`Upload.UploadThenDownload`; `StorageWitnesses.UploadNotFound`).
- A rejected MAIL command changes the sender exactly when its argument starts with `FROM:`, is not in
  angle brackets and differs from the sender there was (`SmtpSession.RejectionKeepsState`;
  `SmtpFraming.RefusedSenderIsUsed`); external recipients outlive their message
  (`SmtpFraming.NextDataAfterMessage`).
- A mailbox index agrees with its columns exactly when no header field has a comma and nobody deletes
  the column `meta` of a mailbox with messages (`Mailbox.DeliveredAgrees`, `Mailbox.ErasedAgrees`;
  `Mailbox.CommaInSubject`, `Mailbox.IndexDeleted`). The comment and the error page of `deleteEmail` say
  that an unknown id is an error; the store reports success, and the model follows the code.

## Model

| member | source | states |
|---|---|---|
| `Wire.ReadWritten` | utils/serializer.cc:11-24 | a length-prefixed string of 32-bit size reads back, and the bytes after it stay unread |
| `Wire.ReadCut` | utils/serializer.cc:18-24 | every proper prefix of a written string is rejected |
| `Tablets.ReplayLogs` | backend/worker.cc:651-696 | the replay loop computes the fold of the commands, or gives up at the first CPUT mismatch or unknown command |
| `Tablets.ReplayTwice` | backend/worker.cc:651-696 | replaying a list on its own result succeeds iff every cell first named by a CPUT ended where it started, and then changes nothing |
| `Tablets.ReplayTwiceWithoutCPut` | backend/worker.cc:651-696 | a PUT/DELETE-only list replayed on its own result changes nothing |
| `Serializer.SerializeTablet` | utils/serializer.cc:26-45 | the nested loops write an encoding of some listing of the table, whatever the iteration order |
| `Serializer.DeserializeTablet` | utils/serializer.cc:47-74 | the reading loops compute the decoder, with its flag and its partly filled table |
| `Serializer.RoundTrip` | utils/serializer.cc:26-74 | any encoding of a table with 32-bit sizes reads back as the table without its empty rows; the same table iff it has none |
| `Serializer.TruncationRejected` | utils/serializer.cc:47-74 | every proper non-empty prefix of an encoding is rejected |
| `Serializer.CutIntoChunks` | backend/worker.cc:600-610 | the streamed pieces, at most 1 MB each, join to the same bytes |
| `Serializer.JoinChunks` | backend/kvs_client.h:194-198 | the receiver's loop joins the pieces in order |
| `CommandLogger.Logger.LogCommand` | utils/logger.cc:35-42 | appends one record of five length-prefixed strings to the file |
| `CommandLogger.Logger.GetLogs` | utils/logger.cc:44-64 | returns the records of the file up to the first incomplete one |
| `CommandLogger.Logger.ClearLog` | utils/logger.cc:66-76 | leaves an empty file |
| `CommandLogger.ParseAppended` | utils/logger.cc:35-64 | one record appended to a whole log reads back as one command more |
| `CommandLogger.PrefixOfLog` | utils/logger.cc:44-64 | every byte prefix of a log reads back as the longest list of records it holds completely |
| `CommandLogger.AppendAfterTear` | utils/logger.cc:35-64 | after a torn tail, every update that is logged next stays readable iff the tail is empty |
| `Ring.StoredWhereRouted` | backend/worker.cc:113-136 | worker w keeps tablet t in place i+1 iff it is candidate i of the coordinator |
| `Ring.ForwardsToLaterCandidates` | backend/worker.cc:193-213 | the primary at chain position i forwards to exactly the later positions, in order |
| `Ring.CandidatesDistinct` | backend/coordinator.cc:152-172 | the three holders of a tablet are different workers |
| `Ring.GetCurrentPrimary` | backend/coordinator.cc:152-172 | the candidate loop returns the first live candidate, and nothing iff none is alive |
| `Ring.RecoveryPairsUp` | backend/coordinator.cc:92-107 | the i-th answer to a restarting worker is the primary of the i-th tablet its loop visits, and never the worker itself when it is marked dead |
| `Worker.Bucket` | utils/utils.cc:11-14 | every row key hashes to a tablet on the ring |
| `Worker.Outcome` | backend/worker.cc:323-338 | a command is answered OK iff it can be applied to the table |
| `Worker.Worker.Get` | backend/worker.cc:218-249 | OK with the cell's value iff the worker is up, keeps the tablet and the cell exists; otherwise the right error |
| `Worker.Worker.Commit` | backend/worker.cc:272-290 | applies, logs, counts, and on the tenth update checkpoints and clears the log; no other tablet changes |
| `Worker.Worker.Replicate` | backend/worker.cc:436-583 | the three replica handlers: status and new state, error paths included |
| `Worker.Worker.Serve` | backend/worker.cc:251-434 | the three primary handlers: status, own new state, and each later replica handles the command exactly once while no other worker changes |
| `Worker.Worker.CopyTablet` | backend/worker.cc:585-616 | streams an encoding of exactly the requested tablet, or fails with UNAVAILABLE when down, NOT_FOUND for a tablet kept elsewhere, INTERNAL when the stream breaks |
| `Worker.CopyErrorIsNoTable` | backend/kvs_client.h:200-206 | the error text that the client returns instead is rejected by the reader, which leaves the table empty |
| `Worker.Worker.RecoverFromLocal` | backend/worker.cc:699-731 | rebuilds the tablet from checkpoint and log; fails iff they do not recover |
| `Worker.Worker.RecoverTablet` | backend/worker.cc:740-762 | one round: it gets through iff the worker is not sent to itself and, sent to nobody, its files recover; then the place has the primary's table, the files' table, or an empty table when the named primary does not deliver |
| `Worker.Worker.RecoverAllTablets` | backend/worker.cc:733-764 | under any liveness view, also one that still lists the worker itself: recovery gets through iff all three rounds do, and then each tablet is restored iff its named primary is up and its stream holds, and empty otherwise |
| `Durability.RecoveredHasNoEmptyRow` | utils/serializer.cc:47-74 | whatever bytes it is given, recovery never builds an empty row |
| `Durability.LocalRunsAreDurable` | backend/worker.cc:272-290 | in every run with local recoveries only, at every handler boundary checkpoint and log recover exactly the live table |
| `Durability.DurableAgainAfterTenUpdates` | backend/worker.cc:278-290 | from any sound state, also after a remote copy, the files are good again after at most ten accepted updates |
| `Durability.LogStaysShort` | backend/worker.cc:278-290 | the counter stays below ten, and after r process deaths the log holds at most 9*(r+1) commands |
| `Durability.CopyCanLeaveFilesBehind` | backend/worker.cc:753-757 | a remote copy can leave files that no longer describe the table |
| `Durability.CrashInsideLogCommand` | backend/worker.cc:272-276 | a crash anywhere inside the log write recovers the table from just before, or with the whole record from just after |
| `Durability.CrashBeforeClearLog` | backend/worker.cc:284-287 | a crash between checkpoint and log clearing recovers the live table iff the CPUT condition holds; otherwise replay aborts |
| `Cluster.LeaderReachesAll` | backend/worker.cc:193-213 | every live holder but the leader is forwarded to |
| `Cluster.UpdateAgrees` | backend/worker.cc:251-434 | one update: the reply is the single map's, and all live copies move together |
| `Cluster.RestartReaches` | backend/worker.cc:733-764 | a restart restores every tablet the worker holds, from its leader or from its files |
| `Cluster.RestartCopies` | backend/worker.cc:733-764 | what a restarting worker takes over from a live leader is the leader's table |
| `Cluster.ReplicaAgreement` | backend/worker.cc:251-764 | for every run, tablet and prefix: in all its states every live holder has exactly the acknowledged updates in order, if and only if every total outage in it ended with a restart whose files give the last leader's table |
| `Cluster.ReturnStep` | backend/worker.cc:699-764 | after the restart that ends an outage the live holders have a table iff the files of that worker give it |
| `Cluster.LastTableIsSpec` | backend/worker.cc:251-583 | as long as the live holders agreed, the table of the last leader is that of the acknowledged updates, also during an outage |
| `Cluster.LastOutFirstIn` | backend/worker.cc:699-764 | the condition holds when whoever leaves last has good files and comes back first; in particular when some holder is always up |
| `Cluster.RepliesOfOneMap` | backend/coordinator.cc:64-80 | under that condition every update status and every read answer is that of one map to which the acknowledged updates were applied, or says that nobody is there |
| `ClusterDurability.RunOfCopy` | backend/worker.cc:251-583 | each tablet copy of a cluster run is a run of the one-copy machine |
| `ClusterDurability.LocalCopiesAreDurable` | backend/worker.cc:651-731 | a copy that was only ever recovered locally is recoverable from its files at every step of every cluster run |
| `ClusterDurability.LogsStayShort` | backend/worker.cc:59-59 | in every cluster run a copy's log has at most nine commands for each process its worker has had |
| `StoreWitnesses.TearLosesTheNext` | utils/logger.cc:35-64 | after every torn record some update that a handler can log next is not read back |
| `StoreWitnesses.CPutCaught` | backend/worker.cc:284-287 | whenever the tenth update is a CPUT that changes a cell no logged command names, a crash between checkpoint and log clearing makes recovery give up |
| `StoreWitnesses.CaughtInARun` | backend/worker.cc:284-287 | a run of nineteen updates from the empty slot after which a twentieth, a CPUT, does so |
| `StoreWitnesses.StaleHolderReturns` | backend/worker.cc:699-764 | on a ring of every size, a run in which an acknowledged update is lost because the holder that comes back first was down when it happened |
| `StoreWitnesses.OutageWasUnsafe` | backend/worker.cc:699-764 | that run is on the failing side of the condition for agreement |
| `StoreWitnesses.NamedButDown` | backend/worker.cc:733-764 | in that run, a second holder that restarts while the first is down but still listed ends with an empty tablet, though its own files hold the update |
| `Text.SplitString` | frontend/storage/storage_service.cc:298-307 | the splitting loop computes the split at every delimiter, empty pieces included |
| `Text.SplitOfJoin` | frontend/storage/storage_service.cc:298-307 | splitting undoes joining items that do not contain the delimiter |
| `FileTree.ColInjective` | frontend/storage/storage_service.cc:429-531 | columns of different paths or kinds have different names, for names without dash, comma and slash and no root entry called metadata |
| `KvRow.Fetch` | backend/kvs_client.h:45-60 | a missing column reads as a text starting with ERR |
| `KvRow.Row.Put` | backend/kvs_client.h:63-79 | one column changes, and of all paths only the named one is affected |
| `KvRow.Row.CPut` | backend/worker.cc:308-345 | one column changes iff it holds the expected value |
| `KvRow.Row.Delete` | backend/worker.cc:376-400 | one column goes, and of all paths only the named one is affected |
| `FileMoves.MoveChunks` | frontend/storage/storage_service.cc:588-599 | every chunk is at its new name with the same bytes and gone from the old one; on other lists only contents within the two paths change, or it throws at an item shorter than the path |
| `FileMoves.MoveFileColumns` | frontend/storage/storage_service.cc:582-619 | a stored file's columns move as a whole, chunked or single; a chunk list reading like an error leaves list and chunks behind and puts the error text in the content column; onto itself the file is gone |
| `TreeMoves.MoveFolderItself` | frontend/storage/storage_service.cc:464-470 | marker and rebuilt list are at the new path, the old marker is a tombstone, the old list is gone, and nothing else changes |
| `TreeMoves.RenameFolderMoveRec` | frontend/storage/storage_service.cc:429-531 | for every store whose lists stay within their paths, and every pair of paths that the self-move guard lets through, the recursion ends or throws and stays within the two paths; on a stored tree it never throws and every column after it is known when the paths lie apart, coincide, or the target is an ancestor onto whose way nothing lands that is still to be moved, also where lists read like an error; from a path that is no folder nothing is followed |
| `TreeMoves.KidExact` | frontend/storage/storage_service.cc:473-489 | when nothing lands on what is still to be moved, the same holds for each child |
| `TreeMoves.ChunkIsNoColumn` | frontend/storage/storage_service.cc:483-490 | a chunk name in a list is no column of its own, so the recursion passes it by |
| `TreeMoves.NextKidLanded` | frontend/storage/storage_service.cc:473-529 | moving one more child's subtree extends the columns known so far, whichever children came before |
| `FolderMove.MovedTreeWellFormed` | frontend/storage/storage_service.cc:659-708 | hanging a subtree below another folder keeps the tree well formed |
| `FolderMove.MoveTreeAt` | frontend/storage/storage_service.cc:659-708 | the moved tree has the old entries with the prefix replaced and every other entry as it was but for the two lists |
| `FolderMove.AppendToList` | frontend/storage/storage_service.cc:677-687 | the target's list column, and no other, gets the new path |
| `FolderMove.RemoveFromList` | frontend/storage/storage_service.cc:689-708 | the old path leaves its parent's list, and an emptied list loses its column |
| `FolderMove.RelocatedMoves` | frontend/storage/storage_service.cc:429-531 | where no list reads like an error, what the recursion does is the whole subtree under the new path, tombstones at the old folders, and nothing else |
| `FolderMove.RelocatedBreaks` | frontend/storage/storage_service.cc:429-531 | where some list does, an entry arrives that no stored tree can have |
| `FolderMove.StoresConfined` | frontend/storage/storage_service.cc:429-531 | every store of a tree is one that the recursion can work on |
| `FolderMove.MoveFolder` | frontend/storage/storage_service.cc:659-708 | to a free name, the columns then hold exactly the moved tree iff no list at or below the folder, nor the target's, starts with ERR; to any name, the recursion and the two list updates are known column by column under the condition of RenameFolderMoveRec; a source that is no folder changes only the two paths' own columns and the two lists |
| `StrayMoves.TakenName` | frontend/storage/storage_service.cc:2064-2066 | onto a taken name under a list that starts with ERR, the target's list is replaced by the new path, and no tree stored afterwards has another child there |
| `StrayMoves.OntoItself` | frontend/storage/storage_service.cc:464-471 | onto itself under such a list, the folder is gone as far as deleting it would go, and its parent's list with it |
| `StrayMoves.ClashName` | frontend/storage/storage_service.cc:464-470 | a folder called metadata moved to the root replaces the root's list by a text that no tree has |
| `HollowMoves.FileDestroyed` | frontend/storage/storage_service.cc:464-471 | a file moved as a folder leaves its content under a tombstone, and no tree is stored any more |
| `HollowMoves.HollowResult` | frontend/storage/storage_service.cc:659-708 | where nothing is at the source, the columns hold the tree with an empty folder of that name iff the target's list does not start with ERR and the removal from the source's parent finds a list; moved to where it would be, the tree is unchanged iff that list does not start with ERR; onto a taken name and onto the root's list it loses what StrayMoves says |
| `MoveHandler.SelfMoveGuard` | frontend/storage/storage_service.cc:2045-2052 | the string test refuses exactly moves of a folder into itself or below itself |
| `MoveHandler.CollisionGuard` | frontend/storage/storage_service.cc:2053-2084 | a list entry has the name iff a child has it |
| `MoveHandler.GuardName` | frontend/storage/storage_service.cc:2053-2084 | the name is refused iff the target has a child of that name and its list does not read like an error |
| `MoveHandler.WebMoveFolder` | frontend/storage/storage_service.cc:2043-2092 | refused iff the root, into itself or below, or onto a name of a child whose list does not start with ERR, and then nothing changes; otherwise the move of a folder to a free name is as stated for MoveFolder, every other one loses what StrayMoves says, a source that is no folder does what HollowMoves says, and the code throws only onto an ancestor of the same name with an entry as far below the source as the source is below it |
| `FolderDelete.DeleteFile` | frontend/storage/storage_service.cc:316-336 | a file's columns are gone and no others; the empty path does nothing |
| `FolderDelete.DeleteRec` | frontend/storage/storage_service.cc:313-351 | ends on every store, cyclic lists included; on a stored tree every column after it is known |
| `FolderDelete.DeletesExactly` | frontend/storage/storage_service.cc:313-351 | the whole subtree is gone but for folder tombstones, and nothing else changed, iff no list in it starts with ERR |
| `FolderDelete.PlainNamesHaveNoErrLists` | frontend/storage/storage_service.cc:319-321 | below a top-level name that does not start with ERR no list does |
| `SingleMove.FreeName` | frontend/storage/storage_service.cc:553-580 | the loop ends and returns the first name that neither a file nor a folder has |
| `SingleMove.TriedAreFew` | frontend/storage/storage_service.cc:563-576 | different suffixes are different names, so a finite store runs out of taken ones |
| `SingleMove.PushToList` | frontend/storage/storage_service.cc:621-633 | the target's list gets the new path behind whatever was read, error text included |
| `SingleMove.MovedFileWellFormed` | frontend/storage/storage_service.cc:537-655 | moving a file keeps the tree well formed, also within one folder |
| `SingleMove.MoveFileTreeAt` | frontend/storage/storage_service.cc:537-655 | the moved file is the same entry with the same bytes, and every other entry stays but for the two lists |
| `SingleMove.MoveFile` | frontend/storage/storage_service.cc:537-655 | the file gets the first free name, no entry is overwritten, and the columns hold the tree with the file moved iff the target has a list column and the file's own list does not read like an error; a file called metadata moved to the root destroys the root's list |
| `Upload.ConcatOfChunks` | frontend/storage/storage_service.cc:1138-1147 | the ceil(size/1000000) chunks in order are the data |
| `Upload.StoreChunks` | frontend/storage/storage_service.cc:1138-1162 | every chunk is stored and listed behind whatever list was found and kept, and no other column changes |
| `Upload.ListContains` | frontend/storage/storage_service.cc:1149-1155 | the list contains "not found" iff the path does |
| `Upload.Download` | frontend/storage/storage_service.cc:1235-1240 | the loop concatenates the contents of the listed chunks |
| `Upload.LeftoverReads` | frontend/storage/storage_service.cc:1149-1155 | a list left at the path adds nothing to a download iff all its pieces are there, empty and none of the new chunks |
| `Upload.UploadThenDownload` | frontend/storage/storage_service.cc:1138-1240 | a non-empty file comes back iff it fits in one chunk or its path does not contain "not found", and the list left at the path is dropped or adds nothing |
| `Upload.LastChunkOnly` | frontend/storage/storage_service.cc:1149-1155 | with such a path only the last chunk comes back |
| `UploadTree.WithFileWellFormed` | frontend/storage/storage_service.cc:1164-1184 | adding a file under a new name keeps the tree well formed |
| `UploadTree.AddToParent` | frontend/storage/storage_service.cc:1164-1184 | the folder's list gets the new path by a conditional write, which does nothing when the column is missing |
| `UploadNames.ChooseName` | frontend/storage/storage_service.cc:1117-1133 | the first of the names path, path with (1), (2), ... before its first dot that no file has; it throws iff the name is taken by a file and the path has no dot; on finitely many columns the loop ends |
| `UploadNames.TargetStr` | frontend/storage/storage_service.cc:1124-1124 | changing the path string before its first dot changes exactly the first name on the path that has a dot |
| `UploadTree.Misplaced` | frontend/storage/storage_service.cc:1117-1183 | a target outside the folder is listed in the folder, so that no tree is stored any more |
| `UploadTree.EmptyUpload` | frontend/storage/storage_service.cc:1135-1143 | without data the target is a file with neither chunks nor content, which no tree has |
| `UploadTree.WebUpload` | frontend/storage/storage_service.cc:1113-1184 | throws, with nothing changed, iff a file has the name and the path has no dot; otherwise the name is the first that no file has; a new name in the folder gives the tree with the file added iff the folder had a list column, the chunk list was not started over and the shown name is not in the root's list; on a folder's name its children are lost; without data, outside the folder and on the name metadata in the root every tree is; the download returns the data under the condition of UploadThenDownload |
| `Folders.RepairList` | frontend/storage/storage_service.cc:790-793 | listing a folder leaves it with a list column, and still stores the tree iff a list that was there did not start with ERR |
| `Folders.WithFolderWellFormed` | frontend/storage/storage_service.cc:1328-1366 | adding an empty folder under a new name keeps the tree well formed |
| `Folders.WebCreateFolder` | frontend/storage/storage_service.cc:1323-1366 | refused exactly when something is there, a tombstone aside, and then nothing changes; otherwise the columns hold the tree with the new folder iff the parent has a list column; a root folder called metadata is created iff the root's list is empty or starts with ERR, and destroys it |
| `StorageWitnesses.MakeErrata` | frontend/storage/storage_service.cc:1323-1366 | from an empty row, four requests give a folder ERRATA whose list starts with ERR |
| `StorageWitnesses.MoveErrata` | frontend/storage/storage_service.cc:2043-2092 | moving it passes every guard and does not give the moved tree |
| `StorageWitnesses.DeleteErrata` | frontend/storage/storage_service.cc:313-351 | deleting it leaves its child behind |
| `StorageWitnesses.MoveOntoTaken` | frontend/storage/storage_service.cc:2053-2092 | a move onto a name taken in ERRATA is accepted and replaces its list |
| `StorageWitnesses.EmptyThenCreate` | frontend/storage/storage_service.cc:689-708 | a move that empties a folder deletes its list column, and a folder created there next is not in the stored tree |
| `StorageWitnesses.UploadNotFound` | frontend/storage/storage_service.cc:1138-1162 | a file of 1000001 bytes called "not found.txt" does not come back |
| `StorageWitnesses.UploadOutside` | frontend/storage/storage_service.cc:1117-1133 | a file x uploaded twice into a folder a.b leaves no tree |
| `ChunkedCoding.SendChunkedBody` | frontend/storage/storage_service.cc:277-293 | the loop writes the chunked coding of the data |
| `ChunkedCoding.RecvLine` | frontend/storage/storage_service.cc:216-225 | reads up to and including the first CRLF, or to the end of the stream, and nothing beyond |
| `ChunkedCoding.RecvExactly` | frontend/storage/storage_service.cc:241-250 | reads exactly the chunk however the connection cuts it, and fails iff the stream is shorter |
| `ChunkedCoding.ReadChunkedBody` | frontend/storage/storage_service.cc:228-255 | returns the decoded body and leaves the bytes behind it, or throws, as the decoder function says |
| `ChunkedCoding.RoundTrip` | frontend/storage/storage_service.cc:216-293 | for all data and every positive 64-bit chunk size the reader returns the data and leaves what follows unread |
| `ChunkedCoding.Truncated` | frontend/storage/storage_service.cc:228-255 | a stream ending inside the body throws, unless only the final CRLF is missing; partial data is never taken for the whole |
| `SmtpSession.CommandIsSafe` | frontend/email/smtp_server.cc:559-659 | every command keeps: DATA mode has a sender and a usable recipient, local recipients end in @localhost; 550 is never the answer to the dot |
| `SmtpSession.RejectionKeepsState` | frontend/email/smtp_server.cc:559-659 | a rejected command leaves the session as it was, except for a MAIL with a malformed, different sender |
| `SmtpFraming.LinesAppend` | frontend/email/smtp_server.cc:285-300 | cutting lines out as bytes arrive gives the lines of the whole stream, also when a CRLF is split |
| `SmtpFraming.Connection.Obey` | frontend/email/smtp_server.cc:302-672 | one raw line changes the connection's variables as the command function says |
| `SmtpFraming.Connection.Receive` | frontend/email/smtp_server.cc:285-300 | one fragment: its complete lines are obeyed up to QUIT, the rest is kept |
| `SmtpFraming.HandleClient` | frontend/email/smtp_server.cc:266-680 | replies, messages and final session are a function of the bytes received, not of their fragmentation; for NUL-free fragments these are all the bytes; the whole connection is safe |
| `SmtpFraming.SessionIsSafe` | frontend/email/smtp_server.cc:322-331 | over all line sequences no 550 ends DATA and no message lacks a sender or a usable recipient |
| `SmtpFraming.MessageLines` | frontend/email/smtp_server.cc:514-548 | header lines go to the headers until the first without a colon; it and all later lines go to the body |
| `SmtpFraming.MessageIsWhole` | frontend/email/smtp_server.cc:322-548 | at the dot exactly one message goes out, to the recipients named before DATA, and headers followed by body are the accepted non-blank trimmed lines in order |
| `SmtpFraming.NextDataAfterMessage` | frontend/email/smtp_server.cc:505-512 | after a message a DATA command without new recipients is accepted iff the message had external ones and relaying is on |
| `SmtpFraming.BadSenderSticks` | frontend/email/smtp_server.cc:563-569 | MAIL FROM: with any address that is not in angle brackets is answered with 500 and sets the sender |
| `SmtpFraming.RefusedSenderIsUsed` | frontend/email/smtp_server.cc:563-650 | with a recipient named before, DATA is then accepted under that sender |
| `Mailbox.IdShape` | utils/utils.cc:73-91 | an id starts with a semicolon, so never with ERR, and has a comma iff a field has |
| `Mailbox.ParseMetadata` | utils/utils.cc:39-52 | the token loop computes the fold of key:value tokens |
| `Mailbox.IdRoundTrip` | utils/utils.cc:39-96 | decrypting and parsing an id returns its four fields iff none contains a semicolon |
| `Mailbox.EmailService.AppendToMetadata` | frontend/email/email_service.cc:144-162 | the id is appended to the index of that mailbox, which starts over when missing or empty |
| `Mailbox.EmailService.RemoveFromMetadata` | frontend/email/email_service.cc:165-191 | every occurrence of the id leaves the index of that mailbox |
| `Mailbox.EmailService.SendEmail` | frontend/email/email_service.cc:386-418 | recipient's inbox and sender's sent mailbox each get the message and its id, unless the write of the message fails there |
| `Mailbox.EmailService.AcceptMail` | frontend/email/smtp_server.cc:380-412 | the SMTP server's writes for one local recipient: the inbox, and the sender's sent mailbox when the sender is local |
| `Mailbox.EmailService.SendDeliveryFailure` | frontend/email/smtp_server.cc:101-126 | the notice that relaying failed and its id go to the sender's inbox |
| `Mailbox.EmailService.DeleteEmail` | frontend/email/email_service.cc:536-549 | message and id leave the mailbox; after a failed delete nothing changes |
| `Mailbox.DeliveredAgrees` | frontend/email/email_service.cc:144-162 | after a delivery index and columns agree iff no field has a comma |
| `Mailbox.ErasedAgrees` | frontend/email/email_service.cc:536-549 | after a deletion they agree, unless the index itself was deleted under some message |
| `Mailbox.RunAgrees` | frontend/email/email_service.cc:386-549 | over every run of sends, SMTP deliveries, failure notices and deletes, also failing ones, in every mailbox the ids in the index are exactly the other columns |
| `Mailbox.CommaInSubject` | frontend/email/email_service.cc:386-410 | one message with a comma in its subject breaks the index |
| `Mailbox.IndexDeleted` | frontend/email/email_service.cc:536-549 | one message and a request to delete the column meta break it |
| `MailDelivery.FindSubject` | frontend/email/smtp_server.cc:333-345 | the header loop finds the first Subject line |
| `MailDelivery.DeliverLocally` | frontend/email/smtp_server.cc:380-413 | the delivery loop makes one delivery for each local recipient, in order |
| `MailDelivery.RelayMail` | frontend/email/smtp_server.cc:415-461 | the relaying loop makes one notice for each external recipient with an @ that relaying failed for, in order |
| `MailDelivery.DeliverMail` | frontend/email/smtp_server.cc:380-461 | at the dot: all local deliveries, then the notices where relaying is on |
| `MailDelivery.DeliveredMailAgrees` | frontend/email/smtp_server.cc:380-461 | a message without commas in its fields leaves every index in agreement, also where relaying fails |
| `LoadBalancer.Balancer.SelectFrontend` | frontend/load_balancer.cc:81-97 | returns the first live frontend from the cursor on and moves the cursor behind it; empty, with the cursor unmoved, when none is alive |
| `LoadBalancer.SomeoneIsPicked` | frontend/load_balancer.cc:81-97 | the empty answer comes exactly when no frontend is alive |
| `LoadBalancer.PicksInOrder` | frontend/load_balancer.cc:81-97 | selections go through the live frontends in ring order from the cursor |
| `LoadBalancer.EachLiveOneOnce` | frontend/load_balancer.cc:81-97 | as many selections in a row as there are live frontends pick each of them exactly once and never a dead one, wherever the cursor stands |

## Left out

- Cluster.ReplicaAgreement: assumes atomic handlers, a lookup and its operation as one step, a liveness view that changes with the worker, and a recovering worker marked dead; the code has no lock on the tablets and its view lags by a monitor tick. What a lagging view costs is stated for `Worker.Worker.RecoverAllTablets`.
- Cluster.RepliesOfOneMap: assumes the same.
- Serializer.RoundTrip: assumes 32-bit counts and string lengths; `Wire.WriteString` models the truncation of longer ones, and nothing is claimed for them.
- Durability.CrashInsideLogCommand: a crash inside the checkpoint write itself (truncate, then write) is not a step of the model; the code makes no promise there.
- KvRow.Fetch: the worker answers; the error text of a worker that is down is not among the answers, and writes do not fail.
- MoveHandler.WebMoveFolder: source and target are paths with valid names, and the source is not the root entry metadata; onto an ancestor of the same name, with an entry as far below the source as the source is below it, only the target's list and the frame are stated, because what lands there depends on the order of the lists.
- Worker.Worker.RecoverTablet: a call through the null client of a worker that is sent to itself counts as the death of the process; in C++ it is undefined.
- SingleMove.FreeName: the suffix counter is unbounded, where the code has a 32-bit `int`; that much of a store is out of its reach.
- UploadTree.WebUpload: the number in a changed name is unbounded, where the code has a 32-bit `int`.
- ChunkedCoding.RoundTrip: covers the body; the status line and the header block before it are not part of the model.
- SmtpSession.CommandIsSafe: the sender is only proved non-empty, because a rejected MAIL can leave a malformed one behind.
- SmtpFraming.MessageIsWhole: the headers that the server fills in before relaying, Date and Message-ID, and relaying to other hosts are clock values and foreign calls.
- Mailbox.EmailService.SendEmail: the read and write of the index succeed where the write of the message did; timestamps are parameters.
- Mailbox.EmailService.DeleteEmail: the read and write of the index succeed where the delete did.
- LoadBalancer.EachLiveOneOnce: selections are serialized and the live set stays fixed while they run.
- Bytes are characters of Dafny strings; `std::hash` is a parameter with range 1..n; files are byte sequences; RPCs are steps that succeed or report a status.
- `renameFolderRec` and the rename handlers: they copy child lists unchanged, so the tree invariant does not survive them.
- The parent-list filter in `webStorageDelete` matches by substring; exact removal is claimed for the recursion and the moves only.
- Page rendering, HTML, JSON, form parsing, name checks by regular expression and request routing: string plumbing around single reads and writes.
- Accounts, sessions, passwords, the admin console's pages, heartbeats and threads.
- backend/key_val_store.cc, backend/kvs_server.h and the older web storage prototype: the same map without replication.
