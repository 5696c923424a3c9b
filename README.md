# CloudJavaFX chunked storage, modelled in Dafny

CloudJavaFX is a desktop application that simulates distributed object storage. It reads an
uploaded file in fixed-size chunks. A round-robin load balancer picks a file server for each
chunk, and the chunk is stored in that server's in-memory map under its file id and chunk
number. Each chunk also gets a row in the `file_chunks` table. A download lists a file's rows
ordered by chunk number, fetches each chunk from its server and concatenates them. A delete
removes the chunks, then the chunk rows, then the file row. An upload that fails after its file
row exists is rolled back by `cleanupFile`. Files can be shared with other users through the
`file_permissions` table.

This project models four pieces of that code:

- `FileManager` (module `FileManagement`, file `file_manager.dfy`): the upload, download, delete
  and share orchestration, with its private SQL helpers.
- `FileServerClient` (module `FileServers`, file `file_servers.dfy`): the static
  server → file → chunk map and the per-chunk store, retrieve, delete and clear operations.
- `LoadBalancerService` (module `LoadBalancing`, file `load_balancer.dfy`): the shared
  round-robin cursor, policy selection and the three policies.
- `FileChunk` (module `Chunks`, file `chunks.dfy`): the chunk value and its two constructors.

The database is modelled as state in the class `Metadata.MetadataStore` (file `metadata.dfy`).
It holds the three tables, the users set and the auto-increment counters. The SQL statements
become functions over those tables:

- `WHERE file_id = ?` is `WhereFile`;
- `DELETE ... WHERE file_id = ?` is `WithoutFile`;
- `ORDER BY chunk_number` is a stable insertion sort, `SortByNumber`.

`common.dfy` holds `Option`, bytes and `Flatten` (concatenation of payloads).

### How failures are modelled

Each exception or failure the Java code can meet is an explicit input to the operation that
meets it. A caller can then choose, for example, "the chunk-row insert of chunk 2 throws" or "the
chunk-list query throws after one row". The fault inputs are:

- `FileInsert`: the outcome of the `INSERT INTO files`. The row is inserted with a generated
  key; or no row is affected; or the row is inserted but no key comes back; or the statement
  throws.
- `UploadFaults`: the file insert outcome; the chunk numbers whose `storeChunk` is interrupted;
  the chunk whose row insert throws; and the faults met during cleanup.
- `RemovalFaults`: the number of rows the chunk-list query reads before it throws, if it
  throws. `getFileChunks` swallows the exception and returns the chunks read so far, so a failure
  of the query itself gives the empty list and a later failure a prefix of the rows. Then the
  chunk-row delete throws; the file-row delete throws.
- `ShareFaults`: each of the three queries and the permission insert can fail.

The input stream is a sequence of `Read` results: a buffer of bytes, the end of the stream, or
a read failure (an `IOException`).

### What is proved

- **Upload success.** A successful upload leaves chunk rows numbered `0..N-1`, ordered by
  number. Their servers are the round-robin rotation that starts at the cursor. Every chunk
  whose store was not interrupted is readable at its server with the payload read from the
  stream.
- **Upload then download.** When no store was interrupted, downloading those rows gives back
  the concatenation of the stream's data (`DistributedChunksReassemble`,
  `UploadedChunksReassemble`). `uploadFile` ignores the result of `storeChunk`, so an upload
  whose store was interrupted still returns its new id. The download of that file then
  fails, because one chunk is missing (`DownloadAfterUpload`, `UploadThenDownload`). The
  same method shows that an empty stream uploads successfully, but its file can never be
  downloaded, since a file without chunks gives null.
- **Round robin.** Over one full turn, round robin visits every server once and returns to its
  starting cursor (`RoundRobinVisitsEachOnce`).
- **Rollback.** After a failed upload, every chunk of the file is gone from each server named
  by a recorded row that the cleanup listed. That is all recorded rows, unless the chunk-list
  query throws part way, in which case only those read before it threw. Every other stored key
  keeps what the upload left there (`UploadFile`, `RolledBack`, `RollbackClearsListedServers`).
  An interrupted store is not a failure for `uploadFile`, so it never starts a rollback. A chunk
  whose row insert failed survives the rollback unless an earlier recorded row names the same
  server (`FailedChunkAfterRollback`); the first chunk always survives
  (`FailedFirstChunkOutlivesRollback`).
- **Truncated download.** When the chunk-list query throws after `k >= 1` of a complete
  upload's rows, the download assembles only the first `k` chunks and returns their payloads
  as if they were the whole file (`TruncatedListingDownloadsPrefix`, `DownloadFile`). When it
  throws before the first row, nothing is listed and the download returns null.
- **Delete.** A delete removes exactly the listed `(server, chunk)` keys and reports success
  exactly when neither metadata delete throws.
- **Table invariant.** Upload, delete, cleanup, share and the two metadata deletes keep the
  `MetadataStore.Valid` invariant: every file key, and every chunk row's file id, was handed
  out by the key counter.
- **Share.** A share succeeds exactly when the requester owns the file, the grantee exists,
  there is no prior permission (or the permission query failed) and the insert succeeds. It
  appends exactly one row when it succeeds. It keeps permissions unique unless the
  permission query failed.

## Model

| member | source | states |
|---|---|---|
| Chunks.NewChunk | src/main/java/com/student/cloudjavafx/FileChunk.java:22-28 | the data-carrying chunk has no chunk id yet (0) and carries the given file id, number, server, checksum and data |
| Chunks.ChunkFromRow | src/main/java/com/student/cloudjavafx/FileChunk.java:34-40 | a chunk built from a metadata row keeps every column and has no data |
| Chunks.FileChunk.SetData | src/main/java/com/student/cloudjavafx/FileChunk.java:68-70 | only the data changes; chunk id, file id, number, server and checksum stay |
| Chunks.SetDataCompletesRowChunk | src/main/java/com/student/cloudjavafx/FileChunk.java:22-40 | a metadata-only chunk with chunk id 0, once given data, equals the data-carrying chunk built from the same columns |
| FileServers.WithServer | src/main/java/com/student/cloudjavafx/loadbalancing/FileServerClient.java:24-28 | `putIfAbsent`: the server gets a map, an existing map is never replaced, and no lookup changes |
| FileServers.Put | src/main/java/com/student/cloudjavafx/loadbalancing/FileServerClient.java:41-44 | the stored key reads back the data; every other (server, file, chunk) lookup is unchanged |
| FileServers.RemoveChunk | src/main/java/com/student/cloudjavafx/loadbalancing/FileServerClient.java:101-116 | the key reads as absent afterwards; every other lookup is unchanged and the file's map stays |
| FileServers.RemoveFile | src/main/java/com/student/cloudjavafx/loadbalancing/FileServerClient.java:125-138 | every chunk of the file on that server reads as absent; lookups of other servers and files are unchanged |
| FileServers.SecondStoreOverwrites | src/main/java/com/student/cloudjavafx/loadbalancing/FileServerClient.java:41-44 | storing the same key twice is the same as storing it once with the second payload (last writer wins) |
| FileServers.StoreThenDeleteRestoresLookups | src/main/java/com/student/cloudjavafx/loadbalancing/FileServerClient.java:36-116 | deleting a chunk just stored under an empty key gives back every lookup from before the store |
| FileServers.ClearAfterDeletingLastChunk | src/main/java/com/student/cloudjavafx/loadbalancing/FileServerClient.java:101-138 | after a file's chunk is deleted, its (now empty) map remains, so clearing the file still reports success |
| FileServers.ServerStorage.constructor | src/main/java/com/student/cloudjavafx/loadbalancing/FileServerClient.java:22 | the static server map starts empty |
| FileServers.FileServerClient.constructor | src/main/java/com/student/cloudjavafx/loadbalancing/FileServerClient.java:24-28 | the client is bound to its server, whose map now exists; no stored chunk changes |
| FileServers.FileServerClient.StoreChunk | src/main/java/com/student/cloudjavafx/loadbalancing/FileServerClient.java:36-61 | an interrupted store changes nothing and returns false; otherwise the chunk's payload is put under its file and number on this server and true is returned |
| FileServers.FileServerClient.RetrieveChunk | src/main/java/com/student/cloudjavafx/loadbalancing/FileServerClient.java:71-92 | returns exactly the stored payload, or none when the file or chunk is missing; storage is unchanged |
| FileServers.FileServerClient.DeleteChunk | src/main/java/com/student/cloudjavafx/loadbalancing/FileServerClient.java:101-116 | true exactly when the chunk was stored, and then only that key is removed |
| FileServers.FileServerClient.DeleteAllFileChunks | src/main/java/com/student/cloudjavafx/loadbalancing/FileServerClient.java:125-138 | true exactly when the server had a map for the file, and then that map is removed and nothing else |
| LoadBalancing.CursorAfter | src/main/java/com/student/cloudjavafx/loadbalancing/LoadBalancerService.java:91-97 | the cursor after n selections stays inside a non-empty list |
| LoadBalancing.RoundRobinRun | src/main/java/com/student/cloudjavafx/loadbalancing/LoadBalancerService.java:91-97 | n selections give n servers, all from the active list |
| LoadBalancing.CursorAfterBeforeWrap | src/main/java/com/student/cloudjavafx/loadbalancing/LoadBalancerService.java:92-93 | before the end of the list is reached, the cursor has moved forward by exactly n |
| LoadBalancing.CursorAfterWrapped | src/main/java/com/student/cloudjavafx/loadbalancing/LoadBalancerService.java:92-93 | within one lap after reaching the end of the list, the cursor has wrapped to cursor + n minus the list length |
| LoadBalancing.CursorAfterIsModulo | src/main/java/com/student/cloudjavafx/loadbalancing/LoadBalancerService.java:92-93 | for any number n of selections, the cursor is (cursor + n) mod the list length |
| LoadBalancing.RoundRobinRunAt | src/main/java/com/student/cloudjavafx/loadbalancing/LoadBalancerService.java:92-93 | the j-th selection is the server under the cursor after j selections, that is the server at position (cursor + j) mod the list length |
| LoadBalancing.RoundRobinRunPrefix | src/main/java/com/student/cloudjavafx/loadbalancing/LoadBalancerService.java:91-97 | the first k selections of a longer run from the same cursor are the run of k selections |
| LoadBalancing.RoundRobinVisitsEachOnce | src/main/java/com/student/cloudjavafx/loadbalancing/LoadBalancerService.java:91-97 | one full turn is the list rotated to start at the cursor, has the list's multiset of servers, and returns the cursor to its start |
| LoadBalancing.RoundRobinStep | src/main/java/com/student/cloudjavafx/loadbalancing/LoadBalancerService.java:91-97 | one selection returns an active server and a cursor inside the list, and extends the run by that server |
| LoadBalancing.LeastConnectionsPick | src/main/java/com/student/cloudjavafx/loadbalancing/LoadBalancerService.java:120-136 | when no connections are tracked, the pick is the first active server |
| LoadBalancing.PolicyFor | src/main/java/com/student/cloudjavafx/loadbalancing/LoadBalancerService.java:48-58 | the three known names pick their policy and any other name falls back to round robin |
| LoadBalancing.LoadBalancerService.constructor | src/main/java/com/student/cloudjavafx/loadbalancing/LoadBalancerService.java:28 | the cursor starts at 0 |
| LoadBalancing.LoadBalancerService.SelectRoundRobinServer | src/main/java/com/student/cloudjavafx/loadbalancing/LoadBalancerService.java:91-97 | returns the server at the cursor and advances the cursor by one modulo the list length |
| LoadBalancing.LoadBalancerService.SelectRandomServer | src/main/java/com/student/cloudjavafx/loadbalancing/LoadBalancerService.java:105-111 | returns a server from the active list and leaves the cursor alone |
| LoadBalancing.LoadBalancerService.SelectServerUsing | src/main/java/com/student/cloudjavafx/loadbalancing/LoadBalancerService.java:36-59 | -1 for an empty list; otherwise the chosen policy's server, and only round robin moves the cursor |
| LoadBalancing.LoadBalancerService.SelectServer | src/main/java/com/student/cloudjavafx/loadbalancing/LoadBalancerService.java:36-59 | -1 and no cursor change for an empty list; otherwise the round-robin step |
| Metadata.WhereFile | src/main/java/com/student/cloudjavafx/FileManager.java:228 | the rows of the file, in table order; no longer than the table, and a row is kept exactly when it is in the table with that file id |
| Metadata.WithoutFile | src/main/java/com/student/cloudjavafx/FileManager.java:268 | the rows of every other file, in table order; a row is kept exactly when it is in the table with another file id |
| Metadata.WhereFileAppend | src/main/java/com/student/cloudjavafx/FileManager.java:228 | selecting from two concatenated tables is the concatenation of the two selections |
| Metadata.WithoutFileAppend | src/main/java/com/student/cloudjavafx/FileManager.java:268 | deleting from two concatenated tables is the concatenation of the two deletions |
| Metadata.WithoutAbsentFile | src/main/java/com/student/cloudjavafx/FileManager.java:268 | deleting the rows of a file that has none leaves the table as it was |
| Metadata.WhereAbsentFile | src/main/java/com/student/cloudjavafx/FileManager.java:228 | selecting a file that has no rows gives nothing |
| Metadata.WithoutOnlyFile | src/main/java/com/student/cloudjavafx/FileManager.java:268 | deleting a file's rows from rows all of that file gives nothing |
| Metadata.WhereOnlyFile | src/main/java/com/student/cloudjavafx/FileManager.java:228 | selecting a file from rows all of that file gives them all back |
| Metadata.InsertByNumber | src/main/java/com/student/cloudjavafx/FileManager.java:228 | inserting a row into rows sorted by chunk number keeps them sorted and adds exactly that row |
| Metadata.SortByNumber | src/main/java/com/student/cloudjavafx/FileManager.java:228 | `ORDER BY chunk_number`: sorted by chunk number and a permutation of its input |
| Metadata.SortSortedIsIdentity | src/main/java/com/student/cloudjavafx/FileManager.java:228 | rows already in chunk-number order come back unchanged |
| Metadata.MetadataStore.constructor | src/main/java/com/student/cloudjavafx/FileManager.java:80-82 | models the empty database, which no Java line creates: no files, chunk rows or permissions, the given users, and the generated keys read here starting at 1, so the table invariant holds |
| Metadata.MetadataStore.ChunksOf | src/main/java/com/student/cloudjavafx/FileManager.java:226-242 | the file's rows, ordered by chunk number, and a permutation of the rows selected for the file |
| FileManagement.LeadingData | src/main/java/com/student/cloudjavafx/FileManager.java:89-92 | the number of buffers read before the first end of stream or failure; each of them is data |
| FileManagement.Dispatched | src/main/java/com/student/cloudjavafx/FileManager.java:89-114 | the chunks sent to a server are at most the buffers read |
| FileManagement.Recorded | src/main/java/com/student/cloudjavafx/FileManager.java:89-114 | the chunks given a row are at most those sent |
| FileManagement.UploadRows | src/main/java/com/student/cloudjavafx/FileManager.java:101-106 | one row per chunk sent, with the file id, chunk number equal to its position, and its server |
| FileManagement.UploadStep | src/main/java/com/student/cloudjavafx/FileManager.java:93-113 | one loop iteration picks the next round-robin server and appends exactly one row for it |
| FileManagement.ServersOf | src/main/java/com/student/cloudjavafx/FileManager.java:296-299 | a server is listed exactly when some chunk is on it |
| FileManagement.KeysOf | src/main/java/com/student/cloudjavafx/FileManager.java:197-200 | a (server, chunk number) pair is listed exactly when some chunk has it |
| FileManagement.DistributedStep | src/main/java/com/student/cloudjavafx/FileManager.java:94-102 | storing the next chunk on its server extends the distribution by one chunk |
| FileManagement.DistributedNothing | src/main/java/com/student/cloudjavafx/FileManager.java:89-92 | before the loop, no chunk is distributed |
| FileManagement.Assemble | src/main/java/com/student/cloudjavafx/FileManager.java:160-177 | a result exists exactly when every listed chunk can be retrieved from its server |
| FileManagement.AssembleStep | src/main/java/com/student/cloudjavafx/FileManager.java:161-165 | appending a retrieved chunk to the partial file is assembling one more chunk |
| FileManagement.AssembleMissing | src/main/java/com/student/cloudjavafx/FileManager.java:166-171 | a chunk that cannot be retrieved makes the whole download fail |
| FileManagement.AssembleConcatenates | src/main/java/com/student/cloudjavafx/FileManager.java:160-177 | when each chunk's server holds the chunk's payload, the download is the concatenation of the payloads |
| FileManagement.UploadRowsAreOrdered | src/main/java/com/student/cloudjavafx/FileManager.java:228 | an upload's rows are already in chunk-number order, so `ORDER BY` returns them unchanged |
| FileManagement.UploadedChunksReassemble | src/main/java/com/student/cloudjavafx/FileManager.java:152-177 | when storage holds the uploaded payload under each row's server and number, downloading the rows gives the concatenated payloads |
| FileManagement.EmptyUploadHasNoChunks | src/main/java/com/student/cloudjavafx/FileManager.java:89-114 | after an upload whose stream gives no data before it ends, the chunk table is as before and listing the file gives no rows |
| FileManagement.UploadRowsAreTheFiles | src/main/java/com/student/cloudjavafx/FileManager.java:226-242 | when the file had no rows before, listing the file after its upload gives exactly the upload's rows |
| FileManagement.DeletingUploadRows | src/main/java/com/student/cloudjavafx/FileManager.java:267-274 | deleting a fresh file's rows after its upload gives back the table from before the upload |
| FileManagement.UploadRowsServers | src/main/java/com/student/cloudjavafx/FileManager.java:292-299 | the servers cleanup visits are exactly the servers the listed prefix of the recorded chunks went to |
| FileManagement.RollbackClearsListedServers | src/main/java/com/student/cloudjavafx/FileManager.java:125-131 | clearing the servers of the listed recorded rows leaves every server of the file exactly as `RolledBack` says: cleared where listed, the upload's stores elsewhere |
| FileManagement.FailedFirstChunkOutlivesRollback | src/main/java/com/student/cloudjavafx/FileManager.java:99-131 | when the first chunk is stored but its row insert throws, the rollback leaves that chunk on its server |
| FileManagement.FailedChunkAfterRollback | src/main/java/com/student/cloudjavafx/FileManager.java:99-131 | when chunk k is stored but its row insert throws, the rollback wipes it exactly when one of the first k chunks went to the same server, and otherwise leaves it there |
| FileManagement.TruncatedListingDownloadsPrefix | src/main/java/com/student/cloudjavafx/FileManager.java:146-178 | after an uninterrupted upload, a download whose chunk listing throws after k rows assembles exactly the first k payloads |
| FileManagement.DistributedChunksReassemble | src/main/java/com/student/cloudjavafx/FileManager.java:146-178 | after an uninterrupted upload of all buffers, downloading its rows gives the concatenation of the stream's data |
| FileManagement.DownloadAfterUpload | src/main/java/com/student/cloudjavafx/FileManager.java:152-177 | after an upload of a fresh file, downloading its rows succeeds exactly when none of its stores was interrupted, and then gives the concatenated payloads |
| FileManagement.UploadedChunksAreRecorded | src/main/java/com/student/cloudjavafx/FileManager.java:99-106 | for a fresh file, every chunk readable after a successful upload is named by one of its rows |
| FileManagement.FileClearedStep | src/main/java/com/student/cloudjavafx/FileManager.java:296-299 | clearing the file on one more server extends the cleanup by that server |
| FileManagement.ChunkDeletedStep | src/main/java/com/student/cloudjavafx/FileManager.java:197-200 | deleting one more listed chunk extends the delete by that key |
| FileManagement.RemovingReservedRow | src/main/java/com/student/cloudjavafx/FileManager.java:279-286 | removing the file row the upload reserved gives back the files table from before the upload |
| FileManagement.FileManager.constructor | src/main/java/com/student/cloudjavafx/FileManager.java:36-38 | the manager uses the given tables, storage and load balancer |
| FileManagement.FileManager.StoreChunkMetadata | src/main/java/com/student/cloudjavafx/FileManager.java:252-262 | on success appends exactly one row under the next chunk id; on failure changes nothing |
| FileManagement.FileManager.DeleteChunkMetadata | src/main/java/com/student/cloudjavafx/FileManager.java:267-274 | on success removes exactly the file's chunk rows; on failure changes nothing; keeps the table invariant |
| FileManagement.FileManager.DeleteFileMetadata | src/main/java/com/student/cloudjavafx/FileManager.java:279-286 | on success removes exactly the file row; on failure changes nothing; keeps the table invariant |
| FileManagement.FileManager.GetFileChunks | src/main/java/com/student/cloudjavafx/FileManager.java:226-247 | the file's rows in chunk-number order as data-less chunks, one per row of the file; when the query throws after k rows, exactly the first k of them |
| FileManagement.FileManager.IsFileOwner | src/main/java/com/student/cloudjavafx/FileManager.java:374-392 | true exactly when the query succeeds, the file exists and the user owns it |
| FileManagement.FileManager.UserExists | src/main/java/com/student/cloudjavafx/FileManager.java:394-408 | true exactly when the query succeeds and the user exists |
| FileManagement.FileManager.PermissionExists | src/main/java/com/student/cloudjavafx/FileManager.java:410-425 | true exactly when the query succeeds and a permission row for the file and user exists |
| FileManagement.FileManager.UploadChunk | src/main/java/com/student/cloudjavafx/FileManager.java:93-113 | with no server, -1 and nothing changes; otherwise the round-robin step, the store's effect and one row exactly when its insert succeeds |
| FileManagement.FileManager.UploadNextChunk | src/main/java/com/student/cloudjavafx/FileManager.java:93-113 | one loop pass extends the upload's progress: with a server, the cursor moves once and the chunk is distributed on it; the rows grow by this chunk's row exactly when its insert succeeds; without a server nothing changes |
| FileManagement.FileManager.DistributeChunks | src/main/java/com/student/cloudjavafx/FileManager.java:89-114 | succeeds exactly when every buffer until the end of stream is sent and recorded; the rows are the upload rows of the recorded chunks, the cursor moves once per chunk sent, and storage holds each sent payload unless its store was interrupted |
| FileManagement.FileManager.InsertFileMetadata | src/main/java/com/student/cloudjavafx/FileManager.java:55-86 | returns the next key only for a normal insert; the row is written (and the counter moves) also when no key comes back, and not when no row is affected or the insert throws |
| FileManagement.FileManager.UploadFile | src/main/java/com/student/cloudjavafx/FileManager.java:53-136 | returns the new id exactly when the insert returns a key and every chunk succeeds, else -1; on success the chunk table is the old table followed by the upload rows, the file's ordered rows are those rows and storage holds the data; the chunk-id counter moves once per row written; on failure the rows, files and storage are as the rollback leaves them; other files are untouched |
| FileManagement.FileManager.DistributeOrRollBack | src/main/java/com/student/cloudjavafx/FileManager.java:88-134 | distribution, then a cleanup exactly when it fails: chunks rows removed unless the cleanup's faults stop it, and storage cleared on every server the listed recorded rows name |
| FileManagement.FileManager.CleanupFile | src/main/java/com/student/cloudjavafx/FileManager.java:292-305 | clears the file on each server of its listed chunks, then deletes its rows, and deletes the file row only if the row delete succeeded; exceptions are swallowed; keeps the table invariant |
| FileManagement.FileManager.UploadThenDownload | src/main/java/com/student/cloudjavafx/FileManager.java:53-178 | upload of a fresh file, then its download: the upload returns its id exactly as `UploadFile` says; the download then succeeds exactly when the stream had data and no store was interrupted, and returns the stream's data |
| FileManagement.FileManager.DownloadFile | src/main/java/com/student/cloudjavafx/FileManager.java:146-178 | none when no chunk is listed; otherwise the assembly of the listed chunks (a prefix when the listing throws part way) from storage, which fails exactly when a chunk is missing; stored chunks are unchanged |
| FileManagement.FileManager.RetrieveListedChunks | src/main/java/com/student/cloudjavafx/FileManager.java:160-177 | fetches the listed chunks in order and gives their concatenation, or none as soon as one is missing; stored chunks are unchanged |
| FileManagement.FileManager.DeleteListedChunks | src/main/java/com/student/cloudjavafx/FileManager.java:197-200 | deletes exactly the listed (server, chunk) keys of the file and leaves every other lookup as it was |
| FileManagement.FileManager.DeleteFile | src/main/java/com/student/cloudjavafx/FileManager.java:186-218 | removes exactly the listed chunks from their servers; true exactly when neither metadata delete throws, and the file row goes only after the chunk rows; keeps the table invariant |
| FileManagement.FileManager.ShareFile | src/main/java/com/student/cloudjavafx/FileManager.java:315-368 | true exactly when the requester owns the file, the grantee exists, no permission exists (or that query fails) and the insert succeeds; exactly one row is appended when true and none otherwise; permissions stay unique unless the permission query failed; keeps the table invariant |

## Left out

- The JavaFX user interface, `LogManager` and the console messages are not modelled; they do not affect results.
- `SessionManager` is not part of this model. The current user of `shareFile` is a parameter.
- JDBC connections are not modelled. The tables are the fields of `Metadata.MetadataStore`, and each statement's failure is a fault input.
- `getActiveServerIds` (LoadBalancerService.java:69-83) reads a server table. It is replaced by the `active` list passed to each operation. One upload uses the same list for every chunk, while the Java code re-queries it for each chunk.
- The random UUID of the storage path is a parameter of `UploadFile`.
- Concurrency is not modelled: the static chunk map and the shared cursor are updated one call at a time.
- `CHUNK_SIZE` (FileManager.java:34) and the buffer reuse are not modelled. The stream is given as its sequence of read results, so any buffer sizes are covered; the 1 MiB bound on each buffer is not stated.
- Java `int` and `long` overflow of ids, chunk numbers, sizes and the cursor is not modelled: Dafny integers are unbounded.
- FileServers.FileServerClient.RetrieveChunk: the simulated `Thread.sleep` and its `InterruptedException` path, which returns null, are not modelled; a retrieval of a stored chunk always succeeds.
- FileServers.FileServerClient.StoreChunk: the `InterruptedException` of the simulated delay and an `IOException` from reading the chunk's stream are both the single `interrupted` flag. The catch block sets the thread's interrupt flag again (FileServerClient.java:52). So in the Java code, every later `Thread.sleep` on that thread throws too: the later stores of the same upload fail, and so do later retrievals (FileServerClient.java:84). The model's set of interrupted stores is arbitrary, so it allows more cases than the code can produce. It does not model the flag carrying over. The `IOException` path, unlike the interrupted one, runs after `putIfAbsent` (FileServerClient.java:42-44) and so leaves an empty map for the file on the server, which the model does not create. That path cannot be reached here, since a chunk's data is always a `ByteArrayInputStream`, and the empty map would show only in the result of `deleteAllFileChunks`, which every caller ignores.
- LoadBalancing.LoadBalancerService.SelectRandomServer: the random index is not modelled. The contract states only that the pick is an active server.
- LoadBalancing.LeastConnectionsPick: the connection counts are never filled in the Java code, so only the empty-count behaviour (the first active server) is modelled.
- LoadBalancing.LoadBalancerService.SelectRoundRobinServer: requires the cursor to lie inside the list. The Java code would throw `IndexOutOfBoundsException` when the list shrinks below the cursor; that case is excluded, not modelled.
- FileManagement.FileManager.UploadFile: requires that no active server id is -1, since -1 is the load balancer's "no server" answer.
- `selectServer` always uses round robin (its algorithm string is fixed). The random and least-connections policies are modelled as reachable only through `SelectServerUsing`.
- Chunks.FileChunk.SetData: `FileChunk` is a value in this model, so `setData` returns an updated chunk instead of mutating one. The `InputStream` data is its byte content.
- The getters and `toString` of `FileChunk` are the datatype's field selectors and are not modelled separately.
- The order that `ORDER BY chunk_number` gives to rows with equal chunk numbers is unspecified in SQL. The model uses a stable sort.
- The `destinationPath` parameter of `downloadFile` is unused by the Java code and is omitted.
- Checksums are not computed or verified. The code writes the literal `"checksum_placeholder"` and never checks it on download, so there is no integrity error to model. Code that checked checksums would reject tampered chunks; this code does not.
- An all-or-nothing upload, where any chunk failure rolls the whole upload back, does not hold for this code. An interrupted store returns false, `uploadFile` ignores that result (FileManager.java:102), and the upload succeeds with a chunk missing. `UploadThenDownload` states the consequence.
- When the file insert returns no key, the Java code returns -1 but the file row stays in the table with no chunks. The model keeps that row, as `UploadFile`'s contract states.
- Rollback lists chunks from their rows, so a chunk stored on a server whose row insert then threw is left behind, unless an earlier recorded chunk went to the same server and that server is cleared anyway. `FileManagement.FailedChunkAfterRollback` states both cases, and `FileManagement.FailedFirstChunkOutlivesRollback` the first chunk, which is always left behind. A rollback therefore does not always restore storage to its state before the upload.
- A chunk-list query that throws part way makes `downloadFile` return the first chunks only, with no error (`FileManagement.TruncatedListingDownloadsPrefix`). A delete or cleanup after such a failure removes only the listed chunks from the servers, but still deletes all of the file's chunk rows.
- FileManagement.FileManager.ShareFile: the insert affecting zero rows and the insert throwing are both the single `insertFails` fault, since both return false with no row added.
