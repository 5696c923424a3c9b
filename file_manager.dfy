/**
 * The orchestrator: upload splits a stream into chunks spread by the load balancer over the
 * file servers and records them in the metadata tables; download reassembles them; delete and
 * the upload rollback remove them; share grants a permission after three checks.
 */
module FileManagement {
  import opened Common
  import opened Chunks
  import opened FileServers
  import opened LoadBalancing
  import opened Metadata

  /** The checksum written for every chunk; it is never computed or checked. */
  const ChecksumPlaceholder: string := "checksum_placeholder"

  /** What one `read(buffer)` on the upload stream gave: bytes, -1 (end), or an IOException. */
  datatype Read = Data(bytes: Bytes) | EndOfStream | ReadFailure

  /** How the `INSERT INTO files` of an upload went. `NoKeyReturned` inserted a row but produced no key. */
  datatype FileInsert = Inserted | NoRowsAffected | NoKeyReturned | InsertThrows

  /**
   * Which SQL statements of a delete or a cleanup throw an SQLException. `listFailsAfter` is the
   * number of chunk rows `getFileChunks` reads before its query throws (0: the query itself).
   */
  datatype RemovalFaults = RemovalFaults(listFailsAfter: Option<nat>, chunkRowsDeleteFails: bool, fileRowDeleteFails: bool)

  /**
   * The environment of one upload: the file insert's outcome, the chunk numbers whose store
   * is interrupted, the first chunk number whose metadata insert throws, and the faults of the
   * rollback.
   */
  datatype UploadFaults = UploadFaults(
    fileInsert: FileInsert,
    storeInterrupted: set<int>,
    chunkInsertFailsAt: Option<nat>,
    cleanup: RemovalFaults)

  /** Which SQL statements of a share throw an SQLException. */
  datatype ShareFaults = ShareFaults(ownerQueryFails: bool, userQueryFails: bool, permissionQueryFails: bool, insertFails: bool)

  /** The number of reads that return bytes before the stream ends or fails. */
  function LeadingData(input: seq<Read>): (k: nat)
    ensures k <= |input|
    ensures forall j :: 0 <= j < k ==> input[j].Data?
    ensures k < |input| ==> !input[k].Data?
  {
    if |input| == 0 || !input[0].Data? then 0 else 1 + LeadingData(input[1..])
  }

  /** The payloads of those reads, in order. */
  function LeadingPayloads(input: seq<Read>): (ps: seq<Bytes>)
  {
    var k := LeadingData(input);
    seq(k, j requires 0 <= j < k => input[j].bytes)
  }

  /** The servers the load balancer hands out for `n` chunks. */
  function Servers(active: seq<int>, cursor: nat, n: nat): (r: seq<int>)
    requires |active| > 0 ==> cursor < |active|
  {
    if |active| == 0 then [] else RoundRobinRun(active, cursor, n)
  }

  /** How many chunks get a server, and so are stored (the failing one included). */
  function Dispatched(input: seq<Read>, active: seq<int>, failsAt: Option<nat>): (n: nat)
    ensures n <= LeadingData(input)
  {
    var k := LeadingData(input);
    if |active| == 0 then 0
    else if failsAt.Some? && failsAt.value < k then failsAt.value + 1
    else k
  }

  /** How many chunks get a metadata row. */
  function Recorded(input: seq<Read>, active: seq<int>, failsAt: Option<nat>): (n: nat)
    ensures n <= Dispatched(input, active, failsAt)
  {
    var k := LeadingData(input);
    if |active| == 0 then 0
    else if failsAt.Some? && failsAt.value < k then failsAt.value
    else k
  }

  /** A row insert that throws at chunk `n` stops the upload with `n + 1` chunks sent and `n` recorded. */
  lemma RowFailureCounts(input: seq<Read>, active: seq<int>, failsAt: Option<nat>, n: nat)
    requires 0 < |active| && n < LeadingData(input)
    requires failsAt == Some(n)
    ensures Dispatched(input, active, failsAt) == n + 1
    ensures Recorded(input, active, failsAt) == n
  {
  }

  /** Every chunk finds a server and a metadata row, and the stream ends without an IOException. */
  predicate ChunksSucceed(input: seq<Read>, active: seq<int>, failsAt: Option<nat>)
  {
    var k := LeadingData(input);
    && (k == 0 || |active| > 0)
    && (failsAt.None? || failsAt.value >= k)
    && (k == |input| || input[k].EndOfStream?)
  }

  /** The chunk rows an upload writes for its chunks, in order. */
  function UploadRows(fileId: int, firstChunkId: int, servers: seq<int>): (rows: seq<ChunkRow>)
    ensures |rows| == |servers|
    ensures forall j :: 0 <= j < |rows| ==> rows[j].fileId == fileId && rows[j].chunkNumber == j && rows[j].serverId == servers[j]
  {
    seq(|servers|, j requires 0 <= j < |servers| => ChunkRow(firstChunkId + j, fileId, j, servers[j], ChecksumPlaceholder))
  }

  /** One more chunk: one more server from the balancer and one more row after `rows0`. */
  lemma UploadStep(rows0: seq<ChunkRow>, fileId: int, firstChunkId: int, active: seq<int>, cursor: nat, n: nat, server: int)
    requires 0 < |active| && cursor < |active|
    requires server == active[CursorAfter(active, cursor, n)]
    ensures RoundRobinStep(active, CursorAfter(active, cursor, n)) == (server, CursorAfter(active, cursor, n + 1))
    ensures Servers(active, cursor, n + 1) == Servers(active, cursor, n) + [server]
    ensures rows0 + UploadRows(fileId, firstChunkId, Servers(active, cursor, n + 1))
         == rows0 + UploadRows(fileId, firstChunkId, Servers(active, cursor, n))
            + [ChunkRow(firstChunkId + n, fileId, n, server, ChecksumPlaceholder)]
  {
    var before := UploadRows(fileId, firstChunkId, Servers(active, cursor, n));
    var after := UploadRows(fileId, firstChunkId, Servers(active, cursor, n + 1));
    assert after == before + [ChunkRow(firstChunkId + n, fileId, n, server, ChecksumPlaceholder)];
  }

  /** The chunk records `getFileChunks` builds from result rows (metadata constructor). */
  function RowChunks(rows: seq<ChunkRow>): seq<FileChunk>
  {
    seq(|rows|, i requires 0 <= i < |rows| =>
      ChunkFromRow(rows[i].chunkId, rows[i].fileId, rows[i].chunkNumber, rows[i].serverId, rows[i].checksum))
  }

  /** How many of `n` rows `getFileChunks` returns when its query throws after `failsAfter` rows. */
  function ListedCount(n: nat, failsAfter: Option<nat>): (k: nat)
    ensures k <= n
  {
    if failsAfter.Some? && failsAfter.value < n then failsAfter.value else n
  }

  /** What `getFileChunks` returns for the ordered rows: those read before the query threw. */
  function Listed(rows: seq<ChunkRow>, failsAfter: Option<nat>): seq<FileChunk>
  {
    RowChunks(rows)[..ListedCount(|rows|, failsAfter)]
  }

  /** A listing that does not throw returns every row. */
  lemma ListedWhole(rows: seq<ChunkRow>)
    ensures Listed(rows, None) == RowChunks(rows)
  {
  }

  /** The servers a list of chunks names. */
  function ServersOf(chunks: seq<FileChunk>): (r: set<int>)
    ensures forall s :: s in r <==> exists j :: 0 <= j < |chunks| && chunks[j].serverId == s
  {
    if |chunks| == 0 then {}
    else ServersOf(chunks[..|chunks| - 1]) + {chunks[|chunks| - 1].serverId}
  }

  /** The (server, chunk number) pairs a list of chunks names. */
  function KeysOf(chunks: seq<FileChunk>): (r: set<(int, int)>)
    ensures forall s, n :: (s, n) in r <==> exists j :: 0 <= j < |chunks| && chunks[j].serverId == s && chunks[j].chunkNumber == n
  {
    if |chunks| == 0 then {}
    else KeysOf(chunks[..|chunks| - 1]) + {(chunks[|chunks| - 1].serverId, chunks[|chunks| - 1].chunkNumber)}
  }

  /** Listing one more chunk adds its server. */
  lemma ServersOfPrefix(chunks: seq<FileChunk>, i: nat)
    requires i < |chunks|
    ensures ServersOf(chunks[..i + 1]) == ServersOf(chunks[..i]) + {chunks[i].serverId}
  {
    assert chunks[..i + 1][..i] == chunks[..i];
  }

  /** Listing one more chunk adds its (server, chunk number) pair. */
  lemma KeysOfPrefix(chunks: seq<FileChunk>, i: nat)
    requires i < |chunks|
    ensures KeysOf(chunks[..i + 1]) == KeysOf(chunks[..i]) + {(chunks[i].serverId, chunks[i].chunkNumber)}
  {
    assert chunks[..i + 1][..i] == chunks[..i];
  }

  /** The storage after one chunk store: the server gets a map, then the chunk unless interrupted. */
  function StoreResult(m: Storage, server: int, fileId: int, chunkNumber: int, payload: Bytes, interrupted: bool): Storage
  {
    if interrupted then WithServer(m, server) else Put(WithServer(m, server), server, fileId, chunkNumber, payload)
  }

  /**
   * What server `s` holds for chunk `n` of `fileId` once chunks 0 .. |servers|-1 were stored
   * on `m0`, chunk j on `servers[j]` with payload `payloads[j]`, except the interrupted ones.
   */
  function Placed(m0: Storage, fileId: int, servers: seq<int>, payloads: seq<Bytes>, interrupted: set<int>,
                  s: int, n: int): Option<Bytes>
  {
    if 0 <= n < |servers| && n < |payloads| && n !in interrupted && s == servers[n] then Some(payloads[n])
    else Lookup(m0, s, fileId, n)
  }

  /** `m` is `m0` after that distribution: other files untouched, this file's chunks `Placed`. */
  ghost predicate Distributed(m: Storage, m0: Storage, fileId: int, servers: seq<int>, payloads: seq<Bytes>, interrupted: set<int>)
  {
    && |servers| <= |payloads|
    && m0.Keys <= m.Keys
    && (forall s, f, n :: f != fileId ==> Lookup(m, s, f, n) == Lookup(m0, s, f, n))
    && (forall s, n :: Lookup(m, s, fileId, n) == Placed(m0, fileId, servers, payloads, interrupted, s, n))
  }

  /** Storing the next chunk extends the distribution by that chunk. */
  lemma DistributedStep(m: Storage, m0: Storage, fileId: int, servers: seq<int>, payloads: seq<Bytes>,
                        interrupted: set<int>, server: int)
    requires Distributed(m, m0, fileId, servers, payloads, interrupted)
    requires |servers| < |payloads|
    ensures Distributed(StoreResult(m, server, fileId, |servers|, payloads[|servers|], |servers| in interrupted),
                        m0, fileId, servers + [server], payloads, interrupted)
  {
    var m' := StoreResult(m, server, fileId, |servers|, payloads[|servers|], |servers| in interrupted);
    var servers' := servers + [server];
    forall s, n
      ensures Lookup(m', s, fileId, n) == Placed(m0, fileId, servers', payloads, interrupted, s, n)
    {
      if 0 <= n < |servers| {
        assert servers'[n] == servers[n];
      }
    }
  }

  /** Nothing stored yet. */
  lemma DistributedNothing(m0: Storage, fileId: int, payloads: seq<Bytes>, interrupted: set<int>)
    ensures Distributed(m0, m0, fileId, [], payloads, interrupted)
  {
  }

  /**
   * What download's loop produces: the payloads concatenated in list order, or nothing as soon
   * as one chunk is missing from its server.
   */
  function Assemble(chunks: seq<FileChunk>, m: Storage): (r: Option<Bytes>)
    ensures r.None? <==> exists i :: 0 <= i < |chunks| && Lookup(m, chunks[i].serverId, chunks[i].fileId, chunks[i].chunkNumber).None?
  {
    if |chunks| == 0 then Some([])
    else
      var last := chunks[|chunks| - 1];
      var prefix := Assemble(chunks[..|chunks| - 1], m);
      var data := Lookup(m, last.serverId, last.fileId, last.chunkNumber);
      if prefix.Some? && data.Some? then Some(prefix.value + data.value) else None
  }

  /** Download's loop appends one more chunk's payload to what it has assembled. */
  lemma AssembleStep(chunks: seq<FileChunk>, i: nat, m: Storage, assembled: Bytes, data: Bytes)
    requires i < |chunks|
    requires Assemble(chunks[..i], m) == Some(assembled)
    requires Lookup(m, chunks[i].serverId, chunks[i].fileId, chunks[i].chunkNumber) == Some(data)
    ensures Assemble(chunks[..i + 1], m) == Some(assembled + data)
  {
    assert chunks[..i + 1][..i] == chunks[..i];
  }

  /** One chunk missing from its server is enough to make the whole download fail. */
  lemma AssembleMissing(chunks: seq<FileChunk>, i: nat, m: Storage)
    requires i < |chunks|
    requires Lookup(m, chunks[i].serverId, chunks[i].fileId, chunks[i].chunkNumber).None?
    ensures Assemble(chunks, m) == None
  {
  }

  /** When every chunk is on its server, download gives the payloads' concatenation. */
  lemma {:induction false} AssembleConcatenates(chunks: seq<FileChunk>, m: Storage, payloads: seq<Bytes>)
    requires |payloads| == |chunks|
    requires forall i :: 0 <= i < |chunks| ==>
               Lookup(m, chunks[i].serverId, chunks[i].fileId, chunks[i].chunkNumber) == Some(payloads[i])
    ensures Assemble(chunks, m) == Some(Flatten(payloads))
  {
    if |chunks| > 0 {
      AssembleConcatenates(chunks[..|chunks| - 1], m, payloads[..|payloads| - 1]);
    }
  }

  /** An upload's rows are sorted already, so the ordered query hands them back unchanged. */
  lemma UploadRowsAreOrdered(fileId: int, firstChunkId: int, servers: seq<int>)
    ensures SortByNumber(UploadRows(fileId, firstChunkId, servers)) == UploadRows(fileId, firstChunkId, servers)
  {
    SortSortedIsIdentity(UploadRows(fileId, firstChunkId, servers));
  }

  /**
   * Round trip: where each chunk of an upload is on the server its row names, reassembling
   * the ordered rows gives back the uploaded payloads concatenated.
   */
  lemma UploadedChunksReassemble(m: Storage, fileId: int, firstChunkId: int, servers: seq<int>, payloads: seq<Bytes>)
    requires |servers| == |payloads|
    requires forall j :: 0 <= j < |servers| ==> Lookup(m, servers[j], fileId, j) == Some(payloads[j])
    ensures Assemble(RowChunks(SortByNumber(UploadRows(fileId, firstChunkId, servers))), m) == Some(Flatten(payloads))
  {
    UploadRowsAreOrdered(fileId, firstChunkId, servers);
    AssembleConcatenates(RowChunks(UploadRows(fileId, firstChunkId, servers)), m, payloads);
  }

  /** After an upload whose stream gives no data before it ends, the chunk table is unchanged and the file lists no chunks. */
  lemma EmptyUploadHasNoChunks(db: MetadataStore, rows0: seq<ChunkRow>, input: seq<Read>, fileId: int, firstChunkId: int,
                               active: seq<int>, cursor: nat)
    requires |active| > 0 ==> cursor < |active|
    requires LeadingData(input) == 0
    requires forall i :: 0 <= i < |rows0| ==> rows0[i].fileId != fileId
    requires db.chunkRows == rows0 + UploadRows(fileId, firstChunkId, Servers(active, cursor, LeadingData(input)))
    ensures db.chunkRows == rows0
    ensures db.ChunksOf(fileId) == []
  {
    UploadRowsAreTheFiles(rows0, fileId, firstChunkId, Servers(active, cursor, LeadingData(input)));
  }

  /** Selecting the file's rows after an upload gives exactly the upload's rows. */
  lemma UploadRowsAreTheFiles(rows0: seq<ChunkRow>, fileId: int, firstChunkId: int, servers: seq<int>)
    requires forall i :: 0 <= i < |rows0| ==> rows0[i].fileId != fileId
    ensures WhereFile(rows0 + UploadRows(fileId, firstChunkId, servers), fileId) == UploadRows(fileId, firstChunkId, servers)
  {
    var rows := UploadRows(fileId, firstChunkId, servers);
    WhereFileAppend(rows0, rows, fileId);
    WhereAbsentFile(rows0, fileId);
    WhereOnlyFile(rows, fileId);
  }

  /** Deleting the file's rows after an upload gives back the table from before it. */
  lemma DeletingUploadRows(rows0: seq<ChunkRow>, fileId: int, firstChunkId: int, servers: seq<int>)
    requires forall i :: 0 <= i < |rows0| ==> rows0[i].fileId != fileId
    ensures WithoutFile(rows0 + UploadRows(fileId, firstChunkId, servers), fileId) == rows0
  {
    var rows := UploadRows(fileId, firstChunkId, servers);
    WithoutFileAppend(rows0, rows, fileId);
    WithoutAbsentFile(rows0, fileId);
    WithoutOnlyFile(rows, fileId);
    assert rows0 + [] == rows0;
  }

  /** The servers named by the listed prefix of an upload's rows are the balancer's first picks. */
  lemma UploadRowsServers(fileId: int, firstChunkId: int, servers: seq<int>, failsAfter: Option<nat>)
    ensures forall s :: s in ServersOf(Listed(UploadRows(fileId, firstChunkId, servers), failsAfter))
                        <==> s in servers[..ListedCount(|servers|, failsAfter)]
  {
    var k := ListedCount(|servers|, failsAfter);
    var chunks := Listed(UploadRows(fileId, firstChunkId, servers), failsAfter);
    assert |chunks| == k;
    forall s
      ensures s in ServersOf(chunks) <==> s in servers[..k]
    {
      if s in servers[..k] {
        var j :| 0 <= j < k && servers[..k][j] == s;
        assert chunks[j].serverId == s;
      }
      if s in ServersOf(chunks) {
        var j :| 0 <= j < |chunks| && chunks[j].serverId == s;
        assert servers[..k][j] == s;
      }
    }
  }

  /**
   * What server `s` holds for chunk `n` of the file after an upload that failed and was
   * rolled back: a server named by a recorded row that the cleanup listed (all of them unless the
   * listing threw after `listFailsAfter` rows) is cleared, every other one keeps what the upload
   * stored on it.
   */
  function RolledBack(m0: Storage, fileId: int, input: seq<Read>, active: seq<int>, cursor: nat,
                      failsAt: Option<nat>, interrupted: set<int>, listFailsAfter: Option<nat>, s: int, n: int): Option<Bytes>
    requires |active| > 0 ==> cursor < |active|
  {
    var recorded := Servers(active, cursor, Recorded(input, active, failsAt));
    if s in recorded[..ListedCount(|recorded|, listFailsAfter)] then None
    else Placed(m0, fileId, Servers(active, cursor, Dispatched(input, active, failsAt)), LeadingPayloads(input), interrupted, s, n)
  }

  /**
   * Rollback of a failed upload: clearing every server the cleanup listed from the recorded rows
   * leaves each server holding exactly what `RolledBack` says.
   */
  lemma RollbackClearsListedServers(m: Storage, stored: Storage, m0: Storage, fileId: int, firstChunkId: int,
                                    input: seq<Read>, active: seq<int>, cursor: nat, failsAt: Option<nat>,
                                    interrupted: set<int>, listFailsAfter: Option<nat>)
    requires |active| > 0 ==> cursor < |active|
    requires Distributed(stored, m0, fileId, Servers(active, cursor, Dispatched(input, active, failsAt)),
                         LeadingPayloads(input), interrupted)
    requires FileCleared(m, stored, fileId,
                         ServersOf(Listed(UploadRows(fileId, firstChunkId, Servers(active, cursor, Recorded(input, active, failsAt))),
                                          listFailsAfter)))
    ensures forall s, n :: Lookup(m, s, fileId, n)
                           == RolledBack(m0, fileId, input, active, cursor, failsAt, interrupted, listFailsAfter, s, n)
  {
    UploadRowsServers(fileId, firstChunkId, Servers(active, cursor, Recorded(input, active, failsAt)), listFailsAfter);
  }

  /**
   * The rollback misses the chunk whose metadata insert failed: when that is the first chunk, no
   * row names its server, so the payload stays on it after an otherwise complete cleanup.
   */
  lemma FailedFirstChunkOutlivesRollback(m0: Storage, fileId: int, input: seq<Read>, active: seq<int>, cursor: nat,
                                         interrupted: set<int>)
    requires 0 < |active| && cursor < |active|
    requires 0 < |input| && input[0].Data?
    requires 0 !in interrupted
    ensures RolledBack(m0, fileId, input, active, cursor, Some(0), interrupted, None, active[cursor], 0) == Some(input[0].bytes)
  {
    assert Recorded(input, active, Some(0)) == 0;
    assert Dispatched(input, active, Some(0)) == 1;
    assert Servers(active, cursor, 1) == [active[cursor]];
  }

  /**
   * The chunk `k` whose metadata insert failed after a complete listing: the rollback wipes it
   * exactly when the server it went to also holds an earlier, recorded chunk of the file.
   */
  lemma FailedChunkAfterRollback(m0: Storage, fileId: int, input: seq<Read>, active: seq<int>, cursor: nat,
                                 interrupted: set<int>, k: nat)
    requires 0 < |active| && cursor < |active|
    requires k < LeadingData(input)
    requires k !in interrupted
    ensures var server := active[CursorAfter(active, cursor, k)];
            RolledBack(m0, fileId, input, active, cursor, Some(k), interrupted, None, server, k)
            == if server in Servers(active, cursor, k) then None else Some(input[k].bytes)
  {
    assert Recorded(input, active, Some(k)) == k;
    assert Dispatched(input, active, Some(k)) == k + 1;
    RoundRobinRunAt(active, cursor, k + 1, k);
  }

  /** Download of a complete upload: every chunk is where its row says, so the payloads come back in order. */
  lemma {:induction false} DistributedChunksReassemble(m: Storage, m0: Storage, fileId: int, firstChunkId: int,
                                                       servers: seq<int>, payloads: seq<Bytes>, interrupted: set<int>)
    requires Distributed(m, m0, fileId, servers, payloads, interrupted)
    requires |servers| == |payloads|
    requires forall j :: 0 <= j < |servers| ==> j !in interrupted
    ensures Assemble(RowChunks(UploadRows(fileId, firstChunkId, servers)), m) == Some(Flatten(payloads))
  {
    var chunks := RowChunks(UploadRows(fileId, firstChunkId, servers));
    forall i | 0 <= i < |chunks|
      ensures Lookup(m, chunks[i].serverId, chunks[i].fileId, chunks[i].chunkNumber) == Some(payloads[i])
    {
      assert Placed(m0, fileId, servers, payloads, interrupted, servers[i], i) == Some(payloads[i]);
    }
    AssembleConcatenates(chunks, m, payloads);
  }

  /**
   * Download of a complete upload whose chunk listing threw after `k` rows: the rows read so far
   * are assembled and the first `k` payloads come back as if they were the whole file.
   */
  lemma TruncatedListingDownloadsPrefix(m: Storage, m0: Storage, fileId: int, firstChunkId: int, servers: seq<int>,
                                        payloads: seq<Bytes>, interrupted: set<int>, failsAfter: Option<nat>)
    requires Distributed(m, m0, fileId, servers, payloads, interrupted)
    requires |servers| == |payloads|
    requires forall j :: 0 <= j < |servers| ==> j !in interrupted
    ensures Assemble(Listed(UploadRows(fileId, firstChunkId, servers), failsAfter), m)
            == Some(Flatten(payloads[..ListedCount(|servers|, failsAfter)]))
  {
    var k := ListedCount(|servers|, failsAfter);
    var chunks := Listed(UploadRows(fileId, firstChunkId, servers), failsAfter);
    assert |chunks| == k;
    forall i | 0 <= i < |chunks|
      ensures Lookup(m, chunks[i].serverId, chunks[i].fileId, chunks[i].chunkNumber) == Some(payloads[..k][i])
    {
      assert chunks[i].serverId == servers[i] && chunks[i].fileId == fileId && chunks[i].chunkNumber == i;
      assert Placed(m0, fileId, servers, payloads, interrupted, servers[i], i) == Some(payloads[i]);
    }
    AssembleConcatenates(chunks, m, payloads[..k]);
  }

  /**
   * Download after an upload of a fresh file: it gives the concatenated payloads exactly when
   * no store was interrupted; one interrupted store leaves its chunk missing and the download fails.
   */
  lemma DownloadAfterUpload(m: Storage, m0: Storage, fileId: int, firstChunkId: int,
                            servers: seq<int>, payloads: seq<Bytes>, interrupted: set<int>)
    requires Distributed(m, m0, fileId, servers, payloads, interrupted)
    requires |servers| == |payloads|
    requires forall s, n :: Lookup(m0, s, fileId, n) == None
    ensures Assemble(RowChunks(UploadRows(fileId, firstChunkId, servers)), m).Some?
            <==> forall j :: 0 <= j < |servers| ==> j !in interrupted
    ensures Assemble(RowChunks(UploadRows(fileId, firstChunkId, servers)), m).Some?
            ==> Assemble(RowChunks(UploadRows(fileId, firstChunkId, servers)), m) == Some(Flatten(payloads))
  {
    if forall j :: 0 <= j < |servers| ==> j !in interrupted {
      DistributedChunksReassemble(m, m0, fileId, firstChunkId, servers, payloads, interrupted);
    } else {
      var j :| 0 <= j < |servers| && j in interrupted;
      var chunks := RowChunks(UploadRows(fileId, firstChunkId, servers));
      assert chunks[j].serverId == servers[j] && chunks[j].fileId == fileId && chunks[j].chunkNumber == j;
      assert Placed(m0, fileId, servers, payloads, interrupted, servers[j], j) == None;
      AssembleMissing(chunks, j, m);
    }
  }

  /**
   * Every chunk an upload leaves on a server is named by one of its rows (when the file had
   * nothing stored before), so deleting by the rows leaves nothing of the file behind.
   */
  lemma UploadedChunksAreRecorded(m: Storage, m0: Storage, fileId: int, firstChunkId: int,
                                  servers: seq<int>, payloads: seq<Bytes>, interrupted: set<int>)
    requires Distributed(m, m0, fileId, servers, payloads, interrupted)
    requires forall s, n :: Lookup(m0, s, fileId, n) == None
    ensures forall s, n :: Lookup(m, s, fileId, n).Some? ==> (s, n) in KeysOf(RowChunks(UploadRows(fileId, firstChunkId, servers)))
  {
    var chunks := RowChunks(UploadRows(fileId, firstChunkId, servers));
    forall s, n | Lookup(m, s, fileId, n).Some?
      ensures (s, n) in KeysOf(chunks)
    {
      assert Placed(m0, fileId, servers, payloads, interrupted, s, n).Some?;
      assert chunks[n].serverId == s && chunks[n].chunkNumber == n;
    }
  }

  /** `m` is `m0` with every chunk of `fileId` on `servers` gone and nothing else changed. */
  ghost predicate FileCleared(m: Storage, m0: Storage, fileId: int, servers: set<int>)
  {
    && m0.Keys <= m.Keys
    && forall s, f, n :: Lookup(m, s, f, n) == if f == fileId && s in servers then None else Lookup(m0, s, f, n)
  }

  /** Clearing the file on one more server extends the cleared servers by it. */
  lemma FileClearedStep(m: Storage, m0: Storage, fileId: int, servers: set<int>, server: int, m': Storage)
    requires FileCleared(m, m0, fileId, servers)
    requires m.Keys <= m'.Keys
    requires forall n :: Lookup(m', server, fileId, n) == None
    requires forall s, f, n :: (s != server || f != fileId) ==> Lookup(m', s, f, n) == Lookup(m, s, f, n)
    ensures FileCleared(m', m0, fileId, servers + {server})
  {
  }

  /** `m` is `m0` with the chunks at `keys` of `fileId` deleted and nothing else changed. */
  ghost predicate ChunksDeleted(m: Storage, m0: Storage, fileId: int, keys: set<(int, int)>)
  {
    && m0.Keys <= m.Keys
    && forall s, f, n :: Lookup(m, s, f, n) == if f == fileId && (s, n) in keys then None else Lookup(m0, s, f, n)
  }

  /**
   * Opening a client for `server` and deleting one more chunk of the file (a no-op when it is
   * absent) extends the deleted keys by it.
   */
  lemma ChunkDeletedStep(m: Storage, m0: Storage, fileId: int, keys: set<(int, int)>, server: int, n: int, m': Storage)
    requires ChunksDeleted(m, m0, fileId, keys)
    requires var prepared := WithServer(m, server);
             m' == if Lookup(prepared, server, fileId, n).Some? then RemoveChunk(prepared, server, fileId, n) else prepared
    ensures ChunksDeleted(m', m0, fileId, keys + {(server, n)})
  {
  }

  /** Deleting a freshly keyed file row gives back the table from before its insert. */
  lemma RemovingReservedRow(files: map<int, FileRow>, fileId: int, row: FileRow)
    requires fileId !in files
    ensures files[fileId := row] - {fileId} == files
  {
    assert (files[fileId := row] - {fileId}).Keys == files.Keys;
  }

  class FileManager {
    /** The metadata tables. */
    const db: MetadataStore
    /** The static chunk storage of all servers. */
    const storage: ServerStorage
    /** The load balancer, whose cursor is shared by every manager. */
    const loadBalancer: LoadBalancerService

    constructor (db: MetadataStore, storage: ServerStorage, loadBalancer: LoadBalancerService)
      ensures this.db == db && this.storage == storage && this.loadBalancer == loadBalancer
    {
      this.db := db;
      this.storage := storage;
      this.loadBalancer := loadBalancer;
    }

    /** The round-robin cursor is inside the active-server list (when the list is not empty). */
    ghost predicate CursorInside(active: seq<int>)
      reads this, loadBalancer
    {
      |active| > 0 ==> loadBalancer.lastUsedServerIndex < |active|
    }

    /** `storeChunkMetadata`: appends one chunk row, or throws and changes nothing. */
    method StoreChunkMetadata(fileId: int, chunkNumber: int, serverId: int, checksum: string, fails: bool) returns (ok: bool)
      modifies db
      ensures ok == !fails
      ensures db.chunkRows == if ok then old(db.chunkRows) + [ChunkRow(old(db.nextChunkId), fileId, chunkNumber, serverId, checksum)]
                              else old(db.chunkRows)
      ensures db.nextChunkId == if ok then old(db.nextChunkId) + 1 else old(db.nextChunkId)
      ensures db.files == old(db.files) && db.nextFileId == old(db.nextFileId)
      ensures db.permissions == old(db.permissions) && db.users == old(db.users)
    {
      if fails {
        return false;
      }
      db.chunkRows := db.chunkRows + [ChunkRow(db.nextChunkId, fileId, chunkNumber, serverId, checksum)];
      db.nextChunkId := db.nextChunkId + 1;
      ok := true;
    }

    /** `deleteChunkMetadata`: removes every chunk row of the file, or throws and changes nothing. */
    method DeleteChunkMetadata(fileId: int, fails: bool) returns (ok: bool)
      modifies db
      ensures ok == !fails
      ensures db.chunkRows == if ok then WithoutFile(old(db.chunkRows), fileId) else old(db.chunkRows)
      ensures old(db.Valid()) ==> db.Valid()
      ensures db.files == old(db.files) && db.nextFileId == old(db.nextFileId) && db.nextChunkId == old(db.nextChunkId)
      ensures db.permissions == old(db.permissions) && db.users == old(db.users)
    {
      if fails {
        return false;
      }
      db.chunkRows := WithoutFile(db.chunkRows, fileId);
      ok := true;
    }

    /** `deleteFileMetadata`: removes the file row, or throws and changes nothing. */
    method DeleteFileMetadata(fileId: int, fails: bool) returns (ok: bool)
      modifies db
      ensures ok == !fails
      ensures db.files == if ok then old(db.files) - {fileId} else old(db.files)
      ensures old(db.Valid()) ==> db.Valid()
      ensures db.chunkRows == old(db.chunkRows) && db.nextFileId == old(db.nextFileId) && db.nextChunkId == old(db.nextChunkId)
      ensures db.permissions == old(db.permissions) && db.users == old(db.users)
    {
      if fails {
        return false;
      }
      db.files := db.files - {fileId};
      ok := true;
    }

    /**
     * `getFileChunks`: the file's rows ordered by chunk number, as metadata-only chunks. An
     * SQLException after `failsAfter` rows is swallowed and the rows read so far are returned.
     */
    method GetFileChunks(fileId: int, failsAfter: Option<nat>) returns (chunks: seq<FileChunk>)
      ensures chunks == Listed(db.ChunksOf(fileId), failsAfter)
      ensures forall i :: 0 <= i < |chunks| ==> chunks[i].fileId == fileId && chunks[i].data == None
      ensures forall i, j :: 0 <= i < j < |chunks| ==> chunks[i].chunkNumber <= chunks[j].chunkNumber
      ensures |chunks| == ListedCount(|WhereFile(db.chunkRows, fileId)|, failsAfter)
    {
      chunks := [];
      var rows := db.ChunksOf(fileId);
      var i := 0;
      while i < |rows| && !(failsAfter.Some? && failsAfter.value == i)
        invariant 0 <= i <= |rows|
        invariant failsAfter.Some? ==> i <= failsAfter.value
        invariant chunks == RowChunks(rows)[..i]
      {
        var row := rows[i];
        chunks := chunks + [ChunkFromRow(row.chunkId, row.fileId, row.chunkNumber, row.serverId, row.checksum)];
        i := i + 1;
        assert chunks == RowChunks(rows)[..i - 1] + [RowChunks(rows)[i - 1]];
      }
    }

    /** `isFileOwner`: false for a missing file and on an SQLException. */
    method IsFileOwner(fileId: int, userId: int, fails: bool) returns (owner: bool)
      ensures owner <==> !fails && fileId in db.files && db.files[fileId].ownerId == userId
    {
      owner := !fails && fileId in db.files && db.files[fileId].ownerId == userId;
    }

    /** `userExists`: false on an SQLException. */
    method UserExists(userId: int, fails: bool) returns (found: bool)
      ensures found <==> !fails && userId in db.users
    {
      found := !fails && userId in db.users;
    }

    /** `permissionExists`: false on an SQLException. */
    method PermissionExists(fileId: int, userId: int, fails: bool) returns (found: bool)
      ensures found <==> !fails && db.HasPermission(fileId, userId)
    {
      found := !fails && db.HasPermission(fileId, userId);
    }

    /**
     * One iteration of `uploadFile`'s loop: select a server, store the chunk on it (the
     * boolean result is ignored), then write the chunk row. `recorded` is false when no
     * server is available or the row insert throws; either aborts the upload.
     */
    method UploadChunk(fileId: int, chunkNumber: int, payload: Bytes, active: seq<int>, interrupted: bool, rowFails: bool)
      returns (server: int, recorded: bool)
      requires CursorInside(active) && -1 !in active
      modifies db, storage, loadBalancer
      ensures |active| == 0 ==> server == -1 && !recorded
      ensures |active| == 0 ==> storage.servers == old(storage.servers)
                                && loadBalancer.lastUsedServerIndex == old(loadBalancer.lastUsedServerIndex)
      ensures |active| > 0 ==> (server, loadBalancer.lastUsedServerIndex) == RoundRobinStep(active, old(loadBalancer.lastUsedServerIndex))
      ensures |active| > 0 ==> recorded == !rowFails
      ensures |active| > 0 ==> storage.servers == StoreResult(old(storage.servers), server, fileId, chunkNumber, payload, interrupted)
      ensures db.chunkRows == if recorded then old(db.chunkRows) + [ChunkRow(old(db.nextChunkId), fileId, chunkNumber, server, ChecksumPlaceholder)]
                              else old(db.chunkRows)
      ensures db.nextChunkId == if recorded then old(db.nextChunkId) + 1 else old(db.nextChunkId)
      ensures db.files == old(db.files) && db.nextFileId == old(db.nextFileId)
      ensures db.permissions == old(db.permissions) && db.users == old(db.users)
    {
      server := loadBalancer.SelectServer(active);
      if server == -1 {
        return server, false;
      }
      var client := new FileServerClient(server, storage);
      var chunk := NewChunk(fileId, chunkNumber, server, ChecksumPlaceholder, Some(payload));
      var _ := client.StoreChunk(chunk, interrupted);
      recorded := StoreChunkMetadata(fileId, chunkNumber, server, ChecksumPlaceholder, rowFails);
    }

    /**
     * One pass of the upload loop for chunk `n`, as a step on the upload's progress: one more
     * chunk sent and stored when a server exists, and one more row when its insert succeeds.
     */
    method UploadNextChunk(fileId: int, n: nat, payload: Bytes, active: seq<int>, interrupted: set<int>, rowFails: bool,
                           ghost rows0: seq<ChunkRow>, ghost chunkId0: int, ghost cursor0: nat, ghost m0: Storage,
                           ghost payloads: seq<Bytes>)
      returns (recorded: bool)
      requires CursorInside(active) && -1 !in active
      requires |active| > 0 ==> cursor0 < |active| && loadBalancer.lastUsedServerIndex == CursorAfter(active, cursor0, n)
      requires n < |payloads| && payloads[n] == payload
      requires db.chunkRows == rows0 + UploadRows(fileId, chunkId0, Servers(active, cursor0, n))
      requires db.nextChunkId == chunkId0 + n
      requires Distributed(storage.servers, m0, fileId, Servers(active, cursor0, n), payloads, interrupted)
      modifies db, storage, loadBalancer
      ensures CursorInside(active)
      ensures recorded == (|active| > 0 && !rowFails)
      ensures |active| == 0 ==> storage.servers == old(storage.servers)
                                && loadBalancer.lastUsedServerIndex == old(loadBalancer.lastUsedServerIndex)
      ensures |active| > 0 ==> loadBalancer.lastUsedServerIndex == CursorAfter(active, cursor0, n + 1)
      ensures |active| > 0 ==> Distributed(storage.servers, m0, fileId, Servers(active, cursor0, n + 1), payloads, interrupted)
      ensures db.chunkRows == rows0 + UploadRows(fileId, chunkId0, Servers(active, cursor0, if recorded then n + 1 else n))
      ensures db.nextChunkId == chunkId0 + if recorded then n + 1 else n
      ensures db.files == old(db.files) && db.nextFileId == old(db.nextFileId)
      ensures db.permissions == old(db.permissions) && db.users == old(db.users)
    {
      ghost var servers := Servers(active, cursor0, n);
      ghost var mBefore := storage.servers;
      var server;
      server, recorded := UploadChunk(fileId, n, payload, active, n in interrupted, rowFails);
      if |active| > 0 {
        UploadStep(rows0, fileId, chunkId0, active, cursor0, n, server);
        DistributedStep(mBefore, m0, fileId, servers, payloads, interrupted, server);
      }
    }

    /**
     * The `while ((bytesRead = fileContent.read(buffer)) != -1)` loop of `uploadFile`, for a
     * file id already obtained. false stands for the IOException or SQLException that ends the
     * loop: no active server, a failing chunk-row insert, or a failing read.
     */
    method DistributeChunks(fileId: int, input: seq<Read>, active: seq<int>, interrupted: set<int>, failsAt: Option<nat>)
      returns (ok: bool)
      requires CursorInside(active) && -1 !in active
      modifies db, storage, loadBalancer
      ensures ok == ChunksSucceed(input, active, failsAt)
      ensures db.chunkRows == old(db.chunkRows)
                + UploadRows(fileId, old(db.nextChunkId),
                             Servers(active, old(loadBalancer.lastUsedServerIndex), Recorded(input, active, failsAt)))
      ensures db.nextChunkId == old(db.nextChunkId) + Recorded(input, active, failsAt)
      ensures db.files == old(db.files) && db.nextFileId == old(db.nextFileId)
      ensures db.permissions == old(db.permissions) && db.users == old(db.users)
      ensures |active| == 0 ==> loadBalancer.lastUsedServerIndex == old(loadBalancer.lastUsedServerIndex)
      ensures |active| > 0 ==> loadBalancer.lastUsedServerIndex
                                == CursorAfter(active, old(loadBalancer.lastUsedServerIndex), Dispatched(input, active, failsAt))
      ensures Distributed(storage.servers, old(storage.servers), fileId,
                          Servers(active, old(loadBalancer.lastUsedServerIndex), Dispatched(input, active, failsAt)),
                          LeadingPayloads(input), interrupted)
    {
      ghost var cursor0 := loadBalancer.lastUsedServerIndex;
      ghost var chunkId0 := db.nextChunkId;
      ghost var rows0 := db.chunkRows;
      ghost var m0 := storage.servers;
      ghost var k := LeadingData(input);
      ghost var payloads := LeadingPayloads(input);
      DistributedNothing(m0, fileId, payloads, interrupted);
      var chunkNumber := 0;
      while chunkNumber < |input| && input[chunkNumber].Data?
        invariant 0 <= chunkNumber <= k
        invariant failsAt.None? || failsAt.value >= chunkNumber
        invariant CursorInside(active)
        invariant |active| == 0 ==> chunkNumber == 0 && loadBalancer.lastUsedServerIndex == cursor0
        invariant |active| > 0 ==> loadBalancer.lastUsedServerIndex == CursorAfter(active, cursor0, chunkNumber)
        invariant db.chunkRows == rows0 + UploadRows(fileId, chunkId0, Servers(active, cursor0, chunkNumber))
        invariant db.nextChunkId == chunkId0 + chunkNumber
        invariant db.files == old(db.files) && db.nextFileId == old(db.nextFileId)
        invariant db.permissions == old(db.permissions) && db.users == old(db.users)
        invariant Distributed(storage.servers, m0, fileId, Servers(active, cursor0, chunkNumber), payloads, interrupted)
      {
        assert payloads[chunkNumber] == input[chunkNumber].bytes;
        var rowFails := failsAt.Some? && failsAt.value == chunkNumber;
        var recorded := UploadNextChunk(fileId, chunkNumber, input[chunkNumber].bytes, active, interrupted, rowFails,
                                        rows0, chunkId0, cursor0, m0, payloads);
        if !recorded {
          if |active| > 0 {
            RowFailureCounts(input, active, failsAt, chunkNumber);
          }
          return false;
        }
        chunkNumber := chunkNumber + 1;
      }
      assert chunkNumber == k;
      ok := !(chunkNumber < |input| && input[chunkNumber].ReadFailure?);
    }

    /**
     * The `INSERT INTO files` of `uploadFile`. The row is written under the next key unless no
     * row is affected or the statement throws; the key comes back only for `Inserted`.
     */
    method InsertFileMetadata(row: FileRow, outcome: FileInsert) returns (key: Option<int>)
      modifies db
      ensures key == if outcome.Inserted? then Some(old(db.nextFileId)) else None
      ensures db.files == if outcome.Inserted? || outcome.NoKeyReturned? then old(db.files)[old(db.nextFileId) := row]
                          else old(db.files)
      ensures db.nextFileId == if outcome.Inserted? || outcome.NoKeyReturned? then old(db.nextFileId) + 1
                               else old(db.nextFileId)
      ensures db.chunkRows == old(db.chunkRows) && db.nextChunkId == old(db.nextChunkId)
      ensures db.permissions == old(db.permissions) && db.users == old(db.users)
    {
      if outcome.NoRowsAffected? || outcome.InsertThrows? {
        return None;
      }
      key := if outcome.Inserted? then Some(db.nextFileId) else None;
      db.files := db.files[db.nextFileId := row];
      db.nextFileId := db.nextFileId + 1;
    }

    /**
     * `uploadFile`. Reserves the file row, then distributes the stream's chunks; any failure
     * after the key was obtained rolls the upload back with `cleanupFile`. The result is the new
     * file id, or -1.
     */
    method UploadFile(originalName: string, input: seq<Read>, fileSize: int, fileType: string, ownerId: int,
                      storagePath: string, active: seq<int>, faults: UploadFaults)
      returns (fileId: int)
      requires db.Valid() && CursorInside(active) && -1 !in active
      modifies db, storage, loadBalancer
      ensures db.Valid()
      ensures fileId == if faults.fileInsert.Inserted? && ChunksSucceed(input, active, faults.chunkInsertFailsAt)
                        then old(db.nextFileId) else -1
      // no key: no server selected, no chunk stored, no chunk row written
      ensures !faults.fileInsert.Inserted? ==>
                && storage.servers == old(storage.servers)
                && loadBalancer.lastUsedServerIndex == old(loadBalancer.lastUsedServerIndex)
                && db.chunkRows == old(db.chunkRows) && db.nextChunkId == old(db.nextChunkId)
      ensures db.files == if faults.fileInsert.NoKeyReturned? || fileId != -1
                             || (faults.fileInsert.Inserted? && (faults.cleanup.chunkRowsDeleteFails || faults.cleanup.fileRowDeleteFails))
                          then old(db.files)[old(db.nextFileId) := FileRow(originalName, storagePath, fileSize, ownerId, fileType)]
                          else old(db.files)
      ensures db.nextFileId == if faults.fileInsert.Inserted? || faults.fileInsert.NoKeyReturned? then old(db.nextFileId) + 1
                               else old(db.nextFileId)
      ensures db.permissions == old(db.permissions) && db.users == old(db.users)
      // success: chunks 0 .. k-1 recorded in order on the balancer's picks, and stored there
      ensures fileId != -1 ==>
                db.chunkRows
                == old(db.chunkRows)
                   + UploadRows(fileId, old(db.nextChunkId), Servers(active, old(loadBalancer.lastUsedServerIndex), LeadingData(input)))
      ensures faults.fileInsert.Inserted? ==> db.nextChunkId == old(db.nextChunkId) + Recorded(input, active, faults.chunkInsertFailsAt)
      ensures fileId != -1 ==>
                db.ChunksOf(fileId)
                == UploadRows(fileId, old(db.nextChunkId), Servers(active, old(loadBalancer.lastUsedServerIndex), LeadingData(input)))
      ensures fileId != -1 ==>
                Distributed(storage.servers, old(storage.servers), fileId,
                            Servers(active, old(loadBalancer.lastUsedServerIndex), LeadingData(input)),
                            LeadingPayloads(input), faults.storeInterrupted)
      // rollback: the chunk rows are gone and the recorded servers cleared
      ensures faults.fileInsert.Inserted? && fileId == -1 ==>
                db.chunkRows
                == if faults.cleanup.chunkRowsDeleteFails
                   then old(db.chunkRows)
                        + UploadRows(old(db.nextFileId), old(db.nextChunkId),
                                     Servers(active, old(loadBalancer.lastUsedServerIndex),
                                             Recorded(input, active, faults.chunkInsertFailsAt)))
                   else old(db.chunkRows)
      ensures faults.fileInsert.Inserted? && fileId == -1 ==>
                forall s, n :: Lookup(storage.servers, s, old(db.nextFileId), n)
                               == RolledBack(old(storage.servers), old(db.nextFileId), input, active,
                                             old(loadBalancer.lastUsedServerIndex), faults.chunkInsertFailsAt,
                                             faults.storeInterrupted, faults.cleanup.listFailsAfter, s, n)
      // the balancer advanced once per chunk that reached it
      ensures faults.fileInsert.Inserted? && |active| > 0 ==>
                loadBalancer.lastUsedServerIndex
                == CursorAfter(active, old(loadBalancer.lastUsedServerIndex), Dispatched(input, active, faults.chunkInsertFailsAt))
      ensures |active| == 0 ==> loadBalancer.lastUsedServerIndex == old(loadBalancer.lastUsedServerIndex)
      // other files' chunks are untouched
      ensures forall s, f, n :: f != old(db.nextFileId) ==> Lookup(storage.servers, s, f, n) == Lookup(old(storage.servers), s, f, n)
    {
      ghost var files0 := db.files;
      var row := FileRow(originalName, storagePath, fileSize, ownerId, fileType);
      var key := InsertFileMetadata(row, faults.fileInsert);
      if key.None? {
        return -1;
      }
      fileId := key.value;
      var ok := DistributeOrRollBack(fileId, input, active, faults);
      if !ok {
        RemovingReservedRow(files0, fileId, row);
        fileId := -1;
      }
    }

    /**
     * The rest of `uploadFile` once the key `fileId` was obtained: the chunk loop, and on an
     * SQLException or IOException the `cleanupFile` of its catch blocks.
     */
    method DistributeOrRollBack(fileId: int, input: seq<Read>, active: seq<int>, faults: UploadFaults)
      returns (ok: bool)
      requires CursorInside(active) && -1 !in active
      requires forall i :: 0 <= i < |db.chunkRows| ==> db.chunkRows[i].fileId != fileId
      modifies db, storage, loadBalancer
      ensures ok == ChunksSucceed(input, active, faults.chunkInsertFailsAt)
      ensures db.chunkRows
              == if ok || faults.cleanup.chunkRowsDeleteFails
                 then old(db.chunkRows)
                      + UploadRows(fileId, old(db.nextChunkId),
                                   Servers(active, old(loadBalancer.lastUsedServerIndex), Recorded(input, active, faults.chunkInsertFailsAt)))
                 else old(db.chunkRows)
      ensures ok ==> db.ChunksOf(fileId)
                     == UploadRows(fileId, old(db.nextChunkId), Servers(active, old(loadBalancer.lastUsedServerIndex), LeadingData(input)))
      ensures db.files == if ok || faults.cleanup.chunkRowsDeleteFails || faults.cleanup.fileRowDeleteFails then old(db.files)
                          else old(db.files) - {fileId}
      ensures db.nextFileId == old(db.nextFileId) && db.nextChunkId == old(db.nextChunkId) + Recorded(input, active, faults.chunkInsertFailsAt)
      ensures db.permissions == old(db.permissions) && db.users == old(db.users)
      ensures ok ==> Distributed(storage.servers, old(storage.servers), fileId,
                                 Servers(active, old(loadBalancer.lastUsedServerIndex), LeadingData(input)),
                                 LeadingPayloads(input), faults.storeInterrupted)
      ensures !ok ==> forall s, n :: Lookup(storage.servers, s, fileId, n)
                                     == RolledBack(old(storage.servers), fileId, input, active,
                                                   old(loadBalancer.lastUsedServerIndex), faults.chunkInsertFailsAt,
                                                   faults.storeInterrupted, faults.cleanup.listFailsAfter, s, n)
      ensures forall s, f, n :: f != fileId ==> Lookup(storage.servers, s, f, n) == Lookup(old(storage.servers), s, f, n)
      ensures |active| == 0 ==> loadBalancer.lastUsedServerIndex == old(loadBalancer.lastUsedServerIndex)
      ensures |active| > 0 ==> loadBalancer.lastUsedServerIndex
                               == CursorAfter(active, old(loadBalancer.lastUsedServerIndex), Dispatched(input, active, faults.chunkInsertFailsAt))
    {
      ghost var rows0 := db.chunkRows;
      ghost var chunkId0 := db.nextChunkId;
      ghost var cursor0 := loadBalancer.lastUsedServerIndex;
      ok := DistributeChunks(fileId, input, active, faults.storeInterrupted, faults.chunkInsertFailsAt);
      ghost var servers := Servers(active, cursor0, Recorded(input, active, faults.chunkInsertFailsAt));
      if ok {
        UploadRowsAreTheFiles(rows0, fileId, chunkId0, servers);
        UploadRowsAreOrdered(fileId, chunkId0, servers);
        return;
      }
      DeletingUploadRows(rows0, fileId, chunkId0, servers);
      UploadRowsAreTheFiles(rows0, fileId, chunkId0, servers);
      UploadRowsAreOrdered(fileId, chunkId0, servers);
      ghost var stored := storage.servers;
      CleanupFile(fileId, faults.cleanup);
      RollbackClearsListedServers(storage.servers, stored, old(storage.servers), fileId, chunkId0, input, active, cursor0,
                                  faults.chunkInsertFailsAt, faults.storeInterrupted, faults.cleanup.listFailsAfter);
    }

    /**
     * `cleanupFile`: clears the file on every server its listed chunk rows name, then deletes the
     * chunk rows and, if that did not throw, the file row.
     */
    method CleanupFile(fileId: int, faults: RemovalFaults)
      modifies db, storage
      ensures old(db.Valid()) ==> db.Valid()
      ensures FileCleared(storage.servers, old(storage.servers), fileId,
                          ServersOf(Listed(old(db.ChunksOf(fileId)), faults.listFailsAfter)))
      ensures db.chunkRows == if faults.chunkRowsDeleteFails then old(db.chunkRows) else WithoutFile(old(db.chunkRows), fileId)
      ensures db.files == if faults.chunkRowsDeleteFails || faults.fileRowDeleteFails then old(db.files) else old(db.files) - {fileId}
      ensures db.nextFileId == old(db.nextFileId) && db.nextChunkId == old(db.nextChunkId)
      ensures db.permissions == old(db.permissions) && db.users == old(db.users)
    {
      var chunks := GetFileChunks(fileId, faults.listFailsAfter);
      ghost var m0 := storage.servers;
      var i := 0;
      while i < |chunks|
        modifies storage
        invariant 0 <= i <= |chunks|
        invariant FileCleared(storage.servers, m0, fileId, ServersOf(chunks[..i]))
      {
        ghost var before := storage.servers;
        var client := new FileServerClient(chunks[i].serverId, storage);
        var _ := client.DeleteAllFileChunks(fileId);
        FileClearedStep(before, m0, fileId, ServersOf(chunks[..i]), chunks[i].serverId, storage.servers);
        ServersOfPrefix(chunks, i);
        i := i + 1;
      }
      assert chunks[..i] == chunks;
      var deleted := DeleteChunkMetadata(fileId, faults.chunkRowsDeleteFails);
      if deleted {
        var _ := DeleteFileMetadata(fileId, faults.fileRowDeleteFails);
      }
    }

    /**
     * An upload of a fresh file followed by its download. The upload reports success even when a
     * store was interrupted (the result of `storeChunk` is ignored), and then the download fails;
     * an empty stream uploads successfully but its file can never be downloaded.
     */
    method UploadThenDownload(originalName: string, input: seq<Read>, fileSize: int, fileType: string, ownerId: int,
                              storagePath: string, active: seq<int>, faults: UploadFaults)
      returns (fileId: int, content: Option<Bytes>)
      requires db.Valid() && CursorInside(active) && -1 !in active
      requires forall s, n :: Lookup(storage.servers, s, db.nextFileId, n) == None
      modifies db, storage, loadBalancer
      ensures fileId == if faults.fileInsert.Inserted? && ChunksSucceed(input, active, faults.chunkInsertFailsAt)
                        then old(db.nextFileId) else -1
      ensures fileId == -1 ==> content == None
      ensures fileId != -1 ==>
                (content.Some? <==> 0 < LeadingData(input) && forall j :: 0 <= j < LeadingData(input) ==> j !in faults.storeInterrupted)
      ensures content.Some? ==> content.value == Flatten(LeadingPayloads(input))
    {
      ghost var m0 := storage.servers;
      ghost var cursor0 := loadBalancer.lastUsedServerIndex;
      ghost var chunkId0 := db.nextChunkId;
      fileId := UploadFile(originalName, input, fileSize, fileType, ownerId, storagePath, active, faults);
      if fileId == -1 {
        return -1, None;
      }
      ghost var servers := Servers(active, cursor0, LeadingData(input));
      ghost var payloads := LeadingPayloads(input);
      assert |servers| == |payloads| == LeadingData(input);
      DownloadAfterUpload(storage.servers, m0, fileId, chunkId0, servers, payloads, faults.storeInterrupted);
      ListedWhole(db.ChunksOf(fileId));
      content := DownloadFile(fileId, None);
    }

    /**
     * `downloadFile`: the listed chunks' payloads concatenated in chunk-number order; nothing
     * when no chunk is listed or one is missing from the server its row names.
     */
    method DownloadFile(fileId: int, listFailsAfter: Option<nat>) returns (content: Option<Bytes>)
      modifies storage
      ensures var listed := Listed(db.ChunksOf(fileId), listFailsAfter);
              content == if listed == [] then None else Assemble(listed, old(storage.servers))
      ensures old(storage.servers).Keys <= storage.servers.Keys
      ensures forall s, f, n :: Lookup(storage.servers, s, f, n) == Lookup(old(storage.servers), s, f, n)
    {
      var chunks := GetFileChunks(fileId, listFailsAfter);
      if |chunks| == 0 {
        return None;
      }
      content := RetrieveListedChunks(chunks);
    }

    /** Download's loop: fetch each listed chunk from the server its row names, in list order. */
    method RetrieveListedChunks(chunks: seq<FileChunk>) returns (content: Option<Bytes>)
      modifies storage
      ensures content == Assemble(chunks, old(storage.servers))
      ensures old(storage.servers).Keys <= storage.servers.Keys
      ensures forall s, f, n :: Lookup(storage.servers, s, f, n) == Lookup(old(storage.servers), s, f, n)
    {
      ghost var m0 := storage.servers;
      var assembled: Bytes := [];
      var i := 0;
      while i < |chunks|
        modifies storage
        invariant 0 <= i <= |chunks|
        invariant m0.Keys <= storage.servers.Keys
        invariant forall s, f, n :: Lookup(storage.servers, s, f, n) == Lookup(m0, s, f, n)
        invariant Assemble(chunks[..i], m0) == Some(assembled)
      {
        var client := new FileServerClient(chunks[i].serverId, storage);
        var data := client.RetrieveChunk(chunks[i].fileId, chunks[i].chunkNumber);
        if data.None? {
          AssembleMissing(chunks, i, m0);
          return None;
        }
        AssembleStep(chunks, i, m0, assembled, data.value);
        assembled := assembled + data.value;
        i := i + 1;
      }
      assert chunks[..i] == chunks;
      content := Some(assembled);
    }

    /** The first loop of `deleteFile`: each listed chunk of the file is deleted from the server its row names. */
    method DeleteListedChunks(fileId: int, chunks: seq<FileChunk>)
      requires forall i :: 0 <= i < |chunks| ==> chunks[i].fileId == fileId
      modifies storage
      ensures ChunksDeleted(storage.servers, old(storage.servers), fileId, KeysOf(chunks))
    {
      ghost var m0 := storage.servers;
      var i := 0;
      while i < |chunks|
        invariant 0 <= i <= |chunks|
        invariant ChunksDeleted(storage.servers, m0, fileId, KeysOf(chunks[..i]))
      {
        ghost var before := storage.servers;
        var client := new FileServerClient(chunks[i].serverId, storage);
        var _ := client.DeleteChunk(chunks[i].fileId, chunks[i].chunkNumber);
        ChunkDeletedStep(before, m0, fileId, KeysOf(chunks[..i]), chunks[i].serverId, chunks[i].chunkNumber, storage.servers);
        KeysOfPrefix(chunks, i);
        i := i + 1;
      }
      assert chunks[..i] == chunks;
    }

    /**
     * `deleteFile`: deletes each listed chunk from the server its row names, then the chunk
     * rows, then the file row; false when one of the two deletes throws.
     */
    method DeleteFile(fileId: int, faults: RemovalFaults) returns (ok: bool)
      modifies db, storage
      ensures old(db.Valid()) ==> db.Valid()
      ensures ok == (!faults.chunkRowsDeleteFails && !faults.fileRowDeleteFails)
      ensures ChunksDeleted(storage.servers, old(storage.servers), fileId,
                            KeysOf(Listed(old(db.ChunksOf(fileId)), faults.listFailsAfter)))
      ensures db.chunkRows == if faults.chunkRowsDeleteFails then old(db.chunkRows) else WithoutFile(old(db.chunkRows), fileId)
      ensures db.files == if ok then old(db.files) - {fileId} else old(db.files)
      ensures db.nextFileId == old(db.nextFileId) && db.nextChunkId == old(db.nextChunkId)
      ensures db.permissions == old(db.permissions) && db.users == old(db.users)
    {
      var chunks := GetFileChunks(fileId, faults.listFailsAfter);
      DeleteListedChunks(fileId, chunks);
      ok := DeleteChunkMetadata(fileId, faults.chunkRowsDeleteFails);
      if !ok {
        return;
      }
      ok := DeleteFileMetadata(fileId, faults.fileRowDeleteFails);
    }

    /**
     * `shareFile`: the requester must own the file, the grantee must exist and must not hold a
     * permission for the file yet; only then is one permission row inserted.
     */
    method ShareFile(fileId: int, userId: int, permissionType: string, currentUserId: int, faults: ShareFaults)
      returns (ok: bool)
      modifies db
      ensures ok <==> && !faults.ownerQueryFails && fileId in db.files && db.files[fileId].ownerId == currentUserId
                      && !faults.userQueryFails && userId in db.users
                      && (faults.permissionQueryFails || !old(db.HasPermission(fileId, userId)))
                      && !faults.insertFails
      ensures db.permissions == if ok then old(db.permissions) + [PermissionRow(fileId, userId, permissionType)]
                                else old(db.permissions)
      ensures !faults.permissionQueryFails && old(db.PermissionsUnique()) ==> db.PermissionsUnique()
      ensures old(db.Valid()) ==> db.Valid()
      ensures db.files == old(db.files) && db.chunkRows == old(db.chunkRows) && db.users == old(db.users)
      ensures db.nextFileId == old(db.nextFileId) && db.nextChunkId == old(db.nextChunkId)
    {
      var owner := IsFileOwner(fileId, currentUserId, faults.ownerQueryFails);
      if !owner {
        return false;
      }
      var grantee := UserExists(userId, faults.userQueryFails);
      if !grantee {
        return false;
      }
      var shared := PermissionExists(fileId, userId, faults.permissionQueryFails);
      if shared {
        return false;
      }
      if faults.insertFails {
        return false;
      }
      db.permissions := db.permissions + [PermissionRow(fileId, userId, permissionType)];
      ok := true;
    }
  }
}
