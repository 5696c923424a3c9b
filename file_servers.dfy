/**
 * The simulated file servers: one process-wide nested map
 * serverId -> fileId -> chunkNumber -> payload, and a client handle per server id.
 */
module FileServers {
  import opened Common
  import opened Chunks

  /** The shape of the static `serverStorage` map. */
  type Storage = map<int, map<int, map<int, Bytes>>>

  /** The payload stored on `server` for (`fileId`, `chunkNumber`), if any. */
  function Lookup(m: Storage, server: int, fileId: int, chunkNumber: int): Option<Bytes>
  {
    if server in m && fileId in m[server] && chunkNumber in m[server][fileId]
    then Some(m[server][fileId][chunkNumber])
    else None
  }

  /** `serverStorage.putIfAbsent(server, new map)`: gives the server a map, never replaces one. */
  function WithServer(m: Storage, server: int): (r: Storage)
    ensures server in r && r.Keys == m.Keys + {server}
    ensures server in m ==> r == m
    ensures server !in m ==> r[server] == map[]
    ensures forall s :: s in m ==> r[s] == m[s]
    ensures forall s, f, n :: Lookup(r, s, f, n) == Lookup(m, s, f, n)
  {
    if server in m then m else m[server := map[]]
  }

  /** `putIfAbsent(fileId, new map)` then `put(chunkNumber, data)` on the server's map. */
  function Put(m: Storage, server: int, fileId: int, chunkNumber: int, data: Bytes): (r: Storage)
    requires server in m
    ensures r.Keys == m.Keys
    ensures forall s :: s in m && s != server ==> r[s] == m[s]
    ensures r[server].Keys == m[server].Keys + {fileId}
    ensures forall f :: f in m[server] && f != fileId ==> r[server][f] == m[server][f]
    ensures Lookup(r, server, fileId, chunkNumber) == Some(data)
    ensures forall s, f, n :: (s != server || f != fileId || n != chunkNumber) ==> Lookup(r, s, f, n) == Lookup(m, s, f, n)
  {
    var files := m[server];
    var chunks := if fileId in files then files[fileId] else map[];
    m[server := files[fileId := chunks[chunkNumber := data]]]
  }

  /** `fileChunks.get(fileId).remove(chunkNumber)` on a chunk that is present. */
  function RemoveChunk(m: Storage, server: int, fileId: int, chunkNumber: int): (r: Storage)
    requires Lookup(m, server, fileId, chunkNumber).Some?
    ensures r.Keys == m.Keys
    ensures forall s :: s in m && s != server ==> r[s] == m[s]
    ensures r[server].Keys == m[server].Keys
    ensures forall f :: f in m[server] && f != fileId ==> r[server][f] == m[server][f]
    ensures Lookup(r, server, fileId, chunkNumber) == None
    ensures forall s, f, n :: (s != server || f != fileId || n != chunkNumber) ==> Lookup(r, s, f, n) == Lookup(m, s, f, n)
  {
    var files := m[server];
    m[server := files[fileId := files[fileId] - {chunkNumber}]]
  }

  /** `serverStorage.get(server).remove(fileId)`: drops the file's whole chunk map on that server. */
  function RemoveFile(m: Storage, server: int, fileId: int): (r: Storage)
    requires server in m
    ensures r.Keys == m.Keys
    ensures forall s :: s in m && s != server ==> r[s] == m[s]
    ensures r[server].Keys == m[server].Keys - {fileId}
    ensures forall f :: f in m[server] && f != fileId ==> r[server][f] == m[server][f]
    ensures forall n :: Lookup(r, server, fileId, n) == None
    ensures forall s, f, n :: (s != server || f != fileId) ==> Lookup(r, s, f, n) == Lookup(m, s, f, n)
    ensures fileId !in m[server] ==> r == m
  {
    if fileId in m[server] then m[server := m[server] - {fileId}] else m
  }

  /** A later store to the same key overwrites the earlier one: the first payload is unobservable. */
  lemma SecondStoreOverwrites(m: Storage, server: int, fileId: int, chunkNumber: int, first: Bytes, second: Bytes)
    requires server in m
    ensures Put(Put(m, server, fileId, chunkNumber, first), server, fileId, chunkNumber, second)
         == Put(m, server, fileId, chunkNumber, second)
  {
    var chunks := if fileId in m[server] then m[server][fileId] else map[];
    var m1 := Put(m, server, fileId, chunkNumber, first);
    assert m1[server][fileId] == chunks[chunkNumber := first];
    assert m1[server][fileId][chunkNumber := second] == chunks[chunkNumber := second];
    assert m1[server][fileId := chunks[chunkNumber := second]] == m[server][fileId := chunks[chunkNumber := second]];
  }

  /** Removing a chunk that was just stored on an empty key gives back the original lookups. */
  lemma StoreThenDeleteRestoresLookups(m: Storage, server: int, fileId: int, chunkNumber: int, data: Bytes)
    requires server in m
    requires Lookup(m, server, fileId, chunkNumber).None?
    ensures forall s, f, n :: Lookup(RemoveChunk(Put(m, server, fileId, chunkNumber, data), server, fileId, chunkNumber), s, f, n)
                          == Lookup(m, s, f, n)
  {
  }

  /** The process-wide `serverStorage` map; every client refers to this one object. */
  class ServerStorage {
    var servers: Storage

    constructor ()
      ensures servers == map[]
    {
      servers := map[];
    }
  }

  /** A handle for one server. Clients with the same server id read and write the same map. */
  class FileServerClient {
    const serverId: int
    const storage: ServerStorage

    /** The server has a map in the shared storage (the constructor's `putIfAbsent`). */
    ghost predicate Valid()
      reads this, storage
    {
      serverId in storage.servers
    }

    constructor (serverId: int, storage: ServerStorage)
      modifies storage
      ensures this.serverId == serverId && this.storage == storage
      ensures storage.servers == WithServer(old(storage.servers), serverId)
      ensures Valid()
    {
      this.serverId := serverId;
      this.storage := storage;
      new;
      storage.servers := WithServer(storage.servers, serverId);
    }

    /**
     * `storeChunk`. `interrupted` says whether the simulated network delay was interrupted;
     * that path returns false before touching the map.
     */
    method StoreChunk(chunk: FileChunk, interrupted: bool) returns (ok: bool)
      requires Valid()
      requires chunk.data.Some?
      modifies storage
      ensures Valid()
      ensures ok == !interrupted
      ensures storage.servers == if ok then Put(old(storage.servers), serverId, chunk.fileId, chunk.chunkNumber, chunk.data.value)
                                 else old(storage.servers)
    {
      if interrupted {
        return false;
      }
      storage.servers := Put(storage.servers, serverId, chunk.fileId, chunk.chunkNumber, chunk.data.value);
      ok := true;
    }

    /** `retrieveChunk`: the stored payload, or null when the file or the chunk is absent. */
    method RetrieveChunk(fileId: int, chunkNumber: int) returns (data: Option<Bytes>)
      ensures data.Some? <==> serverId in storage.servers && fileId in storage.servers[serverId]
                              && chunkNumber in storage.servers[serverId][fileId]
      ensures data.Some? ==> data.value == storage.servers[serverId][fileId][chunkNumber]
      ensures data == Lookup(storage.servers, serverId, fileId, chunkNumber)
    {
      data := None;
      if serverId in storage.servers {
        var fileChunks := storage.servers[serverId];
        if fileId in fileChunks && chunkNumber in fileChunks[fileId] {
          data := Some(fileChunks[fileId][chunkNumber]);
        }
      }
    }

    /** `deleteChunk`: removes the chunk and answers true when it exists, else changes nothing. */
    method DeleteChunk(fileId: int, chunkNumber: int) returns (ok: bool)
      modifies storage
      ensures ok == Lookup(old(storage.servers), serverId, fileId, chunkNumber).Some?
      ensures storage.servers == if ok then RemoveChunk(old(storage.servers), serverId, fileId, chunkNumber)
                                 else old(storage.servers)
    {
      ok := serverId in storage.servers && fileId in storage.servers[serverId]
            && chunkNumber in storage.servers[serverId][fileId];
      if ok {
        storage.servers := RemoveChunk(storage.servers, serverId, fileId, chunkNumber);
      }
    }

    /**
     * `deleteAllFileChunks`: drops the file's map on this server only; true when a map was
     * there, even an empty one that `deleteChunk` emptied.
     */
    method DeleteAllFileChunks(fileId: int) returns (ok: bool)
      requires Valid()
      modifies storage
      ensures Valid()
      ensures ok == (fileId in old(storage.servers)[serverId])
      ensures storage.servers == RemoveFile(old(storage.servers), serverId, fileId)
    {
      ok := fileId in storage.servers[serverId];
      storage.servers := RemoveFile(storage.servers, serverId, fileId);
    }
  }

  /** Emptying a file's chunk map chunk by chunk leaves the map behind: clearing still answers true. */
  lemma ClearAfterDeletingLastChunk(m: Storage, server: int, fileId: int, chunkNumber: int)
    requires server in m && fileId in m[server] && m[server][fileId].Keys == {chunkNumber}
    ensures fileId in RemoveChunk(m, server, fileId, chunkNumber)[server]
    ensures forall n :: Lookup(RemoveChunk(m, server, fileId, chunkNumber), server, fileId, n) == None
  {
  }
}
