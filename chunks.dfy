/** The chunk record passed between the upload/download code and the file servers. */
module Chunks {
  import opened Common

  /**
   * A file chunk. `data` is the chunk's content stream, `None` when the record was read back
   * from the chunk table and has no content yet. The getters of the record are its destructors.
   */
  datatype FileChunk = FileChunk(
    chunkId: int,
    fileId: int,
    chunkNumber: int,
    serverId: int,
    checksum: string,
    data: Option<Bytes>)
  {
    /** `setData`: replaces the content and nothing else. */
    function SetData(newData: Option<Bytes>): (r: FileChunk)
      ensures r.data == newData
      ensures r.chunkId == chunkId && r.fileId == fileId && r.chunkNumber == chunkNumber
      ensures r.serverId == serverId && r.checksum == checksum
    {
      this.(data := newData)
    }
  }

  /** The constructor for a chunk about to be stored: no chunk id yet (Java's default 0). */
  function NewChunk(fileId: int, chunkNumber: int, serverId: int, checksum: string, data: Option<Bytes>): (c: FileChunk)
    ensures c.chunkId == 0
    ensures c.fileId == fileId && c.chunkNumber == chunkNumber && c.serverId == serverId
    ensures c.checksum == checksum && c.data == data
  {
    FileChunk(0, fileId, chunkNumber, serverId, checksum, data)
  }

  /** The constructor for a chunk read back from the chunk table: metadata only, data is null. */
  function ChunkFromRow(chunkId: int, fileId: int, chunkNumber: int, serverId: int, checksum: string): (c: FileChunk)
    ensures c.chunkId == chunkId && c.fileId == fileId && c.chunkNumber == chunkNumber
    ensures c.serverId == serverId && c.checksum == checksum
    ensures c.data == None
  {
    FileChunk(chunkId, fileId, chunkNumber, serverId, checksum, None)
  }

  /** Setting the data of a metadata-only chunk gives the chunk the data constructor would have built. */
  lemma SetDataCompletesRowChunk(fileId: int, chunkNumber: int, serverId: int, checksum: string, data: Option<Bytes>)
    ensures ChunkFromRow(0, fileId, chunkNumber, serverId, checksum).SetData(data)
         == NewChunk(fileId, chunkNumber, serverId, checksum, data)
  {
  }
}
