/**
 * The relational tables the file manager reads and writes (`files`, `file_chunks`,
 * `file_permissions`, `users`), as in-memory state. Keys come from auto-increment counters.
 */
module Metadata {

  /** A row of `files`. */
  datatype FileRow = FileRow(originalName: string, storagePath: string, size: int, ownerId: int, fileType: string)

  /** A row of `file_chunks`. */
  datatype ChunkRow = ChunkRow(chunkId: int, fileId: int, chunkNumber: int, serverId: int, checksum: string)

  /** A row of `file_permissions`. */
  datatype PermissionRow = PermissionRow(fileId: int, userId: int, permissionType: string)

  /** `WHERE file_id = ?` over the chunk table, in table order. */
  function WhereFile(rows: seq<ChunkRow>, fileId: int): (r: seq<ChunkRow>)
    ensures |r| <= |rows|
    ensures forall i :: 0 <= i < |r| ==> r[i].fileId == fileId
    ensures forall x :: x in r <==> x in rows && x.fileId == fileId
  {
    if |rows| == 0 then []
    else WhereFile(rows[..|rows| - 1], fileId)
         + (if rows[|rows| - 1].fileId == fileId then [rows[|rows| - 1]] else [])
  }

  /** `DELETE FROM file_chunks WHERE file_id = ?`: the rows that remain, in table order. */
  function WithoutFile(rows: seq<ChunkRow>, fileId: int): (r: seq<ChunkRow>)
    ensures |r| <= |rows|
    ensures forall i :: 0 <= i < |r| ==> r[i].fileId != fileId
    ensures forall x :: x in r <==> x in rows && x.fileId != fileId
  {
    if |rows| == 0 then []
    else WithoutFile(rows[..|rows| - 1], fileId)
         + (if rows[|rows| - 1].fileId != fileId then [rows[|rows| - 1]] else [])
  }

  /** Selecting a file's rows distributes over appending rows to the table. */
  lemma {:induction false} WhereFileAppend(a: seq<ChunkRow>, b: seq<ChunkRow>, fileId: int)
    ensures WhereFile(a + b, fileId) == WhereFile(a, fileId) + WhereFile(b, fileId)
  {
    if |b| > 0 {
      var b' := b[..|b| - 1];
      assert (a + b)[..|a + b| - 1] == a + b';
      WhereFileAppend(a, b', fileId);
    } else {
      assert a + b == a;
    }
  }

  /** Deleting a file's rows distributes over appending rows to the table. */
  lemma {:induction false} WithoutFileAppend(a: seq<ChunkRow>, b: seq<ChunkRow>, fileId: int)
    ensures WithoutFile(a + b, fileId) == WithoutFile(a, fileId) + WithoutFile(b, fileId)
  {
    if |b| > 0 {
      var b' := b[..|b| - 1];
      assert (a + b)[..|a + b| - 1] == a + b';
      WithoutFileAppend(a, b', fileId);
    } else {
      assert a + b == a;
    }
  }

  /** Deleting the rows of a file that has none leaves the table as it is. */
  lemma {:induction false} WithoutAbsentFile(rows: seq<ChunkRow>, fileId: int)
    requires forall i :: 0 <= i < |rows| ==> rows[i].fileId != fileId
    ensures WithoutFile(rows, fileId) == rows
  {
    if |rows| > 0 {
      var init := rows[..|rows| - 1];
      WithoutAbsentFile(init, fileId);
      assert WithoutFile(rows, fileId) == init + [rows[|rows| - 1]];
      assert rows == init + [rows[|rows| - 1]];
    }
  }

  /** Selecting the rows of a file that has none gives nothing. */
  lemma {:induction false} WhereAbsentFile(rows: seq<ChunkRow>, fileId: int)
    requires forall i :: 0 <= i < |rows| ==> rows[i].fileId != fileId
    ensures WhereFile(rows, fileId) == []
  {
    if |rows| > 0 {
      WhereAbsentFile(rows[..|rows| - 1], fileId);
    }
  }

  /** Deleting a file's rows from rows that all belong to it leaves nothing. */
  lemma {:induction false} WithoutOnlyFile(rows: seq<ChunkRow>, fileId: int)
    requires forall i :: 0 <= i < |rows| ==> rows[i].fileId == fileId
    ensures WithoutFile(rows, fileId) == []
  {
    if |rows| > 0 {
      WithoutOnlyFile(rows[..|rows| - 1], fileId);
    }
  }

  /** Selecting a file's rows from rows that all belong to it keeps them all. */
  lemma {:induction false} WhereOnlyFile(rows: seq<ChunkRow>, fileId: int)
    requires forall i :: 0 <= i < |rows| ==> rows[i].fileId == fileId
    ensures WhereFile(rows, fileId) == rows
  {
    if |rows| > 0 {
      var init := rows[..|rows| - 1];
      WhereOnlyFile(init, fileId);
      assert WhereFile(rows, fileId) == init + [rows[|rows| - 1]];
      assert rows == init + [rows[|rows| - 1]];
    }
  }

  /** Ascending by chunk number. */
  ghost predicate SortedByNumber(rows: seq<ChunkRow>)
  {
    forall i, j :: 0 <= i < j < |rows| ==> rows[i].chunkNumber <= rows[j].chunkNumber
  }

  /** Inserts `x` before the first row whose chunk number is not smaller. */
  function InsertByNumber(x: ChunkRow, rows: seq<ChunkRow>): (r: seq<ChunkRow>)
    requires SortedByNumber(rows)
    ensures SortedByNumber(r)
    ensures multiset(r) == multiset(rows) + multiset{x}
    ensures |rows| > 0 && x.chunkNumber <= rows[0].chunkNumber ==> r == [x] + rows
  {
    if |rows| == 0 || x.chunkNumber <= rows[0].chunkNumber then [x] + rows
    else
      assert rows == [rows[0]] + rows[1..];
      var rest := InsertByNumber(x, rows[1..]);
      HeadBoundsTail(rows);
      NumbersAtLeast(rest, rows[1..], x, rows[0].chunkNumber);
      [rows[0]] + rest
  }

  /** The first row of a sorted table has the least chunk number of the rest. */
  lemma HeadBoundsTail(rows: seq<ChunkRow>)
    requires SortedByNumber(rows) && |rows| > 0
    ensures forall i :: 0 <= i < |rows[1..]| ==> rows[0].chunkNumber <= rows[1..][i].chunkNumber
  {
    forall i | 0 <= i < |rows[1..]|
      ensures rows[0].chunkNumber <= rows[1..][i].chunkNumber
    {
      assert rows[1..][i] == rows[i + 1];
    }
  }

  /** A lower bound on the chunk numbers of `rows` and of `x` bounds every row of a rearrangement of both. */
  lemma NumbersAtLeast(r: seq<ChunkRow>, rows: seq<ChunkRow>, x: ChunkRow, lo: int)
    requires multiset(r) == multiset(rows) + multiset{x}
    requires forall i :: 0 <= i < |rows| ==> lo <= rows[i].chunkNumber
    requires lo <= x.chunkNumber
    ensures forall k :: 0 <= k < |r| ==> lo <= r[k].chunkNumber
  {
    forall k | 0 <= k < |r|
      ensures lo <= r[k].chunkNumber
    {
      assert r[k] in multiset(rows) + multiset{x};
      if r[k] != x {
        assert r[k] in rows;
      }
    }
  }

  /** `ORDER BY chunk_number`: a stable insertion sort (the order among equal numbers is the database's choice). */
  function SortByNumber(rows: seq<ChunkRow>): (r: seq<ChunkRow>)
    ensures SortedByNumber(r)
    ensures multiset(r) == multiset(rows)
    ensures |r| == |rows|
  {
    if |rows| == 0 then []
    else
      assert rows == [rows[0]] + rows[1..];
      InsertByNumber(rows[0], SortByNumber(rows[1..]))
  }

  /** Rows already in chunk-number order come back unchanged from the sort. */
  lemma {:induction false} SortSortedIsIdentity(rows: seq<ChunkRow>)
    requires SortedByNumber(rows)
    ensures SortByNumber(rows) == rows
  {
    if |rows| > 0 {
      assert SortedByNumber(rows[1..]);
      SortSortedIsIdentity(rows[1..]);
      assert rows == [rows[0]] + rows[1..];
    }
  }

  /** The database the file manager talks to. */
  class MetadataStore {
    var files: map<int, FileRow>
    var chunkRows: seq<ChunkRow>
    var permissions: seq<PermissionRow>
    var users: set<int>
    /** The key the next `files` insert receives. */
    var nextFileId: int
    /** The key the next `file_chunks` insert receives. */
    var nextChunkId: int

    /** Keys are positive and every file id in use was handed out by the counter. */
    ghost predicate Valid()
      reads this
    {
      && nextFileId >= 1
      && (forall f :: f in files ==> 1 <= f < nextFileId)
      && (forall i :: 0 <= i < |chunkRows| ==> chunkRows[i].fileId < nextFileId)
    }

    constructor (users: set<int>)
      ensures Valid()
      ensures files == map[] && chunkRows == [] && permissions == []
      ensures this.users == users && nextFileId == 1 && nextChunkId == 1
    {
      files := map[];
      chunkRows := [];
      permissions := [];
      this.users := users;
      nextFileId := 1;
      nextChunkId := 1;
    }

    /** `SELECT * FROM file_chunks WHERE file_id = ? ORDER BY chunk_number`. */
    function ChunksOf(fileId: int): (r: seq<ChunkRow>)
      reads this
      ensures SortedByNumber(r)
      ensures forall i :: 0 <= i < |r| ==> r[i].fileId == fileId
      ensures multiset(r) == multiset(WhereFile(chunkRows, fileId))
    {
      var selected := WhereFile(chunkRows, fileId);
      var r := SortByNumber(selected);
      assert forall i :: 0 <= i < |r| ==> r[i] in multiset(selected);
      r
    }

    /** No two permission rows are for the same (file, user) pair. */
    ghost predicate PermissionsUnique()
      reads this
    {
      forall i, j :: 0 <= i < j < |permissions| ==>
        permissions[i].fileId != permissions[j].fileId || permissions[i].userId != permissions[j].userId
    }

    /** Some row of `file_permissions` is for (`fileId`, `userId`). */
    predicate HasPermission(fileId: int, userId: int)
      reads this
    {
      exists i :: 0 <= i < |permissions| && permissions[i].fileId == fileId && permissions[i].userId == userId
    }
  }
}
