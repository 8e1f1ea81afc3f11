/** The document store behind `TursoDocumentRepository`, with the libSQL database replaced
    by its two tables held in memory: `documents` (a map from id to row) and
    `document_chunks` (a sequence of rows in insertion order), plus the next id each
    table's primary key hands out. Each repository call is one atomic step; a database
    statement that fails is named by the `failingStep` parameter. */
module TursoRepository {
  import opened Wrappers
  import opened JsConversions
  import opened DocumentModel
  import opened Ranking
  import opened Pagination

  datatype RepositoryError =
    | InvalidDocumentId       // `new Error("Invalid document id")`
    | StoreFailure(step: nat) // the database rejected statement number `step`; re-thrown after rollback

  /** True when statement number `failingStep` is one of the first `steps` statements run. */
  predicate FailsWithin(failingStep: Option<nat>, steps: nat) {
    failingStep.Some? && failingStep.value < steps
  }

  /** `Number.isInteger(id) && id > 0` */
  predicate IsValidDocumentId(id: Number) {
    id.IsInteger() && id.value > 0
  }

  /** The rows `saveDocument` inserts for document `documentId`: one per chunk, in input
      order, with consecutive ids from `firstId`. A missing metadata is stored as null. */
  function NewChunkRows(documentId: nat, firstId: nat, dtos: seq<DocumentChunkCreateDto>): seq<ChunkRow> {
    seq(|dtos|, i requires 0 <= i < |dtos| => ChunkRow(firstId + i, documentId, dtos[i].chunk, dtos[i].metadata, dtos[i].embedding))
  }

  /** Inserting chunk `i` extends the rows of the first `i` chunks by one. */
  lemma NewChunkRowsStep(documentId: nat, firstId: nat, dtos: seq<DocumentChunkCreateDto>, i: nat)
    requires i < |dtos|
    ensures NewChunkRows(documentId, firstId, dtos[..i + 1]) ==
      NewChunkRows(documentId, firstId, dtos[..i]) + [ChunkRow(firstId + i, documentId, dtos[i].chunk, dtos[i].metadata, dtos[i].embedding)]
  {
    assert dtos[..i + 1] == dtos[..i] + [dtos[i]];
  }

  /** Chunk ids increase in table order. */
  predicate IdsIncreasing(rows: seq<ChunkRow>) {
    forall i, j :: 0 <= i < j < |rows| ==> rows[i].id < rows[j].id
  }

  /** The chunk rows that belong to document `documentId`, in table order. */
  function ChunksOf(rows: seq<ChunkRow>, documentId: nat): (owned: seq<ChunkRow>)
    ensures |owned| <= |rows|
    ensures forall i :: 0 <= i < |owned| ==> owned[i] in rows && owned[i].documentId == documentId
  {
    if rows == [] then []
    else (if rows[0].documentId == documentId then [rows[0]] else []) + ChunksOf(rows[1..], documentId)
  }

  /** The chunk table after `ON DELETE CASCADE` removes document `documentId`. */
  function WithoutDocument(rows: seq<ChunkRow>, documentId: nat): (kept: seq<ChunkRow>)
    ensures |kept| <= |rows|
    ensures forall i :: 0 <= i < |kept| ==> kept[i] in rows && kept[i].documentId != documentId
  {
    if rows == [] then []
    else (if rows[0].documentId == documentId then [] else [rows[0]]) + WithoutDocument(rows[1..], documentId)
  }

  /** A row is one of the document's chunks exactly when it is in the table and refers to it. */
  lemma {:induction false} ChunksOfMembership(rows: seq<ChunkRow>, documentId: nat, r: ChunkRow)
    ensures r in ChunksOf(rows, documentId) <==> r in rows && r.documentId == documentId
  {
    if rows != [] {
      ChunksOfMembership(rows[1..], documentId, r);
      assert rows == [rows[0]] + rows[1..];
    }
  }

  /** The cascade keeps a row exactly when it is in the table and refers to another document. */
  lemma {:induction false} WithoutDocumentMembership(rows: seq<ChunkRow>, documentId: nat, r: ChunkRow)
    ensures r in WithoutDocument(rows, documentId) <==> r in rows && r.documentId != documentId
  {
    if rows != [] {
      WithoutDocumentMembership(rows[1..], documentId, r);
      assert rows == [rows[0]] + rows[1..];
    }
  }

  /** Every chunk id in `rows` is greater than `bound`. */
  predicate IdsAbove(rows: seq<ChunkRow>, bound: nat) {
    forall i :: 0 <= i < |rows| ==> bound < rows[i].id
  }

  lemma {:induction false} WithoutDocumentIdsAbove(rows: seq<ChunkRow>, documentId: nat, bound: nat)
    requires IdsAbove(rows, bound)
    ensures IdsAbove(WithoutDocument(rows, documentId), bound)
  {
    if rows != [] {
      var tail := rows[1..];
      assert IdsAbove(tail, bound) by {
        forall i | 0 <= i < |tail|
          ensures bound < tail[i].id
        {
          assert tail[i] == rows[i + 1];
        }
      }
      WithoutDocumentIdsAbove(tail, documentId, bound);
    }
  }

  lemma IncreasingSplit(rows: seq<ChunkRow>)
    requires rows != [] && IdsIncreasing(rows)
    ensures IdsIncreasing(rows[1..]) && IdsAbove(rows[1..], rows[0].id)
  {
    var tail := rows[1..];
    forall i, j | 0 <= i < j < |tail|
      ensures tail[i].id < tail[j].id
    {
      assert tail[i] == rows[i + 1] && tail[j] == rows[j + 1];
    }
    forall i | 0 <= i < |tail|
      ensures rows[0].id < tail[i].id
    {
      assert tail[i] == rows[i + 1];
    }
  }

  lemma IncreasingJoin(head: ChunkRow, rest: seq<ChunkRow>)
    requires IdsIncreasing(rest) && IdsAbove(rest, head.id)
    ensures IdsIncreasing([head] + rest)
  {
    var rows := [head] + rest;
    forall i, j | 0 <= i < j < |rows|
      ensures rows[i].id < rows[j].id
    {
      assert rows[j] == rest[j - 1];
      if i > 0 {
        assert rows[i] == rest[i - 1];
      }
    }
  }

  /** The cascade keeps the surviving chunks in id order. */
  lemma {:induction false} WithoutDocumentKeepsIdOrder(rows: seq<ChunkRow>, documentId: nat)
    requires IdsIncreasing(rows)
    ensures IdsIncreasing(WithoutDocument(rows, documentId))
  {
    if rows != [] {
      IncreasingSplit(rows);
      WithoutDocumentKeepsIdOrder(rows[1..], documentId);
      var rest := WithoutDocument(rows[1..], documentId);
      if rows[0].documentId != documentId {
        WithoutDocumentIdsAbove(rows[1..], documentId, rows[0].id);
        IncreasingJoin(rows[0], rest);
        assert WithoutDocument(rows, documentId) == [rows[0]] + rest;
      } else {
        assert WithoutDocument(rows, documentId) == rest;
      }
    }
  }

  lemma {:induction false} ChunksOfAppend(a: seq<ChunkRow>, b: seq<ChunkRow>, documentId: nat)
    ensures ChunksOf(a + b, documentId) == ChunksOf(a, documentId) + ChunksOf(b, documentId)
  {
    if a == [] {
      assert a + b == b;
    } else {
      assert (a + b)[0] == a[0] && (a + b)[1..] == a[1..] + b;
      ChunksOfAppend(a[1..], b, documentId);
    }
  }

  lemma {:induction false} ChunksOfNone(rows: seq<ChunkRow>, documentId: nat)
    requires forall i :: 0 <= i < |rows| ==> rows[i].documentId != documentId
    ensures ChunksOf(rows, documentId) == []
  {
    if rows != [] {
      ChunksOfNone(rows[1..], documentId);
    }
  }

  lemma {:induction false} ChunksOfAll(rows: seq<ChunkRow>, documentId: nat)
    requires forall i :: 0 <= i < |rows| ==> rows[i].documentId == documentId
    ensures ChunksOf(rows, documentId) == rows
  {
    if rows != [] {
      ChunksOfAll(rows[1..], documentId);
      assert rows == [rows[0]] + rows[1..];
    }
  }

  /** After a successful save, the new document owns exactly the chunks just inserted, in
      input order: no document without its chunks. */
  lemma SavedChunksBelongToDocument(old_rows: seq<ChunkRow>, documentId: nat, firstId: nat, dtos: seq<DocumentChunkCreateDto>)
    requires forall i :: 0 <= i < |old_rows| ==> old_rows[i].documentId != documentId
    ensures ChunksOf(old_rows + NewChunkRows(documentId, firstId, dtos), documentId) == NewChunkRows(documentId, firstId, dtos)
  {
    ChunksOfAppend(old_rows, NewChunkRows(documentId, firstId, dtos), documentId);
    ChunksOfNone(old_rows, documentId);
    ChunksOfAll(NewChunkRows(documentId, firstId, dtos), documentId);
  }

  /** The cascade removes every chunk of the deleted document and leaves the chunks of
      every other document as they were, in the same order. */
  lemma {:induction false} CascadeKeepsOthers(rows: seq<ChunkRow>, deleted: nat, other: nat)
    ensures ChunksOf(WithoutDocument(rows, deleted), deleted) == []
    ensures other != deleted ==> ChunksOf(WithoutDocument(rows, deleted), other) == ChunksOf(rows, other)
  {
    if rows != [] {
      CascadeKeepsOthers(rows[1..], deleted, other);
      var head := if rows[0].documentId == deleted then [] else [rows[0]];
      ChunksOfAppend(head, WithoutDocument(rows[1..], deleted), deleted);
      ChunksOfAppend(head, WithoutDocument(rows[1..], deleted), other);
    }
  }

  /** `mapRowToDocumentChunk`: ids become decimal strings that read back as the row's ids;
      text and metadata are carried over. */
  function MapRowToDocumentChunk(row: ChunkRow): (c: DocumentChunk)
    ensures ParseNumber(c.id) == Int(row.id) && ParseNumber(c.documentId) == Int(row.documentId)
    ensures c.chunk == row.chunk && c.metadata == row.metadata
  {
    ParseNatToString(row.id);
    ParseNatToString(row.documentId);
    DocumentChunk(NatToString(row.id), row.chunk, row.metadata, NatToString(row.documentId))
  }

  /** `c` is the view of some row of `store`. */
  ghost predicate IsStoredChunk(c: DocumentChunk, store: seq<ChunkRow>) {
    exists r :: r in store && c == MapRowToDocumentChunk(r)
  }

  lemma MappedRowsAreStored(rows: seq<ChunkRow>, store: seq<ChunkRow>, mapped: seq<DocumentChunk>)
    requires multiset(rows) <= multiset(store)
    requires |mapped| == |rows| && forall i :: 0 <= i < |rows| ==> mapped[i] == MapRowToDocumentChunk(rows[i])
    ensures forall i :: 0 <= i < |mapped| ==> IsStoredChunk(mapped[i], store)
  {
    forall i | 0 <= i < |mapped|
      ensures IsStoredChunk(mapped[i], store)
    {
      var r := rows[i];
      assert r in multiset(rows);
      assert r in store && mapped[i] == MapRowToDocumentChunk(r);
    }
  }

  /** The listing query `SELECT ... [WHERE id < below] ORDER BY id DESC LIMIT limit`. */
  datatype DocumentQuery = DocumentQuery(below: Option<nat>, limit: nat)

  class TursoDocumentRepository {
    /** The `documents` table. */
    var documents: map<nat, DocumentRow>
    /** The `document_chunks` table, in insertion order. */
    var chunks: seq<ChunkRow>
    /** The id the next inserted document receives. */
    var nextDocumentId: nat
    /** The id the next inserted chunk receives. */
    var nextChunkId: nat

    /** Ids are positive and below the next id handed out; every chunk refers to an
        existing document (no orphan chunk); chunk ids increase in table order. */
    ghost predicate Valid()
      reads this
    {
      && 1 <= nextDocumentId && 1 <= nextChunkId
      && (forall id :: id in documents ==> 1 <= id < nextDocumentId)
      && (forall i :: 0 <= i < |chunks| ==> chunks[i].documentId in documents)
      && (forall i :: 0 <= i < |chunks| ==> 1 <= chunks[i].id < nextChunkId)
      && IdsIncreasing(chunks)
    }

    /** An empty store. */
    constructor ()
      ensures Valid()
      ensures documents == map[] && chunks == [] && nextDocumentId == 1 && nextChunkId == 1
    {
      documents, chunks := map[], [];
      nextDocumentId, nextChunkId := 1, 1;
    }

    /** `transaction.rollback()`: the store returns to the state the transaction began in. */
    method Rollback(savedDocuments: map<nat, DocumentRow>, savedChunks: seq<ChunkRow>, savedNextDocumentId: nat, savedNextChunkId: nat)
      modifies this
      ensures documents == savedDocuments && chunks == savedChunks
      ensures nextDocumentId == savedNextDocumentId && nextChunkId == savedNextChunkId
    {
      documents, chunks := savedDocuments, savedChunks;
      nextDocumentId, nextChunkId := savedNextDocumentId, savedNextChunkId;
    }

    /** `saveDocument`: inserts the document, then each of its chunks, then commits, all in
        one write transaction. Statement 0 is the document insert, statement i + 1 the
        insert of chunk i, and the last one the commit. If one fails, the transaction is
        rolled back and the error re-thrown: the store is exactly as before. */
    method SaveDocument(document: DocumentCreateDto, failingStep: Option<nat>) returns (outcome: Outcome<RepositoryError>)
      requires Valid()
      modifies this
      ensures Valid()
      ensures outcome.Pass? <==> !FailsWithin(failingStep, |document.docmentChunks| + 2)
      ensures outcome.Fail? ==>
        && outcome.error == StoreFailure(failingStep.value)
        && documents == old(documents) && chunks == old(chunks)
        && nextDocumentId == old(nextDocumentId) && nextChunkId == old(nextChunkId)
      ensures outcome.Pass? ==>
        && (forall id :: id in old(documents) ==> id < old(nextDocumentId))
        && documents == old(documents)[old(nextDocumentId) := DocumentRow(document.content, document.createdAt, document.updatedAt)]
        && chunks == old(chunks) + NewChunkRows(old(nextDocumentId), old(nextChunkId), document.docmentChunks)
        && nextDocumentId == old(nextDocumentId) + 1
        && nextChunkId == old(nextChunkId) + |document.docmentChunks|
    {
      var savedDocuments, savedChunks, savedNextDocumentId, savedNextChunkId := documents, chunks, nextDocumentId, nextChunkId;
      if failingStep == Some(0) {
        Rollback(savedDocuments, savedChunks, savedNextDocumentId, savedNextChunkId);
        return Fail(StoreFailure(0));
      }
      // INSERT INTO documents ... RETURNING id
      var documentId := nextDocumentId;
      documents := documents[documentId := DocumentRow(document.content, document.createdAt, document.updatedAt)];
      nextDocumentId := nextDocumentId + 1;

      var failedAt := InsertChunks(documentId, document.docmentChunks, failingStep);
      if failedAt.Some? {
        Rollback(savedDocuments, savedChunks, savedNextDocumentId, savedNextChunkId);
        return Fail(StoreFailure(failedAt.value));
      }
      if failingStep == Some(|document.docmentChunks| + 1) {
        Rollback(savedDocuments, savedChunks, savedNextDocumentId, savedNextChunkId);
        return Fail(StoreFailure(|document.docmentChunks| + 1));
      }
      // COMMIT
      outcome := Pass;
    }

    /** One `INSERT INTO document_chunks (document_id, chunk, metadata, embedding)` of
        `saveDocument`: appends the row under the next chunk id. */
    method InsertChunk(documentId: nat, dto: DocumentChunkCreateDto)
      requires Valid() && documentId in documents
      modifies this
      ensures Valid()
      ensures chunks == old(chunks) + [ChunkRow(old(nextChunkId), documentId, dto.chunk, dto.metadata, dto.embedding)]
      ensures nextChunkId == old(nextChunkId) + 1
      ensures documents == old(documents) && nextDocumentId == old(nextDocumentId)
    {
      chunks := chunks + [ChunkRow(nextChunkId, documentId, dto.chunk, dto.metadata, dto.embedding)];
      nextChunkId := nextChunkId + 1;
    }

    /** The chunk loop of `saveDocument`: inserts the chunks in order, statement i + 1
        being the insert of chunk i, and stops at the first statement that fails, which it
        reports (the caller then rolls the transaction back). */
    method InsertChunks(documentId: nat, dtos: seq<DocumentChunkCreateDto>, failingStep: Option<nat>) returns (failedAt: Option<nat>)
      requires Valid() && documentId in documents
      modifies this
      ensures Valid()
      ensures documents == old(documents) && nextDocumentId == old(nextDocumentId)
      ensures failedAt.Some? <==> failingStep.Some? && 1 <= failingStep.value <= |dtos|
      ensures failedAt.Some? ==> failedAt == failingStep
      ensures failedAt.Some? ==>
        && chunks == old(chunks) + NewChunkRows(documentId, old(nextChunkId), dtos[..failedAt.value - 1])
        && nextChunkId == old(nextChunkId) + failedAt.value - 1
      ensures failedAt.None? ==>
        && chunks == old(chunks) + NewChunkRows(documentId, old(nextChunkId), dtos)
        && nextChunkId == old(nextChunkId) + |dtos|
    {
      var i := 0;
      while i < |dtos|
        invariant 0 <= i <= |dtos|
        invariant !(failingStep.Some? && 1 <= failingStep.value <= i)
        invariant documents == old(documents) && nextDocumentId == old(nextDocumentId)
        invariant chunks == old(chunks) + NewChunkRows(documentId, old(nextChunkId), dtos[..i])
        invariant nextChunkId == old(nextChunkId) + i
        invariant Valid()
      {
        if failingStep == Some(i + 1) {
          return Some(i + 1);
        }
        NewChunkRowsStep(documentId, old(nextChunkId), dtos, i);
        InsertChunk(documentId, dtos[i]);
        i := i + 1;
      }
      assert dtos[..i] == dtos;
      return None;
    }

    /** `getReleventChunks`: the `topK` chunks nearest to `documentVector` (all of them when
        `topK` is negative, as `LIMIT` with a negative count has no bound), nearest first,
        each one a chunk of the store. */
    method GetReleventChunks(documentVector: Embedding, topK: int, distance: Distance) returns (result: seq<DocumentChunk>)
      requires Valid()
      ensures |result| == LimitCount(topK, |chunks|)
      ensures var ranked := TopChunks(chunks, documentVector, distance, topK);
        forall i :: 0 <= i < |result| ==> result[i] == MapRowToDocumentChunk(ranked[i])
      ensures forall i :: 0 <= i < |result| ==> IsStoredChunk(result[i], chunks)
    {
      // SELECT ... FROM document_chunks ORDER BY vector_distance_cos(embedding, vector32(?)) LIMIT ?
      var rows := TopChunks(chunks, documentVector, distance, topK);
      result := seq(|rows|, i requires 0 <= i < |rows| => MapRowToDocumentChunk(rows[i]));
      MappedRowsAreStored(rows, chunks, result);
    }

    /** `deleteDocument`: rejects an id that is not a positive integer without touching the
        store; otherwise, in one write transaction, statement 0 looks the id up, statement 1
        deletes the document (its chunks go by cascade) and statement 2 commits. A missing
        id answers `false` and changes nothing; a failing statement rolls back and re-throws. */
    method DeleteDocument(id: Number, failingStep: Option<nat>) returns (result: Result<bool, RepositoryError>)
      requires Valid()
      modifies this
      ensures Valid()
      ensures nextDocumentId == old(nextDocumentId) && nextChunkId == old(nextChunkId)
      ensures !IsValidDocumentId(id) ==> result == Err(InvalidDocumentId)
      ensures IsValidDocumentId(id) && failingStep == Some(0) ==> result == Err(StoreFailure(0))
      ensures IsValidDocumentId(id) && failingStep != Some(0) && id.value !in old(documents) ==> result == Ok(false)
      ensures IsValidDocumentId(id) && id.value in old(documents) && FailsWithin(failingStep, 3) ==> result == Err(StoreFailure(failingStep.value))
      ensures result == Ok(true) <==> IsValidDocumentId(id) && id.value in old(documents) && !FailsWithin(failingStep, 3)
      ensures result != Ok(true) ==> documents == old(documents) && chunks == old(chunks)
      ensures result == Ok(true) ==>
        && documents == old(documents) - {id.value}
        && chunks == WithoutDocument(old(chunks), id.value)
    {
      if !id.IsInteger() || id.value <= 0 {
        return Err(InvalidDocumentId);
      }
      var documentId: nat := id.value;
      var savedDocuments, savedChunks, savedNextDocumentId, savedNextChunkId := documents, chunks, nextDocumentId, nextChunkId;
      // SELECT id FROM documents WHERE id = ?
      if failingStep == Some(0) {
        Rollback(savedDocuments, savedChunks, savedNextDocumentId, savedNextChunkId);
        return Err(StoreFailure(0));
      }
      var existing := documentId in documents;
      if !existing {
        Rollback(savedDocuments, savedChunks, savedNextDocumentId, savedNextChunkId);
        return Ok(false);
      }
      // DELETE FROM documents WHERE id = ?, with ON DELETE CASCADE on document_chunks
      if failingStep == Some(1) {
        Rollback(savedDocuments, savedChunks, savedNextDocumentId, savedNextChunkId);
        return Err(StoreFailure(1));
      }
      WithoutDocumentKeepsIdOrder(chunks, documentId);
      documents := documents - {documentId};
      chunks := WithoutDocument(chunks, documentId);
      // COMMIT
      if failingStep == Some(2) {
        Rollback(savedDocuments, savedChunks, savedNextDocumentId, savedNextChunkId);
        return Err(StoreFailure(2));
      }
      result := Ok(true);
    }

    /** Runs a listing query against the `documents` table. A query without `WHERE` has
        the bound `nextDocumentId`, which every stored id is below when `Valid()` holds. */
    function Select(query: DocumentQuery): (ids: seq<nat>)
      reads this
    {
      var all := IdsBelow(documents.Keys, if query.below.Some? then query.below.value else nextDocumentId);
      if |all| <= query.limit then all else all[..query.limit]
    }

    /** `listDocuments`: the page `ListPage` describes, computed as `listDocuments` computes
        it, by fetching one row more than a page and testing whether it came back. */
    method ListDocuments(limit: Number, cursor: Option<string>) returns (page: CursorPage<DocumentListItem>)
      requires Valid()
      ensures page == ListPage(documents, nextDocumentId, limit, cursor)
      ensures cursor.None? ==> forall id :: id in documents ==> id in MatchingIds(documents, nextDocumentId, cursor)
    {
      var pageSize := PageSize(limit);
      // the cursor is the last id of the previous page; anything else means no filter
      var lastId := CursorPosition(cursor);
      var query := DocumentQuery(None, 0);
      if lastId > 0 {
        query := query.(below := Some(lastId));
      }
      query := query.(limit := pageSize + 1);
      var rows := Select(query);
      assert rows == FetchPlusOne(MatchingIds(documents, nextDocumentId, cursor), pageSize);
      var hasMore := |rows| > pageSize;
      var itemsSlice := if hasMore then rows[..pageSize] else rows;
      var items := ListItems(documents, itemsSlice);
      var nextCursor: Option<string> := None;
      if hasMore {
        var last := itemsSlice[|itemsSlice| - 1];
        nextCursor := Some(NatToString(last));
      }
      page := CursorPage(items, nextCursor);
      FetchOneExtra(documents, nextDocumentId, limit, cursor);
      FirstPageCoversAll(documents, nextDocumentId);
    }
  }

  /** Deleting an id a second time answers `false`, not an error, whatever the first call
      answered. */
  method DeleteTwice(repository: TursoDocumentRepository, id: Number) returns (first: Result<bool, RepositoryError>, second: Result<bool, RepositoryError>)
    requires repository.Valid()
    modifies repository
    ensures IsValidDocumentId(id) ==> first.Ok? && second == Ok(false)
    ensures !IsValidDocumentId(id) ==> first == second == Err(InvalidDocumentId)
  {
    first := repository.DeleteDocument(id, None);
    second := repository.DeleteDocument(id, None);
  }

  /** The rows a query with `LIMIT size + 1` returns from the matching ids `all`. */
  function FetchPlusOne(all: seq<nat>, size: nat): (rows: seq<nat>)
    ensures |rows| <= size + 1 && rows <= all
  {
    if |all| <= size + 1 then all else all[..size + 1]
  }

  /** Fetching one row more than a page tells whether more rows match, and cutting the
      extra row off leaves the page `ListPage` describes. */
  lemma FetchOneExtra(documents: map<nat, DocumentRow>, nextId: nat, limit: Number, cursor: Option<string>)
    ensures var size := PageSize(limit);
      var rows := FetchPlusOne(MatchingIds(documents, nextId, cursor), size);
      var slice := if |rows| > size then rows[..size] else rows;
      ListPage(documents, nextId, limit, cursor) ==
        CursorPage(ListItems(documents, slice), if |rows| > size then Some(NatToString(slice[|slice| - 1])) else None)
  {
    var all := MatchingIds(documents, nextId, cursor);
    var size := PageSize(limit);
    var rows := FetchPlusOne(all, size);
    if |all| > size {
      assert rows[..size] == all[..size];
    }
  }
}
