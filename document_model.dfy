/** Record types of the document repository contract (`DocumentCreateDto`,
    `DocumentChunk`, `DocumentListItem`, `CursorPage`) and of the two tables the
    repository keeps them in. */
module DocumentModel {
  import opened Wrappers

  /** A chunk embedding, a JavaScript `number[]`. */
  type Embedding = seq<real>

  /** One chunk to insert together with its parent document. */
  datatype DocumentChunkCreateDto = DocumentChunkCreateDto(chunk: string, metadata: Option<string>, embedding: Embedding)

  /** A document with all of its chunks; the field is spelled `docmentChunks`, as in
      `DocumentCreateDto` of `document-repository.ts`. */
  datatype DocumentCreateDto = DocumentCreateDto(
    content: string,
    createdAt: string,
    updatedAt: string,
    docmentChunks: seq<DocumentChunkCreateDto>)

  /** A chunk as a similarity query returns it; both ids are decimal strings. */
  datatype DocumentChunk = DocumentChunk(id: string, chunk: string, metadata: Option<string>, documentId: string)

  /** The listing view of a document. */
  datatype DocumentListItem = DocumentListItem(id: int, content: string, createdAt: string, updatedAt: string)

  /** One page of a cursor-paginated listing; `nextCursor` is absent on the last page. */
  datatype CursorPage<T> = CursorPage(items: seq<T>, nextCursor: Option<string>)

  /** A row of the `documents` table, without its id (the id is the key it is stored under). */
  datatype DocumentRow = DocumentRow(content: string, createdAt: string, updatedAt: string)

  /** A row of the `document_chunks` table. */
  datatype ChunkRow = ChunkRow(id: nat, documentId: nat, chunk: string, metadata: Option<string>, embedding: Embedding)
}
