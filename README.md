# tcn-chatbot document store and configuration, in Dafny

This project models two parts of the chatbot backend.

**The document repository** is `TursoDocumentRepository`. It stores documents and their embedded chunks in a libSQL (Turso) database. It serves four operations:

- save a document with its chunks, in one transaction;
- return the `topK` chunks nearest to a query vector;
- delete a document, with its chunks going by cascade;
- list documents newest first, with a cursor.

Here the database is replaced by its two tables held in the fields of a class:

- `documents` is a map from id to row;
- `chunks` is the chunk table in insertion order;
- two counters hold the next id each table hands out.

Each repository call is one atomic method. A statement the database rejects is named by a `failingStep` parameter. The model then shows the transaction rolled back and the error re-thrown.

The distance behind `ORDER BY vector_distance_cos(...)` is an uninterpreted function into `real`. JavaScript's `Number(...)` and `String(...)` on ids and cursors are modelled for integers. The listing is specified by a function, `Pagination.ListPage`. The lemmas prove that:

- pages are newest first and bounded by the page size;
- the next cursor exists exactly when more documents match;
- following the cursor neither repeats nor skips a document.

**The configuration** is the Zod schema `configSchema`, `parseConfigFromEnv` and the memoising `getConfig`. The schema is a function from the object handed to `parse` to either the parsed `Config` or the issues found. Functions state its acceptance condition field by field, its defaults, and the production rule. `getConfig`'s module-level cache is the field of a class `ConfigCache`.

Files:

- `wrappers.dfy`: `Option`, `Result` and `Outcome`.
- `js_conversions.dfy`: JavaScript numbers, `Number(string)` and `String(integer)`.
- `document_model.dfy`: the DTOs of `document-repository.ts`, `CursorPage`, and the table rows.
- `ranking.dfy`: ordering by distance and `LIMIT`.
- `pagination.dfy`: page size, cursor and the newest-first listing.
- `turso_document_repository.dfy`: the repository class.
- `configuration.dfy`: schema, environment parsing and cache.

## Model

| member | source | states |
|---|---|---|
| JsConversions.NatToString | backend/src/services/turso-document-repository.ts:162-165 | `String(id)` of a non-negative integer is a non-empty run of decimal digits with no leading zero |
| JsConversions.ParseNatToString | backend/src/services/turso-document-repository.ts:121 | `Number(String(n))` is `n` for every non-negative integer |
| JsConversions.DigitsValueOfNatToString | backend/src/services/turso-document-repository.ts:121 | the decimal digits of `String(n)` have value `n` |
| JsConversions.NatToStringOfDigitsValue | backend/src/services/turso-document-repository.ts:154 | a canonical decimal numeral is the `String` of its own value (the other direction of the round trip) |
| Pagination.PageSize | backend/src/services/turso-document-repository.ts:113-116 | the page size is the limit clamped to 1..100 when the limit is finite, and 20 otherwise |
| Pagination.CursorPosition | backend/src/services/turso-document-repository.ts:118-123 | a present, non-empty cursor that reads as a finite number of at least 0 gives that number, and a positive `lastId` comes only from such a cursor; a missing or empty cursor gives 0, which means no filter |
| Pagination.CursorOfId | backend/src/services/turso-document-repository.ts:151-155 | a cursor made from an id reads back as that id |
| Pagination.IdsBelow | backend/src/services/turso-document-repository.ts:131-135 | the keys below a bound, newest first, each a key below the bound |
| Pagination.IdsBelowDescending | backend/src/services/turso-document-repository.ts:135 | `ORDER BY id DESC`: the ids are strictly descending |
| Pagination.IdsBelowComplete | backend/src/services/turso-document-repository.ts:131-135 | every key below the bound is listed |
| Pagination.IdsBelowSuffix | backend/src/services/turso-document-repository.ts:131-135 | the keys below the j-th listed id are the listing after position j |
| Pagination.MatchingIds | backend/src/services/turso-document-repository.ts:125-135 | the ids matched by the listing query are ids of stored documents |
| Pagination.ListItems | backend/src/services/turso-document-repository.ts:144-149 | one list item per id, in order, carrying that document's fields |
| Pagination.ListPageProperties | backend/src/services/turso-document-repository.ts:138-157 | a page holds min(page size, matches) items, newest first, all stored and below the cursor; `nextCursor` is present exactly when more match, and then reads back as the last item's id |
| Pagination.FirstPageCoversAll | backend/src/services/turso-document-repository.ts:118-135 | without a cursor the query matches every stored document |
| Pagination.NextCursorResumes | backend/src/services/turso-document-repository.ts:151-155 | the query with the next cursor matches exactly the matches after the current page: nothing repeated, nothing skipped |
| Ranking.InsertByDistance | backend/src/services/turso-document-repository.ts:51 | inserting a row adds exactly that row to the multiset of rows |
| Ranking.InsertNoneNearer | backend/src/services/turso-document-repository.ts:51 | inserting a row no nearer than `d` keeps all rows no nearer than `d` |
| Ranking.InsertKeepsOrder | backend/src/services/turso-document-repository.ts:51 | inserting into rows ordered by distance keeps them ordered |
| Ranking.SortByDistance | backend/src/services/turso-document-repository.ts:48-51 | `ORDER BY` distance: a permutation of the rows in non-decreasing distance |
| Ranking.TopChunks | backend/src/services/turso-document-repository.ts:48-53 | `LIMIT topK`: min(topK, rows) rows (all rows for a negative topK), nearest first, taken from the table, none farther than a row left out |
| Ranking.TopSplit | backend/src/services/turso-document-repository.ts:51-52 | a prefix of the sorted rows is a sub-multiset of the rows and no row outside it is nearer |
| TursoRepository.NewChunkRowsStep | backend/src/services/turso-document-repository.ts:22-32 | each loop turn appends the row of the next chunk, with the next id |
| TursoRepository.ChunksOf | backend/src/services/turso-document-repository.ts:22-32 | the chunks of a document are table rows that refer to it |
| TursoRepository.ChunksOfMembership | backend/src/services/turso-document-repository.ts:22-32 | a row is a chunk of the document exactly when it is in the table and refers to the document |
| TursoRepository.ChunksOfAppend | backend/src/services/turso-document-repository.ts:22-32 | a document's chunks in appended tables are its chunks in each, in order |
| TursoRepository.SavedChunksBelongToDocument | backend/src/services/turso-document-repository.ts:14-34 | after a save the new document owns exactly the inserted chunks, in input order |
| TursoRepository.WithoutDocument | backend/src/services/turso-document-repository.ts:89-93 | the cascade leaves only rows of the table that refer to other documents |
| TursoRepository.WithoutDocumentMembership | backend/src/services/turso-document-repository.ts:89-93 | the cascade keeps a row exactly when it is in the table and refers to another document |
| TursoRepository.WithoutDocumentKeepsIdOrder | backend/src/services/turso-document-repository.ts:89-93 | the cascade keeps the surviving chunks in id order |
| TursoRepository.CascadeKeepsOthers | backend/src/services/turso-document-repository.ts:89-93 | after the cascade the deleted document has no chunks and every other document keeps its chunks, in order |
| TursoRepository.MapRowToDocumentChunk | backend/src/services/turso-document-repository.ts:160-167 | the chunk's id strings read back as the row's ids; chunk text and metadata are carried over |
| TursoRepository.MappedRowsAreStored | backend/src/services/turso-document-repository.ts:57 | the chunks mapped from rows drawn from the table are views of stored rows |
| TursoRepository.TursoDocumentRepository.constructor | backend/src/services/turso-document-repository.ts:11 | an empty store that satisfies the invariant |
| TursoRepository.TursoDocumentRepository.Rollback | backend/src/services/turso-document-repository.ts:36 | the store returns to the state the transaction started from |
| TursoRepository.TursoDocumentRepository.SaveDocument | backend/src/services/turso-document-repository.ts:13-40 | success exactly when no statement fails. It adds one document under an unused id, plus its chunk rows in input order under consecutive ids, keeping the metadata as given. Any failure re-throws that statement's error with the store unchanged. The invariant rules out orphan chunks |
| TursoRepository.TursoDocumentRepository.InsertChunk | backend/src/services/turso-document-repository.ts:23-31 | one chunk insert appends its row under the next chunk id and keeps the invariant |
| TursoRepository.TursoDocumentRepository.InsertChunks | backend/src/services/turso-document-repository.ts:22-32 | the loop inserts every chunk in order unless a chunk insert fails; then it reports exactly that statement, with the rows of the chunks before it already appended inside the open transaction |
| TursoRepository.TursoDocumentRepository.GetReleventChunks | backend/src/services/turso-document-repository.ts:42-69 | min(topK, chunks) results, the mapped rows of `TopChunks` in order, each a view of a stored chunk |
| TursoRepository.TursoDocumentRepository.DeleteDocument | backend/src/services/turso-document-repository.ts:71-106 | an invalid id is rejected before any statement; a missing id answers false; a failing statement re-throws; every answer but true leaves the store unchanged; true removes the document and exactly its chunks |
| TursoRepository.TursoDocumentRepository.ListDocuments | backend/src/services/turso-document-repository.ts:108-158 | the page built by fetching one extra row is `ListPage`, whose properties `ListPageProperties` proves; without a cursor the query matches every stored document |
| TursoRepository.DeleteTwice | backend/src/services/turso-document-repository.ts:79-87 | a second delete of a valid id answers false, not an error |
| TursoRepository.FetchPlusOne | backend/src/services/turso-document-repository.ts:136 | `LIMIT pageSize + 1` returns a prefix of the matches of at most that length |
| TursoRepository.FetchOneExtra | backend/src/services/turso-document-repository.ts:136-155 | testing for the extra row tells whether more match, and cutting it off gives the page and cursor of `ListPage` |
| Configuration.RequiredNonEmpty | backend/src/config.ts:7 | `z.string().nonempty()` passes exactly a present non-empty string, and reports a missing one as required |
| Configuration.OptionalNonEmpty | backend/src/config.ts:11 | `.optional()` token: passes when absent or non-empty |
| Configuration.OptionalUrl | backend/src/config.ts:10 | `z.url().optional()`: passes when absent or a URL |
| Configuration.ConfigSchemaParse | backend/src/config.ts:4-27 | parse succeeds exactly when the key, user name and password are non-empty, a given URL is a URL, a given token is non-empty, and outside development both are truthy. Defaults apply to the model names and `isDevelopment`. Missing required fields and an empty key are reported. The production message is reported exactly when no required field is undefined and the production rule fails, also alongside empty-string or URL issues |
| Configuration.ParseConfigFromEnv | backend/src/config.ts:33-48 | the same condition in terms of the environment variables. `isDevelopment` holds exactly when `NODE_ENV` is not `"production"`. The model names default when unset. Production configurations carry both Turso settings |
| Configuration.EnvOf | backend/src/config.ts:34 | the environment built from a configuration is in development mode exactly when the configuration is |
| Configuration.ParseEnvOf | backend/src/config.ts:33-48 | every configuration the schema admits is read back unchanged from the environment that holds its settings |
| Configuration.ConfigCache.constructor | backend/src/config.ts:31 | the cache starts empty |
| Configuration.ConfigCache.GetConfig | backend/src/config.ts:50-57 | a cached configuration is returned as is without reading the environment; otherwise the parse of the environment is returned and cached only on success |
| Configuration.GetConfigIsStable | backend/src/config.ts:50-57 | after one successful call, a later call returns the same configuration whatever the environment then holds |

## Left out

- Fractional JavaScript numbers: `Number` is an integer, `NaN` or an infinity. A fractional `limit` would give a fractional page size, and a fractional cursor a fractional `lastId`. Neither is represented.
- `Number(string)` is modelled for the empty string, decimal digits with an optional sign, and the `Infinity` spellings. Everything else reads as `NaN`. Whitespace trimming, fractions, exponents and hex prefixes of the JavaScript grammar are not modelled.
- `topK` is an integer. A non-integer `LIMIT` argument is not modelled. A negative `topK` returns every chunk, as SQLite's negative `LIMIT` means no limit. A general statement of "exactly min(topK, corpus) chunks" would disagree with the code for negative `topK`; the model follows the code.
- TursoRepository.TursoDocumentRepository.GetReleventChunks: chunks at equal distance keep table order. SQLite leaves that order unspecified, so the model fixes one of the orders the database may return.
- The cosine distance, `vector32` and the `JSON.stringify` encoding of embeddings are abstracted into a distance parameter. Dimension mismatches and float arithmetic are not modelled.
- A failing read query in `getReleventChunks` or `listDocuments` is not modelled; the model treats reads as total. Logging in the catch blocks (`console.error`) and `LibsqlError` branching only report, so they are left out.
- A failing `rollback` is not modelled: the model assumes rollback succeeds.
- The cascade at backend/src/services/turso-document-repository.ts:89-93 is always applied. That needs the schema to declare `ON DELETE CASCADE` and SQLite to enforce foreign keys (`PRAGMA foreign_keys = ON`). The schema is not part of this model, and the no-orphan clause of `Valid()` rests on this.
- A failure of `this._db.transaction("write")` (backend/src/services/turso-document-repository.ts:14, :76) is not modelled. It happens before the `try`, so it would throw with nothing to roll back; no `failingStep` number stands for it.
- `JsConversions.Number.Int` is exact at every size. A JavaScript number rounds integers above 2^53, and a long digit string overflows to `Infinity`; ids and cursors past that range are not modelled.
- Id allocation: the table schema is not part of this model. Ids come from counters that start at 1 and are never reused, as with SQLite's `AUTOINCREMENT`.
- `metadata ?? null`, and reading `null` back as the `metadata` of a chunk, are both modelled as the same optional value.
- The `DocumentRepository` interface has no separate declaration; the class's methods stand for it.
- Async execution and transaction isolation between concurrent requests are not modelled; each call is one atomic step.
- The database client and environment plumbing (`backend/src/db/index.ts`, `backend/src/env.ts`) are not modelled. `process.env` is the `env` parameter of `GetConfig`.
- The URL grammar of `z.url()` is the abstract predicate `isUrl`.
- Configuration.ConfigSchemaParse: states which issues are reported only for missing required fields, an empty key and the production rule. The `refine` is skipped only after an undefined required field, as Zod 4 skips refinements after a non-continuable issue. Zod's issue order and issue objects (codes, paths, messages) are not modelled.
- The HTTP layer, the chunker, the RAG service, the OpenAI clients and the frontends are not part of this model.
