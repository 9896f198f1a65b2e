# Ingestion, indexing and retrieval core, modelled in Dafny

This project models the backend core of a document question-answering service. The core does four things:

- It splits uploaded PDF and DOCX files into overlapping token windows.
- It embeds each window through a provider gateway that falls back to a local model.
- It appends the vectors to a persisted flat FAISS index.
- It records documents, chunks and chunk-to-vector mappings in three relational tables.

Retrieval embeds a query, searches the index and joins every hit back through mapping → chunk → document to build a citation row. A generation gateway picks one remote LLM backend by provider name, or falls back to a fixed summary of the user messages.

The model has one module per source file:

| module | file |
|---|---|
| `Chunking` | `chunking.py` |
| `VectorStore` | `faiss_store.py` |
| `Embedding` | `embedding_client.py` |
| `Llm` | `llm_client.py` |
| `Ingest` | `ingest_service.py` |
| `Retrieval` | `retrieval_service.py` |
| `Db` | the three tables of `db.py` |
| `Config` | the settings and defaults of `config.py` |
| `Common` | shared helpers: `Option`/`Result`, Python slicing, ASCII lowercasing, join and split, filter-with-positions |

Code that changes state step by step is imperative Dafny:

- `FaissStore`, `Store` (the tables), `EmbeddingClient` and `LLMClient` are classes.
- The stores' operations are methods with `modifies` clauses.
- The loops of `chunk_text`, `_extract_pdf`, the chunk loop of `ingest_file`, `execute_many`, the local embedding comprehension and the hit loop of `retrieve` are `while` loops that carry invariants.

Each method is proved against a specification function. For example, `Ingest.IngestFile` is proved equal to `Ingest.IngestSpec`, a function from the stores before the call to the result and the stores after it. The properties are lemmas about those functions.

Foreign computations are parameters of the model:

- the SHA-256 digest
- the PyMuPDF and python-docx parsers
- tiktoken's `encode`/`decode`
- the remote embedding and LLM APIs
- the local sentence-transformer's `encode`
- the FAISS nearest-neighbour search, an oracle returning one raw `(indices, distances)` row

A foreign call that raises is modelled as `None`. Vectors and distances are sequences of an opaque `Float`.

Where the code departs from what it evidently intends, the model follows the code:

- **Chunking:** `chunk_text` does not stop after the window that reaches the last token (see Findings).
- **Index dimension:** `_load_index` never compares a persisted index's dimension with the requested one, and `retrieve` always opens the index with dimension 384.
- **Retries:** `@retry` wraps the whole `chat`/`embed` call, not each backend. Backend exceptions are swallowed inside the call, so no remote failure reaches the retry.
- **Idempotence:** re-ingesting identical bytes is idempotent only once the first call has inserted its document row. A first call that raised afterwards has left that row, with whatever chunk rows and mapping rows it got to. Every later call then returns the row's id without doing anything (`Ingest.IngestTwice`).
- **Window count:** the count `ceil((N - overlap) / (size - overlap))` holds for `N > overlap`. For `0 < N <= overlap` the corrected loop emits one window (`Chunking.StopCount`).

## Model

| member | source | states |
|---|---|---|
| Chunking.ChunkText | backend/app/services/chunking.py:19-32 | The loop as written, run for at most `fuel` iterations: the chunks are those of the window starts the loop visits, `exited` holds exactly when the guard `start < len(tokens)` fails within the budget, and text that encodes to no token gives `[]` and exits at once |
| Chunking.AsWrittenWindows | backend/app/services/chunking.py:22-31 | The first start is 0 and each later start is the clamped `end - overlap` of the previous one (so it is never negative). Every chunk is `decode(tokens[s..e])` with `e = min(len, s + chunk_size)`, its token count is `e - s`, and `e - s <= chunk_size` |
| Chunking.WindowIsSlice | backend/app/services/chunking.py:25-26 | For a start inside the tokens, the window is the contiguous slice `tokens[start..end]`, non-empty and at most `chunk_size` long |
| Chunking.Progress | backend/app/services/chunking.py:25-29 | While the window ends before the last token and `overlap < chunk_size`, the next start is strictly greater than the current one |
| Chunking.NoOverlapPartition | backend/app/services/chunking.py:24-31 | With overlap 0, `ceil((N - start) / chunk_size)` iterations let the loop exit, the windows concatenate to `tokens[start..]`, and there are exactly that many of them |
| Chunking.NoOverlapChunkText | backend/app/services/chunking.py:15-32 | With overlap 0, `chunk_text` terminates with `ceil(N / chunk_size)` chunks whose windows concatenate to the whole token sequence and whose token counts sum to `count_tokens(text)` |
| Chunking.NeverExits | backend/app/services/chunking.py:24-31 | With `overlap >= 1` and a non-empty input, the loop guard never fails: every one of `fuel` iterations runs and emits a chunk |
| Chunking.FinalWindowFixedPoint | backend/app/services/chunking.py:24-31 | Once a window ends at `len` with `1 <= overlap <= chunk_size`, the next start is `len - overlap` (clamped), still below `len`, its window ends at `len` too, and it is its own successor |
| Chunking.RepeatsForever | backend/app/services/chunking.py:24-31 | From that fixed point the loop visits the same start on every iteration, so it emits the same final window forever |
| Chunking.DefaultSettingsLoopForever | backend/app/services/chunking.py:19-31 | With the default chunk size 900 and overlap 120, a one-token text never leaves the loop and re-emits `tokens[0..1]` every iteration |
| Chunking.CountTokens | backend/app/services/chunking.py:15-16 | The number of tokens the text encodes to; `Chunking.NoOverlapChunkText` states that the chunks' token counts add up to it |
| Chunking.ChunkTextStopAtEnd | backend/app/services/chunking.py:19-32 | The corrected loop (leave after the window that reaches the end) computes exactly `StopAtEndChunks`: the corrected chunks when `overlap < chunk_size`; otherwise `[]` for a text that encodes to no token, as the loop body never runs, and a refusal for any other text |
| Chunking.StopStartsShape | backend/app/services/chunking.py:24-31 | The corrected loop starts at the first start, every start lies inside the tokens, each non-final window is a full window ending before `len` and is followed by a start `chunk_size - overlap` later, and the last window ends at `len` |
| Chunking.StopStitchCovers | backend/app/services/chunking.py:24-31 | The first corrected window followed by every later window minus its first `overlap` tokens is exactly the token sequence, so every token is covered |
| Chunking.StopConsecutiveOverlap | backend/app/services/chunking.py:24-31 | Consecutive corrected windows overlap by exactly `overlap` tokens: a non-final window has `chunk_size` tokens and its last `overlap` tokens open the next window |
| Chunking.StopCount | backend/app/services/chunking.py:24-31 | The corrected loop emits 0 windows for no tokens, 1 for at most `overlap` tokens, and `ceil((N - overlap) / (chunk_size - overlap))` for `N > overlap` tokens |
| Chunking.StopAgreesWithoutOverlap | backend/app/services/chunking.py:24-31 | With overlap 0 the correction changes nothing: given enough iterations, the loop as written visits exactly the corrected loop's starts |
| VectorStore.Range | backend/app/vector_store/faiss_store.py:26 | `range(lo, hi)` has `hi - lo` elements (none when `hi <= lo`) and its i-th element is `lo + i` |
| VectorStore.FaissStore.constructor | backend/app/vector_store/faiss_store.py:8-17 | Opening a path loads the index persisted there whatever its dimension; without a file it is a new empty index (`ntotal == 0`) of the requested dimension |
| VectorStore.FaissStore.Save | backend/app/vector_store/faiss_store.py:19-20 | The file at the index path becomes the in-memory index; no other path changes |
| VectorStore.FaissStore.Add | backend/app/vector_store/faiss_store.py:22-28 | An accepted batch of n vectors returns exactly the ids `ntotal, ..., ntotal + n - 1`. The stored vectors become the old ones followed by the batch, so `ntotal` grows by n, and the file at the path is the new index. An empty batch or a vector of the wrong dimension raises, and nothing changes |
| VectorStore.FaissStore.Search | backend/app/vector_store/faiss_store.py:30-41 | `search` on the index held in memory: an empty index answers `([], [])` for every k; a query of the wrong dimension raises; any answer has id and distance lists of equal length and contains no `-1` |
| VectorStore.SearchIndex | backend/app/vector_store/faiss_store.py:30-41 | An empty index answers `([], [])` for every k; a query of the wrong dimension raises; any answer has id and distance lists of equal length and contains no `-1` |
| VectorStore.HitsFilter | backend/app/vector_store/faiss_store.py:34-41 | The hits are the raw row's pairs whose label is not `-1`, in raw order and still aligned. There are no more than the row has, the j-th id and the j-th distance come from the same raw position, and every non-`-1` position is kept |
| VectorStore.ReopenContinuesIds | backend/app/vector_store/faiss_store.py:13-28 | After an `add`, reopening the path and adding again continues the id sequence: the second batch starts one after the first batch's last id, and every id of the first batch is below every id of the second |
| Db.Store.constructor | backend/app/db.py:18-48 | A new store has three empty tables, which meet every key constraint and every foreign key |
| Db.Store.FindDocumentByHash | backend/app/services/ingest_service.py:51 | The lookup finds a document exactly when some stored row has the hash, and the id it returns is that row's |
| Db.Store.InsertDocument | backend/app/services/ingest_service.py:64-73 | A fresh hash gets a row with the next id, appended with the given columns. A stored hash raises the `file_hash` UNIQUE violation and leaves the table unchanged. The key constraints and foreign keys stay intact |
| Db.Store.InsertChunk | backend/app/services/ingest_service.py:85-94 | A chunk row is appended with the next id and the given columns, and the other tables are untouched |
| Db.Store.InsertMappings | backend/app/services/ingest_service.py:103-106 | `execute_many` inserts the rows one after another up to the first one that breaks the `chunk_id` primary key or `faiss_vector_id` UNIQUE. It succeeds exactly when none does, and the constraints still hold afterwards |
| Db.InsertableAll | backend/app/db.py:46-47 | A batch whose chunk ids and vector ids are fresh and pairwise distinct goes in whole |
| Db.InsertableKeepsKeys | backend/app/db.py:43-47 | Inserting a batch of mapping rows up to the first one that conflicts keeps `chunk_id` and `faiss_vector_id` unique |
| Embedding.EmbeddingClient.constructor | backend/app/services/embedding_client.py:15-18 | The provider name is lowercased and the local model starts unset |
| Embedding.EmbeddingClient.EnsureLocal | backend/app/services/embedding_client.py:20-25 | The local model is loaded when unset and left alone when already loaded |
| Embedding.EnsureLocalIdempotent | backend/app/services/embedding_client.py:20-25 | Calling `_ensure_local` twice leaves the state one call leaves |
| Embedding.EmbeddingClient.Embed | backend/app/services/embedding_client.py:28-69 | `embed` returns what the first remote branch that answers yields, or else the local vectors. It loads the local model only when it falls back to it |
| Embedding.ItemVectors | backend/app/services/embedding_client.py:38 | A list of items yields vectors exactly when every item has an `embedding`, then one per item in order |
| Embedding.RemoteDispatch | backend/app/services/embedding_client.py:29-65 | The chain of guarded branches is a single attempt of the one backend the provider name and non-empty credential select (Gemini for "gemini" or "google"), or no attempt |
| Embedding.NoBackendIsLocal | backend/app/services/embedding_client.py:67-69 | A provider without a remote branch (such as "groq"), or an empty credential, goes straight to the local model |
| Embedding.GeminiShapes | backend/app/services/embedding_client.py:37-40 | An `embeddings` key gives one vector per item in order. Otherwise an `embedding` key gives a one-element list. With neither key, `embed` ends in the local model |
| Embedding.OpenRouterMissingData | backend/app/services/embedding_client.py:63 | An OpenRouter reply without `data` yields the empty list rather than the local fallback |
| Embedding.LocalVectors | backend/app/services/embedding_client.py:69 | The local fallback returns exactly one vector per input text, the i-th encoding the i-th text |
| Ingest.Suffix | backend/app/services/ingest_service.py:55 | The suffix is empty or starts with the only dot in it |
| Ingest.DocType | backend/app/services/ingest_service.py:55-56 | The type is always "pdf" or "docx"; `Ingest.DocTypeOfExtension` states which |
| Ingest.DocTypeOfExtension | backend/app/services/ingest_service.py:55-56 | For `stem.ext`, the suffix is `.ext`, and the type is "pdf" exactly when `ext` lowercases to "pdf" (every other suffix gives "docx") |
| Ingest.NoDotIsDocx | backend/app/services/ingest_service.py:55-56 | A name without a dot has no suffix and is typed "docx" |
| Ingest.ExtractPdf | backend/app/services/ingest_service.py:27-32 | One unit per page, in page order, the i-th carrying page number i + 1 |
| Ingest.ExtractDocx | backend/app/services/ingest_service.py:35-38 | DOCX extraction yields a single unit whose page is absent |
| Ingest.DocxParagraphs | backend/app/services/ingest_service.py:37-38 | The DOCX text is the join by "\n" of exactly the non-blank paragraphs in document order; when none contains a newline, splitting the text gives them back |
| Ingest.InsertUnitChunks | backend/app/services/ingest_service.py:84-96 | The inner loop appends one row per chunk of the unit: consecutive ids, ordinals continuing from `global_idx`, both page bounds equal to the unit's page. It collects `(id, text)` for each |
| Ingest.InsertChunkRows | backend/app/services/ingest_service.py:81-96 | With `overlap < chunk_size` the chunk loop appends exactly the planned rows of all units in order and returns `all_chunks`. With `overlap >= chunk_size` it appends no row, and raises at the first unit that encodes to a token; when no unit has a token it succeeds with no chunk |
| Ingest.IndexChunks | backend/app/services/ingest_service.py:98-106 | One batched `embed`, an index opened with the first vector's dimension, `add`, and the zipped mapping rows. The indexes, mappings and local model end as the specification functions say, and so does the raised error |
| Ingest.IngestFile | backend/app/services/ingest_service.py:41-108 | The step-by-step ingestion yields exactly the result and final stores of `IngestSpec` |
| Ingest.IngestDuplicate | backend/app/services/ingest_service.py:49-53 | A content hash already stored changes nothing (documents, chunks, mappings, index files, local model) and returns the id of the stored document with that hash |
| Ingest.IngestNewDocument | backend/app/services/ingest_service.py:64-79 | A new hash appends exactly one document row with the next id, which stays even if a later step raises. Extraction that raises leaves only that row. With `overlap >= chunk_size` no chunk row is added and neither index nor mappings change; the call raises when some extracted unit encodes to a token and succeeds with the new id when none does |
| Ingest.PlanPages | backend/app/services/ingest_service.py:76-96 | Chunks of a PDF carry page numbers between 1 and the page count, non-decreasing; chunks of a DOCX carry none |
| Ingest.IngestChunkRows | backend/app/services/ingest_service.py:81-96 | The chunk rows kept are the old ones, followed by one row per planned chunk: ids after the last stored chunk, the new document's id, ordinals 0..m-1 across all units, both page bounds the unit's page, and the window's text and token count |
| Ingest.IngestWithoutChunks | backend/app/services/ingest_service.py:98-108 | When no chunk is produced there is no embedding call, index append or mapping row: only the document row is added and the new id is returned |
| Ingest.IngestSpecIndexed | backend/app/services/ingest_service.py:98-108 | With chunks, the ingestion ends with the document row, the planned chunk rows, the embedding of their texts in one call, the index append and the mapping rows |
| Ingest.IngestIndexes | backend/app/services/ingest_service.py:98-106 | From agreeing stores no mapping row breaks a key, and the local model ends as the one batched `embed` leaves it |
| Ingest.IngestIndexRefused | backend/app/services/ingest_service.py:99-102 | No vectors (`embeddings[0]` fails), or vectors the index refuses, raise with the index files and mappings untouched |
| Ingest.IngestIndexAccepted | backend/app/services/ingest_service.py:100-102 | With vectors the index accepts, ingestion succeeds with the new id and the file at the path becomes the opened index followed by the vectors |
| Ingest.IngestIndexMappings | backend/app/services/ingest_service.py:103-106 | The mapping table keeps its rows and gains `min(#chunks, #vectors)` rows, the i-th pairing the i-th new chunk id with vector id `ntotal + i` |
| Ingest.IndexedConsistent | backend/app/services/ingest_service.py:102-106 | When mapped vector ids are below `ntotal` and new chunk ids are fresh and consecutive, every zipped row goes in. Row i maps chunk `first + i` to vector `ntotal + i`, and every mapped vector id stays inside the persisted index |
| Ingest.ZipIds | backend/app/services/ingest_service.py:105 | `zip` yields as many mapping rows as the shorter of chunks and ids |
| Ingest.IndexingPreserves | backend/app/services/ingest_service.py:98-106 | The indexing step keeps the stores in agreement, only appends, and never breaks a mapping key |
| Ingest.IngestPreserves | backend/app/services/ingest_service.py:41-108 | From agreeing stores, ingestion leaves agreeing stores: foreign keys resolve and mapped ids stay inside the index. It only appends, and no mapping insert ever raises |
| Ingest.IngestGrows | backend/app/services/ingest_service.py:41-108 | Every ingestion, from any stores, only appends: stored document, chunk and mapping rows stay unchanged, the index at the path only grows, and no other path is written or removed |
| Ingest.IngestKeepsKeys | backend/app/services/ingest_service.py:41-108 | Every ingestion keeps what the schema enforces: document ids and chunk ids as assigned, `file_hash` unique, and `chunk_id` and `faiss_vector_id` unique among the mapping rows |
| Ingest.IngestTwice | backend/app/services/ingest_service.py:49-73 | A second ingestion of the same bytes changes nothing and succeeds, with the first call's id when the first call succeeded. After a first call that raised, it returns the new id of the document row that call left |
| Retrieval.Snippet | backend/app/services/retrieval_service.py:37 | The snippet is the prefix of the chunk text of length `min(400, len(text))` |
| Retrieval.ResolveHits | backend/app/services/retrieval_service.py:22-40 | The hit loop computes `ResolveAll`: rows in hit order, hits without a mapping skipped, the first missing chunk or document raising |
| Retrieval.ResolveAllFailure | backend/app/services/retrieval_service.py:29-30 | Once a hit raises, the whole loop raises that error |
| Retrieval.Retrieve | backend/app/services/retrieval_service.py:14-40 | `retrieve` embeds the query once, opens the configured index with dimension 384, searches with `k or max_retrieve`, answers `[]` for no hits and otherwise resolves them. It loads the local model only when `embed` falls back to it |
| Retrieval.RetrieveDefaultK | backend/app/services/retrieval_service.py:15 | A k that is None or 0 gives the same answer as k = `max_retrieve` |
| Retrieval.ResolvedRowsStored | backend/app/services/retrieval_service.py:22-40 | Every row the loop yields describes one of the hits: the first mapping row for its vector id, the first chunk row with the mapped id, and that chunk's document (ids, filename, first page, 400-character prefix). There are at most as many rows as hits |
| Retrieval.ResolveReferential | backend/app/services/retrieval_service.py:23-39 | When every mapped chunk and every chunk's document is stored, no hit raises. The result is the order-preserving filter of the hits, and a hit is kept exactly when it has a mapping row |
| Retrieval.RetrieveAgreeing | backend/app/services/retrieval_service.py:14-40 | On tables whose foreign keys resolve, `retrieve` raises only when the query has no embedding or the search raises |
| Retrieval.RetrieveWithoutIndex | backend/app/services/retrieval_service.py:17-20 | Without an index file the opened index is empty, so any embedded query yields `[]` |
| Retrieval.IngestedShape | backend/app/services/ingest_service.py:81-106 | An ingestion that indexed its chunks leaves the new document after the old ones. The i-th new chunk row is the i-th planned chunk, and vector id `ntotal + i` is mapped to it |
| Retrieval.AppendedHitResolves | backend/app/services/retrieval_service.py:23-38 | In tables of that shape the hit `ntotal + i` resolves to the i-th new chunk: its id, its page, the new document's id and filename, and its 400-character snippet |
| Retrieval.IndexedMappingFound | backend/app/services/ingest_service.py:103-106 | After the indexing step the rows before the new ones hold only vector ids below `ntotal`, and the new rows map `ntotal + j` to the j-th new chunk |
| Llm.LLMClient.constructor | backend/app/services/llm_client.py:13-15 | The provider name is lowercased and the credential kept |
| Llm.LLMClient.Chat | backend/app/services/llm_client.py:18-73 | At most one backend is tried: the one the provider name and non-empty credential select (Gemini for "gemini" or "google"). Its text is returned unchanged when it answers. Otherwise, or when no backend is selected, the fallback text is returned |
| Llm.FullPrompt | backend/app/services/llm_client.py:25 | Every backend is sent the system prompt as the first message, followed by the caller's messages unchanged |
| Llm.ProviderCaseInsensitive | backend/app/services/llm_client.py:14 | Two provider names that differ only in the case of their letters select the same backend, since the name is compared lowercased; in particular every casing of "gemini" selects Gemini when a credential is set |
| Llm.Fallback | backend/app/services/llm_client.py:72-73 | The fallback text always opens with the fixed header and a newline; `Llm.FallbackUserLines` states the rest |
| Llm.FallbackUserLines | backend/app/services/llm_client.py:72-73 | The fallback is the header, "\n", then the lines `- content` of exactly the user messages, in order, joined by "\n\n" |
| Llm.FallbackAppend | backend/app/services/llm_client.py:72-73 | Appending a non-user message leaves the fallback unchanged. Appending a user message adds one line, after a blank line when a user line is already there |
| Llm.FallbackWithoutUsers | backend/app/services/llm_client.py:72-73 | With no user message the fallback is the header and a newline |

## Left out

- File I/O: block-wise hashing, the copy into the upload directory (`ingest_service.py:58-61`), `write_index`/`read_index` and `mkdir` of the index directory. The digest is a function of the content, and a persisted index is a map from path to index value.
- SHA-256, PyMuPDF, python-docx, tiktoken, sentence-transformers, the remote embedding and LLM APIs, and the FAISS L2 search: these are oracles passed in as parameters.
- The `uploaded_at` clock column of `documents`: not modelled.
- Floating point: embeddings and distances are opaque values, and `astype("float32")` is not modelled.
- Lowercasing is ASCII-only. It is exact for the comparisons made against ".pdf" and the provider names.
- async/await, cooperative concurrency and the single-writer discipline on the index: the awaited steps are modelled as sequential calls.
- tenacity `@retry` timing and backoff, and logging. Backend exceptions are swallowed inside `chat`/`embed`, so a retry repeats the same deterministic outcome in this model.
- The local sentence-transformer is taken as never raising, and the file-based model load is not modelled.
- SQLite does not enforce foreign keys by default. The foreign keys are an invariant the model proves ingestion keeps, not a constraint an insert checks.
- Cross-store atomicity: an exception after the document row leaves every row and index append made so far. The model keeps these partial effects rather than rolling them back.
- `chat_service.py`, `agent_service.py`, the routers, `main.py` and the frontend are not part of this model.
- Chunking.ChunkText: models the loop as written only up to a `fuel` bound on its iterations, because that loop need not terminate. `exited` reports whether it ended within the bound.
- Ingest.IngestFile: chunks with the corrected loop `Chunking.ChunkTextStopAtEnd`. The loop as written is `Chunking.ChunkText`: once a unit encodes to a token it never ends for any `overlap >= 1`, the default 120 included, and for `overlap >= chunk_size` the corrected loop raises instead. So every lemma about an ingestion that chunks a unit with tokens describes the corrected program.
- Ingest.DocType: the suffix follows `PurePath.suffix` on the final path component. The path's directory part is not modelled.
- Llm.LLMClient.Chat: evaluates the remote outcomes as values of an oracle. The order in which the calls are made is not observable in the model.
- Llm.LLMClient.Chat: a reply whose message content is None (`llm_client.py:40`, `53` and `67`) makes `chat` return None; the model has no such value and treats that reply like a raise, so it leads to the fallback.

## Findings

| source | as written | input that shows it | evidently intended | confidence | as-written member | corrected member |
|---|---|---|---|---|---|---|
| backend/app/services/chunking.py:24-31 | After a window that reaches the last token, `start = end - overlap` is still below `len(tokens)` when `overlap >= 1`, so the loop emits that final window again, forever | Any text that encodes to at least one token, with the default chunk size 900 and overlap 120: one token gives start 0, end 1, next start max(1 - 120, 0) = 0, and so on | Leave the loop after the window that ends at the last token, and refuse `overlap >= chunk_size` for a text that encodes to a token | not executed | Chunking.DefaultSettingsLoopForever | Chunking.StopStitchCovers |

`Chunking.NeverExits`, `Chunking.FinalWindowFixedPoint` and `Chunking.RepeatsForever` state the non-termination in general. `Chunking.ChunkTextStopAtEnd`, `Chunking.StopConsecutiveOverlap`, `Chunking.StopCount` and `Chunking.StopAgreesWithoutOverlap` state the corrected loop's behaviour, and ingestion uses that loop.
