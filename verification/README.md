# leann-search-api in Dafny

A model of the deterministic core of `leann-search-api`, a FastAPI service. The service keeps named indexes of text documents on disk and searches them in three ways: semantically through the LEANN vector library, by a literal grep, and by a hybrid of both.

The model covers the service's bookkeeping and query logic. Each part is written as pure functions over immutable datatypes:

- **Chunker** (`Chunker`, `Text`): `_chunk_text` splits a document into overlapping windows. Each cut is backed off to the first separator, in priority order, found in the window's second half.
- **Metadata filter** (`Values`, `Filter`): `_matches_filter` evaluates field conditions over JSON-like values.
  - A filter is either a bare value (an equality test) or a map of operators.
  - Python's exceptions (`TypeError`, and `AttributeError` on missing metadata) are modelled as an explicit `Raised` outcome, because each caller handles them differently.
- **Document store** (`Store`, `Documents`, `Listing`): an index is a map of documents, a map of chunk files, the index metadata, the saved chunk mapping and a "vector index built" flag.
  - Add/upsert, list, get, update, metadata patch, delete, bulk delete and the document side of a rebuild are functions from the old index to the new one.
  - The operations find a document's chunk files with the glob `{doc_id}_chunk_*.json`, read as a literal prefix: the file name starts with the document id and `_chunk_` (an id holding glob metacharacters is not modelled; see "## Left out"). The glob also matches the chunks of any document whose id starts with `{doc_id}_chunk_` (see "## Findings").
- **Index registry** (`Lifecycle`): `index_service.py` over a map from names to indexes. The status is derived from the document count and the built flag.
- **Queries** (`Matching`, `Search`, `Hybrid`, `Sorting`):
  - semantic search maps backend `(position, score)` items through the chunk mapping, and falls back to ranking every chunk by its similarity to the query;
  - grep is a case-insensitive literal search over the chunks in file-name order;
  - hybrid search is a weighted linear sum of the semantic score and a rank-derived keyword score, kept in dictionary insertion order and stably sorted;
  - batch search answers every query.
- **API layer** (`Schemas`, `IndexApi`, `DocumentApi`, `SearchApi`): the request schemas with their bounds and defaults, and the configuration. Every endpoint returns the registry after the call together with a `Response`, which is either `Success(data)` or `Failure(status, code)`.
  - A body pydantic rejects is a 400 `VALIDATION_ERROR`.
  - An unknown index is a 404 `INDEX_NOT_FOUND`, and an unknown document a 404 `DOCUMENT_NOT_FOUND`.
  - An existing index name on create is a 409.
  - An exception escaping a handler is a 500 `INTERNAL_ERROR`, as `src/main.py` maps them.
- **Findings** (`Findings`): four places where the code accepts input its authors evidently did not intend (see "## Findings").

The following are parameters rather than computed values:

- timestamps and generated ids (`uuid4`);
- the order in which a directory lists its files: every function that globs takes a `listing` together with the requirement that it enumerates the stored keys exactly once;
- the vector backend's reply to a query;
- the embedding model of the brute-force search: unavailable, or the similarity it yields between a query and a chunk's text;
- whether the LEANN build succeeds;
- the text extracted from an uploaded file.

## Specification and code

The service's written specification describes a richer system than the code implements. This model follows the code:

- There is no index version counter and no `STALE` or `FAILED` state. Status is `empty`, `building` or `ready`, derived on every read; `error` is never produced.
- There is no background or exclusive rebuild: a rebuild runs inside the request.
- Hybrid fusion is a weighted linear sum, not reciprocal-rank fusion. Ties keep insertion order (semantic results first) and are not broken by document id.
- A batch has no per-item error isolation. Every query goes through the same semantic search. A filter that raises inside the brute-force fallback of any query fails the whole batch with a 500, and a repeated query id overwrites the earlier answer.
- Creating an index does not itself reject an existing name: the 409 comes from the API handler. `create_index` on an existing name rewrites the metadata and keeps the documents (`Lifecycle.CreateOverExisting`).
- The chunking loop ends only when each window starts after the one before. An overlap of at most half the chunk size guarantees this. Neither the settings schema nor the add options check it, and the API accepts whatever they let through (see "## Findings").

## Model

| member | source | states |
|---|---|---|
| Chunker.ChunkText | src/services/document_service.py:71-99 | On a text where the loop ends: empty text gives no chunks, a text no longer than `chunk_size` gives exactly one chunk (the text itself), and every chunk holds between 1 and `chunk_size` characters. |
| Chunker.BreakPoint | src/services/document_service.py:83-94 | A window that does not reach the end of the text is cut strictly after its midpoint and no later than its end. |
| Chunker.BreakPointChosen | src/services/document_service.py:88-94 | The cut is the window's end when no separator occurs in the window's second half. Otherwise it falls just after the last occurrence of the first separator, in list order, that occurs there. |
| Chunker.FirstCutChosen | src/services/document_service.py:90-94 | The separator search finds nothing exactly when no separator occurs in the range. Otherwise it stops at the first separator that occurs, and every earlier separator is absent. |
| Chunker.ProgressesAdvancing | src/services/document_service.py:82-97 | With a positive chunk size and an overlap of at most half of it, every window starts strictly after the one before, from any start on any text, so the loop ends. |
| Chunker.NextSpanOverlaps | src/services/document_service.py:96-97 | Each next chunk starts after the previous one started, exactly `chunk_overlap` characters before the previous one ended. The last chunk ends the text, later than the one before it. With the overlap at most half the size, every next chunk ends later. |
| Chunker.ChunksOverlap | src/services/document_service.py:96-97 | Every chunk but the last is longer than the overlap. A next chunk of at least `chunk_overlap` characters starts with the last `chunk_overlap` characters of the chunk before it; a shorter one lies inside that tail. With the overlap at most half the size, the next chunk is never shorter. |
| Chunker.LastChunkEndsText | src/services/document_service.py:84-86 | The last chunk is a suffix of the text. |
| Chunker.ChunksJoinToText | src/services/document_service.py:71-99 | With no overlap, the chunks concatenate back to the original text. |
| Text.RFind | src/services/document_service.py:91 | `str.rfind` on a range: -1 exactly when no occurrence lies wholly inside the range, otherwise the last such occurrence. |
| Text.ParseNatToString | src/services/document_service.py:170 | A chunk position written in decimal in a chunk id reads back as the same number. |
| Text.NatToStringInjective | src/services/document_service.py:170 | Different positions are written as different decimal strings. |
| Store.ChunkIdIsChunkOf | src/services/document_service.py:170 | The chunk id `{doc_id}_chunk_{i}` belongs to its document and matches that document's glob. |
| Store.ChunkIdInjective | src/services/document_service.py:170 | Two chunk ids are equal only for the same document and the same position. |
| Store.SortedFiles | src/services/search_service.py:77 | `sorted(glob(...))` is a permutation of the directory listing, ordered by file name. |
| Store.SortedFilesUnique | src/services/search_service.py:77 | The sorted file list does not depend on the order in which the directory enumerates its files. |
| Store.Status | src/services/index_service.py:73-83 | Status is `empty` exactly when there are no documents, and `ready` exactly when there are documents and a built index. `error` is never produced. |
| Store.UpdateMeta | src/services/index_service.py:232-247 | Sets `updated_at`, changes only the counters that were passed, and leaves the settings and creation time unchanged. |
| Values.Member | src/services/document_service.py:560-565 | Python `in`: membership for a list, substring for two strings, and an exception for anything else. |
| Values.CompareFlip | src/services/document_service.py:548-559 | Comparing `b` with `a` gives the reverse of comparing `a` with `b`, and raises exactly when that does. |
| Filter.MatchesIsConjunction | src/services/document_service.py:532-588 | A filter holds exactly when every field condition holds. It is false exactly when some condition is false and every earlier condition holds. |
| Filter.EmptyFilterMatches | src/services/document_service.py:532-588 | The empty filter matches any metadata, even none. |
| Filter.NoMetadataRaises | src/services/document_service.py:535-539 | A non-empty filter raises on a document whose metadata is `None`. |
| Filter.BareIsEquality | src/services/document_service.py:533-537 | A bare value is the same test as the `==` operator, and a missing field reads as null. |
| Filter.UnknownOpIgnored | src/services/document_service.py:541-586 | An unrecognised operator imposes no constraint. |
| Filter.OrderingOnMissing | src/services/document_service.py:548-559 | `<`, `<=`, `>` and `>=` are false on a missing value. |
| Filter.OrderingComplements | src/services/document_service.py:548-559 | On a present value, `<` is the negation of `>=`, and `<=` the negation of `>`, including when the comparison raises. |
| Filter.OrderingSwap | src/services/document_service.py:548-559 | `a < b` is the same test as `b > a`, and `a <= b` the same as `b >= a`. |
| Filter.NegatedOperators | src/services/document_service.py:542-565 | `!=` and `not_in` are the negations of `==` and `in`. |
| Filter.ContainsSemantics | src/services/document_service.py:566-574 | `contains` is a substring test on strings (raising on a non-string needle) and membership on lists. It is false on any other value. |
| Filter.AffixOnlyOnStrings | src/services/document_service.py:575-580 | `starts_with` and `ends_with` hold only for a string value with a string operand that is its prefix or suffix. |
| Filter.BooleanOpsExact | src/services/document_service.py:581-586 | `is_true` holds only for the exact boolean `True` (not `1`), and `is_false` ignores its operand. |
| Filter.IsTrueFilterSelects | src/services/document_service.py:581-583 | Metadata passing an `is_true` filter on a field holds `True` in that field. |
| Documents.DropChunks | src/services/document_service.py:338-342 | Removes exactly the chunk files the glob `{doc_id}_chunk_*.json` matches, and keeps every other chunk unchanged. |
| Documents.WriteChunks | src/services/document_service.py:168-180 | Writes `{id}_chunk_{i}` with the i-th piece, position i and the document's metadata. No file is removed, and every file not written keeps its content. |
| Documents.ReplaceChunksExact | src/services/document_service.py:334-358 | After the glob's matches are removed and the pieces rewritten, the files the glob matches are exactly the new pieces at their positions. Files it does not match are unchanged. |
| Documents.ResolveId | src/services/document_service.py:135 | `doc.get("id") or uuid4()`: a missing or empty id takes the generated one. |
| Documents.AddOne | src/services/document_service.py:139-196 | The result is `failed` exactly for an existing id without `update_if_exists`, and then nothing changes. Otherwise it is `updated` or `added`, and the chunk count equals the number of pieces. |
| Documents.AddOneStores | src/services/document_service.py:152-180 | A stored document holds the new content, metadata and chunk count, with `created_at` kept on update. The pieces are written at `{id}_chunk_{i}`. Every other existing file is kept with its content, and the only new files are the pieces. |
| Documents.AddDocuments | src/services/document_service.py:114-214 | One result per input, in input order, with resolved ids. The index `chunk_count` grows by the sum of the results' chunk counts, `total_characters` grows by the content lengths of exactly the documents that did not fail, `updated_at` is set, and the settings are unchanged. |
| Documents.AddDocumentsFails | src/services/document_service.py:141-150 | A document is answered `failed` exactly when `update_if_exists` is off and its resolved id is already stored or taken by an earlier document of the same request; these are the documents the loop skips before chunking. |
| Documents.DuplicateNotChunked | src/services/document_service.py:141-150 | Re-sending a stored id with `update_if_exists` off is admitted whatever its content and chunk size, and is answered `failed` without chunking. |
| Documents.AddDocumentsDocs | src/services/document_service.py:134-196 | Afterwards the documents are the earlier ones plus the resolved ids. Documents not named in the request are unchanged. |
| Documents.Merge | src/services/document_service.py:328 | `{**old, **new}`: the union of keys, with new values winning. |
| Documents.NewMetadata | src/services/document_service.py:326-332 | No new metadata keeps the old. A merge over truthy old metadata overlays the new keys. Otherwise the new metadata replaces the old. |
| Documents.MergeTwice | src/services/document_service.py:326-332 | Merging the same metadata twice gives the same result as merging it once. |
| Documents.UpdateDocument | src/services/document_service.py:312-379 | `None` exactly for a missing document. Otherwise content and metadata are updated, `created_at` is kept, other documents are unchanged, and so are the chunk files the document's glob does not match. |
| Documents.UpdateDocumentChunks | src/services/document_service.py:334-371 | New content is re-chunked after the glob's matches are removed, so the files the glob matches are exactly the new pieces. Without new content, the files the glob matches only take the new metadata. |
| Documents.UpdateMetadataOnly | src/services/document_service.py:381-412 | `None` for a missing document. Otherwise the document and every chunk file its glob matches carry the new metadata, and nothing else changes. |
| Documents.MetadataOnlyIsUpdate | src/services/document_service.py:381-412 | A metadata-only update leaves the index as `update_document` does with metadata and no content. |
| Documents.DeleteDocument | src/services/document_service.py:414-428 | Returns false exactly for a missing document, and then nothing changes. Otherwise the document and exactly the chunk files its glob matches are removed, and nothing else changes. |
| Documents.DeleteIds | src/services/document_service.py:439-442 | Each present id is deleted and counted once. Repeated and missing ids count nothing. |
| Documents.BulkDelete | src/services/document_service.py:430-456 | A non-empty id list wins over the filter. A filter deletes exactly the documents it matches and skips those on which it raises. The chunk files removed are exactly those the deleted documents' globs match. The count equals the number of documents removed. |
| Documents.FilterMatches | src/services/document_service.py:443-454 | The listed documents whose metadata the filter matches. |
| Documents.RebuildChunks | src/services/document_service.py:476-526 | With chunks and a working library, the index is marked built, and the saved mapping is every chunk id once in file-name order. The result is the number of chunk files. |
| Documents.RebuildMappingUnique | src/services/document_service.py:484-512 | The saved chunk mapping does not depend on directory enumeration order. |
| Lifecycle.InfoOf | src/services/index_service.py:98-107 | The index summary: document count, stored chunk count, derived status and settings. |
| Lifecycle.CreateIndex | src/services/index_service.py:114-155 | A fresh index record with zero counters and the given settings, or the configuration's. An existing directory keeps its documents and chunks, and other indexes are untouched. It raises exactly when no settings are given and the configuration's values are out of bounds. |
| Lifecycle.CreateOverExisting | src/services/index_service.py:116-155 | Over an existing index with documents, creation reports `empty` while the documents remain. |
| Lifecycle.GetIndex | src/services/index_service.py:157-196 | `None` for an absent name. Otherwise: `avg_chunk_size` times `chunk_count` is `total_characters`, or 0 with no chunks; the metadata fields are the union of the documents' keys. |
| Lifecycle.ListIndexesCount | src/services/index_service.py:89-112 | Every index is listed once. |
| Lifecycle.DeleteIndex | src/services/index_service.py:198-205 | Returns false exactly for an absent name. Afterwards the name is gone and the others are untouched. |
| Lifecycle.DeleteThenCreate | src/services/index_service.py:198-205 | After a delete the name is not found, and creating it again gives an empty index. |
| Lifecycle.RebuildIndex | src/services/index_service.py:207-230 | The settings are replaced only when given. On success `chunk_count` equals the rebuilt chunk count. A failed build keeps the new settings and nothing else. |
| Lifecycle.RebuildMakesReady | src/services/index_service.py:207-230 | A successful rebuild of an index with documents and chunks makes it `ready`, with a mapping over all its chunks. |
| Listing.Selected | src/services/document_service.py:232-241 | The listed documents the filter admits, in listing order. |
| Listing.Preview | src/services/document_service.py:244 | Content up to 200 characters is kept whole. Longer content is its first 200 characters followed by `...`. |
| Listing.SortPermutation | src/services/document_service.py:259-266 | Python's stable sort, with or without `reverse`: a permutation ordered by key, ties kept in input order. |
| Listing.KeyLessOrder | src/services/document_service.py:261-266 | The sort keys (timestamps and ids) are strictly totally ordered. |
| Listing.SortedInfosContents | src/services/document_service.py:230-266 | The sorted list holds exactly the admitted documents, each once, with their summaries. |
| Listing.SortedInfosOrdered | src/services/document_service.py:259-266 | Keys are ascending, or descending for `desc`, and equal keys keep listing order. |
| Listing.ListDocuments | src/services/document_service.py:216-275 | `total` counts all admitted documents, and the page holds only admitted documents. |
| Listing.PageSize | src/services/document_service.py:270-273 | The page holds `min(per_page, total - (page - 1) * per_page)` documents, or none. |
| Listing.PageItem | src/services/document_service.py:270-273 | The m-th document of a page is the sorted list's document at `(page-1)*per_page + m`. |
| Listing.GetDocument | src/services/document_service.py:277-310 | `None` exactly for a missing document. Otherwise the stored content, metadata, counts and timestamps. |
| Listing.GetDocumentChunks | src/services/document_service.py:283-300 | The chunk list is the document's chunk files, each once, in file-name order, with their content and position. |
| Listing.NameOrderIsNotPosition | src/services/document_service.py:288 | File-name order puts chunk 10 before chunk 2. |
| Matching.FindMatches | src/services/search_service.py:312-319 | Matches are ascending, non-overlapping spans of the query's length where the query occurs case-insensitively. Every occurrence lies inside a reported span. |
| Matching.HasMatchIff | src/services/search_service.py:316-318 | A chunk has a match exactly when the query occurs in it. |
| Matching.MatchesDisjoint | src/services/search_service.py:319 | Any two reported spans are disjoint and in order. |
| Matching.CaseInsensitive | src/services/search_service.py:312 | Matching the query is the same as matching its lower-case form. |
| Search.Read | src/services/search_service.py:134-143 | A tuple gives its first two entries. A dict falls back from `index` to `id` to 0 and from `score` to `similarity` to 1.0. Anything else is skipped. |
| Search.Judge | src/services/search_service.py:145-170 | A kept hit's chunk id is `chunk_mapping[idx]`, and it is a stored chunk that passes the score and the filter. Unreadable items and low scores are skipped. The item fails exactly when the filter raises on it. |
| Search.CollectTakesFirst | src/services/search_service.py:136-173 | The result loop keeps the first `max(top_k, 1)` acceptable hits in backend order, since it checks the count only after appending. |
| Search.FetchK | src/services/search_service.py:127 | The backend is asked for `2*top_k` with an active filter, `top_k` otherwise. |
| Search.BackendHits | src/services/search_service.py:122-173 | No searcher or an empty mapping gives no backend result. Otherwise the result is the collected hits of the backend's reply. |
| Search.SemanticSearch | src/services/search_service.py:99-227 | Non-empty backend hits are returned, at most `max(top_k, 1)`, each grounded in a stored chunk. Otherwise the brute-force result is returned. It raises exactly when the backend does not answer, the model is loaded and the filter raises on a stored chunk. `total_found` is the count returned. |
| Search.BruteForce | src/services/search_service.py:229-293 | No model gives no results. Otherwise it raises exactly when the filter raises on a stored chunk. Each result is a stored chunk passing the filter, scored by its similarity to the query and at least `min_score`, at most `top_k` of them. |
| Search.BruteLoaded | src/services/search_service.py:254-293 | Once the model loads, it raises exactly when the filter raises on a stored chunk. Each result is a stored chunk passing the filter, with its similarity to the query as score, at least `min_score`, content and metadata only when asked, at most `top_k` of them. |
| Search.Argsort | src/services/search_service.py:272 | `argsort()[::-1]`: every position once, by descending score, equal scores with the later position first. |
| Search.AboveFloor | src/services/search_service.py:275-278 | The loop keeps a prefix of the ranking, every score at least `min_score`, and stops only at a score below it. |
| Search.BruteForceOrdered | src/services/search_service.py:272-290 | Fallback results name distinct chunks with non-increasing scores. |
| Search.BruteForceKept | src/services/search_service.py:254-255 | The fallback ranks every stored chunk that passes the filter, each once. |
| Search.BruteForceKeepsBest | src/services/search_service.py:269-290 | A stored chunk passing the filter but not returned scores no higher than any returned one, and below `min_score` when fewer than `top_k` are returned. |
| Search.Answers | src/services/search_service.py:440-454 | The batch loop answers every query in order, and raises exactly when some query's search raises. |
| Search.BatchSearch | src/services/search_service.py:427-457 | It raises exactly when the model is loaded, the filter raises on a stored chunk, and the backend does not answer some query. Otherwise one entry per distinct query id. |
| Search.FilterChunks | src/services/search_service.py:85-97 | No filter passes the chunks unchanged. Otherwise the result is the order-preserving sublist the filter matches, raising exactly when the filter raises on some chunk. |
| Search.GrepScanTakesFirst | src/services/search_service.py:314-331 | The grep loop keeps the first `top_k` chunks that have a match. |
| Search.GrepScanInOrder | src/services/search_service.py:314-331 | Grep results keep the order of the scanned chunks. |
| Search.GrepAll | src/services/search_service.py:318 | The chunks with a match are exactly those with at least one match. |
| Search.GrepSearch | src/services/search_service.py:295-334 | Results are stored chunks with at least one match, in file-name order, passing the filter, at most `max(top_k, 1)`, with `total_found` their count. They are the first such chunks: any matching, filter-passing chunk left out sorts after every returned one, and then exactly `max(top_k, 1)` are returned. It raises exactly when the filter raises on some chunk. |
| Search.GrepScanMissesOnlyLater | src/services/search_service.py:314-331 | Over chunks in file-name order, the loop leaves out a chunk with a match only after collecting `top_k`, and only one that sorts after all it kept. |
| Search.ByQueryId | src/services/search_service.py:452-454 | One entry per distinct query id, and the last query's answer stands. |
| Search.BatchOne | src/services/search_service.py:440-454 | Each batch query is a semantic search with its own `top_k` (default 5) and the shared filter, and raises exactly when that search does. |
| Search.BatchAnswersEachQuery | src/services/search_service.py:440-454 | In a batch that does not raise, a query id not repeated later maps to that query's own answer. |
| Hybrid.Put | src/services/search_service.py:373-398 | Dictionary assignment: a new key goes to the end, and an existing key keeps its place with the new value. |
| Hybrid.AddSemantic | src/services/search_service.py:372-381 | Each semantic result becomes an entry with keyword score 0. A chunk returned twice keeps its last result. |
| Hybrid.KeywordScore | src/services/search_service.py:383-385 | The first grep hit scores 1, and every score lies in (0, 1]. |
| Hybrid.KeywordScoreDecreasing | src/services/search_service.py:383-385 | Keyword scores strictly decrease down the grep list. |
| Hybrid.AddKeywordEffect | src/services/search_service.py:383-398 | A grep hit sets the keyword score of a present entry and leaves the rest of it alone. A grep-only entry has semantic score 0 and position 0. |
| Hybrid.EntriesEffect | src/services/search_service.py:370-398 | An entry exists exactly for chunks found by either search. It carries both scores, and the semantic result's fields when there is one. |
| Hybrid.Rank | src/services/search_service.py:408-410 | A permutation of the entries, ordered by descending score with ties in insertion order. |
| Hybrid.RankedOrdered | src/services/search_service.py:408-410 | Ranked entries have distinct chunk ids and non-increasing scores. Equal scores keep insertion order. |
| Hybrid.FuseScores | src/services/search_service.py:400-405 | A fused result's score is `semantic*w_s + keyword*w_k` for a chunk found by either search, with the semantic result's position. |
| Hybrid.FuseOrdered | src/services/search_service.py:408-421 | Fused results have distinct chunk ids and non-increasing scores. |
| Hybrid.FuseKeepsBest | src/services/search_service.py:408-421 | A found chunk left out of the top `top_k` scores no higher than any chunk kept. |
| Hybrid.Fuse | src/services/search_service.py:412-421 | The fused list is truncated to `top_k`, or to all entries when fewer. |
| Hybrid.GrepPartIsGrep | src/services/search_service.py:352-367 | The grep half of a hybrid search is the grep search run at `3*top_k` with the same filter, keeping only its result list; it raises exactly when that search does. |
| Hybrid.HybridSearch | src/services/search_service.py:336-425 | Both searches fetch `3*top_k`. The result is their fusion, at most `top_k` long. It raises exactly where grep raises; the semantic search raises only then. |
| Hybrid.HybridRanks | src/services/search_service.py:336-425 | Hybrid results are distinct and ordered by combined score, and each is a chunk found by either search, scored by the weighted sum. |
| Schemas.ParseBackend | src/schemas/index.py:12 | The backend is `hnsw` or `diskann`, nothing else. |
| Schemas.DefaultSettings | src/schemas/index.py:12-17 | The default settings (hnsw, 32, 64, 512, 64) are within the field bounds, and their overlap is at most half their chunk size. |
| Schemas.CheckIndexName | src/schemas/index.py:63 | A name is accepted exactly when it has 1 to 64 characters, starts with an ASCII letter and continues with letters, digits or `_`. |
| Schemas.DefaultConfig | src/config.py:36-56 | The default configuration's chunk size 512 and overlap 64 keep the overlap at most half the size. `default_top_k` does not exceed `max_top_k`. The 10 MB upload limit is 10485760 bytes. |
| Schemas.SettingsFromConfig | src/services/index_service.py:124-132 | Settings built from the configuration carry its values and lie within the field bounds. Building raises exactly when the backend name is unknown or a value is out of bounds. |
| Schemas.DefaultConfigSettings | src/config.py:26-37 | The default configuration yields exactly the default index settings. |
| Schemas.DefaultsValid | src/schemas/search.py:11-104 | Every search schema's defaults are within its bounds. The hybrid weights need not sum to 1. A batch needs at least one query. |
| Schemas.OrElse | src/services/document_service.py:124-125 | `option or fallback`: a missing or zero option falls back. |
| Schemas.ZeroOverlapFallsBack | src/services/document_service.py:125 | An explicit `chunk_overlap` of 0 gets the index's overlap instead. |
| IndexApi.ListEndpoint | src/api/indexes.py:21-29 | `total` equals the number of indexes listed, and every index is listed once with its summary. |
| IndexApi.CreateEndpoint | src/api/indexes.py:32-59 | The responses are exclusive: a bad name or settings outside the field bounds is a 400, an existing name a 409, a bad configuration a 500. The 400 and 409 leave the registry unchanged; on the 500 the model's registry is also unchanged, although the code has already created the index directory (see "## Left out"). Otherwise only the new empty index is added, with status `empty`. |
| IndexApi.CreateThenGet | src/api/indexes.py:32-81 | A created index reads back at once with the same summary, no documents and status `empty`. |
| IndexApi.CreateTwice | src/api/indexes.py:37-48 | Creating the same name again is a 409 and changes nothing. |
| IndexApi.GetEndpoint | src/api/indexes.py:62-81 | 404 exactly for an unknown name. Otherwise the index's detail. |
| IndexApi.DeleteEndpoint | src/api/indexes.py:84-106 | 404 exactly for an unknown name. Only that index is removed. |
| IndexApi.RebuildEndpoint | src/api/indexes.py:109-136 | The responses are exclusive: settings outside the field bounds 400, unknown name 404, failed build 500. Settings are replaced only when given. Success reports the chunk count now stored. |
| IndexApi.CreateKeepsSettingsSound | src/api/indexes.py:32-59 | After a create, every stored index still has settings within the field bounds of `IndexSettings`. |
| IndexApi.RebuildKeepsSettingsSound | src/api/indexes.py:109-136 | After a rebuild, even a failed one, every stored index still has settings within the field bounds. |
| IndexApi.DeleteKeepsSettingsSound | src/api/indexes.py:84-106 | After a delete, every remaining index still has settings within the field bounds. |
| DocumentApi.CountsPartition | src/api/documents.py:66-68 | The added, updated and failed counts together equal the number of results. |
| DocumentApi.AddEndpoint | src/api/documents.py:48-77 | An empty request or empty content is a 400. An unknown index is a 404. The call succeeds exactly when the index exists and the request passes the schema's bounds, and a failure changes nothing. Otherwise: one result per document with its resolved id, counts per status summing to the input count, each document stored, other indexes unchanged. |
| DocumentApi.FileExtension | src/api/documents.py:109 | The lower-cased text after the last `.`, or `""` with no dot. |
| DocumentApi.ExtensionOfJoin | src/api/documents.py:109 | The extension of `base.ext` is `ext` lower-cased. |
| DocumentApi.UploadMetadata | src/api/documents.py:238-240 | The stored metadata is the given object plus `filename` and `file_type`. |
| DocumentApi.UploadEndpoint | src/api/documents.py:80-273 | Errors: unknown index 404. A 400 `VALIDATION_ERROR` exactly for an oversize file, an unsupported type, metadata that is not JSON, or extracted text that is blank. A 400 `INTERNAL_ERROR` exactly for a PDF, DOCX or PPTX parser failure after those checks. A 500 exactly when the text is extracted and not blank but the metadata is JSON other than an object. Each leaves the registry unchanged. Otherwise the extracted text is upserted under the given or generated id with `filename` and `file_type`, and the status is `added` or `updated`. |
| DocumentApi.UploadAddsOne | src/api/documents.py:242-261 | The single-document upsert never reports `failed`, so the handler's 500 branch after it is unreachable. |
| DocumentApi.TotalPages | src/api/documents.py:316 | `(total + per_page - 1) // per_page` is the fewest pages of `per_page` that hold `total`. |
| DocumentApi.ListEndpoint | src/api/documents.py:276-328 | A bad `page` or `per_page`, or a malformed filter, is a 400. An unknown index is a 404. Otherwise the page is exactly the `list_documents` page (the admitted documents sorted by the requested field, sliced by `page` and `per_page`), `total` counts the admitted documents, and `total_pages` covers `total`. |
| DocumentApi.GetEndpoint | src/api/documents.py:331-352 | 404 `INDEX_NOT_FOUND` or `DOCUMENT_NOT_FOUND` exactly for a missing index or document. Otherwise the stored document. |
| DocumentApi.UpdateEndpoint | src/api/documents.py:355-408 | 404 exactly for a missing index or document, with no change. Otherwise `updated`, with new content and metadata, and other indexes unchanged. |
| DocumentApi.PatchMetadataEndpoint | src/api/documents.py:411-452 | 404 exactly for a missing index or document, with no change. Otherwise the new metadata, stored on the document and on each of its chunks. |
| DocumentApi.DeleteEndpoint | src/api/documents.py:455-479 | 404 exactly for a missing index or document, with no change. Otherwise only that document is removed. |
| DocumentApi.BulkDeleteEndpoint | src/api/documents.py:482-511 | Neither ids nor filter is a 400 before any deletion. Otherwise ids win over the filter, and the count equals the number of documents removed. |
| SearchApi.ClampTopK | src/api/search.py:52 | `min(top_k, max_top_k)`: at most both, and equal to one of them. |
| SearchApi.ResolveOptions | src/api/search.py:45-50 | With no options: the configured complexity, content and metadata included, and `min_score` 0. With options, each field takes its schema default when omitted. |
| SearchApi.EmptyOptionsDiffer | src/api/search.py:45-47 | An empty options object and no options object ask for different complexities whenever the configuration differs from the schema default. |
| SearchApi.SemanticEndpoint | src/api/search.py:39-72 | Invalid body 400, unknown index 404 before any search, and 500 exactly when the brute-force fallback runs with a loaded model and the filter raises on a stored chunk. Otherwise the service's search with the clamped `top_k`: `total_found` is the count, and at most the clamped `top_k` results are returned. |
| SearchApi.GrepEndpoint | src/api/search.py:75-97 | 400, then 404, then 500 exactly when the filter raises on some chunk. Otherwise the first matching, filter-passing chunks in file-name order, at most the clamped `top_k`; a matching chunk left out sorts after every returned one and the result is then full. |
| SearchApi.HybridEndpoint | src/api/search.py:100-124 | 400, then 404, then 500 exactly where grep raises. Otherwise the fusion of both searches, at most the clamped `top_k`. |
| SearchApi.BatchEndpoint | src/api/search.py:127-146 | 400 for a bad batch, 404 for an unknown index, 500 exactly when some query falls back with a loaded model and the filter raises on a stored chunk. Otherwise one entry per distinct query id. |
| SearchApi.BatchUsesOwnTopK | src/api/search.py:132-138 | A batch query searches with its own `top_k`, not cut to `max_top_k` as the same query sent alone is. |
| Findings.InBoundsSettingsStall | src/schemas/index.py:16-17 | Settings within the declared bounds (size 64, overlap 64) stop the chunker from advancing on any text longer than 64 characters. |
| Findings.ValidSettingsAdvance | src/schemas/index.py:16-17 | Under the corrected validation, which adds that the overlap is at most half the chunk size, every window advances. |
| Findings.ValidSettingsChunk | src/schemas/index.py:16-17 | Settings that pass the corrected validation let the chunking loop end on any text. |
| Findings.UnboundedAddOptionsStall | src/schemas/document.py:22-23 | An add request with `chunk_size` 1 is accepted, and the chunker's next window then starts before the text, so the loop does not end. The corrected check rejects it. |
| Findings.AddRequestChunks | src/schemas/document.py:22-23 | A request passing the corrected check, which adds that the effective overlap is at most half the effective size, lets the loop end on every one of its documents. |
| Findings.GlobDropsOtherDocument | src/services/document_service.py:425 | Deleting document `a` by the glob also deletes chunk 0 of document `a_chunk_1`. Deleting by ownership keeps it. |
| Findings.DropOwnedChunks | src/services/document_service.py:425 | Corrected: removes exactly the files whose name is the id, `_chunk_` and digits only, and keeps every other chunk unchanged. |
| Findings.DropOwnedKeepsOthers | src/services/document_service.py:425 | Corrected: deleting one document by ownership keeps every chunk another document owns. |
| Findings.OwnershipIsExclusive | src/services/document_service.py:425 | Under the ownership test, no chunk belongs to two documents. |
| Findings.WriteLeavesStaleChunk | src/services/document_service.py:168-180 | Re-adding a two-chunk document as one chunk leaves the old chunk 1 in place. Replacing the chunks removes it. |

## Left out

- File I/O, JSON encoding and `mkdir`/`rmtree`. The on-disk layout is modelled as maps plus a built flag, and a directory's listing order is a parameter.
- The LEANN builder and searcher, and the searcher cache. The backend is a parameter that returns an item list or raises. The build outcome is a parameter (library missing, builds, or fails).
- Embedding inference in `_brute_force_search`. The model is a parameter: unavailable (the import or load fails), or a similarity function giving the dot product of the normalised embeddings as an exact real. A `chunk_id` field differing from the file name is not modelled: a chunk's id is its file name.
- Search.Argsort: NumPy's default `argsort` is not stable, so among equal similarities the model's order (the reverse of a stable ascending sort) may differ from the code's. Scores are exact reals, without float rounding.
- Store.MatchesChunkGlob: the glob `{doc_id}_chunk_*.json` is modelled as the literal prefix `{doc_id}_chunk_`. Document ids are unconstrained strings, so an id holding `*`, `?` or `[` is a pattern in the code (deleting document `*` removes every chunk file of every document); the model treats those characters literally.
- DocumentApi.UploadEndpoint: text extraction is a parameter. For `.txt` and `.md` it is required to succeed, because the code decodes them as UTF-8 with errors ignored, which cannot fail.
- The duck-typed `__iter__` branch of `search`. It depends on an unknown backend result type. Only the list branch is modelled; any other reply falls back.
- PDF, DOCX and PPTX extraction and UTF-8 decoding. The extracted text, page count or parser failure is a parameter.
- Timestamps, `uuid4`, `query_time_ms` and `build_time_ms`. Times and generated ids are parameters; timing fields are omitted.
- `search_complexity`. It is resolved and bounded, but the service never uses it.
- FastAPI and pydantic wiring, logging, startup, `src/api/router.py` and the response envelope's constructors.
- Concurrency. The code has none beyond module-level singletons.
- Documents or chunk files whose JSON cannot be read. The code skips them; the model's store holds only well-formed records.
- Index folders without `metadata.json`. Every index in the registry has its metadata.
- IndexApi.CreateEndpoint: on the 500 for settings taken from a bad configuration, the code has already made the index directory and its `documents/` directory before building the settings, and writes no `metadata.json`. The model leaves the registry unchanged, so it does not show what follows in the code: the name then exists, a second create is a 409, a GET is a 200 with default settings and the current time as `created_at`, and `list_indexes` skips the folder. The model answers a second create with the 500 again and a GET with a 404. A directory without metadata has no place in the model's registry.
- Matching.CaseInsensitive: only ASCII letters are folded. Python's `re.IGNORECASE` also folds other Unicode letters.
- Filter.BareIsEquality: `Bool` and `Int` are distinct values, so `True == 1` is false in the model but true in Python. Ordering does compare booleans numerically, as Python does. Floats and nested objects are not values of the model.
- Hybrid.FuseScores: scores and weights are exact reals. Floating-point rounding, and ties it could create or break, are not modelled.
- Lifecycle.GetIndex: `avg_chunk_size` is stated by multiplication, as an exact real.
- Documents.AddOne: the per-document `except Exception` path is modelled only for the duplicate case. The other exceptions come from I/O, which is not modelled.
- Chunker.ChunkText: it is defined only on inputs where the loop ends, each window starting after the one before (`Chunkable`). On other inputs the code never returns, and that behaviour is shown by the findings' stall lemmas rather than modelled as a result.
- DocumentApi.AddEndpoint, DocumentApi.UploadEndpoint, DocumentApi.UpdateEndpoint, Documents.AddDocuments and Documents.UpdateDocument: each requires the chunking loop to end on the content it chunks, with the size and overlap in effect. For `add_documents` that is only the documents the loop reaches the chunker for: a duplicate id with `update_if_exists` off is answered `failed` first and is not constrained. The code accepts every input the schemas allow, and on inputs where the loop does not end the request never completes. That case is not modelled as a response.
- The third separator is the mis-decoded string U+00E3 U+20AC U+201A, exactly as written in the source. No other text is treated as a separator.

## Findings

| source | as written | input that shows it | evidently intended | confidence | as-written member | corrected member |
|---|---|---|---|---|---|---|
| src/schemas/index.py:16-17 | `chunk_size` and `chunk_overlap` are bounded separately, so an overlap may equal or exceed the chunk size | settings with `chunk_size` 64 and `chunk_overlap` 64, then a document of 65 or more characters | the overlap is at most half the chunk size, so that the chunking loop advances | not executed | Findings.InBoundsSettingsStall | Findings.ValidSettingsAdvance |
| src/schemas/document.py:22-23 | per-request `chunk_size` and `chunk_overlap` carry no bounds at all | an add request with `chunk_size` 1 and a document of 2 or more characters | the request's effective size and overlap must let the chunker advance | not executed | Findings.UnboundedAddOptionsStall | Findings.AddRequestChunks |
| src/services/document_service.py:425 | a document's chunks are found by the glob `{doc_id}_chunk_*.json` | deleting document `a` while document `a_chunk_1` exists removes `a_chunk_1_chunk_0.json` | only the document's own chunk files, those whose suffix after `{doc_id}_chunk_` is a number, are touched | not executed | Findings.GlobDropsOtherDocument | Findings.DropOwnedKeepsOthers |
| src/services/document_service.py:168-180 | an upsert through `add_documents` writes the new chunk files without deleting the old ones | re-adding a document stored as two chunks with content that yields one chunk keeps the old chunk 1 | the old chunks are removed first, as `update_document` does | not executed | Findings.WriteLeavesStaleChunk | Documents.ReplaceChunksExact |

The operations elsewhere in the model follow the code as written: the API checks only the field bounds, the chunk files are found by the glob, and an upsert through `add_documents` writes over the old chunk files without removing them. The corrected definitions live in `Findings` next to the as-written counterexamples, and `Documents.ReplaceChunks` is the corrected write that `update_document` already performs.
