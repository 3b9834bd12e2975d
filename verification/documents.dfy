/** The document store of one index (src/services/document_service.py):
    adding documents, listing, reading, updating and deleting them, and
    rebuilding the vector index from the stored chunks. */
module Documents {
  import opened Base
  import opened Text
  import opened Values
  import opened Filter
  import opened Chunker
  import opened Schemas
  import opened Sorting
  import opened Store

  // ---------------------------------------------------------------------
  // Chunk files of one document.
  // ---------------------------------------------------------------------

  /** Delete every chunk file the glob `{doc_id}_chunk_*.json` matches:
      the document's own chunks, and those of any document whose id
      starts with `{doc_id}_chunk_`. */
  function DropChunks(chunks: map<string, Chunk>, docId: string): (r: map<string, Chunk>)
    ensures forall c :: c in r <==> c in chunks && !MatchesChunkGlob(docId, c)
    ensures forall c | c in r :: r[c] == chunks[c]
  {
    map c | c in chunks && !MatchesChunkGlob(docId, c) :: chunks[c]
  }

  /** Write `pieces` as chunks `0..|pieces|-1` of `docId`, over whatever
      files already exist; nothing is deleted. */
  function WriteChunks(chunks: map<string, Chunk>, docId: string, pieces: seq<string>, meta: Option<Metadata>): (r: map<string, Chunk>)
    ensures forall i | 0 <= i < |pieces| ::
      ChunkId(docId, i) in r && r[ChunkId(docId, i)] == Chunk(docId, pieces[i], i, meta)
    ensures forall c | c in chunks :: c in r
    ensures forall c | c in r && c !in chunks :: IsChunkOf(docId, c)
    ensures forall c | c in chunks && !IsChunkOf(docId, c) :: r[c] == chunks[c]
    ensures forall c | c in chunks && (forall i | 0 <= i < |pieces| :: c != ChunkId(docId, i)) :: r[c] == chunks[c]
    decreases |pieces|
  {
    if pieces == [] then chunks
    else
      var n := |pieces| - 1;
      var before := WriteChunks(chunks, docId, pieces[..n], meta);
      ChunkIdIsChunkOf(docId, n);
      WrittenIdsDiffer(docId, n);
      before[ChunkId(docId, n) := Chunk(docId, pieces[n], n, meta)]
  }

  lemma WrittenIdsDiffer(docId: string, n: nat)
    ensures forall i | 0 <= i < n :: ChunkId(docId, i) != ChunkId(docId, n)
  {
    forall i | 0 <= i < n ensures ChunkId(docId, i) != ChunkId(docId, n) {
      if ChunkId(docId, i) == ChunkId(docId, n) {
        ChunkIdInjective(docId, i, docId, n);
      }
    }
  }

  /** Replace the chunks of `docId` by `pieces`: delete every chunk file
      the glob matches, then write the new ones. */
  function ReplaceChunks(chunks: map<string, Chunk>, docId: string, pieces: seq<string>, meta: Option<Metadata>): (r: map<string, Chunk>)
    ensures forall c | c in chunks && !MatchesChunkGlob(docId, c) :: c in r && r[c] == chunks[c]
  {
    WriteChunks(DropChunks(chunks, docId), docId, pieces, meta)
  }

  /** After a replacement the glob of `docId` matches exactly the new
      pieces, at their positions, and every chunk it does not match is as
      it was. */
  lemma ReplaceChunksExact(chunks: map<string, Chunk>, docId: string, pieces: seq<string>, meta: Option<Metadata>)
    ensures var r := ReplaceChunks(chunks, docId, pieces, meta);
      && (forall i | 0 <= i < |pieces| ::
            ChunkId(docId, i) in r && r[ChunkId(docId, i)] == Chunk(docId, pieces[i], i, meta))
      && (forall c | c in r && MatchesChunkGlob(docId, c) :: exists i | 0 <= i < |pieces| :: c == ChunkId(docId, i))
      && (forall c :: c in r && !MatchesChunkGlob(docId, c) <==> c in chunks && !MatchesChunkGlob(docId, c))
  {
    var d := DropChunks(chunks, docId);
    var r := ReplaceChunks(chunks, docId, pieces, meta);
    forall c | c in r && MatchesChunkGlob(docId, c)
      ensures exists i | 0 <= i < |pieces| :: c == ChunkId(docId, i)
    {
      WrittenOnly(d, docId, pieces, meta, c);
    }
  }

  /** A chunk of `docId` that was not there before the write is one of the
      written ones. */
  lemma {:induction false} WrittenOnly(chunks: map<string, Chunk>, docId: string, pieces: seq<string>, meta: Option<Metadata>, c: string)
    requires c in WriteChunks(chunks, docId, pieces, meta) && c !in chunks
    ensures exists i | 0 <= i < |pieces| :: c == ChunkId(docId, i)
    decreases |pieces|
  {
    var n := |pieces| - 1;
    if c != ChunkId(docId, n) {
      WrittenOnly(chunks, docId, pieces[..n], meta, c);
      var i :| 0 <= i < n && c == ChunkId(docId, i);
      assert pieces[..n][i] == pieces[i];
    }
  }

  /** Give every chunk file the glob of `docId` matches the metadata
      `meta`. */
  function Restamp(chunks: map<string, Chunk>, docId: string, meta: Option<Metadata>): (r: map<string, Chunk>)
    ensures r.Keys == chunks.Keys
    ensures forall c | c in r :: r[c] == if MatchesChunkGlob(docId, c) then chunks[c].(metadata := meta) else chunks[c]
  {
    map c | c in chunks :: if MatchesChunkGlob(docId, c) then chunks[c].(metadata := meta) else chunks[c]
  }

  // ---------------------------------------------------------------------
  // add_documents
  // ---------------------------------------------------------------------

  /** `doc.get("id") or str(uuid.uuid4())`: a missing or empty id gets the
      generated one. */
  function ResolveId(given: Option<string>, generated: string): (id: string)
    ensures given.Some? && given.value != "" ==> id == given.value
    ensures given.None? || given == Some("") ==> id == generated
  {
    if given.None? || given.value == "" then generated else given.value
  }

  datatype AddResult = AddResult(id: string, chunkCount: nat, status: AddStatus)

  /** The state after adding one document, with its result and the
      character count it contributes to the index counters. */
  datatype Step = Step(idx: Index, result: AddResult, chars: nat)

  /** One iteration of the loop of `add_documents`, given the chunker's
      pieces of the document's content. */
  function AddOne(idx: Index, id: string, content: string, pieces: seq<string>, meta: Option<Metadata>,
                  updateIfExists: bool, now: Time): (r: Step)
    ensures r.result.id == id
    ensures r.result.status == Failed <==> id in idx.docs && !updateIfExists
    ensures r.result.status == Updated <==> id in idx.docs && updateIfExists
    ensures r.result.status == Added <==> id !in idx.docs
    ensures r.result.status == Failed ==> r.idx == idx && r.chars == 0 && r.result.chunkCount == 0
    ensures r.result.status != Failed ==> r.chars == |content| && r.result.chunkCount == |pieces|
    ensures r.idx.docs.Keys == idx.docs.Keys + {id}
    ensures forall d | d in idx.docs && d != id :: r.idx.docs[d] == idx.docs[d]
    ensures r.idx.meta == idx.meta && r.idx.mapping == idx.mapping && r.idx.built == idx.built
  {
    if id in idx.docs && !updateIfExists then
      Step(idx, AddResult(id, 0, Failed), 0)
    else
      var created := if id in idx.docs then idx.docs[id].createdAt else now;
      var doc := Doc(content, meta, |pieces|, created, now);
      var status := if id in idx.docs then Updated else Added;
      Step(idx.(docs := idx.docs[id := doc], chunks := WriteChunks(idx.chunks, id, pieces, meta)),
           AddResult(id, |pieces|, status), |content|)
  }

  /** What a successful `AddOne` stores: the document with the given
      content and metadata, created now unless it existed; the pieces as
      chunks `0..|pieces|-1`, each carrying the metadata; and every other
      chunk file as it was, the document's own higher-numbered chunks from
      an earlier, longer version included. */
  lemma AddOneStores(idx: Index, id: string, content: string, pieces: seq<string>, meta: Option<Metadata>,
                     updateIfExists: bool, now: Time)
    requires AddOne(idx, id, content, pieces, meta, updateIfExists, now).result.status != Failed
    ensures var r := AddOne(idx, id, content, pieces, meta, updateIfExists, now);
      && id in r.idx.docs
      && r.idx.docs[id].content == content
      && r.idx.docs[id].metadata == meta
      && r.idx.docs[id].chunkCount == r.result.chunkCount
      && r.idx.docs[id].updatedAt == now
      && r.idx.docs[id].createdAt == (if id in idx.docs then idx.docs[id].createdAt else now)
    ensures var r := AddOne(idx, id, content, pieces, meta, updateIfExists, now).idx;
      && (forall i | 0 <= i < |pieces| ::
            ChunkId(id, i) in r.chunks && r.chunks[ChunkId(id, i)] == Chunk(id, pieces[i], i, meta))
      && (forall c | c in idx.chunks :: c in r.chunks)
      && (forall c | c in idx.chunks && (forall i | 0 <= i < |pieces| :: c != ChunkId(id, i)) ::
            r.chunks[c] == idx.chunks[c])
      && (forall c | c in r.chunks && c !in idx.chunks :: exists i | 0 <= i < |pieces| :: c == ChunkId(id, i))
  {
    var r := AddOne(idx, id, content, pieces, meta, updateIfExists, now).idx;
    forall c | c in r.chunks && c !in idx.chunks
      ensures exists i | 0 <= i < |pieces| :: c == ChunkId(id, i)
    {
      WrittenOnly(idx.chunks, id, pieces, meta, c);
    }
  }

  /** Chunk count of a result list. */
  function SumChunks(results: seq<AddResult>): nat {
    if results == [] then 0 else results[0].chunkCount + SumChunks(results[1..])
  }

  /** `update_if_exists` of the request; false when no options are sent. */
  function UpdateIfExists(options: Option<AddOptions>): bool {
    options.Some? && options.value.updateIfExists
  }

  /** Whether the loop of `add_documents` reaches the chunker for document
      `i`: with `update_if_exists` every document is chunked; otherwise
      only one whose id is neither stored nor taken by an earlier document
      of the request, since those are answered `failed` first. */
  predicate Chunked(stored: set<string>, ids: seq<string>, i: nat, update: bool)
    requires i < |ids|
  {
    update || (ids[i] !in stored && ids[i] !in ids[..i])
  }

  /** The chunker's pieces of each document the loop chunks, with the
      chunk settings of the request; no pieces for the others. */
  function ChunkAll(docs: seq<DocumentInput>, ids: seq<string>, stored: set<string>, update: bool,
                    size: int, overlap: int): (p: seq<seq<string>>)
    requires |ids| == |docs|
    requires forall i | 0 <= i < |docs| && Chunked(stored, ids, i, update) :: Chunkable(docs[i].content, Separators, size, overlap)
    ensures |p| == |docs|
    ensures forall i | 0 <= i < |docs| ::
      p[i] == if Chunked(stored, ids, i, update) then ChunkText(docs[i].content, Separators, size, overlap) else []
  {
    seq(|docs|, i requires 0 <= i < |docs| =>
      if Chunked(stored, ids, i, update) then ChunkText(docs[i].content, Separators, size, overlap) else [])
  }

  /** The chunking loop ends on the content of every document the loop
      chunks, under the size and overlap in effect for the request. */
  predicate AllChunkable(idx: Index, docs: seq<DocumentInput>, freshIds: seq<string>, options: Option<AddOptions>)
    requires |freshIds| == |docs|
  {
    var ids := ResolvedIds(docs, freshIds);
    forall i | 0 <= i < |docs| && Chunked(idx.docs.Keys, ids, i, UpdateIfExists(options)) ::
      Chunkable(docs[i].content, Separators, EffectiveSize(options, idx.meta.settings), EffectiveOverlap(options, idx.meta.settings))
  }

  /** The state after the loop, the result of each document, and the
      totals added to the index counters. */
  datatype Run = Run(idx: Index, results: seq<AddResult>, chars: nat)

  /** The loop of `add_documents` over the documents from `k` on; `ids`
      holds the resolved id of each document and `pieces` its chunks. */
  function AddFrom(idx: Index, docs: seq<DocumentInput>, pieces: seq<seq<string>>, ids: seq<string>, k: nat,
                   updateIfExists: bool, now: Time): (r: Run)
    requires |ids| == |docs| == |pieces| && k <= |docs|
    ensures |r.results| == |docs| - k
    ensures r.idx.meta == idx.meta
    ensures FailsExactly(r.results, ids, k, idx.docs.Keys, updateIfExists)
    decreases |docs| - k
  {
    if k == |docs| then Run(idx, [], 0)
    else
      var s := AddOne(idx, ids[k], docs[k].content, pieces[k], docs[k].metadata, updateIfExists, now);
      var rest := AddFrom(s.idx, docs, pieces, ids, k + 1, updateIfExists, now);
      FailsStep(s.result, rest.results, ids, k, idx.docs.Keys, s.idx.docs.Keys, updateIfExists);
      Run(rest.idx, [s.result] + rest.results, s.chars + rest.chars)
  }

  /** The loop from `k` on stores every id from `k` on and leaves every
      other document as it was. */
  lemma {:induction false} AddFromDocs(idx: Index, docs: seq<DocumentInput>, pieces: seq<seq<string>>, ids: seq<string>, k: nat,
                                       updateIfExists: bool, now: Time)
    requires |ids| == |docs| == |pieces| && k <= |docs|
    ensures var r := AddFrom(idx, docs, pieces, ids, k, updateIfExists, now);
      && (forall d :: d in r.idx.docs <==> d in idx.docs || d in ids[k..])
      && forall d | d in idx.docs && d !in ids[k..] :: r.idx.docs[d] == idx.docs[d]
    decreases |docs| - k
  {
    if k < |docs| {
      var s := AddOne(idx, ids[k], docs[k].content, pieces[k], docs[k].metadata, updateIfExists, now);
      var rest := AddFrom(s.idx, docs, pieces, ids, k + 1, updateIfExists, now);
      assert AddFrom(idx, docs, pieces, ids, k, updateIfExists, now).idx == rest.idx;
      AddFromDocs(s.idx, docs, pieces, ids, k + 1, updateIfExists, now);
      SliceMembers(ids, k);
    }
  }

  /** The loop reports the documents from `k` on in order, each under its
      resolved id. */
  lemma {:induction false} AddFromResults(idx: Index, docs: seq<DocumentInput>, pieces: seq<seq<string>>, ids: seq<string>, k: nat,
                                          updateIfExists: bool, now: Time)
    requires |ids| == |docs| == |pieces| && k <= |docs|
    ensures forall i | 0 <= i < |docs| - k ::
      AddFrom(idx, docs, pieces, ids, k, updateIfExists, now).results[i].id == ids[k + i]
    decreases |docs| - k
  {
    if k < |docs| {
      var s := AddOne(idx, ids[k], docs[k].content, pieces[k], docs[k].metadata, updateIfExists, now);
      var rest := AddFrom(s.idx, docs, pieces, ids, k + 1, updateIfExists, now);
      var r := AddFrom(idx, docs, pieces, ids, k, updateIfExists, now);
      assert r.results == [s.result] + rest.results;
      AddFromResults(s.idx, docs, pieces, ids, k + 1, updateIfExists, now);
      forall i | 1 <= i < |r.results|
        ensures r.results[i].id == ids[k + i]
      {
        assert r.results[i] == rest.results[i - 1];
      }
    }
  }

  /** The characters of the documents whose result is not `failed`: what
      `total_chars` sums in the loop. */
  function AddedChars(docs: seq<DocumentInput>, results: seq<AddResult>): nat
    requires |results| == |docs|
  {
    if docs == [] then 0
    else (if results[0].status == Failed then 0 else |docs[0].content|) + AddedChars(docs[1..], results[1..])
  }

  /** The loop from `k` on counts the characters of exactly the documents
      it did not fail. */
  lemma {:induction false} AddFromChars(idx: Index, docs: seq<DocumentInput>, pieces: seq<seq<string>>, ids: seq<string>, k: nat,
                                        updateIfExists: bool, now: Time)
    requires |ids| == |docs| == |pieces| && k <= |docs|
    ensures var r := AddFrom(idx, docs, pieces, ids, k, updateIfExists, now);
      r.chars == AddedChars(docs[k..], r.results)
    decreases |docs| - k
  {
    if k < |docs| {
      var s := AddOne(idx, ids[k], docs[k].content, pieces[k], docs[k].metadata, updateIfExists, now);
      var rest := AddFrom(s.idx, docs, pieces, ids, k + 1, updateIfExists, now);
      var r := AddFrom(idx, docs, pieces, ids, k, updateIfExists, now);
      AddFromChars(s.idx, docs, pieces, ids, k + 1, updateIfExists, now);
      assert r.results == [s.result] + rest.results;
      assert docs[k..][1..] == docs[k + 1..];
      assert r.results[1..] == rest.results;
    }
  }

  /** Each result from `k` on is `failed` exactly when updates are off
      and its document's id is in `stored` or taken by an earlier
      document from `k` on. */
  predicate FailsExactly(results: seq<AddResult>, ids: seq<string>, k: nat, stored: set<string>, update: bool)
    requires k + |results| <= |ids|
  {
    forall j | 0 <= j < |results| ::
      results[j].status == Failed <==> !update && (ids[k + j] in stored || ids[k + j] in ids[k..k + j])
  }

  /** One more document in front: it fails exactly when its own id is
      stored, and storing that id extends the earlier ids of the rest. */
  lemma FailsStep(first: AddResult, rest: seq<AddResult>, ids: seq<string>, k: nat, stored: set<string>, after: set<string>,
                  update: bool)
    requires k + 1 + |rest| <= |ids|
    requires first.status == Failed <==> !update && ids[k] in stored
    requires after == stored + {ids[k]}
    requires FailsExactly(rest, ids, k + 1, after, update)
    ensures FailsExactly([first] + rest, ids, k, stored, update)
  {
    var r := [first] + rest;
    forall j | 0 <= j < |r|
      ensures r[j].status == Failed <==> !update && (ids[k + j] in stored || ids[k + j] in ids[k..k + j])
    {
      if j == 0 {
        assert ids[k..k] == [];
      } else {
        assert r[j] == rest[j - 1];
        SeenShift(ids, k, k + j, stored, after);
      }
    }
  }

  /** `add_documents` answers `failed` exactly for the documents its loop
      does not chunk: with updates off, an id already stored or taken by an
      earlier document of the same request. */
  lemma AddDocumentsFails(idx: Index, docs: seq<DocumentInput>, freshIds: seq<string>,
                          options: Option<AddOptions>, now: Time)
    requires |freshIds| == |docs|
    requires AllChunkable(idx, docs, freshIds, options)
    ensures var r := AddDocuments(idx, docs, freshIds, options, now);
      forall i | 0 <= i < |docs| ::
        r.1[i].status == Failed <==> !Chunked(idx.docs.Keys, ResolvedIds(docs, freshIds), i, UpdateIfExists(options))
  {
    var size := EffectiveSize(options, idx.meta.settings);
    var overlap := EffectiveOverlap(options, idx.meta.settings);
    var update := UpdateIfExists(options);
    var ids := ResolvedIds(docs, freshIds);
    var pieces := ChunkAll(docs, ids, idx.docs.Keys, update, size, overlap);
    var run := AddFrom(idx, docs, pieces, ids, 0, update, now);
    assert AddDocuments(idx, docs, freshIds, options, now).1 == run.results;
    forall i | 0 <= i < |docs|
      ensures run.results[i].status == Failed <==> !Chunked(idx.docs.Keys, ids, i, update)
    {
      assert ids[0..0 + i] == ids[..i];
    }
  }

  /** Re-sending a stored id with updates off is admitted whatever its
      content, even under a chunk size the loop would never finish with,
      and is answered `failed`. */
  lemma DuplicateNotChunked(idx: Index, id: string, content: string, size: int, freshId: string, now: Time)
    requires id in idx.docs && id != ""
    ensures var docs := [DocumentInput(Some(id), content, None)];
      var options := Some(AddOptions(Some(size), None, false));
      && AllChunkable(idx, docs, [freshId], options)
      && AddDocuments(idx, docs, [freshId], options, now).1[0].status == Failed
  {
    var docs := [DocumentInput(Some(id), content, None)];
    var options := Some(AddOptions(Some(size), None, false));
    assert ResolvedIds(docs, [freshId]) == [id];
    AddDocumentsFails(idx, docs, [freshId], options, now);
  }

  /** Storing the id at `k` turns "stored or taken from `k + 1` on" into
      "stored or taken from `k` on". */
  lemma SeenShift(ids: seq<string>, k: nat, i: nat, stored: set<string>, after: set<string>)
    requires k < i < |ids| && after == stored + {ids[k]}
    ensures (ids[i] in after || ids[i] in ids[k + 1..i]) <==> (ids[i] in stored || ids[i] in ids[k..i])
  {
    assert ids[k..i] == [ids[k]] + ids[k + 1..i];
  }

  lemma SliceMembers<T>(s: seq<T>, k: nat)
    requires k < |s|
    ensures forall x :: x in s[k..] <==> x == s[k] || x in s[k + 1..]
  {
    assert s[k..] == [s[k]] + s[k + 1..];
  }

  /** The id each document is stored under. */
  function ResolvedIds(docs: seq<DocumentInput>, freshIds: seq<string>): (ids: seq<string>)
    requires |freshIds| == |docs|
    ensures |ids| == |docs| && forall i | 0 <= i < |docs| :: ids[i] == ResolveId(docs[i].id, freshIds[i])
  {
    seq(|docs|, i requires 0 <= i < |docs| => ResolveId(docs[i].id, freshIds[i]))
  }

  /** `add_documents`: the loop, then the index counters grow by the chunks
      and characters of every document that did not fail. */
  function AddDocuments(idx: Index, docs: seq<DocumentInput>, freshIds: seq<string>,
                        options: Option<AddOptions>, now: Time): (r: (Index, seq<AddResult>))
    requires |freshIds| == |docs|
    requires AllChunkable(idx, docs, freshIds, options)
    ensures |r.1| == |docs|
    ensures forall i | 0 <= i < |docs| :: r.1[i].id == ResolveId(docs[i].id, freshIds[i])
    ensures r.0.meta.chunkCount == idx.meta.chunkCount + SumChunks(r.1)
    ensures r.0.meta.totalCharacters == idx.meta.totalCharacters + AddedChars(docs, r.1)
    ensures r.0.meta.updatedAt == Some(now) && r.0.meta.settings == idx.meta.settings
  {
    var size := EffectiveSize(options, idx.meta.settings);
    var overlap := EffectiveOverlap(options, idx.meta.settings);
    var update := UpdateIfExists(options);
    var ids := ResolvedIds(docs, freshIds);
    var pieces := ChunkAll(docs, ids, idx.docs.Keys, update, size, overlap);
    var s := AddFrom(idx, docs, pieces, ids, 0, update, now);
    AddFromResults(idx, docs, pieces, ids, 0, update, now);
    AddFromChars(idx, docs, pieces, ids, 0, update, now);
    assert docs[0..] == docs;
    var meta := UpdateMeta(s.idx.meta, now, Some(s.idx.meta.chunkCount + SumChunks(s.results)),
                           Some(s.idx.meta.totalCharacters + s.chars));
    (s.idx.(meta := meta), s.results)
  }

  /** `add_documents` stores a document under every resolved id and
      leaves every other document as it was. */
  lemma AddDocumentsDocs(idx: Index, docs: seq<DocumentInput>, freshIds: seq<string>,
                         options: Option<AddOptions>, now: Time)
    requires |freshIds| == |docs|
    requires AllChunkable(idx, docs, freshIds, options)
    ensures var r := AddDocuments(idx, docs, freshIds, options, now);
      && (forall d :: d in r.0.docs <==> d in idx.docs || d in ResolvedIds(docs, freshIds))
      && forall d | d in idx.docs && d !in ResolvedIds(docs, freshIds) :: r.0.docs[d] == idx.docs[d]
  {
    var size := EffectiveSize(options, idx.meta.settings);
    var overlap := EffectiveOverlap(options, idx.meta.settings);
    var update := UpdateIfExists(options);
    var ids := ResolvedIds(docs, freshIds);
    var pieces := ChunkAll(docs, ids, idx.docs.Keys, update, size, overlap);
    AddFromDocs(idx, docs, pieces, ids, 0, update, now);
    assert ids[0..] == ids;
  }

  // ---------------------------------------------------------------------
  // update_document and update_metadata_only
  // ---------------------------------------------------------------------

  /** `existing.get("metadata")` is truthy: present and not empty. */
  predicate Truthy(meta: Option<Metadata>) {
    meta.Some? && |meta.value| > 0
  }

  /** `{**existing, **given}`: every key of either, the given value
      winning. */
  function Merge(existing: Metadata, given: Metadata): (r: Metadata)
    ensures r.Keys == existing.Keys + given.Keys
    ensures forall k | k in given :: r[k] == given[k]
    ensures forall k | k in existing && k !in given :: r[k] == existing[k]
  {
    existing + given
  }

  /** The metadata a document ends up with: unchanged when none is given;
      merged into the existing metadata when asked to and that metadata is
      truthy; otherwise the given metadata as it is. */
  function NewMetadata(existing: Option<Metadata>, given: Option<Metadata>, merge: bool): (r: Option<Metadata>)
    ensures given.None? ==> r == existing
    ensures given.Some? ==> r.Some? && given.value.Keys <= r.value.Keys
    ensures given.Some? ==> forall k | k in given.value :: r.value[k] == given.value[k]
    ensures given.Some? && merge && Truthy(existing) ==> r.value.Keys == existing.value.Keys + given.value.Keys
    ensures given.Some? && merge && Truthy(existing) ==>
      forall k | k in existing.value && k !in given.value :: r.value[k] == existing.value[k]
    ensures given.Some? && !(merge && Truthy(existing)) ==> r == given
  {
    if given.None? then existing
    else if merge && Truthy(existing) then Some(Merge(existing.value, given.value))
    else given
  }

  /** Merging the same metadata twice changes nothing the first merge did
      not. */
  lemma MergeTwice(existing: Option<Metadata>, given: Metadata)
    ensures NewMetadata(NewMetadata(existing, Some(given), true), Some(given), true)
         == NewMetadata(existing, Some(given), true)
  {
    var once := NewMetadata(existing, Some(given), true);
    if Truthy(existing) {
      assert Truthy(once);
      assert Merge(once.value, given) == once.value;
    } else if |given| > 0 {
      assert once == Some(given);
      assert Merge(given, given) == given;
    }
  }

  /** `update_document`: `None` for a missing document. New content is
      re-chunked with the index's own settings, replacing the document's
      chunks, which carry the new metadata; without new content the
      chunks keep their text and, when metadata is given, take the new
      metadata. The index counters and the vector index are not touched. */
  function UpdateDocument(idx: Index, id: string, content: Option<string>, meta: Option<Metadata>,
                          merge: bool, now: Time): (r: Option<(Index, AddResult)>)
    requires content.Some? ==>
      Chunkable(content.value, Separators, idx.meta.settings.chunkSize, idx.meta.settings.chunkOverlap)
    ensures r.None? <==> id !in idx.docs
    ensures r.Some? ==>
      var (j, res) := r.value;
      && j.docs.Keys == idx.docs.Keys
      && res == AddResult(id, j.docs[id].chunkCount, Updated)
      && j.docs[id].content == content.GetOr(idx.docs[id].content)
      && j.docs[id].metadata == NewMetadata(idx.docs[id].metadata, meta, merge)
      && j.docs[id].createdAt == idx.docs[id].createdAt
      && j.docs[id].updatedAt == now
      && (content.None? ==> j.docs[id].chunkCount == idx.docs[id].chunkCount && j.chunks.Keys == idx.chunks.Keys)
      && (content.None? && meta.None? ==> j.chunks == idx.chunks)
      && (forall d | d in idx.docs && d != id :: j.docs[d] == idx.docs[d])
      && (forall c | c in idx.chunks && !MatchesChunkGlob(id, c) :: c in j.chunks && j.chunks[c] == idx.chunks[c])
      && j.meta == idx.meta && j.mapping == idx.mapping && j.built == idx.built
  {
    if id !in idx.docs then None
    else
      var d := idx.docs[id];
      var m := NewMetadata(d.metadata, meta, merge);
      var pieces := if content.Some? then
        Some(ChunkText(content.value, Separators, idx.meta.settings.chunkSize, idx.meta.settings.chunkOverlap))
      else None;
      var count := if pieces.Some? then |pieces.value| else d.chunkCount;
      var doc := d.(content := content.GetOr(d.content), chunkCount := count, metadata := m, updatedAt := now);
      Some((idx.(docs := idx.docs[id := doc], chunks := UpdatedChunks(idx.chunks, id, pieces, meta.Some?, m)),
            AddResult(id, count, Updated)))
  }

  /** The chunk files after `update_document`: replaced by the new pieces
      when there are any; otherwise restamped with `m` when metadata was
      given, else untouched. Files the glob of `id` does not match are
      kept either way. */
  function UpdatedChunks(chunks: map<string, Chunk>, id: string, pieces: Option<seq<string>>, restamp: bool,
                         m: Option<Metadata>): (r: map<string, Chunk>)
    ensures forall c | c in chunks && !MatchesChunkGlob(id, c) :: c in r && r[c] == chunks[c]
    ensures pieces.None? ==> r.Keys == chunks.Keys
    ensures pieces.None? && !restamp ==> r == chunks
  {
    match pieces
    case Some(p) => ReplaceChunks(chunks, id, p, m)
    case None => if restamp then Restamp(chunks, id, m) else chunks
  }

  /** The chunks of an updated document: for new content, exactly the
      chunker's pieces of it under the new metadata; for new metadata
      alone, every existing chunk of the document restamped with it. */
  lemma UpdateDocumentChunks(idx: Index, id: string, content: Option<string>, meta: Option<Metadata>,
                             merge: bool, now: Time)
    requires content.Some? ==>
      Chunkable(content.value, Separators, idx.meta.settings.chunkSize, idx.meta.settings.chunkOverlap)
    requires id in idx.docs
    ensures var j := UpdateDocument(idx, id, content, meta, merge, now).value.0;
      var m := NewMetadata(idx.docs[id].metadata, meta, merge);
      && (content.Some? ==>
            var pieces := ChunkText(content.value, Separators, idx.meta.settings.chunkSize, idx.meta.settings.chunkOverlap);
            && j.docs[id].chunkCount == |pieces|
            && (forall i | 0 <= i < |pieces| ::
                  ChunkId(id, i) in j.chunks && j.chunks[ChunkId(id, i)] == Chunk(id, pieces[i], i, m))
            && (forall c | c in j.chunks && MatchesChunkGlob(id, c) :: exists i | 0 <= i < |pieces| :: c == ChunkId(id, i)))
      && (content.None? && meta.Some? ==>
            forall c | c in j.chunks && MatchesChunkGlob(id, c) :: j.chunks[c] == idx.chunks[c].(metadata := m))
  {
    if content.Some? {
      var pieces := ChunkText(content.value, Separators, idx.meta.settings.chunkSize, idx.meta.settings.chunkOverlap);
      ReplaceChunksExact(idx.chunks, id, pieces, NewMetadata(idx.docs[id].metadata, meta, merge));
    }
  }

  /** `update_metadata_only`: `None` for a missing document; otherwise the
      new metadata, now on the document and on every chunk of it. */
  function UpdateMetadataOnly(idx: Index, id: string, meta: Metadata, merge: bool, now: Time): (r: Option<(Index, Metadata)>)
    ensures r.None? <==> id !in idx.docs
    ensures r.Some? ==>
      var (j, m) := r.value;
      && Some(m) == NewMetadata(idx.docs[id].metadata, Some(meta), merge)
      && j.docs.Keys == idx.docs.Keys
      && j.docs[id] == idx.docs[id].(metadata := Some(m), updatedAt := now)
      && (forall d | d in idx.docs && d != id :: j.docs[d] == idx.docs[d])
      && j.chunks.Keys == idx.chunks.Keys
      && (forall c | c in j.chunks :: j.chunks[c] == if MatchesChunkGlob(id, c) then idx.chunks[c].(metadata := Some(m)) else idx.chunks[c])
      && j.meta == idx.meta && j.mapping == idx.mapping && j.built == idx.built
  {
    if id !in idx.docs then None
    else
      var d := idx.docs[id];
      var m := NewMetadata(d.metadata, Some(meta), merge).value;
      Some((idx.(docs := idx.docs[id := d.(metadata := Some(m), updatedAt := now)],
                 chunks := Restamp(idx.chunks, id, Some(m))), m))
  }

  /** Patching the metadata leaves the same store as a full update that
      gives metadata and no content. */
  lemma MetadataOnlyIsUpdate(idx: Index, id: string, meta: Metadata, merge: bool, now: Time)
    requires id in idx.docs
    ensures UpdateMetadataOnly(idx, id, meta, merge, now).value.0
         == UpdateDocument(idx, id, None, Some(meta), merge, now).value.0
  {
    var a := UpdateMetadataOnly(idx, id, meta, merge, now).value.0;
    var b := UpdateDocument(idx, id, None, Some(meta), merge, now).value.0;
    assert a.docs == b.docs;
    assert a.chunks == b.chunks;
  }

  // ---------------------------------------------------------------------
  // delete_document and bulk_delete
  // ---------------------------------------------------------------------

  /** Some document of `owners` owns chunk `c`. */
  predicate OwnedByAny(c: string, owners: set<string>) {
    exists d | d in owners :: MatchesChunkGlob(d, c)
  }

  /** `delete_document`: `false` and no change for a missing document;
      otherwise the document file and its chunk files are gone. The index
      counters and the vector index are not touched. */
  function DeleteDocument(idx: Index, id: string): (r: (Index, bool))
    ensures r.1 <==> id in idx.docs
    ensures r.0.docs == idx.docs - {id}
    ensures forall c :: c in r.0.chunks <==> c in idx.chunks && !(r.1 && MatchesChunkGlob(id, c))
    ensures forall c | c in r.0.chunks :: r.0.chunks[c] == idx.chunks[c]
    ensures r.0.meta == idx.meta && r.0.mapping == idx.mapping && r.0.built == idx.built
  {
    if id !in idx.docs then (idx, false)
    else (idx.(docs := idx.docs - {id}, chunks := DropChunks(idx.chunks, id)), true)
  }

  /** The ids of `ids` that name a stored document. */
  function Present(docs: map<string, Doc>, ids: seq<string>): set<string> {
    set id | id in ids && id in docs
  }

  /** The loop of `bulk_delete` over a list of ids: each present document
      is deleted once and counted once; repeated and missing ids count
      nothing. */
  function DeleteIds(idx: Index, ids: seq<string>): (r: (Index, nat))
    ensures r.1 == |Present(idx.docs, ids)|
    ensures r.0.docs == idx.docs - Present(idx.docs, ids)
    ensures forall c :: c in r.0.chunks <==> c in idx.chunks && !OwnedByAny(c, Present(idx.docs, ids))
    ensures forall c | c in r.0.chunks :: r.0.chunks[c] == idx.chunks[c]
    ensures r.0.meta == idx.meta && r.0.mapping == idx.mapping && r.0.built == idx.built
    decreases |ids|
  {
    if ids == [] then
      assert Present(idx.docs, ids) == {};
      (idx, 0)
    else
      var (j, hit) := DeleteDocument(idx, ids[0]);
      var (k, n) := DeleteIds(j, ids[1..]);
      PresentSplit(idx.docs, ids);
      OwnedSplit(idx.docs, ids);
      (k, (if hit then 1 else 0) + n)
  }

  /** A chunk owned by a present id is owned by the head, when present, or
      by a present id of the rest once the head is gone. */
  lemma OwnedSplit(docs: map<string, Doc>, ids: seq<string>)
    requires ids != []
    ensures forall c :: OwnedByAny(c, Present(docs, ids)) <==>
      (ids[0] in docs && MatchesChunkGlob(ids[0], c)) || OwnedByAny(c, Present(docs - {ids[0]}, ids[1..]))
  {
    PresentSplit(docs, ids);
    var rest := Present(docs - {ids[0]}, ids[1..]);
    forall c ensures OwnedByAny(c, Present(docs, ids)) <==>
      (ids[0] in docs && MatchesChunkGlob(ids[0], c)) || OwnedByAny(c, rest)
    {
      if OwnedByAny(c, Present(docs, ids)) {
        var d :| d in Present(docs, ids) && MatchesChunkGlob(d, c);
        if d != ids[0] {
          assert d in rest;
        }
      }
      if ids[0] in docs && MatchesChunkGlob(ids[0], c) {
        assert ids[0] in Present(docs, ids);
      }
      if OwnedByAny(c, rest) {
        var d :| d in rest && MatchesChunkGlob(d, c);
        assert d in Present(docs, ids);
      }
    }
  }

  /** The present ids of a list: its head when present, and the present
      ids of the rest once the head is gone. */
  lemma PresentSplit(docs: map<string, Doc>, ids: seq<string>)
    requires ids != []
    ensures Present(docs, ids) == (if ids[0] in docs then {ids[0]} else {}) + Present(docs - {ids[0]}, ids[1..])
    ensures ids[0] !in Present(docs - {ids[0]}, ids[1..])
    ensures |Present(docs, ids)| == (if ids[0] in docs then 1 else 0) + |Present(docs - {ids[0]}, ids[1..])|
  {
    var head: set<string> := if ids[0] in docs then {ids[0]} else {};
    var rest := Present(docs - {ids[0]}, ids[1..]);
    SliceMembers(ids, 0);
    assert ids[0..] == ids;
    forall id ensures id in Present(docs, ids) <==> id in head || id in rest {
    }
    assert Present(docs, ids) == head + rest;
    assert head * rest == {};
  }

  /** The documents a metadata filter selects for deletion: those on which
      it holds; a document on which it raises is skipped. */
  function FilterMatches(docs: map<string, Doc>, listing: seq<string>, f: Filter): (r: seq<string>)
    requires forall i | 0 <= i < |listing| :: listing[i] in docs
    ensures forall id :: id in r <==> id in listing && MatchesFilter(docs[id].metadata, f) == Ok(true)
  {
    if listing == [] then []
    else
      var rest := FilterMatches(docs, listing[1..], f);
      assert forall id :: id in listing <==> id == listing[0] || id in listing[1..];
      if MatchesFilter(docs[listing[0]].metadata, f) == Ok(true) then [listing[0]] + rest else rest
  }

  /** `bulk_delete`: a non-empty id list deletes those documents; otherwise
      a non-empty filter deletes the documents it matches; otherwise
      nothing happens. The count is the number of documents deleted. */
  function BulkDelete(idx: Index, ids: Option<seq<string>>, f: Option<Filter>, listing: seq<string>): (r: (Index, nat))
    requires Enumerates(listing, idx.docs.Keys)
    ensures var gone :=
      if ids.Some? && ids.value != [] then Present(idx.docs, ids.value)
      else if Active(f) then set id | id in idx.docs && MatchesFilter(idx.docs[id].metadata, f.value) == Ok(true)
      else {};
      && r.1 == |gone|
      && r.0.docs == idx.docs - gone
      && (forall c :: c in r.0.chunks <==> c in idx.chunks && !OwnedByAny(c, gone))
      && (forall c | c in r.0.chunks :: r.0.chunks[c] == idx.chunks[c])
      && r.0.meta == idx.meta && r.0.mapping == idx.mapping && r.0.built == idx.built
  {
    if ids.Some? && ids.value != [] then DeleteIds(idx, ids.value)
    else if Active(f) then
      var matched := FilterMatches(idx.docs, listing, f.value);
      assert Present(idx.docs, matched) == set id | id in idx.docs && MatchesFilter(idx.docs[id].metadata, f.value) == Ok(true);
      DeleteIds(idx, matched)
    else
      assert forall c :: !OwnedByAny(c, {});
      (idx, 0)
  }

  // ---------------------------------------------------------------------
  // rebuild_index
  // ---------------------------------------------------------------------

  /** What the vector-index library does when asked to build: it is not
      installed, it builds, or it raises. */
  datatype Leann = Unavailable | Builds | BuildFails

  /** `rebuild_index`: with no chunks, nothing; without the library, only
      the count; otherwise the index is built over every chunk file in
      name order and that order is saved as the position-to-chunk
      mapping. The result is the number of chunk files. */
  function RebuildChunks(idx: Index, listing: seq<string>, leann: Leann): (r: Outcome<(Index, nat)>)
    requires Enumerates(listing, idx.chunks.Keys)
    ensures r.Raised? <==> |idx.chunks| > 0 && leann == BuildFails
    ensures r.Ok? ==> r.value.1 == |idx.chunks|
    ensures r.Ok? ==> r.value.0.docs == idx.docs && r.value.0.chunks == idx.chunks && r.value.0.meta == idx.meta
    ensures r.Ok? && (|idx.chunks| == 0 || leann == Unavailable) ==> r.value.0 == idx
    ensures r.Ok? && |idx.chunks| > 0 && leann == Builds ==>
      && r.value.0.built
      && multiset(r.value.0.mapping) == multiset(idx.chunks.Keys)
      && SortedBy(r.value.0.mapping, FileLess)
  {
    DistinctMultiset(listing, idx.chunks.Keys);
    assert |listing| == |multiset(listing)| == |idx.chunks.Keys|;
    if |listing| == 0 then Ok((idx, 0))
    else
      match leann
      case Unavailable => Ok((idx, |listing|))
      case BuildFails => Raised
      case Builds => Ok((idx.(mapping := SortedFiles(listing), built := true), |listing|))
  }

  /** The saved mapping does not depend on the order the directory listed
      the chunk files in. */
  lemma RebuildMappingUnique(idx: Index, l1: seq<string>, l2: seq<string>)
    requires Enumerates(l1, idx.chunks.Keys) && Enumerates(l2, idx.chunks.Keys)
    ensures RebuildChunks(idx, l1, Builds) == RebuildChunks(idx, l2, Builds)
  {
    DistinctMultiset(l1, idx.chunks.Keys);
    DistinctMultiset(l2, idx.chunks.Keys);
    SortedFilesUnique(l1, l2, idx.chunks.Keys);
  }
}
