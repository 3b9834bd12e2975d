/** Four places where the code as written lets through an input its
    authors evidently did not mean to accept. Each has the as-written
    behaviour, as the operations elsewhere in the model follow it, with an
    input that exhibits it, next to a corrected definition and the
    property its authors evidently intended, proved of it. */
module Findings {
  import opened Base
  import opened Text
  import opened Chunker
  import opened Schemas
  import opened Store
  import opened Documents

  // ---------------------------------------------------------------------
  // 1. Index settings whose overlap is too large for the chunker.
  // ---------------------------------------------------------------------

  /** Settings the declared field bounds accept: the smallest chunk size
      with the largest overlap it may have per field. */
  function StallingSettings(): (s: IndexSettings)
    ensures SettingsInBounds(s) && s.chunkSize == s.chunkOverlap
  {
    IndexSettings(Hnsw, "cl-nagoya/ruri-v3-310m", 32, 64, 64, 64)
  }

  /** As written: with those settings every window that does not reach
      the end of the text is followed by one that starts no later, so the
      chunking loop never ends on a text longer than 64 characters. The
      corrected validation rejects them. */
  lemma InBoundsSettingsStall(text: string, seps: seq<string>, start: nat)
    requires start + 64 < |text|
    ensures var s := StallingSettings();
      && BreakPoint(text, seps, start, s.chunkSize) - s.chunkOverlap <= start
      && !Advancing(text, seps, start, s.chunkSize, s.chunkOverlap)
      && !Chunkable(text, seps, s.chunkSize, s.chunkOverlap)
      && !SettingsValid(s)
  {
    var s := StallingSettings();
    assert BreakPoint(text, seps, 0, s.chunkSize) - s.chunkOverlap <= 0;
  }

  /** Corrected validation: the field bounds plus the cross-field
      condition that the overlap is at most half the chunk size. */
  predicate SettingsValid(s: IndexSettings) {
    SettingsInBounds(s) && Progresses(s.chunkSize, s.chunkOverlap)
  }

  /** Corrected: settings that pass it let the chunker run on any text. */
  lemma ValidSettingsChunk(s: IndexSettings, text: string, seps: seq<string>)
    requires SettingsValid(s)
    ensures Chunkable(text, seps, s.chunkSize, s.chunkOverlap)
  {
    ProgressesAdvancing(text, seps, 0, s.chunkSize, s.chunkOverlap);
  }

  /** Corrected: under validated settings each window moves the start
      forward. */
  lemma ValidSettingsAdvance(s: IndexSettings, text: string, seps: seq<string>, start: nat)
    requires SettingsValid(s) && start + s.chunkSize < |text|
    ensures start < BreakPoint(text, seps, start, s.chunkSize) - s.chunkOverlap
  {
    ProgressesAdvancing(text, seps, start, s.chunkSize, s.chunkOverlap);
  }

  // ---------------------------------------------------------------------
  // 2. Add options carry no bounds at all.
  // ---------------------------------------------------------------------

  /** One document with `chunk_size` 1 and the default overlap. */
  function TinyChunkRequest(text: string): (r: AddRequest)
    requires |text| >= 1
    ensures AddRequestInBounds(r)
    ensures EffectiveSize(r.options, DefaultSettings()) == 1
    ensures EffectiveOverlap(r.options, DefaultSettings()) == DefaultSettings().chunkOverlap
  {
    AddRequest([DocumentInput(None, text, None)], Some(AddOptions(Some(1), None, false)))
  }

  /** As written: the request is accepted, and the first window of a text
      of two or more characters is followed by one starting before the
      text: the loop never ends. The corrected check rejects it. */
  lemma UnboundedAddOptionsStall(text: string, seps: seq<string>)
    requires |text| >= 2
    ensures var r := TinyChunkRequest(text);
      var s := DefaultSettings();
      && AddRequestInBounds(r)
      && BreakPoint(text, seps, 0, EffectiveSize(r.options, s)) - EffectiveOverlap(r.options, s) < 0
      && !Chunkable(text, seps, EffectiveSize(r.options, s), EffectiveOverlap(r.options, s))
      && !AddRequestValid(r, s)
  {
  }

  /** Corrected check: the accepted shape plus progress for the size and
      overlap in effect. */
  predicate AddRequestValid(r: AddRequest, s: IndexSettings) {
    AddRequestInBounds(r) && Progresses(EffectiveSize(r.options, s), EffectiveOverlap(r.options, s))
  }

  /** Corrected: a request passing it chunks every one of its documents. */
  lemma AddRequestChunks(r: AddRequest, idx: Index, freshIds: seq<string>)
    requires |freshIds| == |r.documents|
    requires AddRequestValid(r, idx.meta.settings)
    ensures forall i | 0 <= i < |r.documents| ::
      Chunkable(r.documents[i].content, Separators, EffectiveSize(r.options, idx.meta.settings), EffectiveOverlap(r.options, idx.meta.settings))
    ensures AllChunkable(idx, r.documents, freshIds, r.options)
  {
    var s := idx.meta.settings;
    forall i | 0 <= i < |r.documents|
      ensures Chunkable(r.documents[i].content, Separators, EffectiveSize(r.options, s), EffectiveOverlap(r.options, s))
    {
      ProgressesAdvancing(r.documents[i].content, Separators, 0, EffectiveSize(r.options, s), EffectiveOverlap(r.options, s));
    }
  }

  // ---------------------------------------------------------------------
  // 3. The chunk glob reaches other documents' chunks.
  // ---------------------------------------------------------------------

  /** Corrected: delete the chunks `docId` owns, the id, `_chunk_` and
      digits only. */
  function DropOwnedChunks(chunks: map<string, Chunk>, docId: string): (r: map<string, Chunk>)
    ensures forall c :: c in r <==> c in chunks && !IsChunkOf(docId, c)
    ensures forall c | c in r :: r[c] == chunks[c]
  {
    map c | c in chunks && !IsChunkOf(docId, c) :: chunks[c]
  }

  /** As written: deleting document `a` by the glob also deletes the first
      chunk of document `a_chunk_1`; deleting by ownership keeps it. */
  lemma GlobDropsOtherDocument()
    ensures var c := ChunkId("a_chunk_1", 0);
      var chunks := map[c := Chunk("a_chunk_1", "x", 0, None)];
      && IsChunkOf("a_chunk_1", c)
      && !IsChunkOf("a", c)
      && c !in DropChunks(chunks, "a")
      && c in DropOwnedChunks(chunks, "a")
  {
    var c := ChunkId("a_chunk_1", 0);
    ChunkIdIsChunkOf("a_chunk_1", 0);
    assert NatToString(0) == "0";
    assert c == "a_chunk_1_chunk_0";
    assert MatchesChunkGlob("a", c) by {
      assert c[..|"a" + ChunkInfix|] == "a_chunk_";
    }
    assert !IsDigit(c[9]);
  }

  /** Corrected: a chunk the ownership test assigns to one document it
      assigns to no other. */
  lemma OwnershipIsExclusive(d1: string, d2: string, c: string)
    requires IsChunkOf(d1, c) && d1 != d2
    ensures !IsChunkOf(d2, c)
  {
    if IsChunkOf(d2, c) {
      ChunkOwnerUnique(d1, d2, c);
    }
  }

  /** Corrected: deleting a document by ownership keeps every chunk of
      every other document. */
  lemma DropOwnedKeepsOthers(chunks: map<string, Chunk>, docId: string, other: string, c: string)
    requires c in chunks && IsChunkOf(other, c) && other != docId
    ensures c in DropOwnedChunks(chunks, docId) && DropOwnedChunks(chunks, docId)[c] == chunks[c]
  {
    OwnershipIsExclusive(other, docId, c);
  }

  // ---------------------------------------------------------------------
  // 4. Updating through `add_documents` leaves stale chunks.
  // ---------------------------------------------------------------------

  /** A document stored as two chunks. */
  function TwoChunks(docId: string): (chunks: map<string, Chunk>)
    ensures ChunkId(docId, 0) in chunks && ChunkId(docId, 1) in chunks
  {
    map[ChunkId(docId, 0) := Chunk(docId, "old 0", 0, None), ChunkId(docId, 1) := Chunk(docId, "old 1", 1, None)]
  }

  /** As written: re-adding the document as one chunk overwrites chunk 0
      and leaves chunk 1 with the old text; replacing the chunks, as
      `update_document` does, removes it. */
  lemma WriteLeavesStaleChunk(idx: Index, docId: string, now: Time)
    requires idx.chunks == TwoChunks(docId)
    ensures var w := AddOne(idx, docId, "new", ["new"], None, true, now).idx.chunks;
      ChunkId(docId, 1) in w && w[ChunkId(docId, 1)].content == "old 1"
    ensures ChunkId(docId, 1) !in ReplaceChunks(TwoChunks(docId), docId, ["new"], None)
  {
    ChunkIdIsChunkOf(docId, 1);
    WrittenIdsDiffer(docId, 1);
    ReplaceChunksExact(TwoChunks(docId), docId, ["new"], None);
  }
}
