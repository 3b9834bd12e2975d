/** Request and settings schemas, their bounds and defaults, and the
    application configuration (the files under src/schemas and src/config.py).

    Pydantic's `float` fields are modelled as `real`: the bounds are exact
    and no rounding is modelled. */
module Schemas {
  import opened Base
  import opened Chunker
  import opened Filter
  import opened Values

  // ---------------------------------------------------------------------
  // Index settings (src/schemas/index.py).
  // ---------------------------------------------------------------------

  datatype Backend = Hnsw | Diskann

  /** The `Literal["hnsw", "diskann"]` check on a configured backend name. */
  function ParseBackend(name: string): (r: Option<Backend>)
    ensures r == Some(Hnsw) <==> name == "hnsw"
    ensures r == Some(Diskann) <==> name == "diskann"
    ensures r.None? <==> name !in {"hnsw", "diskann"}
  {
    if name == "hnsw" then Some(Hnsw)
    else if name == "diskann" then Some(Diskann)
    else None
  }

  datatype IndexSettings = IndexSettings(
    backend: Backend,
    embeddingModel: string,
    graphDegree: int,
    buildComplexity: int,
    chunkSize: int,
    chunkOverlap: int)

  /** The field bounds of `IndexSettings`, exactly as declared: each field
      is checked on its own. */
  predicate SettingsInBounds(s: IndexSettings) {
    && 8 <= s.graphDegree <= 128
    && 32 <= s.buildComplexity <= 512
    && 64 <= s.chunkSize <= 4096
    && 0 <= s.chunkOverlap <= 512
  }

  /** `IndexSettings()` with every field defaulted. */
  function DefaultSettings(): (s: IndexSettings)
    ensures SettingsInBounds(s) && Progresses(s.chunkSize, s.chunkOverlap)
    ensures s.backend == Hnsw
  {
    IndexSettings(Hnsw, "cl-nagoya/ruri-v3-310m", 32, 64, 512, 64)
  }

  /** `Literal["empty", "building", "ready", "error"]` */
  datatype IndexStatus = Empty | Building | Ready | Error

  // ---------------------------------------------------------------------
  // Index names: `^[a-zA-Z][a-zA-Z0-9_]*$`, 1 to 64 characters.
  // ---------------------------------------------------------------------

  predicate IsAsciiLetter(c: char) {
    ('a' <= c <= 'z') || ('A' <= c <= 'Z')
  }

  predicate IsNameChar(c: char) {
    IsAsciiLetter(c) || ('0' <= c <= '9') || c == '_'
  }

  predicate ValidIndexName(name: string) {
    && 1 <= |name| <= 64
    && IsAsciiLetter(name[0])
    && forall i | 1 <= i < |name| :: IsNameChar(name[i])
  }

  /** The field validator on `CreateIndexRequest.name`, scanning the name
      once as the pattern does. */
  method CheckIndexName(name: string) returns (ok: bool)
    ensures ok <==> ValidIndexName(name)
  {
    if |name| < 1 || |name| > 64 || !IsAsciiLetter(name[0]) {
      return false;
    }
    var i := 1;
    while i < |name|
      invariant 1 <= i <= |name|
      invariant forall j | 1 <= j < i :: IsNameChar(name[j])
    {
      if !IsNameChar(name[i]) {
        return false;
      }
      i := i + 1;
    }
    return true;
  }

  // ---------------------------------------------------------------------
  // Configuration (src/config.py).
  // ---------------------------------------------------------------------

  datatype Config = Config(
    leannBackend: string,
    embeddingModel: string,
    graphDegree: int,
    buildComplexity: int,
    searchComplexity: int,
    defaultChunkSize: int,
    defaultChunkOverlap: int,
    maxUploadSizeMb: int,
    defaultTopK: int,
    maxTopK: int)

  /** `Settings()` with no environment overrides. */
  function DefaultConfig(): (c: Config)
    ensures Progresses(c.defaultChunkSize, c.defaultChunkOverlap)
    ensures c.defaultTopK <= c.maxTopK
    ensures MaxUploadSizeBytes(c) == 10485760
  {
    Config("hnsw", "cl-nagoya/ruri-v3-310m", 32, 64, 32, 512, 64, 10, 10, 100)
  }

  /** The `max_upload_size_bytes` property: megabytes to bytes. */
  function MaxUploadSizeBytes(c: Config): int {
    c.maxUploadSizeMb * 1024 * 1024
  }

  /** Building `IndexSettings` from the configuration, as `create_index`
      does when no settings are given; validation raises on a bad value. */
  function SettingsFromConfig(c: Config): (r: Outcome<IndexSettings>)
    ensures r.Ok? ==> SettingsInBounds(r.value)
    ensures r.Ok? ==>
      && r.value.chunkSize == c.defaultChunkSize
      && r.value.chunkOverlap == c.defaultChunkOverlap
      && r.value.graphDegree == c.graphDegree
      && r.value.buildComplexity == c.buildComplexity
      && r.value.embeddingModel == c.embeddingModel
      && Some(r.value.backend) == ParseBackend(c.leannBackend)
    ensures r.Raised? <==>
      || ParseBackend(c.leannBackend).None?
      || !SettingsInBounds(IndexSettings(Hnsw, c.embeddingModel, c.graphDegree,
           c.buildComplexity, c.defaultChunkSize, c.defaultChunkOverlap))
  {
    match ParseBackend(c.leannBackend)
    case None => Raised
    case Some(b) =>
      var s := IndexSettings(b, c.embeddingModel, c.graphDegree, c.buildComplexity,
                             c.defaultChunkSize, c.defaultChunkOverlap);
      if SettingsInBounds(s) then Ok(s) else Raised
  }

  /** The default configuration yields the default settings. */
  lemma DefaultConfigSettings()
    ensures SettingsFromConfig(DefaultConfig()) == Ok(DefaultSettings())
  {
  }

  // ---------------------------------------------------------------------
  // Error envelope (src/schemas/common.py).
  // ---------------------------------------------------------------------

  datatype ErrorCode =
    | ValidationError
    | IndexNotFound
    | IndexAlreadyExists
    | DocumentNotFound
    | InternalError

  /** `APIResponse`: success with data, or an HTTP status and error code. */
  datatype Response<+T> = Success(data: T) | Failure(status: int, code: ErrorCode)

  // ---------------------------------------------------------------------
  // Search requests (src/schemas/search.py). A field the client may omit
  // is an `Option`; its default is applied by the `...Of` accessors.
  // ---------------------------------------------------------------------

  const SearchTopKDefault := 10
  const GrepTopKDefault := 20
  const HybridTopKDefault := 10
  const BatchTopKDefault := 5
  const SemanticWeightDefault: real := 0.7
  const KeywordWeightDefault: real := 0.3
  const SearchComplexityDefault := 32
  const MaxBatchQueries := 50

  predicate TopKInBounds(k: int) { 1 <= k <= 100 }

  predicate UnitInterval(x: real) { 0.0 <= x <= 1.0 }

  datatype SearchOptions = SearchOptions(
    searchComplexity: Option<int>,
    includeContent: Option<bool>,
    includeMetadata: Option<bool>,
    minScore: Option<real>)

  predicate OptionsInBounds(o: SearchOptions) {
    && 16 <= o.searchComplexity.GetOr(SearchComplexityDefault) <= 256
    && UnitInterval(o.minScore.GetOr(0.0))
  }

  datatype SearchRequest = SearchRequest(
    query: string,
    topK: Option<int>,
    filter: Option<Filter>,
    options: Option<SearchOptions>)

  datatype GrepRequest = GrepRequest(query: string, topK: Option<int>, filter: Option<Filter>)

  datatype HybridRequest = HybridRequest(
    query: string,
    topK: Option<int>,
    semanticWeight: Option<real>,
    keywordWeight: Option<real>,
    filter: Option<Filter>)

  datatype BatchQuery = BatchQuery(id: string, query: string, topK: Option<int>)

  datatype BatchRequest = BatchRequest(queries: seq<BatchQuery>, filter: Option<Filter>)

  /** The request bodies pydantic accepts. Each query must be non-empty and
      each `top_k` within `[1, 100]` once defaulted; the hybrid weights are
      each in `[0, 1]` with no condition on their sum. */
  predicate ValidSearch(r: SearchRequest) {
    && |r.query| >= 1
    && TopKInBounds(r.topK.GetOr(SearchTopKDefault))
    && (r.options.Some? ==> OptionsInBounds(r.options.value))
  }

  predicate ValidGrep(r: GrepRequest) {
    |r.query| >= 1 && TopKInBounds(r.topK.GetOr(GrepTopKDefault))
  }

  predicate ValidHybrid(r: HybridRequest) {
    && |r.query| >= 1
    && TopKInBounds(r.topK.GetOr(HybridTopKDefault))
    && UnitInterval(r.semanticWeight.GetOr(SemanticWeightDefault))
    && UnitInterval(r.keywordWeight.GetOr(KeywordWeightDefault))
  }

  predicate ValidBatchQuery(q: BatchQuery) {
    |q.query| >= 1 && TopKInBounds(q.topK.GetOr(BatchTopKDefault))
  }

  predicate ValidBatch(r: BatchRequest) {
    && 1 <= |r.queries| <= MaxBatchQueries
    && forall i | 0 <= i < |r.queries| :: ValidBatchQuery(r.queries[i])
  }

  /** The defaults every schema declares are themselves valid, and the
      weights need not sum to one. */
  lemma DefaultsValid(query: string)
    requires |query| >= 1
    ensures ValidSearch(SearchRequest(query, None, None, Some(SearchOptions(None, None, None, None))))
    ensures ValidGrep(GrepRequest(query, None, None))
    ensures ValidHybrid(HybridRequest(query, None, None, None, None))
    ensures ValidHybrid(HybridRequest(query, None, Some(1.0), Some(1.0), None))
    ensures ValidBatch(BatchRequest([BatchQuery("q", query, None)], None))
    ensures !ValidBatch(BatchRequest([], None))
  {
  }

  // ---------------------------------------------------------------------
  // Document requests (src/schemas/document.py).
  // ---------------------------------------------------------------------

  datatype DocumentInput = DocumentInput(id: Option<string>, content: string, metadata: Option<Metadata>)

  /** `chunk_size` and `chunk_overlap` are optional and carry no bounds. */
  datatype AddOptions = AddOptions(chunkSize: Option<int>, chunkOverlap: Option<int>, updateIfExists: bool)

  datatype AddRequest = AddRequest(documents: seq<DocumentInput>, options: Option<AddOptions>)

  /** The add request pydantic accepts: at least one document, each with
      non-empty content. The options are not checked at all. */
  predicate AddRequestInBounds(r: AddRequest) {
    && |r.documents| >= 1
    && forall i | 0 <= i < |r.documents| :: |r.documents[i].content| >= 1
  }

  /** `option or fallback`: a missing or zero option falls back. */
  function OrElse(option: Option<int>, fallback: int): (r: int)
    ensures option.None? || option == Some(0) ==> r == fallback
    ensures option.Some? && option.value != 0 ==> r == option.value
  {
    if option.None? || option.value == 0 then fallback else option.value
  }

  /** The chunk size and overlap `add_documents` will use. */
  function EffectiveSize(o: Option<AddOptions>, s: IndexSettings): int {
    OrElse(if o.Some? then o.value.chunkSize else None, s.chunkSize)
  }

  function EffectiveOverlap(o: Option<AddOptions>, s: IndexSettings): int {
    OrElse(if o.Some? then o.value.chunkOverlap else None, s.chunkOverlap)
  }

  /** Asking for no overlap gets the index's overlap instead: zero is falsy. */
  lemma ZeroOverlapFallsBack(s: IndexSettings, size: Option<int>)
    ensures EffectiveOverlap(Some(AddOptions(size, Some(0), false)), s) == s.chunkOverlap
  {
  }

  datatype AddStatus = Added | Updated | Failed

  datatype UpdateRequest = UpdateRequest(
    content: Option<string>,
    metadata: Option<Metadata>,
    mergeMetadata: Option<bool>)

  /** `UpdateDocumentOptions.merge_metadata`, default true. */
  function MergeOf(r: UpdateRequest): (merge: bool)
    ensures r.mergeMetadata.None? ==> merge
  {
    r.mergeMetadata.GetOr(true)
  }

  /** `UpdateMetadataRequest`: `merge` defaults to true. */
  datatype MetadataRequest = MetadataRequest(metadata: Metadata, merge: bool)

  datatype BulkDeleteRequest = BulkDeleteRequest(documentIds: Option<seq<string>>, filter: Option<Filter>)
}
