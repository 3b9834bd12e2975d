/** The search endpoints (src/api/search.py) behind FastAPI's request
    validation (src/main.py): a body pydantic rejects is a 400
    `VALIDATION_ERROR` before the handler runs; an unknown index is a 404
    `INDEX_NOT_FOUND` before any search; an exception escaping a handler
    is a 500 `INTERNAL_ERROR`. */
module SearchApi {
  import opened Base
  import opened Filter
  import opened Schemas
  import opened Store
  import opened Search
  import opened Hybrid
  import opened Sorting

  /** `SearchData` without the query time. */
  datatype SearchData = SearchData(results: seq<Hit>, totalFound: nat)

  /** `GrepSearchData` without the query time. */
  datatype GrepData = GrepData(results: seq<GrepHit>, totalFound: nat)

  /** `min(request.top_k, settings.max_top_k)`, with the schema's default
      for an omitted `top_k`. */
  function ClampTopK(requested: Option<int>, default: int, config: Config): (k: int)
    ensures k <= requested.GetOr(default) && k <= config.maxTopK
    ensures k == requested.GetOr(default) || k == config.maxTopK
  {
    Min(requested.GetOr(default), config.maxTopK)
  }

  /** The options `semantic_search` passes to the service. */
  datatype Resolved = Resolved(complexity: int, includeContent: bool, includeMetadata: bool, minScore: real)

  /** `request.options or {}` then `getattr(options, field, default)`: with
      no options object every field takes the handler's default, the
      complexity coming from the configuration; with an options object
      every field is set, an omitted one to the schema's default. */
  function ResolveOptions(options: Option<SearchOptions>, config: Config): (r: Resolved)
    ensures options.None? ==> r == Resolved(config.searchComplexity, true, true, 0.0)
    ensures options.Some? ==>
      && r.complexity == options.value.searchComplexity.GetOr(SearchComplexityDefault)
      && r.includeContent == options.value.includeContent.GetOr(true)
      && r.includeMetadata == options.value.includeMetadata.GetOr(true)
      && r.minScore == options.value.minScore.GetOr(0.0)
  {
    match options
    case None => Resolved(config.searchComplexity, true, true, 0.0)
    case Some(o) =>
      Resolved(o.searchComplexity.GetOr(SearchComplexityDefault), o.includeContent.GetOr(true),
               o.includeMetadata.GetOr(true), o.minScore.GetOr(0.0))
  }

  /** An empty options object and no options object differ in the
      complexity they ask for whenever the configured complexity is not
      the schema's default. */
  lemma EmptyOptionsDiffer(config: Config)
    requires config.searchComplexity != SearchComplexityDefault
    ensures ResolveOptions(Some(SearchOptions(None, None, None, None)), config).complexity
         != ResolveOptions(None, config).complexity
  {
  }

  // ---------------------------------------------------------------------
  // POST /indexes/{index_name}/search
  // ---------------------------------------------------------------------

  /** The semantic search a request asks for raises: the backend does not
      answer, so the brute-force search runs, the embedding model is
      loaded, and the filter raises on a stored chunk. */
  predicate SemanticRaises(idx: Index, req: SearchRequest, config: Config,
                           searcher: Option<Searcher>, embedder: Embedder) {
    var k := ClampTopK(req.topK, SearchTopKDefault, config);
    var o := ResolveOptions(req.options, config);
    && !BackendAnswers(idx, req.query, k, req.filter, o.includeContent, o.includeMetadata, o.minScore, searcher)
    && embedder.Loaded? && Active(req.filter)
    && exists c | c in idx.chunks :: MatchesFilter(idx.chunks[c].metadata, req.filter.value).Raised?
  }

  /** `semantic_search`: the service's `search` with the clamped `top_k`
      and the resolved options. Once the request is valid and the index
      exists, it fails exactly when the brute-force search raises. */
  function SemanticEndpoint(reg: Registry, name: string, chunkListing: seq<string>, req: SearchRequest, config: Config,
                            searcher: Option<Searcher>, embedder: Embedder): (r: Response<SearchData>)
    requires name in reg ==> Enumerates(chunkListing, reg[name].chunks.Keys)
    ensures r == Failure(400, ValidationError) <==> !ValidSearch(req)
    ensures r == Failure(404, IndexNotFound) <==> ValidSearch(req) && name !in reg
    ensures r == Failure(500, InternalError) <==>
      ValidSearch(req) && name in reg && SemanticRaises(reg[name], req, config, searcher, embedder)
    ensures r.Success? ==>
      var k := ClampTopK(req.topK, SearchTopKDefault, config);
      var o := ResolveOptions(req.options, config);
      var s := SemanticSearch(reg[name], chunkListing, req.query, k, req.filter, o.includeContent, o.includeMetadata,
                              o.minScore, searcher, embedder);
      s.Ok? && r.data == SearchData(s.value.0, s.value.1)
    ensures r.Success? ==> r.data.totalFound == |r.data.results|
    ensures r.Success? && config.maxTopK >= 1 ==>
      |r.data.results| <= Min(req.topK.GetOr(SearchTopKDefault), config.maxTopK)
  {
    if !ValidSearch(req) then Failure(400, ValidationError)
    else if name !in reg then Failure(404, IndexNotFound)
    else
      var k := ClampTopK(req.topK, SearchTopKDefault, config);
      var o := ResolveOptions(req.options, config);
      match SemanticSearch(reg[name], chunkListing, req.query, k, req.filter, o.includeContent, o.includeMetadata,
                           o.minScore, searcher, embedder)
      case Raised => Failure(500, InternalError)
      case Ok((hits, total)) => Success(SearchData(hits, total))
  }

  // ---------------------------------------------------------------------
  // POST /indexes/{index_name}/search/grep
  // ---------------------------------------------------------------------

  /** `grep_search`: the service's grep search with the clamped `top_k`; a
      filter that raises on any chunk of the index is a 500. */
  function GrepEndpoint(reg: Registry, name: string, chunkListing: seq<string>, req: GrepRequest,
                        config: Config): (r: Response<GrepData>)
    requires name in reg ==> Enumerates(chunkListing, reg[name].chunks.Keys)
    ensures r == Failure(400, ValidationError) <==> !ValidGrep(req)
    ensures r == Failure(404, IndexNotFound) <==> ValidGrep(req) && name !in reg
    ensures r == Failure(500, InternalError) <==>
      && ValidGrep(req) && name in reg && Active(req.filter)
      && exists c | c in reg[name].chunks :: MatchesFilter(reg[name].chunks[c].metadata, req.filter.value).Raised?
    ensures r.Success? ==>
      && r.data.totalFound == |r.data.results|
      && (config.maxTopK >= 1 ==> |r.data.results| <= Min(req.topK.GetOr(GrepTopKDefault), config.maxTopK))
      && SortedBy(GrepIds(r.data.results), FileLess)
      && forall k | 0 <= k < |r.data.results| ::
           && GrepFound(reg[name].chunks, req.query, r.data.results[k])
           && (Active(req.filter) ==>
                 MatchesFilter(reg[name].chunks[r.data.results[k].chunkId].metadata, req.filter.value) == Ok(true))
    ensures r.Success? ==>
      FirstMatching(reg[name].chunks, req.query, ClampTopK(req.topK, GrepTopKDefault, config), req.filter, r.data.results)
  {
    if !ValidGrep(req) then Failure(400, ValidationError)
    else if name !in reg then Failure(404, IndexNotFound)
    else
      match GrepSearch(reg[name], chunkListing, req.query, ClampTopK(req.topK, GrepTopKDefault, config), req.filter)
      case Raised => Failure(500, InternalError)
      case Ok((hits, total)) => Success(GrepData(hits, total))
  }

  // ---------------------------------------------------------------------
  // POST /indexes/{index_name}/search/hybrid
  // ---------------------------------------------------------------------

  /** `hybrid_search`: the service's hybrid search with the clamped `top_k`
      and the request's weights; it fails exactly where grep does. */
  function HybridEndpoint(reg: Registry, name: string, chunkListing: seq<string>, req: HybridRequest,
                          config: Config, searcher: Option<Searcher>, embedder: Embedder): (r: Response<SearchData>)
    requires name in reg ==> Enumerates(chunkListing, reg[name].chunks.Keys)
    ensures r == Failure(400, ValidationError) <==> !ValidHybrid(req)
    ensures r == Failure(404, IndexNotFound) <==> ValidHybrid(req) && name !in reg
    ensures r == Failure(500, InternalError) <==>
      && ValidHybrid(req) && name in reg && Active(req.filter)
      && exists c | c in reg[name].chunks :: MatchesFilter(reg[name].chunks[c].metadata, req.filter.value).Raised?
    ensures r.Success? ==>
      && r.data.totalFound == |r.data.results|
      && (config.maxTopK >= 0 ==> |r.data.results| <= Min(req.topK.GetOr(HybridTopKDefault), config.maxTopK))
    ensures r.Success? ==>
      var k := ClampTopK(req.topK, HybridTopKDefault, config);
      var grep := GrepPart(reg[name], chunkListing, req.query, k, req.filter);
      var sem := SemanticPart(reg[name], chunkListing, req.query, k, req.filter, searcher, embedder);
      && grep.Ok? && sem.Ok?
      && r.data.results == Fuse(sem.value, grep.value, k,
                                req.semanticWeight.GetOr(SemanticWeightDefault),
                                req.keywordWeight.GetOr(KeywordWeightDefault))
  {
    if !ValidHybrid(req) then Failure(400, ValidationError)
    else if name !in reg then Failure(404, IndexNotFound)
    else
      var k := ClampTopK(req.topK, HybridTopKDefault, config);
      match HybridSearch(reg[name], chunkListing, req.query, k,
                         req.semanticWeight.GetOr(SemanticWeightDefault), req.keywordWeight.GetOr(KeywordWeightDefault),
                         req.filter, searcher, embedder)
      case Raised => Failure(500, InternalError)
      case Ok((hits, total)) => Success(SearchData(hits, total))
  }

  // ---------------------------------------------------------------------
  // POST /indexes/{index_name}/search/batch
  // ---------------------------------------------------------------------

  /** `batch_search`: every query answered with its own `top_k`, which is
      NOT clamped to `max_top_k`; one entry per distinct query id. A query
      whose search raises makes the whole batch fail. */
  function BatchEndpoint(reg: Registry, name: string, chunkListing: seq<string>, req: BatchRequest,
                         searcher: Option<Searcher>, embedder: Embedder): (r: Response<map<string, BatchItem>>)
    requires name in reg ==> Enumerates(chunkListing, reg[name].chunks.Keys)
    ensures r == Failure(400, ValidationError) <==> !ValidBatch(req)
    ensures r == Failure(404, IndexNotFound) <==> ValidBatch(req) && name !in reg
    ensures r == Failure(500, InternalError) <==>
      && ValidBatch(req) && name in reg && embedder.Loaded? && Active(req.filter)
      && (exists c | c in reg[name].chunks :: MatchesFilter(reg[name].chunks[c].metadata, req.filter.value).Raised?)
      && exists i | 0 <= i < |req.queries| ::
           !BackendAnswers(reg[name], req.queries[i].query, req.queries[i].topK.GetOr(BatchTopKDefault),
                           req.filter, true, true, 0.0, searcher)
    ensures r.Success? ==>
      var b := BatchSearch(reg[name], chunkListing, req.queries, req.filter, searcher, embedder);
      && b.Ok? && r.data == b.value
      && (forall id :: id in r.data <==> exists i | 0 <= i < |req.queries| :: req.queries[i].id == id)
  {
    if !ValidBatch(req) then Failure(400, ValidationError)
    else if name !in reg then Failure(404, IndexNotFound)
    else
      match BatchSearch(reg[name], chunkListing, req.queries, req.filter, searcher, embedder)
      case Raised => Failure(500, InternalError)
      case Ok(answers) => Success(answers)
  }

  /** A batch query is searched with its own `top_k`, while the same
      query sent alone is searched with `top_k` cut to `max_top_k`. */
  lemma BatchUsesOwnTopK(reg: Registry, name: string, chunkListing: seq<string>, q: BatchQuery, config: Config,
                         searcher: Option<Searcher>, embedder: Embedder)
    requires name in reg && Enumerates(chunkListing, reg[name].chunks.Keys) && ValidBatchQuery(q)
    ensures var single := SemanticEndpoint(reg, name, chunkListing, SearchRequest(q.query, q.topK, None, None), config, searcher, embedder);
      var k := Min(q.topK.GetOr(SearchTopKDefault), config.maxTopK);
      && single.Success?
      && single.data.results == SemanticSearch(reg[name], chunkListing, q.query, k, None, true, true, 0.0, searcher, embedder).value.0
    ensures var batch := BatchEndpoint(reg, name, chunkListing, BatchRequest([q], None), searcher, embedder);
      var k := q.topK.GetOr(BatchTopKDefault);
      && batch.Success? && q.id in batch.data
      && batch.data[q.id].results == SemanticSearch(reg[name], chunkListing, q.query, k, None, true, true, 0.0, searcher, embedder).value.0
  {
    SingleClampsTopK(reg, name, chunkListing, q, config, searcher, embedder);
    BatchKeepsTopK(reg, name, chunkListing, q, searcher, embedder);
  }

  /** The query sent alone is searched with `top_k` cut to `max_top_k`. */
  lemma SingleClampsTopK(reg: Registry, name: string, chunkListing: seq<string>, q: BatchQuery, config: Config,
                         searcher: Option<Searcher>, embedder: Embedder)
    requires name in reg && Enumerates(chunkListing, reg[name].chunks.Keys) && ValidBatchQuery(q)
    ensures var single := SemanticEndpoint(reg, name, chunkListing, SearchRequest(q.query, q.topK, None, None), config, searcher, embedder);
      var k := Min(q.topK.GetOr(SearchTopKDefault), config.maxTopK);
      && single.Success?
      && single.data.results == SemanticSearch(reg[name], chunkListing, q.query, k, None, true, true, 0.0, searcher, embedder).value.0
  {
  }

  /** The query sent in a batch of one is searched with its own `top_k`. */
  lemma BatchKeepsTopK(reg: Registry, name: string, chunkListing: seq<string>, q: BatchQuery,
                       searcher: Option<Searcher>, embedder: Embedder)
    requires name in reg && Enumerates(chunkListing, reg[name].chunks.Keys) && ValidBatchQuery(q)
    ensures var batch := BatchEndpoint(reg, name, chunkListing, BatchRequest([q], None), searcher, embedder);
      var k := q.topK.GetOr(BatchTopKDefault);
      && batch.Success? && q.id in batch.data
      && batch.data[q.id].results == SemanticSearch(reg[name], chunkListing, q.query, k, None, true, true, 0.0, searcher, embedder).value.0
  {
    var req := BatchRequest([q], None);
    assert ValidBatch(req);
    var b := BatchSearch(reg[name], chunkListing, [q], None, searcher, embedder);
    assert b.Ok?;
    assert BatchEndpoint(reg, name, chunkListing, req, searcher, embedder) == Success(b.value);
    BatchAnswersEachQuery(reg[name], chunkListing, [q], None, searcher, embedder, 0);
  }
}
