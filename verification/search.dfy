/** The query side of the service (src/services/search_service.py):
    mapping vector-backend hits to stored chunks, the chunk filter, the
    literal grep over chunks, the brute-force fallback, and batch search.
    The vector backend and the embedding model are parameters. */
module Search {
  import opened Base
  import opened Values
  import opened Filter
  import opened Sorting
  import opened Store
  import opened Matching
  import opened Schemas

  // ---------------------------------------------------------------------
  // Semantic search: the list branch of `search`.
  // ---------------------------------------------------------------------

  /** One element of the backend's result list: a tuple whose first two
      entries are the vector position and the score; a dict with optional
      `index`, `id`, `score` and `similarity` keys; or anything else. */
  datatype Item =
    | Pair(first: int, second: real)
    | Keyed(index: Option<int>, id: Option<int>, score: Option<real>, similarity: Option<real>)
    | Other

  /** The position and score read from an item: a dict falls back from
      `index` to `id` to 0 and from `score` to `similarity` to 1.0. */
  function Read(item: Item): (r: Option<(int, real)>)
    ensures r.None? <==> item.Other?
    ensures item.Pair? ==> r == Some((item.first, item.second))
    ensures item.Keyed? && item.index.Some? ==> r.value.0 == item.index.value
    ensures item.Keyed? && item.index.None? ==> r.value.0 == item.id.GetOr(0)
    ensures item.Keyed? && item.score.Some? ==> r.value.1 == item.score.value
    ensures item.Keyed? && item.score.None? ==> r.value.1 == item.similarity.GetOr(1.0)
  {
    match item
    case Pair(first, second) => Some((first, second))
    case Keyed(index, id, score, similarity) =>
      Some((if index.Some? then index.value else id.GetOr(0),
            if score.Some? then score.value else similarity.GetOr(1.0)))
    case Other => None
  }

  /** `SearchResult`. */
  datatype Hit = Hit(
    documentId: string,
    chunkId: string,
    content: Option<string>,
    metadata: Option<Metadata>,
    score: real,
    position: int)

  /** What one backend item contributes: nothing, a result, or an
      exception out of the filter. */
  datatype Verdict = Skip | Keep(hit: Hit) | Fail

  /** A result is backed by a stored chunk that the vector position maps
      to, scores at least `minScore`, passes the filter, and shows the
      chunk's content and metadata only when asked to. */
  predicate Grounded(idx: Index, h: Hit, minScore: real, filter: Option<Filter>,
                     includeContent: bool, includeMetadata: bool) {
    && h.chunkId in idx.chunks
    && (exists p | 0 <= p < |idx.mapping| :: idx.mapping[p] == h.chunkId)
    && h.score >= minScore
    && h.documentId == idx.chunks[h.chunkId].documentId
    && h.position == idx.chunks[h.chunkId].position
    && h.content == (if includeContent then Some(idx.chunks[h.chunkId].content) else None)
    && h.metadata == (if includeMetadata then idx.chunks[h.chunkId].metadata else None)
    && (Active(filter) ==> MatchesFilter(idx.chunks[h.chunkId].metadata, filter.value) == Ok(true))
  }

  /** The body of the loop over backend items: skip an unreadable item, a
      low score, a position outside the mapping, a chunk that is not
      stored and a chunk the filter rejects; a filter that raises aborts
      the loop. */
  function Judge(idx: Index, item: Item, minScore: real, filter: Option<Filter>,
                 includeContent: bool, includeMetadata: bool): (v: Verdict)
    ensures v.Keep? ==> Grounded(idx, v.hit, minScore, filter, includeContent, includeMetadata)
    ensures v.Keep? ==>
      && Read(item).Some? && 0 <= Read(item).value.0 < |idx.mapping|
      && v.hit.chunkId == idx.mapping[Read(item).value.0] && v.hit.score == Read(item).value.1
    ensures v.Fail? <==>
      && Read(item).Some? && Read(item).value.1 >= minScore
      && 0 <= Read(item).value.0 < |idx.mapping| && idx.mapping[Read(item).value.0] in idx.chunks
      && Active(filter) && MatchesFilter(idx.chunks[idx.mapping[Read(item).value.0]].metadata, filter.value).Raised?
    ensures Read(item).None? || Read(item).value.1 < minScore ==> v.Skip?
  {
    match Read(item)
    case None => Skip
    case Some((p, score)) =>
      if score < minScore then Skip
      else if !(0 <= p < |idx.mapping|) then Skip
      else
        var id := idx.mapping[p];
        if id !in idx.chunks then Skip
        else
          var hit := HitOf(idx.chunks, id, score, includeContent, includeMetadata);
          if !Active(filter) then Keep(hit)
          else match MatchesFilter(idx.chunks[id].metadata, filter.value)
            case Raised => Fail
            case Ok(b) => if b then Keep(hit) else Skip
  }

  /** The loop over backend items: collect kept results, stopping as soon
      as `topK` are collected (checked after each append). */
  function Collect(idx: Index, items: seq<Item>, topK: int, minScore: real, filter: Option<Filter>,
                   includeContent: bool, includeMetadata: bool): (r: Outcome<seq<Hit>>)
    ensures r.Ok? ==> |r.value| <= Max(topK, 1)
    ensures r.Ok? ==> forall k | 0 <= k < |r.value| ::
      Grounded(idx, r.value[k], minScore, filter, includeContent, includeMetadata)
    decreases |items|
  {
    if items == [] then Ok([])
    else
      match Judge(idx, items[0], minScore, filter, includeContent, includeMetadata)
      case Fail => Raised
      case Skip => Collect(idx, items[1..], topK, minScore, filter, includeContent, includeMetadata)
      case Keep(h) =>
        if topK <= 1 then Ok([h])
        else
          match Collect(idx, items[1..], topK - 1, minScore, filter, includeContent, includeMetadata)
          case Raised => Raised
          case Ok(rest) =>
            assert forall k | 1 <= k < |[h] + rest| :: ([h] + rest)[k] == rest[k - 1];
            Ok([h] + rest)
  }

  /** Every kept result, in backend order, when no item makes the filter
      raise. */
  function KeptAll(idx: Index, items: seq<Item>, minScore: real, filter: Option<Filter>,
                   includeContent: bool, includeMetadata: bool): Outcome<seq<Hit>>
    decreases |items|
  {
    if items == [] then Ok([])
    else
      match KeptAll(idx, items[1..], minScore, filter, includeContent, includeMetadata)
      case Raised => Raised
      case Ok(rest) =>
        match Judge(idx, items[0], minScore, filter, includeContent, includeMetadata)
        case Fail => Raised
        case Skip => Ok(rest)
        case Keep(h) => Ok([h] + rest)
  }

  /** When no item raises, the loop returns the first `topK` kept results
      in backend order. */
  lemma {:induction false} CollectTakesFirst(idx: Index, items: seq<Item>, topK: int, minScore: real, filter: Option<Filter>,
                                             includeContent: bool, includeMetadata: bool)
    requires KeptAll(idx, items, minScore, filter, includeContent, includeMetadata).Ok?
    ensures Collect(idx, items, topK, minScore, filter, includeContent, includeMetadata)
         == Ok(Take(KeptAll(idx, items, minScore, filter, includeContent, includeMetadata).value, Max(topK, 1)))
    decreases |items|
  {
    if items != [] {
      var all := KeptAll(idx, items, minScore, filter, includeContent, includeMetadata).value;
      var rest := KeptAll(idx, items[1..], minScore, filter, includeContent, includeMetadata).value;
      match Judge(idx, items[0], minScore, filter, includeContent, includeMetadata)
      case Skip =>
        CollectTakesFirst(idx, items[1..], topK, minScore, filter, includeContent, includeMetadata);
      case Keep(h) =>
        assert all == [h] + rest;
        if topK > 1 {
          CollectTakesFirst(idx, items[1..], topK - 1, minScore, filter, includeContent, includeMetadata);
          assert Take(all, topK) == [h] + Take(rest, topK - 1);
        }
    }
  }

  /** `top_k * 2 if metadata_filters else top_k`. */
  function FetchK(topK: int, filter: Option<Filter>): (k: int)
    ensures Active(filter) ==> k == 2 * topK
    ensures !Active(filter) ==> k == topK
  {
    if Active(filter) then topK * 2 else topK
  }

  /** The vector backend: its reply, or an exception, for a query and a
      result count. */
  type Searcher = (string, int) -> Outcome<seq<Item>>

  /** The backend's results after the loop, or `None` when the backend is
      not used (no searcher, or an empty mapping) or raises, or the
      filter raises. */
  function BackendHits(idx: Index, query: string, topK: int, filter: Option<Filter>,
                       includeContent: bool, includeMetadata: bool, minScore: real,
                       searcher: Option<Searcher>): (r: Option<seq<Hit>>)
    ensures searcher.None? || |idx.mapping| == 0 ==> r.None?
    ensures r.Some? ==>
      && searcher.Some?
      && searcher.value(query, FetchK(topK, filter)).Ok?
      && Collect(idx, searcher.value(query, FetchK(topK, filter)).value, topK, minScore, filter, includeContent, includeMetadata) == Ok(r.value)
  {
    if searcher.None? || |idx.mapping| == 0 then None
    else
      match searcher.value(query, FetchK(topK, filter))
      case Raised => None
      case Ok(items) =>
        match Collect(idx, items, topK, minScore, filter, includeContent, includeMetadata)
        case Raised => None
        case Ok(hits) => Some(hits)
  }

  /** The backend answered: it was used, neither it nor the filter
      raised, and the loop kept at least one result. */
  predicate BackendAnswers(idx: Index, query: string, topK: int, filter: Option<Filter>,
                           includeContent: bool, includeMetadata: bool, minScore: real,
                           searcher: Option<Searcher>) {
    var b := BackendHits(idx, query, topK, filter, includeContent, includeMetadata, minScore, searcher);
    b.Some? && |b.value| > 0
  }

  /** `search`: the backend's results when there are any, otherwise the
      brute-force search's, which raises when the filter raises on a
      stored chunk and the embedding model is loaded. The total found is
      the number returned. */
  function SemanticSearch(idx: Index, chunkListing: seq<string>, query: string, topK: int, filter: Option<Filter>,
                          includeContent: bool, includeMetadata: bool, minScore: real,
                          searcher: Option<Searcher>, embedder: Embedder): (r: Outcome<(seq<Hit>, nat)>)
    requires Enumerates(chunkListing, idx.chunks.Keys)
    ensures r.Raised? <==>
      && !BackendAnswers(idx, query, topK, filter, includeContent, includeMetadata, minScore, searcher)
      && embedder.Loaded? && Active(filter)
      && exists c | c in idx.chunks :: MatchesFilter(idx.chunks[c].metadata, filter.value).Raised?
    ensures r.Ok? ==> r.value.1 == |r.value.0|
    ensures r.Ok? && topK >= 1 ==> |r.value.0| <= topK
    ensures BackendAnswers(idx, query, topK, filter, includeContent, includeMetadata, minScore, searcher) ==>
      && r.Ok?
      && r.value.0 == BackendHits(idx, query, topK, filter, includeContent, includeMetadata, minScore, searcher).value
      && forall k | 0 <= k < |r.value.0| :: Grounded(idx, r.value.0[k], minScore, filter, includeContent, includeMetadata)
    ensures !BackendAnswers(idx, query, topK, filter, includeContent, includeMetadata, minScore, searcher) && r.Ok? ==>
      var fallback := BruteForce(idx, chunkListing, query, topK, filter, includeContent, includeMetadata, minScore, embedder);
      && fallback.Ok? && r.value.0 == fallback.value
      && forall k | 0 <= k < |r.value.0| ::
           Scored(idx, r.value.0[k], query, minScore, filter, includeContent, includeMetadata, embedder)
  {
    var b := BackendHits(idx, query, topK, filter, includeContent, includeMetadata, minScore, searcher);
    if b.Some? && |b.value| > 0 then Ok((b.value, |b.value|))
    else
      match BruteForce(idx, chunkListing, query, topK, filter, includeContent, includeMetadata, minScore, embedder)
      case Raised => Raised
      case Ok(hits) => Ok((hits, |hits|))
  }

  // ---------------------------------------------------------------------
  // The brute-force fallback: `_brute_force_search`.
  // ---------------------------------------------------------------------

  /** The embedding model the fallback loads: unavailable (the import or
      the load fails, and the fallback returns no results), or loaded. A
      loaded model is given by the similarity it yields between a query
      and a chunk's text: the dot product of their normalised embeddings. */
  datatype Embedder = Unavailable | Loaded(similarity: (string, string) -> real)

  /** A result of a stored chunk scored by its similarity to the query, at
      least `minScore`, showing the chunk's content and metadata only
      when asked to. */
  predicate SimilarChunk(chunks: map<string, Chunk>, h: Hit, query: string, minScore: real,
                         includeContent: bool, includeMetadata: bool, similarity: (string, string) -> real) {
    && h.chunkId in chunks
    && h.score == similarity(query, chunks[h.chunkId].content)
    && h.score >= minScore
    && h.documentId == chunks[h.chunkId].documentId
    && h.position == chunks[h.chunkId].position
    && h.content == (if includeContent then Some(chunks[h.chunkId].content) else None)
    && h.metadata == (if includeMetadata then chunks[h.chunkId].metadata else None)
  }

  /** A fallback result: a stored chunk that passes the filter, scored by
      the loaded model's similarity to the query. */
  predicate Scored(idx: Index, h: Hit, query: string, minScore: real, filter: Option<Filter>,
                   includeContent: bool, includeMetadata: bool, embedder: Embedder) {
    && embedder.Loaded?
    && SimilarChunk(idx.chunks, h, query, minScore, includeContent, includeMetadata, embedder.similarity)
    && (Active(filter) ==> MatchesFilter(idx.chunks[h.chunkId].metadata, filter.value) == Ok(true))
  }

  /** The similarity of each kept chunk's content to the query, in the
      kept chunks' order. */
  function Similarities(chunks: map<string, Chunk>, kept: seq<string>, query: string,
                        similarity: (string, string) -> real): (s: seq<real>)
    requires forall i | 0 <= i < |kept| :: kept[i] in chunks
    ensures |s| == |kept|
    ensures forall i | 0 <= i < |kept| :: s[i] == similarity(query, chunks[kept[i]].content)
  {
    seq(|kept|, i requires 0 <= i < |kept| => similarity(query, chunks[kept[i]].content))
  }

  /** The order of `similarities.argsort()[::-1]`: a higher score first;
      of equal scores the later position first, the reverse of a stable
      ascending sort. */
  predicate ArgBefore(scores: seq<real>, i: nat, j: nat) {
    i < |scores| && j < |scores| && (scores[i] > scores[j] || (scores[i] == scores[j] && j < i))
  }

  lemma ArgBeforeTotal(scores: seq<real>)
    ensures StrictTotalOn((i: nat, j: nat) => ArgBefore(scores, i, j), Positions(|scores|))
  {
  }

  /** `similarities.argsort()[::-1]`: every position once, best first. */
  function Argsort(scores: seq<real>): (p: seq<nat>)
    ensures |p| == |scores|
    ensures forall k | 0 <= k < |p| :: p[k] < |scores|
    ensures forall i | 0 <= i < |scores| :: i in p
    ensures forall a, b | 0 <= a < b < |p| :: ArgBefore(scores, p[a], p[b])
  {
    var before := (i: nat, j: nat) => ArgBefore(scores, i, j);
    var xs := Positions(|scores|);
    ArgBeforeTotal(scores);
    SortSorted(xs, before);
    var p := Sort(xs, before);
    PermutesPositions(p, |scores|);
    p
  }

  /** The loop over `sorted_indices[:top_k]`: the positions before the
      first whose score is below `minScore`. */
  function AboveFloor(order: seq<nat>, scores: seq<real>, minScore: real): (r: seq<nat>)
    requires forall k | 0 <= k < |order| :: order[k] < |scores|
    ensures |r| <= |order| && r == order[..|r|]
    ensures forall k | 0 <= k < |r| :: scores[r[k]] >= minScore
    ensures |r| < |order| ==> scores[order[|r|]] < minScore
    decreases |order|
  {
    if order == [] || scores[order[0]] < minScore then []
    else
      var rest := AboveFloor(order[1..], scores, minScore);
      assert forall k | 1 <= k < |[order[0]] + rest| :: ([order[0]] + rest)[k] == rest[k - 1];
      [order[0]] + rest
  }

  /** The places in the ranking the fallback returns: the first `top_k`,
      cut at the first score below `minScore`. */
  function BruteOrder(scores: seq<real>, topK: int, minScore: real): (taken: seq<nat>)
    ensures |taken| <= |scores| && taken == Argsort(scores)[..|taken|]
    ensures topK >= 0 ==> |taken| <= topK
    ensures forall k | 0 <= k < |taken| :: taken[k] < |scores| && scores[taken[k]] >= minScore
    ensures topK >= 0 && |taken| < Min(topK, |scores|) ==> scores[Argsort(scores)[|taken|]] < minScore
  {
    var order := Argsort(scores);
    var top := PySlice(order, 0, topK);
    assert forall k | 0 <= k < |top| :: top[k] == order[k];
    AboveFloor(top, scores, minScore)
  }

  /** The result for a stored chunk with a score: its document, content
      and metadata as asked for, and its position. */
  function HitOf(chunks: map<string, Chunk>, id: string, score: real,
                 includeContent: bool, includeMetadata: bool): (h: Hit)
    requires id in chunks
  {
    var c := chunks[id];
    Hit(c.documentId, id, if includeContent then Some(c.content) else None,
        if includeMetadata then c.metadata else None, score, c.position)
  }

  /** The fallback's results over the chunks that passed the filter. */
  function BruteHits(chunks: map<string, Chunk>, kept: seq<string>, query: string, topK: int,
                     includeContent: bool, includeMetadata: bool, minScore: real,
                     similarity: (string, string) -> real): (r: seq<Hit>)
    requires forall i | 0 <= i < |kept| :: kept[i] in chunks
    ensures |r| <= |kept| && (topK >= 0 ==> |r| <= topK)
    ensures forall k | 0 <= k < |r| ::
      r[k].chunkId in kept && SimilarChunk(chunks, r[k], query, minScore, includeContent, includeMetadata, similarity)
  {
    var scores := Similarities(chunks, kept, query, similarity);
    var taken := BruteOrder(scores, topK, minScore);
    seq(|taken|, k requires 0 <= k < |taken| =>
      HitOf(chunks, kept[taken[k]], scores[taken[k]], includeContent, includeMetadata))
  }

  /** Of two fallback results over distinct chunks, the earlier names
      another chunk and scores at least as much. */
  lemma BruteHitsOrdered(chunks: map<string, Chunk>, kept: seq<string>, query: string, topK: int,
                         includeContent: bool, includeMetadata: bool, minScore: real,
                         similarity: (string, string) -> real, a: nat, b: nat)
    requires forall i | 0 <= i < |kept| :: kept[i] in chunks
    requires Distinct(kept)
    requires a < b < |BruteHits(chunks, kept, query, topK, includeContent, includeMetadata, minScore, similarity)|
    ensures var r := BruteHits(chunks, kept, query, topK, includeContent, includeMetadata, minScore, similarity);
      r[a].chunkId != r[b].chunkId && r[a].score >= r[b].score
  {
    var scores := Similarities(chunks, kept, query, similarity);
    var order := Argsort(scores);
    var taken := BruteOrder(scores, topK, minScore);
    assert taken[a] == order[a] && taken[b] == order[b];
    assert ArgBefore(scores, order[a], order[b]);
  }

  /** A position the fallback does not take scores at most as much as
      every taken one, and below `minScore` when fewer than `top_k` are
      taken. */
  lemma BruteOrderKeepsBest(scores: seq<real>, topK: int, minScore: real, i: nat)
    requires i < |scores|
    requires var taken := BruteOrder(scores, topK, minScore);
      forall k | 0 <= k < |taken| :: taken[k] != i
    ensures var taken := BruteOrder(scores, topK, minScore);
      && (forall k | 0 <= k < |taken| :: scores[i] <= scores[taken[k]])
      && (topK > |taken| ==> scores[i] < minScore)
  {
    var order := Argsort(scores);
    var taken := BruteOrder(scores, topK, minScore);
    assert i in order;
    var j :| 0 <= j < |order| && order[j] == i;
    assert forall k | 0 <= k < |taken| :: taken[k] == order[k];
    assert j >= |taken|;
    forall k | 0 <= k < |taken| ensures scores[i] <= scores[taken[k]] {
      assert ArgBefore(scores, order[k], order[j]);
    }
    if topK > |taken| && j > |taken| {
      assert ArgBefore(scores, order[|taken|], order[j]);
    }
  }

  /** A kept chunk the fallback does not return scores at most as much as
      every returned one, and below `minScore` when fewer than `top_k`
      are returned. */
  lemma BruteHitsKeepsBest(chunks: map<string, Chunk>, kept: seq<string>, query: string, topK: int,
                           includeContent: bool, includeMetadata: bool, minScore: real,
                           similarity: (string, string) -> real, i: nat)
    requires forall i | 0 <= i < |kept| :: kept[i] in chunks
    requires i < |kept|
    requires var r := BruteHits(chunks, kept, query, topK, includeContent, includeMetadata, minScore, similarity);
      forall k | 0 <= k < |r| :: r[k].chunkId != kept[i]
    ensures var r := BruteHits(chunks, kept, query, topK, includeContent, includeMetadata, minScore, similarity);
      var s := similarity(query, chunks[kept[i]].content);
      && (forall k | 0 <= k < |r| :: s <= r[k].score)
      && (topK > |r| ==> s < minScore)
  {
    var r := BruteHits(chunks, kept, query, topK, includeContent, includeMetadata, minScore, similarity);
    var scores := Similarities(chunks, kept, query, similarity);
    var taken := BruteOrder(scores, topK, minScore);
    assert forall k | 0 <= k < |taken| :: r[k].chunkId == kept[taken[k]] && r[k].score == scores[taken[k]];
    BruteOrderKeepsBest(scores, topK, minScore, i);
  }

  /** The chunks that pass the filter, in file-name order, have distinct
      names. */
  lemma KeptDistinct(kept: seq<string>, files: seq<string>)
    requires SortedBy(files, FileLess) && IsSubsequence(kept, files)
    ensures Distinct(kept)
  {
    SubsequenceSorted(kept, files, FileLess);
    FileLessTotal(kept);
    forall i, j | 0 <= i < j < |kept| ensures kept[i] != kept[j] {
      assert kept[i] in kept;
    }
  }

  /** `_brute_force_search` once the model is loaded: the stored chunks in
      file-name order, filtered (a filter that raises on any chunk
      raises), ranked by similarity to the query, the first `top_k` taken
      up to the first below `min_score`. */
  function BruteLoaded(idx: Index, chunkListing: seq<string>, query: string, topK: int, filter: Option<Filter>,
                       includeContent: bool, includeMetadata: bool, minScore: real,
                       similarity: (string, string) -> real): (r: Outcome<seq<Hit>>)
    requires Enumerates(chunkListing, idx.chunks.Keys)
    ensures r.Raised? <==>
      Active(filter) && exists c | c in idx.chunks :: MatchesFilter(idx.chunks[c].metadata, filter.value).Raised?
    ensures r.Ok? && topK >= 0 ==> |r.value| <= topK
    ensures r.Ok? ==> forall k | 0 <= k < |r.value| ::
      && SimilarChunk(idx.chunks, r.value[k], query, minScore, includeContent, includeMetadata, similarity)
      && (Active(filter) ==> MatchesFilter(idx.chunks[r.value[k].chunkId].metadata, filter.value) == Ok(true))
  {
    match FilteredFiles(idx, chunkListing, filter)
    case Raised => Raised
    case Ok(kept) => Ok(BruteHits(idx.chunks, kept, query, topK, includeContent, includeMetadata, minScore, similarity))
  }

  /** `_brute_force_search`: no results when the model cannot be imported
      or loaded; otherwise the loaded model's ranking. */
  function BruteForce(idx: Index, chunkListing: seq<string>, query: string, topK: int, filter: Option<Filter>,
                      includeContent: bool, includeMetadata: bool, minScore: real, embedder: Embedder): (r: Outcome<seq<Hit>>)
    requires Enumerates(chunkListing, idx.chunks.Keys)
    ensures embedder.Unavailable? ==> r == Ok([])
    ensures r.Raised? <==>
      embedder.Loaded? && Active(filter) && exists c | c in idx.chunks :: MatchesFilter(idx.chunks[c].metadata, filter.value).Raised?
    ensures r.Ok? && topK >= 0 ==> |r.value| <= topK
    ensures r.Ok? ==> forall k | 0 <= k < |r.value| ::
      Scored(idx, r.value[k], query, minScore, filter, includeContent, includeMetadata, embedder)
  {
    if embedder.Unavailable? then Ok([])
    else BruteLoaded(idx, chunkListing, query, topK, filter, includeContent, includeMetadata, minScore, embedder.similarity)
  }

  /** The chunks a loaded model's fallback ranks: every stored chunk that
      passes the filter, once each. */
  lemma BruteForceKept(idx: Index, chunkListing: seq<string>, query: string, topK: int, filter: Option<Filter>,
                       includeContent: bool, includeMetadata: bool, minScore: real,
                       similarity: (string, string) -> real) returns (kept: seq<string>)
    requires Enumerates(chunkListing, idx.chunks.Keys)
    requires BruteForce(idx, chunkListing, query, topK, filter, includeContent, includeMetadata, minScore, Loaded(similarity)).Ok?
    ensures forall i | 0 <= i < |kept| :: kept[i] in idx.chunks
    ensures Distinct(kept)
    ensures forall c | c in idx.chunks ::
      c in kept <==> !Active(filter) || MatchesFilter(idx.chunks[c].metadata, filter.value) == Ok(true)
    ensures BruteForce(idx, chunkListing, query, topK, filter, includeContent, includeMetadata, minScore, Loaded(similarity)).value
         == BruteHits(idx.chunks, kept, query, topK, includeContent, includeMetadata, minScore, similarity)
  {
    kept := FilteredFiles(idx, chunkListing, filter).value;
  }

  /** The fallback's results name distinct chunks, best first. */
  lemma BruteForceOrdered(idx: Index, chunkListing: seq<string>, query: string, topK: int, filter: Option<Filter>,
                          includeContent: bool, includeMetadata: bool, minScore: real,
                          similarity: (string, string) -> real, a: nat, b: nat)
    requires Enumerates(chunkListing, idx.chunks.Keys)
    requires var r := BruteForce(idx, chunkListing, query, topK, filter, includeContent, includeMetadata, minScore, Loaded(similarity));
      r.Ok? && a < b < |r.value|
    ensures var r := BruteForce(idx, chunkListing, query, topK, filter, includeContent, includeMetadata, minScore, Loaded(similarity)).value;
      r[a].chunkId != r[b].chunkId && r[a].score >= r[b].score
  {
    var kept := BruteForceKept(idx, chunkListing, query, topK, filter, includeContent, includeMetadata, minScore, similarity);
    BruteHitsOrdered(idx.chunks, kept, query, topK, includeContent, includeMetadata, minScore, similarity, a, b);
  }

  /** The fallback keeps the best chunks: a stored chunk that passes the
      filter but is not returned scores at most as much as every returned
      one, and below `min_score` when fewer than `top_k` are returned. */
  lemma BruteForceKeepsBest(idx: Index, chunkListing: seq<string>, query: string, topK: int, filter: Option<Filter>,
                            includeContent: bool, includeMetadata: bool, minScore: real,
                            similarity: (string, string) -> real, c: string)
    requires Enumerates(chunkListing, idx.chunks.Keys)
    requires BruteForce(idx, chunkListing, query, topK, filter, includeContent, includeMetadata, minScore, Loaded(similarity)).Ok?
    requires c in idx.chunks && (Active(filter) ==> MatchesFilter(idx.chunks[c].metadata, filter.value) == Ok(true))
    requires var r := BruteForce(idx, chunkListing, query, topK, filter, includeContent, includeMetadata, minScore, Loaded(similarity)).value;
      forall k | 0 <= k < |r| :: r[k].chunkId != c
    ensures var r := BruteForce(idx, chunkListing, query, topK, filter, includeContent, includeMetadata, minScore, Loaded(similarity)).value;
      var s := similarity(query, idx.chunks[c].content);
      && (forall k | 0 <= k < |r| :: s <= r[k].score)
      && (topK > |r| ==> s < minScore)
  {
    var kept := BruteForceKept(idx, chunkListing, query, topK, filter, includeContent, includeMetadata, minScore, similarity);
    assert c in kept;
    var i :| 0 <= i < |kept| && kept[i] == c;
    BruteHitsKeepsBest(idx.chunks, kept, query, topK, includeContent, includeMetadata, minScore, similarity, i);
  }

  // ---------------------------------------------------------------------
  // The chunk filter and grep search.
  // ---------------------------------------------------------------------

  /** `_apply_metadata_filter`: no filter passes every chunk through;
      otherwise the chunks the filter holds on, in order; one raising
      chunk makes the whole comprehension raise. */
  function FilterChunks(chunks: map<string, Chunk>, ids: seq<string>, filter: Option<Filter>): (r: Outcome<seq<string>>)
    requires forall i | 0 <= i < |ids| :: ids[i] in chunks
    ensures !Active(filter) ==> r == Ok(ids)
    ensures r.Raised? <==> Active(filter) && exists i | 0 <= i < |ids| :: MatchesFilter(chunks[ids[i]].metadata, filter.value).Raised?
    ensures r.Ok? ==> IsSubsequence(r.value, ids)
    ensures r.Ok? ==> forall c :: c in r.value <==>
      c in ids && (!Active(filter) || MatchesFilter(chunks[c].metadata, filter.value) == Ok(true))
    decreases |ids|
  {
    if !Active(filter) then
      SubsequenceOfSelf(ids);
      Ok(ids)
    else if ids == [] then Ok([])
    else
      var rest := FilterChunks(chunks, ids[1..], filter);
      assert forall c :: c in ids <==> c == ids[0] || c in ids[1..];
      assert (exists i | 0 <= i < |ids| :: MatchesFilter(chunks[ids[i]].metadata, filter.value).Raised?) <==>
        MatchesFilter(chunks[ids[0]].metadata, filter.value).Raised? ||
        exists i | 0 <= i < |ids[1..]| :: MatchesFilter(chunks[ids[1..][i]].metadata, filter.value).Raised? by {
        forall i | 1 <= i < |ids| ensures ids[i] == ids[1..][i - 1] {}
      }
      match MatchesFilter(chunks[ids[0]].metadata, filter.value)
      case Raised => Raised
      case Ok(b) =>
        match rest
        case Raised => Raised
        case Ok(kept) => if b then Ok([ids[0]] + kept) else Ok(kept)
  }

  lemma {:induction false} SubsequenceOfSelf<T>(s: seq<T>)
    ensures IsSubsequence(s, s)
    decreases |s|
  {
    if s != [] {
      SubsequenceOfSelf(s[1..]);
    }
  }

  /** `GrepSearchResult`. */
  datatype GrepHit = GrepHit(
    documentId: string,
    chunkId: string,
    content: string,
    metadata: Option<Metadata>,
    matches: seq<Match>)

  /** The chunk ids of grep results. */
  function GrepIds(hits: seq<GrepHit>): (r: seq<string>)
    ensures |r| == |hits| && forall k | 0 <= k < |hits| :: r[k] == hits[k].chunkId
  {
    seq(|hits|, k requires 0 <= k < |hits| => hits[k].chunkId)
  }

  /** The grep result for a stored chunk with at least one match. */
  predicate GrepFound(chunks: map<string, Chunk>, query: string, h: GrepHit) {
    && h.chunkId in chunks
    && h.content == chunks[h.chunkId].content
    && h.documentId == chunks[h.chunkId].documentId
    && h.metadata == chunks[h.chunkId].metadata
    && h.matches == FindMatches(h.content, query)
    && |h.matches| > 0
  }

  function GrepHitOf(chunks: map<string, Chunk>, id: string, query: string): (h: GrepHit)
    requires id in chunks
    ensures h.chunkId == id && (|h.matches| > 0 ==> GrepFound(chunks, query, h))
  {
    var c := chunks[id];
    GrepHit(c.documentId, id, c.content, c.metadata, FindMatches(c.content, query))
  }

  /** The grep result of each listed chunk, in listing order, whether or
      not it has a match. */
  function Candidates(chunks: map<string, Chunk>, ids: seq<string>, query: string): (c: seq<GrepHit>)
    requires forall i | 0 <= i < |ids| :: ids[i] in chunks
    ensures |c| == |ids|
    ensures forall i | 0 <= i < |ids| :: c[i] == GrepHitOf(chunks, ids[i], query)
  {
    seq(|ids|, i requires 0 <= i < |ids| => GrepHitOf(chunks, ids[i], query))
  }

  /** The loop of `grep_search` over the listed chunks' results: every one
      with a match, in order, stopping as soon as `topK` are collected. */
  function GrepScan(cands: seq<GrepHit>, topK: int): (r: seq<GrepHit>)
    ensures |r| <= Max(topK, 1)
    decreases |cands|
  {
    if cands == [] then []
    else if |cands[0].matches| == 0 then GrepScan(cands[1..], topK)
    else if topK <= 1 then [cands[0]]
    else [cands[0]] + GrepScan(cands[1..], topK - 1)
  }

  /** Every result of the loop is one of the candidates, with a match. */
  lemma {:induction false} GrepScanFound(cands: seq<GrepHit>, topK: int)
    ensures forall k | 0 <= k < |GrepScan(cands, topK)| ::
      GrepScan(cands, topK)[k] in cands && |GrepScan(cands, topK)[k].matches| > 0
    decreases |cands|
  {
    if cands != [] {
      if |cands[0].matches| == 0 {
        GrepScanFound(cands[1..], topK);
        assert forall h | h in cands[1..] :: h in cands;
      } else if topK > 1 {
        var rest := GrepScan(cands[1..], topK - 1);
        GrepScanFound(cands[1..], topK - 1);
        forall k | 1 <= k < |[cands[0]] + rest|
          ensures ([cands[0]] + rest)[k] in cands && |([cands[0]] + rest)[k].matches| > 0
        {
          assert ([cands[0]] + rest)[k] == rest[k - 1];
          assert rest[k - 1] in cands[1..];
        }
      }
    }
  }

  /** The loop keeps the candidates in the order it scans them. */
  lemma {:induction false} GrepScanInOrder(cands: seq<GrepHit>, topK: int)
    ensures IsSubsequence(GrepIds(GrepScan(cands, topK)), GrepIds(cands))
    decreases |cands|
  {
    if cands != [] {
      assert GrepIds(cands)[1..] == GrepIds(cands[1..]);
      if |cands[0].matches| == 0 {
        GrepScanInOrder(cands[1..], topK);
        SubsequenceSkip(GrepIds(GrepScan(cands[1..], topK)), GrepIds(cands));
      } else if topK <= 1 {
        assert GrepIds([cands[0]]) == [GrepIds(cands)[0]];
        assert IsSubsequence(GrepIds([cands[0]])[1..], GrepIds(cands)[1..]);
      } else {
        var rest := GrepScan(cands[1..], topK - 1);
        GrepScanInOrder(cands[1..], topK - 1);
        assert GrepIds([cands[0]] + rest) == [GrepIds(cands)[0]] + GrepIds(rest);
      }
    }
  }

  /** A subsequence of the tail is a subsequence of the whole. */
  lemma {:induction false} SubsequenceSkip<T>(a: seq<T>, b: seq<T>)
    requires b != [] && IsSubsequence(a, b[1..])
    ensures IsSubsequence(a, b)
    decreases |b|, 0
  {
    if a != [] && a[0] == b[0] {
      SubsequenceDropHead(a, b[1..]);
    }
  }

  /** Dropping the head of a subsequence keeps it a subsequence. */
  lemma {:induction false} SubsequenceDropHead<T>(a: seq<T>, c: seq<T>)
    requires a != [] && IsSubsequence(a, c)
    ensures IsSubsequence(a[1..], c)
    decreases |c|, 1
  {
    if a[0] == c[0] {
      SubsequenceSkip(a[1..], c);
    } else {
      SubsequenceDropHead(a, c[1..]);
      SubsequenceSkip(a[1..], c);
    }
  }

  /** Every candidate with a match, in order. */
  function GrepAll(cands: seq<GrepHit>): (r: seq<GrepHit>)
    ensures forall h :: h in r <==> h in cands && |h.matches| > 0
    decreases |cands|
  {
    if cands == [] then []
    else
      var rest := GrepAll(cands[1..]);
      assert forall h :: h in cands <==> h == cands[0] || h in cands[1..];
      if |cands[0].matches| == 0 then rest else [cands[0]] + rest
  }

  /** The loop returns the first `topK` candidates with a match. */
  lemma {:induction false} GrepScanTakesFirst(cands: seq<GrepHit>, topK: int)
    ensures GrepScan(cands, topK) == Take(GrepAll(cands), Max(topK, 1))
    decreases |cands|
  {
    if cands != [] {
      var rest := GrepAll(cands[1..]);
      if |cands[0].matches| == 0 {
        GrepScanTakesFirst(cands[1..], topK);
      } else if topK > 1 {
        GrepScanTakesFirst(cands[1..], topK - 1);
        assert Take([cands[0]] + rest, topK) == [cands[0]] + Take(rest, topK - 1);
      }
    }
  }

  /** The candidates with a match keep their scan order. */
  lemma {:induction false} GrepAllInOrder(cands: seq<GrepHit>)
    ensures IsSubsequence(GrepIds(GrepAll(cands)), GrepIds(cands))
    decreases |cands|
  {
    if cands != [] {
      assert GrepIds(cands)[1..] == GrepIds(cands[1..]);
      var rest := GrepAll(cands[1..]);
      GrepAllInOrder(cands[1..]);
      if |cands[0].matches| == 0 {
        SubsequenceSkip(GrepIds(rest), GrepIds(cands));
      } else {
        assert GrepIds([cands[0]] + rest) == [GrepIds(cands)[0]] + GrepIds(rest);
      }
    }
  }

  /** Over candidates in file-name order, a candidate with a match that the
      loop does not return comes after all it returns, and the loop
      stopped because it had collected `topK`. */
  lemma {:induction false} GrepScanMissesOnlyLater(cands: seq<GrepHit>, topK: int, h: GrepHit)
    requires SortedBy(GrepIds(cands), FileLess)
    requires h in cands && |h.matches| > 0 && h.chunkId !in GrepIds(GrepScan(cands, topK))
    ensures |GrepScan(cands, topK)| == Max(topK, 1)
    ensures forall k | 0 <= k < |GrepScan(cands, topK)| :: FileLess(GrepScan(cands, topK)[k].chunkId, h.chunkId)
  {
    var all := GrepAll(cands);
    var hits := GrepScan(cands, topK);
    GrepScanTakesFirst(cands, topK);
    GrepAllInOrder(cands);
    var ids := GrepIds(all);
    SubsequenceSorted(ids, GrepIds(cands), FileLess);
    assert GrepIds(hits) == ids[..|hits|];
    var j :| 0 <= j < |all| && all[j] == h;
    PrefixMissesOnlyLater(ids, |hits|, j);
  }

  /** In a list sorted by file name, an entry missing from a prefix lies
      past it, after every entry of it. */
  lemma PrefixMissesOnlyLater(ids: seq<string>, n: nat, j: nat)
    requires SortedBy(ids, FileLess) && n <= |ids| && j < |ids| && ids[j] !in ids[..n]
    ensures n <= j && forall k | 0 <= k < n :: FileLess(ids[k], ids[j])
  {
  }

  /** A stored chunk that passes the filter and contains the query but is
      not among `hits` sorts after every one of them, and `hits` is full:
      `hits` are the first `max(topK, 1)` such chunks in file-name order. */
  predicate FirstMatching(chunks: map<string, Chunk>, query: string, topK: int, filter: Option<Filter>, hits: seq<GrepHit>) {
    forall c | c in chunks && |FindMatches(chunks[c].content, query)| > 0
               && (!Active(filter) || MatchesFilter(chunks[c].metadata, filter.value) == Ok(true))
               && c !in GrepIds(hits) ::
      |hits| == Max(topK, 1) && forall k | 0 <= k < |hits| :: FileLess(hits[k].chunkId, c)
  }

  /** Over a listing of every stored chunk, "the filter raises on a listed
      chunk" and "the filter raises on a stored chunk" agree. */
  lemma RaisesOnListed(chunks: map<string, Chunk>, files: seq<string>, filter: Option<Filter>)
    requires forall c :: c in files <==> c in chunks
    ensures Active(filter) ==>
      ((exists i | 0 <= i < |files| :: MatchesFilter(chunks[files[i]].metadata, filter.value).Raised?)
        <==> exists c | c in chunks :: MatchesFilter(chunks[c].metadata, filter.value).Raised?)
  {
    if c :| Active(filter) && c in chunks && MatchesFilter(chunks[c].metadata, filter.value).Raised? {
      var i :| 0 <= i < |files| && files[i] == c;
    }
  }

  /** `_apply_metadata_filter(_load_all_chunks(...))`: the stored chunks in
      file-name order, those the filter holds on; a filter that raises on
      any stored chunk raises. */
  function FilteredFiles(idx: Index, chunkListing: seq<string>, filter: Option<Filter>): (r: Outcome<seq<string>>)
    requires Enumerates(chunkListing, idx.chunks.Keys)
    ensures r.Raised? <==> Active(filter) && exists c | c in idx.chunks :: MatchesFilter(idx.chunks[c].metadata, filter.value).Raised?
    ensures r.Ok? ==> forall i | 0 <= i < |r.value| :: r.value[i] in idx.chunks
    ensures r.Ok? ==> forall c :: c in r.value <==>
      c in idx.chunks && (!Active(filter) || MatchesFilter(idx.chunks[c].metadata, filter.value) == Ok(true))
    ensures r.Ok? ==> SortedBy(r.value, FileLess) && Distinct(r.value)
  {
    var files := SortedFiles(chunkListing);
    SortedFilesMembers(chunkListing, idx.chunks.Keys);
    RaisesOnListed(idx.chunks, files, filter);
    match FilterChunks(idx.chunks, files, filter)
    case Raised => Raised
    case Ok(kept) =>
      SubsequenceMembers(kept, files);
      SubsequenceSorted(kept, files, FileLess);
      KeptDistinct(kept, files);
      assert forall i | 0 <= i < |kept| :: kept[i] in kept;
      Ok(kept)
  }

  /** The scan over `kept` in name order misses a matching chunk only once
      it is full, and only a chunk after all it returned. */
  lemma {:induction false} GrepKeptMissesOnlyLater(chunks: map<string, Chunk>, kept: seq<string>, query: string, topK: int)
    requires forall i | 0 <= i < |kept| :: kept[i] in chunks
    requires SortedBy(kept, FileLess)
    ensures var hits := GrepScan(Candidates(chunks, kept, query), topK);
      forall c | c in kept && |FindMatches(chunks[c].content, query)| > 0 && c !in GrepIds(hits) ::
        |hits| == Max(topK, 1) && forall k | 0 <= k < |hits| :: FileLess(hits[k].chunkId, c)
  {
    var cands := Candidates(chunks, kept, query);
    var hits := GrepScan(cands, topK);
    assert GrepIds(cands) == kept;
    forall c | c in kept && |FindMatches(chunks[c].content, query)| > 0 && c !in GrepIds(hits)
      ensures |hits| == Max(topK, 1) && forall k | 0 <= k < |hits| :: FileLess(hits[k].chunkId, c)
    {
      var i :| 0 <= i < |kept| && kept[i] == c;
      GrepScanMissesOnlyLater(cands, topK, cands[i]);
    }
  }

  /** The scan over chunks already filtered and in name order. */
  function GrepKept(chunks: map<string, Chunk>, kept: seq<string>, query: string, topK: int, filter: Option<Filter>): (r: (seq<GrepHit>, nat))
    requires forall i | 0 <= i < |kept| :: kept[i] in chunks
    requires SortedBy(kept, FileLess)
    requires Active(filter) ==> forall c | c in kept :: MatchesFilter(chunks[c].metadata, filter.value) == Ok(true)
    ensures r.1 == |r.0| <= Max(topK, 1)
    ensures forall k | 0 <= k < |r.0| ::
      && GrepFound(chunks, query, r.0[k])
      && r.0[k].chunkId in kept
    ensures SortedBy(GrepIds(r.0), FileLess)
    ensures forall c | c in kept && |FindMatches(chunks[c].content, query)| > 0 && c !in GrepIds(r.0) ::
      |r.0| == Max(topK, 1) && forall k | 0 <= k < |r.0| :: FileLess(r.0[k].chunkId, c)
  {
    var cands := Candidates(chunks, kept, query);
    var hits := GrepScan(cands, topK);
    GrepScanInOrder(cands, topK);
    GrepScanFound(cands, topK);
    assert GrepIds(cands) == kept;
    forall k | 0 <= k < |hits| ensures GrepFound(chunks, query, hits[k]) && hits[k].chunkId in kept {
      var i :| 0 <= i < |cands| && cands[i] == hits[k];
    }
    SubsequenceSorted(GrepIds(hits), kept, FileLess);
    GrepKeptMissesOnlyLater(chunks, kept, query, topK);
    (hits, |hits|)
  }

  /** `grep_search`: the chunks in file-name order, filtered, scanned for
      the query; a filter that raises on any chunk raises. The total found
      is the number returned. */
  function GrepSearch(idx: Index, chunkListing: seq<string>, query: string, topK: int, filter: Option<Filter>): (r: Outcome<(seq<GrepHit>, nat)>)
    requires Enumerates(chunkListing, idx.chunks.Keys)
    ensures r.Raised? <==> Active(filter) && exists c | c in idx.chunks :: MatchesFilter(idx.chunks[c].metadata, filter.value).Raised?
    ensures r.Ok? ==> r.value.1 == |r.value.0| <= Max(topK, 1)
    ensures r.Ok? ==> forall k | 0 <= k < |r.value.0| ::
      && GrepFound(idx.chunks, query, r.value.0[k])
      && (Active(filter) ==> MatchesFilter(idx.chunks[r.value.0[k].chunkId].metadata, filter.value) == Ok(true))
    ensures r.Ok? ==> SortedBy(GrepIds(r.value.0), FileLess)
    ensures r.Ok? ==> FirstMatching(idx.chunks, query, topK, filter, r.value.0)
  {
    match FilteredFiles(idx, chunkListing, filter)
    case Raised => Raised
    case Ok(kept) => Ok(GrepKept(idx.chunks, kept, query, topK, filter))
  }

  // ---------------------------------------------------------------------
  // Batch search.
  // ---------------------------------------------------------------------

  /** `BatchSearchResultItem`. */
  datatype BatchItem = BatchItem(results: seq<Hit>, totalFound: nat)

  /** One query of a batch: semantic search with the shared filter, the
      query's own `top_k` (5 when absent), content and metadata shown and
      no score floor. */
  function BatchOne(idx: Index, chunkListing: seq<string>, q: BatchQuery, filter: Option<Filter>,
                    searcher: Option<Searcher>, embedder: Embedder): (r: Outcome<BatchItem>)
    requires Enumerates(chunkListing, idx.chunks.Keys)
    ensures var s := SemanticSearch(idx, chunkListing, q.query, q.topK.GetOr(BatchTopKDefault), filter, true, true, 0.0, searcher, embedder);
      && (r.Raised? <==> s.Raised?)
      && (r.Ok? ==> r.value == BatchItem(s.value.0, s.value.1))
  {
    match SemanticSearch(idx, chunkListing, q.query, q.topK.GetOr(BatchTopKDefault), filter, true, true, 0.0, searcher, embedder)
    case Raised => Raised
    case Ok((hits, total)) => Ok(BatchItem(hits, total))
  }

  /** The entries of the response: each query's answer under its id, a
      later query overwriting the entry of an earlier one with the same
      id. */
  function ByQueryId(queries: seq<BatchQuery>, answers: seq<BatchItem>): (r: map<string, BatchItem>)
    requires |answers| == |queries|
    ensures forall id :: id in r <==> exists i | 0 <= i < |queries| :: queries[i].id == id
    ensures queries != [] ==> r[queries[|queries| - 1].id] == answers[|answers| - 1]
    decreases |queries|
  {
    if queries == [] then map[]
    else
      var n := |queries| - 1;
      var before := ByQueryId(queries[..n], answers[..n]);
      assert forall i | 0 <= i < n :: queries[..n][i] == queries[i];
      before[queries[n].id := answers[n]]
  }

  /** A query no later query shares its id with keeps its own answer. */
  lemma {:induction false} ByQueryIdEach(queries: seq<BatchQuery>, answers: seq<BatchItem>, i: nat)
    requires |answers| == |queries|
    requires i < |queries| && forall j | i < j < |queries| :: queries[j].id != queries[i].id
    ensures queries[i].id in ByQueryId(queries, answers)
    ensures ByQueryId(queries, answers)[queries[i].id] == answers[i]
    decreases |queries|
  {
    var n := |queries| - 1;
    if i < n {
      var init := queries[..n];
      assert init[i] == queries[i];
      assert forall j | i < j < n :: init[j] == queries[j];
      ByQueryIdEach(init, answers[..n], i);
    }
  }

  /** The values of a sequence of outcomes, or an exception as soon as
      one of them raised. */
  function AllOk<T>(a: seq<Outcome<T>>): (r: Outcome<seq<T>>)
    ensures r.Raised? <==> exists i | 0 <= i < |a| :: a[i].Raised?
    ensures r.Ok? ==> |r.value| == |a| && forall i | 0 <= i < |a| :: a[i] == Ok(r.value[i])
    decreases |a|
  {
    if a == [] then Ok([])
    else
      assert forall i | 1 <= i < |a| :: a[i] == a[1..][i - 1];
      match a[0]
      case Raised => Raised
      case Ok(v) =>
        match AllOk(a[1..])
        case Raised => Raised
        case Ok(vs) =>
          assert forall i | 1 <= i < |a| :: ([v] + vs)[i] == vs[i - 1];
          Ok([v] + vs)
  }

  /** The loop over the queries: their answers in order, or an exception
      as soon as one query raises. */
  function Answers(idx: Index, chunkListing: seq<string>, queries: seq<BatchQuery>, filter: Option<Filter>,
                   searcher: Option<Searcher>, embedder: Embedder): (r: Outcome<seq<BatchItem>>)
    requires Enumerates(chunkListing, idx.chunks.Keys)
    ensures r.Raised? <==> exists i | 0 <= i < |queries| :: BatchOne(idx, chunkListing, queries[i], filter, searcher, embedder).Raised?
    ensures r.Ok? ==> |r.value| == |queries|
    ensures r.Ok? ==> forall i | 0 <= i < |queries| ::
      BatchOne(idx, chunkListing, queries[i], filter, searcher, embedder) == Ok(r.value[i])
  {
    var each := seq(|queries|, i requires 0 <= i < |queries| => BatchOne(idx, chunkListing, queries[i], filter, searcher, embedder));
    assert forall i | 0 <= i < |queries| :: each[i] == BatchOne(idx, chunkListing, queries[i], filter, searcher, embedder);
    AllOk(each)
  }

  /** `batch_search`: one entry per query id, a later query with the same
      id overwriting the entry of an earlier one; an exception out of any
      query's search escapes. That happens exactly when the filter raises
      on a stored chunk, the model is loaded, and the backend does not
      answer some query. */
  function BatchSearch(idx: Index, chunkListing: seq<string>, queries: seq<BatchQuery>, filter: Option<Filter>,
                       searcher: Option<Searcher>, embedder: Embedder): (r: Outcome<map<string, BatchItem>>)
    requires Enumerates(chunkListing, idx.chunks.Keys)
    ensures r.Raised? <==>
      && embedder.Loaded? && Active(filter)
      && (exists c | c in idx.chunks :: MatchesFilter(idx.chunks[c].metadata, filter.value).Raised?)
      && exists i | 0 <= i < |queries| ::
           !BackendAnswers(idx, queries[i].query, queries[i].topK.GetOr(BatchTopKDefault), filter, true, true, 0.0, searcher)
    ensures r.Ok? ==> forall id :: id in r.value <==> exists i | 0 <= i < |queries| :: queries[i].id == id
  {
    match Answers(idx, chunkListing, queries, filter, searcher, embedder)
    case Raised => Raised
    case Ok(items) => Ok(ByQueryId(queries, items))
  }

  /** Each query of a batch that does not raise is answered exactly as a
      semantic search with the shared filter, unless a later query reuses
      its id. */
  lemma BatchAnswersEachQuery(idx: Index, chunkListing: seq<string>, queries: seq<BatchQuery>, filter: Option<Filter>,
                              searcher: Option<Searcher>, embedder: Embedder, i: nat)
    requires Enumerates(chunkListing, idx.chunks.Keys)
    requires BatchSearch(idx, chunkListing, queries, filter, searcher, embedder).Ok?
    requires i < |queries| && forall j | i < j < |queries| :: queries[j].id != queries[i].id
    ensures var r := BatchSearch(idx, chunkListing, queries, filter, searcher, embedder).value;
      && BatchOne(idx, chunkListing, queries[i], filter, searcher, embedder).Ok?
      && queries[i].id in r && r[queries[i].id] == BatchOne(idx, chunkListing, queries[i], filter, searcher, embedder).value
  {
    ByQueryIdEach(queries, Answers(idx, chunkListing, queries, filter, searcher, embedder).value, i);
  }

}
