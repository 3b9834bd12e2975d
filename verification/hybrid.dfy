/** `hybrid_search` (src/services/search_service.py:336-425): the semantic
    and the grep results merged into one score map keyed by chunk id, a
    weighted sum of the two scores, a stable descending sort and the first
    `top_k` entries. */
module Hybrid {
  import opened Base
  import opened Values
  import opened Filter
  import opened Sorting
  import opened Store
  import opened Search

  // ---------------------------------------------------------------------
  // The score map.
  // ---------------------------------------------------------------------

  /** One value of the score map. */
  datatype Entry = Entry(
    documentId: string,
    chunkId: string,
    content: Option<string>,
    metadata: Option<Metadata>,
    position: int,
    semantic: real,
    keyword: real)

  /** A Python dict from chunk id to entry: its keys in insertion order
      and its contents. */
  datatype ScoreMap = ScoreMap(keys: seq<string>, vals: map<string, Entry>)

  /** Every key listed once, and every entry stored under its own chunk
      id. */
  predicate Valid(m: ScoreMap) {
    && Enumerates(m.keys, m.vals.Keys)
    && forall id | id in m.vals :: m.vals[id].chunkId == id
  }

  /** `score_map[e.chunk_id] = e`: a new key goes to the end, an existing
      one keeps its place and takes the new value. */
  function Put(m: ScoreMap, e: Entry): (r: ScoreMap)
    requires Valid(m)
    ensures Valid(r)
    ensures r.vals == m.vals[e.chunkId := e]
    ensures e.chunkId in m.vals ==> r.keys == m.keys
    ensures e.chunkId !in m.vals ==> r.keys == m.keys + [e.chunkId]
  {
    if e.chunkId in m.vals then ScoreMap(m.keys, m.vals[e.chunkId := e])
    else
      var keys := m.keys + [e.chunkId];
      assert forall i | 0 <= i < |m.keys| :: keys[i] == m.keys[i];
      assert e.chunkId == keys[|m.keys|];
      ScoreMap(keys, m.vals[e.chunkId := e])
  }

  /** The map's values in insertion order: what `score_map.values()`
      yields. */
  function InOrder(m: ScoreMap): (r: seq<Entry>)
    requires Valid(m)
    ensures |r| == |m.keys| && forall k | 0 <= k < |r| :: r[k] == m.vals[m.keys[k]]
  {
    seq(|m.keys|, k requires 0 <= k < |m.keys| => m.vals[m.keys[k]])
  }

  // ---------------------------------------------------------------------
  // Filling the map.
  // ---------------------------------------------------------------------

  /** The last semantic result for a chunk: the one whose assignment is
      left standing. */
  function LastHit(sem: seq<Hit>, id: string): (r: Option<Hit>)
    ensures r.Some? ==> r.value in sem && r.value.chunkId == id
    ensures r.None? <==> forall k | 0 <= k < |sem| :: sem[k].chunkId != id
  {
    if sem == [] then None
    else
      var n := |sem| - 1;
      assert forall k | 0 <= k < n :: sem[..n][k] == sem[k];
      if sem[n].chunkId == id then Some(sem[n]) else LastHit(sem[..n], id)
  }

  function SemanticEntry(h: Hit): Entry {
    Entry(h.documentId, h.chunkId, h.content, h.metadata, h.position, h.score, 0.0)
  }

  /** The loop over semantic results: a chunk returned twice keeps the
      values of its last result. */
  function AddSemantic(sem: seq<Hit>): (r: ScoreMap)
    ensures Valid(r)
    ensures forall id :: id in r.vals <==> LastHit(sem, id).Some?
    ensures forall id | id in r.vals :: r.vals[id] == SemanticEntry(LastHit(sem, id).value)
  {
    if sem == [] then ScoreMap([], map[])
    else Put(AddSemantic(sem[..|sem| - 1]), SemanticEntry(sem[|sem| - 1]))
  }

  /** `(max_grep_score - i) / max_grep_score`: from 1 for the first grep
      result down to `1/n` for the last. */
  function KeywordScore(n: nat, i: nat): (s: real)
    requires i < n
    ensures 0.0 < s <= 1.0
    ensures i == 0 ==> s == 1.0
  {
    (n - i) as real / n as real
  }

  /** Later grep results score strictly lower. */
  lemma KeywordScoreDecreasing(n: nat, i: nat, j: nat)
    requires i < j < n
    ensures KeywordScore(n, j) < KeywordScore(n, i)
  {
    assert (n - j) as real < (n - i) as real;
  }

  /** The position of the last grep result for a chunk. */
  function LastGrep(grep: seq<GrepHit>, id: string): (r: Option<nat>)
    ensures r.Some? ==> r.value < |grep| && grep[r.value].chunkId == id
    ensures r.Some? ==> forall k | r.value < k < |grep| :: grep[k].chunkId != id
    ensures r.None? <==> forall k | 0 <= k < |grep| :: grep[k].chunkId != id
  {
    if grep == [] then None
    else
      var n := |grep| - 1;
      assert forall k | 0 <= k < n :: grep[..n][k] == grep[k];
      if grep[n].chunkId == id then Some(n) else LastGrep(grep[..n], id)
  }

  function GrepEntry(g: GrepHit, score: real): Entry {
    Entry(g.documentId, g.chunkId, Some(g.content), g.metadata, 0, 0.0, score)
  }

  /** One step of the grep loop: set the keyword score of a present
      entry, or add a grep-only entry at position 0 with no semantic
      score. */
  function SetKeyword(m: ScoreMap, g: GrepHit, score: real): (r: ScoreMap)
    requires Valid(m)
    ensures Valid(r)
    ensures r.vals.Keys == m.vals.Keys + {g.chunkId}
    ensures forall id | id in m.vals && id != g.chunkId :: r.vals[id] == m.vals[id]
    ensures g.chunkId in m.vals ==> r.vals[g.chunkId] == m.vals[g.chunkId].(keyword := score)
    ensures g.chunkId !in m.vals ==>
      r.vals[g.chunkId].keyword == score && r.vals[g.chunkId].semantic == 0.0 && r.vals[g.chunkId].position == 0
  {
    if g.chunkId in m.vals then Put(m, m.vals[g.chunkId].(keyword := score))
    else Put(m, GrepEntry(g, score))
  }

  /** The loop over grep results, `n` being their number. */
  function AddKeyword(m: ScoreMap, grep: seq<GrepHit>, n: nat): (r: ScoreMap)
    requires Valid(m) && |grep| <= n
    ensures Valid(r)
  {
    if grep == [] then m
    else
      var k := |grep| - 1;
      SetKeyword(AddKeyword(m, grep[..k], n), grep[k], KeywordScore(n, k))
  }

  /** A chunk's keyword score is set by its last grep result; nothing else
      of an entry already present changes; a grep-only entry has no
      semantic score and position 0. */
  lemma {:induction false} AddKeywordEffect(m: ScoreMap, grep: seq<GrepHit>, n: nat, id: string)
    requires Valid(m) && |grep| <= n
    ensures var r := AddKeyword(m, grep, n);
      && (id in r.vals <==> id in m.vals || LastGrep(grep, id).Some?)
      && (id in r.vals ==>
            r.vals[id].keyword == (if LastGrep(grep, id).Some? then KeywordScore(n, LastGrep(grep, id).value) else m.vals[id].keyword))
      && (id in m.vals ==> r.vals[id] == m.vals[id].(keyword := r.vals[id].keyword))
      && (id in r.vals && id !in m.vals ==> r.vals[id].semantic == 0.0 && r.vals[id].position == 0)
    decreases |grep|
  {
    if grep != [] {
      var k := |grep| - 1;
      AddKeywordEffect(m, grep[..k], n, id);
      if grep[k].chunkId != id {
        assert LastGrep(grep, id) == LastGrep(grep[..k], id);
      }
    }
  }

  /** The semantic score a chunk ends with: its last semantic result's,
      or 0. */
  function SemanticOf(sem: seq<Hit>, id: string): real {
    if LastHit(sem, id).Some? then LastHit(sem, id).value.score else 0.0
  }

  /** The keyword score a chunk ends with: that of its last grep result's
      place, or 0. */
  function KeywordOf(grep: seq<GrepHit>, id: string): real {
    if LastGrep(grep, id).Some? then KeywordScore(|grep|, LastGrep(grep, id).value) else 0.0
  }

  /** Both loops: the semantic results first, then the grep results. */
  function Entries(sem: seq<Hit>, grep: seq<GrepHit>): (r: ScoreMap)
    ensures Valid(r)
  {
    AddKeyword(AddSemantic(sem), grep, |grep|)
  }

  /** After both loops there is one entry per chunk found by either
      search, with its semantic and keyword scores; an entry from the
      semantic side keeps that result's document, content, metadata and
      position, a grep-only entry sits at position 0. */
  lemma EntriesEffect(sem: seq<Hit>, grep: seq<GrepHit>, id: string)
    ensures var r := Entries(sem, grep);
      && (id in r.vals <==> LastHit(sem, id).Some? || LastGrep(grep, id).Some?)
      && (id in r.vals ==>
            && r.vals[id].semantic == SemanticOf(sem, id)
            && r.vals[id].keyword == KeywordOf(grep, id)
            && (LastHit(sem, id).Some? ==>
                  var h := LastHit(sem, id).value;
                  r.vals[id] == Entry(h.documentId, id, h.content, h.metadata, h.position, h.score, KeywordOf(grep, id)))
            && (LastHit(sem, id).None? ==> r.vals[id].position == 0))
  {
    AddKeywordEffect(AddSemantic(sem), grep, |grep|, id);
  }

  // ---------------------------------------------------------------------
  // Ranking.
  // ---------------------------------------------------------------------

  /** `semantic_score * semantic_weight + keyword_score * keyword_weight`. */
  function Weighted(semantic: real, keyword: real, ws: real, wk: real): real {
    semantic * ws + keyword * wk
  }

  function Combined(e: Entry, ws: real, wk: real): real {
    Weighted(e.semantic, e.keyword, ws, wk)
  }

  /** Python's stable `sorted(..., reverse=True)`: a higher score first,
      equal scores in their original order. */
  predicate ScoreBefore(scores: seq<real>, i: nat, j: nat) {
    i < |scores| && j < |scores| && (scores[i] > scores[j] || (scores[i] == scores[j] && i < j))
  }

  lemma ScoreBeforeTotal(scores: seq<real>)
    ensures StrictTotalOn((i: nat, j: nat) => ScoreBefore(scores, i, j), Positions(|scores|))
  {
  }

  /** The order the sort puts the entries in, as their positions. */
  function Rank(scores: seq<real>): (p: seq<nat>)
    ensures |p| == |scores|
    ensures forall k | 0 <= k < |p| :: p[k] < |scores|
    ensures forall i | 0 <= i < |scores| :: i in p
    ensures forall a, b | 0 <= a < b < |p| :: ScoreBefore(scores, p[a], p[b])
  {
    var lt := (i: nat, j: nat) => ScoreBefore(scores, i, j);
    var xs := Positions(|scores|);
    ScoreBeforeTotal(scores);
    SortSorted(xs, lt);
    var p := Sort(xs, lt);
    PermutesPositions(p, |scores|);
    p
  }

  function ToHit(e: Entry, ws: real, wk: real): Hit {
    Hit(e.documentId, e.chunkId, e.content, e.metadata, Combined(e, ws, wk), e.position)
  }

  /** The map's entries as results, in insertion order. */
  function HitsInOrder(m: ScoreMap, ws: real, wk: real): (r: seq<Hit>)
    requires Valid(m)
    ensures |r| == |m.keys| && forall k | 0 <= k < |r| :: r[k] == ToHit(m.vals[m.keys[k]], ws, wk)
  {
    seq(|m.keys|, k requires 0 <= k < |m.keys| => ToHit(m.vals[m.keys[k]], ws, wk))
  }

  function ScoresOf(hits: seq<Hit>): (r: seq<real>)
    ensures |r| == |hits| && forall k | 0 <= k < |hits| :: r[k] == hits[k].score
  {
    seq(|hits|, k requires 0 <= k < |hits| => hits[k].score)
  }

  /** The sorted results: every entry of the map, best combined score
      first. */
  function Ranked(m: ScoreMap, ws: real, wk: real): (r: seq<Hit>)
    requires Valid(m)
    ensures |r| == |m.keys|
  {
    var hits := HitsInOrder(m, ws, wk);
    Permute(hits, Rank(ScoresOf(hits)))
  }

  /** The sorted results hold each entry of the map once, with its
      combined score. */
  lemma RankedContents(m: ScoreMap, ws: real, wk: real)
    requires Valid(m)
    ensures var r := Ranked(m, ws, wk);
      && (forall k | 0 <= k < |r| :: r[k].chunkId in m.vals && r[k] == ToHit(m.vals[r[k].chunkId], ws, wk))
      && (forall id | id in m.vals :: exists k | 0 <= k < |r| :: r[k].chunkId == id)
  {
    var hits := HitsInOrder(m, ws, wk);
    var p := Rank(ScoresOf(hits));
    var r := Ranked(m, ws, wk);
    assert forall k | 0 <= k < |r| :: r[k] == hits[p[k]];
    forall id | id in m.vals
      ensures exists k | 0 <= k < |r| :: r[k].chunkId == id
    {
      var i :| 0 <= i < |m.keys| && m.keys[i] == id;
      assert i < |ScoresOf(hits)|;
      assert i in p;
      var k :| 0 <= k < |p| && p[k] == i;
      assert r[k].chunkId == id;
    }
  }

  /** Of two sorted results, the earlier is another chunk and scores at
      least as much; on equal scores it was inserted into the map first. */
  lemma RankedOrdered(m: ScoreMap, ws: real, wk: real, a: nat, b: nat)
    requires Valid(m) && a < b < |Ranked(m, ws, wk)|
    ensures var r := Ranked(m, ws, wk);
      && r[a].chunkId != r[b].chunkId
      && r[a].score >= r[b].score
      && (r[a].score == r[b].score ==>
            exists i, j | 0 <= i < j < |m.keys| :: m.keys[i] == r[a].chunkId && m.keys[j] == r[b].chunkId)
  {
    var hits := HitsInOrder(m, ws, wk);
    var scores := ScoresOf(hits);
    var p := Rank(scores);
    var r := Ranked(m, ws, wk);
    assert r[a] == hits[p[a]] && r[b] == hits[p[b]];
    assert ScoreBefore(scores, p[a], p[b]);
    assert m.keys[p[a]] != m.keys[p[b]];
  }

  // ---------------------------------------------------------------------
  // hybrid_search
  // ---------------------------------------------------------------------

  /** The part of `hybrid_search` after the two searches: the first
      `top_k` of the sorted results. */
  function Fuse(sem: seq<Hit>, grep: seq<GrepHit>, topK: int, ws: real, wk: real): (r: seq<Hit>)
    ensures topK >= 0 ==> |r| == Min(topK, |Entries(sem, grep).keys|)
  {
    PySlice(Ranked(Entries(sem, grep), ws, wk), 0, topK)
  }

  /** Each fused result is a chunk one of the searches found, scored
      `semantic * ws + keyword * wk` from its last semantic result and its
      last grep place. */
  lemma FuseScores(sem: seq<Hit>, grep: seq<GrepHit>, topK: int, ws: real, wk: real, k: nat)
    requires topK >= 0 && k < |Fuse(sem, grep, topK, ws, wk)|
    ensures var h := Fuse(sem, grep, topK, ws, wk)[k];
      && (LastHit(sem, h.chunkId).Some? || LastGrep(grep, h.chunkId).Some?)
      && h.score == Weighted(SemanticOf(sem, h.chunkId), KeywordOf(grep, h.chunkId), ws, wk)
      && (LastHit(sem, h.chunkId).Some? ==> h.position == LastHit(sem, h.chunkId).value.position)
  {
    var m := Entries(sem, grep);
    var ranked := Ranked(m, ws, wk);
    RankedContents(m, ws, wk);
    var h := ranked[k];
    assert Fuse(sem, grep, topK, ws, wk)[k] == h;
    EntriesEffect(sem, grep, h.chunkId);
  }

  /** The fused results name distinct chunks, best first, ties in the
      order the chunks entered the map. */
  lemma FuseOrdered(sem: seq<Hit>, grep: seq<GrepHit>, topK: int, ws: real, wk: real, a: nat, b: nat)
    requires topK >= 0 && a < b < |Fuse(sem, grep, topK, ws, wk)|
    ensures var r := Fuse(sem, grep, topK, ws, wk);
      r[a].chunkId != r[b].chunkId && r[a].score >= r[b].score
  {
    var m := Entries(sem, grep);
    RankedOrdered(m, ws, wk, a, b);
    assert Fuse(sem, grep, topK, ws, wk)[a] == Ranked(m, ws, wk)[a];
    assert Fuse(sem, grep, topK, ws, wk)[b] == Ranked(m, ws, wk)[b];
  }

  /** An element that a prefix leaves out lies beyond it. */
  lemma NotInPrefix(r: seq<Hit>, ranked: seq<Hit>, id: string, b: nat)
    requires |r| <= |ranked| && r == ranked[..|r|]
    requires forall j | 0 <= j < |r| :: r[j].chunkId != id
    requires b < |ranked| && ranked[b].chunkId == id
    ensures |r| <= b
  {
    assert forall j | 0 <= j < |r| :: ranked[j] == r[j];
  }

  /** A chunk found by either search but not returned sits after the
      returned prefix of the sorted results, with its combined score. */
  lemma LeftOutPlace(sem: seq<Hit>, grep: seq<GrepHit>, topK: int, ws: real, wk: real, id: string) returns (b: nat)
    requires topK >= 0
    requires LastHit(sem, id).Some? || LastGrep(grep, id).Some?
    requires forall j | 0 <= j < |Fuse(sem, grep, topK, ws, wk)| :: Fuse(sem, grep, topK, ws, wk)[j].chunkId != id
    ensures var ranked := Ranked(Entries(sem, grep), ws, wk);
      && |Fuse(sem, grep, topK, ws, wk)| <= b < |ranked|
      && ranked[b].score == Weighted(SemanticOf(sem, id), KeywordOf(grep, id), ws, wk)
  {
    var ranked := Ranked(Entries(sem, grep), ws, wk);
    b := RankedPlace(sem, grep, ws, wk, id);
    NotInPrefix(Fuse(sem, grep, topK, ws, wk), ranked, id, b);
  }

  /** A chunk found by either search has a place in the ranking, with its
      combined score. */
  lemma RankedPlace(sem: seq<Hit>, grep: seq<GrepHit>, ws: real, wk: real, id: string) returns (b: nat)
    requires LastHit(sem, id).Some? || LastGrep(grep, id).Some?
    ensures var ranked := Ranked(Entries(sem, grep), ws, wk);
      && b < |ranked| && ranked[b].chunkId == id
      && ranked[b].score == Weighted(SemanticOf(sem, id), KeywordOf(grep, id), ws, wk)
  {
    var m := Entries(sem, grep);
    var ranked := Ranked(m, ws, wk);
    RankedContents(m, ws, wk);
    EntriesEffect(sem, grep, id);
    assert exists j | 0 <= j < |ranked| :: ranked[j].chunkId == id;
    b :| 0 <= b < |ranked| && ranked[b].chunkId == id;
    assert ranked[b] == ToHit(m.vals[id], ws, wk);
  }

  /** Nothing left out scores higher than a kept result: a chunk found by
      either search but not returned scores at most as much as every
      returned one. */
  lemma FuseKeepsBest(sem: seq<Hit>, grep: seq<GrepHit>, topK: int, ws: real, wk: real, id: string, k: nat)
    requires topK >= 0 && k < |Fuse(sem, grep, topK, ws, wk)|
    requires LastHit(sem, id).Some? || LastGrep(grep, id).Some?
    requires forall j | 0 <= j < |Fuse(sem, grep, topK, ws, wk)| :: Fuse(sem, grep, topK, ws, wk)[j].chunkId != id
    ensures Weighted(SemanticOf(sem, id), KeywordOf(grep, id), ws, wk) <= Fuse(sem, grep, topK, ws, wk)[k].score
  {
    var m := Entries(sem, grep);
    var ranked := Ranked(m, ws, wk);
    var b := LeftOutPlace(sem, grep, topK, ws, wk, id);
    assert Fuse(sem, grep, topK, ws, wk)[k] == ranked[k];
    RankedOrdered(m, ws, wk, k, b);
  }

  /** The semantic search of `hybrid_search`: three times `top_k` with
      the shared filter, content and metadata shown and no score floor. */
  function SemanticPart(idx: Index, chunkListing: seq<string>, query: string, topK: int, filter: Option<Filter>,
                        searcher: Option<Searcher>, embedder: Embedder): (r: Outcome<seq<Hit>>)
    requires Enumerates(chunkListing, idx.chunks.Keys)
    ensures var s := SemanticSearch(idx, chunkListing, query, 3 * topK, filter, true, true, 0.0, searcher, embedder);
      (r.Raised? <==> s.Raised?) && (r.Ok? ==> r.value == s.value.0)
  {
    match SemanticSearch(idx, chunkListing, query, 3 * topK, filter, true, true, 0.0, searcher, embedder)
    case Raised => Raised
    case Ok((hits, _)) => Ok(hits)
  }

  /** The grep search of `hybrid_search`: three times `top_k` with the
      shared filter; only the results are kept. */
  function GrepPart(idx: Index, chunkListing: seq<string>, query: string, topK: int, filter: Option<Filter>): (r: Outcome<seq<GrepHit>>)
    requires Enumerates(chunkListing, idx.chunks.Keys)
    ensures r.Raised? <==> Active(filter) && exists c | c in idx.chunks :: MatchesFilter(idx.chunks[c].metadata, filter.value).Raised?
  {
    match GrepSearch(idx, chunkListing, query, 3 * topK, filter)
    case Raised => Raised
    case Ok((hits, _)) => Ok(hits)
  }

  /** The grep part is the grep search's result list. */
  lemma GrepPartIsGrep(idx: Index, chunkListing: seq<string>, query: string, topK: int, filter: Option<Filter>)
    requires Enumerates(chunkListing, idx.chunks.Keys)
    ensures var g := GrepSearch(idx, chunkListing, query, 3 * topK, filter);
      GrepPart(idx, chunkListing, query, topK, filter) == if g.Raised? then Raised else Ok(g.value.0)
  {
  }

  /** `hybrid_search`: the fused first `top_k` of the semantic and the grep
      search, each for three times `top_k` with the shared filter. A
      filter that raises on a chunk makes the grep search, and so the
      whole search, raise; the semantic search raises only then. The
      total found is the number returned. */
  function HybridSearch(idx: Index, chunkListing: seq<string>, query: string, topK: int, ws: real, wk: real,
                        filter: Option<Filter>, searcher: Option<Searcher>, embedder: Embedder): (r: Outcome<(seq<Hit>, nat)>)
    requires Enumerates(chunkListing, idx.chunks.Keys)
    ensures r.Raised? <==> Active(filter) && exists c | c in idx.chunks :: MatchesFilter(idx.chunks[c].metadata, filter.value).Raised?
    ensures r.Ok? ==> r.value.1 == |r.value.0| && (topK >= 0 ==> |r.value.0| <= topK)
    ensures r.Ok? ==>
      && SemanticPart(idx, chunkListing, query, topK, filter, searcher, embedder).Ok?
      && GrepPart(idx, chunkListing, query, topK, filter).Ok?
      && r.value.0 == Fuse(SemanticPart(idx, chunkListing, query, topK, filter, searcher, embedder).value,
                           GrepPart(idx, chunkListing, query, topK, filter).value, topK, ws, wk)
  {
    match SemanticPart(idx, chunkListing, query, topK, filter, searcher, embedder)
    case Raised => Raised
    case Ok(sem) =>
      match GrepPart(idx, chunkListing, query, topK, filter)
      case Raised => Raised
      case Ok(grep) =>
        var hits := Fuse(sem, grep, topK, ws, wk);
        Ok((hits, |hits|))
  }

  /** The results of a hybrid search name distinct chunks, best first;
      each is a chunk the semantic search returned or the grep search
      found, scored `semantic * ws + keyword * wk`; and no chunk either
      search found but the hybrid search left out scores higher than a
      returned one. */
  lemma HybridRanks(idx: Index, chunkListing: seq<string>, query: string, topK: int, ws: real, wk: real,
                    filter: Option<Filter>, searcher: Option<Searcher>, embedder: Embedder, a: nat, b: nat)
    requires Enumerates(chunkListing, idx.chunks.Keys) && topK >= 0
    requires var r := HybridSearch(idx, chunkListing, query, topK, ws, wk, filter, searcher, embedder);
      r.Ok? && a < b < |r.value.0|
    ensures var r := HybridSearch(idx, chunkListing, query, topK, ws, wk, filter, searcher, embedder).value.0;
      var sem := SemanticPart(idx, chunkListing, query, topK, filter, searcher, embedder).value;
      var grep := GrepPart(idx, chunkListing, query, topK, filter).value;
      && r[a].chunkId != r[b].chunkId && r[a].score >= r[b].score
      && (LastHit(sem, r[a].chunkId).Some? || LastGrep(grep, r[a].chunkId).Some?)
      && r[a].score == Weighted(SemanticOf(sem, r[a].chunkId), KeywordOf(grep, r[a].chunkId), ws, wk)
  {
    var sem := SemanticPart(idx, chunkListing, query, topK, filter, searcher, embedder).value;
    var grep := GrepPart(idx, chunkListing, query, topK, filter).value;
    FuseOrdered(sem, grep, topK, ws, wk, a, b);
    FuseScores(sem, grep, topK, ws, wk, a);
  }
}
