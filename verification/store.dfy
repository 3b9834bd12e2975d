/** The on-disk layout of an index directory, as records:
    `metadata.json` (the index's own record), `documents/{id}.json` (one
    record per document), `chunks/{chunk_id}.json` (one record per chunk),
    `chunk_mapping.json` (the vector position of each chunk) and
    `index.leann` (whether a vector index has been built). A directory's
    contents are a map from file stem to record; the order in which a
    directory lists its files is a parameter wherever the code depends on
    it. Timestamps are opaque ordered instants supplied by the caller. */
module Store {
  import opened Base
  import opened Text
  import opened Values
  import opened Schemas
  import opened Sorting

  type Time = int

  /** `documents/{id}.json`; the id is the file stem. */
  datatype Doc = Doc(
    content: string,
    metadata: Option<Metadata>,
    chunkCount: nat,
    createdAt: Time,
    updatedAt: Time)

  /** `chunks/{chunk_id}.json`; the chunk id is the file stem. */
  datatype Chunk = Chunk(
    documentId: string,
    content: string,
    position: nat,
    metadata: Option<Metadata>)

  /** `metadata.json` of an index. */
  datatype IndexMeta = IndexMeta(
    createdAt: Time,
    updatedAt: Option<Time>,
    settings: IndexSettings,
    chunkCount: int,
    totalCharacters: int)

  datatype Index = Index(
    meta: IndexMeta,
    docs: map<string, Doc>,
    chunks: map<string, Chunk>,
    mapping: seq<string>,
    built: bool)

  /** The index directory: one sub-directory per index name. */
  type Registry = map<string, Index>

  // ---------------------------------------------------------------------
  // Chunk names and ownership.
  // ---------------------------------------------------------------------

  const ChunkInfix := "_chunk_"

  /** `f"{doc_id}_chunk_{i}"` */
  function ChunkId(docId: string, i: nat): string {
    docId + ChunkInfix + NatToString(i)
  }

  /** The glob `{doc_id}_chunk_*.json` on a chunk file: any chunk whose
      name starts with the document id and `_chunk_`. */
  predicate MatchesChunkGlob(docId: string, chunkId: string) {
    HasPrefix(chunkId, docId + ChunkInfix)
  }

  /** The chunks written for `docId` and no other document's: the id,
      `_chunk_`, then decimal digits only. */
  predicate IsChunkOf(docId: string, chunkId: string) {
    && MatchesChunkGlob(docId, chunkId)
    && |chunkId| > |docId| + |ChunkInfix|
    && forall k | |docId| + |ChunkInfix| <= k < |chunkId| :: IsDigit(chunkId[k])
  }

  lemma ChunkIdIsChunkOf(docId: string, i: nat)
    ensures IsChunkOf(docId, ChunkId(docId, i))
    ensures MatchesChunkGlob(docId, ChunkId(docId, i))
  {
    var c := ChunkId(docId, i);
    var n := |docId| + |ChunkInfix|;
    assert c[..|docId + ChunkInfix|] == docId + ChunkInfix;
    assert forall k | n <= k < |c| :: c[k] == NatToString(i)[k - n];
  }

  /** The last character of `_chunk_` in a matching name is not a digit. */
  lemma InfixEndsInUnderscore(docId: string, c: string)
    requires MatchesChunkGlob(docId, c)
    ensures c[|docId| + 6] == '_' && !IsDigit(c[|docId| + 6])
    ensures c[..|docId|] == docId
  {
    assert c[|docId| + 6] == (docId + ChunkInfix)[|docId| + 6];
    assert c[..|docId|] == (docId + ChunkInfix)[..|docId|];
  }

  /** Every chunk name belongs to at most one document. */
  lemma ChunkOwnerUnique(d1: string, d2: string, c: string)
    requires IsChunkOf(d1, c) && IsChunkOf(d2, c)
    ensures d1 == d2
  {
    InfixEndsInUnderscore(d1, c);
    InfixEndsInUnderscore(d2, c);
  }

  /** Distinct (document, position) pairs give distinct chunk names. */
  lemma ChunkIdInjective(d1: string, i: nat, d2: string, j: nat)
    requires ChunkId(d1, i) == ChunkId(d2, j)
    ensures d1 == d2 && i == j
  {
    ChunkIdIsChunkOf(d1, i);
    ChunkIdIsChunkOf(d2, j);
    ChunkOwnerUnique(d1, d2, ChunkId(d1, i));
    var c := ChunkId(d1, i);
    var n := |d1| + |ChunkInfix|;
    assert NatToString(i) == c[n..] == NatToString(j);
    NatToStringInjective(i, j);
  }

  // ---------------------------------------------------------------------
  // File order: `sorted(path.glob(...))` orders files by name.
  // ---------------------------------------------------------------------

  /** Path order of two files in the same directory, `{stem}.json`. */
  predicate FileLess(a: string, b: string) {
    LexLess(a + ".json", b + ".json")
  }

  lemma FileLessTotal(xs: seq<string>)
    ensures StrictTotalOn(FileLess, xs)
  {
    forall a | a in xs ensures !FileLess(a, a) {
      LexIrreflexive(a + ".json");
    }
    forall a, b | a in xs && b in xs ensures a == b || FileLess(a, b) || FileLess(b, a) {
      LexTotal(a + ".json", b + ".json");
      if a + ".json" == b + ".json" {
        assert a == (a + ".json")[..|a|];
        assert b == (b + ".json")[..|b|];
      }
    }
    forall a, b, c | a in xs && b in xs && c in xs && FileLess(a, b) && FileLess(b, c)
      ensures FileLess(a, c)
    {
      LexTransitive(a + ".json", b + ".json", c + ".json");
    }
  }

  /** The files of a directory listing, in name order: every listed stem
      once, each before every later one. */
  function SortedFiles(listing: seq<string>): (r: seq<string>)
    requires Distinct(listing)
    ensures multiset(r) == multiset(listing)
    ensures SortedBy(r, FileLess)
  {
    FileLessTotal(listing);
    SortSorted(listing, FileLess);
    Sort(listing, FileLess)
  }

  /** The sorted listing holds exactly the listed keys. */
  lemma SortedFilesMembers(listing: seq<string>, keys: set<string>)
    requires Enumerates(listing, keys)
    ensures forall c :: c in SortedFiles(listing) <==> c in keys
    ensures forall i | 0 <= i < |SortedFiles(listing)| :: SortedFiles(listing)[i] in keys
  {
    var files := SortedFiles(listing);
    assert forall c :: c in files <==> c in multiset(listing);
    assert forall i | 0 <= i < |files| :: files[i] in files;
  }

  /** The name order does not depend on the order the directory listed
      its files in. */
  lemma SortedFilesUnique(l1: seq<string>, l2: seq<string>, keys: set<string>)
    requires Enumerates(l1, keys) && Enumerates(l2, keys)
    ensures SortedFiles(l1) == SortedFiles(l2)
  {
    assert multiset(l1) == multiset(l2) by {
      DistinctMultiset(l1, keys);
      DistinctMultiset(l2, keys);
    }
    FileLessTotal(l1);
    SortIgnoresInputOrder(l1, l2, FileLess);
  }

  /** A listing of distinct elements holds each element of its set once. */
  lemma {:induction false} DistinctMultiset<T>(s: seq<T>, keys: set<T>)
    requires Enumerates(s, keys)
    ensures multiset(s) == multiset(keys)
    decreases |s|
  {
    if s != [] {
      var t := s[1..];
      assert s == [s[0]] + t;
      forall k | 0 <= k < |t| ensures t[k] != s[0] {
        assert t[k] == s[k + 1];
      }
      assert Enumerates(t, keys - {s[0]}) by {
        forall i, j | 0 <= i < j < |t| ensures t[i] != t[j] {
          assert t[i] == s[i + 1] && t[j] == s[j + 1];
        }
        forall x | x in keys - {s[0]} ensures x in t {
          var k :| 0 <= k < |s| && s[k] == x;
          assert k != 0;
          assert t[k - 1] == x;
        }
      }
      DistinctMultiset(t, keys - {s[0]});
      assert keys == {s[0]} + (keys - {s[0]});
    } else {
      assert keys == {};
    }
  }

  // ---------------------------------------------------------------------
  // Index status and the index record (src/services/index_service.py).
  // ---------------------------------------------------------------------

  /** `_get_index_status`: no documents is empty, whatever else exists; a
      built vector index is ready; otherwise the index is building. */
  function Status(idx: Index): (s: IndexStatus)
    ensures s == Empty <==> |idx.docs| == 0
    ensures s == Ready <==> |idx.docs| > 0 && idx.built
    ensures s != Error
  {
    if |idx.docs| == 0 then Empty else if idx.built then Ready else Building
  }

  /** `update_metadata`: stamp `updated_at` and replace the counters that
      are given. */
  function UpdateMeta(m: IndexMeta, now: Time, chunkCount: Option<int>, totalCharacters: Option<int>): (r: IndexMeta)
    ensures r.updatedAt == Some(now)
    ensures r.chunkCount == chunkCount.GetOr(m.chunkCount)
    ensures r.totalCharacters == totalCharacters.GetOr(m.totalCharacters)
    ensures r.settings == m.settings && r.createdAt == m.createdAt
  {
    m.(updatedAt := Some(now),
       chunkCount := chunkCount.GetOr(m.chunkCount),
       totalCharacters := totalCharacters.GetOr(m.totalCharacters))
  }
}
