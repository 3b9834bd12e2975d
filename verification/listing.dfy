/** Reading the document store: `list_documents` (filter, sort, paginate)
    and `get_document` (src/services/document_service.py:216-310). */
module Listing {
  import opened Base
  import opened Text
  import opened Values
  import opened Filter
  import opened Sorting
  import opened Store

  // ---------------------------------------------------------------------
  // Selection.
  // ---------------------------------------------------------------------

  /** Whether the listing keeps a document: with an active filter, only a
      document whose metadata matches; a document on which the filter
      raises is skipped like one that fails it. */
  predicate Admits(arg: Option<FilterArg>, meta: Option<Metadata>) {
    !(arg.Some? && ArgActive(arg.value)) || MatchesArg(meta, arg.value) == Ok(true)
  }

  /** The listed documents the filter admits, in listing order. */
  function Selected(docs: map<string, Doc>, listing: seq<string>, arg: Option<FilterArg>): (r: seq<string>)
    requires forall i | 0 <= i < |listing| :: listing[i] in docs
    ensures forall id :: id in r <==> id in listing && Admits(arg, docs[id].metadata)
    ensures forall i | 0 <= i < |r| :: r[i] in docs
    ensures IsSubsequence(r, listing)
  {
    if listing == [] then []
    else
      var rest := Selected(docs, listing[1..], arg);
      assert forall id :: id in listing <==> id == listing[0] || id in listing[1..];
      if Admits(arg, docs[listing[0]].metadata) then [listing[0]] + rest else rest
  }

  /** The documents the filter admits, whatever the listing order. */
  function AdmittedIds(docs: map<string, Doc>, arg: Option<FilterArg>): set<string> {
    set id | id in docs && Admits(arg, docs[id].metadata)
  }

  lemma {:induction false} SubsequenceDistinct<T>(a: seq<T>, b: seq<T>)
    requires IsSubsequence(a, b) && Distinct(b)
    ensures Distinct(a)
    decreases |b|
  {
    if a != [] {
      var t := b[1..];
      assert Distinct(t) by {
        forall i, j | 0 <= i < j < |t| ensures t[i] != t[j] {
          assert t[i] == b[i + 1] && t[j] == b[j + 1];
        }
      }
      if a[0] == b[0] {
        SubsequenceDistinct(a[1..], t);
        SubsequenceMembers(a[1..], t);
        forall k | 0 <= k < |t| ensures t[k] != b[0] {
          assert t[k] == b[k + 1];
        }
        forall i, j | 0 <= i < j < |a| ensures a[i] != a[j] {
          if i == 0 {
            assert a[j] in a[1..];
          } else {
            assert a[i] == a[1..][i - 1] && a[j] == a[1..][j - 1];
          }
        }
      } else {
        SubsequenceDistinct(a, t);
      }
    }
  }

  /** The number of selected documents is the number of admitted
      documents: the listing order does not change the total. */
  lemma SelectedCount(docs: map<string, Doc>, listing: seq<string>, arg: Option<FilterArg>)
    requires Enumerates(listing, docs.Keys)
    ensures |Selected(docs, listing, arg)| == |AdmittedIds(docs, arg)|
  {
    var r := Selected(docs, listing, arg);
    SubsequenceDistinct(r, listing);
    assert forall i | 0 <= i < |r| :: r[i] in r;
    assert forall x | x in AdmittedIds(docs, arg) :: x in r;
    DistinctMultiset(r, AdmittedIds(docs, arg));
    assert |r| == |multiset(r)| == |multiset(AdmittedIds(docs, arg))| == |AdmittedIds(docs, arg)|;
  }

  // ---------------------------------------------------------------------
  // Summaries.
  // ---------------------------------------------------------------------

  const PreviewLength := 200

  /** `content[:200] + "..."` for long content, the content itself
      otherwise. */
  function Preview(content: string): (p: string)
    ensures |content| <= PreviewLength ==> p == content
    ensures |content| > PreviewLength ==> |p| == PreviewLength + 3 && HasPrefix(content, p[..PreviewLength]) && HasSuffix(p, "...")
  {
    if |content| > PreviewLength then content[..PreviewLength] + "..." else content
  }

  datatype DocInfo = DocInfo(
    id: string,
    preview: string,
    metadata: Option<Metadata>,
    chunkCount: nat,
    createdAt: Time,
    updatedAt: Time)

  function Info(id: string, d: Doc): DocInfo {
    DocInfo(id, Preview(d.content), d.metadata, d.chunkCount, d.createdAt, d.updatedAt)
  }

  // ---------------------------------------------------------------------
  // Sorting: `list.sort(key=..., reverse=...)` is stable in both
  // directions, so ties keep their listing order.
  // ---------------------------------------------------------------------

  datatype SortField = ByCreatedAt | ByUpdatedAt | ById

  /** A sort key: an instant or an id. */
  datatype Key = At(t: Time) | Named(s: string)

  predicate KeyLess(a: Key, b: Key) {
    match (a, b)
    case (At(x), At(y)) => x < y
    case (Named(x), Named(y)) => LexLess(x, y)
    case (At(_), Named(_)) => true
    case (Named(_), At(_)) => false
  }

  lemma KeyLessOrder(a: Key, b: Key, c: Key)
    ensures !KeyLess(a, a)
    ensures a == b || KeyLess(a, b) || KeyLess(b, a)
    ensures KeyLess(a, b) && KeyLess(b, c) ==> KeyLess(a, c)
    ensures !(KeyLess(a, b) && KeyLess(b, a))
  {
    if a.Named? {
      LexIrreflexive(a.s);
      if b.Named? {
        LexTotal(a.s, b.s);
        LexAsymmetric(a.s, b.s);
        if c.Named? && KeyLess(a, b) && KeyLess(b, c) {
          LexTransitive(a.s, b.s, c.s);
        }
      }
    }
  }

  /** `updated_at or created_at`: every stored document has an update
      time, so the fallback never applies. */
  function KeyOf(d: DocInfo, field: SortField): Key {
    match field
    case ByCreatedAt => At(d.createdAt)
    case ByUpdatedAt => At(d.updatedAt)
    case ById => Named(d.id)
  }

  /** Element `i` of the input comes before element `j` in the output:
      its key is strictly first in the requested direction, or the keys
      are equal and `i` came first. */
  predicate Before(keys: seq<Key>, desc: bool, i: nat, j: nat) {
    if i >= |keys| || j >= |keys| || keys[i] == keys[j] then i < j
    else if desc then KeyLess(keys[j], keys[i])
    else KeyLess(keys[i], keys[j])
  }

  lemma BeforeTotal(keys: seq<Key>, desc: bool)
    ensures StrictTotalOn((i: nat, j: nat) => Before(keys, desc, i, j), Positions(|keys|))
  {
    var lt := (i: nat, j: nat) => Before(keys, desc, i, j);
    var xs := Positions(|keys|);
    forall a, b, c | a in xs && b in xs && c in xs && lt(a, b) && lt(b, c)
      ensures lt(a, c)
    {
      KeyLessOrder(keys[a], keys[b], keys[c]);
      KeyLessOrder(keys[c], keys[b], keys[a]);
      KeyLessOrder(keys[a], keys[c], keys[b]);
    }
    forall a, b | a in xs && b in xs
      ensures a == b || lt(a, b) || lt(b, a)
    {
      KeyLessOrder(keys[a], keys[b], keys[a]);
    }
    forall a | a in xs ensures !lt(a, a) {
    }
  }

  /** The order `sort` puts the documents in, as input positions: a
      permutation of the positions in which each comes before every later
      one. */
  function SortPermutation(keys: seq<Key>, desc: bool): (p: seq<nat>)
    ensures multiset(p) == multiset(Positions(|keys|))
    ensures |p| == |keys|
    ensures forall k | 0 <= k < |p| :: p[k] < |keys|
    ensures forall a, b | 0 <= a < b < |p| :: Before(keys, desc, p[a], p[b])
  {
    var lt := (i: nat, j: nat) => Before(keys, desc, i, j);
    var xs := Positions(|keys|);
    BeforeTotal(keys, desc);
    assert Distinct(xs);
    SortSorted(xs, lt);
    var p := Sort(xs, lt);
    assert |p| == |multiset(p)| == |multiset(xs)| == |keys|;
    assert forall k | 0 <= k < |p| :: p[k] in multiset(xs);
    p
  }

  function InfosOf(docs: map<string, Doc>, ids: seq<string>): (r: seq<DocInfo>)
    requires forall i | 0 <= i < |ids| :: ids[i] in docs
    ensures |r| == |ids| && forall i | 0 <= i < |ids| :: r[i] == Info(ids[i], docs[ids[i]])
  {
    seq(|ids|, i requires 0 <= i < |ids| => Info(ids[i], docs[ids[i]]))
  }

  function KeysOf(infos: seq<DocInfo>, field: SortField): (r: seq<Key>)
    ensures |r| == |infos| && forall i | 0 <= i < |infos| :: r[i] == KeyOf(infos[i], field)
  {
    seq(|infos|, i requires 0 <= i < |infos| => KeyOf(infos[i], field))
  }

  /** The admitted documents, summarised and sorted. */
  function SortedInfos(idx: Index, listing: seq<string>, field: SortField, desc: bool, arg: Option<FilterArg>): (r: seq<DocInfo>)
    requires Enumerates(listing, idx.docs.Keys)
    ensures |r| == |Selected(idx.docs, listing, arg)| == |AdmittedIds(idx.docs, arg)|
  {
    SelectedCount(idx.docs, listing, arg);
    var infos := InfosOf(idx.docs, Selected(idx.docs, listing, arg));
    Permute(infos, SortPermutation(KeysOf(infos, field), desc))
  }

  /** The sorted list holds each admitted document once, summarised. */
  lemma SortedInfosContents(idx: Index, listing: seq<string>, field: SortField, desc: bool, arg: Option<FilterArg>)
    requires Enumerates(listing, idx.docs.Keys)
    ensures var r := SortedInfos(idx, listing, field, desc, arg);
      && |r| == |AdmittedIds(idx.docs, arg)|
      && (forall k | 0 <= k < |r| :: r[k].id in AdmittedIds(idx.docs, arg) && r[k] == Info(r[k].id, idx.docs[r[k].id]))
      && (forall id | id in AdmittedIds(idx.docs, arg) :: exists k | 0 <= k < |r| :: r[k].id == id)
  {
    var ids := Selected(idx.docs, listing, arg);
    SelectedCount(idx.docs, listing, arg);
    var infos := InfosOf(idx.docs, ids);
    var p := SortPermutation(KeysOf(infos, field), desc);
    assert forall id :: id in ids <==> id in AdmittedIds(idx.docs, arg);
    PermutedInfos(idx.docs, ids, p, AdmittedIds(idx.docs, arg));
  }

  /** Summaries of `ids` rearranged by a permutation of their positions:
      each is the summary of its document, and every id is there. */
  lemma PermutedInfos(docs: map<string, Doc>, ids: seq<string>, p: seq<nat>, admitted: set<string>)
    requires forall i | 0 <= i < |ids| :: ids[i] in docs
    requires forall id :: id in ids <==> id in admitted
    requires multiset(p) == multiset(Positions(|ids|))
    ensures forall k | 0 <= k < |p| :: p[k] < |ids|
    ensures var r := Permute(InfosOf(docs, ids), p);
      && (forall k | 0 <= k < |r| :: r[k].id in admitted && r[k] == Info(r[k].id, docs[r[k].id]))
      && (forall id | id in admitted :: exists k | 0 <= k < |r| :: r[k].id == id)
  {
    var infos := InfosOf(docs, ids);
    PermutesPositions(p, |ids|);
    var r := Permute(infos, p);
    forall k | 0 <= k < |r|
      ensures r[k].id in admitted && r[k] == Info(r[k].id, docs[r[k].id])
    {
      assert r[k] == infos[p[k]] && ids[p[k]] in ids;
    }
    forall id | id in admitted
      ensures exists k | 0 <= k < |r| :: r[k].id == id
    {
      var i :| 0 <= i < |ids| && ids[i] == id;
      assert i in p;
      var k :| 0 <= k < |p| && p[k] == i;
      assert r[k].id == id;
    }
  }

  /** The sorted list is ordered by the key, and documents with equal keys
      keep the order of the listing. */
  lemma SortedInfosOrdered(idx: Index, listing: seq<string>, field: SortField, desc: bool, arg: Option<FilterArg>, a: nat, b: nat)
    requires Enumerates(listing, idx.docs.Keys)
    requires a < b < |SortedInfos(idx, listing, field, desc, arg)|
    ensures var r := SortedInfos(idx, listing, field, desc, arg);
      var ka, kb := KeyOf(r[a], field), KeyOf(r[b], field);
      && (ka == kb || (if desc then KeyLess(kb, ka) else KeyLess(ka, kb)))
      && (ka == kb ==> exists i, j | 0 <= i < j < |listing| :: listing[i] == r[a].id && listing[j] == r[b].id)
  {
    var ids := Selected(idx.docs, listing, arg);
    var infos := InfosOf(idx.docs, ids);
    var keys := KeysOf(infos, field);
    var p := SortPermutation(keys, desc);
    var r := SortedInfos(idx, listing, field, desc, arg);
    assert r[a] == infos[p[a]] && r[b] == infos[p[b]];
    assert Before(keys, desc, p[a], p[b]);
    if keys[p[a]] == keys[p[b]] {
      assert p[a] < p[b];
      SubsequenceOrder(ids, listing, p[a], p[b]);
    }
  }

  /** Positions in a subsequence of a distinct sequence keep their order. */
  lemma {:induction false} SubsequenceOrder<T>(a: seq<T>, b: seq<T>, x: nat, y: nat)
    requires IsSubsequence(a, b) && x < y < |a|
    ensures exists i, j | 0 <= i < j < |b| :: b[i] == a[x] && b[j] == a[y]
    decreases |b|
  {
    var t := b[1..];
    if a[0] == b[0] {
      if x == 0 {
        SubsequenceMembers(a[1..], t);
        assert a[y] in a[1..];
        assert a[y] in t;
        var j :| 0 <= j < |t| && t[j] == a[y];
        assert b[j + 1] == a[y];
      } else {
        SubsequenceOrder(a[1..], t, x - 1, y - 1);
        var i, j :| 0 <= i < j < |t| && t[i] == a[1..][x - 1] && t[j] == a[1..][y - 1];
        assert b[i + 1] == a[x] && b[j + 1] == a[y];
      }
    } else {
      SubsequenceOrder(a, t, x, y);
      var i, j :| 0 <= i < j < |t| && t[i] == a[x] && t[j] == a[y];
      assert b[i + 1] == a[x] && b[j + 1] == a[y];
    }
  }

  // ---------------------------------------------------------------------
  // list_documents
  // ---------------------------------------------------------------------

  /** `list_documents`: one page of the sorted admitted documents, and the
      total number of admitted documents. */
  function ListDocuments(idx: Index, listing: seq<string>, page: int, perPage: int,
                         field: SortField, desc: bool, arg: Option<FilterArg>): (r: (seq<DocInfo>, nat))
    requires Enumerates(listing, idx.docs.Keys)
    ensures r.1 == |AdmittedIds(idx.docs, arg)|
    ensures forall k | 0 <= k < |r.0| :: r.0[k].id in AdmittedIds(idx.docs, arg)
  {
    var all := SortedInfos(idx, listing, field, desc, arg);
    SortedInfosContents(idx, listing, field, desc, arg);
    var items := PySlice(all, (page - 1) * perPage, (page - 1) * perPage + perPage);
    PySliceMembers(all, (page - 1) * perPage, (page - 1) * perPage + perPage);
    (items, |all|)
  }

  lemma PySliceMembers<T>(s: seq<T>, lo: int, hi: int)
    ensures forall k | 0 <= k < |PySlice(s, lo, hi)| :: PySlice(s, lo, hi)[k] in s
  {
    var a, b := SliceBound(lo, |s|), SliceBound(hi, |s|);
    if a < b {
      assert forall k | 0 <= k < b - a :: s[a..b][k] == s[a + k];
    }
  }

  /** A window of `n` elements from `start`: `n` of them, fewer at the
      end of the list, none past it; element `m` is element `start + m`. */
  lemma Window<T>(s: seq<T>, start: int, n: int, w: seq<T>)
    requires start >= 0 && n >= 1 && w == PySlice(s, start, start + n)
    ensures |w| == Max(0, Min(n, |s| - start))
    ensures forall m | 0 <= m < |w| :: w[m] == s[start + m]
  {
  }

  /** A page holds `perPage` documents, fewer on the last page and none
      past it. */
  lemma PageSize(idx: Index, listing: seq<string>, page: int, perPage: int,
                 field: SortField, desc: bool, arg: Option<FilterArg>)
    requires Enumerates(listing, idx.docs.Keys)
    requires page >= 1 && perPage >= 1
    ensures var r := ListDocuments(idx, listing, page, perPage, field, desc, arg);
      |r.0| == Max(0, Min(perPage, r.1 - (page - 1) * perPage))
  {
    var all := SortedInfos(idx, listing, field, desc, arg);
    ProductNat(page - 1, perPage);
    var start := (page - 1) * perPage;
    PageIsSlice(idx, listing, page, perPage, field, desc, arg, start);
    Window(all, start, perPage, PySlice(all, start, start + perPage));
  }

  /** The page is the slice of the sorted list from `start`. */
  lemma PageIsSlice(idx: Index, listing: seq<string>, page: int, perPage: int,
                    field: SortField, desc: bool, arg: Option<FilterArg>, start: int)
    requires Enumerates(listing, idx.docs.Keys)
    requires start == (page - 1) * perPage
    ensures var r := ListDocuments(idx, listing, page, perPage, field, desc, arg);
      var all := SortedInfos(idx, listing, field, desc, arg);
      r.0 == PySlice(all, start, start + perPage) && r.1 == |all|
  {
  }

  /** Item `m` of page `page` is item `start + m` of the sorted list,
      where `start` is `(page - 1) * perPage`. */
  lemma PageItem(idx: Index, listing: seq<string>, page: int, perPage: int,
                 field: SortField, desc: bool, arg: Option<FilterArg>, start: nat, m: int)
    requires Enumerates(listing, idx.docs.Keys)
    requires page >= 1 && 0 <= m < perPage && start == (page - 1) * perPage
    requires start + m < |AdmittedIds(idx.docs, arg)|
    ensures var items := ListDocuments(idx, listing, page, perPage, field, desc, arg).0;
      m < |items| && items[m] == SortedInfos(idx, listing, field, desc, arg)[start + m]
  {
    var all := SortedInfos(idx, listing, field, desc, arg);
    PageIsSlice(idx, listing, page, perPage, field, desc, arg, start);
    Window(all, start, perPage, PySlice(all, start, start + perPage));
  }

  /** A product of naturals is a natural. */
  lemma {:induction false} ProductNat(a: nat, b: nat)
    ensures a * b >= 0
  {
    if a > 0 {
      ProductNat(a - 1, b);
      assert a * b == (a - 1) * b + b;
    }
  }

  // ---------------------------------------------------------------------
  // get_document
  // ---------------------------------------------------------------------

  datatype ChunkInfo = ChunkInfo(chunkId: string, content: string, position: nat)

  datatype DocDetail = DocDetail(
    id: string,
    content: string,
    metadata: Option<Metadata>,
    chunks: seq<ChunkInfo>,
    chunkCount: nat,
    createdAt: Time,
    updatedAt: Time)

  /** The files among `files` that the glob `{doc_id}_chunk_*.json`
      matches, in the same order. */
  function ChunksOf(files: seq<string>, docId: string): (r: seq<string>)
    ensures forall c :: c in r <==> c in files && MatchesChunkGlob(docId, c)
    ensures IsSubsequence(r, files)
  {
    if files == [] then []
    else
      var rest := ChunksOf(files[1..], docId);
      assert forall c :: c in files <==> c == files[0] || c in files[1..];
      if MatchesChunkGlob(docId, files[0]) then [files[0]] + rest else rest
  }

  /** The chunk records of the named chunks, in the same order. */
  function ChunkInfos(chunks: map<string, Chunk>, ids: seq<string>): (r: seq<ChunkInfo>)
    requires forall k | 0 <= k < |ids| :: ids[k] in chunks
    ensures |r| == |ids|
    ensures forall k | 0 <= k < |ids| :: r[k] == ChunkInfo(ids[k], chunks[ids[k]].content, chunks[ids[k]].position)
  {
    seq(|ids|, k requires 0 <= k < |ids| => ChunkInfo(ids[k], chunks[ids[k]].content, chunks[ids[k]].position))
  }

  /** The stored chunks the glob of `docId` matches, in file-name
      order. */
  function DocChunkIds(idx: Index, docId: string, chunkListing: seq<string>): (r: seq<string>)
    requires Enumerates(chunkListing, idx.chunks.Keys)
    ensures forall c :: c in r <==> c in idx.chunks && MatchesChunkGlob(docId, c)
    ensures forall k | 0 <= k < |r| :: r[k] in idx.chunks
    ensures SortedBy(r, FileLess)
  {
    var files := SortedFiles(chunkListing);
    var mine := ChunksOf(files, docId);
    assert forall c :: c in files <==> c in chunkListing by {
      assert forall c :: c in files <==> c in multiset(chunkListing);
    }
    SubsequenceSorted(mine, files, FileLess);
    assert forall k | 0 <= k < |mine| :: mine[k] in mine;
    mine
  }

  /** `get_document`: the document with its chunks in file-name order. */
  function GetDocument(idx: Index, id: string, chunkListing: seq<string>): (r: Option<DocDetail>)
    requires Enumerates(chunkListing, idx.chunks.Keys)
    ensures r.None? <==> id !in idx.docs
    ensures r.Some? ==>
      && r.value.id == id
      && r.value.content == idx.docs[id].content
      && r.value.metadata == idx.docs[id].metadata
      && r.value.chunkCount == idx.docs[id].chunkCount
      && r.value.createdAt == idx.docs[id].createdAt
      && r.value.updatedAt == idx.docs[id].updatedAt
  {
    if id !in idx.docs then None
    else
      var d := idx.docs[id];
      var infos := ChunkInfos(idx.chunks, DocChunkIds(idx, id, chunkListing));
      Some(DocDetail(id, d.content, d.metadata, infos, d.chunkCount, d.createdAt, d.updatedAt))
  }

  /** The chunks `get_document` returns are exactly the stored chunks the
      document's glob matches, each with its stored content and position,
      in file-name order. */
  lemma GetDocumentChunks(idx: Index, id: string, chunkListing: seq<string>)
    requires Enumerates(chunkListing, idx.chunks.Keys)
    requires id in idx.docs
    ensures var cs := GetDocument(idx, id, chunkListing).value.chunks;
      && (forall c :: (exists k | 0 <= k < |cs| :: cs[k].chunkId == c) <==> c in idx.chunks && MatchesChunkGlob(id, c))
      && (forall k | 0 <= k < |cs| ::
            cs[k].chunkId in idx.chunks
            && cs[k].content == idx.chunks[cs[k].chunkId].content
            && cs[k].position == idx.chunks[cs[k].chunkId].position)
      && (forall a, b | 0 <= a < b < |cs| :: FileLess(cs[a].chunkId, cs[b].chunkId))
  {
    var ids := DocChunkIds(idx, id, chunkListing);
    var cs := GetDocument(idx, id, chunkListing).value.chunks;
    assert cs == ChunkInfos(idx.chunks, ids);
    assert forall c :: (exists k | 0 <= k < |cs| :: cs[k].chunkId == c) <==> c in ids by {
      forall c ensures (exists k | 0 <= k < |cs| :: cs[k].chunkId == c) <==> c in ids {
        if c in ids {
          var k :| 0 <= k < |ids| && ids[k] == c;
          assert cs[k].chunkId == c;
        }
      }
    }
  }

  /** Chunks come back in file-name order, not by position: chunk 10 is
      listed before chunk 2. */
  lemma NameOrderIsNotPosition(docId: string)
    ensures FileLess(ChunkId(docId, 10), ChunkId(docId, 2))
  {
    var a, b := ChunkId(docId, 10) + ".json", ChunkId(docId, 2) + ".json";
    var n := |docId| + |ChunkInfix|;
    assert NatToString(10) == "10";
    assert NatToString(2) == "2";
    assert a[..n] == b[..n];
    assert a[n] == '1' && b[n] == '2';
    LexCommonPrefix(a, b, n);
  }

  /** Strings that agree before position `n` and differ there are ordered
      by their characters at `n`. */
  lemma {:induction false} LexCommonPrefix(a: string, b: string, n: nat)
    requires n < |a| && n < |b| && a[..n] == b[..n] && a[n] < b[n]
    ensures LexLess(a, b)
    decreases n
  {
    if n > 0 {
      assert a[0] == a[..n][0] == b[..n][0] == b[0];
      assert a[1..][..n - 1] == a[..n][1..] == b[..n][1..] == b[1..][..n - 1];
      LexCommonPrefix(a[1..], b[1..], n - 1);
    }
  }
}
