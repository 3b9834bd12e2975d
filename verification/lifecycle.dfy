/** The index registry (src/services/index_service.py): creating, reading,
    listing, deleting and rebuilding indexes, over a map from index name
    to index directory. */
module Lifecycle {
  import opened Base
  import opened Values
  import opened Schemas
  import opened Store
  import opened Documents

  /** `IndexInfo` as the service reports it. */
  datatype IndexInfo = IndexInfo(
    name: string,
    createdAt: Time,
    updatedAt: Option<Time>,
    documentCount: nat,
    chunkCount: int,
    status: IndexStatus,
    settings: IndexSettings)

  /** The summary of a stored index: the document count is the number of
      document files, the chunk count is the recorded counter. */
  function InfoOf(name: string, idx: Index): (r: IndexInfo)
    ensures r.name == name && r.documentCount == |idx.docs| && r.chunkCount == idx.meta.chunkCount
    ensures r.status == Status(idx) && r.settings == idx.meta.settings
    ensures r.createdAt == idx.meta.createdAt && r.updatedAt == idx.meta.updatedAt
  {
    IndexInfo(name, idx.meta.createdAt, idx.meta.updatedAt, |idx.docs|, idx.meta.chunkCount, Status(idx), idx.meta.settings)
  }

  // ---------------------------------------------------------------------
  // create_index
  // ---------------------------------------------------------------------

  /** `create_index`: settings from the configuration when none are given
      (which raises when the configuration is out of bounds); a fresh
      index record with zero counters and no update time; an existing
      directory of that name is reused, its documents and chunks kept. The
      reported summary is always an empty index. */
  function CreateIndex(reg: Registry, name: string, settings: Option<IndexSettings>, config: Config, now: Time): (r: Outcome<(Registry, IndexInfo)>)
    ensures r.Raised? <==> settings.None? && SettingsFromConfig(config).Raised?
    ensures r.Ok? ==>
      var (reg2, info) := r.value;
      && reg2.Keys == reg.Keys + {name}
      && reg2[name].meta == IndexMeta(now, None, info.settings, 0, 0)
      && (settings.Some? ==> info.settings == settings.value)
      && (settings.None? ==> SettingsFromConfig(config) == Ok(info.settings))
      && info == IndexInfo(name, now, None, 0, 0, Empty, info.settings)
      && (name in reg ==> reg2[name].docs == reg[name].docs && reg2[name].chunks == reg[name].chunks
                          && reg2[name].mapping == reg[name].mapping && reg2[name].built == reg[name].built)
      && (name !in reg ==> reg2[name].docs == map[] && reg2[name].chunks == map[] && reg2[name].mapping == [] && !reg2[name].built)
      && (forall n | n in reg && n != name :: reg2[n] == reg[n])
  {
    var chosen := if settings.Some? then Ok(settings.value) else SettingsFromConfig(config);
    match chosen
    case Raised => Raised
    case Ok(s) =>
      var meta := IndexMeta(now, None, s, 0, 0);
      var idx := if name in reg then reg[name].(meta := meta) else Index(meta, map[], map[], [], false);
      Ok((reg[name := idx], IndexInfo(name, now, None, 0, 0, Empty, s)))
  }

  /** Creating over an existing directory keeps its documents, so the
      summary `create_index` reports (empty) can disagree with the status
      the index then has. */
  lemma CreateOverExisting(reg: Registry, name: string, settings: IndexSettings, config: Config, now: Time)
    requires name in reg && |reg[name].docs| > 0
    ensures var r := CreateIndex(reg, name, Some(settings), config, now);
      r.Ok? && r.value.1.status == Empty && Status(r.value.0[name]) != Empty
  {
  }

  // ---------------------------------------------------------------------
  // get_index and list_indexes
  // ---------------------------------------------------------------------

  datatype IndexDetail = IndexDetail(
    info: IndexInfo,
    totalCharacters: int,
    avgChunkSize: real,
    metadataFields: set<string>)

  /** Document `d` has truthy metadata with key `f`. */
  predicate HasField(docs: map<string, Doc>, d: string, f: string)
    requires d in docs
  {
    Truthy(docs[d].metadata) && f in docs[d].metadata.value
  }

  /** The metadata keys of the listed documents whose metadata is truthy. */
  function FieldsOf(docs: map<string, Doc>, listing: seq<string>): (r: set<string>)
    requires forall d | d in listing :: d in docs
    ensures forall f :: f in r <==> exists d | d in listing :: HasField(docs, d, f)
  {
    if listing == [] then {}
    else
      var rest := FieldsOf(docs, listing[1..]);
      var m := docs[listing[0]].metadata;
      var here := if Truthy(m) then m.value.Keys else {};
      assert forall d :: d in listing <==> d == listing[0] || d in listing[1..];
      assert forall f :: f in here <==> HasField(docs, listing[0], f);
      here + rest
  }

  /** `get_index`: `None` for an unknown name; otherwise the summary, the
      character total, the average chunk size and the metadata keys in
      use. */
  function GetIndex(reg: Registry, name: string, listing: seq<string>): (r: Option<IndexDetail>)
    requires name in reg ==> Enumerates(listing, reg[name].docs.Keys)
    ensures r.None? <==> name !in reg
    ensures r.Some? ==>
      var idx := reg[name];
      && r.value.info == InfoOf(name, idx)
      && r.value.totalCharacters == idx.meta.totalCharacters
      && (idx.meta.chunkCount > 0 ==> r.value.avgChunkSize * idx.meta.chunkCount as real == idx.meta.totalCharacters as real)
      && (idx.meta.chunkCount <= 0 ==> r.value.avgChunkSize == 0.0)
      && (forall f :: f in r.value.metadataFields <==> exists d | d in idx.docs :: HasField(idx.docs, d, f))
  {
    if name !in reg then None
    else
      var idx := reg[name];
      var fields := FieldsOf(idx.docs, listing);
      assert forall d :: d in idx.docs <==> d in listing;
      var avg := if idx.meta.chunkCount > 0 then idx.meta.totalCharacters as real / idx.meta.chunkCount as real else 0.0;
      Some(IndexDetail(InfoOf(name, idx), idx.meta.totalCharacters, avg, fields))
  }

  /** `list_indexes`: one summary per index, in directory order. */
  function ListIndexes(reg: Registry, listing: seq<string>): (r: seq<IndexInfo>)
    requires Enumerates(listing, reg.Keys)
    ensures |r| == |listing|
    ensures forall i | 0 <= i < |r| :: listing[i] in reg && r[i] == InfoOf(listing[i], reg[listing[i]])
  {
    seq(|listing|, i requires 0 <= i < |listing| => InfoOf(listing[i], reg[listing[i]]))
  }

  /** Every index is listed exactly once. */
  lemma ListIndexesCount(reg: Registry, listing: seq<string>)
    requires Enumerates(listing, reg.Keys)
    ensures |ListIndexes(reg, listing)| == |reg|
    ensures forall n | n in reg :: exists i | 0 <= i < |ListIndexes(reg, listing)| :: ListIndexes(reg, listing)[i].name == n
  {
    DistinctMultiset(listing, reg.Keys);
    assert |listing| == |multiset(listing)| == |reg.Keys|;
    var r := ListIndexes(reg, listing);
    forall n | n in reg
      ensures exists i | 0 <= i < |r| :: r[i].name == n
    {
      var i :| 0 <= i < |listing| && listing[i] == n;
      assert r[i].name == n;
    }
  }

  // ---------------------------------------------------------------------
  // delete_index
  // ---------------------------------------------------------------------

  /** `delete_index`: `false` for an unknown name; otherwise the directory
      is gone and no other index changes. */
  function DeleteIndex(reg: Registry, name: string): (r: (Registry, bool))
    ensures r.1 <==> name in reg
    ensures r.0.Keys == reg.Keys - {name}
    ensures forall n | n in r.0 :: r.0[n] == reg[n]
  {
    if name in reg then (reg - {name}, true) else (reg, false)
  }

  /** After a delete the index is not found; created again, it starts
      from an empty directory. */
  lemma DeleteThenCreate(reg: Registry, name: string, settings: IndexSettings, config: Config, now: Time, listing: seq<string>)
    ensures GetIndex(DeleteIndex(reg, name).0, name, listing).None?
    ensures var r := CreateIndex(DeleteIndex(reg, name).0, name, Some(settings), config, now);
      r.Ok? && r.value.0[name].docs == map[] && r.value.0[name].chunks == map[] && Status(r.value.0[name]) == Empty
  {
  }

  // ---------------------------------------------------------------------
  // rebuild_index
  // ---------------------------------------------------------------------

  /** `rebuild_index` of the index service: new settings, when given, are
      saved first and stay saved even if the build raises; after a
      successful build the update time is stamped and the chunk counter is
      set to the number of chunk files. An unknown name raises, since its
      record cannot be written. */
  function RebuildIndex(reg: Registry, name: string, settings: Option<IndexSettings>,
                        listing: seq<string>, leann: Leann, now: Time): (r: (Registry, Outcome<nat>))
    requires name in reg ==> Enumerates(listing, reg[name].chunks.Keys)
    ensures r.1.Raised? <==> name !in reg || (|reg[name].chunks| > 0 && leann == BuildFails)
    ensures name !in reg ==> r.0 == reg
    ensures name in reg ==>
      && r.0.Keys == reg.Keys
      && r.0[name].meta.settings == settings.GetOr(reg[name].meta.settings)
      && r.0[name].docs == reg[name].docs && r.0[name].chunks == reg[name].chunks
      && r.0[name].meta.createdAt == reg[name].meta.createdAt
      && r.0[name].meta.totalCharacters == reg[name].meta.totalCharacters
      && (forall n | n in reg && n != name :: r.0[n] == reg[n])
    ensures name in reg && r.1.Ok? ==>
      && r.1.value == |reg[name].chunks| == r.0[name].meta.chunkCount
      && r.0[name].meta.updatedAt == Some(now)
    ensures name in reg && r.1.Raised? ==>
      && r.0[name].meta.chunkCount == reg[name].meta.chunkCount
      && r.0[name].meta.updatedAt == reg[name].meta.updatedAt
      && r.0[name].mapping == reg[name].mapping && r.0[name].built == reg[name].built
  {
    if name !in reg then (reg, Raised)
    else
      var idx := reg[name];
      var saved := if settings.Some? then idx.(meta := idx.meta.(settings := settings.value)) else idx;
      match RebuildChunks(saved, listing, leann)
      case Raised => (reg[name := saved], Raised)
      case Ok((built, n)) =>
        (reg[name := built.(meta := UpdateMeta(built.meta, now, Some(n), None))], Ok(n))
  }

  /** After a successful rebuild with the library present and at least
      one chunk, the index is ready when it has documents, and the saved
      mapping lists every chunk file once in name order. */
  lemma RebuildMakesReady(reg: Registry, name: string, settings: Option<IndexSettings>, listing: seq<string>, now: Time)
    requires name in reg && Enumerates(listing, reg[name].chunks.Keys)
    requires |reg[name].chunks| > 0 && |reg[name].docs| > 0
    ensures var r := RebuildIndex(reg, name, settings, listing, Builds, now);
      && r.1.Ok? && Status(r.0[name]) == Ready
      && multiset(r.0[name].mapping) == multiset(reg[name].chunks.Keys)
  {
    var idx := reg[name];
    var saved := if settings.Some? then idx.(meta := idx.meta.(settings := settings.value)) else idx;
    var rb := RebuildChunks(saved, listing, Builds);
    assert rb.Ok? && rb.value.0.built;
  }
}
