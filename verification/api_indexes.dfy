/** The index management endpoints (src/api/indexes.py) over the index
    registry: a request body pydantic rejects is a 400 before the handler
    runs, an unknown index a 404, an existing one a 409 on create, and an
    exception escaping the service a 500. Each endpoint returns the
    registry after the call with its response. */
module IndexApi {
  import opened Base
  import opened Schemas
  import opened Store
  import opened Documents
  import opened Lifecycle

  /** `CreateIndexRequest`. */
  datatype CreateRequest = CreateRequest(name: string, settings: Option<IndexSettings>)

  /** Settings the request may carry: each field within its declared
      bounds, with no check across fields. */
  predicate SettingsAccepted(settings: Option<IndexSettings>) {
    settings.Some? ==> SettingsInBounds(settings.value)
  }

  predicate ValidCreate(req: CreateRequest) {
    ValidIndexName(req.name) && SettingsAccepted(req.settings)
  }

  /** `IndexListResponse`. */
  datatype IndexList = IndexList(indexes: seq<IndexInfo>, total: nat)

  // ---------------------------------------------------------------------
  // GET /indexes
  // ---------------------------------------------------------------------

  /** `info` is the summary of a stored index. */
  predicate Describes(reg: Registry, info: IndexInfo) {
    info.name in reg && info == InfoOf(info.name, reg[info.name])
  }

  /** `list_indexes`: every index once, and their number. */
  function ListEndpoint(reg: Registry, listing: seq<string>): (r: IndexList)
    requires Enumerates(listing, reg.Keys)
    ensures r.total == |r.indexes| == |reg|
    ensures forall n :: n in reg <==> exists i | 0 <= i < |r.indexes| :: r.indexes[i].name == n
    ensures forall i | 0 <= i < |r.indexes| :: Describes(reg, r.indexes[i])
  {
    var indexes := ListIndexes(reg, listing);
    ListIndexesCount(reg, listing);
    IndexList(indexes, |indexes|)
  }

  // ---------------------------------------------------------------------
  // POST /indexes
  // ---------------------------------------------------------------------

  /** `create_index`: a bad name or bad settings is a 400 and an existing
      name a 409, both leaving the registry alone; otherwise a new empty
      index, or a 500 when settings taken from a bad configuration fail
      validation. */
  function CreateEndpoint(reg: Registry, req: CreateRequest, config: Config, now: Time): (r: (Registry, Response<IndexInfo>))
    ensures r.1 == Failure(400, ValidationError) <==> !ValidCreate(req)
    ensures r.1 == Failure(409, IndexAlreadyExists) <==> ValidCreate(req) && req.name in reg
    ensures r.1 == Failure(500, InternalError) <==>
      ValidCreate(req) && req.name !in reg && req.settings.None? && SettingsFromConfig(config).Raised?
    ensures r.1.Failure? ==> r.0 == reg
    ensures r.1.Success? ==>
      && req.name !in reg
      && r.0.Keys == reg.Keys + {req.name}
      && (forall n | n in reg :: r.0[n] == reg[n])
      && r.0[req.name].docs == map[] && r.0[req.name].chunks == map[]
      && r.0[req.name].mapping == [] && !r.0[req.name].built
      && r.1.data == InfoOf(req.name, r.0[req.name])
      && SettingsInBounds(r.1.data.settings)
      && (req.settings.Some? ==> r.1.data.settings == req.settings.value)
  {
    if !ValidCreate(req) then (reg, Failure(400, ValidationError))
    else if req.name in reg then (reg, Failure(409, IndexAlreadyExists))
    else
      match CreateIndex(reg, req.name, req.settings, config, now)
      case Raised => (reg, Failure(500, InternalError))
      case Ok((reg2, info)) => (reg2, Success(info))
  }

  // ---------------------------------------------------------------------
  // GET /indexes/{index_name}
  // ---------------------------------------------------------------------

  function GetEndpoint(reg: Registry, name: string, listing: seq<string>): (r: Response<IndexDetail>)
    requires name in reg ==> Enumerates(listing, reg[name].docs.Keys)
    ensures r == Failure(404, IndexNotFound) <==> name !in reg
    ensures r.Success? <==> name in reg
    ensures r.Success? ==> r.data.info == InfoOf(name, reg[name])
  {
    match GetIndex(reg, name, listing)
    case None => Failure(404, IndexNotFound)
    case Some(d) => Success(d)
  }

  /** A name accepted by create can be read back at once: an empty index
      with the settings it was created with. */
  lemma CreateThenGet(reg: Registry, req: CreateRequest, config: Config, now: Time)
    requires CreateEndpoint(reg, req, config, now).1.Success?
    ensures var (reg2, created) := CreateEndpoint(reg, req, config, now);
      var got := GetEndpoint(reg2, req.name, []);
      && got.Success? && got.data.info == created.data
      && got.data.info.documentCount == 0 && got.data.info.status == Empty
      && got.data.metadataFields == {}
  {
    var reg2 := CreateEndpoint(reg, req, config, now).0;
    assert Enumerates([], reg2[req.name].docs.Keys);
  }

  /** Creating the same name twice: the second request is a conflict and
      changes nothing. */
  lemma CreateTwice(reg: Registry, req: CreateRequest, config: Config, now: Time, later: Time)
    requires CreateEndpoint(reg, req, config, now).1.Success?
    ensures var reg2 := CreateEndpoint(reg, req, config, now).0;
      CreateEndpoint(reg2, req, config, later) == (reg2, Failure(409, IndexAlreadyExists))
  {
  }

  // ---------------------------------------------------------------------
  // DELETE /indexes/{index_name}
  // ---------------------------------------------------------------------

  /** `delete_index`: a 404 for an unknown name, the registry unchanged;
      otherwise only that index is gone. */
  function DeleteEndpoint(reg: Registry, name: string): (r: (Registry, Response<()>))
    ensures r.1 == Failure(404, IndexNotFound) <==> name !in reg
    ensures r.1.Success? <==> name in reg
    ensures r.0.Keys == reg.Keys - {name}
    ensures forall n | n in r.0 :: r.0[n] == reg[n]
  {
    if name !in reg then (reg, Failure(404, IndexNotFound))
    else (DeleteIndex(reg, name).0, Success(()))
  }

  // ---------------------------------------------------------------------
  // POST /indexes/{index_name}/rebuild
  // ---------------------------------------------------------------------

  /** `IndexRebuildRequest`; the body itself is optional. */
  datatype RebuildRequest = RebuildRequest(settings: Option<IndexSettings>)

  /** `request.settings if request else None`. */
  function RebuildSettings(req: Option<RebuildRequest>): (s: Option<IndexSettings>)
    ensures req.None? ==> s.None?
    ensures req.Some? ==> s == req.value.settings
  {
    if req.Some? then req.value.settings else None
  }

  /** `rebuild_index`: bad settings are a 400 and an unknown name a 404,
      both leaving the registry alone; a failed build is a 500 that still
      keeps the new settings; a good build reports the chunk count. */
  function RebuildEndpoint(reg: Registry, name: string, req: Option<RebuildRequest>, chunkListing: seq<string>,
                           leann: Leann, now: Time): (r: (Registry, Response<nat>))
    requires name in reg ==> Enumerates(chunkListing, reg[name].chunks.Keys)
    ensures r.1 == Failure(400, ValidationError) <==> !SettingsAccepted(RebuildSettings(req))
    ensures r.1 == Failure(404, IndexNotFound) <==> SettingsAccepted(RebuildSettings(req)) && name !in reg
    ensures r.1 == Failure(500, InternalError) <==>
      SettingsAccepted(RebuildSettings(req)) && name in reg && |reg[name].chunks| > 0 && leann == BuildFails
    ensures r.1.Failure? && r.1.status != 500 ==> r.0 == reg
    ensures name in reg && SettingsAccepted(RebuildSettings(req)) ==>
      && r.0.Keys == reg.Keys
      && r.0[name].meta.settings == RebuildSettings(req).GetOr(reg[name].meta.settings)
      && r.0[name].docs == reg[name].docs && r.0[name].chunks == reg[name].chunks
    ensures r.1.Success? ==> r.1.data == |reg[name].chunks| == r.0[name].meta.chunkCount
  {
    var settings := RebuildSettings(req);
    if !SettingsAccepted(settings) then (reg, Failure(400, ValidationError))
    else if name !in reg then (reg, Failure(404, IndexNotFound))
    else
      var (reg2, out) := RebuildIndex(reg, name, settings, chunkListing, leann, now);
      match out
      case Raised => (reg2, Failure(500, InternalError))
      case Ok(n) => (reg2, Success(n))
  }

  // ---------------------------------------------------------------------
  // The settings invariant.
  // ---------------------------------------------------------------------

  /** Every stored index has settings within the declared field bounds. */
  predicate SettingsSound(reg: Registry) {
    forall n | n in reg :: SettingsInBounds(reg[n].meta.settings)
  }

  /** Creating keeps every stored index's settings in bounds: it stores
      settings that passed validation, or settings built from the
      configuration, which `IndexSettings` validates the same way. */
  lemma CreateKeepsSettingsSound(reg: Registry, req: CreateRequest, config: Config, now: Time)
    requires SettingsSound(reg)
    ensures SettingsSound(CreateEndpoint(reg, req, config, now).0)
  {
  }

  /** Rebuilding stores only settings that passed validation, even when
      the build then fails. */
  lemma RebuildKeepsSettingsSound(reg: Registry, name: string, rebuild: Option<RebuildRequest>,
                                  chunkListing: seq<string>, leann: Leann, now: Time)
    requires SettingsSound(reg)
    requires name in reg ==> Enumerates(chunkListing, reg[name].chunks.Keys)
    ensures SettingsSound(RebuildEndpoint(reg, name, rebuild, chunkListing, leann, now).0)
  {
  }

  /** Deleting an index leaves the others as they were. */
  lemma DeleteKeepsSettingsSound(reg: Registry, name: string)
    requires SettingsSound(reg)
    ensures SettingsSound(DeleteEndpoint(reg, name).0)
  {
  }
}
