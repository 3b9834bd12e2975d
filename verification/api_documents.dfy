/** The document endpoints (src/api/documents.py). Every endpoint first
    answers a 404 `INDEX_NOT_FOUND` for an unknown index; a request that
    pydantic or FastAPI's query validation rejects is a 400 before that.
    Each endpoint returns the registry after the call with its response,
    and a failure leaves the registry as it was. */
module DocumentApi {
  import opened Base
  import opened Text
  import opened Values
  import opened Filter
  import opened Chunker
  import opened Schemas
  import opened Store
  import opened Listing
  import opened Documents

  /** The registry with one index replaced: no other index changes. */
  function Commit(reg: Registry, name: string, idx: Index): (r: Registry)
    requires name in reg
    ensures r.Keys == reg.Keys && r[name] == idx
    ensures forall n | n in reg && n != name :: r[n] == reg[n]
  {
    reg[name := idx]
  }

  // ---------------------------------------------------------------------
  // POST /indexes/{index_name}/documents
  // ---------------------------------------------------------------------

  /** `AddDocumentsData`. */
  datatype AddData = AddData(added: nat, updated: nat, failed: nat, documents: seq<AddResult>)

  /** `sum(1 for r in results if r.status == status)`. */
  function CountStatus(results: seq<AddResult>, status: AddStatus): (n: nat)
    ensures n <= |results|
  {
    if results == [] then 0
    else (if results[0].status == status then 1 else 0) + CountStatus(results[1..], status)
  }

  /** Every result is counted once: as added, updated or failed. */
  lemma {:induction false} CountsPartition(results: seq<AddResult>)
    ensures CountStatus(results, Added) + CountStatus(results, Updated) + CountStatus(results, Failed) == |results|
  {
    if results != [] {
      CountsPartition(results[1..]);
    }
  }

  /** `add_documents`: a request body pydantic rejects is a 400 and an
      unknown index a 404; otherwise every document is added, updated or
      failed, and the counts add up to the number of documents. The
      chunking loop must end on the content of every document it chunks,
      under the size and overlap in effect. */
  function AddEndpoint(reg: Registry, name: string, req: AddRequest, freshIds: seq<string>, now: Time): (r: (Registry, Response<AddData>))
    requires |freshIds| == |req.documents|
    requires name in reg && AddRequestInBounds(req) ==> AllChunkable(reg[name], req.documents, freshIds, req.options)
    ensures !AddRequestInBounds(req) ==> r.1 == Failure(400, ValidationError)
    ensures AddRequestInBounds(req) && name !in reg ==> r.1 == Failure(404, IndexNotFound)
    ensures r.1.Success? <==> name in reg && AddRequestInBounds(req)
    ensures r.1.Failure? ==> r.0 == reg
    ensures r.1.Success? ==>
      var d := r.1.data;
      && d.added + d.updated + d.failed == |d.documents| == |req.documents|
      && d.added == CountStatus(d.documents, Added)
      && d.updated == CountStatus(d.documents, Updated)
      && d.failed == CountStatus(d.documents, Failed)
      && (forall i | 0 <= i < |d.documents| :: d.documents[i].id == ResolveId(req.documents[i].id, freshIds[i]))
      && r.0.Keys == reg.Keys && (forall n | n in reg && n != name :: r.0[n] == reg[n])
      && r.0[name].meta.settings == reg[name].meta.settings
      && (forall i | 0 <= i < |req.documents| :: ResolveId(req.documents[i].id, freshIds[i]) in r.0[name].docs)
  {
    if !AddRequestInBounds(req) then (reg, Failure(400, ValidationError))
    else if name !in reg then (reg, Failure(404, IndexNotFound))
    else
      var idx := reg[name];
      var (idx2, results) := AddDocuments(idx, req.documents, freshIds, req.options, now);
      AddDocumentsDocs(idx, req.documents, freshIds, req.options, now);
      CountsPartition(results);
      (Commit(reg, name, idx2),
       Success(AddData(CountStatus(results, Added), CountStatus(results, Updated), CountStatus(results, Failed), results)))
  }

  // ---------------------------------------------------------------------
  // POST /indexes/{index_name}/documents/file
  // ---------------------------------------------------------------------

  /** The uploaded file: its name as sent, if any, and its size in bytes. */
  datatype Upload = Upload(filename: Option<string>, size: nat)

  /** A JSON form or query field: absent (or empty), not valid JSON, or
      the parsed value. */
  datatype Json<+T> = Absent | Malformed | Parsed(value: T)

  /** A parsed metadata field: a JSON object, or any other JSON value. */
  datatype MetaValue = MetaObject(fields: Metadata) | MetaOther

  /** What the text extractor for the file's type produced: the text and,
      for PDF and PPTX, the page count; or a parse error. */
  datatype Extraction = Extracted(text: string, pageCount: Option<nat>) | ExtractionFailed

  /** `FileUploadResponse`. */
  datatype UploadData = UploadData(
    id: string,
    filename: string,
    fileType: string,
    pageCount: Option<nat>,
    chunkCount: nat,
    status: AddStatus)

  /** `file.filename or "unknown"`. */
  function FileName(f: Option<string>): (name: string)
    ensures f.Some? && f.value != "" ==> name == f.value
    ensures f.None? || f == Some("") ==> name == "unknown"
  {
    if f.None? || f.value == "" then "unknown" else f.value
  }

  /** `filename.rsplit(".", 1)[-1].lower() if "." in filename else ""`: the
      lower-cased text after the last dot. */
  function FileExtension(name: string): (ext: string)
    ensures '.' !in name ==> ext == ""
    ensures '.' in name ==>
      exists i | 0 <= i < |name| :: name[i] == '.' && '.' !in name[i + 1..] && ext == Lower(name[i + 1..])
  {
    var i := RFind(name, ".", 0, |name|);
    if i == -1 then
      assert forall k | 0 <= k < |name| :: name[k] == '.' ==> OccursAt(name, ".", k) by {
        forall k | 0 <= k < |name| && name[k] == '.' ensures OccursAt(name, ".", k) {
          assert name[k..k + 1] == [name[k]];
        }
      }
      ""
    else
      assert name[i..i + 1] == "." && name[i] == name[i..i + 1][0];
      assert '.' !in name[i + 1..] by {
        forall k | i + 1 <= k < |name| ensures name[k] != '.' {
          assert name[k..k + 1] == [name[k]];
          assert !OccursAt(name, ".", k);
        }
      }
      Lower(name[i + 1..])
  }

  /** The extension of `base.ext` is `ext`, lower-cased, when `ext` holds
      no dot. */
  lemma ExtensionOfJoin(base: string, ext: string)
    requires '.' !in ext
    ensures FileExtension(base + "." + ext) == Lower(ext)
  {
    var name := base + "." + ext;
    var e := FileExtension(name);
    assert name[|base|] == '.';
    var i :| 0 <= i < |name| && name[i] == '.' && '.' !in name[i + 1..] && e == Lower(name[i + 1..]);
    assert i == |base|;
    assert name[i + 1..] == ext;
  }

  /** `supported_types`. */
  predicate Supported(ext: string) {
    PlainText(ext) || ParserType(ext)
  }

  /** Types decoded as UTF-8 with errors ignored, which cannot fail. */
  predicate PlainText(ext: string) {
    ext == "txt" || ext == "md"
  }

  /** Types read by a parser library, which can fail. */
  predicate ParserType(ext: string) {
    ext == "pdf" || ext == "docx" || ext == "pptx"
  }

  /** The metadata stored with an upload: the given object, or an empty one
      when none was sent, with the file name and type set. */
  function UploadMetadata(meta: Json<MetaValue>, filename: string, ext: string): (m: Metadata)
    requires meta.Absent? || (meta.Parsed? && meta.value.MetaObject?)
    ensures m.Keys == {"filename", "file_type"} + (if meta.Parsed? then meta.value.fields.Keys else {})
    ensures m["filename"] == Str(filename) && m["file_type"] == Str(ext)
    ensures meta.Parsed? ==> forall k | k in meta.value.fields && k !in {"filename", "file_type"} :: m[k] == meta.value.fields[k]
  {
    var base := if meta.Parsed? then meta.value.fields else map[];
    base["filename" := Str(filename)]["file_type" := Str(ext)]
  }

  /** `add_document_from_file`. The checks run in this order: unknown
      index (404), file too large (400), unsupported type (400), metadata
      that is not JSON (400), extraction failure (400 with code
      `INTERNAL_ERROR`), no text (400), metadata that is JSON but not an
      object (500: setting a key on it raises). The document is then
      upserted under the given id, or the fresh one when none or an empty
      one is given. */
  function UploadEndpoint(reg: Registry, name: string, config: Config, up: Upload, meta: Json<MetaValue>,
                          extraction: Extraction, documentId: Option<string>, freshId: string, now: Time): (r: (Registry, Response<UploadData>))
    requires freshId != ""
    requires PlainText(FileExtension(FileName(up.filename))) ==> extraction.Extracted?
    requires
      && name in reg && up.size <= MaxUploadSizeBytes(config) && Supported(FileExtension(FileName(up.filename)))
      && !meta.Malformed? && extraction.Extracted? && !IsBlank(extraction.text)
      && !(meta.Parsed? && meta.value.MetaOther?)
      ==> Chunkable(extraction.text, Separators, reg[name].meta.settings.chunkSize, reg[name].meta.settings.chunkOverlap)
    ensures name !in reg ==> r.1 == Failure(404, IndexNotFound)
    ensures name in reg && up.size > MaxUploadSizeBytes(config) ==> r.1 == Failure(400, ValidationError)
    ensures name in reg && up.size <= MaxUploadSizeBytes(config) && !Supported(FileExtension(FileName(up.filename))) ==>
      r.1 == Failure(400, ValidationError)
    ensures r.1 == Failure(400, InternalError) <==>
      && name in reg && up.size <= MaxUploadSizeBytes(config) && Supported(FileExtension(FileName(up.filename)))
      && !meta.Malformed? && extraction.ExtractionFailed?
    ensures r.1 == Failure(400, ValidationError) <==>
      && name in reg
      && (|| up.size > MaxUploadSizeBytes(config)
          || !Supported(FileExtension(FileName(up.filename)))
          || meta.Malformed?
          || (extraction.Extracted? && IsBlank(extraction.text)))
    ensures name in reg && up.size <= MaxUploadSizeBytes(config) && Supported(FileExtension(FileName(up.filename)))
              && meta.Malformed? ==>
      r.1 == Failure(400, ValidationError)
    ensures name in reg && up.size <= MaxUploadSizeBytes(config) && Supported(FileExtension(FileName(up.filename)))
              && !meta.Malformed? && extraction.Extracted? && IsBlank(extraction.text) ==>
      r.1 == Failure(400, ValidationError)
    ensures r.1 == Failure(400, InternalError) ==> ParserType(FileExtension(FileName(up.filename)))
    ensures r.1 == Failure(500, InternalError) <==>
      && name in reg && up.size <= MaxUploadSizeBytes(config) && Supported(FileExtension(FileName(up.filename)))
      && extraction.Extracted? && !IsBlank(extraction.text)
      && meta == Parsed(MetaOther)
    ensures r.1.Failure? ==> r.0 == reg
    ensures r.1.Success? ==>
      && name in reg && up.size <= MaxUploadSizeBytes(config)
      && Supported(FileExtension(FileName(up.filename)))
      && (meta.Absent? || (meta.Parsed? && meta.value.MetaObject?))
      && extraction.Extracted? && !IsBlank(extraction.text)
    ensures r.1.Success? ==>
      var id := ResolveId(documentId, freshId);
      var fname := FileName(up.filename);
      var ext := FileExtension(fname);
      && r.1.data.id == id && id != ""
      && r.1.data.filename == fname && r.1.data.fileType == ext
      && r.1.data.pageCount == extraction.pageCount
      && r.1.data.status == (if id in reg[name].docs then Updated else Added)
      && r.0.Keys == reg.Keys && (forall n | n in reg && n != name :: r.0[n] == reg[n])
      && id in r.0[name].docs
      && r.0[name].docs[id].content == extraction.text
      && r.0[name].docs[id].metadata == Some(UploadMetadata(meta, fname, ext))
      && r.0[name].docs[id].chunkCount == r.1.data.chunkCount
  {
    match UploadRejection(reg, name, config, up, meta, extraction)
    case Some(e) => (reg, e)
    case None => UploadAccepted(reg, name, up, meta, extraction, documentId, freshId, now)
  }

  /** An upload past every check: the document is upserted with the
      upload's metadata, and the handler's 500 for a `failed` result is
      never reached. */
  function UploadAccepted(reg: Registry, name: string, up: Upload, meta: Json<MetaValue>, extraction: Extraction,
                          documentId: Option<string>, freshId: string, now: Time): (r: (Registry, Response<UploadData>))
    requires freshId != "" && name in reg
    requires meta.Absent? || (meta.Parsed? && meta.value.MetaObject?)
    requires extraction.Extracted?
    requires Chunkable(extraction.text, Separators, reg[name].meta.settings.chunkSize, reg[name].meta.settings.chunkOverlap)
    ensures r.1.Success?
    ensures var id := ResolveId(documentId, freshId);
      var fname := FileName(up.filename);
      var ext := FileExtension(fname);
      && r.1.data.id == id && id != ""
      && r.1.data.filename == fname && r.1.data.fileType == ext
      && r.1.data.pageCount == extraction.pageCount
      && r.1.data.status == (if id in reg[name].docs then Updated else Added)
      && r.0.Keys == reg.Keys && (forall n | n in reg && n != name :: r.0[n] == reg[n])
      && id in r.0[name].docs
      && r.0[name].docs[id].content == extraction.text
      && r.0[name].docs[id].metadata == Some(UploadMetadata(meta, fname, ext))
      && r.0[name].docs[id].chunkCount == r.1.data.chunkCount
  {
    var fname := FileName(up.filename);
    var ext := FileExtension(fname);
    var m := UploadMetadata(meta, fname, ext);
    var id := ResolveId(documentId, freshId);
    var (idx2, results) := AddUploaded(reg[name], id, extraction.text, m, freshId, now);
    if results[0].status == Failed then (reg, Failure(500, InternalError))
    else
      (Commit(reg, name, idx2),
       Success(UploadData(id, fname, ext, extraction.pageCount, results[0].chunkCount, results[0].status)))
  }

  /** The checks of `add_document_from_file` before anything is stored, in
      the handler's order; `None` when the upload passes them all. */
  function UploadRejection(reg: Registry, name: string, config: Config, up: Upload, meta: Json<MetaValue>,
                           extraction: Extraction): (e: Option<Response<UploadData>>)
    ensures e == Some(Failure(404, IndexNotFound)) <==> name !in reg
    ensures e == Some(Failure(400, ValidationError)) <==>
      && name in reg
      && (|| up.size > MaxUploadSizeBytes(config)
          || !Supported(FileExtension(FileName(up.filename)))
          || meta.Malformed?
          || (extraction.Extracted? && IsBlank(extraction.text)))
    ensures e == Some(Failure(400, InternalError)) <==>
      && name in reg && up.size <= MaxUploadSizeBytes(config) && Supported(FileExtension(FileName(up.filename)))
      && !meta.Malformed? && extraction.ExtractionFailed?
    ensures e == Some(Failure(500, InternalError)) <==>
      && name in reg && up.size <= MaxUploadSizeBytes(config) && Supported(FileExtension(FileName(up.filename)))
      && extraction.Extracted? && !IsBlank(extraction.text)
      && meta == Parsed(MetaOther)
    ensures e.None? <==>
      && name in reg && up.size <= MaxUploadSizeBytes(config)
      && Supported(FileExtension(FileName(up.filename)))
      && (meta.Absent? || (meta.Parsed? && meta.value.MetaObject?))
      && extraction.Extracted? && !IsBlank(extraction.text)
  {
    var ext := FileExtension(FileName(up.filename));
    if name !in reg then Some(Failure(404, IndexNotFound))
    else if up.size > MaxUploadSizeBytes(config) then Some(Failure(400, ValidationError))
    else if !Supported(ext) then Some(Failure(400, ValidationError))
    else if meta.Malformed? then Some(Failure(400, ValidationError))
    else if extraction.ExtractionFailed? then Some(Failure(400, InternalError))
    else if IsBlank(extraction.text) then Some(Failure(400, ValidationError))
    else if meta.Parsed? && meta.value.MetaOther? then Some(Failure(500, InternalError))
    else None
  }

  /** `add_documents` on the uploaded document, with `update_if_exists`
      set and the index's own chunk settings. */
  function AddUploaded(idx: Index, id: string, text: string, m: Metadata, freshId: string, now: Time): (r: (Index, seq<AddResult>))
    requires id != "" && Chunkable(text, Separators, idx.meta.settings.chunkSize, idx.meta.settings.chunkOverlap)
    ensures var (idx2, results) := r;
      && |results| == 1 && results[0].id == id
      && results[0].status == (if id in idx.docs then Updated else Added)
      && id in idx2.docs && idx2.docs[id].content == text && idx2.docs[id].metadata == Some(m)
      && idx2.docs[id].chunkCount == results[0].chunkCount
  {
    UploadAddsOne(idx, id, text, m, freshId, now);
    AddDocuments(idx, [DocumentInput(Some(id), text, Some(m))], [freshId], Some(AddOptions(None, None, true)), now)
  }

  /** Adding one document with `update_if_exists` set: the result is not a
      failure, and the document is stored with the given content and
      metadata. */
  lemma UploadAddsOne(idx: Index, id: string, text: string, m: Metadata, freshId: string, now: Time)
    requires id != "" && Chunkable(text, Separators, idx.meta.settings.chunkSize, idx.meta.settings.chunkOverlap)
    ensures var (idx2, results) := AddDocuments(idx, [DocumentInput(Some(id), text, Some(m))], [freshId],
                                                Some(AddOptions(None, None, true)), now);
      && |results| == 1 && results[0].id == id
      && results[0].status == (if id in idx.docs then Updated else Added)
      && id in idx2.docs && idx2.docs[id].content == text && idx2.docs[id].metadata == Some(m)
      && idx2.docs[id].chunkCount == results[0].chunkCount
      && idx2.meta.settings == idx.meta.settings
  {
    var docs := [DocumentInput(Some(id), text, Some(m))];
    assert ResolvedIds(docs, [freshId]) == [id];
    var pieces := ChunkAll(docs, [id], idx.docs.Keys, true, idx.meta.settings.chunkSize, idx.meta.settings.chunkOverlap);
    AddDocumentsDocs(idx, docs, [freshId], Some(AddOptions(None, None, true)), now);
    AddFromSingle(idx, docs, pieces, [id], true, now);
    AddOneStores(idx, id, text, pieces[0], Some(m), true, now);
  }

  /** The loop of `add_documents` over one document is one step. */
  lemma AddFromSingle(idx: Index, docs: seq<DocumentInput>, pieces: seq<seq<string>>, ids: seq<string>, update: bool, now: Time)
    requires |docs| == 1 && |pieces| == 1 && |ids| == 1
    ensures var run := AddFrom(idx, docs, pieces, ids, 0, update, now);
      var s := AddOne(idx, ids[0], docs[0].content, pieces[0], docs[0].metadata, update, now);
      run.results == [s.result] && run.idx == s.idx
  {
    var s := AddOne(idx, ids[0], docs[0].content, pieces[0], docs[0].metadata, update, now);
    assert AddFrom(s.idx, docs, pieces, ids, 1, update, now).results == [];
  }

  // ---------------------------------------------------------------------
  // GET /indexes/{index_name}/documents
  // ---------------------------------------------------------------------

  /** The query parameters of `list_documents`; an omitted page is 1 and an
      omitted page size 50. */
  datatype ListQuery = ListQuery(page: Option<int>, perPage: Option<int>, field: SortField, desc: bool)

  function PageOf(q: ListQuery): int { q.page.GetOr(1) }

  function PerPageOf(q: ListQuery): int { q.perPage.GetOr(50) }

  predicate ValidListQuery(q: ListQuery) {
    PageOf(q) >= 1 && 1 <= PerPageOf(q) <= 100
  }

  /** `PaginationInfo`. */
  datatype Pagination = Pagination(page: int, perPage: int, total: nat, totalPages: nat)

  datatype DocPage = DocPage(documents: seq<DocInfo>, pagination: Pagination)

  /** `(total + per_page - 1) // per_page`: the fewest pages of `perPage`
      documents that hold `total` documents. */
  function TotalPages(total: nat, perPage: int): (pages: nat)
    requires perPage >= 1
    ensures (pages - 1) * perPage < total <= pages * perPage
  {
    var p := (total + perPage - 1) / perPage;
    var rem := (total + perPage - 1) % perPage;
    assert p * perPage + rem == total + perPage - 1;
    assert p * perPage >= total by {
      assert rem <= perPage - 1;
    }
    assert (p - 1) * perPage < total by {
      assert (p - 1) * perPage == p * perPage - perPage;
    }
    p
  }

  /** `list_documents`: a bad page or page size is a 400, then the index
      check, then a filter that is not JSON is a 400; otherwise the page
      of the sorted admitted documents with the pagination figures. An
      absent, empty or `null` filter admits every document. */
  function ListEndpoint(reg: Registry, name: string, listing: seq<string>, q: ListQuery, filter: Json<FilterArg>): (r: Response<DocPage>)
    requires name in reg ==> Enumerates(listing, reg[name].docs.Keys)
    ensures r == Failure(400, ValidationError) <==> !ValidListQuery(q) || (name in reg && filter.Malformed?)
    ensures r == Failure(404, IndexNotFound) <==> ValidListQuery(q) && name !in reg
    ensures r.Success? ==>
      var arg := if filter.Parsed? then Some(filter.value) else None;
      var p := r.data.pagination;
      && p.page == PageOf(q) && p.perPage == PerPageOf(q)
      && p.total == |AdmittedIds(reg[name].docs, arg)|
      && (p.totalPages - 1) * p.perPage < p.total <= p.totalPages * p.perPage
      && |r.data.documents| <= p.perPage
      && forall k | 0 <= k < |r.data.documents| :: r.data.documents[k].id in AdmittedIds(reg[name].docs, arg)
    ensures r.Success? ==>
      var arg := if filter.Parsed? then Some(filter.value) else None;
      var page := ListDocuments(reg[name], listing, PageOf(q), PerPageOf(q), q.field, q.desc, arg);
      r.data.documents == page.0 && r.data.pagination.total == page.1
  {
    if !ValidListQuery(q) then Failure(400, ValidationError)
    else if name !in reg then Failure(404, IndexNotFound)
    else if filter.Malformed? then Failure(400, ValidationError)
    else
      var arg := if filter.Parsed? then Some(filter.value) else None;
      var (docs, total) := ListDocuments(reg[name], listing, PageOf(q), PerPageOf(q), q.field, q.desc, arg);
      PageSize(reg[name], listing, PageOf(q), PerPageOf(q), q.field, q.desc, arg);
      Success(DocPage(docs, Pagination(PageOf(q), PerPageOf(q), total, TotalPages(total, PerPageOf(q)))))
  }

  // ---------------------------------------------------------------------
  // GET, PUT, PATCH and DELETE /indexes/{index_name}/documents/{id}
  // ---------------------------------------------------------------------

  /** `get_document`: 404 `DOCUMENT_NOT_FOUND` for an unknown document. */
  function GetEndpoint(reg: Registry, name: string, id: string, chunkListing: seq<string>): (r: Response<DocDetail>)
    requires name in reg ==> Enumerates(chunkListing, reg[name].chunks.Keys)
    ensures r == Failure(404, IndexNotFound) <==> name !in reg
    ensures r == Failure(404, DocumentNotFound) <==> name in reg && id !in reg[name].docs
    ensures r.Success? ==> r.data == GetDocument(reg[name], id, chunkListing).value
    ensures r.Success? ==> r.data.id == id && r.data.content == reg[name].docs[id].content
  {
    if name !in reg then Failure(404, IndexNotFound)
    else
      match GetDocument(reg[name], id, chunkListing)
      case None => Failure(404, DocumentNotFound)
      case Some(d) => Success(d)
  }

  /** `update_document`: 404 for an unknown document; otherwise new content
      is re-chunked with the index's settings and new metadata merged
      (the default) or replaced. The handler's 500 for a missing result
      cannot occur after the existence check. The chunking loop must end
      on new content under the index's settings. */
  function UpdateEndpoint(reg: Registry, name: string, id: string, req: UpdateRequest, now: Time): (r: (Registry, Response<AddResult>))
    requires name in reg && id in reg[name].docs && req.content.Some? ==>
      Chunkable(req.content.value, Separators, reg[name].meta.settings.chunkSize, reg[name].meta.settings.chunkOverlap)
    ensures r.1 == Failure(404, IndexNotFound) <==> name !in reg
    ensures r.1 == Failure(404, DocumentNotFound) <==> name in reg && id !in reg[name].docs
    ensures r.1.Success? <==> name in reg && id in reg[name].docs
    ensures r.1.Failure? ==> r.0 == reg
    ensures r.1.Success? ==>
      && r.0.Keys == reg.Keys && (forall n | n in reg && n != name :: r.0[n] == reg[n])
      && r.1.data.id == id && r.1.data.status == Updated
      && r.0[name].docs.Keys == reg[name].docs.Keys
      && r.0[name].docs[id].content == req.content.GetOr(reg[name].docs[id].content)
      && r.0[name].docs[id].metadata == NewMetadata(reg[name].docs[id].metadata, req.metadata, MergeOf(req))
      && r.0[name].meta == reg[name].meta
  {
    if name !in reg then (reg, Failure(404, IndexNotFound))
    else if id !in reg[name].docs then (reg, Failure(404, DocumentNotFound))
    else
      var idx := reg[name];
      match UpdateDocument(idx, id, req.content, req.metadata, MergeOf(req), now)
      case None => (reg, Failure(500, InternalError))
      case Some((idx2, res)) => (Commit(reg, name, idx2), Success(res))
  }

  /** `update_document_metadata`: 404 for an unknown document; otherwise
      the merged or replaced metadata, stamped on the document and on each
      of its chunks. */
  function PatchMetadataEndpoint(reg: Registry, name: string, id: string, req: MetadataRequest, now: Time): (r: (Registry, Response<Metadata>))
    ensures r.1 == Failure(404, IndexNotFound) <==> name !in reg
    ensures r.1 == Failure(404, DocumentNotFound) <==> name in reg && id !in reg[name].docs
    ensures r.1.Success? <==> name in reg && id in reg[name].docs
    ensures r.1.Failure? ==> r.0 == reg
    ensures r.1.Success? ==>
      && r.0.Keys == reg.Keys && (forall n | n in reg && n != name :: r.0[n] == reg[n])
      && Some(r.1.data) == NewMetadata(reg[name].docs[id].metadata, Some(req.metadata), req.merge)
      && id in r.0[name].docs && r.0[name].docs[id].metadata == Some(r.1.data)
      && (forall c | c in r.0[name].chunks && MatchesChunkGlob(id, c) :: r.0[name].chunks[c].metadata == Some(r.1.data))
      && r.0[name].meta == reg[name].meta
  {
    if name !in reg then (reg, Failure(404, IndexNotFound))
    else if id !in reg[name].docs then (reg, Failure(404, DocumentNotFound))
    else
      match UpdateMetadataOnly(reg[name], id, req.metadata, req.merge, now)
      case None => (reg, Failure(500, InternalError))
      case Some((idx2, m)) => (Commit(reg, name, idx2), Success(m))
  }

  /** `delete_document`: 404 for an unknown document; otherwise the
      document and every chunk file its glob matches are gone. */
  function DeleteEndpoint(reg: Registry, name: string, id: string): (r: (Registry, Response<()>))
    ensures r.1 == Failure(404, IndexNotFound) <==> name !in reg
    ensures r.1 == Failure(404, DocumentNotFound) <==> name in reg && id !in reg[name].docs
    ensures r.1.Success? <==> name in reg && id in reg[name].docs
    ensures r.1.Failure? ==> r.0 == reg
    ensures r.1.Success? ==>
      && r.0.Keys == reg.Keys && (forall n | n in reg && n != name :: r.0[n] == reg[n])
      && r.0[name].docs == reg[name].docs - {id}
      && (forall c :: c in r.0[name].chunks <==> c in reg[name].chunks && !MatchesChunkGlob(id, c))
  {
    if name !in reg then (reg, Failure(404, IndexNotFound))
    else if id !in reg[name].docs then (reg, Failure(404, DocumentNotFound))
    else (Commit(reg, name, DeleteDocument(reg[name], id).0), Success(()))
  }

  // ---------------------------------------------------------------------
  // POST /indexes/{index_name}/documents/bulk-delete
  // ---------------------------------------------------------------------

  /** The guard of `bulk_delete_documents`: neither a non-empty id list nor
      a non-empty filter. */
  predicate NothingSelected(req: BulkDeleteRequest) {
    !(req.documentIds.Some? && req.documentIds.value != []) && !Active(req.filter)
  }

  /** `bulk_delete_documents`: a request selecting nothing is a 400 before
      anything is deleted; otherwise the number of documents deleted. */
  function BulkDeleteEndpoint(reg: Registry, name: string, req: BulkDeleteRequest, listing: seq<string>): (r: (Registry, Response<nat>))
    requires name in reg ==> Enumerates(listing, reg[name].docs.Keys)
    ensures r.1 == Failure(404, IndexNotFound) <==> name !in reg
    ensures r.1 == Failure(400, ValidationError) <==> name in reg && NothingSelected(req)
    ensures r.1.Failure? ==> r.0 == reg
    ensures r.1.Success? ==>
      && r.0.Keys == reg.Keys && (forall n | n in reg && n != name :: r.0[n] == reg[n])
      && r.1.data == |reg[name].docs| - |r.0[name].docs|
      && r.0[name].docs.Keys <= reg[name].docs.Keys
      && (req.documentIds.Some? && req.documentIds.value != [] ==>
            forall d | d in reg[name].docs :: d in r.0[name].docs <==> d !in req.documentIds.value)
      && (!(req.documentIds.Some? && req.documentIds.value != []) ==>
            forall d | d in reg[name].docs ::
              d in r.0[name].docs <==> MatchesFilter(reg[name].docs[d].metadata, req.filter.value) != Ok(true))
  {
    if name !in reg then (reg, Failure(404, IndexNotFound))
    else if NothingSelected(req) then (reg, Failure(400, ValidationError))
    else
      var idx := reg[name];
      var (idx2, n) := BulkDelete(idx, req.documentIds, req.filter, listing);
      BulkDeleteCount(idx, req.documentIds, req.filter, listing);
      (Commit(reg, name, idx2), Success(n))
  }

  /** The count is the number of documents that left the store. */
  lemma BulkDeleteCount(idx: Index, ids: Option<seq<string>>, f: Option<Filter>, listing: seq<string>)
    requires Enumerates(listing, idx.docs.Keys)
    ensures var (j, n) := BulkDelete(idx, ids, f, listing);
      j.docs.Keys <= idx.docs.Keys && n == |idx.docs| - |j.docs|
  {
    var (j, n) := BulkDelete(idx, ids, f, listing);
    var gone :=
      if ids.Some? && ids.value != [] then Present(idx.docs, ids.value)
      else if Active(f) then set id | id in idx.docs && MatchesFilter(idx.docs[id].metadata, f.value) == Ok(true)
      else {};
    assert gone <= idx.docs.Keys;
    assert j.docs.Keys == idx.docs.Keys - gone;
    assert |j.docs.Keys| == |idx.docs.Keys| - |gone| by {
      SetDifferenceSize(idx.docs.Keys, gone);
    }
    assert |j.docs| == |j.docs.Keys| && |idx.docs| == |idx.docs.Keys|;
  }

  lemma SetDifferenceSize<T>(a: set<T>, b: set<T>)
    requires b <= a
    ensures |a - b| == |a| - |b|
  {
    assert a == (a - b) + b;
    assert (a - b) * b == {};
  }
}
