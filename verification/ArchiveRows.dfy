/**
The rows of a portable archive: what services/archive.py makes of a stored point, and what
services/archive_import.py makes of the rows.
*/
module ArchiveRows {
  import opened Wrappers
  import opened Json
  import opened Postings

  /** A stored point. An empty vector is what a walk without vectors yields. */
  datatype Point = Point(id: string, vector: seq<real>, payload: Payload, sparse: Option<SparseVector>)

  datatype DocumentRow = DocumentRow(documentId: string, sourceUri: string, contentHash: string, version: int,
                                     metadata: Value)

  datatype ChunkRow = ChunkRow(chunkId: string, documentId: string, text: string, start: int, end: int,
                               page: Value, metadata: Payload, contextPrefix: Value)

  /** In an archive from elsewhere the two posting lists may be of any length and order. */
  datatype VectorRow = VectorRow(chunkId: string, vector: seq<real>, sparse: Option<Sparse>)

  const CHUNK_RESERVED := {"document_id", "source_uri", "content_hash", "text", "span", "page", "context_prefix",
                           "document_metadata"}

  /** The types the storage schema gives the fields the archive promotes. */
  predicate Shaped(p: Payload) {
    && (forall name | name in {"document_id", "text", "source_uri", "content_hash"} :: name in p ==> p[name].Str?)
    && ("version" in p ==> p["version"].Int?)
    && (Truthy(Get(p, "span")) ==> p["span"].Obj? && SpanShaped(p["span"].fields))
  }

  predicate SpanShaped(span: Payload) {
    ("start" in span ==> span["start"].Int?) && ("end" in span ==> span["end"].Int?)
  }

  type StoredPayload = p: Payload | Shaped(p) witness map[]

  /** A point as the indexer stores it. */
  type StoredPoint = p: Point | Shaped(p.payload) witness Point("", [], map[], None)

  function Text(p: Payload, name: string): string
    requires name in p ==> p[name].Str?
  {
    if name in p then p[name].s else ""
  }

  function Number(p: Payload, name: string, missing: int): int
    requires name in p ==> p[name].Int?
  {
    if name in p then p[name].n else missing
  }

  function DocumentRecord(p: StoredPayload): DocumentRow {
    var metadata := Get(p, "document_metadata");
    DocumentRow(Text(p, "document_id"), Text(p, "source_uri"), Text(p, "content_hash"), Number(p, "version", 1),
                if Truthy(metadata) then metadata else Obj(map[]))
  }

  function SpanOf(p: Payload): Payload {
    var span := Get(p, "span");
    if Truthy(span) && span.Obj? then span.fields else map[]
  }

  function ChunkRecord(point: StoredPoint): ChunkRow {
    var p := point.payload;
    var span := SpanOf(p);
    ChunkRow(point.id, Text(p, "document_id"), Text(p, "text"), Number(span, "start", 0), Number(span, "end", 0),
             Get(p, "page"), map key | key in p && key !in CHUNK_RESERVED :: p[key], Get(p, "context_prefix"))
  }

  function VectorRecord(point: Point): VectorRow {
    VectorRow(point.id, point.vector, if point.sparse.Some? then Some(SparseRecord(point.sparse.value)) else None)
  }

  /** `payload[key] = value`, when there is a value. */
  function Put(p: Payload, key: string, value: Option<Value>): Payload {
    if value.Some? then p[key := value.value] else p
  }

  /** What the document row adds; a chunk whose document row is missing gets nothing. */
  function FromDocument(p: Payload, document: Option<DocumentRow>): Payload {
    if document.None? then p
    else
      var d := document.value;
      Put(Put(Put(p, "source_uri", NonEmpty(d.sourceUri)), "content_hash", NonEmpty(d.contentHash)),
          "document_metadata", if Truthy(d.metadata) then Some(d.metadata) else None)
  }

  function NonEmpty(s: string): Option<Value> {
    if s != "" then Some(Str(s)) else None
  }

  function NonNull(v: Value): Option<Value> {
    if v.Null? then None else Some(v)
  }

  function NamedFields(row: ChunkRow, model: string, modelVersion: string): Payload {
    map["document_id" := Str(row.documentId), "text" := Str(row.text),
        "span" := Obj(map["start" := Int(row.start), "end" := Int(row.end)]),
        "embedding_model" := Str(model), "embedding_model_version" := Str(modelVersion)]
  }

  /** `_restored_payload`; `document` is None when the chunk's document row is missing. */
  function RestoredPayload(row: ChunkRow, document: Option<DocumentRow>, model: string, modelVersion: string): Payload {
    var payload := FromDocument(row.metadata + NamedFields(row, model, modelVersion), document);
    Put(Put(payload, "page", NonNull(row.page)), "context_prefix", NonNull(row.contextPrefix))
  }

  // ---- When a payload survives the archive ----

  /** A field that is written only when it is there comes back exactly when it was not stored as a null. */
  predicate OptionalKept(p: Payload, name: string) {
    name in p ==> !p[name].Null?
  }

  /** A document-level text field: the chunk carries what its document row says, and nothing when that is empty. */
  predicate DocumentFieldKept(p: Payload, name: string, value: string) {
    if value == "" then name !in p else name in p && p[name] == Str(value)
  }

  /** What a payload must be like to come back unchanged, given the document row its chunk is joined to. */
  predicate Survives(p: Payload, document: DocumentRow, model: string, modelVersion: string) {
    && "document_id" in p && "text" in p
    && "span" in p && p["span"] == Obj(map["start" := Int(SpanBound(p, "start")), "end" := Int(SpanBound(p, "end"))])
    && "embedding_model" in p && p["embedding_model"] == Str(model)
    && "embedding_model_version" in p && p["embedding_model_version"] == Str(modelVersion)
    && DocumentFieldKept(p, "source_uri", document.sourceUri)
    && DocumentFieldKept(p, "content_hash", document.contentHash)
    && (if Truthy(document.metadata) then "document_metadata" in p && p["document_metadata"] == document.metadata
        else "document_metadata" !in p)
    && OptionalKept(p, "page") && OptionalKept(p, "context_prefix")
  }

  /** A bound of the stored span. */
  function SpanBound(p: Payload, bound: string): int {
    var span := SpanOf(p);
    if bound in span && span[bound].Int? then span[bound].n else 0
  }

  /** The restored value of each key, one key at a time. */
  function RestoredAt(row: ChunkRow, document: DocumentRow, model: string, modelVersion: string,
                      key: string): Option<Value> {
    if key == "context_prefix" then (if row.contextPrefix.Null? then None else Some(row.contextPrefix))
    else if key == "page" then (if row.page.Null? then None else Some(row.page))
    else if key == "document_metadata" then (if Truthy(document.metadata) then Some(document.metadata) else None)
    else if key == "content_hash" then (if document.contentHash != "" then Some(Str(document.contentHash)) else None)
    else if key == "source_uri" then (if document.sourceUri != "" then Some(Str(document.sourceUri)) else None)
    else if key == "document_id" then Some(Str(row.documentId))
    else if key == "text" then Some(Str(row.text))
    else if key == "span" then Some(Obj(map["start" := Int(row.start), "end" := Int(row.end)]))
    else if key == "embedding_model" then Some(Str(model))
    else if key == "embedding_model_version" then Some(Str(modelVersion))
    else if key in row.metadata then Some(row.metadata[key]) else None
  }

  function At(p: Payload, key: string): Option<Value> {
    if key in p then Some(p[key]) else None
  }

  lemma {:induction false} PutAt(p: Payload, key: string, value: Option<Value>, other: string)
    ensures At(Put(p, key, value), other) == if other == key && value.Some? then value else At(p, other)
  {
  }

  lemma {:induction false} FromDocumentAt(p: Payload, d: DocumentRow, key: string)
    ensures At(FromDocument(p, Some(d)), key)
         == if key == "document_metadata" && Truthy(d.metadata) then Some(d.metadata)
            else if key == "content_hash" && d.contentHash != "" then Some(Str(d.contentHash))
            else if key == "source_uri" && d.sourceUri != "" then Some(Str(d.sourceUri))
            else At(p, key)
  {
    var first := Put(p, "source_uri", NonEmpty(d.sourceUri));
    var second := Put(first, "content_hash", NonEmpty(d.contentHash));
    PutAt(p, "source_uri", NonEmpty(d.sourceUri), key);
    PutAt(first, "content_hash", NonEmpty(d.contentHash), key);
    PutAt(second, "document_metadata", if Truthy(d.metadata) then Some(d.metadata) else None, key);
  }

  lemma {:induction false} NamedFieldsAt(row: ChunkRow, model: string, modelVersion: string, key: string)
    ensures At(row.metadata + NamedFields(row, model, modelVersion), key)
         == if key == "document_id" then Some(Str(row.documentId))
            else if key == "text" then Some(Str(row.text))
            else if key == "span" then Some(Obj(map["start" := Int(row.start), "end" := Int(row.end)]))
            else if key == "embedding_model" then Some(Str(model))
            else if key == "embedding_model_version" then Some(Str(modelVersion))
            else At(row.metadata, key)
  {
  }

  lemma {:induction false} RestoredKeyByKey(row: ChunkRow, document: DocumentRow, model: string, modelVersion: string,
                                            key: string)
    requires row.metadata.Keys !! CHUNK_RESERVED
    ensures At(RestoredPayload(row, Some(document), model, modelVersion), key)
         == RestoredAt(row, document, model, modelVersion, key)
  {
    var named := row.metadata + NamedFields(row, model, modelVersion);
    var joined := FromDocument(named, Some(document));
    NamedFieldsAt(row, model, modelVersion, key);
    FromDocumentAt(named, document, key);
    PutAt(joined, "page", NonNull(row.page), key);
    PutAt(Put(joined, "page", NonNull(row.page)), "context_prefix", NonNull(row.contextPrefix), key);
    if key in CHUNK_RESERVED {
      assert key !in row.metadata;
    }
  }

  lemma {:induction false} SameExactlyWhenKeysAgree(p: Payload, q: Payload)
    ensures p == q <==> forall key :: At(p, key) == At(q, key)
  {
    if forall key :: At(p, key) == At(q, key) {
      forall key ensures key in p <==> key in q {
        assert At(p, key) == At(q, key);
      }
      forall key | key in p ensures p[key] == q[key] {
        assert At(p, key) == At(q, key);
      }
    }
  }

  /**
  A payload comes back from its chunk row and document row exactly as it was stored, if and
  only if it is one the archive can carry.
  */
  lemma {:induction false} PayloadSurvivesExactly(point: StoredPoint, document: DocumentRow, model: string,
                                                  modelVersion: string)
    ensures RestoredPayload(ChunkRecord(point), Some(document), model, modelVersion) == point.payload
       <==> Survives(point.payload, document, model, modelVersion)
  {
    var p, row := point.payload, ChunkRecord(point);
    var q := RestoredPayload(row, Some(document), model, modelVersion);
    SameExactlyWhenKeysAgree(q, p);
    forall key ensures At(q, key) == RestoredAt(row, document, model, modelVersion, key) {
      RestoredKeyByKey(row, document, model, modelVersion, key);
    }
    if Survives(p, document, model, modelVersion) {
      forall key ensures At(q, key) == At(p, key) {
        SurvivingKey(point, document, model, modelVersion, key);
      }
    } else if q == p {
      EqualPayloadSurvives(point, document, model, modelVersion);
    }
  }

  lemma {:induction false} SurvivingKey(point: StoredPoint, document: DocumentRow, model: string, modelVersion: string,
                                        key: string)
    requires Survives(point.payload, document, model, modelVersion)
    ensures RestoredAt(ChunkRecord(point), document, model, modelVersion, key) == At(point.payload, key)
  {
  }

  lemma {:induction false} EqualPayloadSurvives(point: StoredPoint, document: DocumentRow, model: string,
                                                modelVersion: string)
    requires forall key :: RestoredAt(ChunkRecord(point), document, model, modelVersion, key) == At(point.payload, key)
    ensures Survives(point.payload, document, model, modelVersion)
  {
    var p, row := point.payload, ChunkRecord(point);
    forall key | key in {"document_id", "text", "span", "embedding_model", "embedding_model_version", "source_uri",
                         "content_hash", "document_metadata", "page", "context_prefix"}
      ensures RestoredAt(row, document, model, modelVersion, key) == At(p, key)
    {
    }
    assert RestoredAt(row, document, model, modelVersion, "document_id") == Some(Str(row.documentId));
    assert RestoredAt(row, document, model, modelVersion, "text") == Some(Str(row.text));
    assert RestoredAt(row, document, model, modelVersion, "span").Some?;
    assert RestoredAt(row, document, model, modelVersion, "embedding_model") == Some(Str(model));
    assert RestoredAt(row, document, model, modelVersion, "embedding_model_version") == Some(Str(modelVersion));
    assert RestoredAt(row, document, model, modelVersion, "source_uri").Some? <==> document.sourceUri != "";
    assert RestoredAt(row, document, model, modelVersion, "content_hash").Some? <==> document.contentHash != "";
    assert RestoredAt(row, document, model, modelVersion, "document_metadata").Some? <==> Truthy(document.metadata);
    assert RestoredAt(row, document, model, modelVersion, "page").Some? <==> !row.page.Null?;
    assert RestoredAt(row, document, model, modelVersion, "context_prefix").Some? <==> !row.contextPrefix.Null?;
  }

  /**
  A field that every chunk of a document shares: as in the document's first chunk, and absent
  where that has nothing to say.
  */
  predicate Shared(p: Payload, first: Payload, name: string) {
    if Truthy(Get(first, name)) then name in p && p[name] == first[name] else name !in p
  }

  /**
  What a payload must be like to come back unchanged, said of payloads alone; `first` is the
  document's first chunk.
  */
  predicate Carried(p: Payload, first: Payload, model: string, modelVersion: string) {
    && "document_id" in p && "text" in p
    && "span" in p && p["span"] == Obj(map["start" := Int(SpanBound(p, "start")), "end" := Int(SpanBound(p, "end"))])
    && "embedding_model" in p && p["embedding_model"] == Str(model)
    && "embedding_model_version" in p && p["embedding_model_version"] == Str(modelVersion)
    && Shared(p, first, "source_uri") && Shared(p, first, "content_hash") && Shared(p, first, "document_metadata")
    && OptionalKept(p, "page") && OptionalKept(p, "context_prefix")
  }

  /** Through the document row of its first chunk, a payload survives exactly when it agrees with that chunk. */
  lemma {:induction false} SurvivesExactlyWhenCarried(p: StoredPayload, first: StoredPayload, model: string,
                                                      modelVersion: string)
    ensures Survives(p, DocumentRecord(first), model, modelVersion) <==> Carried(p, first, model, modelVersion)
  {
    forall name | name in {"source_uri", "content_hash"}
      ensures DocumentFieldKept(p, name, Text(first, name)) <==> Shared(p, first, name)
    {
    }
    assert DocumentFieldKept(p, "source_uri", Text(first, "source_uri")) <==> Shared(p, first, "source_uri");
    assert DocumentFieldKept(p, "content_hash", Text(first, "content_hash")) <==> Shared(p, first, "content_hash");
  }
}
