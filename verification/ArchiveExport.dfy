/** Writing a portable archive, services/archive.py. Bytes are characters; `sha` is the hash. */
module ArchiveExport {
  import opened Wrappers
  import opened Jsonl
  import opened ArchiveRows
  import opened ChecksumFile
  import opened Json

  const FORMAT_VERSION := "2.0.0"
  const DENSE_ONLY_FORMAT_VERSION := "1.0.0"
  const DOCUMENTS_NAME := "documents.jsonl"
  const CHUNKS_NAME := "chunks.jsonl"
  const VECTORS_NAME := "vectors.jsonl"
  const LOCK_NAME := "index.lock"
  const MANIFEST_NAME := "manifest.json"
  const CHECKSUMS_NAME := "checksums.sha256"

  /** The printer and the parser of a whole member; a text that is not one has no reading. */
  datatype Sheet<!M> = Sheet(dump: M -> string, parse: string -> Option<M>)

  datatype Codecs = Codecs(documents: Codec<DocumentRow>, chunks: Codec<ChunkRow>, vectors: Codec<VectorRow>,
                           manifest: Sheet<Manifest>) {
    /** This manifest is read as it was written. */
    predicate Reads(m: Manifest) {
      manifest.parse(manifest.dump(m)) == Some(m)
    }

    /** And so are the rows of these points. */
    ghost predicate Carries(m: Manifest, walked: seq<StoredPoint>) {
      && Reads(m)
      && Jsonl.Faithful(documents, DocumentRows(walked)) && Jsonl.Faithful(chunks, ChunkRows(walked))
      && Jsonl.Faithful(vectors, VectorRows(walked))
    }
  }

  datatype Counts = Counts(documents: int, chunks: int, vectors: int)

  /** The manifest fields an importer reads. A missing flag is false, a missing width zero. */
  datatype Manifest = Manifest(formatVersion: string, model: string, modelVersion: string, dimensions: int,
                               counts: Counts, includesVectors: bool, includesSparse: bool)

  /** An archive: the bytes of each member. */
  type Bundle = map<string, string>

  datatype Lock = Lock(model: string, modelVersion: string, dimensions: int, text: string)

  /** `dimensions` is the configured width; here and in the lock it is zero when there is none. */
  datatype Settings = Settings(model: string, dimensions: nat, distance: string, lock: Option<Lock>)

  /** What the backend yields for a stored point. */
  function Walked(point: StoredPoint, includeVectors: bool): StoredPoint {
    if includeVectors then point else point.(vector := [], sparse := None)
  }

  // ---- The rows, as functions of the points in walk order ----

  function DocumentIds(rows: seq<DocumentRow>): set<string> {
    set row | row in rows :: row.documentId
  }

  /** One row for each document id, made from the first chunk that carries it; none for an empty id. */
  function DocumentRows(points: seq<StoredPoint>): seq<DocumentRow>
  {
    if points == [] then []
    else
      var before := DocumentRows(points[..|points| - 1]);
      var p := points[|points| - 1].payload;
      var id := Text(p, "document_id");
      if id != "" && id !in DocumentIds(before) then before + [DocumentRecord(p)] else before
  }

  function ChunkRows(points: seq<StoredPoint>): (rows: seq<ChunkRow>)
    ensures |rows| == |points|
  {
    seq(|points|, i requires 0 <= i < |points| => ChunkRecord(points[i]))
  }

  function VectorRows(points: seq<StoredPoint>): seq<VectorRow> {
    if points == [] then []
    else
      var p := points[|points| - 1];
      VectorRows(points[..|points| - 1]) + if p.vector != [] then [VectorRecord(p)] else []
  }

  /** The width of the first vector met, zero when there is none. */
  function ObservedWidth(points: seq<StoredPoint>): nat {
    if points == [] then 0
    else
      var before := ObservedWidth(points[..|points| - 1]);
      if before == 0 then |points[|points| - 1].vector| else before
  }

  predicate CarriesSparse(rows: seq<VectorRow>) {
    exists i :: 0 <= i < |rows| && rows[i].sparse.Some?
  }

  function BuildManifest(s: Settings, counts: Counts, includesVectors: bool, observed: nat,
                         includesSparse: bool): Manifest {
    var locked := if s.lock.Some? then s.lock.value.dimensions else 0;
    Manifest(if includesSparse then FORMAT_VERSION else DENSE_ONLY_FORMAT_VERSION,
             if s.lock.Some? then s.lock.value.model else s.model,
             if s.lock.Some? then s.lock.value.modelVersion else "",
             if locked != 0 then locked else if s.dimensions != 0 then s.dimensions else observed,
             counts, includesVectors, includesSparse)
  }

  /** The staged data files. */
  function Files(s: Settings, documents: string, chunks: string, vectors: string, includeVectors: bool): (files: Bundle)
    ensures forall i :: 0 <= i < |Names(includeVectors)| ==> Names(includeVectors)[i] in files
  {
    var lock := if s.lock.Some? then s.lock.value.text else "{}\n";
    var base := map[DOCUMENTS_NAME := documents, CHUNKS_NAME := chunks, LOCK_NAME := lock];
    if includeVectors then base[VECTORS_NAME := vectors] else base
  }

  /** The staged files, their checksums and the manifest over them. */
  function Packed(c: Codecs, sha: string -> string, files: Bundle, manifest: Manifest, includeVectors: bool): Bundle
    requires forall i :: 0 <= i < |Names(includeVectors)| ==> Names(includeVectors)[i] in files
  {
    files[CHECKSUMS_NAME := Written(ENTRIES, Checksums(sha, files, Names(includeVectors)))]
         [MANIFEST_NAME := c.manifest.dump(manifest)]
  }

  /** What is left to do once the rows are written. */
  function Closed(c: Codecs, sha: string -> string, s: Settings, documents: string, chunks: string, vectors: string,
                  counts: Counts, observed: nat, carriesSparse: bool, includeVectors: bool): Bundle
  {
    Packed(c, sha, Files(s, documents, chunks, vectors, includeVectors),
           BuildManifest(s, counts, includeVectors, observed, carriesSparse), includeVectors)
  }

  function Names(includeVectors: bool): seq<string> {
    if includeVectors then [DOCUMENTS_NAME, CHUNKS_NAME, VECTORS_NAME, LOCK_NAME]
    else [DOCUMENTS_NAME, CHUNKS_NAME, LOCK_NAME]
  }

  function Checksums(sha: string -> string, files: map<string, string>, names: seq<string>): seq<Entry>
    requires forall i :: 0 <= i < |names| ==> names[i] in files
  {
    seq(|names|, i requires 0 <= i < |names| => (sha(files[names[i]]), names[i]))
  }

  /** The manifest written for a collection. */
  function ManifestFor(s: Settings, points: seq<StoredPoint>, includeVectors: bool): Manifest
  {
    var walked := WalkedAll(points, includeVectors);
    BuildManifest(s, Counts(|DocumentRows(walked)|, |points|, |VectorRows(walked)|), includeVectors,
                  ObservedWidth(walked),
                  CarriesSparse(VectorRows(walked)))
  }

  /** The archive written for a collection can be read again. */
  ghost predicate Readable(c: Codecs, s: Settings, points: seq<StoredPoint>, includeVectors: bool) {
    c.Carries(ManifestFor(s, points, includeVectors), WalkedAll(points, includeVectors))
  }

  /** Whatever the collection is, there are printers and parsers that its archive can be read with. */
  lemma {:induction false} SomeCodecsCarryEveryExport(s: Settings, points: seq<StoredPoint>, includeVectors: bool)
    returns (c: Codecs)
    ensures Readable(c, s, points, includeVectors)
  {
    var walked, m := WalkedAll(points, includeVectors), ManifestFor(s, points, includeVectors);
    var document := DocumentRow("", "", "", 0, Null);
    var chunk, vector := ChunkRow("", "", "", 0, 0, Null, map[], Null), VectorRow("", [], None);
    var documents := SomeCodecIsFaithful(DocumentRows(walked), document);
    var chunks := SomeCodecIsFaithful(ChunkRows(walked), chunk);
    var vectors := SomeCodecIsFaithful(VectorRows(walked), vector);
    c := Codecs(documents, chunks, vectors, Sheet(_ => "", _ => Some(m)));
  }

  datatype ExportError = NothingToExport

  /** The bundle written for a collection. */
  function Exported(c: Codecs, sha: string -> string, s: Settings, points: seq<StoredPoint>,
                    includeVectors: bool): Result<Bundle, ExportError>
  {
    if points == [] then Err(NothingToExport)
    else
      var walked := WalkedAll(points, includeVectors);
      var documents, chunks, vectors := DocumentRows(walked), ChunkRows(walked), VectorRows(walked);
      Ok(Closed(c, sha, s, Written(c.documents, documents), Written(c.chunks, chunks), Written(c.vectors, vectors),
                Counts(|documents|, |chunks|, |vectors|), ObservedWidth(walked), CarriesSparse(vectors),
                includeVectors))
  }

  function WalkedAll(points: seq<StoredPoint>, includeVectors: bool): (walked: seq<StoredPoint>)
    ensures |walked| == |points|
    ensures forall i :: 0 <= i < |walked| ==> walked[i] == Walked(points[i], includeVectors)
  {
    seq(|points|, i requires 0 <= i < |points| => Walked(points[i], includeVectors))
  }

  lemma {:induction false} ChunkRowsGrow(walked: seq<StoredPoint>, point: StoredPoint)
    ensures ChunkRows(walked + [point]) == ChunkRows(walked) + [ChunkRecord(point)]
  {
  }

  lemma {:induction false} DocumentsGrow(walked: seq<StoredPoint>, point: StoredPoint)
    ensures var rows, id := DocumentRows(walked), Text(point.payload, "document_id");
            DocumentRows(walked + [point])
            == if id != "" && id !in DocumentIds(rows) then rows + [DocumentRecord(point.payload)] else rows
  {
    assert (walked + [point])[..|walked|] == walked;
  }

  lemma {:induction false} VectorsGrow(walked: seq<StoredPoint>, point: StoredPoint)
    ensures VectorRows(walked + [point]) == VectorRows(walked) + if point.vector != [] then [VectorRecord(point)]
              else []
    ensures ObservedWidth(walked + [point]) == if ObservedWidth(walked) == 0 then |point.vector|
              else ObservedWidth(walked)
  {
    assert (walked + [point])[..|walked|] == walked;
  }

  lemma {:induction false} WrittenGrows<R>(c: Codec<R>, rows: seq<R>, row: R)
    ensures Written(c, rows + [row]) == Written(c, rows) + c.dump(row) + "\n"
  {
    assert (rows + [row])[..|rows|] == rows;
  }

  lemma {:induction false} SparseGrows(rows: seq<VectorRow>, row: VectorRow)
    ensures CarriesSparse(rows + [row]) <==> CarriesSparse(rows) || row.sparse.Some?
  {
    if i :| 0 <= i < |rows| && rows[i].sparse.Some? {
      assert (rows + [row])[i].sparse.Some?;
    }
    if row.sparse.Some? {
      assert (rows + [row])[|rows|].sparse.Some?;
    }
  }

  lemma {:induction false} IdsGrow(rows: seq<DocumentRow>, row: DocumentRow)
    ensures DocumentIds(rows + [row]) == DocumentIds(rows) + {row.documentId}
  {
    assert forall r :: r in rows + [row] <==> r in rows || r == row;
  }

  /** An open member and the number of rows written to it. */
  class RowFile<R> {
    const codec: Codec<R>
    var text: string
    var count: nat
    ghost var rows: seq<R>

    constructor (codec: Codec<R>)
      ensures this.codec == codec && rows == [] && Valid()
    {
      this.codec, text, count, rows := codec, "", 0, [];
    }

    ghost predicate Valid()
      reads this
    {
      text == Written(codec, rows) && count == |rows|
    }

    method Write(row: R)
      requires Valid()
      modifies this
      ensures Valid() && rows == old(rows) + [row]
    {
      WrittenGrows(codec, rows, row);
      text, count, rows := text + codec.dump(row) + "\n", count + 1, rows + [row];
    }
  }

  /** The rows written and what else the export loop knows. */
  datatype Progress = Progress(documents: seq<DocumentRow>, chunks: seq<ChunkRow>, vectors: seq<VectorRow>,
                               seen: set<string>, observed: nat, carriesSparse: bool)

  /** What a point adds to it. */
  ghost function Advanced(p: Progress, point: StoredPoint): Progress
  {
    var id := Text(point.payload, "document_id");
    Progress(p.documents + (if id != "" && id !in p.seen then [DocumentRecord(point.payload)] else []),
             p.chunks + [ChunkRecord(point)],
             p.vectors + (if point.vector != [] then [VectorRecord(point)] else []),
             if id != "" then p.seen + {id} else p.seen,
             if p.observed == 0 then |point.vector| else p.observed,
             p.carriesSparse || (point.vector != [] && point.sparse.Some?))
  }

  /** The progress after the points walked: their rows. */
  ghost function ProgressAfter(walked: seq<StoredPoint>): Progress
  {
    Progress(DocumentRows(walked), ChunkRows(walked), VectorRows(walked), DocumentIds(DocumentRows(walked)),
             ObservedWidth(walked), CarriesSparse(VectorRows(walked)))
  }

  lemma {:induction false} ProgressGrows(walked: seq<StoredPoint>, point: StoredPoint)
    ensures ProgressAfter(walked + [point]) == Advanced(ProgressAfter(walked), point)
  {
    DocumentsGrow(walked, point);
    ChunkRowsGrow(walked, point);
    IdsGrow(DocumentRows(walked), DocumentRecord(point.payload));
    VectorsGrow(walked, point);
    SparseGrows(VectorRows(walked), VectorRecord(point));
    assert DocumentRows(walked) + [] == DocumentRows(walked) && VectorRows(walked) + [] == VectorRows(walked);
  }

  method WriteDocument(documents: RowFile<DocumentRow>, payload: StoredPayload, seen: set<string>)
    returns (nowSeen: set<string>)
    requires documents.Valid()
    modifies documents
    ensures documents.Valid()
    ensures var id := Text(payload, "document_id");
            && nowSeen == (if id != "" then seen + {id} else seen)
            && documents.rows == old(documents.rows) + if id != "" && id !in seen then [DocumentRecord(payload)] else []
  {
    nowSeen := seen;
    var id := Text(payload, "document_id");
    if id != "" && id !in seen {
      nowSeen := nowSeen + {id};
      documents.Write(DocumentRecord(payload));
    }
  }

  method WriteVector(vectors: RowFile<VectorRow>, point: StoredPoint, includeVectors: bool, observed: nat,
                     carriesSparse: bool)
    returns (nowObserved: nat, nowSparse: bool)
    requires vectors.Valid() && (!includeVectors ==> point.vector == [])
    modifies vectors
    ensures vectors.Valid() && vectors.rows == old(vectors.rows) + if point.vector != [] then [VectorRecord(point)]
              else []
    ensures nowObserved == if observed == 0 then |point.vector| else observed
    ensures nowSparse <==> carriesSparse || (point.vector != [] && point.sparse.Some?)
  {
    nowObserved, nowSparse := observed, carriesSparse;
    if point.vector != [] && observed == 0 {
      nowObserved := |point.vector|;
    }
    if includeVectors && point.vector != [] {
      var row := VectorRecord(point);
      nowSparse := nowSparse || row.sparse.Some?;
      vectors.Write(row);
    }
  }

  /** Write one point: a document row if its document is new, a chunk row, and a vector row if it has a vector. */
  method WritePoint(documents: RowFile<DocumentRow>, chunks: RowFile<ChunkRow>, vectors: RowFile<VectorRow>,
                    point: StoredPoint, includeVectors: bool, seen: set<string>, observed: nat, carriesSparse: bool)
    returns (nowSeen: set<string>, nowObserved: nat, nowSparse: bool)
    requires documents.Valid() && chunks.Valid() && vectors.Valid()
    requires !includeVectors ==> point.vector == []
    modifies documents, chunks, vectors
    ensures documents.Valid() && chunks.Valid() && vectors.Valid()
    ensures Progress(documents.rows, chunks.rows, vectors.rows, nowSeen, nowObserved, nowSparse)
         == Advanced(old(Progress(documents.rows, chunks.rows, vectors.rows, seen, observed, carriesSparse)), point)
  {
    nowSeen := WriteDocument(documents, point.payload, seen);
    chunks.Write(ChunkRecord(point));
    nowObserved, nowSparse := WriteVector(vectors, point, includeVectors, observed, carriesSparse);
  }

  /** One round of the export loop, on top of the points walked so far. */
  method WriteNext(documents: RowFile<DocumentRow>, chunks: RowFile<ChunkRow>, vectors: RowFile<VectorRow>,
                   point: StoredPoint, includeVectors: bool, seen: set<string>, observed: nat, carriesSparse: bool,
                   ghost walked: seq<StoredPoint>, ghost grown: seq<StoredPoint>)
    returns (nowSeen: set<string>, nowObserved: nat, nowSparse: bool)
    requires documents.Valid() && chunks.Valid() && vectors.Valid()
    requires (!includeVectors ==> point.vector == []) && grown == walked + [point]
    requires Progress(documents.rows, chunks.rows, vectors.rows, seen, observed, carriesSparse) == ProgressAfter(walked)
    modifies documents, chunks, vectors
    ensures documents.Valid() && chunks.Valid() && vectors.Valid()
    ensures Progress(documents.rows, chunks.rows, vectors.rows, nowSeen, nowObserved, nowSparse) == ProgressAfter(grown)
  {
    ProgressGrows(walked, point);
    nowSeen, nowObserved, nowSparse :=
      WritePoint(documents, chunks, vectors, point, includeVectors, seen, observed, carriesSparse);
  }

  /** The export loop: a row in each file as the points arrive. */
  method WriteRows(c: Codecs, points: seq<StoredPoint>, includeVectors: bool)
    returns (documents: RowFile<DocumentRow>, chunks: RowFile<ChunkRow>, vectors: RowFile<VectorRow>, observed: nat,
             carriesSparse: bool)
    ensures documents.Valid() && chunks.Valid() && vectors.Valid()
    ensures documents.codec == c.documents && chunks.codec == c.chunks && vectors.codec == c.vectors
    ensures exists seen :: Progress(documents.rows, chunks.rows, vectors.rows, seen, observed, carriesSparse)
                        == ProgressAfter(WalkedAll(points, includeVectors))
  {
    documents := new RowFile(c.documents);
    chunks := new RowFile(c.chunks);
    vectors := new RowFile(c.vectors);
    observed, carriesSparse := 0, false;
    var seen: set<string> := {};
    ghost var all := WalkedAll(points, includeVectors);
    ghost var walked: seq<StoredPoint> := [];
    for i := 0 to |points|
      invariant documents.Valid() && chunks.Valid() && vectors.Valid() && walked == all[..i]
      invariant Progress(documents.rows, chunks.rows, vectors.rows, seen, observed, carriesSparse)
          == ProgressAfter(walked)
    {
      ghost var grown := walked + [all[i]];
      seen, observed, carriesSparse :=
        WriteNext(documents, chunks, vectors, Walked(points[i], includeVectors), includeVectors, seen, observed,
                  carriesSparse,
                  walked, grown);
      walked := grown;
    }
    assert walked == all;
  }

  /** The streaming writer: rows are appended as points arrive, the manifest comes last. */
  method ExportArchive(c: Codecs, sha: string -> string, s: Settings, points: seq<StoredPoint>, includeVectors: bool)
    returns (r: Result<Bundle, ExportError>)
    ensures r == Exported(c, sha, s, points, includeVectors)
  {
    var documents, chunks, vectors, observed, carriesSparse := WriteRows(c, points, includeVectors);
    if chunks.count == 0 {
      return Err(NothingToExport);
    }
    r := Ok(Closed(c, sha, s, documents.text, chunks.text, vectors.text,
                   Counts(documents.count, chunks.count, vectors.count),
                   observed, carriesSparse, includeVectors));
  }

  /**
  The major is two exactly when some stored row carries postings, so a reader that would drop
  them refuses the archive.
  */
  lemma {:induction false} FormatStatesThePostings(c: Codecs, sha: string -> string, s: Settings,
                                                   points: seq<StoredPoint>, includeVectors: bool)
    requires c.Reads(ManifestFor(s, points, includeVectors)) && points != []
    ensures var m := c.manifest.parse(Exported(c, sha, s, points, includeVectors).value[MANIFEST_NAME]).value;
            && (m.formatVersion == FORMAT_VERSION || m.formatVersion == DENSE_ONLY_FORMAT_VERSION)
            && (m.formatVersion == FORMAT_VERSION <==>
                  includeVectors && exists i :: 0 <= i < |points| && points[i].vector != [] && points[i].sparse.Some?)
  {
    var walked := WalkedAll(points, includeVectors);
    SparseRowsComeFromPoints(walked);
    if CarriesSparse(VectorRows(walked)) {
      var i :| 0 <= i < |walked| && walked[i].vector != [] && walked[i].sparse.Some?;
      assert points[i].vector != [] && points[i].sparse.Some?;
    }
    if i :| includeVectors && 0 <= i < |points| && points[i].vector != [] && points[i].sparse.Some? {
      assert walked[i].vector != [] && walked[i].sparse.Some?;
    }
    assert FORMAT_VERSION[0] != DENSE_ONLY_FORMAT_VERSION[0];
  }

  lemma {:induction false} SparseRowsComeFromPoints(walked: seq<StoredPoint>)
    ensures CarriesSparse(VectorRows(walked))
       <==> exists i :: 0 <= i < |walked| && walked[i].vector != [] && walked[i].sparse.Some?
  {
    if walked != [] {
      var n := |walked| - 1;
      var before, last := VectorRows(walked[..n]), walked[n];
      SparseRowsComeFromPoints(walked[..n]);
      assert forall i :: 0 <= i < n ==> walked[..n][i] == walked[i];
      SparseGrows(before, VectorRecord(last));
      if last.vector == [] {
        assert VectorRows(walked) == before;
      }
      assert CarriesSparse(VectorRows(walked)) <==> CarriesSparse(before) || (last.vector != [] && last.sparse.Some?);
    }
  }
}
