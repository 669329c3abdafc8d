/**
Importing a verified archive, services/archive_import.py: chunk rows are joined to their
documents and vectors, written in batches, and a failed import is undone or reported.
*/
module ArchiveImport {
  import opened Wrappers
  import opened Json
  import opened Jsonl
  import opened Postings
  import opened ArchiveRows
  import opened ArchiveExport
  import V = VectorLookup
  import opened ArchiveVerify
  import Staging

  type Points = map<string, Point>

  /** What a collection is created with. */
  datatype Shape = Shape(dimensions: int, distance: string, sparse: bool) {
    /** Points of this shape can be kept in a collection of that one; postings may also go unused. */
    predicate FitsIn(held: Shape) {
      held.dimensions == dimensions && held.distance == distance && (sparse ==> held.sparse)
    }
  }

  datatype Collection = Collection(shape: Shape, points: Points)

  /** The collections by their own names, and the aliases by theirs. */
  datatype Database = Database(collections: map<string, Collection>, aliases: map<string, string>)

  /** An alias of a collection that is there, under a name that no collection has. */
  predicate IsAlias(db: Database, name: string) {
    name !in db.collections && name in db.aliases && db.aliases[name] in db.collections
  }

  /** The collection a name stands for when points are written; its own name wins over an alias. */
  function Place(db: Database, name: string): string {
    if IsAlias(db, name) then db.aliases[name] else name
  }

  /** Dropping goes by the collection's own name, and takes the aliases that point at it along. */
  function Dropping(db: Database, name: string): Database {
    if name !in db.collections then db
    else Database(db.collections - {name},
                  map alias | alias in db.aliases && db.aliases[alias] != name :: db.aliases[alias])
  }

  datatype BackendFailure = BackendFailure(detail: string)

  /** A collection after an upsert: points overwrite by id, later ones last. */
  function Upserted(held: Points, points: seq<Point>): Points {
    if points == [] then held
    else
      var last := points[|points| - 1];
      Upserted(held, points[..|points| - 1])[last.id := last]
  }

  /** Every point of `part` is one of `points`. */
  predicate PartOf(part: seq<Point>, points: seq<Point>) {
    forall i :: 0 <= i < |part| ==> part[i] in points
  }

  function Within(points: seq<Point>, batch: seq<Point>): (r: seq<Point>)
    ensures PartOf(r, batch)
  {
    if points == [] then []
    else (if points[0] in batch then [points[0]] else []) + Within(points[1..], batch)
  }

  /** A collection of that name, if there is one, has room for the shape asked for. */
  predicate FitsIn(collections: map<string, Collection>, name: string, shape: Shape) {
    name in collections ==> shape.FitsIn(collections[name].shape)
  }

  /** The collections once one of that name is sure to be there. */
  function Opened(collections: map<string, Collection>, name: string, shape: Shape): (start: map<string, Collection>)
    ensures name in start
  {
    if name in collections then collections else collections[name := Collection(shape, map[])]
  }

  /** Some call numbered from `from` up to `to` fails. */
  ghost predicate Outage(down: nat -> bool, from: nat, to: nat) {
    exists n: nat :: from <= n < to && down(n)
  }

  lemma {:induction false} OutageSplits(down: nat -> bool, from: nat, at: nat, to: nat)
    requires from <= at <= to
    ensures Outage(down, from, to) <==> Outage(down, from, at) || Outage(down, at, to)
  {
  }

  lemma {:induction false} OneCallIsAnOutage(down: nat -> bool, from: nat, at: nat)
    requires from <= at
    ensures Outage(down, from, at + 1) <==> Outage(down, from, at) || down(at)
  {
  }

  /**
  A vector database and the embedding provider beside it. Calls to either are numbered, and
  call n fails when `down(n)`; a failed upsert may have written any of its points. Creating
  and upserting follow aliases, listing and dropping do not. Creating a collection also fails
  when the one that is there has no room for the shape, and upserting when none is there.
  */
  class VectorStore {
    const down: nat -> bool
    var calls: nat
    var db: Database
    /** The batches written, oldest first. */
    ghost var batches: seq<seq<Point>>

    constructor (down: nat -> bool, db: Database)
      ensures this.down == down && this.db == db && calls == 0 && batches == []
    {
      this.down, this.db, calls, batches := down, db, 0, [];
    }

    method ListCollections() returns (r: Result<set<string>, BackendFailure>)
      modifies this`calls
      ensures calls == old(calls) + 1 && (r.Err? <==> down(old(calls)))
      ensures r.Ok? ==> r.value == db.collections.Keys
    {
      var detail: string := *;
      r := if down(calls) then Err(BackendFailure(detail)) else Ok(db.collections.Keys);
      calls := calls + 1;
    }

    method CreateCollection(name: string, shape: Shape) returns (r: Result<(), BackendFailure>)
      modifies this`calls, this`db
      ensures calls == old(calls) + 1
      ensures r.Err? <==> down(old(calls)) || !FitsIn(old(db).collections, Place(old(db), name), shape)
      ensures db == if r.Ok? then old(db).(collections := Opened(old(db).collections, Place(old(db), name), shape))
                    else old(db)
    {
      var detail: string := *;
      var up := !down(calls);
      calls := calls + 1;
      if !up {
        return Err(BackendFailure(detail));
      }
      var place := Place(db, name);
      if place in db.collections {
        if !shape.FitsIn(db.collections[place].shape) {
          return Err(BackendFailure(detail));
        }
      } else {
        db := db.(collections := db.collections[name := Collection(shape, map[])]);
      }
      r := Ok(());
    }

    /** The provider's call: one vector for each text of the batch. */
    method EmbedDocuments(job: Job, batch: seq<Point>) returns (r: Result<seq<Point>, ()>)
      modifies this`calls
      ensures calls == old(calls) + 1
      ensures r == if down(old(calls)) then Err(()) else Ok(Embedded(job, batch))
    {
      r := if down(calls) then Err(()) else Ok(Embedded(job, batch));
      calls := calls + 1;
    }

    method Upsert(name: string, batch: seq<Point>) returns (r: Result<nat, BackendFailure>)
      modifies this
      ensures calls == old(calls) + 1
      ensures r.Err? <==> down(old(calls)) || Place(old(db), name) !in old(db).collections
      ensures Place(old(db), name) !in old(db).collections ==> db == old(db)
      ensures Place(old(db), name) in old(db).collections ==>
                && (r.Ok? ==>
                      && r.value == |batch| && batches == old(batches) + [batch]
                      && db == Holding(old(db), Place(old(db), name), batch))
                && (r.Err? ==>
                      exists landed :: PartOf(landed, batch) && db == Holding(old(db), Place(old(db), name), landed))
    {
      var up, place := !down(calls), Place(db, name);
      var detail: string, tried: seq<Point> := *, *;
      calls := calls + 1;
      if place !in db.collections {
        return Err(BackendFailure(detail));
      }
      var landed := if up then batch else Within(tried, batch);
      db := Holding(db, place, landed);
      if up {
        batches := batches + [batch];
        return Ok(|batch|);
      }
      r := Err(BackendFailure(detail));
    }

    method DropCollection(name: string) returns (r: Result<bool, BackendFailure>)
      modifies this`calls, this`db
      ensures calls == old(calls) + 1 && (r.Err? <==> down(old(calls)))
      ensures r.Ok? ==> r.value == (name in old(db).collections)
      ensures db == if r.Ok? then Dropping(old(db), name) else old(db)
    {
      var detail: string := *;
      var up := !down(calls);
      calls := calls + 1;
      if !up {
        return Err(BackendFailure(detail));
      }
      r := Ok(name in db.collections);
      db := Dropping(db, name);
    }
  }

  /** The database with `points` upserted into one collection. */
  function Holding(db: Database, place: string, points: seq<Point>): Database
    requires place in db.collections
  {
    var held := db.collections[place];
    db.(collections := db.collections[place := held.(points := Upserted(held.points, points))])
  }

  /** Writing into a collection changes no name. */
  lemma {:induction false} HoldingKeepsPlaces(db: Database, place: string, points: seq<Point>, name: string)
    requires place in db.collections
    ensures Place(Holding(db, place, points), name) == Place(db, name)
    ensures Holding(db, place, []) == db
  {
    assert db.collections[place].(points := Upserted(db.collections[place].points, [])) == db.collections[place];
  }

  // ---- What is written ----

  /** `reembed` turns a text into a vector; without it the archived vectors are copied. */
  datatype Job = Job(reembed: Option<string -> seq<real>>, model: string, modelVersion: string,
                     hybrid: bool, encode: string -> SparseVector)

  datatype WriteFailure = MissingVector(chunkId: string) | RaggedPostings | ProviderFailed
      | Backend(failure: BackendFailure)

  function DocumentMap(rows: seq<DocumentRow>): map<string, DocumentRow> {
    if rows == [] then map[]
    else DocumentMap(rows[..|rows| - 1])[rows[|rows| - 1].documentId := rows[|rows| - 1]]
  }

  /** `_keyword_leg` */
  function KeywordLeg(job: Job, text: string, carried: Option<SparseVector>): Option<SparseVector> {
    if !job.hybrid then None else if carried.Some? then carried else Some(job.encode(text))
  }

  /** The point a chunk becomes, given the vector row the lookup found for it. */
  function PointFor(job: Job, documents: map<string, DocumentRow>, row: ChunkRow,
                    found: Option<VectorRow>): Result<Point, WriteFailure> {
    var document := if row.documentId in documents then Some(documents[row.documentId]) else None;
    var payload := RestoredPayload(row, document, job.model, job.modelVersion);
    if job.reembed.Some?
    then Ok(Point(row.chunkId, job.reembed.value(row.text), payload, KeywordLeg(job, row.text, None)))
    else if found.None? then Err(MissingVector(row.chunkId))
    else if found.value.sparse.None?
    then Ok(Point(row.chunkId, found.value.vector, payload, KeywordLeg(job, row.text, None)))
    else
      var postings := found.value.sparse.value;
      if |postings.indices| != |postings.values| then Err(RaggedPostings)
      else Ok(Point(row.chunkId, found.value.vector, payload, KeywordLeg(job, row.text, Some(postings))))
  }

  /** What makes a point of a chunk row and the vector row found for it. */
  type Joiner = (ChunkRow, Option<VectorRow>) -> Result<Point, WriteFailure>

  function JoinerFor(job: Job, documents: map<string, DocumentRow>): Joiner {
    (row, found) => PointFor(job, documents, row, found)
  }

  /** The points of the first `n` chunks, up to the first that cannot be written. */
  function Joined(join: Joiner, chunks: seq<ChunkRow>, found: seq<Option<VectorRow>>, n: nat): (points: seq<Point>)
    requires n <= |found| == |chunks|
    ensures |points| <= n
  {
    if n == 0 then []
    else
      var before := Joined(join, chunks, found, n - 1);
      var point := join(chunks[n - 1], found[n - 1]);
      if |before| < n - 1 || point.Err? then before else before + [point.value]
  }

  /** What keeps the first chunk that cannot be written from being written. */
  function Stop(join: Joiner, chunks: seq<ChunkRow>, found: seq<Option<VectorRow>>): Option<WriteFailure>
    requires |found| == |chunks|
  {
    var n := |Joined(join, chunks, found, |chunks|)|;
    if n == |chunks| then None
    else
      JoinedIsCompleteExactly(join, chunks, found, |chunks|);
      JoinedStopsAtAFailure(join, chunks, found, |chunks|);
      Some(join(chunks[n], found[n]).error)
  }

  predicate InRange(members: Bundle, offsets: Option<map<string, nat>>) {
    offsets.Some? && VECTORS_NAME in members ==>
      forall id :: id in offsets.value ==> offsets.value[id] <= |members[VECTORS_NAME]|
  }

  /** The answers of the seeking lookup. */
  function Sought(c: Codecs, text: string, offsets: map<string, nat>, ids: seq<string>): (found: seq<Option<VectorRow>>)
    requires forall id :: id in offsets ==> offsets[id] <= |text|
    ensures |found| == |ids|
  {
    if ids == [] then []
    else
      [if ids[0] in offsets then Some(c.vectors.parse(FirstLine(text[offsets[ids[0]]..]))) else None]
      + Sought(c, text, offsets, ids[1..])
  }

  /** What the reader's lookup answers when it is called once per chunk, in chunk order. */
  function Found(c: Codecs, members: Bundle, offsets: Option<map<string, nat>>,
                 ids: seq<string>): (found: seq<Option<VectorRow>>)
    requires InRange(members, offsets)
    ensures |found| == |ids|
  {
    if VECTORS_NAME in members && offsets.Some?
    then Sought(c, members[VECTORS_NAME], offsets.value, ids)
    else V.LockstepAnswers(RowsIn(c.vectors, members, VECTORS_NAME), ids)
  }

  lemma {:induction false} SoughtAt(c: Codecs, text: string, offsets: map<string, nat>, ids: seq<string>, i: nat)
    requires (forall id :: id in offsets ==> offsets[id] <= |text|) && i < |ids|
    ensures Sought(c, text, offsets, ids)[i]
         == if ids[i] in offsets then Some(c.vectors.parse(FirstLine(text[offsets[ids[i]]..]))) else None
  {
    if i > 0 {
      SoughtAt(c, text, offsets, ids[1..], i - 1);
    }
  }

  /** The offsets of an archive that was opened lie in its vectors. */
  lemma {:induction false} OpenedOffsetsAreInRange(c: Codecs, members: Bundle)
    ensures InRange(members, OffsetsKept(c, members))
  {
    if OffsetsKept(c, members).Some? {
      var offsets := OffsetsKept(c, members).value;
      forall id | id in offsets ensures offsets[id] <= |members[VECTORS_NAME]| {
        V.SeekingRefinesKeyedLookup(c.vectors, members[VECTORS_NAME], id);
      }
    }
  }

  /**
  Over an opened archive the lookup answers every chunk, in chunk order, with what a
  dictionary of all vector rows would say: always through the index, and in step whenever
  chunk ids do not repeat.
  */
  lemma {:induction false} LookupAnswersByKey(c: Codecs, members: Bundle, i: nat)
    requires var ids := ChunkIds(RowsIn(c.chunks, members, CHUNKS_NAME));
             i < |ids| && (V.Distinct(ids) || OffsetsKept(c, members).Some?)
    ensures InRange(members, OffsetsKept(c, members))
    ensures var ids := ChunkIds(RowsIn(c.chunks, members, CHUNKS_NAME));
            Found(c, members, OffsetsKept(c, members), ids)[i]
                == V.Keyed(RowsIn(c.vectors, members, VECTORS_NAME), ids[i])
  {
    var ids, vectors := ChunkIds(RowsIn(c.chunks, members, CHUNKS_NAME)), RowsIn(c.vectors, members, VECTORS_NAME);
    OpenedOffsetsAreInRange(c, members);
    match OffsetsKept(c, members) {
      case Some(offsets) =>
        SoughtAt(c, members[VECTORS_NAME], offsets, ids, i);
        V.SeekingRefinesKeyedLookup(c.vectors, members[VECTORS_NAME], ids[i]);
      case None =>
        if VECTORS_NAME !in members {
          LeftoverOfNothing(ids);
        }
        V.GreedyConsumesExactlySubsequences(vectors, ids);
        V.LockstepRefinesKeyedLookup(vectors, ids, i);
    }
  }

  /**
  Whatever repeats, the lookup answers all chunks by key exactly when there is an index or
  each id is asked for once per row.
  */
  lemma {:induction false} LookupAnswersByKeyExactly(c: Codecs, members: Bundle)
    ensures InRange(members, OffsetsKept(c, members))
    ensures var ids := ChunkIds(RowsIn(c.chunks, members, CHUNKS_NAME));
            var rows, found := RowsIn(c.vectors, members, VECTORS_NAME),
                Found(c, members, OffsetsKept(c, members), ids);
            (forall i :: 0 <= i < |ids| ==> found[i] == V.Keyed(rows, ids[i]))
            <==> OffsetsKept(c, members).Some? || V.AskedOncePerRow(rows, ids)
  {
    var ids, rows := ChunkIds(RowsIn(c.chunks, members, CHUNKS_NAME)), RowsIn(c.vectors, members, VECTORS_NAME);
    OpenedOffsetsAreInRange(c, members);
    if OffsetsKept(c, members).Some? {
      forall i | 0 <= i < |ids| ensures Found(c, members, OffsetsKept(c, members), ids)[i] == V.Keyed(rows, ids[i]) {
        LookupAnswersByKey(c, members, i);
      }
    } else {
      if VECTORS_NAME !in members {
        LeftoverOfNothing(ids);
      }
      V.GreedyConsumesExactlySubsequences(rows, ids);
      V.LockstepAgreesExactly(rows, ids);
    }
  }

  /** The whole import as a value: the points an undisturbed run writes, in order. */
  function ToWrite(job: Job, c: Codecs, members: Bundle, offsets: Option<map<string, nat>>): seq<Point>
    requires InRange(members, offsets)
  {
    var chunks := RowsIn(c.chunks, members, CHUNKS_NAME);
    Joined(JoinerFor(job, DocumentMap(RowsIn(c.documents, members, DOCUMENTS_NAME))), chunks,
           Found(c, members, offsets, ChunkIds(chunks)), |chunks|)
  }

  /** Every chunk can be written. */
  predicate Complete(job: Job, c: Codecs, members: Bundle, offsets: Option<map<string, nat>>)
    requires InRange(members, offsets)
  {
    |ToWrite(job, c, members, offsets)| == |RowsIn(c.chunks, members, CHUNKS_NAME)|
  }

  /** What keeps the first chunk that cannot be written from being written. */
  function Stopping(job: Job, c: Codecs, members: Bundle, offsets: Option<map<string, nat>>)
    : (stop: Option<WriteFailure>)
    requires InRange(members, offsets)
    ensures stop.None? <==> Complete(job, c, members, offsets)
  {
    var chunks := RowsIn(c.chunks, members, CHUNKS_NAME);
    Stop(JoinerFor(job, DocumentMap(RowsIn(c.documents, members, DOCUMENTS_NAME))), chunks,
         Found(c, members, offsets, ChunkIds(chunks)))
  }

  /**
  The lookup a reader opens over its vectors, in whichever of its two forms; an archive
  without vectors answers nothing.
  */
  class OpenedVectors {
    const c: Codecs
    const text: string
    const offsets: Option<map<string, nat>>
    const cursor: V.LockstepLookup

    constructor (reader: ArchiveReader)
      requires InRange(reader.members, reader.vectorOffsets)
      ensures Valid() && fresh(cursor)
      ensures forall ids :: Ahead(ids) == Found(reader.c, reader.members, reader.vectorOffsets, ids)
    {
      var text := if VECTORS_NAME in reader.members then reader.members[VECTORS_NAME] else "";
      var walk := new V.LockstepLookup(reader.c.vectors, text);
      c, this.text, cursor := reader.c, text, walk;
      offsets := if VECTORS_NAME in reader.members then reader.vectorOffsets else None;
    }

    ghost predicate Valid()
      reads this, cursor
    {
      && cursor.codec == c.vectors
      && (offsets.Some? ==> forall id :: id in offsets.value ==> offsets.value[id] <= |text|)
    }

    /** The answers to one call for each id from here on. */
    ghost function Ahead(ids: seq<string>): (answers: seq<Option<VectorRow>>)
      requires Valid()
      reads this, cursor
      ensures |answers| == |ids|
    {
      if offsets.Some? then Sought(c, text, offsets.value, ids)
      else V.LockstepAnswers(cursor.Remaining(), ids)
    }

    method Lookup(chunkId: string, ghost later: seq<string>) returns (found: Option<VectorRow>)
      requires Valid()
      modifies cursor
      ensures Valid() && [found] + Ahead(later) == old(Ahead([chunkId] + later))
    {
      assert ([chunkId] + later)[1..] == later;
      if offsets.Some? {
        found := V.SeekingLookup(c.vectors, text, offsets.value, chunkId);
      } else {
        found := cursor.Lookup(chunkId);
      }
    }
  }

  // ---- Batches ----

  /** A flush size below one behaves as one: the batch is tested after each chunk. */
  function BatchSize(size: int): nat {
    if size < 1 then 1 else size
  }

  function Batches(points: seq<Point>, size: int): seq<seq<Point>>
    decreases |points|
  {
    var n := BatchSize(size);
    if points == [] then []
    else if |points| <= n then [points]
    else [points[..n]] + Batches(points[n..], size)
  }

  function Flattened(batches: seq<seq<Point>>): seq<Point> {
    if batches == [] then [] else batches[0] + Flattened(batches[1..])
  }

  /** Batching writes exactly the points, once each and in order, in full batches but for the last. */
  lemma {:induction false} BatchesAreThePoints(points: seq<Point>, size: int)
    ensures Flattened(Batches(points, size)) == points
    ensures forall i :: 0 <= i < |Batches(points, size)| ==> 1 <= |Batches(points, size)[i]| <= BatchSize(size)
    ensures forall i :: 0 <= i < |Batches(points, size)| - 1 ==> |Batches(points, size)[i]| == BatchSize(size)
    decreases |points|
  {
    var n := BatchSize(size);
    if points != [] && |points| > n {
      BatchesAreThePoints(points[n..], size);
      var later := Batches(points[n..], size);
      assert ([points[..n]] + later)[1..] == later;
    } else if points != [] {
      assert [points][1..] == [] && points + [] == points;
    }
  }

  /** A whole number of full batches. */
  predicate Aligned(points: seq<Point>, size: int)
    decreases |points|
  {
    points == [] || (|points| >= BatchSize(size) && Aligned(points[BatchSize(size)..], size))
  }

  lemma {:induction false} BatchGoesLast(points: seq<Point>, batch: seq<Point>, size: int)
    requires Aligned(points, size) && 1 <= |batch| <= BatchSize(size)
    ensures Batches(points + batch, size) == Batches(points, size) + [batch]
    ensures |batch| == BatchSize(size) ==> Aligned(points + batch, size)
    decreases |points|
  {
    var n := BatchSize(size);
    if points == [] {
      assert points + batch == batch;
      if |batch| == n {
        assert batch[n..] == [];
      }
    } else {
      assert (points + batch)[..n] == points[..n] && (points + batch)[n..] == points[n..] + batch;
      BatchGoesLast(points[n..], batch, size);
      if |points| == n {
        assert points[n..] == [] && points[..n] == points;
      }
    }
  }

  // ---- Writing ----

  lemma {:induction false} UpsertedInTurn(held: Points, first: seq<Point>, second: seq<Point>)
    ensures Upserted(Upserted(held, first), second) == Upserted(held, first + second)
  {
    if second == [] {
      assert first + second == first;
    } else {
      var n := |second| - 1;
      UpsertedInTurn(held, first, second[..n]);
      assert (first + second)[..|first| + n] == first + second[..n];
    }
  }

  lemma {:induction false} HoldingInTurn(db: Database, place: string, first: seq<Point>, second: seq<Point>)
    requires place in db.collections
    ensures Holding(Holding(db, place, first), place, second) == Holding(db, place, first + second)
  {
    UpsertedInTurn(db.collections[place].points, first, second);
  }

  lemma {:induction false} JoinedGrows(join: Joiner, chunks: seq<ChunkRow>, found: seq<Option<VectorRow>>, i: nat,
                                       n: nat)
    requires i <= n <= |found| == |chunks|
    ensures Joined(join, chunks, found, i) <= Joined(join, chunks, found, n)
  {
    if i < n {
      JoinedGrows(join, chunks, found, i, n - 1);
    }
  }

  lemma {:induction false} JoinedIsCompleteExactly(join: Joiner, chunks: seq<ChunkRow>, found: seq<Option<VectorRow>>,
                                                   n: nat)
    requires n <= |found| == |chunks|
    ensures |Joined(join, chunks, found, n)| == n <==> forall i :: 0 <= i < n ==> join(chunks[i], found[i]).Ok?
    ensures forall i :: 0 <= i < |Joined(join, chunks, found, n)| ==>
              join(chunks[i], found[i]) == Ok(Joined(join, chunks, found, n)[i])
  {
    if n > 0 {
      JoinedIsCompleteExactly(join, chunks, found, n - 1);
    }
  }

  lemma {:induction false} JoinedStopsAtAFailure(join: Joiner, chunks: seq<ChunkRow>, found: seq<Option<VectorRow>>,
                                                 n: nat)
    requires n <= |found| == |chunks|
    ensures var written := |Joined(join, chunks, found, n)|;
            written < n ==> join(chunks[written], found[written]).Err?
  {
    if n > 0 {
      JoinedStopsAtAFailure(join, chunks, found, n - 1);
    }
  }

  /**
  A vector copy can complete exactly when the lookup has a vector, with postings of one
  length, for every chunk; otherwise no re-run ever will.
  */
  lemma {:induction false} CopyCompletesExactlyWhenEveryChunkHasAVector(job: Job, c: Codecs, members: Bundle,
        offsets: Option<map<string, nat>>)
    requires InRange(members, offsets) && job.reembed.None?
    ensures var found := Found(c, members, offsets, ChunkIds(RowsIn(c.chunks, members, CHUNKS_NAME)));
            Complete(job, c, members, offsets) <==>
              forall i :: 0 <= i < |found| ==> found[i].Some? && OneLength(found[i].value)
  {
    var chunks := RowsIn(c.chunks, members, CHUNKS_NAME);
    var found := Found(c, members, offsets, ChunkIds(chunks));
    var join := JoinerFor(job, DocumentMap(RowsIn(c.documents, members, DOCUMENTS_NAME)));
    JoinedIsCompleteExactly(join, chunks, found, |chunks|);
    forall i | 0 <= i < |chunks|
      ensures join(chunks[i], found[i]).Ok? <==> found[i].Some? && OneLength(found[i].value)
    {
    }
  }

  predicate OneLength(row: VectorRow) {
    row.sparse.Some? ==> |row.sparse.value.indices| == |row.sparse.value.values|
  }

  /** The text a point is embedded from. */
  function Label(p: Point): string {
    match Get(p.payload, "text")
    case Str(s) => s
    case _ => ""
  }

  function Embedded(job: Job, batch: seq<Point>): (r: seq<Point>)
    ensures |r| == |batch|
  {
    if batch == [] then []
    else
      var p := batch[|batch| - 1];
      Embedded(job, batch[..|batch| - 1]) + [if job.reembed.Some? then p.(vector := job.reembed.value(Label(p))) else p]
  }

  lemma {:induction false} NothingToEmbed(job: Job, batch: seq<Point>)
    requires job.reembed.None?
    ensures Embedded(job, batch) == batch
  {
    if batch != [] {
      NothingToEmbed(job, batch[..|batch| - 1]);
    }
  }

  /** `_flush`: embed when required, then write. A failure is a failed call. */
  method Flush(store: VectorStore, job: Job, collection: string, batch: seq<Point>)
    returns (r: Result<nat, WriteFailure>, ghost landed: seq<Point>)
    requires Place(store.db, collection) in store.db.collections
    modifies store
    ensures store.db == Holding(old(store.db), Place(old(store.db), collection), landed)
    ensures old(store.calls) <= store.calls
    ensures r.Err? <==> Outage(store.down, old(store.calls), store.calls)
    ensures r.Ok? ==>
              r.value == |batch| && landed == Embedded(job, batch) && store.batches == old(store.batches) + [landed]
    ensures r.Err? ==> (r.error.ProviderFailed? || r.error.Backend?) && PartOf(landed, Embedded(job, batch))
  {
    landed := [];
    ghost var before, place := store.db, Place(store.db, collection);
    HoldingKeepsPlaces(before, place, [], collection);
    var points := batch;
    if job.reembed.Some? {
      var embedded := store.EmbedDocuments(job, batch);
      if embedded.Err? {
        assert store.down(old(store.calls));
        return Err(ProviderFailed), [];
      }
      points := embedded.value;
    } else {
      NothingToEmbed(job, batch);
    }
    ghost var at := store.calls;
    var written := store.Upsert(collection, points);
    if written.Err? {
      assert store.down(at);
      landed :| PartOf(landed, points) && store.db == Holding(before, place, landed);
      return Err(Backend(written.error)), landed;
    }
    return Ok(written.value), points;
  }

  datatype ImportCounts = ImportCounts(documents: nat, chunks: nat)

  /** A point as it waits in a batch: without a vector when one is still to be computed. */
  function Drafted(job: Job, p: Point): Point {
    if job.reembed.Some? then p.(vector := []) else p
  }

  /** `done` points are joined; all but those waiting in `batch` are written, in full batches. */
  ghost predicate Progress(job: Job, done: seq<Point>, landed: seq<Point>, batch: seq<Point>, size: int) {
    done == landed + Embedded(job, batch) && Aligned(landed, size)
  }

  /** The joiner of a job: its points carry the vectors their texts embed to, whatever was found for them. */
  ghost predicate Serves(join: Joiner, job: Job) {
    job.reembed.Some? ==> forall row, stored ::
      join(row, stored) == join(row, None) && (join(row, None).Ok? ==> Embeds(job, join(row, None).value))
  }

  predicate Embeds(job: Job, p: Point) {
    job.reembed.Some? ==> p.vector == job.reembed.value(Label(p))
  }

  lemma {:induction false} JoinerServes(job: Job, documents: map<string, DocumentRow>)
    ensures Serves(JoinerFor(job, documents), job)
  {
    if job.reembed.Some? {
      var join := JoinerFor(job, documents);
      forall row, stored
        ensures join(row, stored) == join(row, None) && (join(row, None).Ok? ==> Embeds(job, join(row, None).value))
      {
        TextIsRestored(job, documents, row);
      }
    }
  }

  /** Nothing that is put in after the named fields touches one of these. */
  lemma {:induction false} NamedFieldStays(row: ChunkRow, document: Option<DocumentRow>, model: string,
                                           modelVersion: string, key: string)
    requires key in ["text", "embedding_model", "embedding_model_version"]
    ensures At(RestoredPayload(row, document, model, modelVersion), key)
         == At(NamedFields(row, model, modelVersion), key)
  {
    var named := row.metadata + NamedFields(row, model, modelVersion);
    var joined := FromDocument(named, document);
    if document.Some? {
      FromDocumentAt(named, document.value, key);
    }
    PutAt(joined, "page", NonNull(row.page), key);
    PutAt(Put(joined, "page", NonNull(row.page)), "context_prefix", NonNull(row.contextPrefix), key);
  }

  lemma {:induction false} NamedFieldsAreRestored(row: ChunkRow, document: Option<DocumentRow>, model: string,
                                                  modelVersion: string)
    ensures var payload := RestoredPayload(row, document, model, modelVersion);
            && Get(payload, "text") == Str(row.text) && Get(payload, "embedding_model") == Str(model)
            && Get(payload, "embedding_model_version") == Str(modelVersion)
  {
    NamedFieldStays(row, document, model, modelVersion, "text");
    NamedFieldStays(row, document, model, modelVersion, "embedding_model");
    NamedFieldStays(row, document, model, modelVersion, "embedding_model_version");
  }

  lemma {:induction false} TextIsRestored(job: Job, documents: map<string, DocumentRow>, row: ChunkRow)
    requires job.reembed.Some?
    ensures Label(PointFor(job, documents, row, None).value) == row.text
  {
    var document := if row.documentId in documents then Some(documents[row.documentId]) else None;
    NamedFieldsAreRestored(row, document, job.model, job.modelVersion);
  }

  lemma {:induction false} ChunkJoins(join: Joiner, job: Job, chunks: seq<ChunkRow>, found: seq<Option<VectorRow>>,
                                      i: nat, stored: Option<VectorRow>)
    requires i < |chunks| == |found| && |Joined(join, chunks, found, i)| == i
    requires Serves(join, job) && (if job.reembed.Some? then stored.None? else stored == found[i])
    ensures var point := join(chunks[i], stored);
            point.Ok? ==>
              && Embeds(job, point.value)
              && Joined(join, chunks, found, i + 1) == Joined(join, chunks, found, i) + [point.value]
  {
  }

  lemma {:induction false} BatchGrows(job: Job, point: Point, done: seq<Point>, landed: seq<Point>, batch: seq<Point>,
                                      size: int)
    requires Embeds(job, point) && Progress(job, done, landed, batch, size)
    ensures Progress(job, done + [point], landed, batch + [Drafted(job, point)], size)
  {
    assert Label(Drafted(job, point)) == Label(point);
    assert (batch + [Drafted(job, point)])[..|batch|] == batch;
  }

  lemma {:induction false} PrefixIsPart(part: seq<Point>, points: seq<Point>)
    requires part <= points
    ensures PartOf(part, points)
  {
  }

  /** A failed flush leaves part of what the run would have written. */
  lemma {:induction false} FailedFlushIsPart(landed: seq<Point>, partly: seq<Point>, batch: seq<Point>,
                                             points: seq<Point>)
    requires landed + batch <= points && PartOf(partly, batch)
    ensures PartOf(landed + partly, points)
  {
    forall i | 0 <= i < |landed + partly| ensures (landed + partly)[i] in points {
      if i >= |landed| {
        var j :| 0 <= j < |batch| && batch[j] == partly[i - |landed|];
        assert points[|landed| + j] == batch[j];
      } else {
        assert points[i] == landed[i];
      }
    }
  }

  /** Where a run of writes began. */
  datatype Base = Base(db: Database, place: string, batches: seq<seq<Point>>, calls: nat)

  /** `landed` was written on top of what was there, and the name still stands for the same collection. */
  ghost predicate Holds(store: VectorStore, collection: string, base: Base, landed: seq<Point>)
    reads store
  {
    && base.place in base.db.collections && store.db == Holding(base.db, base.place, landed)
    && Place(store.db, collection) == base.place && base.calls <= store.calls
  }

  /** And that in batches of the given size, with no call failing. */
  ghost predicate Landed(store: VectorStore, collection: string, base: Base, landed: seq<Point>, size: int)
    reads store
  {
    && Holds(store, collection, base, landed)
    && store.batches == base.batches + Batches(landed, size) && !Outage(store.down, base.calls, store.calls)
  }

  /** What a failed run is blamed on: a failed call if there was one, else the chunk that cannot be written. */
  predicate Explains(e: WriteFailure, stop: Option<WriteFailure>, outage: bool) {
    if outage then e.ProviderFailed? || e.Backend? else stop == Some(e)
  }

  /** A run that failed, and left part of its points. */
  ghost predicate GaveUp(store: VectorStore, collection: string, base: Base, landed: seq<Point>, points: seq<Point>,
                         e: WriteFailure, stop: Option<WriteFailure>)
    reads store
  {
    && Holds(store, collection, base, landed) && PartOf(landed, points)
    && Explains(e, stop, Outage(store.down, base.calls, store.calls))
  }

  /** A flush on top of what has landed. */
  method FlushOnTop(store: VectorStore, job: Job, collection: string, batch: seq<Point>, ghost base: Base,
                    ghost landed: seq<Point>)
    returns (r: Result<nat, WriteFailure>, ghost partly: seq<Point>)
    requires Holds(store, collection, base, landed) && !Outage(store.down, base.calls, store.calls)
    modifies store
    ensures Holds(store, collection, base, landed + partly)
    ensures r.Err? <==> Outage(store.down, base.calls, store.calls)
    ensures r.Ok? ==>
              r.value == |batch| && partly == Embedded(job, batch) && store.batches == old(store.batches) + [partly]
    ensures r.Err? ==> (r.error.ProviderFailed? || r.error.Backend?) && PartOf(partly, Embedded(job, batch))
  {
    ghost var from, before := store.calls, store.db;
    r, partly := Flush(store, job, collection, batch);
    OutageSplits(store.down, base.calls, from, store.calls);
    HoldingInTurn(base.db, base.place, landed, partly);
    HoldingKeepsPlaces(before, base.place, partly, collection);
  }

  /** Once the waiting batch is written too, all that is joined is. */
  lemma {:induction false} WaitingBatchLands(job: Job, done: seq<Point>, landed: seq<Point>, batch: seq<Point>,
                                             size: int, wrote: seq<seq<Point>>)
    requires Progress(job, done, landed, batch, size) && 1 <= |batch| <= BatchSize(size)
    ensures landed + Embedded(job, batch) == done
    ensures wrote + Batches(landed, size) + [Embedded(job, batch)] == wrote + Batches(done, size)
    ensures |batch| == BatchSize(size) ==> Progress(job, done, done, [], size)
  {
    BatchGoesLast(landed, Embedded(job, batch), size);
  }

  /** Write the waiting batch on top of what has landed. */
  method FlushWaiting(store: VectorStore, job: Job, collection: string, batch: seq<Point>, size: int, ghost base: Base,
                      ghost done: seq<Point>, ghost landed: seq<Point>, ghost points: seq<Point>,
                      ghost stop: Option<WriteFailure>)
    returns (r: Result<nat, WriteFailure>, ghost now: seq<Point>)
    requires Landed(store, collection, base, landed, size)
    requires Progress(job, done, landed, batch, size) && 1 <= |batch| <= BatchSize(size) && done <= points
    modifies store
    ensures r.Err? ==> GaveUp(store, collection, base, now, points, r.error, stop)
    ensures r.Ok? ==>
              && r.value == |batch| && now == done && Landed(store, collection, base, now, size)
              && (|batch| == BatchSize(size) ==> Progress(job, done, done, [], size))
  {
    ghost var partly;
    r, partly := FlushOnTop(store, job, collection, batch, base, landed);
    now := landed + partly;
    if r.Ok? {
      WaitingBatchLands(job, done, landed, batch, size, base.batches);
    } else {
      FailedFlushIsPart(landed, partly, Embedded(job, batch), points);
    }
  }

  /** Flush the waiting batch when it is due; returns what still waits and how much was written. */
  method FlushWhen(due: bool, store: VectorStore, job: Job, collection: string, batch: seq<Point>, size: int,
                   ghost base: Base, ghost done: seq<Point>, ghost landed: seq<Point>, ghost points: seq<Point>,
                   ghost stop: Option<WriteFailure>)
    returns (r: Result<(seq<Point>, nat), WriteFailure>, ghost now: seq<Point>)
    requires Landed(store, collection, base, landed, size)
    requires Progress(job, done, landed, batch, size) && |batch| <= BatchSize(size) && done <= points
    requires due ==> batch != []
    modifies store
    ensures r.Err? ==> GaveUp(store, collection, base, now, points, r.error, stop)
    ensures r.Ok? ==>
              && Landed(store, collection, base, now, size)
              && |now| == |landed| + r.value.1 && r.value.0 == (if due then [] else batch)
              && (due ==> now == done)
              && ((due && |batch| < BatchSize(size)) || Progress(job, done, now, r.value.0, size))
  {
    now := landed;
    if !due {
      return Ok((batch, 0)), landed;
    }
    var n;
    n, now := FlushWaiting(store, job, collection, batch, size, base, done, landed, points, stop);
    r := if n.Ok? then Ok(([], n.value)) else Err(n.error);
  }

  /** The state after joining chunk `i`: its point is joined, and waits. */
  lemma {:induction false} ChunkAdvances(join: Joiner, job: Job, chunks: seq<ChunkRow>, found: seq<Option<VectorRow>>,
                                         i: nat, stored: Option<VectorRow>, done: seq<Point>, landed: seq<Point>,
                                         batch: seq<Point>, size: int)
    requires i < |chunks| == |found| && Serves(join, job)
        && (if job.reembed.Some? then stored.None? else stored == found[i])
    requires done == Joined(join, chunks, found, i) && |done| == i && Progress(job, done, landed, batch, size)
    ensures PartOf(landed, Joined(join, chunks, found, |chunks|))
    ensures var point := join(chunks[i], stored);
            point.Ok? ==>
              && done + [point.value] == Joined(join, chunks, found, i + 1) <= Joined(join, chunks, found, |chunks|)
              && Progress(job, done + [point.value], landed, batch + [Drafted(job, point.value)], size)
  {
    JoinedGrows(join, chunks, found, i, |chunks|);
    PrefixIsPart(landed, Joined(join, chunks, found, |chunks|));
    var point := join(chunks[i], stored);
    if point.Ok? {
      ChunkJoins(join, job, chunks, found, i, stored);
      JoinedGrows(join, chunks, found, i + 1, |chunks|);
      BatchGrows(job, point.value, done, landed, batch, size);
    }
  }

  /** A vector copy asks for the vector of chunk `i`; re-embedding does not ask. */
  method AnswerNext(lookup: OpenedVectors, asks: bool, chunkId: string, i: nat, ghost ids: seq<string>,
                    ghost found: seq<Option<VectorRow>>)
    returns (stored: Option<VectorRow>)
    requires lookup.Valid() && i < |ids| == |found| && ids[i] == chunkId
        && (asks ==> lookup.Ahead(ids[i..]) == found[i..])
    modifies lookup.cursor
    ensures lookup.Valid() && (asks ==> lookup.Ahead(ids[i + 1..]) == found[i + 1..])
    ensures stored == if asks then found[i] else None
  {
    stored := None;
    if asks {
      assert ids[i..] == [chunkId] + ids[i + 1..] && found[i..] == [found[i]] + found[i + 1..];
      stored := lookup.Lookup(chunkId, ids[i + 1..]);
    }
  }

  /**
  Before chunk `i`: the chunks so far are joined, the full batches landed, and the lookup is
  about to answer for `i`.
  */
  ghost predicate AtRow(i: nat, store: VectorStore, lookup: OpenedVectors, job: Job, join: Joiner,
                        chunks: seq<ChunkRow>, collection: string, size: int, base: Base, found: seq<Option<VectorRow>>,
                        done: seq<Point>, landed: seq<Point>, batch: seq<Point>)
    requires i <= |chunks| == |found|
    reads store, lookup, lookup.cursor
  {
    && lookup.Valid() && (job.reembed.None? ==> lookup.Ahead(ChunkIds(chunks)[i..]) == found[i..])
    && Landed(store, collection, base, landed, size)
    && done == Joined(join, chunks, found, i) && |done| == i
    && Progress(job, done, landed, batch, size) && |batch| < BatchSize(size)
  }

  /** A chunk that cannot be joined is where the run stops. */
  lemma {:induction false} StopsHere(join: Joiner, job: Job, chunks: seq<ChunkRow>, found: seq<Option<VectorRow>>,
                                     i: nat, stored: Option<VectorRow>)
    requires i < |chunks| == |found| && Serves(join, job)
    requires if job.reembed.Some? then stored.None? else stored == found[i]
    requires |Joined(join, chunks, found, i)| == i && join(chunks[i], stored).Err?
    ensures Stop(join, chunks, found) == Some(join(chunks[i], stored).error)
  {
    assert join(chunks[i], found[i]) == join(chunks[i], stored);
    JoinedGrows(join, chunks, found, i, |chunks|);
    JoinedIsCompleteExactly(join, chunks, found, |chunks|);
    JoinedStopsAtAFailure(join, chunks, found, |chunks|);
  }

  /** One round of the loop: join a chunk, and flush when the batch is full. */
  method WriteNext(store: VectorStore, lookup: OpenedVectors, job: Job, join: Joiner, chunks: seq<ChunkRow>, i: nat,
                   collection: string, batch: seq<Point>, size: int, ghost base: Base,
                   ghost found: seq<Option<VectorRow>>, ghost done: seq<Point>, ghost landed: seq<Point>)
    returns (r: Result<(seq<Point>, nat), WriteFailure>, ghost joined: seq<Point>, ghost now: seq<Point>)
    requires i < |chunks| == |found| && Serves(join, job)
    requires AtRow(i, store, lookup, job, join, chunks, collection, size, base, found, done, landed, batch)
    modifies store, lookup.cursor
    ensures r.Err? ==> GaveUp(store, collection, base, now, Joined(join, chunks, found, |chunks|), r.error,
                              Stop(join, chunks, found))
    ensures r.Ok? ==>
              && AtRow(i + 1, store, lookup, job, join, chunks, collection, size, base, found, joined, now, r.value.0)
              && |now| == |landed| + r.value.1
  {
    var stored := AnswerNext(lookup, job.reembed.None?, chunks[i].chunkId, i, ChunkIds(chunks), found);
    ChunkAdvances(join, job, chunks, found, i, stored, done, landed, batch, size);
    joined, now := done, landed;
    var point := join(chunks[i], stored);
    if point.Err? {
      StopsHere(join, job, chunks, found, i, stored);
      return Err(point.error), done, landed;
    }
    var grown := batch + [Drafted(job, point.value)];
    joined := done + [point.value];
    r, now := FlushWhen(|grown| >= size, store, job, collection, grown, size, base, joined, landed,
                        Joined(join, chunks, found, |chunks|), Stop(join, chunks, found));
  }

  lemma {:induction false} JoinedIsUnstopped(join: Joiner, chunks: seq<ChunkRow>, found: seq<Option<VectorRow>>)
    requires |found| == |chunks| && |Joined(join, chunks, found, |chunks|)| == |chunks|
    ensures Stop(join, chunks, found).None?
  {
  }

  /** What is left in the batch when the chunks are through. */
  method FlushRest(store: VectorStore, job: Job, collection: string, batch: seq<Point>, size: int, ghost base: Base,
                   ghost done: seq<Point>, ghost landed: seq<Point>, ghost stop: Option<WriteFailure>)
    returns (r: Result<nat, WriteFailure>, ghost now: seq<Point>)
    requires Landed(store, collection, base, landed, size)
    requires Progress(job, done, landed, batch, size) && |batch| < BatchSize(size)
    modifies store
    ensures r.Err? ==> GaveUp(store, collection, base, now, done, r.error, stop)
    ensures r.Ok? ==> Landed(store, collection, base, done, size) && now == done && |done| == |landed| + r.value
  {
    if batch == [] {
      assert landed + [] == landed;
      return Ok(0), landed;
    }
    r, now := FlushWaiting(store, job, collection, batch, size, base, done, landed, done, stop);
  }

  /** The loop of `_write_chunks`, for any chunks and any way of joining. */
  method WriteRows(store: VectorStore, lookup: OpenedVectors, job: Job, join: Joiner, chunks: seq<ChunkRow>,
                   collection: string, size: int, ghost found: seq<Option<VectorRow>>)
    returns (r: Result<nat, WriteFailure>, ghost landed: seq<Point>)
    requires Place(store.db, collection) in store.db.collections && Serves(join, job) && |found| == |chunks|
    requires lookup.Valid() && (job.reembed.None? ==> lookup.Ahead(ChunkIds(chunks)) == found)
    modifies store, lookup.cursor
    ensures var base := Base(old(store.db), Place(old(store.db), collection), old(store.batches), old(store.calls));
            var points, stop := Joined(join, chunks, found, |chunks|), Stop(join, chunks, found);
            && (r.Err? ==> GaveUp(store, collection, base, landed, points, r.error, stop))
            && (r.Ok? ==>
                  && Landed(store, collection, base, landed, size)
                  && landed == points && r.value == |points| && stop.None?)
  {
    ghost var points := Joined(join, chunks, found, |chunks|);
    ghost var base := Base(store.db, Place(store.db, collection), store.batches, store.calls);
    HoldingKeepsPlaces(base.db, base.place, [], collection);
    var batch: seq<Point>, count: nat := [], 0;
    ghost var done: seq<Point> := [];
    landed := [];
    assert ChunkIds(chunks)[0..] == ChunkIds(chunks) && found[0..] == found;
    for i := 0 to |chunks|
      invariant AtRow(i, store, lookup, job, join, chunks, collection, size, base, found, done, landed, batch)
      invariant count == |landed|
    {
      var written;
      written, done, landed :=
        WriteNext(store, lookup, job, join, chunks, i, collection, batch, size, base, found, done, landed);
      if written.Err? {
        return Err(written.error), landed;
      }
      batch, count := written.value.0, count + written.value.1;
    }
    JoinedIsUnstopped(join, chunks, found);
    var flushed;
    flushed, landed := FlushRest(store, job, collection, batch, size, base, done, landed, Stop(join, chunks, found));
    r := if flushed.Ok? then Ok(count + flushed.value) else Err(flushed.error);
  }

  /**
  `_write_chunks`: stream the chunks, join, and write in batches. Every chunk is written,
  once, in order, unless a call fails or a chunk cannot be written; then that is the error,
  and some of the points an undisturbed run writes are left.
  */
  method WriteChunks(store: VectorStore, reader: ArchiveReader, job: Job, collection: string, size: int)
    returns (r: Result<ImportCounts, WriteFailure>, ghost landed: seq<Point>)
    requires Place(store.db, collection) in store.db.collections && InRange(reader.members, reader.vectorOffsets)
    modifies store
    ensures store.db == Holding(old(store.db), Place(old(store.db), collection), landed)
    ensures old(store.calls) <= store.calls
    ensures var points := ToWrite(job, reader.c, reader.members, reader.vectorOffsets);
            var stop := Stopping(job, reader.c, reader.members, reader.vectorOffsets);
            var outage := Outage(store.down, old(store.calls), store.calls);
            && PartOf(landed, points)
            && (r.Ok? <==> stop.None? && !outage)
            && (r.Err? ==> Explains(r.error, stop, outage))
            && (r.Ok? ==>
                  && landed == points && store.batches == old(store.batches) + Batches(points, size)
                  && r.value
                      == ImportCounts(|DocumentMap(RowsIn(reader.c.documents, reader.members, DOCUMENTS_NAME))|,
                                      |points|))
  {
    var documents := DocumentMap(RowsIn(reader.c.documents, reader.members, DOCUMENTS_NAME));
    var chunks := RowsIn(reader.c.chunks, reader.members, CHUNKS_NAME);
    var lookup := new OpenedVectors(reader);
    JoinerServes(job, documents);
    var n;
    n, landed := WriteRows(store, lookup, job, JoinerFor(job, documents), chunks, collection, size,
                           Found(reader.c, reader.members, reader.vectorOffsets, ChunkIds(chunks)));
    PrefixIsPart(landed, landed);
    r := if n.Ok? then Ok(ImportCounts(|documents|, n.value)) else Err(n.error);
  }

  // ---- The import ----

  /** What the target will be queried with; what it does not declare is not compared. */
  datatype Identity = Identity(model: string, modelVersion: Option<string>, dimensions: Option<int>)

  function Declared(dimensions: int): Option<int> {
    if dimensions == 0 then None else Some(dimensions)
  }

  /** `_target_identity`: the target's own lock when it has one, else the configured model. */
  function TargetIdentity(target: Settings): Identity {
    if target.lock.Some?
    then Identity(target.lock.value.model, Some(target.lock.value.modelVersion), Declared(target.lock.value.dimensions))
    else Identity(target.model, None, Declared(target.dimensions))
  }

  datatype Router = Router(embed: string -> seq<real>, model: string, modelVersion: string, dimensions: nat)

  datatype KeywordSettings = KeywordSettings(hybrid: bool, encode: string -> SparseVector)

  datatype Objection = NoRouter | NoVectors | DifferentEmbedding | UnknownWidth

  datatype ImportError =
    | NotAccepted(objection: Objection)
    | NotStarted(failure: BackendFailure)
    | RolledBack(cause: WriteFailure)
    | Mixture(cause: WriteFailure)
    | Stranded(cause: WriteFailure, failure: BackendFailure)

  /** `require_vector_copy_compatible` */
  function CopyRefusal(m: Manifest, target: Identity): Option<Objection> {
    if !m.includesVectors then Some(NoVectors)
    else if m.model != target.model
         || (target.modelVersion.Some? && m.modelVersion != target.modelVersion.value)
         || (target.dimensions.Some? && m.dimensions != target.dimensions.value)
    then Some(DifferentEmbedding)
    else None
  }

  function Width(m: Manifest, target: Settings, router: Option<Router>, vectors: seq<VectorRow>): int {
    if router.Some? then (if router.value.dimensions != 0 then router.value.dimensions else target.dimensions)
    else if m.dimensions != 0 then m.dimensions
    else if target.dimensions != 0 then target.dimensions
    else if vectors != [] then |vectors[0].vector| else 0
  }

  /**
  Why an import does not start: a router is needed to re-embed, a matching identity to copy,
  and a width either way.
  */
  function StartRefusal(m: Manifest, target: Settings, reembed: bool, router: Option<Router>,
                        vectors: seq<VectorRow>): Option<Objection> {
    if reembed && router.None? then Some(NoRouter)
    else if !reembed && CopyRefusal(m, TargetIdentity(target)).Some? then CopyRefusal(m, TargetIdentity(target))
    else if Width(m, target, if reembed then router else None, vectors) == 0 then Some(UnknownWidth)
    else None
  }

  function JobOf(m: Manifest, router: Option<Router>, keywords: KeywordSettings): Job {
    if router.Some?
    then Job(Some(router.value.embed), router.value.model, router.value.modelVersion, keywords.hybrid, keywords.encode)
    else Job(None, m.model, m.modelVersion, keywords.hybrid, keywords.encode)
  }

  /** What an import sets out to do, worked out before anything is written. */
  datatype Plan = Plan(refusal: Option<Objection>, collection: string, shape: Shape, points: seq<Point>,
                       stop: Option<WriteFailure>, counts: ImportCounts, lock: Lock) {
    /** The collection that is written. */
    function Target(db: Database): string {
      Place(db, collection)
    }

    /** The database with that collection opened. */
    function Start(db: Database): (start: Database)
      ensures Target(db) in start.collections
    {
      db.(collections := Opened(db.collections, Target(db), shape))
    }

    function With(db: Database, points: seq<Point>): Database {
      Holding(Start(db), Target(db), points)
    }

    /** The database after a completed import. */
    function Done(db: Database): Database {
      With(db, points)
    }

    predicate Fits(db: Database) {
      FitsIn(db.collections, Target(db), shape)
    }

    /** Nothing but a failing call can keep the import from completing. */
    predicate CanComplete(db: Database) {
      refusal.None? && Fits(db) && stop.None?
    }
  }

  function HashesOf(documents: map<string, DocumentRow>): map<string, string> {
    map id | id in documents :: documents[id].contentHash
  }

  /** `describe` is the rest of a lock: the configuration and the documents it was built from. */
  function PlanFor(c: Codecs, members: Bundle, offsets: Option<map<string, nat>>, m: Manifest, target: Settings,
                   keywords: KeywordSettings, collection: string, reembed: bool, router: Option<Router>,
                   describe: map<string, string> -> string): Plan
    requires InRange(members, offsets)
  {
    var used := if reembed then router else None;
    var job, vectors := JobOf(m, used, keywords), RowsIn(c.vectors, members, VECTORS_NAME);
    var width, points := Width(m, target, used, vectors), ToWrite(job, c, members, offsets);
    var documents := DocumentMap(RowsIn(c.documents, members, DOCUMENTS_NAME));
    Plan(StartRefusal(m, target, reembed, router, vectors), collection, Shape(width, target.distance, keywords.hybrid),
         points, Stopping(job, c, members, offsets), ImportCounts(|documents|, |points|),
         Lock(job.model, job.modelVersion, width, describe(HashesOf(documents))))
  }

  /** How a failed import leaves the database. What is dropped is what goes by the name asked for. */
  ghost predicate LeftAs(e: ImportError, p: Plan, before: Database, now: Database, landed: seq<Point>) {
    match e
    case Mixture(_) => p.collection in before.collections && now == p.With(before, landed)
    case Stranded(_, _) => p.collection !in before.collections && now == p.With(before, landed)
    case RolledBack(_) => p.collection !in before.collections && now == Dropping(p.With(before, landed), p.collection)
    case _ => now == before
  }

  /** What a failed import is blamed on. */
  ghost predicate Because(e: ImportError, p: Plan, before: Database, outage: bool) {
    if p.refusal.Some? then e == NotAccepted(p.refusal.value)
    else
      match e
      case NotStarted(_) => outage || !p.Fits(before)
      case Mixture(cause) => p.Fits(before) && Explains(cause, p.stop, outage)
      case RolledBack(cause) => p.Fits(before) && Explains(cause, p.stop, outage)
      case Stranded(cause, _) =>
        p.Fits(before) && outage && (Explains(cause, p.stop, true) || Explains(cause, p.stop, false))
      case _ => false
  }

  /**
  How an import ends. It completes exactly when nothing stands in its way and no call fails.
  A refusal touches nothing; a failure after that is explained, and is rolled back by a drop
  or leaves some of the points and says so.
  */
  ghost predicate Ends(p: Plan, before: Database, a: Attempt) {
    && PartOf(a.landed, p.points)
    && (a.r.Ok? <==> p.CanComplete(before) && !a.outage)
    && (a.r.Ok? ==> a.r.value == p.counts && a.landed == p.points && a.now == p.Done(before))
    && (a.r.Err? ==> LeftAs(a.r.error, p, before, a.now, a.landed) && Because(a.r.error, p, before, a.outage))
  }

  /** One import that was tried: its result, what it wrote, whether a call failed, and the database it left. */
  datatype Attempt = Attempt(r: Result<ImportCounts, ImportError>, landed: seq<Point>, outage: bool, now: Database)

  lemma {:induction false} NotStartedEnds(p: Plan, before: Database, e: BackendFailure, outage: bool)
    requires p.refusal.None? && (outage || !p.Fits(before))
    ensures Ends(p, before, Attempt(Err(NotStarted(e)), [], outage, before))
  {
  }

  lemma {:induction false} CompletedEnds(p: Plan, before: Database)
    requires p.CanComplete(before)
    ensures Ends(p, before, Attempt(Ok(p.counts), p.points, false, p.Done(before)))
  {
    PrefixIsPart(p.points, p.points);
  }

  /** What `_abandon` makes of a failure that `outage` explains, in a drop that works or does not. */
  lemma {:induction false} AbandonedEnds(p: Plan, before: Database, cause: WriteFailure, outage: bool, e: ImportError,
                                         dropFailed: bool, now: Database, landed: seq<Point>)
    requires p.refusal.None? && p.Fits(before) && Explains(cause, p.stop, outage) && PartOf(landed, p.points)
    requires LeftAs(e, p, before, now, landed)
    requires if dropFailed then e.Stranded? && e.cause == cause else e == Mixture(cause) || e == RolledBack(cause)
    ensures Ends(p, before, Attempt(Err(e), landed, outage || dropFailed, now))
  {
  }

  /**
  `_abandon`: drop the collection this import is taken to have created, or say that it could
  not be undone. Whether the drop found anything is not asked.
  */
  method Abandon(store: VectorStore, created: bool, cause: WriteFailure, ghost p: Plan, collection: string,
                 ghost before: Database, ghost landed: seq<Point>)
    returns (e: ImportError)
    requires p.collection == collection && (created <==> collection !in before.collections)
    requires store.db == p.With(before, landed)
    modifies store`calls, store`db
    ensures LeftAs(e, p, before, store.db, landed)
    ensures !created ==> e == Mixture(cause) && store.calls == old(store.calls)
    ensures created ==>
              && store.calls == old(store.calls) + 1
              && if store.down(old(store.calls)) then e.Stranded? && e.cause == cause else e == RolledBack(cause)
  {
    if !created {
      return Mixture(cause);
    }
    var dropped := store.DropCollection(collection);
    if dropped.Err? {
      return Stranded(cause, dropped.error);
    }
    e := RolledBack(cause);
  }

  /** The plan is for this archive, this job and this collection. */
  ghost predicate PlansFor(p: Plan, reader: ArchiveReader, job: Job, collection: string)
    reads reader
  {
    && InRange(reader.members, reader.vectorOffsets) && p.collection == collection
    && p.points == ToWrite(job, reader.c, reader.members, reader.vectorOffsets)
    && p.stop == Stopping(job, reader.c, reader.members, reader.vectorOffsets)
    && p.counts == ImportCounts(|DocumentMap(RowsIn(reader.c.documents, reader.members, DOCUMENTS_NAME))|, |p.points|)
  }

  /** The `try` of `import_archive`: write into the opened collection, and abandon it on a failure. */
  method WriteOrAbandon(store: VectorStore, reader: ArchiveReader, job: Job, collection: string, size: int,
                        created: bool, ghost p: Plan, ghost before: Database, ghost since: nat)
    returns (r: Result<ImportCounts, ImportError>, ghost landed: seq<Point>)
    requires PlansFor(p, reader, job, collection) && p.refusal.None? && p.Fits(before)
    requires store.db == p.Start(before) && (created <==> collection !in before.collections)
    requires since <= store.calls && !Outage(store.down, since, store.calls)
    modifies store
    ensures old(store.calls) <= store.calls
    ensures Ends(p, before, Attempt(r, landed, Outage(store.down, since, store.calls), store.db))
    ensures r.Ok? ==> store.batches == old(store.batches) + Batches(p.points, size)
  {
    ghost var from := store.calls;
    StartKeepsPlace(p, before);
    var counts;
    counts, landed := WriteChunks(store, reader, job, collection, size);
    ghost var reached := store.calls;
    OutageSplits(store.down, since, from, reached);
    if counts.Ok? {
      CompletedEnds(p, before);
      return Ok(counts.value), landed;
    }
    var e := Abandon(store, created, counts.error, p, collection, before, landed);
    OneCallIsAnOutage(store.down, since, reached);
    AbandonedEnds(p, before, counts.error, Outage(store.down, since, reached), e, created && store.down(reached),
                  store.db, landed);
    r := Err(e);
  }

  /** Opening the collection changes nothing about what its name stands for. */
  lemma {:induction false} StartKeepsPlace(p: Plan, db: Database)
    ensures p.Target(p.Start(db)) == p.Target(db)
  {
  }

  /** Make sure the collection is there, and say whether none of that name was listed. */
  method OpenCollection(store: VectorStore, collection: string, shape: Shape)
    returns (created: Result<bool, BackendFailure>)
    modifies store`calls, store`db
    ensures old(store.calls) <= store.calls
    ensures created.Err? <==>
              || Outage(store.down, old(store.calls), store.calls)
              || !FitsIn(old(store.db).collections, Place(old(store.db), collection), shape)
    ensures created.Err? ==> store.db == old(store.db)
    ensures created.Ok? ==>
              && created.value == (collection !in old(store.db).collections)
              && store.db == old(store.db).(collections := Opened(old(store.db).collections,
                                                                  Place(old(store.db), collection), shape))
  {
    ghost var since := store.calls;
    OneCallIsAnOutage(store.down, since, since);
    var listed := store.ListCollections();
    if listed.Err? {
      return Err(listed.error);
    }
    OneCallIsAnOutage(store.down, since, store.calls);
    var opening := store.CreateCollection(collection, shape);
    created := if opening.Err? then Err(opening.error) else Ok(collection !in listed.value);
  }

  /** The part of `import_archive` that touches the database. */
  method ImportInto(store: VectorStore, reader: ArchiveReader, job: Job, collection: string, shape: Shape, size: int,
                    ghost p: Plan)
    returns (r: Result<ImportCounts, ImportError>, ghost landed: seq<Point>)
    requires PlansFor(p, reader, job, collection) && p.refusal.None? && p.shape == shape
    modifies store
    ensures old(store.calls) <= store.calls
    ensures Ends(p, old(store.db), Attempt(r, landed, Outage(store.down, old(store.calls), store.calls), store.db))
    ensures r.Ok? ==> store.batches == old(store.batches) + Batches(p.points, size)
  {
    ghost var before, since := store.db, store.calls;
    var created := OpenCollection(store, collection, shape);
    if created.Err? {
      NotStartedEnds(p, before, created.error, Outage(store.down, since, store.calls));
      return Err(NotStarted(created.error)), [];
    }
    r, landed := WriteOrAbandon(store, reader, job, collection, size, created.value, p, before, since);
  }

  /** The lockfiles. A lock that cannot be written is only logged. */
  class LockStore {
    const enabled: bool
    /** The directory of the locks cannot be written. */
    const broken: bool
    const describe: map<string, string> -> string
    var locks: map<string, Lock>

    constructor (enabled: bool, broken: bool, describe: map<string, string> -> string, locks: map<string, Lock>)
      ensures this.enabled == enabled && this.broken == broken && this.describe == describe && this.locks == locks
    {
      this.enabled, this.broken, this.describe, this.locks := enabled, broken, describe, locks;
    }

    function Held(collection: string): Option<Lock>
      reads this
    {
      if collection in locks then Some(locks[collection]) else None
    }

    method Write(collection: string, lock: Lock)
      modifies this
      ensures locks == if enabled && !broken then old(locks)[collection := lock] else old(locks)
    {
      if enabled {
        if !broken {
          locks := locks[collection := lock];
        }
      }
    }
  }

  /** `import_archive`: ends as `Ends` says, and a completed import records in its lock what it built. */
  method ImportArchive(store: VectorStore, lockStore: LockStore, reader: ArchiveReader, settings: Settings,
                       keywords: KeywordSettings, collection: string, reembed: bool, router: Option<Router>, size: int)
    returns (r: Result<ImportCounts, ImportError>, ghost landed: seq<Point>)
    requires reader.manifest.Some? && InRange(reader.members, reader.vectorOffsets)
    modifies store, lockStore
    ensures old(store.calls) <= store.calls
    ensures var p := PlanFor(reader.c, reader.members, reader.vectorOffsets, reader.manifest.value,
                             settings.(lock := old(lockStore.Held(collection))), keywords, collection, reembed, router,
                             lockStore.describe);
            && Ends(p, old(store.db), Attempt(r, landed, Outage(store.down, old(store.calls), store.calls), store.db))
            && (r.Ok? ==> store.batches == old(store.batches) + Batches(p.points, size))
            && lockStore.locks == if r.Ok? && lockStore.enabled && !lockStore.broken
                                  then old(lockStore.locks)[collection := p.lock] else old(lockStore.locks)
  {
    var m, target := reader.manifest.value, settings.(lock := lockStore.Held(collection));
    var vectors := RowsIn(reader.c.vectors, reader.members, VECTORS_NAME);
    ghost var p :=
        PlanFor(reader.c, reader.members, reader.vectorOffsets, m, target, keywords, collection, reembed, router,
                           lockStore.describe);
    var refusal := StartRefusal(m, target, reembed, router, vectors);
    if refusal.Some? {
      return Err(NotAccepted(refusal.value)), [];
    }
    var used := if reembed then router else None;
    var job, width := JobOf(m, used, keywords), Width(m, target, used, vectors);
    r, landed := ImportInto(store, reader, job, collection, Shape(width, target.distance, keywords.hybrid), size, p);
    if r.Ok? {
      var documents := DocumentMap(RowsIn(reader.c.documents, reader.members, DOCUMENTS_NAME));
      lockStore.Write(collection, Lock(job.model, job.modelVersion, width, lockStore.describe(HashesOf(documents))));
    }
  }

  datatype RunError = NotOpened(refusal: OpenError) | NotImported(failure: ImportError)

  /** What the importer makes of a sound archive, from its staged members on. */
  ghost function PlanOf(c: Codecs, members: Bundle, target: Settings, keywords: KeywordSettings, collection: string,
                        reembed: bool, router: Option<Router>, describe: map<string, string> -> string): Plan
    requires ManifestOf(c, members).Some?
  {
    OpenedOffsetsAreInRange(c, members);
    PlanFor(c, members, OffsetsKept(c, members), ManifestOf(c, members).value, target, keywords, collection, reembed,
            router, describe)
  }

  /**
  The import command: open the archive, and import what was opened. An archive that is not sound is
  refused before anything is asked of the database; a sound one is imported as planned.
  */
  method RunImport(store: VectorStore, lockStore: LockStore, c: Codecs, sha: string -> string,
                   archive: seq<Staging.Member>, settings: Settings, keywords: KeywordSettings, collection: string,
                   reembed: bool, router: Option<Router>, size: int)
    returns (r: Result<ImportCounts, RunError>, ghost landed: seq<Point>)
    modifies store, lockStore
    ensures r.Err? && r.error.NotOpened? <==> !Sound(c, sha, archive)
    ensures r.Err? && r.error.NotOpened? ==>
              store.db == old(store.db) && store.calls == old(store.calls) && lockStore.locks == old(lockStore.locks)
    ensures Sound(c, sha, archive) ==>
              var staged := Staging.StagedFrom(sha, archive, Staging.MAXIMUM_TOTAL_BYTES);
              staged.Ok? && ManifestOf(c, Contents(staged.value)).Some? &&
              var p := PlanOf(c, Contents(staged.value), settings.(lock := old(lockStore.Held(collection))), keywords,
                              collection, reembed, router, lockStore.describe);
              && old(store.calls) <= store.calls
              && Ends(p, old(store.db),
                      Attempt(if r.Ok? then Ok(r.value) else Err(r.error.failure), landed,
                              Outage(store.down, old(store.calls), store.calls), store.db))
              && lockStore.locks == if r.Ok? && lockStore.enabled && !lockStore.broken
                                    then old(lockStore.locks)[collection := p.lock] else old(lockStore.locks)
  {
    landed := [];
    var opening := OpenArchive(c, sha, archive);
    if opening.Err? {
      return Err(NotOpened(opening.error)), [];
    }
    var reader := opening.value;
    OpenedOffsetsAreInRange(c, reader.members);
    var counts;
    counts, landed := ImportArchive(store, lockStore, reader, settings, keywords, collection, reembed, router, size);
    r := if counts.Ok? then Ok(counts.value) else Err(NotImported(counts.error));
  }

  // ---- Which space an import is in ----

  /** The vectors of the archive are of the space that the target is queried in, as far as it declares one. */
  predicate OfTheTargetsSpace(m: Manifest, target: Settings) {
    match target.lock
    case Some(lock) =>
      && m.model == lock.model && m.modelVersion == lock.modelVersion
      && (lock.dimensions != 0 ==> m.dimensions == lock.dimensions)
    case None => m.model == target.model && (target.dimensions != 0 ==> m.dimensions == target.dimensions)
  }

  /** Some width is known to a vector copy. */
  predicate CopyHasAWidth(m: Manifest, target: Settings, vectors: seq<VectorRow>) {
    m.dimensions != 0 || target.dimensions != 0 || (vectors != [] && vectors[0].vector != [])
  }

  /**
  A vector copy gets past its start exactly when the archive has vectors, of the space of the
  target's lock or else of its settings, and some width is known; the first of these that fails
  is the objection.
  */
  lemma {:induction false} CopyStartsExactly(c: Codecs, members: Bundle, offsets: Option<map<string, nat>>, m: Manifest,
                                             target: Settings, keywords: KeywordSettings, collection: string,
                                             router: Option<Router>, describe: map<string, string> -> string,
                                             before: Database, a: Attempt)
    requires InRange(members, offsets)
    requires Ends(PlanFor(c, members, offsets, m, target, keywords, collection, false, router, describe), before, a)
    ensures var vectors := RowsIn(c.vectors, members, VECTORS_NAME);
            && (a.r.Err? && a.r.error.NotAccepted? <==>
                !(m.includesVectors && OfTheTargetsSpace(m, target) && CopyHasAWidth(m, target, vectors)))
            && (a.r.Err? && a.r.error.NotAccepted? ==>
                  a.r.error.objection == if !m.includesVectors then NoVectors
                                         else if !OfTheTargetsSpace(m, target) then DifferentEmbedding
                                         else UnknownWidth)
  {
  }

  /** Re-embedding asks for a router and a width, and never for what the archive was embedded with. */
  lemma {:induction false} ReembeddingStartsExactly(c: Codecs, members: Bundle, offsets: Option<map<string, nat>>,
                                                    m: Manifest, target: Settings, keywords: KeywordSettings,
                                                    collection: string, router: Option<Router>,
                                                    describe: map<string, string> -> string, before: Database,
                                                    a: Attempt)
    requires InRange(members, offsets)
    requires Ends(PlanFor(c, members, offsets, m, target, keywords, collection, true, router, describe), before, a)
    ensures a.r.Err? && a.r.error.NotAccepted? <==>
              !(router.Some? && (router.value.dimensions != 0 || target.dimensions != 0))
    ensures a.r.Err? && a.r.error.NotAccepted? ==>
              a.r.error.objection == if router.None? then NoRouter else UnknownWidth
    ensures var p := PlanFor(c, members, offsets, m, target, keywords, collection, true, router, describe);
            p.refusal.None? ==>
              && p.lock.dimensions == p.shape.dimensions
              && p.shape.dimensions == if router.value.dimensions != 0 then router.value.dimensions
                                       else target.dimensions
  {
  }

  lemma {:induction false} AnswersAreOfTheirIds(rows: seq<VectorRow>, ids: seq<string>, i: nat)
    requires i < |ids|
    ensures var answer := V.LockstepAnswers(rows, ids)[i];
            answer.Some? ==> answer.value in rows && answer.value.chunkId == ids[i]
    decreases ids
  {
    if i > 0 {
      AnswersAreOfTheirIds(V.Lockstep(rows, ids[0]).1, ids[1..], i - 1);
    }
  }

  /** Whatever the lookup finds for a chunk is a vector row of that chunk. */
  lemma {:induction false} FoundRowIsTheChunks(c: Codecs, members: Bundle, ids: seq<string>, i: nat)
    requires i < |ids|
    ensures InRange(members, OffsetsKept(c, members))
    ensures var found := Found(c, members, OffsetsKept(c, members), ids)[i];
            found.Some? ==> found.value in RowsIn(c.vectors, members, VECTORS_NAME) && found.value.chunkId == ids[i]
  {
    var rows := RowsIn(c.vectors, members, VECTORS_NAME);
    OpenedOffsetsAreInRange(c, members);
    match OffsetsKept(c, members) {
      case Some(offsets) =>
        SoughtAt(c, members[VECTORS_NAME], offsets, ids, i);
        V.SeekingRefinesKeyedLookup(c.vectors, members[VECTORS_NAME], ids[i]);
        V.KeyedExactlyWhenPresent(rows, ids[i]);
      case None => AnswersAreOfTheirIds(rows, ids, i);
    }
  }

  /** A point made of this chunk names that model, and carries the vector and the keyword leg that belong to it. */
  ghost predicate MadeOf(point: Point, chunk: ChunkRow, model: string, modelVersion: string, router: Option<Router>,
                         vectors: seq<VectorRow>, keywords: KeywordSettings) {
    && point.id == chunk.chunkId && Get(point.payload, "text") == Str(chunk.text)
    && Get(point.payload, "embedding_model") == Str(model)
    && Get(point.payload, "embedding_model_version") == Str(modelVersion)
    && match router
       case Some(r) =>
         && model == r.model && modelVersion == r.modelVersion && point.vector == r.embed(chunk.text)
         && point.sparse == (if keywords.hybrid then Some(keywords.encode(chunk.text)) else None)
       case None =>
         exists row :: row in vectors && row.chunkId == chunk.chunkId && point.vector == row.vector
           && Copied(point.sparse, row.sparse, chunk.text, keywords)
  }

  /** The postings of an archive are carried; a chunk that came without any has its own text encoded. */
  ghost predicate Copied(leg: Option<SparseVector>, archived: Option<Sparse>, text: string, keywords: KeywordSettings) {
    if !keywords.hybrid then leg.None?
    else leg.Some? && leg.value == if archived.Some? then archived.value else keywords.encode(text)
  }

  lemma {:induction false} JoinedPointIsMadeOf(m: Manifest, router: Option<Router>, keywords: KeywordSettings,
                                               documents: map<string, DocumentRow>, chunk: ChunkRow,
                                               found: Option<VectorRow>, vectors: seq<VectorRow>)
    requires found.Some? ==> found.value in vectors && found.value.chunkId == chunk.chunkId
    ensures var job := JobOf(m, router, keywords);
            var point := PointFor(job, documents, chunk, found);
            point.Ok? ==>
              && MadeOf(point.value, chunk, job.model, job.modelVersion, router, vectors, keywords)
              && (router.None? ==> job.model == m.model && job.modelVersion == m.modelVersion)
  {
    var job := JobOf(m, router, keywords);
    var document := if chunk.documentId in documents then Some(documents[chunk.documentId]) else None;
    NamedFieldsAreRestored(chunk, document, job.model, job.modelVersion);
    var payload := RestoredPayload(chunk, document, job.model, job.modelVersion);
    assert PointFor(job, documents, chunk, found).Ok? ==>
        PointFor(job, documents, chunk, found).value.payload == payload;
  }

  /**
  An import that completes has made one point of every chunk, in order, and all of them and the
  lock name one model: the router's, which embedded each text, or else the archive's, which is the
  target's own.
  */
  lemma {:induction false} CompletedImportIsOfOneSpace(c: Codecs, members: Bundle, m: Manifest, target: Settings,
                                                       keywords: KeywordSettings, collection: string, reembed: bool,
                                                       router: Option<Router>, describe: map<string, string> -> string,
                                                       before: Database, a: Attempt)
    requires InRange(members, OffsetsKept(c, members))
    requires var p := PlanFor(c, members, OffsetsKept(c, members), m, target, keywords, collection, reembed, router,
                              describe);
             Ends(p, before, a) && a.r.Ok?
    ensures var lock := PlanFor(c, members, OffsetsKept(c, members), m, target, keywords, collection, reembed, router,
                                describe).lock;
            var chunks, vectors := RowsIn(c.chunks, members, CHUNKS_NAME), RowsIn(c.vectors, members, VECTORS_NAME);
            var used := if reembed then router else None;
            && |a.landed| == |chunks|
            && (forall i :: 0 <= i < |chunks| ==>
                  MadeOf(a.landed[i], chunks[i], lock.model, lock.modelVersion, used, vectors, keywords))
            && (!reembed ==>
                  lock.model == m.model && lock.modelVersion == m.modelVersion && OfTheTargetsSpace(m, target))
  {
    var chunks, vectors := RowsIn(c.chunks, members, CHUNKS_NAME), RowsIn(c.vectors, members, VECTORS_NAME);
    var used, ids := if reembed then router else None, ChunkIds(chunks);
    var documents := DocumentMap(RowsIn(c.documents, members, DOCUMENTS_NAME));
    var found := Found(c, members, OffsetsKept(c, members), ids);
    JoinedIsCompleteExactly(JoinerFor(JobOf(m, used, keywords), documents), chunks, found, |chunks|);
    forall i | 0 <= i < |chunks|
      ensures var job := JobOf(m, used, keywords);
              MadeOf(a.landed[i], chunks[i], job.model, job.modelVersion, used, vectors, keywords)
    {
      FoundRowIsTheChunks(c, members, ids, i);
      JoinedPointIsMadeOf(m, used, keywords, documents, chunks[i], found[i], vectors);
    }
  }

  /**
  What a completed import leaves: in the collection that the name stands for, itself or the one
  behind an alias, every id holds the archive's last point of that id or else what it held before;
  that collection is as it was created, or fits if it was there; and no other collection and no
  alias has changed.
  */
  lemma {:induction false} CompletedImportHoldsTheArchive(p: Plan, before: Database, a: Attempt, id: string,
                                                          other: string)
    requires Ends(p, before, a) && a.r.Ok?
    ensures var name := if p.collection !in before.collections && p.collection in before.aliases
                           && before.aliases[p.collection] in before.collections
                        then before.aliases[p.collection] else p.collection;
            var held := if name in before.collections then before.collections[name].points else map[];
            && name in a.now.collections && a.now.aliases == before.aliases
            && var kept := a.now.collections[name];
            && (if name in before.collections
                then kept.shape == before.collections[name].shape && kept.shape.dimensions == p.shape.dimensions
                     && kept.shape.distance == p.shape.distance && (p.shape.sparse ==> kept.shape.sparse)
                else kept.shape == p.shape)
            && (id in kept.points <==> id in held || exists i :: 0 <= i < |p.points| && p.points[i].id == id)
            && (id in kept.points ==>
                  || (exists i :: 0 <= i < |p.points| && p.points[i].id == id && kept.points[id] == p.points[i]
                                  && forall j :: i < j < |p.points| ==> p.points[j].id != id)
                  || (id in held && kept.points[id] == held[id]
                      && forall j :: 0 <= j < |p.points| ==> p.points[j].id != id))
            && (other != name ==>
                  && (other in a.now.collections <==> other in before.collections)
                  && (other in before.collections ==> a.now.collections[other] == before.collections[other]))
  {
    var name := p.Target(before);
    var held := p.Start(before).collections[name].points;
    UpsertedAt(held, p.points, id);
    LastIsTheLast(p.points, id);
  }

  lemma {:induction false} LastIsTheLast(points: seq<Point>, id: string)
    ensures match LastWith(points, id)
            case Some(point) =>
              exists i :: 0 <= i < |points| && points[i].id == id && points[i] == point
                          && forall j :: i < j < |points| ==> points[j].id != id
            case None => forall j :: 0 <= j < |points| ==> points[j].id != id
  {
    if points != [] && points[|points| - 1].id != id {
      var fewer := points[..|points| - 1];
      LastIsTheLast(fewer, id);
      if LastWith(points, id).Some? {
        var i :| 0 <= i < |fewer| && fewer[i].id == id && fewer[i] == LastWith(points, id).value
                 && forall j :: i < j < |fewer| ==> fewer[j].id != id;
        assert points[i] == fewer[i];
        forall j | i < j < |points| ensures points[j].id != id {
          assert j < |fewer| ==> points[j] == fewer[j];
        }
      } else {
        forall j | 0 <= j < |points| ensures points[j].id != id {
          assert j < |fewer| ==> points[j] == fewer[j];
        }
      }
    }
  }

  lemma {:induction false} LastDocumentWins(rows: seq<DocumentRow>, id: string)
    ensures id in DocumentMap(rows) <==> exists i :: 0 <= i < |rows| && rows[i].documentId == id
    ensures id in DocumentMap(rows) ==>
              exists i :: 0 <= i < |rows| && rows[i].documentId == id && DocumentMap(rows)[id] == rows[i]
                          && forall j :: i < j < |rows| ==> rows[j].documentId != id
  {
    if rows != [] && rows[|rows| - 1].documentId != id {
      var fewer := rows[..|rows| - 1];
      LastDocumentWins(fewer, id);
      if id in DocumentMap(fewer) {
        var i :| 0 <= i < |fewer| && fewer[i].documentId == id && DocumentMap(fewer)[id] == fewer[i]
                 && forall j :: i < j < |fewer| ==> fewer[j].documentId != id;
        assert rows[i] == fewer[i];
        forall j | i < j < |rows| ensures rows[j].documentId != id {
          assert j < |fewer| ==> rows[j] == fewer[j];
        }
      }
      if i :| 0 <= i < |rows| && rows[i].documentId == id {
        assert fewer[i] == rows[i];
      }
    }
  }

  /** The lock an import records is described by the content hash of each document, as its last row has it. */
  lemma {:induction false} LockRecordsTheDocuments(c: Codecs, members: Bundle, offsets: Option<map<string, nat>>,
                                                   m: Manifest, target: Settings, keywords: KeywordSettings,
                                                   collection: string, reembed: bool, router: Option<Router>,
                                                   describe: map<string, string> -> string, id: string)
    returns (hashes: map<string, string>)
    requires InRange(members, offsets)
    ensures PlanFor(c, members, offsets, m, target, keywords, collection, reembed, router, describe).lock.text
         == describe(hashes)
    ensures var rows := RowsIn(c.documents, members, DOCUMENTS_NAME);
            && (id in hashes <==> exists i :: 0 <= i < |rows| && rows[i].documentId == id)
            && (id in hashes ==>
                  exists i :: 0 <= i < |rows| && rows[i].documentId == id && hashes[id] == rows[i].contentHash
                              && forall j :: i < j < |rows| ==> rows[j].documentId != id)
  {
    var rows := RowsIn(c.documents, members, DOCUMENTS_NAME);
    hashes := HashesOf(DocumentMap(rows));
    LastDocumentWins(rows, id);
  }

  /** The width of the first row that has a vector, zero when there is none. */
  function FirstWidth(vectors: seq<VectorRow>): nat {
    if vectors == [] then 0
    else if vectors[0].vector != [] then |vectors[0].vector| else FirstWidth(vectors[1..])
  }

  lemma {:induction false} FirstWidthIsOfARow(vectors: seq<VectorRow>)
    ensures FirstWidth(vectors) == 0 <==> forall i :: 0 <= i < |vectors| ==> vectors[i].vector == []
    ensures FirstWidth(vectors) != 0 ==>
              exists i :: 0 <= i < |vectors| && |vectors[i].vector| == FirstWidth(vectors)
                && forall j :: 0 <= j < i ==> vectors[j].vector == []
  {
    if vectors != [] && vectors[0].vector == [] {
      FirstWidthIsOfARow(vectors[1..]);
      if FirstWidth(vectors) != 0 {
        var i :| 0 <= i < |vectors[1..]| && |vectors[1..][i].vector| == FirstWidth(vectors)
                 && forall j :: 0 <= j < i ==> vectors[1..][j].vector == [];
        assert |vectors[i + 1].vector| == FirstWidth(vectors);
        assert forall j :: 0 < j < i + 1 ==> vectors[j].vector == vectors[1..][j - 1].vector;
      }
    }
  }

  /** The width rows are held to by an archive's checks, one way or the other. */
  ghost predicate OneWidth(declared: int, vectors: seq<VectorRow>) {
    if declared != 0 then forall row :: row in vectors ==> |row.vector| == declared
    else forall row :: row in vectors && row.vector != [] ==> |row.vector| == FirstWidth(vectors)
  }

  lemma {:induction false} AgreeingWidthsAreOne(declared: int, vectors: seq<VectorRow>)
    requires WidthsAgree(declared, vectors)
    ensures OneWidth(declared, vectors)
  {
    WidthsAgreeExactly(declared, vectors);
    FirstWidthIsOfARow(vectors);
  }

  lemma {:induction false} CopyWidthFitsExactly(m: Manifest, target: Settings, vectors: seq<VectorRow>)
    requires OneWidth(m.dimensions, vectors) && StartRefusal(m, target, false, None, vectors).None?
    ensures var width := Width(m, target, None, vectors);
            && width != 0
            && ((forall row :: row in vectors && row.vector != [] ==> |row.vector| == width)
                <==> m.dimensions != 0 || target.dimensions == 0 || FirstWidth(vectors) in {0, target.dimensions})
            && (m.dimensions == 0 && target.dimensions != 0 ==> target.lock.Some? && target.lock.value.dimensions == 0)
  {
    FirstWidthIsOfARow(vectors);
    if m.dimensions == 0 && target.dimensions != 0 && FirstWidth(vectors) != 0 {
      var i :| 0 <= i < |vectors| && |vectors[i].vector| == FirstWidth(vectors);
      assert vectors[i] in vectors;
    }
  }

  /**
  The collection a vector copy of a verified archive opens is as wide as every vector of the
  archive, unless the manifest states no width and the settings another than the rows have, which
  only a lock without a width lets through.
  */
  lemma {:induction false} CopyIsAsWideAsItsVectorsExactly(c: Codecs, sha: string -> string, members: Bundle,
                                                           target: Settings, keywords: KeywordSettings,
                                                           collection: string, router: Option<Router>,
                                                           describe: map<string, string> -> string)
    requires Verdict(c, sha, members).None? && InRange(members, OffsetsKept(c, members))
    requires ManifestOf(c, members).Some?
    requires PlanFor(c, members, OffsetsKept(c, members), ManifestOf(c, members).value, target, keywords, collection,
                     false, router, describe).refusal.None?
    ensures var m, vectors := ManifestOf(c, members).value, RowsIn(c.vectors, members, VECTORS_NAME);
            var p := PlanFor(c, members, OffsetsKept(c, members), m, target, keywords, collection, false, router,
                             describe);
            && p.lock.dimensions == p.shape.dimensions != 0
            && ((forall row :: row in vectors && row.vector != [] ==> |row.vector| == p.shape.dimensions)
                <==> m.dimensions != 0 || target.dimensions == 0 || FirstWidth(vectors) in {0, target.dimensions})
            && (m.dimensions == 0 && target.dimensions != 0 ==> target.lock.Some? && target.lock.value.dimensions == 0)
  {
    var m, vectors := ManifestOf(c, members).value, RowsIn(c.vectors, members, VECTORS_NAME);
    VerifiedWidthsAgree(c, sha, members);
    AgreeingWidthsAreOne(m.dimensions, vectors);
    CopyWidthFitsExactly(m, target, vectors);
  }

  lemma {:induction false} VerifiedWidthsAgree(c: Codecs, sha: string -> string, members: Bundle)
    requires Verdict(c, sha, members).None? && ManifestOf(c, members).Some?
    ensures WidthsAgree(ManifestOf(c, members).value.dimensions, RowsIn(c.vectors, members, VECTORS_NAME))
  {
  }

  // ---- Retrying ----

  function LastWith(points: seq<Point>, id: string): Option<Point> {
    if points == [] then None
    else if points[|points| - 1].id == id then Some(points[|points| - 1])
    else LastWith(points[..|points| - 1], id)
  }

  lemma {:induction false} UpsertedAt(held: Points, points: seq<Point>, id: string)
    ensures id in Upserted(held, points) <==> LastWith(points, id).Some? || id in held
    ensures id in Upserted(held, points) ==>
              Upserted(held, points)[id] == if LastWith(points, id).Some? then LastWith(points, id).value else held[id]
  {
    if points != [] {
      UpsertedAt(held, points[..|points| - 1], id);
    }
  }

  lemma {:induction false} PresentIdIsLast(points: seq<Point>, i: nat)
    requires i < |points|
    ensures LastWith(points, points[i].id).Some?
  {
    if i < |points| - 1 {
      PresentIdIsLast(points[..|points| - 1], i);
    }
  }

  lemma {:induction false} LastIsPresent(points: seq<Point>, id: string)
    ensures LastWith(points, id).Some? ==> LastWith(points, id).value in points && LastWith(points, id).value.id == id
  {
    if points != [] {
      LastIsPresent(points[..|points| - 1], id);
    }
  }

  /** What a failed attempt left behind does not show once the points are all written. */
  lemma {:induction false} PartialWritesAreOverwritten(held: Points, landed: seq<Point>, points: seq<Point>)
    requires PartOf(landed, points)
    ensures Upserted(Upserted(held, landed), points) == Upserted(held, points)
  {
    var once, again := Upserted(held, points), Upserted(Upserted(held, landed), points);
    forall id ensures (id in once <==> id in again) && (id in once ==> once[id] == again[id]) {
      UpsertedAt(held, points, id);
      UpsertedAt(held, landed, id);
      UpsertedAt(Upserted(held, landed), points, id);
      LastIsPresent(landed, id);
      if LastWith(landed, id).Some? {
        var j :| 0 <= j < |landed| && landed[j] == LastWith(landed, id).value;
        var i :| 0 <= i < |points| && points[i] == landed[j];
        PresentIdIsLast(points, i);
      }
    }
  }

  function After(before: Database, attempts: seq<Attempt>): Database {
    if attempts == [] then before else attempts[|attempts| - 1].now
  }

  /** Attempts at one plan, each from where the one before left off. */
  ghost predicate Tried(p: Plan, before: Database, attempts: seq<Attempt>) {
    attempts != [] ==>
      var n := |attempts| - 1;
      Tried(p, before, attempts[..n]) && Ends(p, After(before, attempts[..n]), attempts[n])
  }

  /** No alias points at a missing collection of this name; both ways of losing one take its aliases along. */
  predicate NoneDangles(db: Database, name: string) {
    name !in db.collections ==> forall alias :: alias in db.aliases ==> db.aliases[alias] != name
  }

  /** Between attempts: `now` is `before` but for part of the points, as far as the plan can tell. */
  ghost predicate SameBut(p: Plan, before: Database, now: Database, part: seq<Point>) {
    && PartOf(part, p.points) && p.Target(now) == p.Target(before)
    && p.Start(now).collections == p.With(before, part).collections
    && (NoneDangles(before, p.collection) ==> now.aliases == before.aliases && NoneDangles(now, p.collection))
  }

  /** What a drop after a failure undoes: nothing for an alias, and otherwise all of it. */
  lemma {:induction false} DroppingUndoes(p: Plan, before: Database, landed: seq<Point>)
    requires p.collection !in before.collections
    ensures var now := Dropping(p.With(before, landed), p.collection);
            && (IsAlias(before, p.collection) ==> now == p.With(before, landed))
            && (!IsAlias(before, p.collection) ==>
                  && now.collections == before.collections
                  && (now.aliases == before.aliases <==> NoneDangles(before, p.collection)))
  {
    var written := p.With(before, landed);
    var now := Dropping(written, p.collection);
    if !IsAlias(before, p.collection) {
      assert now.collections == before.collections;
      if NoneDangles(before, p.collection) {
        assert now.aliases == before.aliases;
      } else {
        var alias :| alias in before.aliases && before.aliases[alias] == p.collection;
        assert alias !in now.aliases;
      }
    }
  }

  lemma {:induction false} OneAttemptAddsPart(p: Plan, before: Database, a: Attempt) returns (part: seq<Point>)
    requires Ends(p, before, a)
    ensures SameBut(p, before, a.now, part)
  {
    part := [];
    HoldingKeepsPlaces(p.Start(before), p.Target(before), [], p.collection);
    if a.r.Err? && a.r.error.RolledBack? {
      DroppingUndoes(p, before, a.landed);
      part := if IsAlias(before, p.collection) then a.landed else [];
    } else if a.r.Ok? || a.r.error.Mixture? || a.r.error.Stranded? {
      part := a.landed;
    }
  }

  /** Whatever the attempts so far did, the collection, once opened, holds nothing new but points of the archive. */
  lemma {:induction false} AttemptsAddParts(p: Plan, before: Database, attempts: seq<Attempt>)
    returns (part: seq<Point>)
    requires Tried(p, before, attempts)
    ensures SameBut(p, before, After(before, attempts), part)
    ensures p.Fits(After(before, attempts)) <==> p.Fits(before)
  {
    if attempts == [] {
      part := [];
      HoldingKeepsPlaces(p.Start(before), p.Target(before), [], p.collection);
    } else {
      var n := |attempts| - 1;
      var first := AttemptsAddParts(p, before, attempts[..n]);
      var last := OneAttemptAddsPart(p, After(before, attempts[..n]), attempts[n]);
      HoldingInTurn(p.Start(before), p.Target(before), first, last);
      part := first + last;
    }
  }

  /**
  However many attempts were made, and wherever they broke off, the next one completes
  exactly when no call fails and a first attempt could have completed; and it then leaves
  what a single undisturbed import leaves.
  */
  lemma {:induction false} RetriesConverge(p: Plan, before: Database, attempts: seq<Attempt>, last: Attempt)
    requires Tried(p, before, attempts) && Ends(p, After(before, attempts), last)
    ensures last.r.Ok? <==> p.CanComplete(before) && !last.outage
    ensures last.r.Ok? ==> last.now.collections == p.Done(before).collections
    ensures last.r.Ok? && NoneDangles(before, p.collection) ==> last.now == p.Done(before)
  {
    var part := AttemptsAddParts(p, before, attempts);
    if last.r.Ok? {
      PartialWritesAreOverwritten(p.Start(before).collections[p.Target(before)].points, part, p.points);
    }
  }

  // ---- Rollback through an alias ----

  /** The database is as it was, or the caller is told that it is not. */
  ghost predicate ToldTruly(before: Database, a: Attempt) {
    a.r.Err? && (a.r.error.Mixture? || a.r.error.Stranded? || a.now == before)
  }

  /** Some point of the archive is not held as it is. */
  predicate Changes(p: Plan, db: Database) {
    var held := p.Start(db).collections[p.Target(db)].points;
    exists i :: 0 <= i < |p.points| && !(p.points[i].id in held && held[p.points[i].id] == p.points[i])
  }

  lemma {:induction false} HeldPointsChangeNothing(held: Points, landed: seq<Point>)
    requires forall i :: 0 <= i < |landed| ==> landed[i].id in held && held[landed[i].id] == landed[i]
    ensures Upserted(held, landed) == held
  {
    if landed != [] {
      HeldPointsChangeNothing(held, landed[..|landed| - 1]);
    }
  }

  lemma {:induction false} AliasHoldsPart(p: Plan, before: Database, landed: seq<Point>)
    requires IsAlias(before, p.collection) && PartOf(landed, p.points) && !Changes(p, before)
    ensures p.With(before, landed) == before
  {
    var held := before.collections[p.Target(before)];
    forall i | 0 <= i < |landed| ensures landed[i].id in held.points && held.points[landed[i].id] == landed[i] {
      var j :| 0 <= j < |p.points| && p.points[j] == landed[i];
    }
    HeldPointsChangeNothing(held.points, landed);
    assert held.(points := held.points) == held;
  }

  /** An import by alias that fails once it has written: the drop finds nothing, and the rollback is a mixture. */
  lemma {:induction false} AliasHidesAMixture(p: Plan, before: Database, i: nat) returns (a: Attempt)
    requires IsAlias(before, p.collection) && p.refusal.None? && p.Fits(before) && i < |p.points|
    requires var held := before.collections[p.Target(before)].points;
             !(p.points[i].id in held && held[p.points[i].id] == p.points[i])
    ensures Ends(p, before, a) && a.r.Err? && a.r.error.RolledBack?
    ensures a.now == p.With(before, [p.points[i]]) != before
  {
    var cause, landed := Backend(BackendFailure("")), [p.points[i]];
    DroppingUndoes(p, before, landed);
    a := Attempt(Err(RolledBack(cause)), landed, true, Dropping(p.With(before, landed), p.collection));
    assert landed[..0] == [];
    assert p.points[i].id in a.now.collections[p.Target(before)].points;
    assert a.now.collections[p.Target(before)].points[p.points[i].id] == p.points[i];
  }

  /** A single point bound for the build behind `docs` is enough. */
  lemma {:induction false} DocsImportIsAMixture(point: Point, lock: Lock)
    returns (p: Plan, before: Database, a: Attempt)
    ensures before.aliases == map["docs" := "docs-v1"]
              && before.collections == map["docs-v1" := Collection(p.shape, map[])]
    ensures p.collection == "docs" && p.points == [point] && p.CanComplete(before)
    ensures Ends(p, before, a) && a.r.Err? && a.r.error.RolledBack?
    ensures a.now.collections["docs-v1"].points == map[point.id := point]
  {
    p := Plan(None, "docs", Shape(3, "cosine", false), [point], None, ImportCounts(1, 1), lock);
    before := Database(map["docs-v1" := Collection(p.shape, map[])], map["docs" := "docs-v1"]);
    assert "docs" != "docs-v1" by {
      assert |"docs"| == 4;
    }
    a := AliasHidesAMixture(p, before, 0);
    assert [point][..0] == [] && Upserted(map[], [point]) == map[point.id := point];
  }

  /**
  A failed import leaves the database as it was or says that it does not, whatever fails and
  whenever, exactly unless the name is an alias and the import gets to write something new.
  */
  lemma {:induction false} FailuresAreToldTrulyExactly(p: Plan, before: Database)
    requires NoneDangles(before, p.collection)
    ensures (forall a :: Ends(p, before, a) && a.r.Err? ==> ToldTruly(before, a)) <==>
              !(IsAlias(before, p.collection) && p.refusal.None? && p.Fits(before) && Changes(p, before))
  {
    if IsAlias(before, p.collection) && p.refusal.None? && p.Fits(before) && Changes(p, before) {
      var held := p.Start(before).collections[p.Target(before)].points;
      var i :| 0 <= i < |p.points| && !(p.points[i].id in held && held[p.points[i].id] == p.points[i]);
      var a := AliasHidesAMixture(p, before, i);
      assert !ToldTruly(before, a);
    } else {
      forall a | Ends(p, before, a) && a.r.Err? ensures ToldTruly(before, a) {
        if a.r.error.RolledBack? {
          DroppingUndoes(p, before, a.landed);
          if IsAlias(before, p.collection) {
            AliasHoldsPart(p, before, a.landed);
          }
        }
      }
    }
  }

  // ---- Importing again ----

  /**
  An import that recorded its lock plans the same import again, and is accepted again
  exactly when it re-embeds or the manifest states a width: the lock then holds the
  width the rows had, which a manifest without one never matches.
  */
  lemma {:induction false} ReimportIsAcceptedExactly(c: Codecs, members: Bundle, offsets: Option<map<string, nat>>,
                                                     m: Manifest, target: Settings, keywords: KeywordSettings,
                                                     collection: string, reembed: bool, router: Option<Router>,
                                                     describe: map<string, string> -> string)
    requires InRange(members, offsets)
    requires PlanFor(c, members, offsets, m, target, keywords, collection, reembed, router, describe).refusal.None?
    ensures var first := PlanFor(c, members, offsets, m, target, keywords, collection, reembed, router, describe);
            var again :=
                PlanFor(c, members, offsets, m, target.(lock := Some(first.lock)), keywords, collection, reembed,
                                 router, describe);
            && again == first.(refusal := again.refusal)
            && again.refusal == if reembed || m.dimensions != 0 then None else Some(DifferentEmbedding)
  {
  }

  /** Importing again what was imported, when it is accepted and no call fails, completes again and changes nothing. */
  lemma {:induction false} SecondImportChangesNothing(p: Plan, again: Plan, before: Database, a: Attempt, b: Attempt)
    requires again == p.(refusal := again.refusal)
    requires Ends(p, before, a) && a.r.Ok? && Ends(again, a.now, b)
    ensures b.r.Ok? <==> again.refusal.None? && !b.outage
    ensures b.r.Ok? ==> b.now == a.now
  {
    PrefixIsPart(p.points, p.points);
    StartKeepsPlace(p, before);
    HoldingKeepsPlaces(p.Start(before), p.Target(before), p.points, p.collection);
    if b.r.Ok? {
      PartialWritesAreOverwritten(p.Start(before).collections[p.Target(before)].points, p.points, p.points);
    }
  }
}
