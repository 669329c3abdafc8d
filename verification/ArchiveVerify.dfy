/**
Opening an archive before anything is imported, services/archive_import.py: its members
are staged, and then verified, manifest, checksums, row counts, references, vector widths and the keyword leg, in that
order; the first check that fails refuses the archive.
*/
module ArchiveVerify {
  import opened Wrappers
  import opened Jsonl
  import opened ArchiveRows
  import opened ArchiveExport
  import opened ChecksumFile
  import opened VectorLookup
  import Staging

  datatype Refusal =
    | MissingMember
    | UnreadableManifest
    | UnsupportedFormat
    | BadChecksum
    | WrongCount
    | UnknownDocument
    | OrphanVector
    | WrongWidth
    | MalformedPostings
    | UndeclaredPostings
    | PostingsInDenseFormat
    | MissingPostings

  const REQUIRED_MEMBERS := {MANIFEST_NAME, CHECKSUMS_NAME, DOCUMENTS_NAME, CHUNKS_NAME, LOCK_NAME}
  const READABLE_MAJORS := {"1", "2"}

  /** What stands before the first dot. */
  function Major(version: string): string {
    if version == "" || version[0] == '.' then "" else [version[0]] + Major(version[1..])
  }

  /** The rows of a member; a member that is not there has none. */
  function RowsIn<R>(c: Codec<R>, members: Bundle, name: string): seq<R> {
    if name in members then Rows(c, members[name]) else []
  }

  function ChunkIds(rows: seq<ChunkRow>): (ids: seq<string>)
    ensures |ids| == |rows| && forall i :: 0 <= i < |ids| ==> ids[i] == rows[i].chunkId
  {
    seq(|rows|, i requires 0 <= i < |rows| => rows[i].chunkId)
  }

  /** The members as later passes read them. */
  function Contents(staged: map<string, Staging.Staged>): Bundle {
    map name | name in staged :: staged[name].contents
  }

  ghost predicate Hashed(sha: string -> string, staged: map<string, Staging.Staged>) {
    forall name :: name in staged ==> staged[name].digest == sha(staged[name].contents)
  }

  // ---- What each check asks ----

  predicate ChecksumsHold(sha: string -> string, members: Bundle, listing: seq<Entry>) {
    forall i :: 0 <= i < |listing| ==> listing[i].1 in members && sha(members[listing[i].1]) == listing[i].0
  }

  predicate ChunksHaveDocuments(documents: seq<DocumentRow>, chunks: seq<ChunkRow>) {
    forall i :: 0 <= i < |chunks| ==> chunks[i].documentId in DocumentIds(documents)
  }

  predicate VectorsHaveChunks(vectors: seq<VectorRow>, chunks: seq<ChunkRow>) {
    forall i :: 0 <= i < |vectors| ==> vectors[i].chunkId in ChunkIds(chunks)
  }

  /** The width a row is held to: the declared one, else that of the first vector that has one. */
  function WidthInForce(declared: int, before: seq<VectorRow>): int {
    if before == [] then declared
    else
      var width := WidthInForce(declared, before[..|before| - 1]);
      if width != 0 then width else |before[|before| - 1].vector|
  }

  predicate WidthsAgree(declared: int, vectors: seq<VectorRow>) {
    forall i :: 0 <= i < |vectors| ==>
      WidthInForce(declared, vectors[..i]) == 0 || |vectors[i].vector| == WidthInForce(declared, vectors[..i])
  }

  predicate WellFormedPostings(s: Postings.Sparse) {
    |s.indices| == |s.values| && Postings.StrictlyAscending(s.indices)
  }

  predicate PostingsWellFormed(vectors: seq<VectorRow>) {
    forall i :: 0 <= i < |vectors| && vectors[i].sparse.Some? ==> WellFormedPostings(vectors[i].sparse.value)
  }

  /** The first check an archive fails, if any. */
  function Verdict(c: Codecs, sha: string -> string, members: Bundle): Option<Refusal> {
    if !(REQUIRED_MEMBERS <= members.Keys) then Some(MissingMember)
    else
      var manifest := c.manifest.parse(members[MANIFEST_NAME]);
      if manifest.None? then Some(UnreadableManifest)
      else if Major(manifest.value.formatVersion) !in READABLE_MAJORS then Some(UnsupportedFormat)
      else if !ChecksumsHold(sha, members, Rows(ENTRIES, members[CHECKSUMS_NAME])) then Some(BadChecksum)
      else ContentVerdict(manifest.value, RowsIn(c.documents, members, DOCUMENTS_NAME),
                          RowsIn(c.chunks, members, CHUNKS_NAME), RowsIn(c.vectors, members, VECTORS_NAME))
  }

  function ContentVerdict(m: Manifest, documents: seq<DocumentRow>, chunks: seq<ChunkRow>,
                          vectors: seq<VectorRow>): Option<Refusal> {
    if m.counts != Counts(|documents|, |chunks|, |vectors|) then Some(WrongCount)
    else if ReferencesVerdict(documents, chunks, vectors).Some? then ReferencesVerdict(documents, chunks, vectors)
    else if !WidthsAgree(m.dimensions, vectors) then Some(WrongWidth)
    else PostingsVerdict(m, vectors)
  }

  function ReferencesVerdict(documents: seq<DocumentRow>, chunks: seq<ChunkRow>,
                             vectors: seq<VectorRow>): Option<Refusal> {
    if !ChunksHaveDocuments(documents, chunks) then Some(UnknownDocument)
    else if !VectorsHaveChunks(vectors, chunks) then Some(OrphanVector)
    else None
  }

  function PostingsVerdict(m: Manifest, vectors: seq<VectorRow>): Option<Refusal> {
    var found := CarriesSparse(vectors);
    if !PostingsWellFormed(vectors) then Some(MalformedPostings)
    else if found && !m.includesSparse then Some(UndeclaredPostings)
    else if found && Major(m.formatVersion) == Major(DENSE_ONLY_FORMAT_VERSION) then Some(PostingsInDenseFormat)
    else if m.includesSparse && !found then Some(MissingPostings)
    else None
  }

  /** The index a reader keeps: none for vectors in chunk order. */
  ghost function OffsetsKept(c: Codecs, members: Bundle): Option<map<string, nat>> {
    if VECTORS_NAME !in members ||
       Subsequence(Ids(RowsIn(c.vectors, members, VECTORS_NAME)), ChunkIds(RowsIn(c.chunks, members, CHUNKS_NAME)))
    then None
    else Some(OffsetIndex(Located(c.vectors, members[VECTORS_NAME], 0)))
  }

  // ---- The checks ----

  class ArchiveReader {
    const c: Codecs
    const members: Bundle
    var manifest: Option<Manifest>
    /** Kept only when the vectors are not in chunk order. */
    var vectorOffsets: Option<map<string, nat>>

    constructor (c: Codecs, members: Bundle)
      ensures this.c == c && this.members == members && manifest.None? && vectorOffsets.None?
    {
      this.c, this.members, manifest, vectorOffsets := c, members, None, None;
    }

    method VerifyReferences() returns (refused: Option<Refusal>)
      requires vectorOffsets.None?
      modifies this`vectorOffsets
      ensures refused == ReferencesVerdict(RowsIn(c.documents, members, DOCUMENTS_NAME),
                                           RowsIn(c.chunks, members, CHUNKS_NAME),
                                           RowsIn(c.vectors, members, VECTORS_NAME))
      ensures refused.None? ==> vectorOffsets == OffsetsKept(c, members)
    {
      var documents := DocumentIds(RowsIn(c.documents, members, DOCUMENTS_NAME));
      var chunks := RowsIn(c.chunks, members, CHUNKS_NAME);
      ghost var vectors := RowsIn(c.vectors, members, VECTORS_NAME);
      var text := if VECTORS_NAME in members then members[VECTORS_NAME] else "";
      var resolved, inStep := ChunksInStep(c, documents, chunks, text);
      if !resolved {
        return Some(UnknownDocument);
      }
      GreedyConsumesExactlySubsequences(vectors, ChunkIds(chunks));
      if inStep {
        InOrderVectorsHaveChunks(vectors, chunks);
        return None;
      }
      LeftoverOfNothing(ChunkIds(chunks));
      var offsets := VectorOffsets(c.vectors, text);
      IndexedIdsAreTheVectors(c, text, vectors, chunks);
      var known := AllListed(offsets.Keys, ChunkIds(chunks));
      if !known {
        return Some(OrphanVector);
      }
      vectorOffsets := Some(offsets);
      return None;
    }
  }

  lemma {:induction false} LeftoverOfNothing(ids: seq<string>)
    ensures Leftover([], ids) == []
  {
    if ids != [] {
      LeftoverOfNothing(ids[1..]);
    }
  }

  /** What the stream of vectors still holds once `pending` was taken from it: nothing when there was none to take. */
  ghost function Ahead(c: VectorCodec, pending: Option<VectorRow>, left: string): seq<VectorRow> {
    if pending.None? then [] else [pending.value] + Rows(c, left)
  }

  lemma {:induction false} ChunkConsumes(c: VectorCodec, pending: Option<VectorRow>, left: string, id: string,
                                         later: seq<string>)
    ensures Leftover(Ahead(c, pending, left), [id] + later)
         == Leftover(if pending.Some? && pending.value.chunkId == id then Rows(c, left) else Ahead(c, pending, left),
                     later)
  {
    assert ([id] + later)[1..] == later;
    if pending.Some? {
      assert Ahead(c, pending, left)[1..] == Rows(c, left);
    }
  }

  /** One pass over the chunks: each names a known document, and consumes the next vector when that is its own. */
  method ChunksInStep(c: Codecs, documents: set<string>, chunks: seq<ChunkRow>, text: string)
    returns (resolved: bool, inStep: bool)
    ensures resolved <==> forall i :: 0 <= i < |chunks| ==> chunks[i].documentId in documents
    ensures resolved ==> (inStep <==> Leftover(Rows(c.vectors, text), ChunkIds(chunks)) == [])
  {
    ghost var ids, unread := ChunkIds(chunks), Rows(c.vectors, text);
    ghost var total := Leftover(unread, ids);
    var pending, left := NextRow(c.vectors, text);
    assert ids[0..] == ids;
    for i := 0 to |chunks|
      invariant forall j :: 0 <= j < i ==> chunks[j].documentId in documents
      invariant unread == Ahead(c.vectors, pending, left) && total == Leftover(unread, ids[i..])
    {
      if chunks[i].documentId !in documents {
        return false, false;
      }
      assert ids[i..] == [ids[i]] + ids[i + 1..];
      ChunkConsumes(c.vectors, pending, left, ids[i], ids[i + 1..]);
      if pending.Some? && pending.value.chunkId == chunks[i].chunkId {
        unread := Rows(c.vectors, left);
        pending, left := NextRow(c.vectors, left);
      }
    }
    return true, pending.None?;
  }

  method AllListed(keys: set<string>, ids: seq<string>) returns (ok: bool)
    ensures ok <==> forall id :: id in keys ==> id in ids
  {
    var unchecked := keys;
    while unchecked != {}
      invariant unchecked <= keys && forall id :: id in keys - unchecked ==> id in ids
      decreases |unchecked|
    {
      var id :| id in unchecked;
      if id !in ids {
        return false;
      }
      unchecked := unchecked - {id};
    }
    ok := true;
  }

  lemma {:induction false} InOrderVectorsHaveChunks(vectors: seq<VectorRow>, chunks: seq<ChunkRow>)
    requires Leftover(vectors, ChunkIds(chunks)) == []
    ensures VectorsHaveChunks(vectors, chunks)
  {
    forall i | 0 <= i < |vectors| ensures vectors[i].chunkId in ChunkIds(chunks) {
      ConsumedRowsHaveChunks(vectors, ChunkIds(chunks), i);
    }
  }

  predicate NamesVector(rows: seq<VectorRow>, id: string) {
    exists i :: 0 <= i < |rows| && rows[i].chunkId == id
  }

  lemma {:induction false} IndexedIdIsAVector(c: Codecs, text: string, id: string)
    ensures id in OffsetIndex(Located(c.vectors, text, 0)) <==> NamesVector(Rows(c.vectors, text), id)
  {
    SeekingRefinesKeyedLookup(c.vectors, text, id);
    KeyedExactlyWhenPresent(Rows(c.vectors, text), id);
  }

  lemma {:induction false} IndexedIdsAreTheVectors(c: Codecs, text: string, vectors: seq<VectorRow>,
                                                   chunks: seq<ChunkRow>)
    requires vectors == Rows(c.vectors, text)
    ensures VectorsHaveChunks(vectors, chunks)
       <==> forall id :: id in OffsetIndex(Located(c.vectors, text, 0)) ==> id in ChunkIds(chunks)
  {
    forall id ensures id in OffsetIndex(Located(c.vectors, text, 0)) <==> NamesVector(vectors, id) {
      IndexedIdIsAVector(c, text, id);
    }
    if !VectorsHaveChunks(vectors, chunks) {
      var i :| 0 <= i < |vectors| && vectors[i].chunkId !in ChunkIds(chunks);
      assert NamesVector(vectors, vectors[i].chunkId);
    }
  }

  /** The digests compared are those taken as the members landed. */
  method VerifyChecksums(ghost sha: string -> string, staged: map<string, Staging.Staged>, listing: seq<Entry>)
    returns (ok: bool)
    requires Hashed(sha, staged)
    ensures ok <==> ChecksumsHold(sha, Contents(staged), listing)
  {
    for i := 0 to |listing|
      invariant forall j :: 0 <= j < i ==> listing[j].1 in staged && staged[listing[j].1].digest == listing[j].0
    {
      if listing[i].1 !in staged || staged[listing[i].1].digest != listing[i].0 {
        return false;
      }
    }
    ok := true;
  }

  method CountRows<R>(c: Codec<R>, members: Bundle, name: string) returns (n: nat)
    ensures n == |RowsIn(c, members, name)|
  {
    n := 0;
    if name !in members {
      return;
    }
    var row, left := NextRow(c, members[name]);
    while row.Some?
      invariant |Rows(c, members[name])| == n + if row.Some? then 1 + |Rows(c, left)| else 0
      decreases row.Some?, |left|
    {
      n := n + 1;
      row, left := NextRow(c, left);
    }
  }

  lemma {:induction false} OneMoreWidth(declared: int, vectors: seq<VectorRow>, i: nat)
    requires i < |vectors|
    ensures var width, sofar := WidthInForce(declared, vectors[..i]), vectors[..i + 1];
            && WidthInForce(declared, sofar) == (if width != 0 then width else |vectors[i].vector|)
            && (WidthsAgree(declared, sofar) <==>
                  WidthsAgree(declared, vectors[..i]) && (width == 0 || |vectors[i].vector| == width))
  {
    var before, sofar := vectors[..i], vectors[..i + 1];
    assert sofar[..i] == before;
    assert forall j :: 0 <= j < i ==> before[..j] == sofar[..j] && before[j] == sofar[j];
  }

  lemma {:induction false} PrefixWidthsAgree(declared: int, vectors: seq<VectorRow>, i: nat)
    requires i <= |vectors|
    ensures WidthsAgree(declared, vectors) ==> WidthsAgree(declared, vectors[..i])
  {
    assert forall j :: 0 <= j < i ==> vectors[..i][..j] == vectors[..j];
  }

  method VerifyVectorWidths(manifest: Manifest, vectors: seq<VectorRow>) returns (ok: bool)
    ensures ok <==> WidthsAgree(manifest.dimensions, vectors)
  {
    var declared := manifest.dimensions;
    for i := 0 to |vectors|
      invariant declared == WidthInForce(manifest.dimensions, vectors[..i])
          && WidthsAgree(manifest.dimensions, vectors[..i])
    {
      var width := |vectors[i].vector|;
      OneMoreWidth(manifest.dimensions, vectors, i);
      if declared != 0 && width != declared {
        PrefixWidthsAgree(manifest.dimensions, vectors, i + 1);
        return false;
      }
      declared := if declared != 0 then declared else width;
    }
    assert vectors[..|vectors|] == vectors;
    ok := true;
  }

  method VerifyKeywordLeg(manifest: Manifest, vectors: seq<VectorRow>) returns (refused: Option<Refusal>)
    ensures refused == PostingsVerdict(manifest, vectors)
  {
    var found := 0;
    for i := 0 to |vectors|
      invariant PostingsWellFormed(vectors[..i])
      invariant found >= 0 && (found > 0 <==> CarriesSparse(vectors[..i]))
    {
      assert vectors[..i + 1] == vectors[..i] + [vectors[i]];
      SparseGrows(vectors[..i], vectors[i]);
      if vectors[i].sparse.Some? {
        found := found + 1;
        if !WellFormedPostings(vectors[i].sparse.value) {
          return Some(MalformedPostings);
        }
      }
    }
    assert vectors[..|vectors|] == vectors;
    if found > 0 && !manifest.includesSparse {
      return Some(UndeclaredPostings);
    }
    if found > 0 && Major(manifest.formatVersion) == Major(DENSE_ONLY_FORMAT_VERSION) {
      return Some(PostingsInDenseFormat);
    }
    if manifest.includesSparse && found == 0 {
      return Some(MissingPostings);
    }
    refused := None;
  }

  /** Verify what was staged completely; only then is there a reader. */
  method VerifyStaged(c: Codecs, ghost sha: string -> string, staged: map<string, Staging.Staged>)
    returns (r: Result<ArchiveReader, Refusal>)
    requires Hashed(sha, staged)
    ensures r.Err? <==> Verdict(c, sha, Contents(staged)).Some?
    ensures r.Err? ==> Verdict(c, sha, Contents(staged)) == Some(r.error)
    ensures r.Ok? ==> fresh(r.value) && Reads(r.value, c, Contents(staged))
  {
    var members := Contents(staged);
    var reader := new ArchiveReader(c, members);
    if !(REQUIRED_MEMBERS <= members.Keys) {
      return Err(MissingMember);
    }
    reader.manifest := c.manifest.parse(members[MANIFEST_NAME]);
    if reader.manifest.None? {
      return Err(UnreadableManifest);
    }
    var manifest := reader.manifest.value;
    if Major(manifest.formatVersion) !in READABLE_MAJORS {
      return Err(UnsupportedFormat);
    }
    var intact := VerifyChecksums(sha, staged, Rows(ENTRIES, members[CHECKSUMS_NAME]));
    if !intact {
      return Err(BadChecksum);
    }
    var documents := CountRows(c.documents, members, DOCUMENTS_NAME);
    var chunks := CountRows(c.chunks, members, CHUNKS_NAME);
    var vectors := CountRows(c.vectors, members, VECTORS_NAME);
    if manifest.counts != Counts(documents, chunks, vectors) {
      return Err(WrongCount);
    }
    var dangling := reader.VerifyReferences();
    if dangling.Some? {
      return Err(dangling.value);
    }
    var rows := RowsIn(c.vectors, members, VECTORS_NAME);
    var fits := VerifyVectorWidths(manifest, rows);
    if !fits {
      return Err(WrongWidth);
    }
    var leg := VerifyKeywordLeg(manifest, rows);
    if leg.Some? {
      return Err(leg.value);
    }
    r := Ok(reader);
  }

  /** A reader over these members, with an index exactly when their vectors need one. */
  ghost predicate Reads(reader: ArchiveReader, c: Codecs, members: Bundle)
    reads reader
  {
    && reader.c == c && reader.members == members && MANIFEST_NAME in members
    && reader.manifest == c.manifest.parse(members[MANIFEST_NAME]) && reader.manifest.Some?
    && reader.vectorOffsets == OffsetsKept(c, members)
  }

  // ---- What an accepted archive is ----

  /** `supported_major`, of one major: the whole version, or what stands before its first dot. */
  predicate OfMajor(version: string, major: string) {
    version == major || major + "." <= version
  }

  function ManifestOf(c: Codecs, members: Bundle): Option<Manifest> {
    if "manifest.json" in members then c.manifest.parse(members["manifest.json"]) else None
  }

  /** What each check asks of an archive, said of its members and its rows. */
  ghost predicate Passes(check: Refusal, c: Codecs, sha: string -> string, members: Bundle) {
    var m := ManifestOf(c, members);
    match check
    case MissingMember =>
      && "manifest.json" in members && "checksums.sha256" in members && "documents.jsonl" in members
      && "chunks.jsonl" in members && "index.lock" in members
    case UnreadableManifest => m.Some?
    case UnsupportedFormat => m.Some? ==> OfMajor(m.value.formatVersion, "1") || OfMajor(m.value.formatVersion, "2")
    case BadChecksum =>
      "checksums.sha256" in members ==>
        forall e :: e in Rows(ENTRIES, members["checksums.sha256"]) ==> e.1 in members && sha(members[e.1]) == e.0
    case _ =>
      m.Some? ==> RowsPass(check, m.value, RowsIn(c.documents, members, "documents.jsonl"),
                           RowsIn(c.chunks, members, "chunks.jsonl"), RowsIn(c.vectors, members, "vectors.jsonl"))
  }

  /** The checks on the rows. */
  ghost predicate RowsPass(check: Refusal, m: Manifest, documents: seq<DocumentRow>, chunks: seq<ChunkRow>,
                           vectors: seq<VectorRow>) {
    match check
    case WrongCount =>
      m.counts.documents == |documents| && m.counts.chunks == |chunks| && m.counts.vectors == |vectors|
    case UnknownDocument => forall chunk :: chunk in chunks ==> DocumentNamed(documents, chunk.documentId)
    case OrphanVector => forall vector :: vector in vectors ==> ChunkNamed(chunks, vector.chunkId)
    case WrongWidth =>
      if m.dimensions != 0 then forall i :: 0 <= i < |vectors| ==> |vectors[i].vector| == m.dimensions
      else
        forall i, j :: 0 <= i < j < |vectors| && vectors[i].vector != [] ==> |vectors[j].vector| == |vectors[i].vector|
    case MalformedPostings =>
      forall i :: 0 <= i < |vectors| && vectors[i].sparse.Some? ==> IncreasingPairs(vectors[i].sparse.value)
    case UndeclaredPostings => SomePostings(vectors) ==> m.includesSparse
    case PostingsInDenseFormat => SomePostings(vectors) ==> !OfMajor(m.formatVersion, "1")
    case MissingPostings => m.includesSparse ==> SomePostings(vectors)
    case _ => true
  }

  predicate DocumentNamed(documents: seq<DocumentRow>, id: string) {
    exists i :: 0 <= i < |documents| && documents[i].documentId == id
  }

  predicate ChunkNamed(chunks: seq<ChunkRow>, id: string) {
    exists i :: 0 <= i < |chunks| && chunks[i].chunkId == id
  }

  predicate SomePostings(vectors: seq<VectorRow>) {
    exists i :: 0 <= i < |vectors| && vectors[i].sparse.Some?
  }

  /** One weight for each index, and the indices increase. */
  predicate IncreasingPairs(s: Postings.Sparse) {
    |s.indices| == |s.values| && forall j, k :: 0 <= j < k < |s.indices| ==> s.indices[j] < s.indices[k]
  }

  /** The order of the checks. */
  function Rank(check: Refusal): nat {
    match check
    case MissingMember => 0
    case UnreadableManifest => 1
    case UnsupportedFormat => 2
    case BadChecksum => 3
    case WrongCount => 4
    case UnknownDocument => 5
    case OrphanVector => 6
    case WrongWidth => 7
    case MalformedPostings => 8
    case UndeclaredPostings => 9
    case PostingsInDenseFormat => 10
    case MissingPostings => 11
  }

  lemma {:induction false} MajorIsBeforeTheDot(version: string, major: string)
    requires '.' !in major
    ensures Major(version) == major <==> OfMajor(version, major)
  {
    if version != "" && version[0] != '.' {
      var rest := Major(version[1..]);
      if major != "" && major[0] == version[0] {
        MajorIsBeforeTheDot(version[1..], major[1..]);
        assert major == [major[0]] + major[1..] && version == [version[0]] + version[1..];
        assert (major + ".")[1..] == major[1..] + ".";
        assert major + "." <= version <==> major[1..] + "." <= version[1..];
      } else {
        assert Major(version)[0] == version[0];
        assert (major + ".")[0] != version[0];
      }
    }
  }

  lemma {:induction false} ReferencesAreNames(documents: seq<DocumentRow>, chunks: seq<ChunkRow>,
                                              vectors: seq<VectorRow>)
    ensures ChunksHaveDocuments(documents, chunks) <==>
              forall chunk :: chunk in chunks ==> DocumentNamed(documents, chunk.documentId)
    ensures VectorsHaveChunks(vectors, chunks) <==>
              forall vector :: vector in vectors ==> ChunkNamed(chunks, vector.chunkId)
  {
    forall id ensures id in DocumentIds(documents) <==> DocumentNamed(documents, id) {
      if id in DocumentIds(documents) {
        var row :| row in documents && row.documentId == id;
      }
    }
    forall id ensures id in ChunkIds(chunks) <==> ChunkNamed(chunks, id) {
      if i :| 0 <= i < |chunks| && chunks[i].chunkId == id {
        assert ChunkIds(chunks)[i] == id;
      }
    }
  }

  /** The width in force is the declared one, or that of the first row that has one. */
  lemma {:induction false} WidthInForceIs(declared: int, before: seq<VectorRow>)
    ensures declared != 0 ==> WidthInForce(declared, before) == declared
    ensures declared == 0 && WidthInForce(declared, before) == 0 ==>
              forall i :: 0 <= i < |before| ==> before[i].vector == []
    ensures declared == 0 && WidthInForce(declared, before) != 0 ==>
              exists i :: 0 <= i < |before| && |before[i].vector| == WidthInForce(declared, before)
  {
    if before != [] {
      WidthInForceIs(declared, before[..|before| - 1]);
    }
  }

  lemma {:induction false} WidthsAgreeExactly(declared: int, vectors: seq<VectorRow>)
    ensures WidthsAgree(declared, vectors) <==>
              if declared != 0 then forall i :: 0 <= i < |vectors| ==> |vectors[i].vector| == declared
              else forall i, j :: 0 <= i < j < |vectors| && vectors[i].vector != [] ==>
                                    |vectors[j].vector| == |vectors[i].vector|
  {
    forall i | 0 <= i < |vectors|
      ensures declared != 0 ==> WidthInForce(declared, vectors[..i]) == declared
    {
      WidthInForceIs(declared, vectors[..i]);
    }
    if declared == 0 {
      UndeclaredWidthsAgreeExactly(vectors);
    }
  }

  lemma {:induction false} UndeclaredWidthsAgreeExactly(vectors: seq<VectorRow>)
    ensures WidthsAgree(0, vectors) <==>
              forall i, j :: 0 <= i < j < |vectors| && vectors[i].vector != [] ==>
                               |vectors[j].vector| == |vectors[i].vector|
  {
    if WidthsAgree(0, vectors) {
      forall i, j | 0 <= i < j < |vectors| && vectors[i].vector != []
        ensures |vectors[j].vector| == |vectors[i].vector|
      {
        WidthStays(vectors, i, j);
      }
    } else {
      var j :| 0 <= j < |vectors| && WidthInForce(0, vectors[..j]) != 0
               && |vectors[j].vector| != WidthInForce(0, vectors[..j]);
      WidthInForceIs(0, vectors[..j]);
      var i :| 0 <= i < j && |vectors[..j][i].vector| == WidthInForce(0, vectors[..j]);
      assert vectors[i].vector != [];
    }
  }

  lemma {:induction false} WidthStays(vectors: seq<VectorRow>, i: nat, j: nat)
    requires i < j <= |vectors| && vectors[i].vector != []
    requires WidthInForce(0, vectors[..i]) == 0 || |vectors[i].vector| == WidthInForce(0, vectors[..i])
    ensures WidthInForce(0, vectors[..j]) == |vectors[i].vector|
  {
    assert vectors[..j][..j - 1] == vectors[..j - 1];
    if i < j - 1 {
      WidthStays(vectors, i, j - 1);
    }
  }

  lemma {:induction false} WellFormedIsIncreasing(s: Postings.Sparse)
    ensures WellFormedPostings(s) <==> IncreasingPairs(s)
  {
    if WellFormedPostings(s) {
      forall j, k | 0 <= j < k < |s.indices| ensures s.indices[j] < s.indices[k] {
        Postings.AscendingFar(s.indices, j, k);
      }
    }
  }

  lemma {:induction false} MajorsAreThese(version: string)
    ensures Major(version) in READABLE_MAJORS <==> OfMajor(version, "1") || OfMajor(version, "2")
    ensures Major(version) == Major(DENSE_ONLY_FORMAT_VERSION) <==> OfMajor(version, "1")
  {
    MajorIsBeforeTheDot(version, "1");
    MajorIsBeforeTheDot(version, "2");
    MajorIsBeforeTheDot(DENSE_ONLY_FORMAT_VERSION, "1");
    assert "1" + "." == "1." <= DENSE_ONLY_FORMAT_VERSION;
  }

  lemma {:induction false} PostingsAreIncreasing(vectors: seq<VectorRow>)
    ensures PostingsWellFormed(vectors) <==>
              forall i :: 0 <= i < |vectors| && vectors[i].sparse.Some? ==> IncreasingPairs(vectors[i].sparse.value)
  {
    forall i | 0 <= i < |vectors| && vectors[i].sparse.Some?
      ensures WellFormedPostings(vectors[i].sparse.value) <==> IncreasingPairs(vectors[i].sparse.value)
    {
      WellFormedIsIncreasing(vectors[i].sparse.value);
    }
  }

  lemma {:induction false} RowChecksAreThese(m: Manifest, documents: seq<DocumentRow>, chunks: seq<ChunkRow>,
                                             vectors: seq<VectorRow>, passes: Refusal -> bool)
    requires passes == RowChecks(m, documents, chunks, vectors)
    ensures passes(WrongCount) <==> m.counts == Counts(|documents|, |chunks|, |vectors|)
    ensures passes(UnknownDocument) <==> ChunksHaveDocuments(documents, chunks)
    ensures passes(OrphanVector) <==> VectorsHaveChunks(vectors, chunks)
    ensures passes(WrongWidth) <==> WidthsAgree(m.dimensions, vectors)
    ensures passes(MalformedPostings) <==> PostingsWellFormed(vectors)
  {
    ReferencesAreNames(documents, chunks, vectors);
    WidthsAgreeExactly(m.dimensions, vectors);
    PostingsAreIncreasing(vectors);
  }

  lemma {:induction false} KeywordChecksAreThese(m: Manifest, documents: seq<DocumentRow>, chunks: seq<ChunkRow>,
                                                 vectors: seq<VectorRow>, passes: Refusal -> bool)
    requires passes == RowChecks(m, documents, chunks, vectors)
    ensures passes(UndeclaredPostings) <==> (CarriesSparse(vectors) ==> m.includesSparse)
    ensures passes(PostingsInDenseFormat) <==>
              (CarriesSparse(vectors) ==> Major(m.formatVersion) != Major(DENSE_ONLY_FORMAT_VERSION))
    ensures passes(MissingPostings) <==> (m.includesSparse ==> CarriesSparse(vectors))
    ensures forall check :: Rank(check) < 4 ==> passes(check)
  {
    MajorsAreThese(m.formatVersion);
    assert SomePostings(vectors) <==> CarriesSparse(vectors);
  }

  /** The checks on the rows, one after the other. */
  function FirstRefused(passes: Refusal -> bool): Option<Refusal> {
    if !passes(WrongCount) then Some(WrongCount)
    else if !passes(UnknownDocument) then Some(UnknownDocument)
    else if !passes(OrphanVector) then Some(OrphanVector)
    else if !passes(WrongWidth) then Some(WrongWidth)
    else if !passes(MalformedPostings) then Some(MalformedPostings)
    else if !passes(UndeclaredPostings) then Some(UndeclaredPostings)
    else if !passes(PostingsInDenseFormat) then Some(PostingsInDenseFormat)
    else if !passes(MissingPostings) then Some(MissingPostings)
    else None
  }

  lemma {:induction false} FirstRefusedIsFirst(passes: Refusal -> bool)
    requires forall check :: Rank(check) < 4 ==> passes(check)
    ensures FirstFailing(FirstRefused(passes), passes)
  {
  }

  lemma {:induction false} RowChecksInOrder(passes: Refusal -> bool, m: Manifest, documents: seq<DocumentRow>,
                                            chunks: seq<ChunkRow>, vectors: seq<VectorRow>)
    requires passes(WrongCount) <==> m.counts == Counts(|documents|, |chunks|, |vectors|)
    requires passes(UnknownDocument) <==> ChunksHaveDocuments(documents, chunks)
    requires passes(OrphanVector) <==> VectorsHaveChunks(vectors, chunks)
    requires passes(WrongWidth) <==> WidthsAgree(m.dimensions, vectors)
    requires passes(MalformedPostings) <==> PostingsWellFormed(vectors)
    requires passes(UndeclaredPostings) <==> (CarriesSparse(vectors) ==> m.includesSparse)
    requires passes(PostingsInDenseFormat) <==>
               (CarriesSparse(vectors) ==> Major(m.formatVersion) != Major(DENSE_ONLY_FORMAT_VERSION))
    requires passes(MissingPostings) <==> (m.includesSparse ==> CarriesSparse(vectors))
    ensures ContentVerdict(m, documents, chunks, vectors) == FirstRefused(passes)
  {
  }

  ghost function RowChecks(m: Manifest, documents: seq<DocumentRow>, chunks: seq<ChunkRow>,
                           vectors: seq<VectorRow>): Refusal -> bool {
    check => RowsPass(check, m, documents, chunks, vectors)
  }

  ghost function Checks(c: Codecs, sha: string -> string, members: Bundle): Refusal -> bool {
    check => Passes(check, c, sha, members)
  }

  /** The verdict is the first check that is not passed. */
  ghost predicate FirstFailing(verdict: Option<Refusal>, passes: Refusal -> bool) {
    match verdict
    case None => forall check :: passes(check)
    case Some(refusal) => !passes(refusal) && forall earlier :: Rank(earlier) < Rank(refusal) ==> passes(earlier)
  }

  lemma {:induction false} TheFirstFailingRowCheckRefuses(m: Manifest, documents: seq<DocumentRow>,
                                                          chunks: seq<ChunkRow>, vectors: seq<VectorRow>,
                                                          passes: Refusal -> bool)
    requires passes == RowChecks(m, documents, chunks, vectors)
    ensures FirstFailing(ContentVerdict(m, documents, chunks, vectors), passes)
  {
    RowChecksAreThese(m, documents, chunks, vectors, passes);
    KeywordChecksAreThese(m, documents, chunks, vectors, passes);
    RowChecksInOrder(passes, m, documents, chunks, vectors);
    FirstRefusedIsFirst(passes);
  }

  /** The checks on the members, and then what those on the rows come to. */
  function FirstRefusedThen(passes: Refusal -> bool, content: Option<Refusal>): Option<Refusal> {
    if !passes(MissingMember) then Some(MissingMember)
    else if !passes(UnreadableManifest) then Some(UnreadableManifest)
    else if !passes(UnsupportedFormat) then Some(UnsupportedFormat)
    else if !passes(BadChecksum) then Some(BadChecksum)
    else content
  }

  lemma {:induction false} FirstRefusedThenIsFirst(passes: Refusal -> bool, content: Option<Refusal>,
                                                   rows: Refusal -> bool)
    requires passes(UnreadableManifest) ==>
               && (content.Some? ==> Rank(content.value) >= 4) && FirstFailing(content, rows)
               && (forall check :: Rank(check) >= 4 ==> (rows(check) <==> passes(check)))
    ensures FirstFailing(FirstRefusedThen(passes, content), passes)
  {
  }

  lemma {:induction false} ChecksInOrder(passes: Refusal -> bool, c: Codecs, sha: string -> string, members: Bundle,
                                         content: Option<Refusal>)
    requires passes(MissingMember) <==> REQUIRED_MEMBERS <= members.Keys
    requires passes(UnreadableManifest) <==> ManifestOf(c, members).Some?
    requires var m := ManifestOf(c, members);
             m.Some? ==>
               && (passes(UnsupportedFormat) <==> Major(m.value.formatVersion) in READABLE_MAJORS)
               && (CHECKSUMS_NAME in members ==>
                   (passes(BadChecksum) <==> ChecksumsHold(sha, members, Rows(ENTRIES, members[CHECKSUMS_NAME]))))
               && content
                   == ContentVerdict(m.value, RowsIn(c.documents, members, DOCUMENTS_NAME),
                                     RowsIn(c.chunks, members, CHUNKS_NAME), RowsIn(c.vectors, members, VECTORS_NAME))
    ensures Verdict(c, sha, members) == FirstRefusedThen(passes, content)
  {
  }

  lemma {:induction false} MemberChecksAreThese(c: Codecs, sha: string -> string, members: Bundle,
                                                passes: Refusal -> bool)
    requires passes == Checks(c, sha, members)
    ensures passes(MissingMember) <==> REQUIRED_MEMBERS <= members.Keys
    ensures passes(UnreadableManifest) <==> ManifestOf(c, members).Some?
    ensures var m := ManifestOf(c, members);
            m.Some? ==>
              && (passes(UnsupportedFormat) <==> Major(m.value.formatVersion) in READABLE_MAJORS)
              && (CHECKSUMS_NAME in members ==>
                  (passes(BadChecksum) <==> ChecksumsHold(sha, members, Rows(ENTRIES, members[CHECKSUMS_NAME]))))
  {
    if ManifestOf(c, members).Some? {
      MajorsAreThese(ManifestOf(c, members).value.formatVersion);
    }
  }

  lemma {:induction false} RowChecksAreChecks(c: Codecs, sha: string -> string, members: Bundle, m: Manifest,
                                              passes: Refusal -> bool, rows: Refusal -> bool)
    requires ManifestOf(c, members) == Some(m) && passes == Checks(c, sha, members)
    requires rows == RowChecks(m, RowsIn(c.documents, members, DOCUMENTS_NAME), RowsIn(c.chunks, members, CHUNKS_NAME),
                               RowsIn(c.vectors, members, VECTORS_NAME))
    ensures forall check :: Rank(check) >= 4 ==> (rows(check) <==> passes(check))
  {
  }

  /**
  An archive passes exactly when every check does, and is otherwise refused for the first that
  does not, in the order they are made.
  */
  lemma {:induction false} TheFirstFailingCheckRefuses(c: Codecs, sha: string -> string, members: Bundle)
    ensures FirstFailing(Verdict(c, sha, members), Checks(c, sha, members))
  {
    var m, passes := ManifestOf(c, members), Checks(c, sha, members);
    var content, rows := None, passes;
    if m.Some? {
      var documents := RowsIn(c.documents, members, DOCUMENTS_NAME);
      var chunks, vectors := RowsIn(c.chunks, members, CHUNKS_NAME), RowsIn(c.vectors, members, VECTORS_NAME);
      content := ContentVerdict(m.value, documents, chunks, vectors);
      rows := RowChecks(m.value, documents, chunks, vectors);
      TheFirstFailingRowCheckRefuses(m.value, documents, chunks, vectors, rows);
      RowChecksAreChecks(c, sha, members, m.value, passes, rows);
      assert content.Some? ==> Rank(content.value) >= 4;
    }
    MemberChecksAreThese(c, sha, members, passes);
    ChecksInOrder(passes, c, sha, members, content);
    FirstRefusedThenIsFirst(passes, content, rows);
  }

  ghost predicate PassesAll(c: Codecs, sha: string -> string, members: Bundle) {
    forall check :: Passes(check, c, sha, members)
  }

  lemma {:induction false} NoneFails(verdict: Option<Refusal>, passes: Refusal -> bool)
    requires FirstFailing(verdict, passes)
    ensures verdict.None? <==> forall check :: passes(check)
  {
  }

  lemma {:induction false} EachOfTheChecks(c: Codecs, sha: string -> string, members: Bundle, passes: Refusal -> bool)
    requires passes == Checks(c, sha, members)
    ensures (forall check :: passes(check)) <==> PassesAll(c, sha, members)
  {
    if forall check :: passes(check) {
      forall check ensures Passes(check, c, sha, members) {
        assert passes(check);
      }
    }
  }

  lemma {:induction false} AcceptedExactly(c: Codecs, sha: string -> string, members: Bundle)
    ensures Verdict(c, sha, members).None? <==> PassesAll(c, sha, members)
  {
    TheFirstFailingCheckRefuses(c, sha, members);
    NoneFails(Verdict(c, sha, members), Checks(c, sha, members));
    EachOfTheChecks(c, sha, members, Checks(c, sha, members));
  }

  datatype OpenError = NotStaged(limit: Staging.Refusal) | Refused(check: Refusal)

  /** Why an archive is not opened: it cannot be staged within the limits, or it fails a check. */
  function OpenVerdict(c: Codecs, sha: string -> string, archive: seq<Staging.Member>): Option<OpenError> {
    match Staging.StagedFrom(sha, archive, Staging.MAXIMUM_TOTAL_BYTES)
    case Err(e) => Some(NotStaged(e))
    case Ok(staged) =>
      var refusal := Verdict(c, sha, Contents(staged));
      if refusal.Some? then Some(Refused(refusal.value)) else None
  }

  /** It can be staged within the limits, and what is then on disk passes every check. */
  ghost predicate Sound(c: Codecs, sha: string -> string, archive: seq<Staging.Member>) {
    var staged := Staging.StagedFrom(sha, archive, Staging.MAXIMUM_TOTAL_BYTES);
    staged.Ok? && PassesAll(c, sha, Contents(staged.value))
  }

  lemma {:induction false} OpensExactlyTheSound(c: Codecs, sha: string -> string, archive: seq<Staging.Member>)
    ensures OpenVerdict(c, sha, archive).None? <==> Sound(c, sha, archive)
  {
    var staged := Staging.StagedFrom(sha, archive, Staging.MAXIMUM_TOTAL_BYTES);
    if staged.Ok? {
      AcceptedExactly(c, sha, Contents(staged.value));
    }
  }

  /** `open_archive`: stage the members of the tar, and verify them. */
  method OpenArchive(c: Codecs, sha: string -> string, archive: seq<Staging.Member>)
    returns (r: Result<ArchiveReader, OpenError>)
    ensures r.Err? <==> OpenVerdict(c, sha, archive).Some?
    ensures r.Err? ==> OpenVerdict(c, sha, archive) == Some(r.error)
    ensures r.Ok? ==>
              var staged := Staging.StagedFrom(sha, archive, Staging.MAXIMUM_TOTAL_BYTES);
              staged.Ok? && fresh(r.value) && Reads(r.value, c, Contents(staged.value))
    ensures r.Ok? <==> Sound(c, sha, archive)
  {
    OpensExactlyTheSound(c, sha, archive);
    var staged := Staging.StageMembers(sha, archive);
    if staged.Err? {
      return Err(NotStaged(staged.error));
    }
    forall name | name in staged.value ensures staged.value[name].digest == sha(staged.value[name].contents) {
      Staging.StagedFilesAreTheirSources(sha, archive, Staging.MAXIMUM_TOTAL_BYTES, name);
    }
    var opening := VerifyStaged(c, sha, staged.value);
    r := if opening.Ok? then Ok(opening.value) else Err(Refused(opening.error));
  }
}
