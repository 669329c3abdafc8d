/**
Export, verify, import: which collections the exporter writes an archive of that its own
importer accepts, and which come back point for point.
*/
module ArchiveRoundTrip {
  import opened Wrappers
  import opened Jsonl
  import opened ArchiveRows
  import opened ArchiveExport
  import opened ArchiveVerify
  import opened ArchiveImport
  import opened ChecksumFile
  import P = Postings
  import Staging
  import V = VectorLookup

  /** A hash that prints as one word. */
  ghost predicate PrintsWords(sha: string -> string) {
    forall text :: Word(sha(text))
  }

  // ---- What an exported archive holds ----

  lemma {:induction false} MemberNamesDiffer()
    ensures DOCUMENTS_NAME != CHUNKS_NAME && DOCUMENTS_NAME != VECTORS_NAME && DOCUMENTS_NAME != LOCK_NAME
    ensures DOCUMENTS_NAME != MANIFEST_NAME && DOCUMENTS_NAME != CHECKSUMS_NAME
    ensures CHUNKS_NAME != VECTORS_NAME && CHUNKS_NAME != LOCK_NAME && CHUNKS_NAME != MANIFEST_NAME
              && CHUNKS_NAME != CHECKSUMS_NAME
    ensures VECTORS_NAME != LOCK_NAME && VECTORS_NAME != MANIFEST_NAME && VECTORS_NAME != CHECKSUMS_NAME
    ensures LOCK_NAME != MANIFEST_NAME && LOCK_NAME != CHECKSUMS_NAME && MANIFEST_NAME != CHECKSUMS_NAME
  {
    assert VECTORS_NAME[0] == 'v' && MANIFEST_NAME[0] == 'm';
  }

  lemma {:induction false} MemberNamesAreWords(includeVectors: bool)
    ensures forall i :: 0 <= i < |Names(includeVectors)| ==>
              Word(Names(includeVectors)[i]) && Names(includeVectors)[i] != ""
  {
    assert Word(DOCUMENTS_NAME) && Word(CHUNKS_NAME) && Word(VECTORS_NAME) && Word(LOCK_NAME);
  }

  lemma {:induction false} NoVectorRowsWithoutVectors(walked: seq<StoredPoint>)
    requires forall i :: 0 <= i < |walked| ==> walked[i].vector == []
    ensures VectorRows(walked) == []
  {
    if walked != [] {
      NoVectorRowsWithoutVectors(walked[..|walked| - 1]);
    }
  }

  lemma {:induction false} ClosedMembers(c: Codecs, sha: string -> string, s: Settings, documents: string,
                                         chunks: string, vectors: string, counts: Counts, observed: nat,
                                         carriesSparse: bool, includeVectors: bool)
    ensures var members :=
              Closed(c, sha, s, documents, chunks, vectors, counts, observed, carriesSparse, includeVectors);
            && REQUIRED_MEMBERS <= members.Keys && (VECTORS_NAME in members <==> includeVectors)
            && members[DOCUMENTS_NAME] == documents && members[CHUNKS_NAME] == chunks
            && members[LOCK_NAME] == (if s.lock.Some? then s.lock.value.text else "{}\n")
            && (includeVectors ==> members[VECTORS_NAME] == vectors)
            && members[MANIFEST_NAME]
                == c.manifest.dump(BuildManifest(s, counts, includeVectors, observed, carriesSparse))
  {
    MemberNamesDiffer();
  }

  lemma {:induction false} MemberReadsBack<R(!new)>(c: Codec<R>, members: Bundle, name: string, rows: seq<R>)
    requires name in members && members[name] == Written(c, rows) && Jsonl.Faithful(c, rows)
    ensures RowsIn(c, members, name) == rows
  {
    FileRoundTrip(c, rows);
  }

  lemma {:induction false} ExportedContents(c: Codecs, sha: string -> string, s: Settings, points: seq<StoredPoint>,
                                            includeVectors: bool)
    requires Readable(c, s, points, includeVectors) && points != []
    ensures var members := Exported(c, sha, s, points, includeVectors).value;
            var walked := WalkedAll(points, includeVectors);
            && REQUIRED_MEMBERS <= members.Keys && (VECTORS_NAME in members <==> includeVectors)
            && members[LOCK_NAME] == (if s.lock.Some? then s.lock.value.text else "{}\n")
            && c.manifest.parse(members[MANIFEST_NAME]) == Some(ManifestFor(s, points, includeVectors))
            && RowsIn(c.documents, members, DOCUMENTS_NAME) == DocumentRows(walked)
            && RowsIn(c.chunks, members, CHUNKS_NAME) == ChunkRows(walked)
            && RowsIn(c.vectors, members, VECTORS_NAME) == VectorRows(walked)
  {
    var walked := WalkedAll(points, includeVectors);
    var documents, chunks, vectors := DocumentRows(walked), ChunkRows(walked), VectorRows(walked);
    ClosedMembers(c, sha, s, Written(c.documents, documents), Written(c.chunks, chunks), Written(c.vectors, vectors),
                  Counts(|documents|, |chunks|, |vectors|), ObservedWidth(walked), CarriesSparse(vectors),
                  includeVectors);
    var members := Exported(c, sha, s, points, includeVectors).value;
    MemberReadsBack(c.documents, members, DOCUMENTS_NAME, documents);
    MemberReadsBack(c.chunks, members, CHUNKS_NAME, chunks);
    if includeVectors {
      MemberReadsBack(c.vectors, members, VECTORS_NAME, vectors);
    } else {
      NoVectorRowsWithoutVectors(walked);
    }
  }

  lemma {:induction false} ListingIsPlain(sha: string -> string, files: Bundle, names: seq<string>)
    requires PrintsWords(sha)
    requires forall i :: 0 <= i < |names| ==> names[i] in files && Word(names[i]) && names[i] != ""
    ensures PlainListing(Checksums(sha, files, names))
  {
  }

  lemma {:induction false} ListedDigestsHold(sha: string -> string, files: Bundle, members: Bundle, names: seq<string>)
    requires forall i :: 0 <= i < |names| ==>
        names[i] in files && names[i] in members && members[names[i]] == files[names[i]]
    ensures ChecksumsHold(sha, members, Checksums(sha, files, names))
  {
  }

  lemma {:induction false} PackingKeepsFiles(c: Codecs, sha: string -> string, files: Bundle, manifest: Manifest,
                                             includeVectors: bool, i: nat)
    requires forall j :: 0 <= j < |Names(includeVectors)| ==> Names(includeVectors)[j] in files
    requires i < |Names(includeVectors)|
    ensures var members, name := Packed(c, sha, files, manifest, includeVectors), Names(includeVectors)[i];
            name in members && members[name] == files[name]
  {
    MemberNamesDiffer();
  }

  /** Every digest listed is that of the member it names, and nothing packed later disturbs one. */
  lemma {:induction false} PackedChecksumsHold(c: Codecs, sha: string -> string, files: Bundle, manifest: Manifest,
                                               includeVectors: bool)
    requires PrintsWords(sha)
    requires forall i :: 0 <= i < |Names(includeVectors)| ==> Names(includeVectors)[i] in files
    ensures var members := Packed(c, sha, files, manifest, includeVectors);
            CHECKSUMS_NAME in members && ChecksumsHold(sha, members, Rows(ENTRIES, members[CHECKSUMS_NAME]))
  {
    var names := Names(includeVectors);
    var members := Packed(c, sha, files, manifest, includeVectors);
    MemberNamesAreWords(includeVectors);
    ListingIsPlain(sha, files, names);
    ListingRoundTrip(Checksums(sha, files, names));
    forall i | 0 <= i < |names| ensures names[i] in members && members[names[i]] == files[names[i]] {
      PackingKeepsFiles(c, sha, files, manifest, includeVectors, i);
    }
    ListedDigestsHold(sha, files, members, names);
    ChecksumsArePacked(c, sha, files, manifest, includeVectors);
  }

  lemma {:induction false} ChecksumsArePacked(c: Codecs, sha: string -> string, files: Bundle, manifest: Manifest,
                                              includeVectors: bool)
    requires forall i :: 0 <= i < |Names(includeVectors)| ==> Names(includeVectors)[i] in files
    ensures var members := Packed(c, sha, files, manifest, includeVectors);
            && CHECKSUMS_NAME in members
            && members[CHECKSUMS_NAME] == Written(ENTRIES, Checksums(sha, files, Names(includeVectors)))
  {
    MemberNamesDiffer();
  }

  lemma {:induction false} MajorsOfTheTwoFormats()
    ensures Major(FORMAT_VERSION) == "2" && Major(DENSE_ONLY_FORMAT_VERSION) == "1"
  {
    assert FORMAT_VERSION[1..][0] == '.' && DENSE_ONLY_FORMAT_VERSION[1..][0] == '.';
    assert Major(FORMAT_VERSION[1..]) == "" && Major(DENSE_ONLY_FORMAT_VERSION[1..]) == "";
  }

  // ---- References ----

  function DocumentId(p: StoredPoint): string
  {
    Text(p.payload, "document_id")
  }

  lemma {:induction false} EveryNamedDocumentHasARow(walked: seq<StoredPoint>)
    ensures forall id :: id in DocumentIds(DocumentRows(walked)) <==>
                           id != "" && exists i :: 0 <= i < |walked| && DocumentId(walked[i]) == id
  {
    if walked != [] {
      var n := |walked| - 1;
      EveryNamedDocumentHasARow(walked[..n]);
      IdsGrow(DocumentRows(walked[..n]), DocumentRecord(walked[n].payload));
      forall id ensures id in DocumentIds(DocumentRows(walked)) <==>
                          id != "" && exists i :: 0 <= i < |walked| && DocumentId(walked[i]) == id
      {
        if i :| 0 <= i < |walked| && DocumentId(walked[i]) == id {
          assert i == n || DocumentId(walked[..n][i]) == id;
        }
        if i :| 0 <= i < n && DocumentId(walked[..n][i]) == id {
          assert DocumentId(walked[i]) == id;
        }
      }
    }
  }

  lemma {:induction false} ChunksHaveDocumentsExactlyWhenNamed(walked: seq<StoredPoint>)
    ensures ChunksHaveDocuments(DocumentRows(walked), ChunkRows(walked))
       <==> forall i :: 0 <= i < |walked| ==> DocumentId(walked[i]) != ""
  {
    EveryNamedDocumentHasARow(walked);
    var rows := ChunkRows(walked);
    assert forall i :: 0 <= i < |walked| ==> rows[i].documentId == DocumentId(walked[i]);
    if ChunksHaveDocuments(DocumentRows(walked), rows) {
      forall i | 0 <= i < |walked| ensures DocumentId(walked[i]) != "" {
        assert rows[i].documentId in DocumentIds(DocumentRows(walked));
      }
    }
  }

  function PointIds(points: seq<Point>): (ids: seq<string>)
    ensures |ids| == |points| && forall i :: 0 <= i < |ids| ==> ids[i] == points[i].id
  {
    seq(|points|, i requires 0 <= i < |points| => points[i].id)
  }

  lemma {:induction false} VectorsFollowChunks(walked: seq<StoredPoint>) returns (at: seq<nat>)
    ensures V.Embeds(V.Ids(VectorRows(walked)), PointIds(walked), at)
    ensures forall i :: 0 <= i < |at| ==> at[i] < |walked|
  {
    if walked == [] {
      at := [];
    } else {
      var n := |walked| - 1;
      at := VectorsFollowChunks(walked[..n]);
      if walked[n].vector != [] {
        at := at + [n];
      }
    }
  }

  /** The exporter writes vectors in chunk order, so its own archives are read in step and need no index. */
  lemma {:induction false} ExportedVectorsAreInStep(walked: seq<StoredPoint>)
    ensures V.Subsequence(V.Ids(VectorRows(walked)), ChunkIds(ChunkRows(walked)))
    ensures V.Leftover(VectorRows(walked), ChunkIds(ChunkRows(walked))) == []
    ensures VectorsHaveChunks(VectorRows(walked), ChunkRows(walked))
  {
    var at := VectorsFollowChunks(walked);
    assert PointIds(walked) == ChunkIds(ChunkRows(walked));
    V.GreedyConsumesExactlySubsequences(VectorRows(walked), ChunkIds(ChunkRows(walked)));
    InOrderVectorsHaveChunks(VectorRows(walked), ChunkRows(walked));
  }

  // ---- Widths and postings ----

  lemma {:induction false} DeclaredWidthStays(declared: int, vectors: seq<VectorRow>)
    requires declared != 0
    ensures WidthInForce(declared, vectors) == declared
  {
    if vectors != [] {
      DeclaredWidthStays(declared, vectors[..|vectors| - 1]);
    }
  }

  lemma {:induction false} WidthsAgreeExactlyWithTheDeclared(declared: int, vectors: seq<VectorRow>)
    requires declared != 0
    ensures WidthsAgree(declared, vectors) <==> forall i :: 0 <= i < |vectors| ==> |vectors[i].vector| == declared
  {
    forall i | 0 <= i < |vectors| ensures WidthInForce(declared, vectors[..i]) == declared {
      DeclaredWidthStays(declared, vectors[..i]);
    }
  }

  lemma {:induction false} NoWidthNoVectors(walked: seq<StoredPoint>)
    requires ObservedWidth(walked) == 0
    ensures forall i :: 0 <= i < |walked| ==> walked[i].vector == []
  {
    if walked != [] {
      NoWidthNoVectors(walked[..|walked| - 1]);
    }
  }

  predicate VectorFits(p: StoredPoint, width: int) {
    p.vector != [] ==> |p.vector| == width
  }

  ghost predicate PostingsFit(p: StoredPoint) {
    p.vector != [] && p.sparse.Some? ==> P.Distinct(p.sparse.value.indices)
  }

  ghost predicate EveryRow(rows: seq<VectorRow>, q: VectorRow -> bool) {
    forall i :: 0 <= i < |rows| ==> q(rows[i])
  }

  ghost predicate EveryPoint(walked: seq<StoredPoint>, q: VectorRow -> bool) {
    forall i :: 0 <= i < |walked| ==> walked[i].vector != [] ==> q(VectorRecord(walked[i]))
  }

  lemma {:induction false} RowsAreThePointsWithVectors(walked: seq<StoredPoint>, q: VectorRow -> bool)
    ensures EveryRow(VectorRows(walked), q) <==> EveryPoint(walked, q)
  {
    if walked != [] {
      var n := |walked| - 1;
      var before, after := VectorRows(walked[..n]), VectorRows(walked);
      RowsAreThePointsWithVectors(walked[..n], q);
      assert forall i :: 0 <= i < n ==> walked[..n][i] == walked[i];
      assert EveryPoint(walked, q) <==>
          EveryPoint(walked[..n], q) && (walked[n].vector != [] ==> q(VectorRecord(walked[n])));
      if walked[n].vector != [] {
        assert after == before + [VectorRecord(walked[n])];
        assert after[|before|] == VectorRecord(walked[n]);
        assert forall i :: 0 <= i < |before| ==> after[i] == before[i];
        assert EveryRow(after, q) <==> EveryRow(before, q) && q(VectorRecord(walked[n]));
      } else {
        assert after == before;
      }
    }
  }

  ghost predicate EveryVectorFits(walked: seq<StoredPoint>, width: int) {
    forall i :: 0 <= i < |walked| ==> VectorFits(walked[i], width)
  }

  ghost predicate EveryPostingFits(walked: seq<StoredPoint>) {
    forall i :: 0 <= i < |walked| ==> PostingsFit(walked[i])
  }

  lemma {:induction false} ExportedWidthsAgree(s: Settings, points: seq<StoredPoint>, includeVectors: bool)
    ensures var walked, width := WalkedAll(points, includeVectors), ManifestFor(s, points, includeVectors).dimensions;
            WidthsAgree(width, VectorRows(walked)) <==> EveryVectorFits(walked, width)
  {
    var walked, width := WalkedAll(points, includeVectors), ManifestFor(s, points, includeVectors).dimensions;
    if width == 0 {
      NoWidthNoVectors(walked);
      NoVectorRowsWithoutVectors(walked);
    } else {
      var q := (row: VectorRow) => |row.vector| == width;
      RowsAreThePointsWithVectors(walked, q);
      WidthsAgreeExactlyWithTheDeclared(width, VectorRows(walked));
      assert EveryRow(VectorRows(walked), q) <==> WidthsAgree(width, VectorRows(walked));
      forall i | 0 <= i < |walked| ensures (walked[i].vector != [] ==> q(VectorRecord(walked[i]))) <==>
          VectorFits(walked[i], width) {
      }
      assert EveryPoint(walked, q) <==> EveryVectorFits(walked, width);
    }
  }

  lemma {:induction false} RecordFits(p: StoredPoint)
    requires p.vector != []
    ensures (VectorRecord(p).sparse.Some? ==> WellFormedPostings(VectorRecord(p).sparse.value)) <==> PostingsFit(p)
  {
    if p.sparse.Some? {
      P.RecordIsReadableExactlyWithoutRepeats(p.sparse.value);
    }
  }

  lemma {:induction false} ExportedPostingsAreWellFormed(walked: seq<StoredPoint>)
    ensures PostingsWellFormed(VectorRows(walked)) <==> EveryPostingFits(walked)
  {
    var q := (row: VectorRow) => row.sparse.Some? ==> WellFormedPostings(row.sparse.value);
    RowsAreThePointsWithVectors(walked, q);
    assert EveryRow(VectorRows(walked), q) <==> PostingsWellFormed(VectorRows(walked));
    forall i | 0 <= i < |walked| ensures (walked[i].vector != [] ==> q(VectorRecord(walked[i]))) <==>
        PostingsFit(walked[i]) {
      if walked[i].vector != [] {
        RecordFits(walked[i]);
      }
    }
    assert EveryPoint(walked, q) <==> EveryPostingFits(walked);
  }

  // ---- What the importer accepts of the exporter ----

  ghost predicate EveryDocumentNamed(points: seq<StoredPoint>)
  {
    forall i :: 0 <= i < |points| ==> DocumentId(points[i]) != ""
  }

  /** What a collection must be like for its archive to pass every check. */
  ghost predicate Exportable(s: Settings, points: seq<StoredPoint>, includeVectors: bool)
  {
    && EveryDocumentNamed(points)
    && EveryVectorFits(WalkedAll(points, includeVectors), ManifestFor(s, points, includeVectors).dimensions)
    && EveryPostingFits(WalkedAll(points, includeVectors))
  }

  function ExportContentVerdict(s: Settings, points: seq<StoredPoint>, includeVectors: bool): Option<Refusal>
  {
    var walked := WalkedAll(points, includeVectors);
    ContentVerdict(ManifestFor(s, points, includeVectors), DocumentRows(walked), ChunkRows(walked), VectorRows(walked))
  }

  /**
  An exported archive passes every check, and is read in step, exactly when each chunk names
  its document, each vector is as wide as the manifest says, and no postings repeat an index.
  */
  lemma {:induction false} ExportVerifiesExactly(c: Codecs, sha: string -> string, s: Settings,
                                                 points: seq<StoredPoint>, includeVectors: bool)
    requires Readable(c, s, points, includeVectors) && PrintsWords(sha) && points != []
    ensures var members := Exported(c, sha, s, points, includeVectors).value;
            && (Verdict(c, sha, members).None? <==> Exportable(s, points, includeVectors))
            && OffsetsKept(c, members).None?
  {
    var members := Exported(c, sha, s, points, includeVectors).value;
    var walked := WalkedAll(points, includeVectors);
    var m := ManifestFor(s, points, includeVectors);
    ExportedContents(c, sha, s, points, includeVectors);
    ExportedManifestIsReadable(c, sha, s, points, includeVectors);
    ContentVerdictOfExport(s, points, includeVectors);
    ExportedVectorsAreInStep(walked);
    assert Verdict(c, sha, members) == ExportContentVerdict(s, points, includeVectors);
  }

  // ---- In and out of the tar ----

  /** The members of an archive in the order they are packed. */
  function PackingOrder(includeVectors: bool): seq<string> {
    Names(includeVectors) + [CHECKSUMS_NAME, MANIFEST_NAME]
  }

  function Tarred(members: Bundle, names: seq<string>): (archive: seq<Staging.Member>)
    requires forall i :: 0 <= i < |names| ==> names[i] in members
    ensures |archive| == |names|
  {
    seq(|names|, i requires 0 <= i < |names| =>
      Staging.Member(names[i], true, |members[names[i]]|, members[names[i]], true))
  }

  /** Staging gives back what was packed, when it does not refuse. */
  lemma {:induction false} StagingUnpacks(sha: string -> string, members: Bundle, names: seq<string>, budget: nat)
    requires forall i :: 0 <= i < |names| ==> names[i] in members
    ensures var staged := Staging.StagedFrom(sha, Tarred(members, names), budget);
            staged.Ok? ==>
              && (forall name :: name in staged.value <==> name in names)
              && (forall name :: name in names ==> staged.value[name].contents == members[name])
  {
    if names != [] {
      var n := |names| - 1;
      assert Tarred(members, names)[..n] == Tarred(members, names[..n]);
      StagingUnpacks(sha, members, names[..n], budget);
      assert names == names[..n] + [names[n]];
    }
  }

  /** Each member and the archive as a whole stay within the importer's limits. */
  predicate WithinLimits(members: Bundle, names: seq<string>)
    requires forall i :: 0 <= i < |names| ==> names[i] in members
  {
    && (forall i :: 0 <= i < |names| ==> |members[names[i]]| <= Staging.MAXIMUM_MEMBER_BYTES)
    && Staging.TotalBytes(Tarred(members, names)) <= Staging.MAXIMUM_TOTAL_BYTES
  }

  lemma {:induction false} StagedExactlyWithinLimits(sha: string -> string, members: Bundle, names: seq<string>)
    requires forall i :: 0 <= i < |names| ==> names[i] in members && Staging.PlainName(names[i])
    ensures Staging.StagedFrom(sha, Tarred(members, names), Staging.MAXIMUM_TOTAL_BYTES).Ok? <==>
              WithinLimits(members, names)
  {
    var archive := Tarred(members, names);
    Staging.StagedExactlyAcceptable(sha, archive, Staging.MAXIMUM_TOTAL_BYTES);
    forall i | 0 <= i < |archive|
      ensures Staging.Acceptable(archive[i]) <==> |members[names[i]]| <= Staging.MAXIMUM_MEMBER_BYTES
    {
    }
  }

  /** An archive packed from these members is opened exactly when they pass every check and stay within the limits. */
  lemma {:induction false} OpensExactly(c: Codecs, sha: string -> string, members: Bundle, names: seq<string>)
    requires forall i :: 0 <= i < |names| ==> names[i] in members && Staging.PlainName(names[i])
    requires forall name :: name in members ==> name in names
    ensures var staged := Staging.StagedFrom(sha, Tarred(members, names), Staging.MAXIMUM_TOTAL_BYTES);
            && (staged.Ok? ==> Contents(staged.value) == members)
            && (OpenVerdict(c, sha, Tarred(members, names)).None? <==>
                WithinLimits(members, names) && Verdict(c, sha, members).None?)
  {
    StagedExactlyWithinLimits(sha, members, names);
    StagingUnpacks(sha, members, names, Staging.MAXIMUM_TOTAL_BYTES);
    var staged := Staging.StagedFrom(sha, Tarred(members, names), Staging.MAXIMUM_TOTAL_BYTES);
    if staged.Ok? {
      forall name ensures name in Contents(staged.value) <==> name in members {
        if name in names {
          var i :| 0 <= i < |names| && names[i] == name;
        }
      }
      assert Contents(staged.value) == members;
    }
  }

  lemma {:induction false} PackedNamesArePlain(includeVectors: bool)
    ensures forall i :: 0 <= i < |PackingOrder(includeVectors)| ==> Staging.PlainName(PackingOrder(includeVectors)[i])
  {
    assert Staging.PlainName(DOCUMENTS_NAME) && Staging.PlainName(CHUNKS_NAME) && Staging.PlainName(VECTORS_NAME);
    assert Staging.PlainName(LOCK_NAME) && Staging.PlainName(CHECKSUMS_NAME) && Staging.PlainName(MANIFEST_NAME);
  }

  lemma {:induction false} EveryMemberIsPacked(c: Codecs, sha: string -> string, s: Settings, points: seq<StoredPoint>,
                                               includeVectors: bool)
    requires points != []
    ensures var members := Exported(c, sha, s, points, includeVectors).value;
            forall name :: name in members <==> name in PackingOrder(includeVectors)
  {
  }

  /**
  The importer opens the packed archive of a collection exactly when the collection can be
  exported and its members stay within the importer's limits, which the exporter has none of.
  The reader then has the exported members, and no index.
  */
  lemma {:induction false} ExportOpensExactly(c: Codecs, sha: string -> string, s: Settings, points: seq<StoredPoint>,
                                              includeVectors: bool)
    requires Readable(c, s, points, includeVectors) && PrintsWords(sha) && points != []
    ensures var members, names := Exported(c, sha, s, points, includeVectors).value, PackingOrder(includeVectors);
            && (forall i :: 0 <= i < |names| ==> names[i] in members)
            && (OpenVerdict(c, sha, Tarred(members, names)).None? <==>
                Exportable(s, points, includeVectors) && WithinLimits(members, names))
            && var staged := Staging.StagedFrom(sha, Tarred(members, names), Staging.MAXIMUM_TOTAL_BYTES);
               (staged.Ok? ==> Contents(staged.value) == members)
  {
    var members, names := Exported(c, sha, s, points, includeVectors).value, PackingOrder(includeVectors);
    EveryMemberIsPacked(c, sha, s, points, includeVectors);
    forall i | 0 <= i < |names| ensures names[i] in members {
      assert names[i] in names;
    }
    PackedNamesArePlain(includeVectors);
    OpensExactly(c, sha, members, names);
    ExportVerifiesExactly(c, sha, s, points, includeVectors);
  }

  // ---- Edited archives ----

  ghost predicate Injective(sha: string -> string) {
    forall x, y :: sha(x) == sha(y) ==> x == y
  }

  /** The digest listed for a member is that of what was exported, whatever is put in its place. */
  lemma {:induction false} ListedDigestIsTheExports(c: Codecs, sha: string -> string, files: Bundle,
                                                    manifest: Manifest, includeVectors: bool, name: string,
                                                    bytes: string)
    requires PrintsWords(sha) && name in Names(includeVectors)
    requires forall i :: 0 <= i < |Names(includeVectors)| ==> Names(includeVectors)[i] in files
    ensures var members := Packed(c, sha, files, manifest, includeVectors);
            var edited := members[name := bytes];
            && name in members && members[name] == files[name]
            && edited.Keys == members.Keys && CHECKSUMS_NAME in members && MANIFEST_NAME in members
            && edited[MANIFEST_NAME] == members[MANIFEST_NAME]
            && (sha(files[name]), name) in Rows(ENTRIES, edited[CHECKSUMS_NAME])
  {
    var names := Names(includeVectors);
    var i :| 0 <= i < |names| && names[i] == name;
    MemberNamesDiffer();
    MemberNamesAreWords(includeVectors);
    ListingIsPlain(sha, files, names);
    ListingRoundTrip(Checksums(sha, files, names));
    ChecksumsArePacked(c, sha, files, manifest, includeVectors);
    PackingKeepsFiles(c, sha, files, manifest, includeVectors, i);
    assert Checksums(sha, files, names)[i] == (sha(files[name]), name);
  }

  /** A listed member that was edited is refused, and by the checksums when the checks before them pass. */
  lemma {:induction false} EditedMemberIsRefused(c: Codecs, sha: string -> string, edited: Bundle, name: string,
                                                 digest: string)
    requires CHECKSUMS_NAME in edited && MANIFEST_NAME in edited && name in edited && sha(edited[name]) != digest
    requires (digest, name) in Rows(ENTRIES, edited[CHECKSUMS_NAME])
    ensures Verdict(c, sha, edited).Some?
    ensures REQUIRED_MEMBERS <= edited.Keys && ManifestOf(c, edited).Some?
            && Major(ManifestOf(c, edited).value.formatVersion) in READABLE_MAJORS ==>
              Verdict(c, sha, edited) == Some(BadChecksum)
  {
    var listing := Rows(ENTRIES, edited[CHECKSUMS_NAME]);
    var i :| 0 <= i < |listing| && listing[i] == (digest, name);
    assert !ChecksumsHold(sha, edited, listing);
  }

  /** So the edited members of an export fail their checks. */
  lemma {:induction false} EditedExportIsRefused(c: Codecs, sha: string -> string, files: Bundle, m: Manifest,
                                                 includeVectors: bool, name: string, bytes: string)
    requires PrintsWords(sha) && Injective(sha) && name in Names(includeVectors)
    requires forall i :: 0 <= i < |Names(includeVectors)| ==> Names(includeVectors)[i] in files
    requires var members := Packed(c, sha, files, m, includeVectors);
             name in members && bytes != members[name] && REQUIRED_MEMBERS <= members.Keys
    requires Major(m.formatVersion) in READABLE_MAJORS
    ensures var edited := Packed(c, sha, files, m, includeVectors)[name := bytes];
            && Verdict(c, sha, edited).Some?
            && (c.Reads(m) ==> Verdict(c, sha, edited) == Some(BadChecksum))
  {
    var edited := Packed(c, sha, files, m, includeVectors)[name := bytes];
    ListedDigestIsTheExports(c, sha, files, m, includeVectors, name, bytes);
    EditedMemberIsRefused(c, sha, edited, name, sha(files[name]));
  }

  /** The data files an export stages. */
  function ExportedFiles(c: Codecs, s: Settings, points: seq<StoredPoint>, includeVectors: bool): (files: Bundle)
    ensures forall i :: 0 <= i < |Names(includeVectors)| ==> Names(includeVectors)[i] in files
  {
    var walked := WalkedAll(points, includeVectors);
    Files(s, Written(c.documents, DocumentRows(walked)), Written(c.chunks, ChunkRows(walked)),
          Written(c.vectors, VectorRows(walked)), includeVectors)
  }

  lemma {:induction false} ExportIsPacked(c: Codecs, sha: string -> string, s: Settings, points: seq<StoredPoint>,
                                          includeVectors: bool)
    requires points != []
    ensures var members := Exported(c, sha, s, points, includeVectors).value;
            && members == Packed(c, sha, ExportedFiles(c, s, points, includeVectors),
                                 ManifestFor(s, points, includeVectors), includeVectors)
            && REQUIRED_MEMBERS <= members.Keys
            && forall i :: 0 <= i < |PackingOrder(includeVectors)| ==> PackingOrder(includeVectors)[i] in members
    ensures Major(ManifestFor(s, points, includeVectors).formatVersion) in READABLE_MAJORS
  {
    MajorsOfTheTwoFormats();
    EveryMemberIsPacked(c, sha, s, points, includeVectors);
    var names := PackingOrder(includeVectors);
    forall i | 0 <= i < |names| ensures names[i] in Exported(c, sha, s, points, includeVectors).value {
      assert names[i] in names;
    }
  }

  /**
  Under an injective hash an exported archive in which any listed member was replaced by other
  bytes is never opened; where its manifest can be read and the limits are kept, the checksum is
  what refuses it.
  */
  lemma {:induction false} EditedArchiveIsNeverOpened(c: Codecs, sha: string -> string, s: Settings,
                                                      points: seq<StoredPoint>, includeVectors: bool, name: string,
                                                      bytes: string)
    requires PrintsWords(sha) && Injective(sha) && points != []
    requires var members := Exported(c, sha, s, points, includeVectors).value;
             name in Names(includeVectors) && name in members && bytes != members[name]
    ensures var edited := Exported(c, sha, s, points, includeVectors).value[name := bytes];
            var names := PackingOrder(includeVectors);
            && (forall i :: 0 <= i < |names| ==> names[i] in edited)
            && OpenVerdict(c, sha, Tarred(edited, names)).Some?
            && (c.Reads(ManifestFor(s, points, includeVectors)) && WithinLimits(edited, names) ==>
                OpenVerdict(c, sha, Tarred(edited, names)) == Some(Refused(BadChecksum)))
  {
    var members, names := Exported(c, sha, s, points, includeVectors).value, PackingOrder(includeVectors);
    ExportIsPacked(c, sha, s, points, includeVectors);
    EveryMemberIsPacked(c, sha, s, points, includeVectors);
    EditedExportIsRefused(c, sha, ExportedFiles(c, s, points, includeVectors), ManifestFor(s, points, includeVectors),
                          includeVectors, name, bytes);
    PackedNamesArePlain(includeVectors);
    OpensAsTheVerdict(c, sha, members[name := bytes], names);
  }

  lemma {:induction false} OpensAsTheVerdict(c: Codecs, sha: string -> string, members: Bundle, names: seq<string>)
    requires forall i :: 0 <= i < |names| ==> names[i] in members && Staging.PlainName(names[i])
    requires forall name :: name in members ==> name in names
    ensures Verdict(c, sha, members).Some? ==> OpenVerdict(c, sha, Tarred(members, names)).Some?
    ensures Verdict(c, sha, members).Some? && WithinLimits(members, names) ==>
              OpenVerdict(c, sha, Tarred(members, names)) == Some(Refused(Verdict(c, sha, members).value))
  {
    OpensExactly(c, sha, members, names);
    StagedExactlyWithinLimits(sha, members, names);
  }

  // ---- What the checks say of an export ----

  lemma {:induction false} ExportedManifestIsReadable(c: Codecs, sha: string -> string, s: Settings,
                                                      points: seq<StoredPoint>, includeVectors: bool)
    requires Readable(c, s, points, includeVectors) && PrintsWords(sha) && points != []
    ensures Major(ManifestFor(s, points, includeVectors).formatVersion) in READABLE_MAJORS
    ensures var members := Exported(c, sha, s, points, includeVectors).value;
            CHECKSUMS_NAME in members && ChecksumsHold(sha, members, Rows(ENTRIES, members[CHECKSUMS_NAME]))
  {
    MajorsOfTheTwoFormats();
    var walked := WalkedAll(points, includeVectors);
    PackedChecksumsHold(c, sha,
                        Files(s, Written(c.documents, DocumentRows(walked)), Written(c.chunks, ChunkRows(walked)),
                                      Written(c.vectors, VectorRows(walked)), includeVectors),
                        ManifestFor(s, points, includeVectors), includeVectors);
  }

  /** The manifest says truthfully whether postings are carried, so only malformed ones are left to refuse. */
  lemma {:induction false} ExportedPostingsVerdict(s: Settings, points: seq<StoredPoint>, includeVectors: bool)
    ensures PostingsVerdict(ManifestFor(s, points, includeVectors), VectorRows(WalkedAll(points, includeVectors))).None?
       <==> EveryPostingFits(WalkedAll(points, includeVectors))
  {
    MajorsOfTheTwoFormats();
    ExportedPostingsAreWellFormed(WalkedAll(points, includeVectors));
  }

  lemma {:induction false} ExportedReferencesVerdict(points: seq<StoredPoint>, includeVectors: bool)
    ensures var walked := WalkedAll(points, includeVectors);
            ReferencesVerdict(DocumentRows(walked), ChunkRows(walked), VectorRows(walked)).None? <==>
                EveryDocumentNamed(points)
  {
    var walked := WalkedAll(points, includeVectors);
    ChunksHaveDocumentsExactlyWhenNamed(walked);
    ExportedVectorsAreInStep(walked);
    assert forall i :: 0 <= i < |points| ==> DocumentId(walked[i]) == DocumentId(points[i]);
  }

  lemma {:induction false} ContentVerdictOfExport(s: Settings, points: seq<StoredPoint>, includeVectors: bool)
    ensures ExportContentVerdict(s, points, includeVectors).None? <==> Exportable(s, points, includeVectors)
  {
    ExportedReferencesVerdict(points, includeVectors);
    ExportedWidthsAgree(s, points, includeVectors);
    ExportedPostingsVerdict(s, points, includeVectors);
  }

  // ---- The round trip ----

  /** The row the exporter wrote for a point, if it had a vector. */
  function RowOf(p: StoredPoint): Option<VectorRow> {
    if p.vector != [] then Some(VectorRecord(p)) else None
  }

  lemma {:induction false} UnusedIdHasNoVector(walked: seq<StoredPoint>, id: string)
    requires id !in PointIds(walked)
    ensures V.Keyed(VectorRows(walked), id) == None
  {
    if walked != [] {
      var n := |walked| - 1;
      assert PointIds(walked) == PointIds(walked[..n]) + [walked[n].id];
      UnusedIdHasNoVector(walked[..n], id);
      LastRow(walked, id);
    }
  }

  lemma {:induction false} LastRow(walked: seq<StoredPoint>, id: string)
    requires walked != []
    ensures var n := |walked| - 1;
            V.Keyed(VectorRows(walked), id)
            == if walked[n].vector != [] && walked[n].id == id then RowOf(walked[n])
                else V.Keyed(VectorRows(walked[..n]), id)
  {
    var n := |walked| - 1;
    var before := VectorRows(walked[..n]);
    if walked[n].vector != [] {
      assert (before + [VectorRecord(walked[n])])[..|before|] == before;
    } else {
      assert VectorRows(walked) == before;
    }
  }

  lemma {:induction false} KeyedFindsTheRowOfThePoint(walked: seq<StoredPoint>, i: nat)
    requires V.Distinct(PointIds(walked)) && i < |walked|
    ensures V.Keyed(VectorRows(walked), walked[i].id) == RowOf(walked[i])
  {
    var n := |walked| - 1;
    var ids := PointIds(walked);
    assert PointIds(walked[..n]) == ids[..n];
    LastRow(walked, walked[i].id);
    if i < n {
      assert ids[i] != ids[n];
      KeyedFindsTheRowOfThePoint(walked[..n], i);
    } else {
      UnusedIdHasNoVector(walked[..n], walked[n].id);
    }
  }

  /** The first chunk of a document, whose payload the document row was made from. */
  function FirstWith(points: seq<StoredPoint>, id: string): (k: Option<nat>)
    ensures k.Some? ==> k.value < |points| && DocumentId(points[k.value]) == id
  {
    if points == [] then None
    else
      var n := |points| - 1;
      var before := FirstWith(points[..n], id);
      if before.Some? then before else if DocumentId(points[n]) == id then Some(n) else None
  }

  lemma {:induction false} MapKeysAreTheIds(rows: seq<DocumentRow>)
    ensures DocumentMap(rows).Keys == DocumentIds(rows)
  {
    if rows != [] {
      var n := |rows| - 1;
      MapKeysAreTheIds(rows[..n]);
      IdsGrow(rows[..n], rows[n]);
      assert rows == rows[..n] + [rows[n]];
    }
  }

  lemma {:induction false} MapGrows(rows: seq<DocumentRow>, row: DocumentRow)
    ensures DocumentMap(rows + [row]) == DocumentMap(rows)[row.documentId := row]
  {
    assert (rows + [row])[..|rows|] == rows;
  }

  /** The document a chunk is joined to is the one made from the first chunk that names it. */
  lemma {:induction false} DocumentIsTheFirstChunks(walked: seq<StoredPoint>, id: string)
    requires id != ""
    ensures var documents, first := DocumentMap(DocumentRows(walked)), FirstWith(walked, id);
            && (id in documents <==> first.Some?)
            && (first.Some? ==> documents[id] == DocumentRecord(walked[first.value].payload))
  {
    if walked != [] {
      var n := |walked| - 1;
      var before := DocumentRows(walked[..n]);
      DocumentIsTheFirstChunks(walked[..n], id);
      MapKeysAreTheIds(before);
      MapGrows(before, DocumentRecord(walked[n].payload));
    }
  }

  lemma {:induction false} EveryDocumentHasAFirstChunk(walked: seq<StoredPoint>, i: nat)
    requires i < |walked|
    ensures FirstWith(walked, DocumentId(walked[i])).Some?
  {
    if i < |walked| - 1 {
      EveryDocumentHasAFirstChunk(walked[..|walked| - 1], i);
    }
  }

  predicate KeywordLegSurvives(p: StoredPoint, hybrid: bool) {
    if hybrid then p.sparse.Some? && P.StrictlyAscending(p.sparse.value.indices) else p.sparse.None?
  }

  /** What a point must be like to come back as it was. */
  predicate ComesBack(points: seq<StoredPoint>, i: nat, m: Manifest, hybrid: bool)
    requires i < |points|
  {
    && points[i].vector != []
    && FirstWith(points, DocumentId(points[i])).Some?
    && Carried(points[i].payload, points[FirstWith(points, DocumentId(points[i])).value].payload, m.model,
               m.modelVersion)
    && KeywordLegSurvives(points[i], hybrid)
  }

  function CarriedLeg(p: StoredPoint): Option<P.SparseVector> {
    if p.sparse.Some? then Some(P.SparseRecord(p.sparse.value)) else None
  }

  lemma {:induction false} KeywordLegComesBackExactly(job: Job, p: StoredPoint, text: string)
    requires PostingsFit(p) && p.vector != []
    ensures KeywordLeg(job, text, CarriedLeg(p)) == p.sparse <==> KeywordLegSurvives(p, job.hybrid)
  {
    if p.sparse.Some? {
      P.PostingsSurviveExactlyInOrder(p.sparse.value);
    }
  }

  /** A point joined from its own rows is itself exactly when its payload and its keyword leg survive. */
  lemma {:induction false} PointComesBackExactly(job: Job, documents: map<string, DocumentRow>, p: StoredPoint)
    requires job.reembed.None? && PostingsFit(p) && DocumentId(p) in documents
    ensures PointFor(job, documents, ChunkRecord(p), RowOf(p)) == Ok(p)
       <==> && p.vector != []
            && Survives(p.payload, documents[DocumentId(p)], job.model, job.modelVersion)
            && KeywordLegSurvives(p, job.hybrid)
    ensures PointFor(job, documents, ChunkRecord(p), RowOf(p)).Ok? ==>
              PointFor(job, documents, ChunkRecord(p), RowOf(p)).value.id == p.id
  {
    if p.vector != [] {
      var row := ChunkRecord(p);
      KeywordLegComesBackExactly(job, p, row.text);
      PayloadSurvivesExactly(p, documents[DocumentId(p)], job.model, job.modelVersion);
      var payload := RestoredPayload(row, Some(documents[row.documentId]), job.model, job.modelVersion);
      assert PointFor(job, documents, row, RowOf(p))
          == Ok(Point(p.id, p.vector, payload, KeywordLeg(job, row.text, CarriedLeg(p))));
    }
  }

  lemma {:induction false} DistinctIdIsLast(points: seq<Point>, i: nat)
    requires V.Distinct(PointIds(points)) && i < |points|
    ensures LastWith(points, points[i].id) == Some(points[i])
  {
    var n := |points| - 1;
    assert PointIds(points[..n]) == PointIds(points)[..n];
    if i < n {
      assert PointIds(points)[i] != PointIds(points)[n];
      DistinctIdIsLast(points[..n], i);
    }
  }

  /** With distinct ids, upserting into an empty collection loses nothing: equal maps come from equal points. */
  lemma {:induction false} MapsAgreeExactlyWhenPointsDo(xs: seq<Point>, ys: seq<Point>)
    requires PointIds(xs) == PointIds(ys) && V.Distinct(PointIds(xs))
    ensures Upserted(map[], xs) == Upserted(map[], ys) <==> xs == ys
  {
    if Upserted(map[], xs) == Upserted(map[], ys) {
      forall i | 0 <= i < |xs| ensures xs[i] == ys[i] {
        assert PointIds(xs)[i] == PointIds(ys)[i];
        DistinctIdIsLast(xs, i);
        DistinctIdIsLast(ys, i);
        UpsertedAt(map[], xs, xs[i].id);
        UpsertedAt(map[], ys, xs[i].id);
      }
    }
  }

  /** The lookup over an exported archive answers each chunk with the row of its own point. */
  lemma {:induction false} LookupFindsEachPointsRow(c: Codecs, members: Bundle, points: seq<StoredPoint>, i: nat)
    requires V.Distinct(PointIds(points)) && i < |points|
    requires RowsIn(c.vectors, members, VECTORS_NAME) == VectorRows(points)
    ensures Found(c, members, None, ChunkIds(ChunkRows(points)))[i] == RowOf(points[i])
  {
    assert ChunkIds(ChunkRows(points)) == PointIds(points);
    ExportedVectorsAreInStep(points);
    V.LockstepRefinesKeyedLookup(VectorRows(points), PointIds(points), i);
    KeyedFindsTheRowOfThePoint(points, i);
  }

  ghost predicate AllComeBack(points: seq<StoredPoint>, m: Manifest, hybrid: bool)
  {
    forall i :: 0 <= i < |points| ==> ComesBack(points, i, m, hybrid)
  }

  /** For any way of joining that keeps ids: the same map is written exactly when every chunk joins to its own point. */
  lemma {:induction false} SameMapExactlyWhenEachPointJoins(join: Joiner, chunks: seq<ChunkRow>,
                                                            found: seq<Option<VectorRow>>, points: seq<StoredPoint>)
    requires |chunks| == |found| == |points| && V.Distinct(PointIds(points))
    requires forall i :: 0 <= i < |points| && join(chunks[i], found[i]).Ok? ==>
        join(chunks[i], found[i]).value.id == points[i].id
    ensures var written := Joined(join, chunks, found, |points|);
            |written| == |points| && Upserted(map[], written) == Upserted(map[], points)
            <==> forall i :: 0 <= i < |points| ==> join(chunks[i], found[i]) == Ok(points[i])
  {
    var written := Joined(join, chunks, found, |points|);
    JoinedIsCompleteExactly(join, chunks, found, |points|);
    if |written| == |points| {
      assert PointIds(written) == PointIds(points);
      MapsAgreeExactlyWhenPointsDo(written, points);
      assert written == points <==> forall i :: 0 <= i < |points| ==> written[i] == points[i];
    }
  }

  lemma {:induction false} ChunkJoinsToItsPointExactly(job: Job, points: seq<StoredPoint>, i: nat, m: Manifest)
    requires i < |points| && PostingsFit(points[i]) && DocumentId(points[i]) != ""
    requires job.reembed.None? && job.model == m.model && job.modelVersion == m.modelVersion
    ensures var join := JoinerFor(job, DocumentMap(DocumentRows(points)));
            var point := join(ChunkRows(points)[i], RowOf(points[i]));
            && (point == Ok(points[i]) <==> ComesBack(points, i, m, job.hybrid))
            && (point.Ok? ==> point.value.id == points[i].id)
  {
    DocumentIsTheFirstChunks(points, DocumentId(points[i]));
    EveryDocumentHasAFirstChunk(points, i);
    SurvivesExactlyWhenCarried(points[i].payload, points[FirstWith(points, DocumentId(points[i])).value].payload,
                               job.model, job.modelVersion);
    PointComesBackExactly(job, DocumentMap(DocumentRows(points)), points[i]);
  }

  function RowsOfPoints(points: seq<StoredPoint>): (found: seq<Option<VectorRow>>)
    ensures |found| == |points| && forall i :: 0 <= i < |found| ==> found[i] == RowOf(points[i])
  {
    seq(|points|, i requires 0 <= i < |points| => RowOf(points[i]))
  }

  /** What a vector copy of an exported archive writes: each chunk joined to its document row and its own vector row. */
  lemma {:induction false} ExportedIsJoined(c: Codecs, sha: string -> string, s: Settings, points: seq<StoredPoint>,
                                            job: Job)
    requires Readable(c, s, points, true) && points != [] && V.Distinct(PointIds(points))
    ensures var members := Exported(c, sha, s, points, true).value;
            && RowsIn(c.chunks, members, CHUNKS_NAME) == ChunkRows(points)
            && ToWrite(job, c, members, None)
               == Joined(JoinerFor(job, DocumentMap(DocumentRows(points))), ChunkRows(points), RowsOfPoints(points),
                         |points|)
  {
    var members := Exported(c, sha, s, points, true).value;
    assert WalkedAll(points, true) == points;
    ExportedContents(c, sha, s, points, true);
    var found := Found(c, members, None, ChunkIds(ChunkRows(points)));
    forall i | 0 <= i < |points| ensures found[i] == RowOf(points[i]) {
      LookupFindsEachPointsRow(c, members, points, i);
    }
    assert found == RowsOfPoints(points);
  }

  lemma {:induction false} ChunksJoinToTheirPointsExactly(job: Job, points: seq<StoredPoint>, m: Manifest)
    requires EveryPostingFits(points) && V.Distinct(PointIds(points))
    requires forall i :: 0 <= i < |points| ==> DocumentId(points[i]) != ""
    requires job.reembed.None? && job.model == m.model && job.modelVersion == m.modelVersion
    ensures var written :=
              Joined(JoinerFor(job, DocumentMap(DocumentRows(points))), ChunkRows(points), RowsOfPoints(points),
                     |points|);
            |written| == |points| && Upserted(map[], written) == Upserted(map[], points) <==>
                AllComeBack(points, m, job.hybrid)
  {
    var join := JoinerFor(job, DocumentMap(DocumentRows(points)));
    var chunks, found := ChunkRows(points), RowsOfPoints(points);
    forall i | 0 <= i < |points|
      ensures join(chunks[i], found[i]) == Ok(points[i]) <==> ComesBack(points, i, m, job.hybrid)
      ensures join(chunks[i], found[i]).Ok? ==> join(chunks[i], found[i]).value.id == points[i].id
    {
      ChunkJoinsToItsPointExactly(job, points, i, m);
    }
    SameMapExactlyWhenEachPointJoins(join, chunks, found, points);
  }

  /**
  Exporting a collection with its vectors and importing the archive by vector copy into an
  empty collection rebuilds the same map from id to vector, postings and payload exactly when
  every point has a vector, a payload the archive can carry, postings already in order, and a
  keyword leg just when the target keeps one.
  */
  lemma {:induction false} RoundTripRestoresExactly(c: Codecs, sha: string -> string, s: Settings,
                                                    points: seq<StoredPoint>, keywords: KeywordSettings)
    requires Readable(c, s, points, true) && points != [] && Exportable(s, points, true)
    requires V.Distinct(PointIds(points))
    ensures var members := Exported(c, sha, s, points, true).value;
            var m := ManifestFor(s, points, true);
            var job := JobOf(m, None, keywords);
            (Complete(job, c, members, None)
             && Upserted(map[], ToWrite(job, c, members, None)) == Upserted(map[], points))
            <==> AllComeBack(points, m, keywords.hybrid)
  {
    var job := JobOf(ManifestFor(s, points, true), None, keywords);
    assert WalkedAll(points, true) == points;
    ExportedIsJoined(c, sha, s, points, job);
    ChunksJoinToTheirPointsExactly(job, points, ManifestFor(s, points, true));
  }

  /**
  The manifest of an export names the space of the deployment that wrote it, and the width of the
  lock, else of the settings, else of the first vector; so the archive can be imported there by
  vector copy unless no width is known anywhere.
  */
  lemma {:induction false} ArchiveFitsWhereItWasExported(s: Settings, points: seq<StoredPoint>)
    ensures var m, vectors := ManifestFor(s, points, true), VectorRows(points);
            && m.includesVectors && OfTheTargetsSpace(m, s)
            && m.dimensions == (if s.lock.Some? && s.lock.value.dimensions != 0 then s.lock.value.dimensions
                                else if s.dimensions != 0 then s.dimensions else FirstWidth(vectors))
            && (StartRefusal(m, s, false, None, vectors).None? <==> m.dimensions != 0)
            && ((exists i :: 0 <= i < |points| && points[i].vector != []) ==> m.dimensions != 0)
  {
    assert WalkedAll(points, true) == points;
    ObservedIsTheFirst(points);
    if ObservedWidth(points) == 0 {
      NoWidthNoVectors(points);
      NoVectorRowsWithoutVectors(points);
    }
  }

  lemma {:induction false} FirstWidthGrows(rows: seq<VectorRow>, row: VectorRow)
    ensures FirstWidth(rows + [row]) == if FirstWidth(rows) != 0 then FirstWidth(rows) else |row.vector|
  {
    if rows == [] {
      assert [row][1..] == [] && rows + [row] == [row];
    } else {
      assert (rows + [row])[1..] == rows[1..] + [row];
      FirstWidthGrows(rows[1..], row);
    }
  }

  lemma {:induction false} ObservedIsTheFirst(points: seq<StoredPoint>)
    ensures ObservedWidth(points) == FirstWidth(VectorRows(points))
  {
    if points != [] {
      var n := |points| - 1;
      ObservedIsTheFirst(points[..n]);
      if points[n].vector != [] {
        FirstWidthGrows(VectorRows(points[..n]), VectorRecord(points[n]));
      } else {
        assert VectorRows(points) == VectorRows(points[..n]);
      }
    }
  }

  /**
  The whole way round, where the collection was exported: the import of its archive into a
  database without that collection can complete and then holds the collection again exactly
  when every point comes back.
  */
  lemma {:induction false} ImportRestoresTheExportExactly(c: Codecs, sha: string -> string, s: Settings,
                                                          points: seq<StoredPoint>, keywords: KeywordSettings,
                                                          collection: string, describe: map<string, string> -> string,
                                                          db: Database)
    requires Readable(c, s, points, true) && points != [] && Exportable(s, points, true)
    requires V.Distinct(PointIds(points)) && Place(db, collection) !in db.collections
    ensures var members, m := Exported(c, sha, s, points, true).value, ManifestFor(s, points, true);
            var p := PlanFor(c, members, None, m, s, keywords, collection, false, None, describe);
            (p.CanComplete(db) && p.Done(db).collections[collection].points == Upserted(map[], points))
            <==> AllComeBack(points, m, keywords.hybrid)
  {
    var members, m := Exported(c, sha, s, points, true).value, ManifestFor(s, points, true);
    assert WalkedAll(points, true) == points;
    ExportedContents(c, sha, s, points, true);
    RoundTripRestoresExactly(c, sha, s, points, keywords);
    ArchiveFitsWhereItWasExported(s, points);
    if AllComeBack(points, m, keywords.hybrid) {
      assert ComesBack(points, 0, m, keywords.hybrid);
    }
  }
}
