# fasterRag, modelled and verified

fasterRag's services rest on a set of small stateful algorithms: a portable archive that is
streamed out, verified and streamed back; rate, cost and failure windows under a clock; an
answer stream with a documented event order; context packing and citations; a crash-safe
job journal; alias swaps between index builds; identifiers and tenant names; and two
renderings of one histogram. This project models them in Dafny and proves what they promise
over every input, every run and every interleaving, or exactly when they keep it.

## How it is laid out

One module per component, in a file of the same name. Code that mutates objects is a class
whose methods are proved against functions of the old state (`CostGovernor`,
`CircuitBreaker`, `InProcessRateLimiter`, `RedisRateLimiter`, `GenerationService`, `Journal`,
`VectorDb`, `Histogram`, `JobIdSource`, `ArchiveReader`, `LockstepLookup`, `VectorStore`,
`LockStore`, `RowFile`); loops are methods with invariants; pure code is functions. The
theorems are lemmas about those functions, over whole runs.

- Archive: `Staging` (byte budget), `Jsonl` (line files), `ChecksumFile`, `Postings`,
  `ArchiveRows`, `ArchiveExport`, `VectorLookup` (joining vectors to chunks), `ArchiveVerify`,
  `ArchiveImport`, `ArchiveRoundTrip`.
- Windows and clocks: `RateLimit`, `SharedWindow`, `Budget`, `Breaker`.
- Answers: `Context`, `Citations`, `AnswerStream`.
- State on disk and in the index: `Journal`, `IngestResume`, `Reindex`.
- Names and reports: `Identity`, `JobIds`, `Tenancy`, `Text`, `Histogram`, `Replay`.

Every lemma is marked `{:induction false}`: each proof is the one written down.

`dafny verify dfyconfig.toml` checks the whole project.

## Where the code and its documentation part

The model follows the code. Each point below is a lemma in the table.

- The exporter writes archives its own importer refuses: a chunk without a document id, a
  vector of another width than the manifest's, or a repeated sparse index is enough
  (`ArchiveRoundTrip.ExportVerifiesExactly`), and so is an archive over the importer's byte
  limits, of which the exporter has none (`ArchiveRoundTrip.ExportOpensExactly`). An accepted
  archive restores the collection only under the exact condition of
  `ArchiveRoundTrip.ImportRestoresTheExportExactly`.
- A failed import into an existing collection always advises that re-running the same import
  completes it. When the cause is a chunk without a vector no re-run ever will
  (`ArchiveImport.RetriesConverge`, `ArchiveImport.CopyCompletesExactlyWhenEveryChunkHasAVector`).
- An import that fails when its target is an alias is reported as rolled back although it has
  written into the collection behind the alias: the drop goes by the alias's name, finds nothing,
  and nobody asks whether it did (`ArchiveImport.FailuresAreToldTrulyExactly`).
- Import is described as idempotent, but a vector copy of an archive whose manifest states no
  width is refused the second time: the lock the first import wrote holds the width the rows
  had (`ArchiveImport.ReimportIsAcceptedExactly`).
- A repeated chunk id can leave a chunk without the vector the archive has for it
  (`VectorLookup.LockstepAgreesExactly`).
- Default rollback goes to the greatest-named other build, which may be newer than the serving
  one and blocked by its own gate, or may belong to an alias whose name extends this one
  (`Reindex.BlockedBuildIsServedExactlyWhenNewest`, `Reindex.RollbackStaysHomeExactly`).
- Retention counts from a build's own stamp, so the build a swap has just replaced can be
  dropped at once (`Reindex.ReplacedBuildSurvivesExactlyWhenYoung`).
- Between rotating and publishing a journal file the job reads as unknown and its idempotency
  key is missed, although the previous file is whole (`Journal.LoadWorksExactlyWhilePrimaryExists`,
  `Journal.ReplayedKeyIsMissedInTheGap`).
- A document that is parsed but not yet indexed when the process dies can be lost for good: with
  deduplication it is remembered as ingested, and without it may lie below the checkpoint
  (`IngestResume.ResumeCompletesExactlyWhenCrashesAreHarmless`).
- After a crash between the renames of a checkpoint the job is not found, so nothing is resumed
  (`Journal.CrashInCheckpointRepeatsOneInterval`); and a save after damage puts the damaged record
  over the good copy before it is sure of the new one (`Journal.BrokenSaveKeepsExactlyAnUndamagedRecord`).
- A stream refused for its budget has already sent `meta`, so the client sees an error frame and
  not a refused request (`AnswerStream.BudgetRefusalFollowsMeta`).
- A request shed by the breaker reports its own refusal as a failure; if that report comes after
  the shedding period the breaker opens for another, with no provider called
  (`AnswerStream.ShedRequestProlongsTheOutageExactlyWhenLate`).
- A half-open breaker lets through every check that arrives before a probe has failed retryably
  (`Breaker.SecondCheckRefusedExactlyAfterFailedProbe`).
- A tenant can exceed its budget: by one charge for each request in flight beyond the first, and
  even alone by as much as a request is charged above its estimate, since the provider's own
  counts are charged and no check looks at them again (`Budget.RollingSpendBound`,
  `Budget.RequestsReachTheBound`, `Budget.SerialRequestsOverspend`).
- Job ids sort chronologically only while no millisecond hands out more than ten thousand
  (`JobIds.IdsSortExactlyWhileSequencesFit`).
- A replay diff calls lists with repeated ids identical when only their last positions agree
  (`Replay.IdenticalExactlyWhenPositionsAgree`).

## Model

| member | source | states |
|---|---|---|
| ArchiveExport.ExportArchive | src/fasterrag/services/archive.py:235-332 | The streaming writer, file by file and point by point, produces exactly the bundle that the rows, digests and manifest of the walked points make up; a walk of no points is refused. |
| ArchiveExport.WriteRows | src/fasterrag/services/archive.py:260-283 | The loop's files hold the document, chunk and vector rows of all points walked, in order, with the first width seen and whether any postings were carried. |
| ArchiveExport.WritePoint | src/fasterrag/services/archive.py:265-283 | One point adds a document row only for a new, non-empty document id, always a chunk row, and a vector row only when it has a vector. |
| ArchiveExport.RowFile.Write | src/fasterrag/services/archive.py:230-232 | A row appends one printed line and one to the count, and nothing else changes. |
| ArchiveExport.FormatStatesThePostings | src/fasterrag/services/archive.py:72-78 | The declared format is 2.x exactly when the export carries vectors and some stored point with a vector has postings, and 1.x otherwise. |
| Postings.RecordIsReadableExactlyWithoutRepeats | src/fasterrag/services/archive.py:150-160 | Writing postings permutes them without breaking index-weight pairs, and the result passes the importer's strictly-ascending test exactly when no index repeats. |
| Postings.RecordIsSorted | src/fasterrag/services/archive.py:150-160 | Postings are written in the order of their indices, and of their weights under one index. |
| Postings.PostingsSurviveExactlyInOrder | src/fasterrag/services/archive.py:150-160 | Postings that can be restored come back equal to the stored ones exactly when they were stored in ascending order. |
| ArchiveRows.PayloadSurvivesExactly | src/fasterrag/services/archive_import.py:964-991 | For every payload and document row: joining the chunk's own row back gives the stored payload if and only if the payload is one the two row formats can carry. |
| ArchiveRows.SurvivesExactlyWhenCarried | src/fasterrag/services/archive.py:119-127 | A chunk's payload survives through the document row of its document's first chunk if and only if it agrees with that chunk on source, content hash and document metadata, where the first chunk says anything, and carries the named fields the importer writes. |
| Jsonl.FileRoundTrip | src/fasterrag/services/archive_import.py:202-219 | Reading back the lines a writer appended yields exactly the rows written, in order, for a parser that reads those rows back. |
| Jsonl.NextRow | src/fasterrag/services/archive_import.py:374-380 | Returns the next non-blank row and leaves the handle just past it, or reports that no row is left. |
| Jsonl.RowsAreTheLines | src/fasterrag/services/archive_import.py:202-219 | The rows of any text are those of its lines, in order, blank lines giving none, and a last line needs no end. |
| Jsonl.OffsetsLocateRows | src/fasterrag/services/archive_import.py:590-604 | The prefix-sum offset recorded for a row is inside the file, and one line read from there is that row. |
| Staging.Drain | src/fasterrag/services/archive_import.py:425-452 | For any short reads: a member is refused exactly when it exceeds what is left of the budget; otherwise the staged file equals the source, and bytes written plus remaining budget is constant; no read asks for zero bytes or more than a block, and at most one byte past the budget is read. |
| Staging.StageMembers | src/fasterrag/services/archive_import.py:383-422 | The loop over members stages each plain file against one shared budget and stops at the first refusal, agreeing with the value-level definition. |
| Staging.StagedExactlyWithinBudget | src/fasterrag/services/archive_import.py:383-452 | An archive is staged exactly when every member is an acceptable plain file and the total size fits the ceiling; what remains of the budget is the rest. |
| Staging.RefusedForBytesExactlyWhenOverrun | src/fasterrag/services/archive_import.py:440-447 | Acceptable members are refused for size exactly when their bytes together exceed the ceiling. |
| Staging.StagedFilesAreTheirSources | src/fasterrag/services/archive_import.py:414-416 | After staging, each name holds the bytes and the digest of the last member of that name. |
| ArchiveVerify.OpenArchive | src/fasterrag/services/archive_import.py:455-484 | The members of the tar are staged and then verified: a reader is returned if and only if staging stays within its limits and what is then on disk is sound, that is, all required members are there, the manifest reads and has major 1 or 2, every listed digest is the hash of the staged bytes, the counts are the numbers of rows, every reference resolves, widths agree, and postings are well formed, declared, really there and not under major 1; the reader keeps an offset index exactly when the vectors do not follow the chunks. |
| ArchiveVerify.TheFirstFailingCheckRefuses | src/fasterrag/services/archive_import.py:487-686 | For any members: they pass if and only if each of the twelve checks, written out over the members and rows, does; otherwise the refusal is the first check that fails, in the order the code makes them. |
| ArchiveVerify.ArchiveReader.VerifyReferences | src/fasterrag/services/archive_import.py:555-587 | Refuses exactly when a chunk names an absent document or a vector an absent chunk, and sets the index exactly for vectors that are not a subsequence of the chunks. |
| ArchiveVerify.ChunksInStep | src/fasterrag/services/archive_import.py:562-578 | One pass holding one vector row decides whether all documents resolve and whether the greedy walk consumes every vector. |
| ArchiveVerify.VerifyChecksums | src/fasterrag/services/archive_import.py:509-530 | Comparing the digests taken while staging accepts exactly the listings whose every entry names a staged member with that digest. |
| ChecksumFile.ListingRoundTrip | src/fasterrag/services/archive_import.py:516-522 | A checksum file of plain digests and names, one line each with two spaces between, is read back exactly as the exporter wrote it. |
| ArchiveVerify.CountRows | src/fasterrag/services/archive_import.py:539-544 | Streaming a member counts exactly its rows. |
| ArchiveVerify.VerifyVectorWidths | src/fasterrag/services/archive_import.py:607-622 | Accepts exactly when each row has the width then in force, the declared one or else the first non-zero width met. |
| ArchiveVerify.VerifyKeywordLeg | src/fasterrag/services/archive_import.py:625-686 | Malformed postings first, then undeclared, then postings under the 1.x major, then declared but absent: the refusal is the first of these that applies. |
| VectorLookup.GreedyConsumesExactlySubsequences | src/fasterrag/services/archive_import.py:562-578 | The greedy pass uses up all vector rows if and only if their ids are a subsequence of the chunk ids. |
| VectorLookup.LockstepLookup.Lookup | src/fasterrag/services/archive_import.py:337-355 | One call hands out the next row when it is the asked chunk's, and otherwise keeps it pending and answers nothing. |
| VectorLookup.LockstepRefinesKeyedLookup | src/fasterrag/services/archive_import.py:337-355 | With distinct chunk ids and vectors in step, every call answers what a dictionary of all rows would. |
| VectorLookup.LockstepDeliversEachRowOnce | src/fasterrag/services/archive_import.py:337-355 | Over a whole walk the rows delivered and the rows left over are the vector file, in order: none is lost or given twice. |
| VectorLookup.LockstepAgreesExactly | src/fasterrag/services/archive_import.py:337-355 | For vectors in step and any repeats: the walk answers every chunk as a dictionary would if and only if rows of one id are alike and each id with a row is asked for as often as it has rows. |
| VectorLookup.RepeatedChunkIdsBreakLockstep | src/fasterrag/services/archive_import.py:340-341 | With a repeated chunk id the lockstep walk answers nothing where a dictionary still answers. |
| VectorLookup.VectorOffsets | src/fasterrag/services/archive_import.py:590-604 | The streaming loop builds exactly the index in which the last row of an id wins. |
| VectorLookup.SeekingRefinesKeyedLookup | src/fasterrag/services/archive_import.py:358-371 | Seeking through the index answers, for any id in any order, what a dictionary of all rows would. |
| ArchiveImport.LookupAnswersByKey | src/fasterrag/services/archive_import.py:233-249 | Over any archive that was opened, the lookup chosen answers every chunk in order as a dictionary would: always when an index was kept, and in step whenever chunk ids do not repeat. |
| ArchiveImport.LookupAnswersByKeyExactly | src/fasterrag/services/archive_import.py:233-249 | Whatever repeats, the lookup chosen answers all chunks as a dictionary would if and only if an index was kept or each id with a row is asked for once for each of its rows, which are alike. |
| ArchiveImport.OpenedVectors.Lookup | src/fasterrag/services/archive_import.py:233-249 | Either form of lookup gives the next of the answers the whole walk will give. |
| ArchiveImport.BatchesAreThePoints | src/fasterrag/services/archive_import.py:851-856 | Flushing writes the exact sequence of points once each, in full batches except the last, none empty, for any batch size. |
| ArchiveImport.Flush | src/fasterrag/services/archive_import.py:994-1010 | A flush embeds when asked and writes the whole batch, and fails if and only if the provider or the database fails a call; then part of the batch may be written. |
| ArchiveImport.WriteChunks | src/fasterrag/services/archive_import.py:795-859 | Every chunk is joined and written, batch by batch in order, and counted, if and only if every chunk can be written and no call fails. The error is a failed call when there was one, and otherwise that of the first chunk that cannot be written; what is left are points that an undisturbed run would write. |
| ArchiveImport.CopyCompletesExactlyWhenEveryChunkHasAVector | src/fasterrag/services/archive_import.py:826-834 | Every chunk of a vector copy can be written if and only if the lookup finds for each a vector whose posting lists have one length. |
| ArchiveImport.Abandon | src/fasterrag/services/archive_import.py:877-916 | A name that was not listed is dropped, by one call; the failure is reported as stranded exactly when that call fails, and as rolled back otherwise, whether or not the drop found a collection. A name that was listed is left with part of the points and reported as a mixture. |
| ArchiveImport.ImportArchive | src/fasterrag/services/archive_import.py:689-778 | An import completes if and only if nothing refuses it, the collection its name stands for fits, every chunk can be written and no call fails; it then leaves exactly the archive's points upserted there, no other collection changed, and its lock recorded. A refusal touches nothing; any other failure is blamed on a failed call, an unfitting collection or an unwritable chunk, and ends in a drop by the name given, or is reported as a mixture or a stranded collection and leaves exactly that. |
| ArchiveImport.RunImport | src/fasterrag/cli/commands/portability.py:67-102 | The import command end to end: an archive that is not sound is refused with database and locks untouched and nothing asked of the database, and any other ends exactly as its plan says, from the archive's bytes to the database and the lock. |
| ArchiveImport.CopyStartsExactly | src/fasterrag/services/archive_import.py:280-314 | For any manifest, lock and settings: a vector copy gets past its start if and only if the archive has vectors, names the model and version of the lock (without one, the configured model), its width is the declared one where one is declared, and some width is known; and which of these the refusal names. |
| ArchiveImport.ReembeddingStartsExactly | src/fasterrag/services/archive_import.py:702-733 | Re-embedding gets past its start if and only if there is a router and it or the settings state a width; the router's comes first. |
| ArchiveImport.CompletedImportIsOfOneSpace | src/fasterrag/services/archive_import.py:713-722 | A completed import has made one point of each chunk, in order; all of them and the lock name one model and version: the router's, which embedded each text, or the archive's, which is then the target's and whose own vector of each chunk is carried. Where the target keeps a keyword leg it is the archived one of a copied vector, and otherwise encoded from the chunk's text; elsewhere there is none. |
| ArchiveImport.CopyIsAsWideAsItsVectorsExactly | src/fasterrag/services/archive_import.py:719-733 | The collection that a vector copy of a verified archive opens is as wide as all its vectors if and only if the manifest states a width, the settings do not, or theirs is the vectors' own; the rest takes a lock without a width. |
| ArchiveImport.CompletedImportHoldsTheArchive | src/fasterrag/services/archive_import.py:735-778 | After a completed import every id in the collection the name stands for has the archive's last point of that id, or else what it had; its shape fits, and nothing else in the database has changed. |
| ArchiveImport.LockRecordsTheDocuments | src/fasterrag/services/archive_import.py:936-948 | The lock an import records is described by the content hash of every document of the archive, as the last row of its id has it. |
| ArchiveImport.FailuresAreToldTrulyExactly | src/fasterrag/services/archive_import.py:747-767 | Where no alias dangles: every way an import can fail leaves the database as it was, or says that it does not, if and only if the name is no alias of a collection, or the import never gets to write, or has nothing new to write. |
| ArchiveImport.DroppingUndoes | src/fasterrag/adapters/vectordb/pgvector.py:740-757 | After a failure a drop by the name given undoes everything written, unless the name is an alias; then it undoes nothing. |
| ArchiveImport.AliasHidesAMixture | src/fasterrag/services/archive_import.py:897-916 | For any alias of a collection that fits and any point of the archive it does not hold: an import that fails after writing that point is reported as rolled back and leaves it. |
| ArchiveImport.DocsImportIsAMixture | src/fasterrag/services/archive_import.py:897-916 | Concretely: an import into `docs`, an alias of the empty `docs-v1`, is reported as rolled back and leaves its point in `docs-v1`. |
| ArchiveImport.PartialWritesAreOverwritten | src/fasterrag/services/archive_import.py:887-895 | Whatever part of the points a failed attempt wrote, a complete attempt on top leaves the same collection as a single one. |
| ArchiveImport.RetriesConverge | src/fasterrag/services/archive_import.py:887-895 | After any number of attempts broken off anywhere, by alias or not, the next one completes if and only if a first attempt could have and no call fails; it then leaves the collections one undisturbed import leaves. |
| ArchiveImport.ReimportIsAcceptedExactly | src/fasterrag/services/archive_import.py:719-724 | After an import that recorded its lock the same import is accepted again if and only if it re-embeds or the manifest states a width; otherwise the recorded width refuses it. |
| ArchiveImport.SecondImportChangesNothing | src/fasterrag/services/archive_import.py:42-45 | Importing the same archive again, where it is accepted, completes unless a call fails, and changes nothing. |
| ArchiveRoundTrip.ExportedContents | src/fasterrag/services/archive.py:285-332 | Read back, an exported archive holds the rows of the walked points, its manifest, and the lock's text, or an empty object without a lock. |
| ArchiveRoundTrip.ExportVerifiesExactly | src/fasterrag/services/archive_import.py:487-686 | For every collection: the exported archive passes every check if and only if each chunk names its document, each vector has the manifest's width and no postings repeat an index; and it never needs an offset index. |
| ArchiveRoundTrip.ExportOpensExactly | src/fasterrag/services/archive_import.py:383-484 | The packed archive of a collection is opened if and only if the collection can be exported in that sense and its members keep the importer's byte limits, of which the exporter has none; the reader then has the exported members. |
| ArchiveRoundTrip.EditedArchiveIsNeverOpened | src/fasterrag/services/archive_import.py:509-530 | Under an injective hash: the packed archive of any collection, with any one listed member replaced by other bytes, is never opened; where its manifest can be read and the limits are kept, it is refused for its checksum. |
| ArchiveRoundTrip.ExportedVectorsAreInStep | src/fasterrag/services/archive.py:265-283 | The exporter's vector rows always follow its chunk rows, so its archives are read in lockstep. |
| ArchiveRoundTrip.RoundTripRestoresExactly | src/fasterrag/services/archive_import.py:813-859 | For every exportable collection with distinct ids: a vector copy of the archive into an empty collection completes and rebuilds the same id to (vector, postings, payload) map if and only if every point has a vector, a payload the archive carries, ordered postings, and postings exactly when the target is hybrid. |
| ArchiveRoundTrip.ImportRestoresTheExportExactly | src/fasterrag/services/archive_import.py:689-778 | Where the collection was exported: the import of its archive into any database without that collection can complete and leaves it restored if and only if every point comes back. |
| ArchiveRoundTrip.ArchiveFitsWhereItWasExported | src/fasterrag/services/archive_import.py:280-314 | The manifest an export writes has vectors, the model, version and width of the lock, or else of the settings, and for a width that neither states the first one seen; so a vector copy where it was written is refused only when no width is known at all. |
| Budget.CostGovernor.Check | src/fasterrag/services/budget.py:70-92 | Refuses over the query budget without touching any window, and otherwise evicts one tenant's window and decides on what is left; other tenants' windows are untouched. |
| Budget.CostGovernor.Record | src/fasterrag/services/budget.py:94-102 | Appends the charge to the evicted window of one tenant only; zero tokens or no tenant budget change nothing. |
| Budget.CostGovernor.SpentSince | src/fasterrag/services/budget.py:113-117 | The eviction loop leaves the window's remainder and returns its sum. |
| Budget.EvictionKeepsExactlyTheYoung | src/fasterrag/services/budget.py:115-116 | Of a window in time order, eviction keeps exactly the entries younger than the window length. |
| Budget.WindowCoversInterval | src/fasterrag/services/budget.py:113-117 | What the window holds now covers everything charged in any interval that is not over yet. |
| Budget.AdmittedExactlyWithinBothCaps | src/fasterrag/services/budget.py:70-92 | After any run: a request is admitted if and only if it is within the query ceiling and, on top of all its tenant was charged in the last window, within the tenant budget, a cap of zero or less asking nothing; the refusal names the ceiling first, else what was spent. |
| Budget.InFlightIsWithinTheCeiling | src/fasterrag/services/budget.py:70-77 | In no run is a request in flight whose worst case is over the query ceiling. |
| Budget.RollingSpendBound | src/fasterrag/services/budget.py:70-117 | Over every interleaving with at most k requests of a tenant in flight, none charged more than A, and none charged more than D above what it was admitted for: no interval of window length holds more than the budget plus (k - 1) A plus the smaller of A and D. Nothing in the code bounds a charge by its estimate; where one does, D is zero. |
| Budget.SerialSpendIsCapped | src/fasterrag/services/budget.py:70-117 | One request at a time keeps the tenant budget in every interval of window length, provided that no request is charged more than it was admitted for. |
| Budget.SerialRequestsOverspend | src/fasterrag/services/generation.py:464-484 | Without that proviso it does not: for every budget, window and excess D, some run of one request at a time spends exactly D (or the whole charge, if smaller) more than the budget in one window. |
| Budget.RequestsReachTheBound | src/fasterrag/services/budget.py:70-102 | The bound is tight for every budget, window length, A, D and k, as long as a request charged A can be admitted at all: some run with at most k in flight spends exactly the bound in one window. |
| Budget.WindowsAreSharedExactly | src/fasterrag/services/budget.py:109-111 | Two callers share a window if and only if they are one tenant, no tenant counting as the one without a name. |
| Budget.TenantsDoNotInterfere | src/fasterrag/services/budget.py:104-117 | Over every run, a tenant's window, and so each verdict on it, is what its own checks and charges make of it, whatever other tenants do in between. |
| RateLimit.InProcessRateLimiter.Allow | src/fasterrag/core/rate_limit.py:133-146 | Admits exactly when fewer than the limit are live in the window; the window of the identity, and no other, is updated accordingly. |
| RateLimit.SlidingWindowHolds | src/fasterrag/core/rate_limit.py:133-146 | In every run, an admission and the limit-th one after it are at least a window apart, for each identity. |
| RateLimit.NoIntervalHoldsMoreThanLimit | src/fasterrag/core/rate_limit.py:133-146 | No interval of window length holds more than the limit of one identity's admissions. |
| RateLimit.RefusedExactlyWhenWindowFull | src/fasterrag/core/rate_limit.py:138-143 | A request is refused if and only if at least the limit of all admissions ever made lie within the last window. |
| RateLimit.RetryAfterIsHonest | src/fasterrag/core/rate_limit.py:141-143 | The true wait x satisfies x < retry_after <= x + 1, and a retry after it with no admission in between is admitted. |
| SharedWindow.RedisServer.Transact | src/fasterrag/core/rate_limit.py:203-206 | The increment and the expiry happen in one step, on a counter that restarts once expired. |
| SharedWindow.CountsStartOverExactlyAtExpiry | src/fasterrag/core/rate_limit.py:203-206 | A counter goes on while its key lives and starts over at one once it has expired; no other key is affected. |
| SharedWindow.RedisRateLimiter.Allow | src/fasterrag/core/rate_limit.py:198-213 | Rules by the shared count of the request's bucket; an outage admits the request and counts nothing. |
| SharedWindow.BucketAdmitsExactlyLimit | src/fasterrag/core/rate_limit.py:193-213 | Over every interleaving of replicas whose clocks agree well enough, exactly the first `limit` requests of a bucket are admitted, because no counter expires inside its own bucket. |
| SharedWindow.IntervalAdmitsAtMostTwice | src/fasterrag/core/rate_limit.py:193-213 | Where replica and server clocks agree well enough, any interval of window length admits at most twice the limit, and besides that exactly the requests that met an outage of the shared store. |
| SharedWindow.RetryLandsInALaterBucket | src/fasterrag/core/rate_limit.py:210-212 | Waiting as told lands in a later bucket, and the advice is at most a second too long. |
| Breaker.CircuitBreaker.Check | src/fasterrag/core/breaker.py:120-131 | Refuses exactly when the breaker is enabled and open with its timeout not yet elapsed, with the time that remains at a second reading of the clock, and never less than none. |
| Breaker.CircuitBreaker.IsOpen | src/fasterrag/core/breaker.py:86-89 | Sheds exactly when enabled and open with the timeout not yet elapsed. |
| Breaker.CircuitBreaker.State | src/fasterrag/core/breaker.py:79-84 | Reading the state performs the half-open transition exactly when the timeout has elapsed. |
| Breaker.CircuitBreaker.RecordSuccess | src/fasterrag/core/breaker.py:133-136 | Closes from any state and clears the count. |
| Breaker.CircuitBreaker.RecordFailure | src/fasterrag/core/breaker.py:138-162 | A non-retryable failure or a disabled breaker changes nothing; a failed probe re-opens, and the threshold opens, at a second reading of the clock. |
| Breaker.CircuitBreaker.Reset | src/fasterrag/core/breaker.py:164-168 | Forces the breaker closed with nothing counted. |
| Breaker.LazyBreakerRefinesTimedAutomaton | src/fasterrag/core/breaker.py:79-168 | For every sequence of operations under a monotone clock the breaker admits, and shows, exactly what a machine does that goes half-open the instant the timeout elapses; closed implies failures below the threshold. |
| Breaker.OpensExactlyAtTheThreshold | src/fasterrag/core/breaker.py:138-162 | From closed, retryable failures in a row open the breaker at exactly the configured number, for a full timeout from the last. |
| Breaker.PermanentFailuresChangeNothing | src/fasterrag/core/breaker.py:143-144 | Any run of the breaker ends in the same fields and answers every check alike without its reports of non-retryable failures. |
| Breaker.OneProbePerTimeout | src/fasterrag/core/breaker.py:153-158 | Once open, a serial caller meeting only retryable failures gets at most one call through per timeout, whether or not it reports refusals. |
| Breaker.SecondCheckRefusedExactlyAfterFailedProbe | src/fasterrag/core/breaker.py:120-162 | A half-open breaker refuses a second check if and only if the probe has come back with a retryable failure less than a timeout ago; a probe still running, or failed for good, admits another. |
| Breaker.ConcurrentProbesAreAllAdmitted | src/fasterrag/core/breaker.py:120-131 | A concrete half-open breaker that admits two checks with no report between them. |
| Breaker.ShedCallExtendsTheOutageExactlyWhenLate | src/fasterrag/services/generation.py:742-779 | A refused call that reports its own refusal changes the observable breaker exactly when the report comes after the timeout has elapsed. |
| AnswerStream.GenerationService.ChargeBudget | src/fasterrag/services/generation.py:464-470 | Refuses exactly what the governor refuses for prompt plus maximum completion tokens; with no budget set nothing is looked at. |
| AnswerStream.GenerationService.Stream | src/fasterrag/services/generation.py:697-846 | The events and outcome, the breaker after its two reports, and the tenant's ledger after check and charge, for every request and clock. |
| AnswerStream.GenerationService.Relay | src/fasterrag/services/generation.py:744-756 | Every delta is kept, and passed on as a token unless the answer is gated. |
| AnswerStream.StreamFollowsTheGrammar | src/fasterrag/services/generation.py:697-846 | Every run emits meta, tokens, then one of the four endings, or raises before any terminal event; checked against an independent grammar of the event order. |
| AnswerStream.TerminalIsLastAndOnly | src/fasterrag/services/generation.py:697-846 | In any sequence the grammar accepts, done or error is the last event and the only one of either kind. |
| AnswerStream.EveryFramedStreamTerminates | src/fasterrag/api/query.py:57-88 | What a client sees always ends in exactly one done or one error frame, whatever typed error was raised. |
| AnswerStream.BudgetRefusalFollowsMeta | src/fasterrag/services/generation.py:725-741 | A budget refusal reaches the client as meta followed by an error frame, and nothing else ends that way. |
| AnswerStream.TokensSpellTheCitedAnswer | src/fasterrag/services/generation.py:744-829 | On success the concatenated tokens are the text the citations were resolved from, gated or not. |
| AnswerStream.GatedStreamSpeaksOnlyAfterTheVerdict | src/fasterrag/services/generation.py:697-797 | With grounded-or-refuse a stream that generates says nothing before the verdict, and a withheld answer is never said; a cache hit is said at once, as it was stored. |
| AnswerStream.SaidExactlyWhenGrounded | src/fasterrag/core/faithfulness.py:75-81 | A generation that ran to its end is said, by the stream and by the whole answer alike, if and only if there is no gate, no grade, or a grade at or above the threshold; each then has its own citations and token counts, and otherwise the stream is exactly meta, insufficient evidence and done, the whole answer has no text, and nothing is kept. |
| AnswerStream.HigherScoresSayTheSame | src/fasterrag/core/faithfulness.py:75-81 | An answer said at one score is said, unchanged, at every higher one. |
| AnswerStream.StoredExactlyWhenAnsweredInFull | src/fasterrag/services/generation.py:831-846 | An answer is cached exactly when caching is on and a full-quality generation ran to its end and was not withheld. |
| AnswerStream.HitReplaysTheStoredStream | src/fasterrag/services/generation.py:225-255 | A hit replays the stored stream: same text, same citations, same counts, and a complete sequence. |
| AnswerStream.GenerationService.AnswerWhole | src/fasterrag/services/generation.py:557-695 | The whole answer, what it keeps for the cache, the breaker after its two reports and the ledger after check and charge, for every request and clock: the breaker is told what a stream would tell it, and the tenant is charged the provider's own counts. |
| AnswerStream.StreamAndAnswerRaiseAlike | src/fasterrag/services/generation.py:557-846 | The streaming and the whole answer raise the same errors and keep answers in the same cases. |
| AnswerStream.StreamAgreesWithWholeAnswer | src/fasterrag/services/generation.py:557-846 | Where the model completes with the text it would stream: both say the same text and withhold the same answers, and differ only on retryable failures, where the stream fails and the whole answer falls back on the passages. |
| AnswerStream.ShedRequestProlongsTheOutageExactlyWhenLate | src/fasterrag/services/generation.py:742-779 | A request shed by the breaker, which never reached the provider, opens it for another period exactly when it reports back after the first has elapsed. |
| AnswerStream.BreakerHearsHowItEnded | src/fasterrag/services/generation.py:742-783 | After a request that was let through: a generation that ran to its end closes the breaker with nothing counted, a permanent failure leaves it as it was found, and a retryable one counts, opening it at the threshold or, after a probe, at once. |
| AnswerStream.ChargedWithinTheCheckExactly | src/fasterrag/services/generation.py:464-480 | What a stream is charged differs from what it was checked for by exactly what its completion is longer than the maximum asked of the model. |
| AnswerStream.ChargedExactlyForWhatRanToItsEnd | src/fasterrag/services/generation.py:472-480 | A generation that ran to its end is one more charge to its own tenant; a shed or failed one is none to anybody. |
| Context.AssembleContext | src/fasterrag/core/context.py:154-208 | The packing loop with its seen sets and counters computes the greedy packing, whose laws follow. |
| Context.PackingKeepsProvenance | src/fasterrag/core/context.py:176-206 | The packed texts are an order-preserving selection of the retrieved ones, and citation i describes the chunk of packed text i. |
| Context.AccountingReconciles | src/fasterrag/core/context.py:80-116 | Used, duplicate, over-budget and empty chunks add up to the input. |
| Context.EachCounterCountsItsFate | src/fasterrag/core/context.py:169-208 | Each of the counters counts exactly the chunks dropped for its own reason, and there are as many texts as chunks packed. |
| Context.BudgetIsNeverExceeded | src/fasterrag/core/context.py:194-206 | The tokens reported are the sum of the costs of the packed texts, separators not counted: at least one for each text, at least what the counter makes of them, and within the budget whenever anything was packed. |
| Context.NoTwoPackedTextsResemble | src/fasterrag/core/context.py:146-192 | No two packed texts are equal, or share as many words as the threshold times the number of words in the two together. |
| Context.PackingIsStable | src/fasterrag/core/context.py:176-206 | Lower-ranked chunks never change what higher-ranked ones were given. |
| Context.DroppedForAStatedReason | src/fasterrag/core/context.py:146-206 | A chunk left out is blank, equals a packed text or shares with it at least the threshold times the words of both, or would still overflow the finished context. |
| Context.ExactMatchIsAShortcut | src/fasterrag/core/context.py:182-187 | For thresholds up to one the exact-text test only short-cuts the similarity test. |
| Context.TermsAreTheWords | src/fasterrag/core/context.py:141-143 | The terms of a text are those on both sides of any white space, a text without any is its own one term, and case does not matter. |
| Context.SimilarityCountsSharedWords | src/fasterrag/core/context.py:146-151 | For sets of words that are not empty, the similarity reaches a threshold if and only if the words shared are that part of all words; it is one exactly for equal sets and zero exactly for disjoint ones. |
| Context.CitationDescribesItsChunk | src/fasterrag/core/context.py:119-138 | A citation has its chunk's id and source and the reranker's score, else the fused one; a page exactly when the payload states a whole number, and a span exactly when it states both ends. |
| Text.StripRemovesOnlySpace | src/fasterrag/core/context.py:174-174 | Stripping a text removes all white space at both ends and nothing else. |
| Citations.ResolveCitations | src/fasterrag/core/generation.py:88-114 | The loop returns the supplied citation of each known marker once, in order of first appearance, and collects exactly the markers that were never supplied. |
| Citations.MarkerIsFound | src/fasterrag/core/generation.py:51-58 | A marker for an id of the marker alphabet is found wherever it is put: the markers of the text around it are those before it, its own, and those after it. |
| Citations.OnlyCitableIdsResolve | src/fasterrag/core/generation.py:51-58 | An id reads back from its own marker if and only if it is a non-empty word of the marker alphabet. |
| Citations.ResolvedCitationsWereSupplied | src/fasterrag/core/generation.py:88-114 | Whatever the model writes, the resolved citations are in order of first appearance, so distinct, all supplied, and miss no supplied id that was marked. |
| Citations.EveryCitationWasInThePrompt | src/fasterrag/core/generation.py:61-114 | A citation resolved from any answer describes a retrieved chunk, and that chunk's stripped text stood in the prompt right under the marker the answer used and the citation's description. |
| Citations.PackedTextIsInThePrompt | src/fasterrag/core/generation.py:61-85 | The prompt is, around each packed text: what opens it or the passages before and a blank line, the marker of its own citation, the description, a line end, the text itself, and a blank line and the passages after, or what closes it and the question. |
| Citations.DescriptionNamesSourceAndPage | src/fasterrag/core/generation.py:61-68 | The description of a citation holds its source, unless missing or empty, and its page, unless missing, in that order, and is empty when it has neither. |
| Citations.QuestionComesLast | src/fasterrag/core/generation.py:79-85 | The prompts of two questions over one context differ only in the question at their end. |
| Journal.Journal.SaveJob | src/fasterrag/services/journal.py:246-248 | A save, interrupted or not between any two file steps, changes one job's files as rotate, stage and publish do. |
| Journal.Journal.Checkpoint | src/fasterrag/services/journal.py:291-305 | A due progress is recorded and saved; one that is not due, or with checkpoints off, changes nothing. |
| Journal.Journal.FindByIdempotencyKey | src/fasterrag/services/journal.py:279-289 | Finds a readable job with the key among those listed, and reports none only when there is none. |
| Journal.EnvelopeRoundTrip | src/fasterrag/services/journal.py:165-182 | A sealed record opens to itself, and under an injective checksum no other body opens under its seal. |
| Journal.LastCompletedSaveSurvives | src/fasterrag/services/journal.py:140-162 | Over every run of saves with a crash between any two steps, the last completed record is whole in the primary file, or in the previous one when the primary is absent, and the record before it is kept as long as the primary is there. |
| Journal.TemporaryIsLeftExactly | src/fasterrag/services/journal.py:140-162 | Over every run of saves, a temporary file is left if and only if the process died with one on disk and every later save died before staging its own. |
| Journal.LoadWorksExactlyWhilePrimaryExists | src/fasterrag/services/journal.py:250-277 | After any such run, loading works if and only if the primary file exists. |
| Journal.InterruptedSaveHidesTheJob | src/fasterrag/services/journal.py:146-149 | An unfinished save leaves the job loadable if and only if it stopped before the first rename; anywhere later the job reads as unknown although its previous file is whole. |
| Journal.NextSaveRestoresTheJob | src/fasterrag/services/journal.py:140-162 | The next completed save makes the job loadable again. |
| Journal.DamageDegradesToPreviousRecord | src/fasterrag/services/journal.py:258-277 | A damaged primary file loads the record before it, or is refused as corrupt when there is none. |
| Journal.WholeRecordLeftExactly | src/fasterrag/services/journal.py:140-277 | Over every run of saves interrupted anywhere and of detected damage to either file: a whole record is left if and only if the latest completed one is undamaged, or is in place with an undamaged one before it; and what loading answers in each case. |
| Journal.BrokenSaveKeepsExactlyAnUndamagedRecord | src/fasterrag/services/journal.py:140-149 | A save that breaks off after the first rename leaves a whole record if and only if the record then in place was undamaged, however whole the copy before it was. |
| Journal.ReplayedKeyIsMissedInTheGap | src/fasterrag/services/journal.py:279-289 | A replayed idempotency key can be recognised if and only if the primary file exists, whatever the previous file holds. |
| Journal.ForeignJobsLookAbsent | src/fasterrag/services/journal.py:250-277 | A job of another tenant is indistinguishable from one that does not exist. |
| Journal.ResumesAtTheLastInterval | src/fasterrag/services/journal.py:291-311 | After in-order progress through n documents the resume index is n rounded down to a multiple of the interval. |
| Journal.ResumeNeverSkips | src/fasterrag/services/journal.py:250-311 | The record loaded after any whole number of documents resumes without skipping one and with fewer than one interval to repeat; it stands at a boundary again, so the same holds of every later run. |
| Journal.CrashInCheckpointRepeatsOneInterval | src/fasterrag/services/journal.py:140-311 | A crash while a due checkpoint is written: the next load resumes exactly one whole interval back if it came before the first rename, and finds no job if it came anywhere between the renames. |
| IngestResume.ResumeCompletesExactlyWhenCrashesAreHarmless | src/fasterrag/services/ingestion.py:91-197 | With deduplication on or off, a finished run has indexed, or reported as dead, all content that can be parsed, if and only if at every crash whatever was in flight and not yet settled was neither remembered on disk for deduplication nor wholly below the checkpoint. |
| IngestResume.LossesAreHarmfulCrashes | src/fasterrag/workers/cpu_pool.py:194-266 | Over every run from any consistent state, content is lost at the end if and only if some was lost before or some crash was not harmless in that sense. |
| IngestResume.UnparsableDocumentsAreReported | src/fasterrag/workers/cpu_pool.py:194-266 | Over every run, whatever crashes: when it is finished, every document that cannot be parsed is among the dead letters. |
| IngestResume.AParsedDocumentCanBeLost | src/fasterrag/workers/cpu_pool.py:194-266 | With deduplication on or off: a concrete crash after which the job finishes with a document neither indexed nor reported. |
| Identity.Digest | src/fasterrag/core/identity.py:78-85 | Feeding the hasher length by length hashes exactly the framed stream. |
| Identity.FramingRoundTrip | src/fasterrag/core/identity.py:78-85 | The stream fed to the hasher is uniquely decodable, for any number of fields. |
| Identity.DigestInjective | src/fasterrag/core/identity.py:78-85 | Under an injective hash, equal digests mean equal lists of strings, of any arity. |
| Identity.NormaliseIdempotent | src/fasterrag/core/identity.py:102-119 | Normalising a normal form changes nothing. |
| Identity.NormalFormsAreKept | src/fasterrag/core/identity.py:102-119 | A source is refused exactly for a NUL, and is its own normal form if and only if it is a URL, or has no backslash and is no Windows path with capitals; so different URLs, and different POSIX paths, stay different. |
| Identity.SpellingsOfOneWindowsPathAgree | src/fasterrag/core/identity.py:102-119 | Two spellings of a Windows path that differ only in case and slashes normalise alike. |
| Identity.DocumentsCollideOnlyWhenEqual | src/fasterrag/core/identity.py:122-127 | Before truncation, documents share an id only with the same tenant and the same normalised source. |
| Identity.ChunksCollideOnlyWhenEqual | src/fasterrag/core/identity.py:130-136 | Before truncation, chunks share an id only with the same document, index and chunker hash. |
| Identity.DocumentsNeverCollideWithChunks | src/fasterrag/core/identity.py:122-136 | The digests of a document and of a chunk never coincide. |
| JobIds.JobIdSource.JobId | src/fasterrag/core/identity.py:139-151 | A new id renders the next stamp, which moves the source's clock and sequence forward. |
| JobIds.StampsIncrease | src/fasterrag/core/identity.py:139-151 | Stamps strictly increase even when the clock steps back. |
| JobIds.IdsSortExactlyWhileSequencesFit | src/fasterrag/core/identity.py:139-151 | While milliseconds fit their column, the ids of a process sort in the order they were issued, for all random tails, if and only if no sequence reached ten thousand. |
| JobIds.IdsAreDistinct | src/fasterrag/core/identity.py:139-151 | While stamps fit their columns, two ids are equal if and only if both the stamp and the random part are. |
| JobIds.OverflowSortsBackwards | src/fasterrag/core/identity.py:139-151 | The ten-thousand-and-first id of a millisecond sorts before the one before it. |
| Tenancy.VisibleExactlyToItsOwner | src/fasterrag/services/tenancy.py:54-81 | A scoped name is visible to a valid tenant if and only if that tenant scoped it. |
| Tenancy.ValidExactly | src/fasterrag/services/tenancy.py:29-45 | A tenant is valid if and only if, one final newline aside, it starts with a letter or digit, has only those and dots, dashes and underscores, no two underscores in a row and none at its end. |
| Tenancy.ScopingInjective | src/fasterrag/services/tenancy.py:54-62 | Two scoped names are equal only when both the tenants and the names are. |
| Tenancy.UnscopingInverts | src/fasterrag/services/tenancy.py:65-74 | Unscoping gives back the name that was scoped, for any valid tenant or none. |
| Tenancy.ForeignNamesAreUntouched | src/fasterrag/services/tenancy.py:65-74 | Unscoping another tenant's name leaves it as it is. |
| Tenancy.CollisionExactlyWhenPrefixesNest | src/fasterrag/services/tenancy.py:32-51 | Without the rules, names of two tenants can coincide exactly when one scoping prefix starts the other. |
| Tenancy.TrailingRuleIsNeeded | src/fasterrag/services/tenancy.py:32-51 | Without the rule on a trailing underscore two tenants share a name. |
| Tenancy.SeparatorRuleIsNeeded | src/fasterrag/services/tenancy.py:32-51 | Without the rule on the separator two tenants share a name. |
| Reindex.PlanRefusedExactlyWhenItWouldShadow | src/fasterrag/services/reindex.py:230-307 | Among aliases that hide no collection, a plan is refused as a conflict if and only if swapping its alias in would hide one; otherwise it names what the alias serves, a new build of its own prefix and stamp, and the gate and window asked for, and its swap moves the alias unless that gate ran and failed. |
| Reindex.VectorDb.Swap | src/fasterrag/services/reindex.py:257-307 | The alias moves to the new build unless a gate that ran failed; nothing else changes. |
| Reindex.VectorDb.Rollback | src/fasterrag/services/reindex.py:310-344 | The alias moves to the named build, unchecked, or else to the greatest-named other build; with none it is refused and nothing changes. |
| Reindex.VectorDb.Retire | src/fasterrag/services/reindex.py:347-384 | Drops exactly the expired builds of the alias and reports them; aliases are untouched. |
| Reindex.LastSorted | src/fasterrag/services/reindex.py:318-324 | The candidate picked is the greatest by code-point order. |
| Reindex.AliasAlwaysResolves | src/fasterrag/services/reindex.py:257-384 | In every run of build, swap, rollback and retire, the alias resolves to an existing collection after each step if and only if no swap or named rollback points it at a missing one and no retirement for another alias drops what it serves. |
| Reindex.OrdinaryUseAlwaysResolves | src/fasterrag/services/reindex.py:257-384 | However an alias is rebuilt, gates passing or not, rolled back by default and retired, it resolves after every step. |
| Reindex.DefaultRollbackTakesTheNewest | src/fasterrag/services/reindex.py:310-344 | Under fixed-width stamps the default target is the newest other build. |
| Reindex.RollbackGoesBackExactlyWhenServingTheLatest | src/fasterrag/services/reindex.py:310-344 | Default rollback goes to the build before the serving one if and only if the serving one is the newest. |
| Reindex.RollbackUndoesSwap | src/fasterrag/services/reindex.py:257-344 | After a swap the default rollback restores the state before it if and only if the replaced build is the greatest of the other builds. |
| Reindex.BlockedBuildIsServedExactlyWhenNewest | src/fasterrag/services/reindex.py:310-344 | Default rollback serves a build its own gate blocked if and only if no retained build has a later stamp. |
| Reindex.GateBlockedBuildIsRestored | src/fasterrag/services/reindex.py:310-344 | For any alias and stamps: after builds one, two and a blocked third of a later stamp than the first, rolling back from the second serves the third. |
| Reindex.ReplacedBuildSurvivesExactlyWhenYoung | src/fasterrag/cli/commands/pipeline.py:574-589 | When retire follows a swap, the replaced build survives if and only if its own build stamp is no older than the retention, or cannot be read. |
| Reindex.OldBlueCannotBeRolledBackTo | src/fasterrag/cli/commands/pipeline.py:574-589 | When retire follows a swap and the replaced build is older than the retention, rolling back to it by name leaves the alias on nothing, and the default rollback is refused if and only if every other build but the one served is as old. |
| Reindex.BuildsAreSharedExactlyWhenAliasesNest | src/fasterrag/services/reindex.py:75-78 | A build of one alias is taken for a build of another exactly when their prefixes nest. |
| Reindex.RetireSparesForeignBuilds | src/fasterrag/services/reindex.py:347-384 | Retire never drops a build of another alias, whose remainder is not a readable stamp. |
| Reindex.RollbackStaysHomeExactly | src/fasterrag/services/reindex.py:310-344 | Default rollback stays with the alias's own builds if and only if one of them is named after every other retained build that matches the prefix. |
| Reindex.LetterExtensionsAlwaysWin | src/fasterrag/services/reindex.py:318-324 | The builds of an alias that extends this one's build prefix with a letter are named after all its own builds, whatever the stamps. |
| Reindex.RollbackCanCrossAliases | src/fasterrag/services/reindex.py:310-344 | For any alias so extended and any stamps, default rollback serves the other alias's build although an own one is retained. |
| Reindex.DocsRollsBackToAnotherAlias | src/fasterrag/services/reindex.py:310-344 | With stamps as the code makes them, `docs` is rolled back to the build of `docs-vx`. |
| Histogram.Histogram.Observe | src/fasterrag/observability/metrics.py:238-248 | An observation adds one value to one series and keeps every tally equal to the values it stands for. |
| Histogram.Histogram.Render | src/fasterrag/observability/metrics.py:260-277 | Each rendered bucket is the number of observed values up to its bound, the last is the count, and the sum is theirs. |
| Histogram.Histogram.Samples | src/fasterrag/observability/metrics.py:279-305 | The sampled series is the same cumulative one, with the same count and sum. |
| Histogram.SumsAdd | src/fasterrag/observability/metrics.py:238-248 | The sum of observations is that of their parts, and of a single one its value. |
| Histogram.PerBucketCounts | src/fasterrag/observability/otel_metrics.py:42-49 | The loop with its clamp computes the differences of neighbours. |
| Histogram.DifferencesInvertExactlyMonotoneSeries | src/fasterrag/observability/otel_metrics.py:42-49 | Summing the differences gives the series back if and only if it is monotone, which is when the clamp never fires. |
| Histogram.CumulativeIsMonotone | src/fasterrag/observability/metrics.py:279-305 | The cumulative series of any observations is monotone and ends at the count. |
| Histogram.HistogramPointIsExact | src/fasterrag/observability/otel_metrics.py:62-75 | For any observations the exported point has one more count than bounds, the counts sum to the total, and each is the number of values that fall in its bucket. |
| Replay.DiffIsLossless | src/fasterrag/services/replay.py:59-72 | For distinct ids the original list and the diff rebuild the replayed list. |
| Replay.DiffDeterminesReplay | src/fasterrag/services/replay.py:59-72 | Two replays with the same diff are the same. |
| Replay.MovedExactlyWhenRanksDiffer | src/fasterrag/services/replay.py:59-72 | For distinct ids a move is reported if and only if its chunk stands at the two ranks it gives, counted from one, in the two lists, and these differ. |
| Replay.IdenticalExactlyWhenEqual | src/fasterrag/services/replay.py:45-47 | For distinct ids the diff is empty if and only if the two lists are equal. |
| Replay.IdenticalExactlyWhenPositionsAgree | src/fasterrag/services/replay.py:45-47 | For any lists the diff is empty if and only if they hold the same ids at the same last positions. |
| Replay.RepeatsHideADifference | src/fasterrag/services/replay.py:45-47 | Two different lists with a repeated id that are called identical. |
| Replay.SeatsAddUp | src/fasterrag/services/replay.py:59-72 | For distinct ids, the original less the removed plus the added is the length of the replay. |

## Left out

- HTTP routing, the command line, dashboards, containers, and the network export of metrics and traces.
- Language model, embedding and vector database adapters: a model is a sequence of deltas or a typed failure, an embedder a function of the text, a database a map of collections whose calls may fail.
- Bytes and encodings: tar, gzip, JSON, UTF-8 and SHA-256 are parameters. Where a law needs it, the parser is assumed to read back the rows and the manifest its printer wrote, which some printer and parser always do (`ArchiveExport.SomeCodecsCarryEveryExport`), and the hash to print as one word or to be injective, and the lemma says so.
- Rows and payload fields of the wrong JSON type: rows are read as typed records, and `ArchiveRows.Shaped` states the types the indexer stores. The importer's refusals of a sparse entry that is not an object with two lists are therefore not modelled.
- Lines end at a newline only, and blank, upper-case and word characters are the ASCII ones.
- Floating point: times, scores, weights and budgets in seconds are reals.
- ArchiveImport.ImportArchive: of the lockfile written after a successful import the model, its version, the width and the document hashes are modelled, the rest is a function of the hashes; the copy of the archive's own lock that is kept beside it is not.
- ArchiveImport.ImportArchive: names and aliases resolve as in the pgvector and Chroma adapters, a collection's own name first; how Qdrant's server resolves them is not part of this model.
- ArchiveImport.Flush: a point of another width than its collection is a call that fails; which calls fail is a fixed function of the call's number; the provider embeds a text to the same vector each time, and a result of the wrong length is one of its failures.
- ArchiveVerify.OpenArchive: the refusal names the check that failed, not the member or row that failed it; removing the staging directory is not modelled.
- ArchiveRoundTrip.EditedArchiveIsNeverOpened: the manifest and the list of checksums are themselves not listed, so their edits are found only by the checks on what they say.
- AnswerStream.GenerationService.Stream: preparing the prompt, grading and the cache lookup are inputs of the request; traces, timings and metrics are not modelled.
- AnswerStream.HitReplaysTheStoredStream: the rounding of citation scores when an answer is stored is not modelled.
- SharedWindow.RedisRateLimiter.Allow: namespaces and connection set-up are not modelled; the fingerprint is a parameter.
- JobIds.JobIdSource.JobId: the lock around the counter is not modelled; calls are sequential.
- Identity.DocumentsCollideOnlyWhenEqual: states the digest before it is cut to sixteen characters.
- IngestResume.ResumeCompletesExactlyWhenCrashesAreHarmless: one job at a time; a document is written to the index in one step, and the checkpoint is a number that is always saved whole (`Journal` has the crash within a save).
- Reindex.AliasAlwaysResolves: an alias can be pointed at a missing collection, which the pgvector and Chroma adapters refuse; and a drop leaves aliases alone, where those adapters remove the aliases of what they drop.
- Reindex.VectorDb.Retire: reading a stamp as a time is a parameter; the keyword-leg audit and lock clean-up are not modelled.
- Threads and asynchronous scheduling, except where a run of interleaved steps is the subject (the governor, the shared window).
- Peripheral tools: the docstring trimmer, the mutation runner, nested configuration overrides, the autopilot's scratch collections, the secrets file and the benchmark's percentiles.
- Rank fusion, BM25 encoding, chunkers, worker pools and the semantic cache, beyond the parts named above.
