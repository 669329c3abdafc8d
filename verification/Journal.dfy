/**
Job records on disk, services/journal.py. One job owns three paths: the record, its `.prev`
copy and a `.tmp` file. A rename is one atomic step; a crash can fall between any two
steps, and can leave any bytes at all in a file that was being written.
*/
module Journal {
  import opened Wrappers

  /** `body` is every field the journal only carries. */
  datatype JobRecord = JobRecord(jobId: string, tenant: Option<string>, idempotencyKey: Option<string>,
                                 checkpoint: Option<nat>, body: string)

  /** What a file holds: the two-field envelope, or bytes that are not one. */
  datatype File = Envelope(checksum: string, body: string) | Unreadable

  /** JSON and the hash. */
  datatype Codec = Codec(dump: JobRecord -> string, parse: string -> Option<JobRecord>, sha: string -> string) {
    ghost predicate Faithful() {
      forall r :: parse(dump(r)) == Some(r)
    }
  }

  function Seal(c: Codec, r: JobRecord): File {
    Envelope(c.sha(c.dump(r)), c.dump(r))
  }

  /** `_open_envelope`. */
  function OpenEnvelope(c: Codec, f: File): Option<JobRecord> {
    match f
    case Unreadable => None
    case Envelope(checksum, body) => if c.sha(body) != checksum then None else c.parse(body)
  }

  /** Sealing and opening is the identity, and no other body passes under a sealed checksum. */
  lemma {:induction false} EnvelopeRoundTrip(c: Codec, r: JobRecord, body: string)
    requires c.Faithful() && (forall x, y :: c.sha(x) == c.sha(y) ==> x == y)
    ensures OpenEnvelope(c, Seal(c, r)) == Some(r)
    ensures OpenEnvelope(c, Envelope(Seal(c, r).checksum, body)).Some? ==> body == c.dump(r)
  {
  }

  datatype Slot = Slot(primary: Option<File>, previous: Option<File>, temporary: Option<File>)

  const Empty := Slot(None, None, None)

  // ---- The three file steps of `_write_atomically` ----

  function Rotate(s: Slot): Slot {
    if s.primary.Some? then s.(previous := s.primary, primary := None) else s
  }

  function Stage(s: Slot, f: File): Slot {
    s.(temporary := Some(f))
  }

  function Publish(s: Slot): Slot {
    s.(primary := s.temporary, temporary := None)
  }

  /** Where a write stops. `MidStage` leaves a torn temporary file. */
  datatype Interruption = Never | BeforeRotate | BeforeStage | MidStage(torn: File) | BeforePublish

  /** An interruption is either the death of the process or an OSError, whose handler removes the temporary file. */
  function WriteAtomically(s: Slot, f: File, how: Interruption, crash: bool): Slot {
    var left :=
      match how
      case BeforeRotate => s
      case BeforeStage => Rotate(s)
      case MidStage(torn) => Stage(Rotate(s), torn)
      case BeforePublish => Stage(Rotate(s), f)
      case Never => Publish(Stage(Rotate(s), f));
    if how.Never? || crash then left else left.(temporary := None)
  }

  datatype LoadError = NotFound | Corrupt

  function LoadJob(c: Codec, s: Slot, tenant: Option<string>): Result<JobRecord, LoadError> {
    match s.primary
    case None => Err(NotFound)
    case Some(f) =>
      var payload :=
        match OpenEnvelope(c, f)
        case Some(r) => Some(r)
        case None => if s.previous.Some? then OpenEnvelope(c, s.previous.value) else None;
      match payload
      case None => Err(Corrupt)
      case Some(r) => if tenant.Some? && r.tenant != tenant then Err(NotFound) else Ok(r)
  }

  /** `ingestion.journal.checkpoint_every`, at least one by the settings schema. */
  type Interval = n: int | 1 <= n witness 1

  class Journal {
    const codec: Codec
    const checkpointEvery: Interval
    const enabled: bool
    var slots: map<string, Slot>

    constructor (codec: Codec, checkpointEvery: Interval, enabled: bool)
      ensures this.codec == codec && this.checkpointEvery == checkpointEvery && this.enabled == enabled
                && slots == map[]
    {
      this.codec, this.checkpointEvery, this.enabled, slots := codec, checkpointEvery, enabled, map[];
    }

    function At(job: string): Slot
      reads this
    {
      if job in slots then slots[job] else Empty
    }

    method SaveJob(record: JobRecord, how: Interruption, crash: bool) returns (completed: bool)
      modifies this
      ensures completed <==> how.Never?
      ensures slots
                == old(slots)[record.jobId := WriteAtomically(old(At(record.jobId)), Seal(codec, record), how, crash)]
    {
      var job, text := record.jobId, Seal(codec, record);
      var slot := At(job);
      completed := false;
      slots := slots[job := slot];
      if !how.BeforeRotate? {
        if slot.primary.Some? {
          slot := slot.(previous := slot.primary, primary := None);
        }
        if !how.BeforeStage? {
          slot := slot.(temporary := Some(if how.MidStage? then how.torn else text));
          if how.Never? {
            slot := slot.(primary := slot.temporary, temporary := None);
            completed := true;
          }
        }
      }
      if !completed && !crash {
        slot := slot.(temporary := None);
      }
      slots := slots[job := slot];
    }

    /** Only at the configured interval is anything written. */
    method Checkpoint(record: JobRecord, index: nat, how: Interruption) returns (updated: JobRecord)
      modifies this
      ensures updated == Checkpointed(record, index, checkpointEvery, enabled)
      ensures slots == if enabled && Due(index, checkpointEvery)
                       then old(slots)[record.jobId :=
                                       WriteAtomically(old(At(record.jobId)), Seal(codec, updated), how, true)]
                       else old(slots)
    {
      if !enabled {
        return record;
      }
      if (index + 1) % checkpointEvery != 0 {
        return record;
      }
      updated := record.(checkpoint := Some(index));
      var _ := SaveJob(updated, how, true);
    }

    /** `listing` is the sorted directory; the first record sealed under the key wins. */
    method FindByIdempotencyKey(key: string, listing: seq<string>) returns (found: Option<JobRecord>)
      requires forall i :: 0 <= i < |listing| ==> listing[i] in slots
      ensures found.None? <==> forall i :: 0 <= i < |listing| ==> !HoldsKey(codec, slots[listing[i]], key)
      ensures found.Some? ==> found.value.idempotencyKey == Some(key)
      ensures found.Some? ==> exists i :: 0 <= i < |listing| && Holds(codec, slots[listing[i]], found.value)
    {
      for i := 0 to |listing|
        invariant forall j :: 0 <= j < i ==> !HoldsKey(codec, slots[listing[j]], key)
      {
        var slot := slots[listing[i]];
        if slot.primary.Some? {
          var payload := OpenEnvelope(codec, slot.primary.value);
          if payload.Some? && payload.value.idempotencyKey == Some(key) {
            assert Holds(codec, slots[listing[i]], payload.value);
            return payload;
          }
        }
      }
      return None;
    }
  }

  predicate Holds(c: Codec, s: Slot, r: JobRecord) {
    s.primary.Some? && OpenEnvelope(c, s.primary.value) == Some(r)
  }

  /** The key is found only in a readable primary. */
  predicate HoldsKey(c: Codec, s: Slot, key: string) {
    s.primary.Some? && var r := OpenEnvelope(c, s.primary.value);
    r.Some? && r.value.idempotencyKey == Some(key)
  }

  // ---- Runs of saves with crashes anywhere ----

  datatype Attempt = Attempt(record: JobRecord, how: Interruption, crash: bool)

  function AfterSaves(c: Codec, s: Slot, attempts: seq<Attempt>): Slot {
    if attempts == [] then s
    else
      var last := attempts[|attempts| - 1];
      WriteAtomically(AfterSaves(c, s, attempts[..|attempts| - 1]), Seal(c, last.record), last.how, last.crash)
  }

  /** The records whose save ran to the end. */
  function Completed(attempts: seq<Attempt>): seq<JobRecord> {
    if attempts == [] then []
    else
      var last := attempts[|attempts| - 1];
      Completed(attempts[..|attempts| - 1]) + if last.how.Never? then [last.record] else []
  }

  /**
  The disk always holds the last completed record, whole, and the one before it as long as the
  record itself is in place.
  */
  ghost predicate Stored(c: Codec, s: Slot, done: seq<JobRecord>) {
    var n := |done|;
    && (n == 0 ==> s.primary.None? && s.previous.None?)
    && (n >= 1 && s.primary.None? ==> s.previous == Some(Seal(c, done[n - 1])))
    && (n >= 1 && s.primary.Some? ==>
          && s.primary == Some(Seal(c, done[n - 1]))
          && s.previous == (if n >= 2 then Some(Seal(c, done[n - 2])) else None))
  }

  lemma {:induction false} SaveStores(c: Codec, s: Slot, done: seq<JobRecord>, a: Attempt)
    requires Stored(c, s, done)
    ensures Stored(c, WriteAtomically(s, Seal(c, a.record), a.how, a.crash),
                   done + if a.how.Never? then [a.record] else [])
  {
  }

  /** Storage safety over every run of saves, whatever was interrupted and where. */
  lemma {:induction false} LastCompletedSaveSurvives(c: Codec, attempts: seq<Attempt>)
    ensures Stored(c, AfterSaves(c, Empty, attempts), Completed(attempts))
  {
    if attempts != [] {
      LastCompletedSaveSurvives(c, attempts[..|attempts| - 1]);
      SaveStores(c, AfterSaves(c, Empty, attempts[..|attempts| - 1]), Completed(attempts[..|attempts| - 1]),
                 attempts[|attempts| - 1]);
    }
  }

  /** The process died with a temporary file on disk. */
  predicate DiedStaging(a: Attempt) {
    a.crash && (a.how.MidStage? || a.how.BeforePublish?)
  }

  /** The process died before it came to the temporary file. */
  predicate DiedEarly(a: Attempt) {
    a.crash && (a.how.BeforeRotate? || a.how.BeforeStage?)
  }

  /**
  A temporary file is left behind exactly when the process died while one was on disk and, however
  often it was tried since, died again before it came to stage another; an error that is only
  reported always cleans up.
  */
  lemma {:induction false} TemporaryIsLeftExactly(c: Codec, attempts: seq<Attempt>)
    ensures AfterSaves(c, Empty, attempts).temporary.Some? <==>
              exists i :: 0 <= i < |attempts| && DiedStaging(attempts[i])
                && forall j :: i < j < |attempts| ==> DiedEarly(attempts[j])
  {
    if attempts != [] {
      var n := |attempts| - 1;
      var before, last := attempts[..n], attempts[n];
      TemporaryIsLeftExactly(c, before);
      if DiedEarly(last) {
        if i :| 0 <= i < n && DiedStaging(before[i]) && forall j :: i < j < n ==> DiedEarly(before[j]) {
          assert DiedStaging(attempts[i]) && forall j :: i < j < n ==> attempts[j] == before[j];
        }
        if i :| 0 <= i < |attempts| && DiedStaging(attempts[i])
                && forall j :: i < j < |attempts| ==> DiedEarly(attempts[j]) {
          assert i < n && before[i] == attempts[i];
          assert forall j :: i < j < n ==> DiedEarly(before[j]) by {
            forall j | i < j < n ensures DiedEarly(before[j]) {
              assert DiedEarly(attempts[j]);
            }
          }
        }
      } else if DiedStaging(last) {
        assert DiedStaging(attempts[n]);
      }
    }
  }

  /** Loading answers with the last completed record exactly when the record file is in place. */
  lemma {:induction false} LoadWorksExactlyWhilePrimaryExists(c: Codec, attempts: seq<Attempt>)
    requires c.Faithful() && Completed(attempts) != []
    ensures var s, done := AfterSaves(c, Empty, attempts), Completed(attempts);
            LoadJob(c, s, None) == if s.primary.Some? then Ok(done[|done| - 1]) else Err(NotFound)
  {
    LastCompletedSaveSurvives(c, attempts);
  }

  /**
  A save that does not finish leaves the job loadable exactly when it stopped before the
  first rename. Everywhere later the job is reported unknown, although `.prev` is whole.
  */
  lemma {:induction false} InterruptedSaveHidesTheJob(c: Codec, attempts: seq<Attempt>, a: Attempt)
    requires c.Faithful() && Completed(attempts) != [] && !a.how.Never?
    requires AfterSaves(c, Empty, attempts).primary.Some?
    ensures var s := AfterSaves(c, Empty, attempts + [a]);
            var last := Completed(attempts)[|Completed(attempts)| - 1];
            && (LoadJob(c, s, None).Ok? <==> a.how.BeforeRotate?)
            && (a.how.BeforeRotate? ==> LoadJob(c, s, None) == Ok(last))
            && (!a.how.BeforeRotate? ==> s.previous.Some? && OpenEnvelope(c, s.previous.value) == Some(last))
  {
    LastCompletedSaveSurvives(c, attempts);
    assert (attempts + [a])[..|attempts|] == attempts;
  }

  /** The next save that completes makes the job loadable again, with the record it wrote. */
  lemma {:induction false} NextSaveRestoresTheJob(c: Codec, attempts: seq<Attempt>, a: Attempt)
    requires c.Faithful() && a.how.Never?
    ensures LoadJob(c, AfterSaves(c, Empty, attempts + [a]), None) == Ok(a.record)
  {
    assert (attempts + [a])[..|attempts|] == attempts;
  }

  /** A record damaged in place, and detected, degrades to the record before it, or to a refusal when there is none. */
  lemma {:induction false} DamageDegradesToPreviousRecord(c: Codec, attempts: seq<Attempt>, damaged: File)
    requires c.Faithful() && AfterSaves(c, Empty, attempts).primary.Some? && OpenEnvelope(c, damaged).None?
    ensures var s, done := AfterSaves(c, Empty, attempts), Completed(attempts);
            LoadJob(c, s.(primary := Some(damaged)), None)
                == (if |done| >= 2 then Ok(done[|done| - 2]) else Err(Corrupt))
  {
    LastCompletedSaveSurvives(c, attempts);
  }

  // ---- Runs in which files are damaged as well ----

  /** A save, or damage to the record file or its previous copy, where there is one. */
  datatype DiskEvent = Saved(a: Attempt) | Damaged(previous: bool, bytes: File)

  function Disturbed(c: Codec, s: Slot, e: DiskEvent): Slot {
    match e
    case Saved(a) => WriteAtomically(s, Seal(c, a.record), a.how, a.crash)
    case Damaged(previous, bytes) =>
      if previous then (if s.previous.Some? then s.(previous := Some(bytes)) else s)
      else if s.primary.Some? then s.(primary := Some(bytes)) else s
  }

  function AfterEvents(c: Codec, s: Slot, events: seq<DiskEvent>): Slot {
    if events == [] then s else Disturbed(c, AfterEvents(c, s, events[..|events| - 1]), events[|events| - 1])
  }

  /** A completed record, and what its file was damaged to. */
  datatype Copy = Copy(record: JobRecord, damage: Option<File>)

  /** The completed records in order, and whether the last of them is in place. */
  datatype Chronicle = Chronicle(copies: seq<Copy>, inPlace: bool) {
    function Latest(): Copy
      requires copies != []
    {
      copies[|copies| - 1]
    }

    /** The copy before the latest. */
    function Before(): Copy
      requires |copies| >= 2
    {
      copies[|copies| - 2]
    }
  }

  function Struck(copies: seq<Copy>, i: int, bytes: File): (r: seq<Copy>)
    ensures |r| == |copies|
  {
    if 0 <= i < |copies| then copies[i := copies[i].(damage := Some(bytes))] else copies
  }

  /** What one event adds, told without the files. */
  function Told(h: Chronicle, e: DiskEvent): Chronicle {
    var n := |h.copies|;
    match e
    case Saved(a) =>
      if a.how.Never? then Chronicle(h.copies + [Copy(a.record, None)], true)
      else if a.how.BeforeRotate? then h else h.(inPlace := false)
    case Damaged(previous, bytes) =>
      if previous then h.(copies := Struck(h.copies, if h.inPlace then n - 2 else n - 1, bytes))
      else if h.inPlace then h.(copies := Struck(h.copies, n - 1, bytes)) else h
  }

  function Chronicled(events: seq<DiskEvent>): (h: Chronicle)
    ensures h.inPlace ==> h.copies != []
  {
    if events == [] then Chronicle([], false) else Told(Chronicled(events[..|events| - 1]), events[|events| - 1])
  }

  function FileOf(c: Codec, copy: Copy): File {
    if copy.damage.Some? then copy.damage.value else Seal(c, copy.record)
  }

  /** The files hold the latest copy, and the one before it as long as the latest is in place. */
  ghost predicate Keeps(c: Codec, s: Slot, h: Chronicle) {
    var n := |h.copies|;
    && (h.inPlace ==> n >= 1)
    && s.primary == (if h.inPlace then Some(FileOf(c, h.Latest())) else None)
    && s.previous == (if h.inPlace then (if n >= 2 then Some(FileOf(c, h.Before())) else None)
                      else if n >= 1 then Some(FileOf(c, h.Latest())) else None)
  }

  lemma {:induction false} EventKeeps(c: Codec, s: Slot, h: Chronicle, e: DiskEvent)
    requires Keeps(c, s, h)
    ensures Keeps(c, Disturbed(c, s, e), Told(h, e))
  {
  }

  lemma {:induction false} RunKeeps(c: Codec, events: seq<DiskEvent>)
    ensures Keeps(c, AfterEvents(c, Empty, events), Chronicled(events))
  {
    if events != [] {
      var n := |events| - 1;
      RunKeeps(c, events[..n]);
      EventKeeps(c, AfterEvents(c, Empty, events[..n]), Chronicled(events[..n]), events[n]);
    }
  }

  /** Damage that the checksum tells. */
  ghost predicate Detected(c: Codec, events: seq<DiskEvent>) {
    forall i :: 0 <= i < |events| && events[i].Damaged? ==> OpenEnvelope(c, events[i].bytes).None?
  }

  lemma {:induction false} DamageIsDetected(c: Codec, events: seq<DiskEvent>, i: nat)
    requires Detected(c, events) && i < |Chronicled(events).copies| && Chronicled(events).copies[i].damage.Some?
    ensures OpenEnvelope(c, Chronicled(events).copies[i].damage.value).None?
  {
    var n := |events| - 1;
    var h := Chronicled(events[..n]);
    if i < |h.copies| && Chronicled(events).copies[i] == h.copies[i] {
      DamageIsDetected(c, events[..n], i);
    }
  }

  /** A copy is whole exactly when nothing damaged it. */
  lemma {:induction false} WholeExactlyUndamaged(c: Codec, events: seq<DiskEvent>, i: nat)
    requires c.Faithful() && Detected(c, events) && i < |Chronicled(events).copies|
    ensures var copy := Chronicled(events).copies[i];
            OpenEnvelope(c, FileOf(c, copy)) == if copy.damage.None? then Some(copy.record) else None
  {
    if Chronicled(events).copies[i].damage.Some? {
      DamageIsDetected(c, events, i);
    }
  }

  /** Some file still opens. */
  predicate Whole(c: Codec, s: Slot) {
    || (s.primary.Some? && OpenEnvelope(c, s.primary.value).Some?)
    || (s.previous.Some? && OpenEnvelope(c, s.previous.value).Some?)
  }

  /**
  Over every run of saves interrupted anywhere and of damage to either file: a whole record is
  left exactly when the latest completed one was not damaged, or is in place with an undamaged
  one before it; and it is found exactly when the latest is in place as well.
  */
  lemma {:induction false} WholeRecordLeftExactly(c: Codec, events: seq<DiskEvent>)
    requires c.Faithful() && Detected(c, events)
    ensures var s, h := AfterEvents(c, Empty, events), Chronicled(events);
            var n := |h.copies|;
            && (Whole(c, s) <==>
                n >= 1 && (h.Latest().damage.None? || (h.inPlace && n >= 2 && h.Before().damage.None?)))
            && LoadJob(c, s, None)
               == if !h.inPlace then Err(NotFound)
                  else if h.Latest().damage.None? then Ok(h.Latest().record)
                  else if n >= 2 && h.Before().damage.None? then Ok(h.Before().record) else Err(Corrupt)
  {
    var h := Chronicled(events);
    var n := |h.copies|;
    RunKeeps(c, events);
    if n >= 1 {
      WholeExactlyUndamaged(c, events, n - 1);
    }
    if n >= 2 {
      WholeExactlyUndamaged(c, events, n - 2);
    }
  }

  /**
  A save that breaks off after the first rename puts the record in place over the copy before
  it: a whole record is left exactly if the one in place was undamaged, whatever the other was.
  */
  lemma {:induction false} BrokenSaveKeepsExactlyAnUndamagedRecord(c: Codec, events: seq<DiskEvent>, a: Attempt)
    requires c.Faithful() && Detected(c, events) && Chronicled(events).inPlace
    requires !a.how.Never? && !a.how.BeforeRotate?
    ensures Whole(c, AfterEvents(c, Empty, events + [Saved(a)])) <==> Chronicled(events).Latest().damage.None?
  {
    var all := events + [Saved(a)];
    assert all[..|events|] == events;
    RunKeeps(c, events);
    WholeRecordLeftExactly(c, all);
  }

  /** In the same gap a replayed idempotency key is not found, so the submission starts a second job. */
  lemma {:induction false} ReplayedKeyIsMissedInTheGap(c: Codec, attempts: seq<Attempt>, key: string)
    requires c.Faithful() && Completed(attempts) != []
    requires Completed(attempts)[|Completed(attempts)| - 1].idempotencyKey == Some(key)
    ensures HoldsKey(c, AfterSaves(c, Empty, attempts), key) <==> AfterSaves(c, Empty, attempts).primary.Some?
  {
    LastCompletedSaveSurvives(c, attempts);
  }

  /** Another tenant's job is indistinguishable from no job. */
  lemma {:induction false} ForeignJobsLookAbsent(c: Codec, s: Slot, r: JobRecord, tenant: string)
    requires c.Faithful() && s.primary == Some(Seal(c, r))
    ensures LoadJob(c, s, Some(tenant)) == if r.tenant == Some(tenant) then Ok(r) else LoadJob(c, Empty, Some(tenant))
  {
  }

  // ---- Checkpoints ----

  predicate Due(index: nat, every: Interval)
  {
    (index + 1) % every == 0
  }

  function Checkpointed(r: JobRecord, index: nat, every: Interval, enabled: bool): JobRecord
  {
    if enabled && Due(index, every) then r.(checkpoint := Some(index)) else r
  }

  function ResumeIndex(r: JobRecord): nat {
    if r.checkpoint.None? then 0 else r.checkpoint.value + 1
  }

  /** Progress through documents `from`, ..., `to - 1` in order. */
  function Progressed(r: JobRecord, from: nat, to: nat, every: Interval): JobRecord
    requires from <= to
  {
    if from == to then r else Checkpointed(Progressed(r, from, to - 1, every), to - 1, every, true)
  }

  /** `n` rounded down to whole intervals. */
  function WholeIntervals(n: nat, every: Interval): int {
    (n / every) * every
  }

  lemma {:induction false} FloorBounds(n: nat, every: Interval)
    ensures n - every < WholeIntervals(n, every) <= n
  {
    assert n == WholeIntervals(n, every) + n % every;
  }

  lemma {:induction false} FloorStep(n: nat, every: Interval)
    requires n >= 1
    ensures WholeIntervals(n, every) == if n % every == 0 then n else WholeIntervals(n - 1, every)
  {
    var q, p := n / every, (n - 1) / every;
    assert n == q * every + n % every && n - 1 == p * every + (n - 1) % every;
    if n % every != 0 {
      assert n - 1 == q * every + (n % every - 1);
      QuotientUnique(n - 1, every, q, n % every - 1);
    }
  }

  lemma {:induction false} QuotientUnique(n: nat, every: Interval, q: int, r: int)
    requires n == q * every + r && 0 <= r < every
    ensures n / every == q
  {
    var p, s := n / every, n % every;
    assert (p - q) * every == r - s;
    if p != q {
      WholeMultiplesAreFarApart(p - q, every);
    }
  }

  lemma {:induction false} WholeMultiplesAreFarApart(a: int, every: Interval)
    requires a != 0
    ensures a * every >= every || a * every + every <= 0
  {
    var k: nat := if a > 0 then a - 1 else -a - 1;
    ProductNotNegative(k, every);
    assert a > 0 ==> a * every == k * every + every;
    assert a < 0 ==> a * every == -(k * every) - every;
  }

  lemma {:induction false} ProductNotNegative(a: nat, b: nat)
    ensures a * b >= 0
  {
  }

  /** After `n` documents a job resumes at the last whole interval. */
  lemma {:induction false} ResumesAtTheLastInterval(r: JobRecord, from: nat, n: nat, every: Interval)
    requires from <= n && ResumeIndex(r) == WholeIntervals(from, every)
    ensures ResumeIndex(Progressed(r, from, n, every)) == WholeIntervals(n, every)
    decreases n
  {
    if from < n {
      ResumesAtTheLastInterval(r, from, n - 1, every);
      FloorStep(n, every);
    }
  }

  /**
  The job's files after the documents from `from` up to `to` were done in order, every due
  checkpoint having been written to the end.
  */
  function FilesAfter(c: Codec, s: Slot, r: JobRecord, from: nat, to: nat, every: Interval): Slot
    requires from <= to
  {
    if from == to then s
    else
      var files := FilesAfter(c, s, r, from, to - 1, every);
      if Due(to - 1, every) then WriteAtomically(files, Seal(c, Progressed(r, from, to, every)), Never, true) else files
  }

  /** A record whose job stopped at the end of an interval, as every saved one does. */
  predicate AtABoundary(r: JobRecord, every: Interval) {
    ResumeIndex(r) % every == 0
  }

  lemma {:induction false} FilesHoldTheRecord(c: Codec, s: Slot, r: JobRecord, from: nat, to: nat, every: Interval)
    requires from <= to && s.primary == Some(Seal(c, r)) && AtABoundary(r, every)
    ensures FilesAfter(c, s, r, from, to, every).primary == Some(Seal(c, Progressed(r, from, to, every)))
    ensures AtABoundary(Progressed(r, from, to, every), every)
  {
    if from < to {
      FilesHoldTheRecord(c, s, r, from, to - 1, every);
    }
  }

  lemma {:induction false} BoundaryIsWhole(from: nat, every: Interval)
    requires from % every == 0
    ensures WholeIntervals(from, every) == from
  {
    assert from == WholeIntervals(from, every) + from % every;
  }

  /**
  A job that goes on from its resume index and dies after document n - 1 loads, and resumes
  without skipping a document and with fewer than one interval to repeat. It resumes at a
  boundary, so the same holds of the run after it, and of every later one.
  */
  lemma {:induction false} ResumeNeverSkips(c: Codec, s: Slot, r: JobRecord, n: nat, every: Interval)
    requires c.Faithful() && s.primary == Some(Seal(c, r)) && AtABoundary(r, every) && ResumeIndex(r) <= n
    ensures var files := FilesAfter(c, s, r, ResumeIndex(r), n, every);
            var loaded := LoadJob(c, files, None);
            && loaded.Ok? && files.primary == Some(Seal(c, loaded.value)) && AtABoundary(loaded.value, every)
            && n - every < ResumeIndex(loaded.value) <= n
  {
    var from := ResumeIndex(r);
    BoundaryIsWhole(from, every);
    ResumesAtTheLastInterval(r, from, n, every);
    FilesHoldTheRecord(c, s, r, from, n, every);
    FloorBounds(n, every);
  }

  lemma {:induction false} FloorBeforeBoundary(n: nat, every: Interval)
    requires (n + 1) % every == 0
    ensures WholeIntervals(n, every) == n + 1 - every
  {
    var q := (n + 1) / every;
    OneMultipleLess(q, every);
    QuotientUnique(n, every, q - 1, every - 1);
  }

  lemma {:induction false} OneMultipleLess(q: nat, every: Interval)
    ensures (q - 1) * every == q * every - every
  {
  }

  lemma {:induction false} OneIntervalBack(r: JobRecord, n: nat, every: Interval)
    requires AtABoundary(r, every) && ResumeIndex(r) <= n && Due(n, every)
    ensures ResumeIndex(Progressed(r, ResumeIndex(r), n, every)) == n + 1 - every
  {
    BoundaryIsWhole(ResumeIndex(r), every);
    ResumesAtTheLastInterval(r, ResumeIndex(r), n, every);
    FloorBeforeBoundary(n, every);
  }

  /**
  A crash while the checkpoint of document n is being written, after all earlier ones were:
  the next run repeats exactly one whole interval when the crash came before the first
  rename, and finds no job at all when it came anywhere between that and the last.
  */
  lemma {:induction false} CrashInCheckpointRepeatsOneInterval(c: Codec, s: Slot, r: JobRecord, n: nat, every: Interval,
                                                               how: Interruption)
    requires c.Faithful() && s.primary == Some(Seal(c, r)) && AtABoundary(r, every) && ResumeIndex(r) <= n
    requires Due(n, every)
    ensures var saved := Progressed(r, ResumeIndex(r), n + 1, every);
            var files := WriteAtomically(FilesAfter(c, s, r, ResumeIndex(r), n, every), Seal(c, saved), how, true);
            var loaded := LoadJob(c, files, None);
            match how
            case Never => loaded == Ok(saved) && ResumeIndex(saved) == n + 1
            case BeforeRotate => loaded.Ok? && ResumeIndex(loaded.value) == n + 1 - every
            case _ => loaded == Err(NotFound)
  {
    FilesHoldTheRecord(c, s, r, ResumeIndex(r), n, every);
    OneIntervalBack(r, n, every);
  }
}
