/**
Joining vectors to chunks, services/archive_import.py: the greedy pass that decides whether
the vector rows follow the chunk rows, the lookup that then walks both in step, and the
offset index that is built when they do not.
*/
module VectorLookup {
  import opened Wrappers
  import opened Jsonl
  import opened ArchiveRows

  type VectorCodec = Codec<VectorRow>

  function Ids(rows: seq<VectorRow>): seq<string> {
    seq(|rows|, i requires 0 <= i < |rows| => rows[i].chunkId)
  }

  // ---- The greedy pass of `_verify_references` ----

  /** The vector rows no chunk has consumed. */
  function Leftover(rows: seq<VectorRow>, chunks: seq<string>): seq<VectorRow> {
    if chunks == [] then rows
    else Leftover(if rows != [] && rows[0].chunkId == chunks[0] then rows[1..] else rows, chunks[1..])
  }

  /** `at` places each id of `a` in `b`, in order. */
  ghost predicate Embeds(a: seq<string>, b: seq<string>, at: seq<nat>) {
    && |at| == |a|
    && (forall i :: 0 <= i < |at| ==> at[i] < |b| && b[at[i]] == a[i])
    && (forall i, j :: 0 <= i < j < |at| ==> at[i] < at[j])
  }

  ghost predicate Subsequence(a: seq<string>, b: seq<string>) {
    exists at :: Embeds(a, b, at)
  }

  function Later(at: seq<nat>): (r: seq<nat>)
    ensures |r| == |at| && forall i :: 0 <= i < |r| ==> r[i] == at[i] + 1
  {
    seq(|at|, i requires 0 <= i < |at| => at[i] + 1)
  }

  lemma {:induction false} EmbedsLater(a: seq<string>, b: seq<string>, at: seq<nat>)
    requires b != [] && Embeds(a, b[1..], at)
    ensures Embeds(a, b, Later(at))
  {
    assert forall i :: 0 <= i < |at| ==> b[1..][at[i]] == b[at[i] + 1];
  }

  lemma {:induction false} EmbedsFirst(a: seq<string>, b: seq<string>, at: seq<nat>)
    requires a != [] && b != [] && a[0] == b[0] && Embeds(a[1..], b, at) && forall i :: 0 <= i < |at| ==> at[i] > 0
    ensures Embeds(a, b, [0] + at)
  {
    var all := [0] + at;
    assert forall i :: 0 < i < |a| ==> a[i] == a[1..][i - 1] && all[i] == at[i - 1];
  }

  lemma {:induction false} GreedyEmbeds(rows: seq<VectorRow>, chunks: seq<string>) returns (at: seq<nat>)
    requires Leftover(rows, chunks) == []
    ensures Embeds(Ids(rows), chunks, at)
  {
    if chunks == [] {
      at := [];
    } else if rows != [] && rows[0].chunkId == chunks[0] {
      var rest := GreedyEmbeds(rows[1..], chunks[1..]);
      assert Ids(rows)[1..] == Ids(rows[1..]);
      EmbedsLater(Ids(rows)[1..], chunks, rest);
      EmbedsFirst(Ids(rows), chunks, Later(rest));
      at := [0] + Later(rest);
    } else {
      var rest := GreedyEmbeds(rows, chunks[1..]);
      EmbedsLater(Ids(rows), chunks, rest);
      at := Later(rest);
    }
  }

  lemma {:induction false} PlacesGrow(a: seq<string>, b: seq<string>, at: seq<nat>, i: nat)
    requires Embeds(a, b, at) && i < |at|
    ensures i <= at[i] < |b|
  {
    if i > 0 {
      PlacesGrow(a, b, at, i - 1);
    }
  }

  lemma {:induction false} SubsequenceIsNoLonger(a: seq<string>, b: seq<string>, at: seq<nat>)
    requires Embeds(a, b, at)
    ensures |a| <= |b|
  {
    if a != [] {
      PlacesGrow(a, b, at, |at| - 1);
    }
  }

  lemma {:induction false} EmbeddingIsConsumed(rows: seq<VectorRow>, chunks: seq<string>, at: seq<nat>)
    requires Embeds(Ids(rows), chunks, at)
    ensures Leftover(rows, chunks) == []
    decreases chunks
  {
    if chunks != [] {
      var first := rows != [] && rows[0].chunkId == chunks[0];
      var left := if first then rows[1..] else rows;
      var kept := if first then at[1..] else at;
      assert Ids(left) == if first then Ids(rows)[1..] else Ids(rows);
      if rows != [] && !first {
        assert chunks[at[0]] == Ids(rows)[0];
      }
      forall i | 0 <= i < |kept| ensures kept[i] > 0 {
        assert kept[i] == at[if first then i + 1 else i];
        if first {
          assert at[0] < at[i + 1];
        } else if i > 0 {
          assert at[0] < at[i];
        }
      }
      var moved := seq(|kept|, i requires 0 <= i < |kept| => kept[i] - 1);
      EmbeddingIsConsumed(left, chunks[1..], moved);
    } else {
      SubsequenceIsNoLonger(Ids(rows), chunks, at);
    }
  }

  /** The greedy pass uses up every vector row exactly when the vectors follow the chunks in order. */
  lemma {:induction false} GreedyConsumesExactlySubsequences(rows: seq<VectorRow>, chunks: seq<string>)
    ensures Leftover(rows, chunks) == [] <==> Subsequence(Ids(rows), chunks)
  {
    if Leftover(rows, chunks) == [] {
      var at := GreedyEmbeds(rows, chunks);
    }
    if Subsequence(Ids(rows), chunks) {
      var at :| Embeds(Ids(rows), chunks, at);
      EmbeddingIsConsumed(rows, chunks, at);
    }
  }

  // ---- Lookup by key: the reference ----

  /** What a dictionary from chunk id to row answers. */
  function Keyed(rows: seq<VectorRow>, id: string): Option<VectorRow> {
    if rows == [] then None
    else if rows[|rows| - 1].chunkId == id then Some(rows[|rows| - 1])
    else Keyed(rows[..|rows| - 1], id)
  }

  /** One call of the lockstep lookup. */
  function Lockstep(rows: seq<VectorRow>, id: string): (Option<VectorRow>, seq<VectorRow>) {
    if rows != [] && rows[0].chunkId == id then (Some(rows[0]), rows[1..]) else (None, rows)
  }

  /** The answers to one call per chunk, in chunk order. */
  function LockstepAnswers(rows: seq<VectorRow>, chunks: seq<string>): (answers: seq<Option<VectorRow>>)
    ensures |answers| == |chunks|
  {
    if chunks == [] then []
    else
      var (answer, rest) := Lockstep(rows, chunks[0]);
      [answer] + LockstepAnswers(rest, chunks[1..])
  }

  function Delivered(answers: seq<Option<VectorRow>>): seq<VectorRow> {
    if answers == [] then []
    else (if answers[0].Some? then [answers[0].value] else []) + Delivered(answers[1..])
  }

  ghost predicate Distinct(ids: seq<string>) {
    forall i, j :: 0 <= i < j < |ids| ==> ids[i] != ids[j]
  }

  lemma {:induction false} KeyedOfCons(row: VectorRow, rows: seq<VectorRow>, id: string)
    ensures Keyed([row] + rows, id)
         == if Keyed(rows, id).Some? then Keyed(rows, id) else if row.chunkId == id then Some(row) else None
  {
    var all := [row] + rows;
    if rows == [] {
      assert all[..0] == [];
    } else {
      assert all[..|all| - 1] == [row] + rows[..|rows| - 1];
      KeyedOfCons(row, rows[..|rows| - 1], id);
    }
  }

  lemma {:induction false} KeyedExactlyWhenPresent(rows: seq<VectorRow>, id: string)
    ensures Keyed(rows, id).Some? <==> exists i :: 0 <= i < |rows| && rows[i].chunkId == id
    ensures Keyed(rows, id).Some? ==> Keyed(rows, id).value in rows && Keyed(rows, id).value.chunkId == id
  {
    if rows != [] {
      KeyedExactlyWhenPresent(rows[..|rows| - 1], id);
    }
  }

  /** A consumed row belongs to a chunk. */
  lemma {:induction false} ConsumedRowsHaveChunks(rows: seq<VectorRow>, chunks: seq<string>, i: nat)
    requires Leftover(rows, chunks) == [] && i < |rows|
    ensures rows[i].chunkId in chunks
  {
    if chunks != [] {
      assert chunks == [chunks[0]] + chunks[1..];
      if rows[0].chunkId == chunks[0] {
        if i > 0 {
          ConsumedRowsHaveChunks(rows[1..], chunks[1..], i - 1);
        }
      } else {
        ConsumedRowsHaveChunks(rows, chunks[1..], i);
      }
    }
  }

  lemma {:induction false} AbsentIsNotKeyed(rows: seq<VectorRow>, chunks: seq<string>, id: string)
    requires Leftover(rows, chunks) == [] && id !in chunks
    ensures Keyed(rows, id) == None
  {
    KeyedExactlyWhenPresent(rows, id);
    if i :| 0 <= i < |rows| && rows[i].chunkId == id {
      ConsumedRowsHaveChunks(rows, chunks, i);
    }
  }

  lemma {:induction false} AnswersInTurn(rows: seq<VectorRow>, chunks: seq<string>, i: nat)
    requires i < |chunks|
    ensures var (answer, rest) := Lockstep(rows, chunks[0]);
            LockstepAnswers(rows, chunks)[i] == if i == 0 then answer else LockstepAnswers(rest, chunks[1..])[i - 1]
  {
  }

  lemma {:induction false} FirstIsDistinct(chunks: seq<string>, i: nat)
    requires Distinct(chunks) && i < |chunks|
    ensures Distinct(chunks[1..]) && chunks[0] !in chunks[1..] && (i > 0 ==> chunks[1..][i - 1] == chunks[i])
  {
    var later := chunks[1..];
    assert forall j :: 0 <= j < |later| ==> later[j] == chunks[j + 1] && later[j] != chunks[0];
  }

  /**
  Walking in step refines looking up by key: for distinct chunk ids and vectors that follow
  them, every call answers what a dictionary of all rows would.
  */
  lemma {:induction false} LockstepRefinesKeyedLookup(rows: seq<VectorRow>, chunks: seq<string>, i: nat)
    requires Distinct(chunks) && Leftover(rows, chunks) == [] && i < |chunks|
    ensures LockstepAnswers(rows, chunks)[i] == Keyed(rows, chunks[i])
    decreases chunks
  {
    var later := chunks[1..];
    FirstIsDistinct(chunks, i);
    AnswersInTurn(rows, chunks, i);
    if rows != [] && rows[0].chunkId == chunks[0] {
      KeyedOfCons(rows[0], rows[1..], chunks[i]);
      assert rows == [rows[0]] + rows[1..];
      if i == 0 {
        AbsentIsNotKeyed(rows[1..], later, chunks[0]);
      } else {
        LockstepRefinesKeyedLookup(rows[1..], later, i - 1);
      }
    } else if i == 0 {
      AbsentIsNotKeyed(rows, later, chunks[0]);
    } else {
      LockstepRefinesKeyedLookup(rows, later, i - 1);
    }
  }

  /** And over the whole walk each row is handed out exactly once. */
  lemma {:induction false} LockstepDeliversEachRowOnce(rows: seq<VectorRow>, chunks: seq<string>)
    ensures Delivered(LockstepAnswers(rows, chunks)) + Leftover(rows, chunks) == rows
    decreases chunks
  {
    if chunks != [] {
      var (answer, rest) := Lockstep(rows, chunks[0]);
      LockstepDeliversEachRowOnce(rest, chunks[1..]);
      var answers := LockstepAnswers(rest, chunks[1..]);
      assert ([answer] + answers)[1..] == answers;
      assert Delivered([answer] + answers) == (if answer.Some? then [answer.value] else []) + Delivered(answers);
    }
  }

  /** How often an id occurs. */
  function Occurrences(ids: seq<string>, id: string): nat {
    if ids == [] then 0 else (if ids[0] == id then 1 else 0) + Occurrences(ids[1..], id)
  }

  lemma {:induction false} OccurrencesOfRows(rows: seq<VectorRow>, id: string)
    requires rows != []
    ensures Occurrences(Ids(rows), id) == (if rows[0].chunkId == id then 1 else 0) + Occurrences(Ids(rows[1..]), id)
  {
    assert Ids(rows)[1..] == Ids(rows[1..]);
  }

  /** Rows that are all consumed occur no more often than the chunks that consume them. */
  lemma {:induction false} ConsumedNoMoreOften(rows: seq<VectorRow>, chunks: seq<string>, id: string)
    requires Leftover(rows, chunks) == []
    ensures Occurrences(Ids(rows), id) <= Occurrences(chunks, id)
    decreases chunks
  {
    if chunks == [] {
    } else if rows != [] && rows[0].chunkId == chunks[0] {
      OccurrencesOfRows(rows, id);
      ConsumedNoMoreOften(rows[1..], chunks[1..], id);
    } else {
      ConsumedNoMoreOften(rows, chunks[1..], id);
    }
  }

  type Table = string -> Option<VectorRow>

  /** Walking these rows in step answers these chunks as the table would. */
  ghost predicate Agrees(rows: seq<VectorRow>, chunks: seq<string>, table: Table) {
    forall i :: 0 <= i < |chunks| ==> LockstepAnswers(rows, chunks)[i] == table(chunks[i])
  }

  /** The table holds these rows, and each id it holds is asked for once for each of them. */
  ghost predicate Matched(rows: seq<VectorRow>, chunks: seq<string>, table: Table) {
    && (forall i :: 0 <= i < |rows| ==> table(rows[i].chunkId) == Some(rows[i]))
    && (forall id :: table(id).Some? ==> Occurrences(Ids(rows), id) == Occurrences(chunks, id))
  }

  lemma {:induction false} AgreesFromTheFirst(rows: seq<VectorRow>, chunks: seq<string>, table: Table)
    requires chunks != []
    ensures Agrees(rows, chunks, table) <==>
              var (answer, rest) := Lockstep(rows, chunks[0]);
              answer == table(chunks[0]) && Agrees(rest, chunks[1..], table)
  {
    var (answer, rest) := Lockstep(rows, chunks[0]);
    var answers := LockstepAnswers(rest, chunks[1..]);
    assert LockstepAnswers(rows, chunks) == [answer] + answers;
    if Agrees(rows, chunks, table) {
      assert LockstepAnswers(rows, chunks)[0] == answer;
      forall i | 0 <= i < |chunks| - 1 ensures answers[i] == table(chunks[1..][i]) {
        assert LockstepAnswers(rows, chunks)[i + 1] == answers[i];
      }
    }
  }

  lemma {:induction false} MatchedByTheFirst(rows: seq<VectorRow>, chunks: seq<string>, table: Table)
    requires rows != [] && chunks != [] && rows[0].chunkId == chunks[0]
    ensures Matched(rows, chunks, table) <==>
              table(chunks[0]) == Some(rows[0]) && Matched(rows[1..], chunks[1..], table)
  {
    forall id ensures Occurrences(Ids(rows), id) == Occurrences(chunks, id)
                 <==> Occurrences(Ids(rows[1..]), id) == Occurrences(chunks[1..], id) {
      OccurrencesOfRows(rows, id);
    }
    assert forall i :: 0 < i < |rows| ==> rows[i] == rows[1..][i - 1];
  }

  lemma {:induction false} MatchedPastTheFirst(rows: seq<VectorRow>, chunks: seq<string>, table: Table)
    requires chunks != [] && Leftover(rows, chunks[1..]) == []
    ensures Matched(rows, chunks, table) <==> table(chunks[0]) == None && Matched(rows, chunks[1..], table)
  {
    ConsumedNoMoreOften(rows, chunks[1..], chunks[0]);
  }

  lemma {:induction false} AgreesExactlyWhenMatched(rows: seq<VectorRow>, chunks: seq<string>, table: Table)
    requires Leftover(rows, chunks) == []
    ensures Agrees(rows, chunks, table) <==> Matched(rows, chunks, table)
    decreases chunks
  {
    if chunks != [] {
      AgreesFromTheFirst(rows, chunks, table);
      if rows != [] && rows[0].chunkId == chunks[0] {
        MatchedByTheFirst(rows, chunks, table);
        AgreesExactlyWhenMatched(rows[1..], chunks[1..], table);
      } else {
        MatchedPastTheFirst(rows, chunks, table);
        AgreesExactlyWhenMatched(rows, chunks[1..], table);
      }
    }
  }


  /** Rows of one id are alike, and each id that has a row is asked for as often as it has rows. */
  ghost predicate AskedOncePerRow(rows: seq<VectorRow>, chunks: seq<string>) {
    && (forall i, j :: 0 <= i < j < |rows| && rows[i].chunkId == rows[j].chunkId ==> rows[i] == rows[j])
    && (forall row :: row in rows ==> Occurrences(Ids(rows), row.chunkId) == Occurrences(chunks, row.chunkId))
  }

  /**
  For vectors that follow the chunks, whatever repeats: walking in step answers every chunk as
  a dictionary of all rows would exactly when rows of one id are alike, and each id that has a
  row is asked for as often as it has rows.
  */
  lemma {:induction false} LockstepAgreesExactly(rows: seq<VectorRow>, chunks: seq<string>)
    requires Leftover(rows, chunks) == []
    ensures (forall i :: 0 <= i < |chunks| ==> LockstepAnswers(rows, chunks)[i] == Keyed(rows, chunks[i]))
       <==> AskedOncePerRow(rows, chunks)
  {
    var table := id => Keyed(rows, id);
    AgreesExactlyWhenMatched(rows, chunks, table);
    forall id ensures Keyed(rows, id).Some? <==> exists row :: row in rows && row.chunkId == id {
      KeyedExactlyWhenPresent(rows, id);
    }
    KeyedIsEachRowExactly(rows);
  }

  lemma {:induction false} KeyedIsEachRowExactly(rows: seq<VectorRow>)
    ensures (forall i :: 0 <= i < |rows| ==> Keyed(rows, rows[i].chunkId) == Some(rows[i])) <==>
              forall i, j :: 0 <= i < j < |rows| && rows[i].chunkId == rows[j].chunkId ==> rows[i] == rows[j]
  {
    forall i | 0 <= i < |rows|
      ensures Keyed(rows, rows[i].chunkId).Some?
      ensures Keyed(rows, rows[i].chunkId).value in rows
                && Keyed(rows, rows[i].chunkId).value.chunkId == rows[i].chunkId
    {
      KeyedExactlyWhenPresent(rows, rows[i].chunkId);
    }
  }

  /** Distinct ids are needed: with a repeated chunk id the walk runs dry where a dictionary still answers. */
  lemma {:induction false} RepeatedChunkIdsBreakLockstep(row: VectorRow)
    ensures var chunks := [row.chunkId, row.chunkId];
            && Leftover([row], chunks) == []
            && LockstepAnswers([row], chunks) == [Some(row), None]
            && Keyed([row], chunks[1]) == Some(row)
  {
    var chunks := [row.chunkId, row.chunkId];
    assert [row][1..] == [] && chunks[1..] == [row.chunkId] && chunks[1..][1..] == [];
    assert Leftover([], [row.chunkId]) == Leftover([], []) == [];
    assert LockstepAnswers([], [row.chunkId]) == [None];
  }

  /** The rows a handle still has to give, one of them perhaps read already. */
  ghost function Unread(c: VectorCodec, pending: Option<VectorRow>, rest: string): seq<VectorRow> {
    if pending.None? then Rows(c, rest) else [pending.value] + Rows(c, rest)
  }

  class LockstepLookup {
    const codec: VectorCodec
    /** What the handle has left to read. */
    var rest: string
    /** At most one row, read but not yet asked for. */
    var pending: Option<VectorRow>

    constructor (codec: VectorCodec, text: string)
      ensures this.codec == codec && Remaining() == Rows(codec, text)
    {
      this.codec, rest, pending := codec, text, None;
    }

    ghost function Remaining(): seq<VectorRow>
      reads this
    {
      Unread(codec, pending, rest)
    }

    method Lookup(chunkId: string) returns (found: Option<VectorRow>)
      modifies this
      ensures (found, Remaining()) == Lockstep(old(Remaining()), chunkId)
    {
      ghost var before := Remaining();
      if pending.None? {
        var row, left := NextRow(codec, rest);
        if row.None? {
          return None;
        }
        pending, rest := row, left;
      }
      assert before == [pending.value] + Rows(codec, rest);
      if pending.value.chunkId != chunkId {
        return None;
      }
      found, pending := pending, None;
      assert before[1..] == Rows(codec, rest);
    }
  }

  // ---- The offset index ----

  /** The index over located rows: the last row of a repeated id wins. */
  function OffsetIndex(located: seq<(VectorRow, nat)>): map<string, nat> {
    if located == [] then map[]
    else OffsetIndex(located[..|located| - 1])[located[|located| - 1].0.chunkId := located[|located| - 1].1]
  }

  /** The index built on top of `offsets` from the rows still to come. */
  function IndexedOnto(offsets: map<string, nat>, located: seq<(VectorRow, nat)>): map<string, nat>
    decreases |located|
  {
    if located == [] then offsets
    else IndexedOnto(offsets[located[0].0.chunkId := located[0].1], located[1..])
  }

  lemma {:induction false} IndexedOntoGrows(offsets: map<string, nat>, located: seq<(VectorRow, nat)>,
                                            last: (VectorRow, nat))
    ensures IndexedOnto(offsets, located + [last]) == IndexedOnto(offsets, located)[last.0.chunkId := last.1]
    decreases |located|
  {
    if located == [] {
      assert [last][1..] == [] && located + [last] == [last];
    } else {
      assert (located + [last])[1..] == located[1..] + [last];
      IndexedOntoGrows(offsets[located[0].0.chunkId := located[0].1], located[1..], last);
    }
  }

  lemma {:induction false} IndexedOntoNothing(located: seq<(VectorRow, nat)>)
    ensures IndexedOnto(map[], located) == OffsetIndex(located)
  {
    if located != [] {
      var n := |located| - 1;
      assert located == located[..n] + [located[n]];
      IndexedOntoNothing(located[..n]);
      IndexedOntoGrows(map[], located[..n], located[n]);
    }
  }

  lemma {:induction false} IndexedLine(c: VectorCodec, rest: string, offset: nat, offsets: map<string, nat>)
    requires rest != ""
    ensures var raw := FirstLine(rest);
            IndexedOnto(offsets, Located(c, rest, offset))
            == IndexedOnto(if Blank(raw) then offsets else offsets[c.parse(raw).chunkId := offset],
                           Located(c, rest[|raw|..], offset + |raw|))
  {
    var raw := FirstLine(rest);
    var later := Located(c, rest[|raw|..], offset + |raw|);
    LocatedLine(c, rest, offset);
    if Blank(raw) {
      assert [] + later == later;
    } else {
      assert ([(c.parse(raw), offset)] + later)[1..] == later;
    }
  }

  /** Index one line, unless it is blank, and move past it. */
  method IndexLine(c: VectorCodec, rest: string, offset: nat, offsets: map<string, nat>)
    returns (left: string, next: nat, indexed: map<string, nat>)
    requires rest != ""
    ensures |left| < |rest|
    ensures IndexedOnto(indexed, Located(c, left, next)) == IndexedOnto(offsets, Located(c, rest, offset))
  {
    var raw := FirstLine(rest);
    IndexedLine(c, rest, offset, offsets);
    left, next := rest[|raw|..], offset + |raw|;
    indexed := if Blank(raw) then offsets else offsets[c.parse(raw).chunkId := offset];
  }

  method VectorOffsets(c: VectorCodec, text: string) returns (offsets: map<string, nat>)
    ensures offsets == OffsetIndex(Located(c, text, 0))
  {
    offsets := map[];
    var offset: nat, rest := 0, text;
    ghost var index := IndexedOnto(map[], Located(c, text, 0));
    while rest != ""
      invariant IndexedOnto(offsets, Located(c, rest, offset)) == index
      decreases |rest|
    {
      rest, offset, offsets := IndexLine(c, rest, offset, offsets);
    }
    IndexedOntoNothing(Located(c, text, 0));
  }

  method SeekingLookup(c: VectorCodec, text: string, offsets: map<string, nat>, chunkId: string)
    returns (found: Option<VectorRow>)
    requires forall id :: id in offsets ==> offsets[id] <= |text|
    ensures found == if chunkId in offsets then Some(c.parse(FirstLine(text[offsets[chunkId]..]))) else None
  {
    if chunkId !in offsets {
      return None;
    }
    var line := FirstLine(text[offsets[chunkId]..]);
    found := Some(c.parse(line));
  }

  function RowsOf(located: seq<(VectorRow, nat)>): (rows: seq<VectorRow>)
    ensures |rows| == |located| && forall i :: 0 <= i < |rows| ==> rows[i] == located[i].0
  {
    seq(|located|, i requires 0 <= i < |located| => located[i].0)
  }

  function LastEntry(located: seq<(VectorRow, nat)>, id: string): Option<(VectorRow, nat)> {
    if located == [] then None
    else if located[|located| - 1].0.chunkId == id then Some(located[|located| - 1])
    else LastEntry(located[..|located| - 1], id)
  }

  lemma {:induction false} IndexFindsTheKeyedEntry(located: seq<(VectorRow, nat)>, id: string)
    ensures id in OffsetIndex(located) <==> LastEntry(located, id).Some?
    ensures LastEntry(located, id).Some? ==>
              OffsetIndex(located)[id] == LastEntry(located, id).value.1 && LastEntry(located, id).value in located
    ensures Keyed(RowsOf(located), id)
         == if LastEntry(located, id).Some? then Some(LastEntry(located, id).value.0) else None
  {
    if located != [] {
      var n := |located| - 1;
      IndexFindsTheKeyedEntry(located[..n], id);
      assert RowsOf(located)[..n] == RowsOf(located[..n]);
    }
  }

  /** Seeking through the index answers, for any id and in any order, what a dictionary of all rows would. */
  lemma {:induction false} SeekingRefinesKeyedLookup(c: VectorCodec, text: string, id: string)
    ensures var offsets := OffsetIndex(Located(c, text, 0));
            && (id in offsets ==> offsets[id] <= |text|)
            && (if id in offsets then Some(c.parse(FirstLine(text[offsets[id]..]))) else None)
                == Keyed(Rows(c, text), id)
  {
    var located := Located(c, text, 0);
    LocatedCount(c, text, 0);
    forall i | 0 <= i < |located| ensures located[i].0 == Rows(c, text)[i] {
      LocatedRowsAreTheRows(c, text, 0, i);
    }
    assert RowsOf(located) == Rows(c, text);
    IndexFindsTheKeyedEntry(located, id);
    if LastEntry(located, id).Some? {
      var i :| 0 <= i < |located| && located[i] == LastEntry(located, id).value;
      OffsetsLocateRows(c, text, 0);
      EachReadAt(c, text, 0, located, i);
    }
  }
}
