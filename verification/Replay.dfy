/** The retrieval diff of services/replay.py, over the chunk ids of the two retrieved lists. */
module Replay {
  import opened Wrappers

  /** One-based ranks, as a reader of the diff counts. */
  datatype Move = Move(chunkId: string, was: nat, now: nat)

  datatype RetrievalDiff = RetrievalDiff(added: seq<string>, removed: seq<string>, reordered: seq<Move>) {
    predicate Identical() {
      added == [] && removed == [] && reordered == []
    }
  }

  /** `{id: index}` built from left to right: the last index of a repeated id wins. */
  function Positions(ids: seq<string>): (m: map<string, nat>)
    ensures forall id :: id in m <==> id in ids
  {
    if ids == [] then map[]
    else Positions(ids[..|ids| - 1])[ids[|ids| - 1] := |ids| - 1]
  }

  /** The order a dictionary iterates in: first insertion. */
  function Keys(ids: seq<string>): (ks: seq<string>)
    ensures forall id :: id in ks <==> id in ids
  {
    if ids == [] then []
    else
      var n := |ids| - 1;
      Keys(ids[..n]) + if ids[n] in ids[..n] then [] else [ids[n]]
  }

  function Outside(ids: seq<string>, other: map<string, nat>): (r: seq<string>)
    ensures forall id :: id in r <==> id in ids && id !in other
  {
    if ids == [] then []
    else (if ids[0] in other then [] else [ids[0]]) + Outside(ids[1..], other)
  }

  function Moves(ids: seq<string>, original: map<string, nat>, replayed: map<string, nat>): seq<Move>
    requires forall id :: id in ids ==> id in replayed
  {
    if ids == [] then []
    else
      var id := ids[0];
      (if id in original && original[id] != replayed[id] then [Move(id, original[id] + 1, replayed[id] + 1)] else [])
      + Moves(ids[1..], original, replayed)
  }

  function DiffRetrieval(before: seq<string>, after: seq<string>): RetrievalDiff {
    var original, replayed := Positions(before), Positions(after);
    RetrievalDiff(Outside(Keys(after), original), Outside(Keys(before), replayed),
                  Moves(Keys(after), original, replayed))
  }

  ghost predicate Distinct(ids: seq<string>) {
    forall i, j :: 0 <= i < j < |ids| ==> ids[i] != ids[j]
  }

  lemma {:induction false} NewKeyGoesLast(ids: seq<string>)
    requires ids != [] && ids[|ids| - 1] !in ids[..|ids| - 1]
    ensures Keys(ids) == Keys(ids[..|ids| - 1]) + [ids[|ids| - 1]]
  {
  }

  lemma {:induction false} LastIsNew(ids: seq<string>)
    requires Distinct(ids) && ids != []
    ensures Distinct(ids[..|ids| - 1]) && ids[|ids| - 1] !in ids[..|ids| - 1]
  {
    var n := |ids| - 1;
    assert forall i :: 0 <= i < n ==> ids[..n][i] == ids[i] != ids[n];
  }

  lemma {:induction false} DistinctKeys(ids: seq<string>)
    requires Distinct(ids)
    ensures Keys(ids) == ids
  {
    if ids != [] {
      var n := |ids| - 1;
      LastIsNew(ids);
      DistinctKeys(ids[..n]);
      NewKeyGoesLast(ids);
      assert ids == ids[..n] + [ids[n]];
    }
  }

  lemma {:induction false} DistinctPositions(ids: seq<string>, i: nat)
    requires Distinct(ids) && i < |ids|
    ensures Positions(ids)[ids[i]] == i
  {
    var n := |ids| - 1;
    if i < n {
      assert ids[..n][i] == ids[i];
      DistinctPositions(ids[..n], i);
    }
  }

  // ---- Rebuilding the replayed list from the original and the diff ----

  function Lookup(moves: seq<Move>, id: string): Option<nat> {
    if moves == [] then None
    else if moves[0].chunkId == id then Some(moves[0].now)
    else Lookup(moves[1..], id)
  }

  /** Where a chunk of the original list stands now. */
  function Seat(diff: RetrievalDiff, id: string, was: nat): int {
    match Lookup(diff.reordered, id)
    case Some(now) => now - 1
    case None => was
  }

  /** The retained chunk, if any, that now stands at position `seat`, searching the original from `from`. */
  function Occupant(before: seq<string>, diff: RetrievalDiff, seat: nat, from: nat): Option<string>
    requires from <= |before|
    decreases |before| - from
  {
    if from == |before| then None
    else if before[from] !in diff.removed && Seat(diff, before[from], from) == seat then Some(before[from])
    else Occupant(before, diff, seat, from + 1)
  }

  function Fill(before: seq<string>, diff: RetrievalDiff, seat: nat, seats: nat, added: seq<string>): seq<string>
    requires seat <= seats
    decreases seats - seat
  {
    if seat == seats then []
    else
      match Occupant(before, diff, seat, 0)
      case Some(id) => [id] + Fill(before, diff, seat + 1, seats, added)
      case None =>
        if added == [] then [] else [added[0]] + Fill(before, diff, seat + 1, seats, added[1..])
  }

  /** Retained chunks take their seats, and the added ones fill the gaps in order. */
  function Rebuild(before: seq<string>, diff: RetrievalDiff): seq<string> {
    var seats := |before| - |diff.removed| + |diff.added|;
    if seats < 0 then [] else Fill(before, diff, 0, seats, diff.added)
  }

  lemma {:induction false} LookupMoves(ids: seq<string>, original: map<string, nat>, replayed: map<string, nat>,
                                       id: string)
    requires forall x :: x in ids ==> x in replayed
    ensures Lookup(Moves(ids, original, replayed), id)
         == if id in ids && id in original && original[id] != replayed[id] then Some(replayed[id] + 1) else None
  {
    if ids != [] {
      LookupMoves(ids[1..], original, replayed, id);
      var rest := Moves(ids[1..], original, replayed);
      var x := ids[0];
      if x in original && original[x] != replayed[x] {
        assert ([Move(x, original[x] + 1, replayed[x] + 1)] + rest)[1..] == rest;
      } else {
        assert [] + rest == rest;
      }
    }
  }

  /** A retained chunk's seat is its index in the replayed list. */
  lemma {:induction false} SeatIsIndex(before: seq<string>, after: seq<string>, k: nat, i: nat)
    requires Distinct(before) && Distinct(after) && k < |before| && i < |after| && before[k] == after[i]
    ensures Seat(DiffRetrieval(before, after), before[k], k) == i
  {
    DistinctKeys(after);
    DistinctPositions(before, k);
    DistinctPositions(after, i);
    LookupMoves(after, Positions(before), Positions(after), before[k]);
  }

  lemma {:induction false} RemovedExactlyWhenGone(before: seq<string>, after: seq<string>, id: string)
    ensures id in DiffRetrieval(before, after).removed <==> id in before && id !in after
  {
  }

  /** A position of the original list holds the occupant of seat `i` exactly when it held the same chunk. */
  lemma {:induction false} OccupiesOwnSeatOnly(before: seq<string>, after: seq<string>, i: nat, k: nat)
    requires Distinct(before) && Distinct(after) && i < |after| && k < |before|
    ensures var diff := DiffRetrieval(before, after);
            before[k] !in diff.removed && Seat(diff, before[k], k) == i <==> before[k] == after[i]
  {
    RemovedExactlyWhenGone(before, after, before[k]);
    if before[k] in after {
      var j :| 0 <= j < |after| && after[j] == before[k];
      SeatIsIndex(before, after, k, j);
    }
  }

  lemma {:induction false} SearchFindsTheOccupant(before: seq<string>, diff: RetrievalDiff, seat: nat, chunk: string,
                                                  from: nat)
    requires from <= |before|
    requires forall k :: 0 <= k < |before| ==>
               (before[k] !in diff.removed && Seat(diff, before[k], k) == seat <==> before[k] == chunk)
    ensures Occupant(before, diff, seat, from) == if chunk in before[from..] then Some(chunk) else None
    decreases |before| - from
  {
    if from < |before| {
      SearchFindsTheOccupant(before, diff, seat, chunk, from + 1);
      assert before[from..] == [before[from]] + before[from + 1..];
    }
  }

  lemma {:induction false} OccupantIsRetained(before: seq<string>, after: seq<string>, i: nat)
    requires Distinct(before) && Distinct(after) && i < |after|
    ensures Occupant(before, DiffRetrieval(before, after), i, 0) == if after[i] in before then Some(after[i]) else None
  {
    forall k | 0 <= k < |before|
      ensures var diff := DiffRetrieval(before, after);
              before[k] !in diff.removed && Seat(diff, before[k], k) == i <==> before[k] == after[i]
    {
      OccupiesOwnSeatOnly(before, after, i, k);
    }
    SearchFindsTheOccupant(before, DiffRetrieval(before, after), i, after[i], 0);
    assert before[0..] == before;
  }

  lemma {:induction false} FillStep(before: seq<string>, diff: RetrievalDiff, seat: nat, seats: nat, chunk: string,
                                    kept: bool, later: seq<string>)
    requires seat < seats && Occupant(before, diff, seat, 0) == if kept then Some(chunk) else None
    ensures Fill(before, diff, seat, seats, (if kept then [] else [chunk]) + later)
         == [chunk] + Fill(before, diff, seat + 1, seats, later)
  {
    if kept {
      assert [] + later == later;
    } else {
      assert ([chunk] + later)[1..] == later;
    }
  }

  lemma {:induction false} OutsideStep(ids: seq<string>, other: map<string, nat>)
    requires ids != []
    ensures Outside(ids, other) == (if ids[0] in other then [] else [ids[0]]) + Outside(ids[1..], other)
  {
  }

  lemma {:induction false} FillFollowsAfter(before: seq<string>, after: seq<string>, i: nat)
    requires Distinct(before) && Distinct(after) && i <= |after|
    ensures Fill(before, DiffRetrieval(before, after), i, |after|, Outside(after[i..], Positions(before))) == after[i..]
    decreases |after| - i
  {
    if i < |after| {
      var diff, known := DiffRetrieval(before, after), Positions(before);
      var later := Outside(after[i + 1..], known);
      OccupantIsRetained(before, after, i);
      FillFollowsAfter(before, after, i + 1);
      assert after[i..][1..] == after[i + 1..];
      OutsideStep(after[i..], known);
      FillStep(before, diff, i, |after|, after[i], after[i] in known, later);
      assert after[i..] == [after[i]] + after[i + 1..];
    }
  }

  function Elements(ids: seq<string>): set<string> {
    set id | id in ids
  }

  lemma {:induction false} DistinctCount(ids: seq<string>)
    requires Distinct(ids)
    ensures |Elements(ids)| == |ids|
  {
    if ids != [] {
      var n := |ids| - 1;
      DistinctCount(ids[..n]);
      assert Elements(ids) == Elements(ids[..n]) + {ids[n]};
    }
  }

  lemma {:induction false} OutsideDistinct(ids: seq<string>, other: map<string, nat>)
    requires Distinct(ids)
    ensures Distinct(Outside(ids, other))
  {
    if ids != [] {
      OutsideDistinct(ids[1..], other);
      assert ids[0] !in ids[1..];
    }
  }

  lemma {:induction false} OutsideCount(ids: seq<string>, other: map<string, nat>, gone: set<string>)
    requires Distinct(ids) && gone == other.Keys
    ensures |Outside(ids, other)| == |Elements(ids) - gone|
  {
    OutsideDistinct(ids, other);
    DistinctCount(Outside(ids, other));
    assert Elements(Outside(ids, other)) == Elements(ids) - gone;
  }

  lemma {:induction false} DifferencesBalance(a: set<string>, b: set<string>)
    ensures |b| - |b - a| + |a - b| == |a|
  {
    assert (b - a) + (b * a) == b;
    assert (a - b) + (b * a) == a;
  }

  /** The diff accounts for the length of the replayed list. */
  lemma {:induction false} SeatsAddUp(before: seq<string>, after: seq<string>)
    requires Distinct(before) && Distinct(after)
    ensures var diff := DiffRetrieval(before, after);
            |before| - |diff.removed| + |diff.added| == |after|
  {
    DistinctKeys(before);
    DistinctKeys(after);
    DistinctCount(before);
    DistinctCount(after);
    OutsideCount(before, Positions(after), Elements(after));
    OutsideCount(after, Positions(before), Elements(before));
    DifferencesBalance(Elements(after), Elements(before));
  }

  /** The diff loses nothing: together with the original list it gives the replayed one back. */
  lemma {:induction false} DiffIsLossless(before: seq<string>, after: seq<string>)
    requires Distinct(before) && Distinct(after)
    ensures Rebuild(before, DiffRetrieval(before, after)) == after
  {
    SeatsAddUp(before, after);
    DistinctKeys(after);
    assert after[0..] == after;
    FillFollowsAfter(before, after, 0);
  }

  lemma {:induction false} DiffDeterminesReplay(before: seq<string>, after: seq<string>, after': seq<string>)
    requires Distinct(before) && Distinct(after) && Distinct(after')
    ensures DiffRetrieval(before, after) == DiffRetrieval(before, after') <==> after == after'
  {
    DiffIsLossless(before, after);
    DiffIsLossless(before, after');
  }

  /** The move of one chunk, if it is one. */
  function OwnMove(id: string, original: map<string, nat>, replayed: map<string, nat>): seq<Move>
    requires id in replayed
  {
    if id in original && original[id] != replayed[id] then [Move(id, original[id] + 1, replayed[id] + 1)] else []
  }

  lemma {:induction false} InEither<T>(x: T, a: seq<T>, b: seq<T>)
    ensures x in a + b <==> x in a || x in b
  {
  }

  lemma {:induction false} MovesStep(ids: seq<string>, original: map<string, nat>, replayed: map<string, nat>)
    requires ids != [] && forall x :: x in ids ==> x in replayed
    ensures Moves(ids, original, replayed)
         == OwnMove(ids[0], original, replayed) + Moves(ids[1..], original, replayed)
  {
  }

  lemma {:induction false} MovesAreExactly(ids: seq<string>, original: map<string, nat>, replayed: map<string, nat>,
                                           m: Move)
    requires forall x :: x in ids ==> x in replayed
    ensures m in Moves(ids, original, replayed) <==> m.chunkId in ids && m in OwnMove(m.chunkId, original, replayed)
  {
    if ids != [] {
      MovesAreExactly(ids[1..], original, replayed, m);
      MovesStep(ids, original, replayed);
      InEither(m, OwnMove(ids[0], original, replayed), Moves(ids[1..], original, replayed));
      InEither(m.chunkId, [ids[0]], ids[1..]);
      assert ids == [ids[0]] + ids[1..];
    }
  }

  /** The id stands at this rank, counted from one. */
  predicate Ranked(ids: seq<string>, id: string, rank: nat) {
    1 <= rank <= |ids| && ids[rank - 1] == id
  }

  lemma {:induction false} PlaceIsUnique(ids: seq<string>, i: nat, j: nat)
    requires Distinct(ids) && i < |ids| && j < |ids|
    ensures ids[i] == ids[j] <==> i == j
  {
  }

  lemma {:induction false} PlaceIsTheRank(ids: seq<string>, j: nat, rank: nat, position: nat)
    requires Distinct(ids) && j < |ids| && position == j
    ensures rank == position + 1 <==> Ranked(ids, ids[j], rank)
  {
    if 1 <= rank <= |ids| {
      PlaceIsUnique(ids, rank - 1, j);
    }
  }

  lemma {:induction false} PositionIsTheRank(ids: seq<string>, id: string, rank: nat)
    requires Distinct(ids)
    ensures id in Positions(ids) && rank == Positions(ids)[id] + 1 <==> Ranked(ids, id, rank)
  {
    if id in ids {
      var j :| 0 <= j < |ids| && ids[j] == id;
      DistinctPositions(ids, j);
      PlaceIsTheRank(ids, j, rank, Positions(ids)[id]);
    }
  }

  lemma {:induction false} OwnMoveIs(m: Move, original: map<string, nat>, replayed: map<string, nat>)
    requires m.chunkId in replayed
    ensures m in OwnMove(m.chunkId, original, replayed) <==>
              && m.chunkId in original && original[m.chunkId] != replayed[m.chunkId]
              && m.was == original[m.chunkId] + 1 && m.now == replayed[m.chunkId] + 1
  {
  }

  lemma {:induction false} ReorderedAreTheMoves(before: seq<string>, after: seq<string>)
    requires Distinct(after)
    ensures DiffRetrieval(before, after).reordered == Moves(after, Positions(before), Positions(after))
  {
    DistinctKeys(after);
  }

  lemma {:induction false} MovesOfPositions(moves: seq<Move>, before: seq<string>, after: seq<string>,
                                            original: map<string, nat>, replayed: map<string, nat>, m: Move)
    requires Distinct(before) && Distinct(after) && original == Positions(before) && replayed == Positions(after)
    requires moves == Moves(after, original, replayed)
    ensures m in moves <==>
              && m.chunkId in original && m.chunkId in replayed && original[m.chunkId] != replayed[m.chunkId]
              && m.was == original[m.chunkId] + 1 && m.now == replayed[m.chunkId] + 1
  {
    MovesAreExactly(after, original, replayed, m);
    if m.chunkId in replayed {
      OwnMoveIs(m, original, replayed);
    }
  }

  /**
  For distinct ids a move is reported exactly when its chunk stands at its two ranks, counted from
  one, in the two lists, and these differ.
  */
  lemma {:induction false} MovedExactlyWhenRanksDiffer(before: seq<string>, after: seq<string>, m: Move)
    requires Distinct(before) && Distinct(after)
    ensures m in DiffRetrieval(before, after).reordered <==>
              Ranked(before, m.chunkId, m.was) && Ranked(after, m.chunkId, m.now) && m.was != m.now
  {
    var moves := DiffRetrieval(before, after).reordered;
    ReorderedAreTheMoves(before, after);
    MovesOfPositions(moves, before, after, Positions(before), Positions(after), m);
    PositionIsTheRank(before, m.chunkId, m.was);
    PositionIsTheRank(after, m.chunkId, m.now);
  }

  // ---- What `identical` means ----

  lemma {:induction false} NoMoves(ids: seq<string>, original: map<string, nat>, replayed: map<string, nat>)
    requires forall id :: id in ids ==> id in replayed
    ensures Moves(ids, original, replayed) == []
       <==> forall id :: id in ids && id in original ==> original[id] == replayed[id]
  {
    if ids != [] {
      NoMoves(ids[1..], original, replayed);
    }
  }

  lemma {:induction false} NothingOutside(ids: seq<string>, other: map<string, nat>)
    ensures Outside(ids, other) == [] <==> forall id :: id in ids ==> id in other
  {
    if ids != [] {
      NothingOutside(ids[1..], other);
    }
  }

  /** For any lists, repeats included, `identical` compares last positions. */
  lemma {:induction false} IdenticalExactlyWhenPositionsAgree(before: seq<string>, after: seq<string>)
    ensures DiffRetrieval(before, after).Identical() <==> Positions(before) == Positions(after)
  {
    var original, replayed := Positions(before), Positions(after);
    NothingOutside(Keys(after), original);
    NothingOutside(Keys(before), replayed);
    NoMoves(Keys(after), original, replayed);
    if DiffRetrieval(before, after).Identical() {
      assert original.Keys == replayed.Keys;
    }
  }

  /** Same chunks in the same order: what the property promises, for lists without repeats. */
  lemma {:induction false} IdenticalExactlyWhenEqual(before: seq<string>, after: seq<string>)
    requires Distinct(before) && Distinct(after)
    ensures DiffRetrieval(before, after).Identical() <==> before == after
  {
    IdenticalExactlyWhenPositionsAgree(before, after);
    IdenticalExactlyWhenPositionsAgree(before, before);
    DiffDeterminesReplay(before, before, after);
  }

  /** With a repeated id two different lists can be reported identical. */
  lemma {:induction false} RepeatsHideADifference()
    ensures DiffRetrieval(["a", "a", "b"], ["b", "a", "b"]).Identical() && ["a", "a", "b"] != ["b", "a", "b"]
  {
    var x, y := ["a", "a", "b"], ["b", "a", "b"];
    assert x[..2] == ["a", "a"] && x[..2][..1] == ["a"] && x[..1][..0] == [];
    assert y[..2] == ["b", "a"] && y[..2][..1] == ["b"] && y[..1][..0] == [];
    assert Positions(["a"]) == map["a" := 0] && Positions(["b"]) == map["b" := 0];
    assert Positions(["a", "a"]) == map["a" := 1] && Positions(["b", "a"]) == map["b" := 0, "a" := 1];
    assert Positions(x) == map["a" := 1, "b" := 2] && Positions(y) == map["a" := 1, "b" := 2];
    IdenticalExactlyWhenPositionsAgree(x, y);
    assert x[0] != y[0];
  }
}
