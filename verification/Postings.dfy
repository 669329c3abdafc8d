/** The keyword leg of a vector row: how services/archive.py orders postings for writing. */
module Postings {

  /** Term indices with their weights. `SparseVector` itself refuses lists of different length. */
  datatype Sparse = Sparse(indices: seq<int>, values: seq<real>)

  type SparseVector = s: Sparse | |s.indices| == |s.values| witness Sparse([], [])

  predicate NotAfter(a: (int, real), b: (int, real)) {
    a.0 < b.0 || (a.0 == b.0 && a.1 <= b.1)
  }

  function Insert(p: (int, real), sorted: seq<(int, real)>): seq<(int, real)> {
    if sorted == [] || NotAfter(p, sorted[0]) then [p] + sorted else [sorted[0]] + Insert(p, sorted[1..])
  }

  /** `sorted(...)` of pairs. */
  function Sorted(ps: seq<(int, real)>): seq<(int, real)> {
    if ps == [] then [] else Insert(ps[0], Sorted(ps[1..]))
  }

  function Zip(indices: seq<int>, values: seq<real>): seq<(int, real)>
    requires |indices| == |values|
  {
    if indices == [] then [] else [(indices[0], values[0])] + Zip(indices[1..], values[1..])
  }

  function Indices(ps: seq<(int, real)>): (r: seq<int>)
    ensures |r| == |ps|
  {
    if ps == [] then [] else [ps[0].0] + Indices(ps[1..])
  }

  function Values(ps: seq<(int, real)>): (r: seq<real>)
    ensures |r| == |ps|
  {
    if ps == [] then [] else [ps[0].1] + Values(ps[1..])
  }

  /** `sparse_record`. */
  function SparseRecord(s: SparseVector): SparseVector {
    var ps := Sorted(Zip(s.indices, s.values));
    Sparse(Indices(ps), Values(ps))
  }

  ghost predicate Distinct(xs: seq<int>) {
    forall i, j :: 0 <= i < j < |xs| ==> xs[i] != xs[j]
  }

  /** What the importer demands of the indices: no `later <= earlier` among neighbours. */
  predicate StrictlyAscending(xs: seq<int>) {
    forall i :: 0 <= i < |xs| - 1 ==> xs[i] < xs[i + 1]
  }

  ghost predicate Ordered(ps: seq<(int, real)>) {
    forall i, j :: 0 <= i <= j < |ps| ==> i == j || NotAfter(ps[i], ps[j])
  }

  lemma {:induction false} InsertKeeps(p: (int, real), sorted: seq<(int, real)>)
    requires Ordered(sorted)
    ensures Ordered(Insert(p, sorted))
    ensures multiset(Insert(p, sorted)) == multiset(sorted) + multiset{p}
    ensures forall q :: q in Insert(p, sorted) <==> q == p || q in sorted
  {
    if sorted == [] {
    } else if NotAfter(p, sorted[0]) {
      assert forall j :: 0 <= j < |sorted| ==> NotAfter(p, sorted[j]) by {
        assert forall j :: 0 < j < |sorted| ==> NotAfter(sorted[0], sorted[j]);
      }
    } else {
      var rest := Insert(p, sorted[1..]);
      assert sorted == [sorted[0]] + sorted[1..];
      InsertKeeps(p, sorted[1..]);
      forall j | 0 <= j < |rest| ensures NotAfter(sorted[0], rest[j]) {
        assert rest[j] in rest;
        if rest[j] != p {
          var k :| 0 <= k < |sorted[1..]| && sorted[1..][k] == rest[j];
          assert sorted[k + 1] == rest[j];
        }
      }
    }
  }

  lemma {:induction false} SortedIsAPermutation(ps: seq<(int, real)>)
    ensures Ordered(Sorted(ps)) && multiset(Sorted(ps)) == multiset(ps)
  {
    if ps != [] {
      SortedIsAPermutation(ps[1..]);
      InsertKeeps(ps[0], Sorted(ps[1..]));
      assert ps == [ps[0]] + ps[1..];
    }
  }

  lemma {:induction false} ZipUnzip(ps: seq<(int, real)>)
    ensures Zip(Indices(ps), Values(ps)) == ps
    ensures forall i :: 0 <= i < |ps| ==> Indices(ps)[i] == ps[i].0
  {
    if ps != [] {
      ZipUnzip(ps[1..]);
      assert ps == [ps[0]] + ps[1..];
    }
  }

  lemma {:induction false} ZipAt(indices: seq<int>, values: seq<real>)
    requires |indices| == |values|
    ensures |Zip(indices, values)| == |indices|
    ensures forall i :: 0 <= i < |indices| ==> Zip(indices, values)[i] == (indices[i], values[i])
    ensures Indices(Zip(indices, values)) == indices && Values(Zip(indices, values)) == values
  {
    if indices != [] {
      ZipAt(indices[1..], values[1..]);
      assert indices == [indices[0]] + indices[1..] && values == [values[0]] + values[1..];
    }
  }

  lemma {:induction false} IndicesOfInsert(p: (int, real), sorted: seq<(int, real)>)
    ensures multiset(Indices(Insert(p, sorted))) == multiset(Indices(sorted)) + multiset{p.0}
  {
    if sorted == [] || NotAfter(p, sorted[0]) {
      assert ([p] + sorted)[1..] == sorted;
    } else {
      IndicesOfInsert(p, sorted[1..]);
      assert ([sorted[0]] + Insert(p, sorted[1..]))[1..] == Insert(p, sorted[1..]);
    }
  }

  lemma {:induction false} IndicesOfSorted(ps: seq<(int, real)>)
    ensures multiset(Indices(Sorted(ps))) == multiset(Indices(ps))
  {
    if ps != [] {
      IndicesOfSorted(ps[1..]);
      IndicesOfInsert(ps[0], Sorted(ps[1..]));
    }
  }

  ghost predicate CountedOnce(xs: seq<int>) {
    forall x :: multiset(xs)[x] <= 1
  }

  lemma {:induction false} CountedOnceStep(xs: seq<int>, x: int)
    ensures CountedOnce(xs + [x]) <==> CountedOnce(xs) && x !in xs
  {
    assert multiset(xs + [x]) == multiset(xs) + multiset{x};
    if CountedOnce(xs + [x]) {
      forall y ensures multiset(xs)[y] <= 1 {
        assert multiset(xs + [x])[y] <= 1;
      }
      assert multiset(xs + [x])[x] <= 1;
    }
  }

  lemma {:induction false} DistinctByCount(xs: seq<int>)
    ensures Distinct(xs) <==> CountedOnce(xs)
  {
    if xs != [] {
      var n := |xs| - 1;
      DistinctByCount(xs[..n]);
      CountedOnceStep(xs[..n], xs[n]);
      assert xs == xs[..n] + [xs[n]];
      assert Distinct(xs) <==> Distinct(xs[..n]) && xs[n] !in xs[..n];
    }
  }

  lemma {:induction false} AscendingFar(xs: seq<int>, i: nat, j: nat)
    requires StrictlyAscending(xs) && i < j < |xs|
    ensures xs[i] < xs[j]
  {
    if i + 1 < j {
      AscendingFar(xs, i, j - 1);
    }
  }

  lemma {:induction false} AscendingExactlyWhenDistinct(ps: seq<(int, real)>)
    requires Ordered(ps)
    ensures StrictlyAscending(Indices(ps)) <==> Distinct(Indices(ps))
  {
    var xs := Indices(ps);
    ZipUnzip(ps);
    forall i | 0 <= i < |xs| - 1 ensures xs[i] <= xs[i + 1] {
      assert NotAfter(ps[i], ps[i + 1]);
    }
    if StrictlyAscending(xs) {
      forall i, j | 0 <= i < j < |xs| ensures xs[i] != xs[j] {
        AscendingFar(xs, i, j);
      }
    }
  }

  lemma {:induction false} NeighboursAreOrdered(ps: seq<(int, real)>)
    requires Ordered(ps)
    ensures forall i :: 0 < i < |ps| ==>
              || Indices(ps)[i - 1] < Indices(ps)[i]
              || (Indices(ps)[i - 1] == Indices(ps)[i] && Values(ps)[i - 1] <= Values(ps)[i])
  {
    forall i | 0 < i < |ps|
      ensures || Indices(ps)[i - 1] < Indices(ps)[i]
              || (Indices(ps)[i - 1] == Indices(ps)[i] && Values(ps)[i - 1] <= Values(ps)[i])
    {
      assert NotAfter(ps[i - 1], ps[i]);
      EntryAt(ps, i - 1);
      EntryAt(ps, i);
    }
  }

  lemma {:induction false} EntryAt(ps: seq<(int, real)>, i: nat)
    requires i < |ps|
    ensures (Indices(ps)[i], Values(ps)[i]) == ps[i]
  {
    if i > 0 {
      EntryAt(ps[1..], i - 1);
    }
  }

  /**
  The written postings are the stored ones in order, and they pass the importer's test exactly
  when no index repeats.
  */
  lemma {:induction false} RecordIsReadableExactlyWithoutRepeats(s: SparseVector)
    ensures multiset(Zip(SparseRecord(s).indices, SparseRecord(s).values)) == multiset(Zip(s.indices, s.values))
    ensures StrictlyAscending(SparseRecord(s).indices) <==> Distinct(s.indices)
  {
    var zipped := Zip(s.indices, s.values);
    var ps := Sorted(zipped);
    SortedIsAPermutation(zipped);
    ZipUnzip(ps);
    ZipAt(s.indices, s.values);
    IndicesOfSorted(zipped);
    AscendingExactlyWhenDistinct(ps);
    SameCounts(Indices(ps), s.indices);
  }

  /** They are written by index, and by weight under one index. */
  lemma {:induction false} RecordIsSorted(s: SparseVector)
    ensures var r := SparseRecord(s);
            forall i :: 0 < i < |r.indices| ==>
              r.indices[i - 1] < r.indices[i] || (r.indices[i - 1] == r.indices[i] && r.values[i - 1] <= r.values[i])
  {
    var zipped := Zip(s.indices, s.values);
    SortedIsAPermutation(zipped);
    NeighboursAreOrdered(Sorted(zipped));
  }

  lemma {:induction false} SameCounts(xs: seq<int>, ys: seq<int>)
    requires multiset(xs) == multiset(ys)
    ensures Distinct(xs) <==> Distinct(ys)
  {
    DistinctByCount(xs);
    DistinctByCount(ys);
  }

  lemma {:induction false} SortedIsStable(ps: seq<(int, real)>)
    requires forall i :: 0 <= i < |ps| - 1 ==> ps[i].0 < ps[i + 1].0
    ensures Sorted(ps) == ps
  {
    if ps != [] {
      forall i | 0 <= i < |ps[1..]| - 1 ensures ps[1..][i].0 < ps[1..][i + 1].0 {
        assert ps[i + 1].0 < ps[i + 2].0;
      }
      SortedIsStable(ps[1..]);
      assert ps == [ps[0]] + ps[1..];
      if |ps| > 1 {
        assert ps[0].0 < ps[0 + 1].0;
      }
    }
  }

  /** Postings a backend already keeps in order are written through unchanged. */
  lemma {:induction false} OrderedPostingsAreUnchanged(s: SparseVector)
    requires StrictlyAscending(s.indices)
    ensures SparseRecord(s) == s
  {
    ZipAt(s.indices, s.values);
    SortedIsStable(Zip(s.indices, s.values));
  }

  /**
  Restored postings equal the stored ones exactly when those were in order, for postings that
  can be restored at all.
  */
  lemma {:induction false} PostingsSurviveExactlyInOrder(s: SparseVector)
    requires Distinct(s.indices)
    ensures SparseRecord(s) == s <==> StrictlyAscending(s.indices)
  {
    RecordIsReadableExactlyWithoutRepeats(s);
    if StrictlyAscending(s.indices) {
      OrderedPostingsAreUnchanged(s);
    }
  }
}
