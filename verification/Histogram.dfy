/**
One histogram and its two views: the Prometheus exposition of observability/metrics.py and
the OTLP data point of observability/otel_metrics.py. A series is identified by its label
key; observations are reals.
*/
module Histogram {
  import opened Wrappers

  ghost predicate Ascending(bounds: seq<real>) {
    forall i, j :: 0 <= i <= j < |bounds| ==> bounds[i] <= bounds[j]
  }

  function Insert(x: real, sorted: seq<real>): (r: seq<real>)
    requires Ascending(sorted)
    ensures Ascending(r)
    ensures forall i :: 0 <= i < |r| ==> r[i] == x || r[i] in sorted
  {
    if sorted == [] || x <= sorted[0] then [x] + sorted
    else [sorted[0]] + Insert(x, sorted[1..])
  }

  /** `sorted(buckets)`. */
  function SortedBounds(bounds: seq<real>): (r: seq<real>)
    ensures Ascending(r)
  {
    if bounds == [] then [] else Insert(bounds[0], SortedBounds(bounds[1..]))
  }

  lemma {:induction false} InsertAdds(x: real, sorted: seq<real>)
    requires Ascending(sorted)
    ensures multiset(Insert(x, sorted)) == multiset(sorted) + multiset{x}
  {
    if sorted != [] && x > sorted[0] {
      InsertAdds(x, sorted[1..]);
      assert sorted == [sorted[0]] + sorted[1..];
    }
  }

  /** Sorting the bounds keeps every one of them. */
  lemma {:induction false} SortedBoundsPermutes(bounds: seq<real>)
    ensures multiset(SortedBounds(bounds)) == multiset(bounds)
  {
    if bounds != [] {
      SortedBoundsPermutes(bounds[1..]);
      InsertAdds(bounds[0], SortedBounds(bounds[1..]));
      assert bounds == [bounds[0]] + bounds[1..];
    }
  }

  /** How many observations are at most `bound`. */
  function AtMost(values: seq<real>, bound: real): nat {
    if values == [] then 0
    else AtMost(values[..|values| - 1], bound) + if values[|values| - 1] <= bound then 1 else 0
  }

  /** Whether bucket `j` is the first whose bound holds `value`. */
  predicate FallsIn(bounds: seq<real>, j: nat, value: real)
    requires j < |bounds|
  {
    value <= bounds[j] && (j > 0 ==> bounds[j - 1] < value)
  }

  function InBucket(bounds: seq<real>, j: nat, values: seq<real>): nat
    requires j < |bounds|
  {
    if values == [] then 0
    else InBucket(bounds, j, values[..|values| - 1]) + if FallsIn(bounds, j, values[|values| - 1]) then 1 else 0
  }

  function Sum(values: seq<real>): real {
    if values == [] then 0.0 else Sum(values[..|values| - 1]) + values[|values| - 1]
  }

  /** The sum of two runs of observations is the sum of their sums. */
  lemma {:induction false} SumsAdd(first: seq<real>, second: seq<real>, value: real)
    ensures Sum(first + second) == Sum(first) + Sum(second) && Sum([value]) == value
  {
    assert [value][..0] == [] && Sum([]) == 0.0;
    if second == [] {
      assert first + second == first;
    } else {
      var all := first + second;
      assert all[..|all| - 1] == first + second[..|second| - 1];
      SumsAdd(first, second[..|second| - 1], value);
    }
  }

  /** A stored row: one count per bucket, then the number of observations. */
  ghost predicate Tallies(bounds: seq<real>, row: seq<nat>, values: seq<real>) {
    && |row| == |bounds| + 1
    && (forall j :: 0 <= j < |bounds| ==> row[j] == InBucket(bounds, j, values))
    && row[|bounds|] == |values|
  }

  /** Count one more value: in the first bucket that reaches it, if any, and in the total. */
  method CountValue(bounds: seq<real>, row: seq<nat>, value: real, ghost values: seq<real>) returns (updated: seq<nat>)
    requires Ascending(bounds) && Tallies(bounds, row, values)
    ensures Tallies(bounds, updated, values + [value])
  {
    assert (values + [value])[..|values|] == values;
    var index := 0;
    while index < |bounds| && value > bounds[index]
      invariant index <= |bounds|
      invariant forall j :: 0 <= j < index ==> !FallsIn(bounds, j, value)
      invariant index > 0 ==> bounds[index - 1] < value
    {
      index := index + 1;
    }
    forall j | index < j < |bounds| ensures !FallsIn(bounds, j, value) {
      assert bounds[index] <= bounds[j - 1];
    }
    updated := if index < |bounds| then row[index := row[index] + 1] else row;
    updated := updated[|bounds| := updated[|bounds|] + 1];
  }

  class Histogram {
    const buckets: seq<real>
    var counts: map<string, seq<nat>>
    var sums: map<string, real>
    /** Every observation of every series, in order. */
    ghost var seen: map<string, seq<real>>

    ghost predicate Valid()
      reads this
    {
      && Ascending(buckets)
      && counts.Keys == sums.Keys == seen.Keys
      && (forall key :: key in counts ==> Tallies(buckets, counts[key], seen[key]) && sums[key] == Sum(seen[key]))
    }

    ghost function Seen(key: string): seq<real>
      reads this
    {
      if key in seen then seen[key] else []
    }

    constructor (bounds: seq<real>)
      ensures Valid() && seen == map[] && buckets == SortedBounds(bounds)
    {
      buckets := SortedBounds(bounds);
      counts, sums, seen := map[], map[], map[];
    }

    method Observe(value: real, key: string)
      requires Valid()
      modifies this
      ensures Valid()
      ensures seen == old(seen)[key := old(Seen(key)) + [value]]
    {
      var row := if key in counts then counts[key] else seq(|buckets| + 1, _ => 0);
      var total := (if key in sums then sums[key] else 0.0) + value;
      ghost var values := Seen(key);
      assert (values + [value])[..|values|] == values;
      row := CountValue(buckets, row, value, values);
      counts, sums, seen := counts[key := row], sums[key := total], seen[key := values + [value]];
    }

    /** The `bucket_counts` of `samples`: running sums, then the total. */
    method Samples(key: string) returns (cumulative: seq<nat>, count: nat, sum: real)
      requires Valid() && key in counts
      ensures cumulative == Cumulative(buckets, seen[key])
      ensures count == |seen[key]| && sum == Sum(seen[key])
    {
      cumulative := CumulativeCounts(buckets, counts[key], seen[key]);
      count, sum := counts[key][|buckets|], sums[key];
    }

    /** The bucket lines of `render`, each with its `le` bound and `None` for `+Inf`. */
    method Render(key: string) returns (lines: seq<(Option<real>, nat)>, count: nat, sum: real)
      requires Valid() && key in counts
      ensures |lines| == |buckets| + 1
      ensures forall j :: 0 <= j < |buckets| ==> lines[j] == (Some(buckets[j]), AtMost(seen[key], buckets[j]))
      ensures lines[|buckets|] == (None, |seen[key]|)
      ensures count == |seen[key]| && sum == Sum(seen[key])
    {
      lines := BucketLines(buckets, counts[key], seen[key]);
      count, sum := counts[key][|buckets|], sums[key];
    }
  }

  method CumulativeCounts(buckets: seq<real>, row: seq<nat>, ghost values: seq<real>) returns (cumulative: seq<nat>)
    requires Ascending(buckets) && Tallies(buckets, row, values)
    ensures cumulative == Cumulative(buckets, values)
  {
    var running := 0;
    cumulative := [];
    for index := 0 to |buckets|
      invariant |cumulative| == index
      invariant running == if index == 0 then 0 else AtMost(values, buckets[index - 1])
      invariant forall j :: 0 <= j < index ==> cumulative[j] == AtMost(values, buckets[j])
    {
      OneMoreBucket(buckets, index, values);
      running := running + row[index];
      cumulative := cumulative + [running];
    }
    cumulative := cumulative + [row[|buckets|]];
  }

  method BucketLines(buckets: seq<real>, row: seq<nat>, ghost values: seq<real>)
    returns (lines: seq<(Option<real>, nat)>)
    requires Ascending(buckets) && Tallies(buckets, row, values)
    ensures |lines| == |buckets| + 1
    ensures forall j :: 0 <= j < |buckets| ==> lines[j] == (Some(buckets[j]), AtMost(values, buckets[j]))
    ensures lines[|buckets|] == (None, |values|)
  {
    var running := 0;
    lines := [];
    for index := 0 to |buckets|
      invariant |lines| == index
      invariant running == if index == 0 then 0 else AtMost(values, buckets[index - 1])
      invariant forall j :: 0 <= j < index ==> lines[j] == (Some(buckets[j]), AtMost(values, buckets[j]))
    {
      OneMoreBucket(buckets, index, values);
      running := running + row[index];
      lines := lines + [(Some(buckets[index]), running)];
    }
    lines := lines + [(None, row[|buckets|])];
  }

  /** What the exposition format asks for: each bucket counts everything up to its bound, the last one everything. */
  function Cumulative(bounds: seq<real>, values: seq<real>): (c: seq<nat>)
    ensures |c| == |bounds| + 1
  {
    seq(|bounds|, j requires 0 <= j < |bounds| => AtMost(values, bounds[j])) + [|values|]
  }

  /** The running sum of a row up to and including position `j`. */
  function Through(row: seq<nat>, j: nat): nat
    requires j < |row|
  {
    (if j == 0 then 0 else Through(row, j - 1)) + row[j]
  }

  /** The buckets up to `j` partition the observations up to its bound. */
  lemma {:induction false} OneMoreBucket(bounds: seq<real>, j: nat, values: seq<real>)
    requires j < |bounds| && Ascending(bounds)
    ensures AtMost(values, bounds[j])
              == (if j == 0 then 0 else AtMost(values, bounds[j - 1])) + InBucket(bounds, j, values)
  {
    if values != [] {
      OneMoreBucket(bounds, j, values[..|values| - 1]);
    }
  }

  // ---- The OTLP view ----

  /** `_per_bucket`: differences of the cumulative form, clamped at zero. */
  function PerBucket(cumulative: seq<nat>): (r: seq<nat>)
    ensures |r| == |cumulative|
  {
    if cumulative == [] then []
    else
      var n := |cumulative| - 1;
      var previous := if n == 0 then 0 else cumulative[n - 1];
      PerBucket(cumulative[..n]) + [if cumulative[n] >= previous then cumulative[n] - previous else 0]
  }

  method PerBucketCounts(cumulative: seq<nat>) returns (counts: seq<nat>)
    ensures counts == PerBucket(cumulative)
  {
    counts := [];
    var previous := 0;
    for i := 0 to |cumulative|
      invariant counts == PerBucket(cumulative[..i])
      invariant previous == if i == 0 then 0 else cumulative[i - 1]
    {
      var total := cumulative[i];
      assert cumulative[..i + 1][..i] == cumulative[..i];
      counts := counts + [if total >= previous then total - previous else 0];
      previous := total;
    }
    assert cumulative[..|cumulative|] == cumulative;
  }

  ghost predicate Monotone(cumulative: seq<nat>) {
    forall i, j :: 0 <= i <= j < |cumulative| ==> cumulative[i] <= cumulative[j]
  }

  lemma {:induction false} DifferenceAt(cumulative: seq<nat>, j: nat)
    requires j < |cumulative|
    ensures PerBucket(cumulative)[j]
         == var previous := if j == 0 then 0 else cumulative[j - 1];
            if cumulative[j] >= previous then cumulative[j] - previous else 0
  {
    var n := |cumulative| - 1;
    if j < n {
      DifferenceAt(cumulative[..n], j);
    }
  }

  lemma {:induction false} SumsOfDifferences(cumulative: seq<nat>, j: nat)
    requires j < |cumulative| && Monotone(cumulative)
    ensures Through(PerBucket(cumulative), j) == cumulative[j]
  {
    DifferenceAt(cumulative, j);
    if j > 0 {
      SumsOfDifferences(cumulative, j - 1);
    }
  }

  lemma {:induction false} RunningSumsGrow(row: seq<nat>, i: nat, j: nat)
    requires i <= j < |row|
    ensures Through(row, i) <= Through(row, j)
  {
    if i < j {
      RunningSumsGrow(row, i, j - 1);
    }
  }

  /**
  Summing the differences gives the cumulative form back exactly when it never falls, which is
  when no clamp fires.
  */
  lemma {:induction false} DifferencesInvertExactlyMonotoneSeries(cumulative: seq<nat>)
    ensures (forall j :: 0 <= j < |cumulative| ==> Through(PerBucket(cumulative), j) == cumulative[j]) <==>
              Monotone(cumulative)
  {
    var r := PerBucket(cumulative);
    if Monotone(cumulative) {
      forall j | 0 <= j < |cumulative| ensures Through(r, j) == cumulative[j] {
        SumsOfDifferences(cumulative, j);
      }
    } else {
      var i, j :| 0 <= i <= j < |cumulative| && cumulative[i] > cumulative[j];
      RunningSumsGrow(r, i, j);
    }
  }

  lemma {:induction false} AtMostGrows(values: seq<real>, low: real, high: real)
    requires low <= high
    ensures AtMost(values, low) <= AtMost(values, high) <= |values|
  {
    if values != [] {
      AtMostGrows(values[..|values| - 1], low, high);
    }
  }

  lemma {:induction false} CumulativeIsMonotone(bounds: seq<real>, values: seq<real>)
    requires Ascending(bounds)
    ensures Monotone(Cumulative(bounds, values))
  {
    var c := Cumulative(bounds, values);
    forall i, j | 0 <= i <= j < |c| ensures c[i] <= c[j] {
      if i < |bounds| {
        AtMostGrows(values, bounds[i], if j < |bounds| then bounds[j] else bounds[i]);
      }
    }
  }

  function Above(values: seq<real>, bound: real): nat {
    if values == [] then 0
    else Above(values[..|values| - 1], bound) + if bound < values[|values| - 1] then 1 else 0
  }

  lemma {:induction false} AboveIsTheRest(values: seq<real>, bound: real)
    ensures Above(values, bound) + AtMost(values, bound) == |values|
  {
    if values != [] {
      AboveIsTheRest(values[..|values| - 1], bound);
    }
  }

  /**
  The OTLP point built from a sample says what was observed: each count is the number of
  observations in its own bucket, the extra one is the number above every bound, there is
  one more count than bounds, and they add up to the point's count.
  */
  lemma {:induction false} HistogramPointIsExact(bounds: seq<real>, values: seq<real>)
    requires Ascending(bounds)
    ensures var point := PerBucket(Cumulative(bounds, values));
            && |point| == |bounds| + 1
            && (forall j :: 0 <= j < |bounds| ==> point[j] == InBucket(bounds, j, values))
            && point[|bounds|] == (if bounds == [] then |values| else Above(values, bounds[|bounds| - 1]))
            && Through(point, |bounds|) == |values|
  {
    var c := Cumulative(bounds, values);
    CumulativeIsMonotone(bounds, values);
    DifferencesInvertExactlyMonotoneSeries(c);
    assert Through(PerBucket(c), |bounds|) == c[|bounds|];
    forall j | 0 <= j < |bounds| ensures PerBucket(c)[j] == InBucket(bounds, j, values) {
      DifferenceAt(c, j);
      OneMoreBucket(bounds, j, values);
    }
    DifferenceAt(c, |bounds|);
    if bounds != [] {
      AboveIsTheRest(values, bounds[|bounds| - 1]);
    }
  }
}
