/**
Job identifiers of core/identity.py: a millisecond stamp that never goes back, a sequence
number that breaks ties, and a random suffix.
*/
module JobIds {
  import opened Text

  /** The module globals `_last_millis` and `_sequence`. */
  datatype Stamp = Stamp(millis: nat, sequence: nat)

  const Start := Stamp(0, 0)

  function Next(last: Stamp, clock: nat): Stamp {
    if clock <= last.millis then last.(sequence := last.sequence + 1) else Stamp(clock, 0)
  }

  function Prefix(s: Stamp): string {
    Padded(s.millis, 13) + Padded(s.sequence, 4)
  }

  function Render(s: Stamp, token: string): string {
    "job_" + (Prefix(s) + token)
  }

  class JobIdSource {
    var last: Stamp

    constructor ()
      ensures last == Start
    {
      last := Start;
    }

    /** `clock` is the wall clock in milliseconds, which may step back; `token` is the random part. */
    method JobId(clock: nat, token: string) returns (id: string)
      modifies this
      ensures last == Next(old(last), clock)
      ensures id == Render(last, token)
    {
      if clock <= last.millis {
        last := Stamp(last.millis, last.sequence + 1);
      } else {
        last := Stamp(clock, 0);
      }
      id := "job_" + (Prefix(last) + token);
    }
  }

  // ---- Whole runs ----

  predicate Before(a: Stamp, b: Stamp) {
    a.millis < b.millis || (a.millis == b.millis && a.sequence < b.sequence)
  }

  /** The stamps issued for a list of clock readings. */
  function Issued(last: Stamp, clocks: seq<nat>): (stamps: seq<Stamp>)
    ensures |stamps| == |clocks|
    decreases |clocks|
  {
    if clocks == [] then []
    else [Next(last, clocks[0])] + Issued(Next(last, clocks[0]), clocks[1..])
  }

  lemma {:induction false} IssuedAfter(last: Stamp, clocks: seq<nat>, i: nat)
    requires i < |clocks|
    ensures Before(last, Issued(last, clocks)[i])
    decreases |clocks|
  {
    if i > 0 {
      IssuedAfter(Next(last, clocks[0]), clocks[1..], i - 1);
    }
  }

  /** Stamps strictly increase whatever the clock does. */
  lemma {:induction false} StampsIncrease(last: Stamp, clocks: seq<nat>, i: nat, j: nat)
    requires i < j < |clocks|
    ensures Before(Issued(last, clocks)[i], Issued(last, clocks)[j])
    decreases |clocks|
  {
    if i == 0 {
      IssuedAfter(Next(last, clocks[0]), clocks[1..], j - 1);
    } else {
      StampsIncrease(Next(last, clocks[0]), clocks[1..], i - 1, j - 1);
    }
  }

  /** Stamps that fit their columns render to strings that sort the same way. */
  predicate Fits(s: Stamp) {
    s.millis < Pow10(13) && s.sequence < Pow10(4)
  }

  lemma {:induction false} PaddedOrder(a: nat, b: nat, width: nat)
    requires width >= 1 && a < Pow10(width) && b < Pow10(width)
    ensures |Padded(a, width)| == |Padded(b, width)| == width
    ensures Less(Padded(a, width), Padded(b, width)) <==> a < b
    ensures Padded(a, width) == Padded(b, width) <==> a == b
  {
    PaddedLength(a, width);
    PaddedLength(b, width);
    PaddedValue(a, width);
    PaddedValue(b, width);
    FixedWidthOrder(Padded(a, width), Padded(b, width));
  }

  lemma {:induction false} PrefixOrder(a: Stamp, b: Stamp)
    requires Fits(a) && Fits(b)
    ensures |Prefix(a)| == |Prefix(b)|
    ensures Before(a, b) ==> Prefix(a) != Prefix(b) && Less(Prefix(a), Prefix(b))
  {
    PaddedOrder(a.millis, b.millis, 13);
    PaddedOrder(a.sequence, b.sequence, 4);
    if Before(a, b) {
      if a.millis == b.millis {
        LessAfterPrefix(Padded(a.millis, 13), Padded(a.sequence, 4), Padded(b.sequence, 4));
      } else {
        LessDecidedByHead(Padded(a.millis, 13), Padded(b.millis, 13), Padded(a.sequence, 4), Padded(b.sequence, 4));
      }
      LessIrreflexive(Prefix(a));
    }
  }

  lemma {:induction false} RenderedOrder(a: Stamp, b: Stamp, x: string, y: string)
    requires Fits(a) && Fits(b) && Before(a, b)
    ensures Less(Render(a, x), Render(b, y))
  {
    PrefixOrder(a, b);
    LessDecidedByHead(Prefix(a), Prefix(b), x, y);
    LessAfterPrefix("job_", Prefix(a) + x, Prefix(b) + y);
  }

  /** Ids are equal only for one stamp and one random part, as long as stamps fit their columns. */
  lemma {:induction false} IdsAreDistinct(a: Stamp, b: Stamp, x: string, y: string)
    requires Fits(a) && Fits(b)
    ensures Render(a, x) == Render(b, y) <==> a == b && x == y
  {
    if Render(a, x) == Render(b, y) {
      var n := |Prefix(a)|;
      PrefixOrder(a, b);
      assert Render(a, x)[4..] == Prefix(a) + x && Render(b, y)[4..] == Prefix(b) + y;
      assert (Prefix(a) + x)[..n] == Prefix(a) && (Prefix(b) + y)[..n] == Prefix(b);
      assert (Prefix(a) + x)[n..] == x && (Prefix(b) + y)[n..] == y;
      SamePrefixSameStamp(a, b);
    }
  }

  lemma {:induction false} SamePrefixSameStamp(a: Stamp, b: Stamp)
    requires Fits(a) && Fits(b) && Prefix(a) == Prefix(b)
    ensures a == b
  {
    PrefixOrder(a, b);
    PrefixOrder(b, a);
  }

  lemma {:induction false} LessBehindCommonHead(head: string, a: string, b: string)
    ensures Less("job_" + (head + a), "job_" + (head + b)) <==> Less(a, b)
  {
    LessAfterPrefix(head, a, b);
    LessAfterPrefix("job_", head + a, head + b);
  }

  /** The sequence column overflows: the ten-thousand-and-first id of a millisecond sorts before its predecessor. */
  lemma {:induction false} OverflowSortsBackwards(millis: nat, x: string, y: string)
    ensures !Less(Render(Stamp(millis, 9999), x), Render(Stamp(millis, 10000), y))
  {
    var head := Padded(millis, 13);
    FourAndFiveDigits();
    Split(head, "9999", x);
    Split(head, "10000", y);
    LessBehindCommonHead(head, "9999" + x, "10000" + y);
    NineIsNotBelowOne(x, y);
  }

  lemma {:induction false} Split(head: string, column: string, tail: string)
    ensures head + (column + tail) == head + column + tail
  {
  }

  lemma {:induction false} NineIsNotBelowOne(x: string, y: string)
    ensures !Less("9999" + x, "10000" + y)
  {
  }

  lemma {:induction false} FourAndFiveDigits()
    ensures Padded(9999, 4) == "9999" && Padded(10000, 4) == "10000"
  {
    assert Decimal(9) == "9" && Decimal(99) == "99" && Decimal(999) == "999" && Decimal(9999) == "9999";
    assert Decimal(1) == "1" && Decimal(10) == "10" && Decimal(100) == "100" && Decimal(1000) == "1000";
    assert Decimal(10000) == "10000";
  }

  /** An overflowing sequence was reached one step at a time, so the step over the edge is in the run. */
  lemma {:induction false} OverflowIsReachedByOnes(last: Stamp, clocks: seq<nat>, i: nat) returns (k: nat)
    requires i < |clocks| && last.sequence < 10000 && Issued(last, clocks)[i].sequence >= 10000
    ensures k <= i
    ensures Issued(last, clocks)[k].sequence == 10000
    ensures var before := if k == 0 then last else Issued(last, clocks)[k - 1];
            before == Stamp(Issued(last, clocks)[k].millis, 9999)
    decreases |clocks|
  {
    var first := Next(last, clocks[0]);
    if first.sequence >= 10000 {
      k := 0;
    } else {
      var rest := OverflowIsReachedByOnes(first, clocks[1..], i - 1);
      k := rest + 1;
      assert Issued(last, clocks)[k] == Issued(first, clocks[1..])[rest];
      assert rest > 0 ==> Issued(last, clocks)[k - 1] == Issued(first, clocks[1..])[rest - 1];
    }
  }

  /** All ids of a run, in the order they were handed out. */
  ghost predicate SortsChronologically(stamps: seq<Stamp>, tokens: seq<string>)
    requires |stamps| == |tokens|
  {
    forall i, j :: 0 <= i < j < |stamps| ==> Less(Render(stamps[i], tokens[i]), Render(stamps[j], tokens[j]))
  }

  /**
  Ids sort chronologically as strings exactly while no millisecond hands out more than ten
  thousand of them, for clocks that still fit thirteen digits.
  */
  lemma {:induction false} IdsSortExactlyWhileSequencesFit(clocks: seq<nat>, tokens: seq<string>)
    requires |tokens| == |clocks|
    requires forall i :: 0 <= i < |clocks| ==> Issued(Start, clocks)[i].millis < Pow10(13)
    ensures SortsChronologically(Issued(Start, clocks), tokens)
       <==> forall i :: 0 <= i < |clocks| ==> Issued(Start, clocks)[i].sequence < 10000
  {
    var stamps := Issued(Start, clocks);
    assert Pow10(4) == 10000;
    if forall i :: 0 <= i < |clocks| ==> stamps[i].sequence < 10000 {
      forall i, j | 0 <= i < j < |stamps| ensures Less(Render(stamps[i], tokens[i]), Render(stamps[j], tokens[j])) {
        StampsIncrease(Start, clocks, i, j);
        RenderedOrder(stamps[i], stamps[j], tokens[i], tokens[j]);
      }
    } else {
      var i :| 0 <= i < |clocks| && stamps[i].sequence >= 10000;
      var k := OverflowIsReachedByOnes(Start, clocks, i);
      OverflowSortsBackwards(stamps[k].millis, tokens[k - 1], tokens[k]);
      assert stamps[k] == Stamp(stamps[k].millis, 10000);
    }
  }
}
