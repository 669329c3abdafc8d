/**
The Redis limiter of core/rate_limit.py: a fixed window whose bucket number is part of
the key, counted by one atomic INCR/EXPIRE transaction that every replica issues against
the same server. Replicas never talk to each other, so an interleaving of replicas is
simply a sequence of transactions.
*/
module SharedWindow {
  import opened RateLimit

  /** `namespace:fingerprint:bucket`; the namespace is constant. */
  datatype Key = Key(fingerprint: string, bucket: int)

  datatype Counter = Counter(count: nat, expires: real)

  type Counters = map<Key, Counter>

  type Span = x: real | x > 0.0 witness 1.0

  /** `int(moment // window_seconds)`. */
  function Bucket(moment: real, span: Span): int {
    (moment / span).Floor
  }

  function KeyOf(fingerprint: string -> string, identity: string, moment: real, span: Span): Key {
    Key(fingerprint(identity), Bucket(moment, span))
  }

  /** A key whose expiry has passed is absent. */
  function Held(counters: Counters, key: Key, now: real): nat {
    if key in counters && now < counters[key].expires then counters[key].count else 0
  }

  function Bumped(counters: Counters, key: Key, expiry: int, now: real): Counters {
    counters[key := Counter(Held(counters, key, now) + 1, now + expiry as real)]
  }

  /** A count goes on while its key lives, and starts over once the key has expired; other keys are left alone. */
  lemma {:induction false} CountsStartOverExactlyAtExpiry(counters: Counters, key: Key, expiry: int, now: real,
                                                          other: Key)
    ensures var after := Bumped(counters, key, expiry, now);
            && key in after && after[key].expires == now + expiry as real
            && after[key].count == (if key in counters && now < counters[key].expires then counters[key].count + 1
                                    else 1)
            && (other != key ==> Held(after, other, now) == Held(counters, other, now))
  {
  }

  class RedisServer {
    var counters: Counters

    /** MULTI, INCR key, EXPIRE key expiry, EXEC. */
    method Transact(key: Key, expiry: int, now: real) returns (count: nat)
      modifies this
      ensures counters == Bumped(old(counters), key, expiry, now)
      ensures count == counters[key].count
    {
      count := Held(counters, key, now) + 1;
      counters := counters[key := Counter(count, now + expiry as real)];
    }
  }

  class RedisRateLimiter {
    const limit: Limit
    const span: Span
    const expiry: int
    const fingerprint: string -> string
    const server: RedisServer

    constructor (limit: Limit, span: Span, fingerprint: string -> string, server: RedisServer)
      ensures this.limit == limit && this.span == span && this.fingerprint == fingerprint && this.server == server
      ensures span < expiry as real
    {
      this.limit, this.span, this.fingerprint, this.server := limit, span, fingerprint, server;
      this.expiry := Truncated(span) + 1;
    }

    /** `up` says whether the server answers; an outage serves the request unlimited. */
    method Allow(identity: string, moment: real, served: real, up: bool) returns (decision: Decision)
      modifies server
      ensures !up ==> decision == Decision(true, 0) && server.counters == old(server.counters)
      ensures up ==>
                server.counters
                    == Bumped(old(server.counters), KeyOf(fingerprint, identity, moment, span), expiry, served)
      ensures up ==>
                (decision.allowed <==>
                 Held(old(server.counters), KeyOf(fingerprint, identity, moment, span), served) < limit)
      ensures !decision.allowed ==> decision.retryAfter == RetryAfter(moment, span)
    {
      if !up {
        return Decision(true, 0);
      }
      var count := server.Transact(KeyOf(fingerprint, identity, moment, span), expiry, served);
      if count > limit {
        var remaining := span - (moment - span * Bucket(moment, span) as real);
        return Decision(false, Max(1, Truncated(remaining) + 1));
      }
      return Decision(true, 0);
    }
  }

  /** `moment % window_seconds` is the offset of `moment` inside its bucket. */
  function RetryAfter(moment: real, span: Span): int {
    Max(1, Truncated(span - (moment - span * Bucket(moment, span) as real)) + 1)
  }

  lemma {:induction false} BucketBounds(moment: real, span: Span)
    ensures span * Bucket(moment, span) as real <= moment < span * (Bucket(moment, span) + 1) as real
  {
    var q := moment / span;
    var low, high := q.Floor as real, (q.Floor + 1) as real;
    Quotient(moment, span);
    ScaleOrder(low, q, span);
    ScaleStrict(q, high, span);
    assert moment < span * high;
  }

  lemma {:induction false} Quotient(moment: real, span: Span)
    ensures span * (moment / span) == moment
  {
  }

  lemma {:induction false} ScaleOrder(a: real, b: real, span: Span)
    requires a <= b
    ensures span * a <= span * b
  {
  }

  lemma {:induction false} ScaleStrict(a: real, b: real, span: Span)
    requires a < b
    ensures span * a < span * b
  {
    assert span * b - span * a == span * (b - a);
  }

  lemma {:induction false} NextBucket(b: int, span: Span)
    ensures span * (b + 1) as real == span * b as real + span
  {
    assert (b + 1) as real == b as real + 1.0;
  }

  lemma {:induction false} BucketEndsBefore(moment: real, b: int, span: Span)
    requires Bucket(moment, span) <= b
    ensures moment < span * (b + 1) as real
  {
    var edge := span * (Bucket(moment, span) + 1) as real;
    assert moment < edge by {
      BucketBounds(moment, span);
    }
    assert edge <= span * (b + 1) as real by {
      EdgeOrder(Bucket(moment, span) + 1, b + 1, span);
    }
  }

  lemma {:induction false} EdgeOrder(b: int, c: int, span: Span)
    requires b <= c
    ensures span * b as real <= span * c as real
  {
    ScaleOrder(b as real, c as real, span);
  }

  lemma {:induction false} BucketStartsAfter(moment: real, b: int, span: Span)
    requires b <= Bucket(moment, span)
    ensures span * b as real <= moment
  {
    var edge := span * Bucket(moment, span) as real;
    assert edge <= moment by {
      BucketBounds(moment, span);
    }
    assert span * b as real <= edge by {
      EdgeOrder(b, Bucket(moment, span), span);
    }
  }

  /** Two moments less than a window apart are in the same bucket or in neighbouring ones. */
  lemma {:induction false} IntervalTouchesTwoBuckets(start: real, moment: real, span: Span)
    requires start <= moment < start + span
    ensures Bucket(moment, span) == Bucket(start, span) || Bucket(moment, span) == Bucket(start, span) + 1
  {
    var b := Bucket(start, span);
    BucketBounds(start, span);
    if Bucket(moment, span) <= b - 1 {
      BucketEndsBefore(moment, b - 1, span);
    } else if b + 2 <= Bucket(moment, span) {
      BucketStartsAfter(moment, b + 2, span);
      NextBucket(b + 1, span);
    }
  }

  // ---- Whole runs ----

  /**
  `moment` is the replica's clock, which picks the bucket; `served` is the server's, which
  expires keys. `up` is false during a backend outage.
  */
  datatype Call = Call(identity: string, moment: real, served: real, up: bool)

  datatype Outcome = Outcome(request: Call, allowed: bool)

  datatype Config = Config(limit: Limit, span: Span, expiry: int, fingerprint: string -> string)

  datatype Shared = Shared(counters: Counters, log: seq<Outcome>)

  const Fresh := Shared(map[], [])

  function Step(c: Config, r: Shared, q: Call): Shared {
    if !q.up then Shared(r.counters, r.log + [Outcome(q, true)])
    else
      var key := KeyOf(c.fingerprint, q.identity, q.moment, c.span);
      Shared(Bumped(r.counters, key, c.expiry, q.served),
          r.log + [Outcome(q, Held(r.counters, key, q.served) < c.limit)])
  }

  function After(c: Config, r: Shared, qs: seq<Call>): Shared {
    if qs == [] then r else Step(c, After(c, r, qs[..|qs| - 1]), qs[|qs| - 1])
  }

  /** The requests of one key that the server counted. */
  function Ruled(c: Config, log: seq<Outcome>, key: Key): nat {
    if log == [] then 0
    else
      var q := log[|log| - 1].request;
      Ruled(c, log[..|log| - 1], key)
      + if q.up && KeyOf(c.fingerprint, q.identity, q.moment, c.span) == key then 1 else 0
  }

  function RuledAdmitted(c: Config, log: seq<Outcome>, key: Key): nat {
    if log == [] then 0
    else
      var o := log[|log| - 1];
      RuledAdmitted(c, log[..|log| - 1], key)
      + if o.allowed && o.request.up
          && KeyOf(c.fingerprint, o.request.identity, o.request.moment, c.span) == key then 1 else 0
  }

  /** The requests of one identity admitted by the shared window with a moment in `[start, start + span)`. */
  function AdmittedIn(c: Config, log: seq<Outcome>, identity: string, start: real): nat {
    if log == [] then 0
    else
      var o := log[|log| - 1];
      AdmittedIn(c, log[..|log| - 1], identity, start)
      + if o.allowed && o.request.up && o.request.identity == identity
           && start <= o.request.moment < start + c.span then 1 else 0
  }

  /** The same of requests that met an outage of the shared store. */
  function UnruledIn(c: Config, qs: seq<Call>, identity: string, start: real): nat {
    if qs == [] then 0
    else
      var q := qs[|qs| - 1];
      UnruledIn(c, qs[..|qs| - 1], identity, start)
      + if !q.up && q.identity == identity && start <= q.moment < start + c.span then 1 else 0
  }

  /** All admissions of one identity with a moment in `[start, start + span)`, ruled or not. */
  function EverAdmittedIn(c: Config, log: seq<Outcome>, identity: string, start: real): nat {
    if log == [] then 0
    else
      var o := log[|log| - 1];
      EverAdmittedIn(c, log[..|log| - 1], identity, start)
      + if o.allowed && o.request.identity == identity && start <= o.request.moment < start + c.span then 1 else 0
  }

  /** An outage admits whatever it meets. */
  lemma {:induction false} OutagesAdmitAll(c: Config, qs: seq<Call>, identity: string, start: real)
    ensures var log := After(c, Fresh, qs).log;
            EverAdmittedIn(c, log, identity, start)
            == AdmittedIn(c, log, identity, start) + UnruledIn(c, qs, identity, start)
  {
    if qs != [] {
      var n := |qs| - 1;
      OutagesAdmitAll(c, qs[..n], identity, start);
      var before, log := After(c, Fresh, qs[..n]).log, After(c, Fresh, qs).log;
      assert log[..|log| - 1] == before;
    }
  }

  /** Clocks that disagree by at most `skew`, little enough for the second the expiry adds to absorb it. */
  ghost predicate Synchronised(c: Config, qs: seq<Call>, skew: real) {
    && 0.0 <= skew && c.span + 2.0 * skew <= c.expiry as real
    && (forall i :: 0 <= i < |qs| ==> -skew <= qs[i].served - qs[i].moment <= skew)
  }

  function Min(a: int, b: int): int {
    if a <= b then a else b
  }

  /** A live counter holds every request of its key, and outlives its own bucket. */
  ghost predicate Counts(c: Config, r: Shared, key: Key, skew: real) {
    && (Ruled(c, r.log, key) == 0 ==> key !in r.counters)
    && (Ruled(c, r.log, key) > 0 ==>
          && key in r.counters && r.counters[key].count == Ruled(c, r.log, key)
          && r.counters[key].expires >= c.span * key.bucket as real - skew + c.expiry as real)
    && RuledAdmitted(c, r.log, key) == Min(c.limit, Ruled(c, r.log, key))
  }

  lemma {:induction false} StepCounts(c: Config, r: Shared, q: Call, key: Key, skew: real)
    requires Counts(c, r, key, skew) && Synchronised(c, [q], skew)
    ensures Counts(c, Step(c, r, q), key, skew)
  {
    var s := Step(c, r, q);
    assert s.log[..|r.log|] == r.log;
    assert [q][0] == q;
    if q.up && KeyOf(c.fingerprint, q.identity, q.moment, c.span) == key {
      BucketBounds(q.moment, c.span);
      NextBucket(key.bucket, c.span);
    }
  }

  lemma {:induction false} RunCounts(c: Config, qs: seq<Call>, key: Key, skew: real)
    requires Synchronised(c, qs, skew)
    ensures Counts(c, After(c, Fresh, qs), key, skew)
  {
    if qs != [] {
      RunCounts(c, qs[..|qs| - 1], key, skew);
      StepCounts(c, After(c, Fresh, qs[..|qs| - 1]), qs[|qs| - 1], key, skew);
    }
  }

  /** Exactly the first `limit` requests of a bucket are admitted, whichever replicas they reach. */
  lemma {:induction false} BucketAdmitsExactlyLimit(c: Config, qs: seq<Call>, key: Key, skew: real)
    requires Synchronised(c, qs, skew)
    ensures RuledAdmitted(c, After(c, Fresh, qs).log, key) == Min(c.limit, Ruled(c, After(c, Fresh, qs).log, key))
  {
    RunCounts(c, qs, key, skew);
  }

  lemma {:induction false} IntervalWithinBuckets(c: Config, log: seq<Outcome>, identity: string, start: real)
    ensures var b := Bucket(start, c.span);
            AdmittedIn(c, log, identity, start)
            <= RuledAdmitted(c, log, Key(c.fingerprint(identity), b))
                + RuledAdmitted(c, log, Key(c.fingerprint(identity), b + 1))
  {
    if log != [] {
      IntervalWithinBuckets(c, log[..|log| - 1], identity, start);
      var q := log[|log| - 1].request;
      if start <= q.moment < start + c.span {
        IntervalTouchesTwoBuckets(start, q.moment, c.span);
      }
    }
  }

  /**
  Any interval one window long admits at most two buckets' worth, and whatever met an outage
  of the shared store.
  */
  lemma {:induction false} IntervalAdmitsAtMostTwice(c: Config, qs: seq<Call>, identity: string, start: real,
                                                     skew: real)
    requires Synchronised(c, qs, skew)
    ensures EverAdmittedIn(c, After(c, Fresh, qs).log, identity, start)
         <= 2 * c.limit + UnruledIn(c, qs, identity, start)
  {
    var f, b, log := c.fingerprint(identity), Bucket(start, c.span), After(c, Fresh, qs).log;
    RunCounts(c, qs, Key(f, b), skew);
    RunCounts(c, qs, Key(f, b + 1), skew);
    IntervalWithinBuckets(c, log, identity, start);
    OutagesAdmitAll(c, qs, identity, start);
  }

  /** The advertised wait is the whole number of seconds just past the end of the bucket. */
  lemma {:induction false} RetryLandsInALaterBucket(moment: real, span: Span, later: real)
    requires later >= moment + RetryAfter(moment, span) as real
    ensures Bucket(later, span) > Bucket(moment, span)
    ensures var remaining := span * (Bucket(moment, span) + 1) as real - moment;
            remaining < RetryAfter(moment, span) as real <= remaining + 1.0
  {
    BucketBounds(moment, span);
    var b, end := Bucket(moment, span), span * (Bucket(moment, span) + 1) as real;
    NextBucket(b, span);
    assert end - moment == span - (moment - span * b as real);
    assert later > end;
    if Bucket(later, span) <= b {
      BucketEndsBefore(later, b, span);
    }
  }
}
