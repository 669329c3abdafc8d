/**
The in-process limiter of core/rate_limit.py: one sliding window of admission times per
identity. The specification is about the list of every admission ever made, which the
limiter itself does not keep.
*/
module RateLimit {

  /** `security.rate_limit_per_minute`, at least one by the settings schema. */
  type Limit = n: int | 1 <= n witness 1

  datatype Decision = Decision(allowed: bool, retryAfter: int)

  type Windows = map<string, seq<real>>

  /** Python's `int()` on a float: truncation toward zero. */
  function Truncated(x: real): int {
    if x >= 0.0 then x.Floor else -((-x).Floor)
  }

  function Max(a: int, b: int): int {
    if a >= b then a else b
  }

  function Times(windows: Windows, identity: string): seq<real> {
    if identity in windows then windows[identity] else []
  }

  /** What the `popleft` loop leaves. */
  function Live(window: seq<real>, now: real, span: real): seq<real> {
    if window != [] && now - window[0] >= span then Live(window[1..], now, span) else window
  }

  /** What one request does to the stored windows. */
  function Counted(windows: Windows, limit: Limit, span: real, identity: string, now: real): Windows {
    var live := Live(Times(windows, identity), now, span);
    windows[identity := if |live| >= limit then live else live + [now]]
  }

  predicate Admits(windows: Windows, limit: Limit, span: real, identity: string, now: real) {
    |Live(Times(windows, identity), now, span)| < limit
  }

  class InProcessRateLimiter {
    const limit: Limit
    const span: real
    var seen: Windows

    constructor (limit: Limit, span: real)
      ensures this.limit == limit && this.span == span && seen == map[]
    {
      this.limit, this.span, seen := limit, span, map[];
    }

    method Allow(identity: string, now: real) returns (decision: Decision)
      modifies this
      ensures seen == Counted(old(seen), limit, span, identity, now)
      ensures decision.allowed <==> Admits(old(seen), limit, span, identity, now)
      ensures decision.allowed ==> decision.retryAfter == 0
      ensures !decision.allowed ==>
                decision.retryAfter == Max(1, Truncated(span - (now - seen[identity][0])) + 1)
      ensures forall other :: other != identity ==> Times(seen, other) == Times(old(seen), other)
    {
      var window := if identity in seen then seen[identity] else [];
      while window != [] && now - window[0] >= span
        invariant Live(window, now, span) == Live(Times(old(seen), identity), now, span)
        invariant seen == old(seen)
        decreases |window|
      {
        window := window[1..];
      }
      if |window| >= limit {
        var retryAfter := span - (now - window[0]);
        seen := seen[identity := window];
        return Decision(false, Max(1, Truncated(retryAfter) + 1));
      }
      seen := seen[identity := window + [now]];
      return Decision(true, 0);
    }
  }

  // ---- Whole runs ----

  datatype Request = Request(identity: string, at: real)

  /** `admitted` is the ghost of `windows`: every admission time, never evicted. */
  datatype Run = Run(windows: Windows, admitted: Windows, now: real)

  function Step(limit: Limit, span: real, r: Run, q: Request): Run {
    Run(Counted(r.windows, limit, span, q.identity, q.at),
        if Admits(r.windows, limit, span, q.identity, q.at)
        then r.admitted[q.identity := Times(r.admitted, q.identity) + [q.at]] else r.admitted,
        q.at)
  }

  /** A clock that never steps back. */
  predicate Ordered(now: real, qs: seq<Request>)
    decreases |qs|
  {
    qs == [] || (now <= qs[0].at && Ordered(qs[0].at, qs[1..]))
  }

  function After(limit: Limit, span: real, r: Run, qs: seq<Request>): Run
    decreases |qs|
  {
    if qs == [] then r else After(limit, span, Step(limit, span, r, qs[0]), qs[1..])
  }

  const Fresh := Run(map[], map[], 0.0)

  ghost predicate Sorted(times: seq<real>) {
    forall i, j :: 0 <= i <= j < |times| ==> times[i] <= times[j]
  }

  /** Any `limit` consecutive admissions and the one after them span at least a window. */
  ghost predicate Spaced(times: seq<real>, limit: Limit, span: real) {
    forall i :: 0 <= i < |times| - limit ==> times[i + limit] - times[i] >= span
  }

  ghost predicate Tracks(window: seq<real>, all: seq<real>, limit: Limit, span: real, now: real) {
    && |window| <= |all| && window == all[|all| - |window|..] && |window| <= limit
    && Sorted(all) && (forall i :: 0 <= i < |all| ==> all[i] <= now)
    && (forall i :: 0 <= i < |all| - |window| ==> now - all[i] >= span)
    && Spaced(all, limit, span)
  }

  ghost predicate Reachable(limit: Limit, span: real, r: Run) {
    forall identity :: Tracks(Times(r.windows, identity), Times(r.admitted, identity), limit, span, r.now)
  }

  lemma {:induction false} LiveIsSuffix(window: seq<real>, now: real, span: real) returns (gone: nat)
    ensures gone <= |window| && Live(window, now, span) == window[gone..]
    ensures forall i :: 0 <= i < gone ==> now - window[i] >= span
    ensures gone < |window| ==> now - window[gone] < span
  {
    if window != [] && now - window[0] >= span {
      var rest := LiveIsSuffix(window[1..], now, span);
      gone := rest + 1;
      assert forall i :: 0 < i < gone ==> window[i] == window[1..][i - 1];
    } else {
      gone := 0;
    }
  }

  lemma {:induction false} LiveTracks(window: seq<real>, all: seq<real>, limit: Limit, span: real, now: real, at: real)
    requires Tracks(window, all, limit, span, now) && at >= now
    ensures Tracks(Live(window, at, span), all, limit, span, at)
    ensures forall i :: |all| - |Live(window, at, span)| <= i < |all| ==> at - all[i] < span
  {
    var gone := LiveIsSuffix(window, at, span);
    var cut := |all| - |window| + gone;
    assert window[gone..] == all[cut..];
    forall i | 0 <= i < cut ensures at - all[i] >= span {
      if i >= |all| - |window| {
        assert all[i] == window[i - (|all| - |window|)];
      }
    }
    if gone < |window| {
      assert all[cut] == window[gone];
    }
  }

  /** The decision in terms of admissions alone: refused exactly when the last `limit` all lie within the window. */
  lemma {:induction false} RefusedExactlyWhenWindowFull(limit: Limit, span: real, window: seq<real>, all: seq<real>,
                                                        now: real, at: real)
    requires Tracks(window, all, limit, span, now) && at >= now
    ensures |Live(window, at, span)| >= limit <==> |all| >= limit && at - all[|all| - limit] < span
    ensures |Live(window, at, span)| >= limit ==> Live(window, at, span)[0] == all[|all| - limit]
  {
    LiveTracks(window, all, limit, span, now, at);
  }

  lemma {:induction false} AdmissionTracks(live: seq<real>, all: seq<real>, limit: Limit, span: real, at: real)
    requires Tracks(live, all, limit, span, at) && |live| < limit
    ensures Tracks(live + [at], all + [at], limit, span, at)
  {
  }

  lemma {:induction false} StepReachable(limit: Limit, span: real, r: Run, q: Request)
    requires Reachable(limit, span, r) && r.now <= q.at
    ensures Reachable(limit, span, Step(limit, span, r, q))
  {
    var s := Step(limit, span, r, q);
    forall identity ensures Tracks(Times(s.windows, identity), Times(s.admitted, identity), limit, span, s.now) {
      var window, all := Times(r.windows, identity), Times(r.admitted, identity);
      if identity == q.identity {
        LiveTracks(window, all, limit, span, r.now, q.at);
        if Admits(r.windows, limit, span, identity, q.at) {
          AdmissionTracks(Live(window, q.at, span), all, limit, span, q.at);
        }
      }
    }
  }

  lemma {:induction false} RunReachable(limit: Limit, span: real, r: Run, qs: seq<Request>)
    requires Reachable(limit, span, r) && Ordered(r.now, qs)
    ensures Reachable(limit, span, After(limit, span, r, qs)) && After(limit, span, r, qs).now >= r.now
    decreases |qs|
  {
    if qs != [] {
      StepReachable(limit, span, r, qs[0]);
      RunReachable(limit, span, Step(limit, span, r, qs[0]), qs[1..]);
    }
  }

  /** The sliding-window promise over every run and for every identity. */
  lemma {:induction false} SlidingWindowHolds(limit: Limit, span: real, qs: seq<Request>, identity: string)
    requires Ordered(0.0, qs)
    ensures Spaced(Times(After(limit, span, Fresh, qs).admitted, identity), limit, span)
  {
    RunReachable(limit, span, Fresh, qs);
  }

  /** Stated as a ceiling: fewer than `limit` steps separate two admissions that share a window. */
  lemma {:induction false} NoIntervalHoldsMoreThanLimit(limit: Limit, span: real, qs: seq<Request>, identity: string,
                                                        start: real, i: nat, j: nat)
    requires Ordered(0.0, qs)
    requires i <= j < |Times(After(limit, span, Fresh, qs).admitted, identity)|
    requires var all := Times(After(limit, span, Fresh, qs).admitted, identity);
             start <= all[i] && all[j] < start + span
    ensures j - i < limit
  {
    RunReachable(limit, span, Fresh, qs);
    var all := Times(After(limit, span, Fresh, qs).admitted, identity);
    assert Sorted(all) && Spaced(all, limit, span);
    assert i + limit < |all| ==> all[i + limit] - all[i] >= span;
  }

  /**
  How long a refused caller really has to wait, `x`, against what it is told: with no
  admission in between, a later request is admitted exactly from `x` seconds on, and the
  advertised whole number of seconds is the first one past `x`.
  */
  lemma {:induction false} RetryAfterIsHonest(limit: Limit, span: real, r: Run, identity: string, at: real,
                                              between: seq<Request>, later: real)
    requires Reachable(limit, span, r) && r.now <= at
    requires !Admits(r.windows, limit, span, identity, at)
    requires var s := Step(limit, span, r, Request(identity, at));
             && Ordered(at, between) && After(limit, span, s, between).now <= later
             && Times(After(limit, span, s, between).admitted, identity) == Times(r.admitted, identity)
    ensures var s := Step(limit, span, r, Request(identity, at));
            var x := span - (at - Times(s.windows, identity)[0]);
            && 0.0 < x < Max(1, Truncated(x) + 1) as real <= x + 1.0
            && (Admits(After(limit, span, s, between).windows, limit, span, identity, later) <==> later >= at + x)
  {
    var s := Step(limit, span, r, Request(identity, at));
    var t := After(limit, span, s, between);
    var all := Times(r.admitted, identity);
    StepReachable(limit, span, r, Request(identity, at));
    RunReachable(limit, span, s, between);
    RefusedExactlyWhenWindowFull(limit, span, Times(r.windows, identity), all, r.now, at);
    RefusedExactlyWhenWindowFull(limit, span, Times(t.windows, identity), all, t.now, later);
  }
}
