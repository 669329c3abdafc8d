/**
The runtime cost governor of services/budget.py: a per-query ceiling and a per-tenant
rolling window, and what that window guarantees over whole runs in which checks and
charges of several requests interleave. Time is a real number of seconds.
*/
module Budget {
  import opened Wrappers

  /** One charge: the deque element `(moment, tokens)`. */
  datatype Charge = Charge(at: real, tokens: nat)

  type Ledger = map<string, seq<Charge>>

  datatype Verdict = Admitted | OverQuery | OverTenant(already: nat)

  /** `tenant or ""`. */
  function Key(tenant: Option<string>): string {
    if tenant.Some? then tenant.value else ""
  }

  function Entries(ledger: Ledger, key: string): seq<Charge> {
    if key in ledger then ledger[key] else []
  }

  /** What the `popleft` loop leaves. */
  function Evict(window: seq<Charge>, now: real, span: real): seq<Charge> {
    if window != [] && now - window[0].at >= span then Evict(window[1..], now, span) else window
  }

  function Total(window: seq<Charge>): nat {
    if window == [] then 0 else Total(window[..|window| - 1]) + window[|window| - 1].tokens
  }

  /** The tokens of the charges made in `[start, start + span)`. */
  function SpentIn(window: seq<Charge>, start: real, span: real): nat {
    if window == [] then 0
    else
      var last := window[|window| - 1];
      SpentIn(window[..|window| - 1], start, span) + if start <= last.at < start + span then last.tokens else 0
  }

  ghost predicate Sorted(window: seq<Charge>) {
    forall i, j :: 0 <= i <= j < |window| ==> window[i].at <= window[j].at
  }

  function Younger(window: seq<Charge>, now: real, span: real): seq<Charge> {
    if window == [] then []
    else (if now - window[0].at < span then [window[0]] else []) + Younger(window[1..], now, span)
  }

  /** Under a clock that never steps back, stopping at the first young entry loses nothing. */
  lemma {:induction false} EvictionKeepsExactlyTheYoung(window: seq<Charge>, now: real, span: real)
    requires Sorted(window)
    ensures Evict(window, now, span) == Younger(window, now, span)
  {
    if window == [] {
    } else if now - window[0].at >= span {
      EvictionKeepsExactlyTheYoung(window[1..], now, span);
    } else {
      AllYoungIsKept(window, now, span);
    }
  }

  lemma {:induction false} AllYoungIsKept(window: seq<Charge>, now: real, span: real)
    requires forall i :: 0 <= i < |window| ==> now - window[i].at < span
    ensures Younger(window, now, span) == window
  {
    if window != [] {
      AllYoungIsKept(window[1..], now, span);
    }
  }

  lemma {:induction false} EvictIsSuffix(window: seq<Charge>, now: real, span: real) returns (gone: nat)
    ensures gone <= |window| && Evict(window, now, span) == window[gone..]
    ensures forall i :: 0 <= i < gone ==> now - window[i].at >= span
  {
    if window != [] && now - window[0].at >= span {
      var rest := EvictIsSuffix(window[1..], now, span);
      gone := rest + 1;
      assert forall i :: 0 < i < gone ==> window[i] == window[1..][i - 1];
    } else {
      gone := 0;
    }
  }

  class CostGovernor {
    const perQuery: int
    const perTenant: int
    const span: real
    var spent: Ledger

    constructor (perQuery: int, perTenant: int, span: real)
      ensures this.perQuery == perQuery && this.perTenant == perTenant && this.span == span
      ensures spent == map[]
    {
      this.perQuery, this.perTenant, this.span := perQuery, perTenant, span;
      spent := map[];
    }

    /** `_bucket` and `_spent_since`: evict in place, then sum what is left. */
    method SpentSince(key: string, moment: real) returns (total: nat)
      modifies this
      ensures spent == old(spent)[key := Evict(Entries(old(spent), key), moment, span)]
      ensures total == Total(spent[key])
    {
      var window := if key in spent then spent[key] else [];
      while window != [] && moment - window[0].at >= span
        invariant Evict(window, moment, span) == Evict(Entries(old(spent), key), moment, span)
        invariant spent == old(spent)
        decreases |window|
      {
        window := window[1..];
      }
      spent := spent[key := window];
      total := 0;
      for i := 0 to |window|
        invariant total == Total(window[..i])
      {
        assert window[..i + 1][..i] == window[..i];
        total := total + window[i].tokens;
      }
      assert window[..|window|] == window;
    }

    method Check(tokens: nat, tenant: Option<string>, now: real) returns (verdict: Verdict)
      modifies this
      ensures verdict == Judge(perQuery, perTenant, span, old(spent), Key(tenant), tokens, now)
      ensures spent == AfterCheck(perQuery, perTenant, span, old(spent), Key(tenant), tokens, now)
    {
      if perQuery > 0 && tokens > perQuery {
        return OverQuery;
      }
      if perTenant <= 0 {
        return Admitted;
      }
      var already := SpentSince(Key(tenant), now);
      verdict := if already + tokens > perTenant then OverTenant(already) else Admitted;
    }

    method Record(tokens: nat, tenant: Option<string>, now: real)
      modifies this
      ensures spent == AfterRecord(perTenant, span, old(spent), Key(tenant), tokens, now)
    {
      if perTenant <= 0 || tokens <= 0 {
        return;
      }
      var _ := SpentSince(Key(tenant), now);
      spent := spent[Key(tenant) := spent[Key(tenant)] + [Charge(now, tokens)]];
    }
  }

  function Judge(perQuery: int, perTenant: int, span: real, ledger: Ledger, key: string, tokens: nat, now: real)
    : Verdict
  {
    if perQuery > 0 && tokens > perQuery then OverQuery
    else if perTenant <= 0 then Admitted
    else
      var already := Total(Evict(Entries(ledger, key), now, span));
      if already + tokens > perTenant then OverTenant(already) else Admitted
  }

  function AfterCheck(perQuery: int, perTenant: int, span: real, ledger: Ledger, key: string, tokens: nat, now: real)
    : Ledger
  {
    if (perQuery > 0 && tokens > perQuery) || perTenant <= 0 then ledger
    else ledger[key := Evict(Entries(ledger, key), now, span)]
  }

  function AfterRecord(perTenant: int, span: real, ledger: Ledger, key: string, tokens: nat, now: real): Ledger {
    if perTenant <= 0 || tokens == 0 then ledger
    else ledger[key := Evict(Entries(ledger, key), now, span) + [Charge(now, tokens)]]
  }

  // ---- Whole runs: requests check, run for a while, and are charged or fail ----

  /** A request that passed its check and has neither been charged nor failed. */
  datatype InFlight = InFlight(key: string, worst: nat)

  datatype Event =
    | Arrive(at: real, key: string, worst: nat)
    | Charged(at: real, slot: nat, actual: nat)
    | Failed(at: real, slot: nat)

  /** `history` is the ghost of `ledger`: every charge ever made, never evicted. */
  datatype Run = Run(ledger: Ledger, history: Ledger, flying: seq<InFlight>, now: real)

  datatype Caps = Caps(perQuery: int, perTenant: int, span: real)

  function Without<T>(s: seq<T>, i: nat): seq<T>
    requires i < |s|
  {
    s[..i] + s[i + 1..]
  }

  /** Events of one clock. What a request is charged is what the provider counted, whatever it was admitted for. */
  ghost predicate Legal(r: Run, e: Event) {
    && e.at >= r.now
    && (!e.Arrive? ==> e.slot < |r.flying|)
  }

  function Step(caps: Caps, r: Run, e: Event): Run
    requires Legal(r, e)
  {
    match e
    case Arrive(at, key, worst) =>
      var admitted := Judge(caps.perQuery, caps.perTenant, caps.span, r.ledger, key, worst, at).Admitted?;
      r.(ledger := AfterCheck(caps.perQuery, caps.perTenant, caps.span, r.ledger, key, worst, at), now := at,
         flying := if admitted then r.flying + [InFlight(key, worst)] else r.flying)
    case Charged(at, slot, actual) =>
      var key := r.flying[slot].key;
      r.(ledger := AfterRecord(caps.perTenant, caps.span, r.ledger, key, actual, at), now := at,
         history := if actual == 0 then r.history else r.history[key := Entries(r.history, key) + [Charge(at, actual)]],
         flying := Without(r.flying, slot))
    case Failed(at, slot) =>
      r.(flying := Without(r.flying, slot), now := at)
  }

  function Flying(fs: seq<InFlight>, key: string): nat {
    if fs == [] then 0
    else Flying(fs[..|fs| - 1], key) + if fs[|fs| - 1].key == key then 1 else 0
  }

  /** What bounds a charge: `most` whatever was admitted, and `over` beyond the worst case that was. */
  datatype Limits = Limits(most: nat, over: nat) {
    /** The most that one request may be charged. */
    function Of(f: InFlight): nat {
      if f.worst + over < most then f.worst + over else most
    }

    /** How far a charge may go beyond what its check made room for. */
    function Overshoot(): nat {
      if over < most then over else most
    }
  }

  /** What the requests in flight may yet be charged. */
  function Exposure(fs: seq<InFlight>, key: string, l: Limits): nat {
    if fs == [] then 0
    else Exposure(fs[..|fs| - 1], key, l) + if fs[|fs| - 1].key == key then l.Of(fs[|fs| - 1]) else 0
  }

  /**
  A run of legal events in which `key` never has more than `k` requests in flight, each
  charged within the limits.
  */
  ghost predicate Bounded(caps: Caps, r: Run, es: seq<Event>, key: string, k: nat, l: Limits)
    decreases |es|
  {
    es == [] ||
    (&& Legal(r, es[0])
     && (es[0].Charged? && r.flying[es[0].slot].key == key ==> es[0].actual <= l.Of(r.flying[es[0].slot]))
     && Flying(Step(caps, r, es[0]).flying, key) <= k
     && Bounded(caps, Step(caps, r, es[0]), es[1..], key, k, l))
  }

  function After(caps: Caps, r: Run, es: seq<Event>, key: string, k: nat, l: Limits): Run
    requires Bounded(caps, r, es, key, k, l)
    decreases |es|
  {
    if es == [] then r else After(caps, Step(caps, r, es[0]), es[1..], key, k, l)
  }

  const Fresh := Run(map[], map[], [], 0.0)

  /** The window is the unevicted tail of the history, and everything evicted is old. */
  ghost predicate Tracks(window: seq<Charge>, all: seq<Charge>, now: real, span: real) {
    && |window| <= |all|
    && window == all[|all| - |window|..]
    && Sorted(all)
    && (forall i :: 0 <= i < |all| ==> all[i].at <= now)
    && (forall i :: 0 <= i < |all| - |window| ==> now - all[i].at >= span)
  }

  ghost predicate TracksKey(caps: Caps, r: Run, key: string) {
    Tracks(Entries(r.ledger, key), Entries(r.history, key), r.now, caps.span)
  }

  /** Spend plus what is still in flight stays under `bound` until the interval is over; spend alone for ever. */
  ghost predicate WithinBound(all: seq<Charge>, exposure: nat, now: real, start: real, span: real, bound: int) {
    && SpentIn(all, start, span) <= bound
    && (now < start + span ==> SpentIn(all, start, span) + exposure <= bound)
  }

  ghost predicate WithinBoundKey(caps: Caps, r: Run, key: string, l: Limits, start: real, bound: int) {
    WithinBound(Entries(r.history, key), Exposure(r.flying, key, l), r.now, start, caps.span, bound)
  }

  lemma {:induction false} OldPrefixSpendsNothing(stale: seq<Charge>, young: seq<Charge>, start: real, span: real)
    requires forall i :: 0 <= i < |stale| ==> stale[i].at < start
    ensures SpentIn(stale + young, start, span) <= Total(young)
    decreases |stale| + |young|
  {
    var all := stale + young;
    if young != [] {
      assert all[..|all| - 1] == stale + young[..|young| - 1];
      OldPrefixSpendsNothing(stale, young[..|young| - 1], start, span);
    } else if stale != [] {
      assert all[..|all| - 1] == stale[..|stale| - 1] + [];
      OldPrefixSpendsNothing(stale[..|stale| - 1], [], start, span);
    }
  }

  /** The entries an eviction at `at` drops from the history's tail are old, so the rest is still a tail. */
  lemma {:induction false} EvictTracks(window: seq<Charge>, all: seq<Charge>, now: real, at: real, span: real)
    requires Tracks(window, all, now, span) && at >= now
    ensures Tracks(Evict(window, at, span), all, at, span)
  {
    var gone := EvictIsSuffix(window, at, span);
    var cut := |all| - |window| + gone;
    assert window[gone..] == all[cut..];
    forall i | 0 <= i < cut ensures at - all[i].at >= span {
      if i >= |all| - |window| {
        assert all[i] == window[i - (|all| - |window|)];
      }
    }
  }

  lemma {:induction false} AppendTracks(window: seq<Charge>, all: seq<Charge>, now: real, span: real, tokens: nat)
    requires Tracks(window, all, now, span)
    ensures Tracks(window + [Charge(now, tokens)], all + [Charge(now, tokens)], now, span)
  {
  }

  /** What a check reads as already spent covers every charge of any interval it falls in. */
  lemma {:induction false} WindowCoversInterval(window: seq<Charge>, all: seq<Charge>, now: real, span: real,
                                                start: real)
    requires Tracks(window, all, now, span) && now < start + span
    ensures SpentIn(all, start, span) <= Total(window)
  {
    var cut := |all| - |window|;
    assert all == all[..cut] + window;
    OldPrefixSpendsNothing(all[..cut], window, start, span);
  }

  lemma {:induction false} LaterTracks(window: seq<Charge>, all: seq<Charge>, now: real, at: real, span: real)
    requires Tracks(window, all, now, span) && at >= now
    ensures Tracks(window, all, at, span)
  {
  }

  lemma {:induction false} ChargeTracks(caps: Caps, r: Run, e: Event)
    requires caps.perTenant > 0 && Legal(r, e) && e.Charged? && e.actual > 0
    requires TracksKey(caps, r, r.flying[e.slot].key)
    ensures TracksKey(caps, Step(caps, r, e), r.flying[e.slot].key)
  {
    var key := r.flying[e.slot].key;
    var window, all := Entries(r.ledger, key), Entries(r.history, key);
    EvictTracks(window, all, r.now, e.at, caps.span);
    AppendTracks(Evict(window, e.at, caps.span), all, e.at, caps.span, e.actual);
  }

  lemma {:induction false} StepTracks(caps: Caps, r: Run, e: Event, key: string)
    requires caps.perTenant > 0 && Legal(r, e) && TracksKey(caps, r, key)
    ensures TracksKey(caps, Step(caps, r, e), key)
  {
    var window, all := Entries(r.ledger, key), Entries(r.history, key);
    if e.Charged? && r.flying[e.slot].key == key && e.actual > 0 {
      ChargeTracks(caps, r, e);
    } else {
      StepEvictsAtMost(caps, r, e, key);
      LaterTracks(window, all, r.now, e.at, caps.span);
      EvictTracks(window, all, r.now, e.at, caps.span);
    }
  }

  /** Without a charge to `key`, a step leaves its history alone and at most evicts from its window. */
  lemma {:induction false} StepEvictsAtMost(caps: Caps, r: Run, e: Event, key: string)
    requires Legal(r, e) && !(e.Charged? && r.flying[e.slot].key == key && e.actual > 0)
    ensures var s, window := Step(caps, r, e), Entries(r.ledger, key);
            && s.now == e.at && Entries(s.history, key) == Entries(r.history, key)
            && (Entries(s.ledger, key) == window || Entries(s.ledger, key) == Evict(window, e.at, caps.span))
  {
  }

  lemma {:induction false} ExposureWithout(fs: seq<InFlight>, i: nat, key: string, l: Limits)
    requires i < |fs|
    ensures Exposure(fs, key, l) == Exposure(Without(fs, i), key, l) + if fs[i].key == key then l.Of(fs[i]) else 0
  {
    var n := |fs| - 1;
    var before, last := fs[..n], fs[n];
    assert fs == before + [last];
    AdmittedSums(before, last, key, l);
    if i == n {
      assert Without(fs, i) == before;
    } else {
      ExposureWithout(before, i, key, l);
      assert Without(fs, i) == Without(before, i) + [last];
      AdmittedSums(Without(before, i), last, key, l);
    }
  }

  lemma {:induction false} OneMore(n: nat, most: nat)
    ensures (n + 1) * most == n * most + most
  {
  }

  lemma {:induction false} ExposureBound(fs: seq<InFlight>, key: string, l: Limits)
    ensures Exposure(fs, key, l) <= Flying(fs, key) * l.most
  {
    if fs != [] {
      var before := fs[..|fs| - 1];
      ExposureBound(before, key, l);
      OneMore(Flying(before, key), l.most);
    }
  }

  lemma {:induction false} AdmittedSums(fs: seq<InFlight>, f: InFlight, key: string, l: Limits)
    ensures Exposure(fs + [f], key, l) == Exposure(fs, key, l) + if f.key == key then l.Of(f) else 0
    ensures Flying(fs + [f], key) == Flying(fs, key) + if f.key == key then 1 else 0
  {
    assert (fs + [f])[..|fs|] == fs;
  }

  lemma {:induction false} ProductBound(n: nat, k: nat, most: nat)
    requires n + 1 <= k
    ensures n * most <= (k - 1) * most
  {
  }

  lemma {:induction false} ArriveEffects(caps: Caps, r: Run, e: Event)
    requires Legal(r, e) && e.Arrive?
    ensures var s := Step(caps, r, e);
            && s.history == r.history && s.now == e.at
            && (s.flying != r.flying ==>
                  && s.flying == r.flying + [InFlight(e.key, e.worst)]
                  && (caps.perTenant > 0 ==>
                      Total(Evict(Entries(r.ledger, e.key), e.at, caps.span)) + e.worst <= caps.perTenant))
  {
  }

  /**
  An admitted request fits, but for its overshoot: what the window still holds covers every
  charge of the interval.
  */
  lemma {:induction false} AdmittedStaysWithin(all: seq<Charge>, window: seq<Charge>, flying: seq<InFlight>,
                                               f: InFlight, l: Limits, now: real, at: real, start: real, span: real,
                                               perTenant: int, bound: int)
    requires WithinBound(all, Exposure(flying, f.key, l), now, start, span, bound)
    requires Tracks(window, all, now, span) && now <= at
    requires Total(Evict(window, at, span)) + f.worst <= perTenant
    requires perTenant + Exposure(flying, f.key, l) + l.Overshoot() <= bound
    ensures WithinBound(all, Exposure(flying + [f], f.key, l), at, start, span, bound)
  {
    AdmittedSums(flying, f, f.key, l);
    if at < start + span {
      EvictTracks(window, all, now, at, span);
      WindowCoversInterval(Evict(window, at, span), all, at, span, start);
    }
  }

  lemma {:induction false} ArriveKeepsBound(caps: Caps, r: Run, e: Event, key: string, l: Limits, start: real,
                                            bound: int)
    requires caps.perTenant > 0 && Legal(r, e) && e.Arrive? && e.key == key
    requires TracksKey(caps, r, key) && WithinBoundKey(caps, r, key, l, start, bound)
    requires Step(caps, r, e).flying != r.flying ==>
        caps.perTenant + Exposure(r.flying, key, l) + l.Overshoot() <= bound
    ensures WithinBoundKey(caps, Step(caps, r, e), key, l, start, bound)
  {
    ArriveEffects(caps, r, e);
    if Step(caps, r, e).flying != r.flying {
      AdmittedStaysWithin(Entries(r.history, key), Entries(r.ledger, key), r.flying, InFlight(key, e.worst), l,
                          r.now, e.at, start, caps.span, caps.perTenant, bound);
    }
  }

  /** A newcomer among at most `k` leaves at most `k - 1` others. */
  lemma {:induction false} OthersAreWorthAtMost(caps: Caps, r: Run, e: Event, k: nat, l: Limits)
    requires Legal(r, e) && e.Arrive?
    requires Flying(Step(caps, r, e).flying, e.key) <= k && Step(caps, r, e).flying != r.flying
    ensures Exposure(r.flying, e.key, l) <= (k - 1) * l.most
  {
    ArriveEffects(caps, r, e);
    AdmittedSums(r.flying, InFlight(e.key, e.worst), e.key, l);
    ExposureBound(r.flying, e.key, l);
    ProductBound(Flying(r.flying, e.key), k, l.most);
  }

  /** Charging moves no more than was exposed to spend; failing only releases it. */
  lemma {:induction false} LandingKeepsBound(caps: Caps, r: Run, e: Event, key: string, l: Limits, start: real,
                                             bound: int)
    requires Legal(r, e) && !e.Arrive? && WithinBoundKey(caps, r, key, l, start, bound)
    requires e.Charged? && r.flying[e.slot].key == key ==> e.actual <= l.Of(r.flying[e.slot])
    ensures WithinBoundKey(caps, Step(caps, r, e), key, l, start, bound)
  {
    var tokens := if e.Charged? && r.flying[e.slot].key == key then e.actual else 0;
    LandingEffects(caps, r, e, key);
    ExposureWithout(r.flying, e.slot, key, l);
    ChargedSum(Entries(r.history, key), Charge(e.at, tokens), start, caps.span);
  }

  lemma {:induction false} LandingEffects(caps: Caps, r: Run, e: Event, key: string)
    requires Legal(r, e) && !e.Arrive?
    ensures var s, all := Step(caps, r, e), Entries(r.history, key);
            && s.now == e.at && s.flying == Without(r.flying, e.slot)
            && Entries(s.history, key) == if e.Charged? && r.flying[e.slot].key == key && e.actual > 0
                                          then all + [Charge(e.at, e.actual)] else all
  {
  }

  lemma {:induction false} ChargedSum(all: seq<Charge>, c: Charge, start: real, span: real)
    ensures SpentIn(all + [c], start, span) == SpentIn(all, start, span) + if start <= c.at < start + span
              then c.tokens else 0
  {
    assert (all + [c])[..|all|] == all;
  }

  lemma {:induction false} StepKeepsBound(caps: Caps, r: Run, e: Event, key: string, l: Limits, start: real, bound: int)
    requires caps.perTenant > 0 && Legal(r, e)
    requires e.Charged? && r.flying[e.slot].key == key ==> e.actual <= l.Of(r.flying[e.slot])
    requires TracksKey(caps, r, key) && WithinBoundKey(caps, r, key, l, start, bound)
    requires e.Arrive? && e.key == key && Step(caps, r, e).flying != r.flying ==>
        caps.perTenant + Exposure(r.flying, key, l) + l.Overshoot() <= bound
    ensures WithinBoundKey(caps, Step(caps, r, e), key, l, start, bound)
  {
    if !e.Arrive? {
      LandingKeepsBound(caps, r, e, key, l, start, bound);
    } else if e.key == key {
      ArriveKeepsBound(caps, r, e, key, l, start, bound);
    } else {
      ArriveEffects(caps, r, e);
      AdmittedSums(r.flying, InFlight(e.key, e.worst), key, l);
    }
  }

  /** The budget, `k - 1` charges for the others in flight, and one overshoot. */
  function SpendBound(caps: Caps, k: nat, l: Limits): int {
    caps.perTenant + (k - 1) * l.most + l.Overshoot()
  }

  lemma {:induction false} RunKeepsBound(caps: Caps, r: Run, es: seq<Event>, key: string, k: nat, l: Limits,
                                         start: real)
    requires caps.perTenant > 0 && TracksKey(caps, r, key)
    requires WithinBoundKey(caps, r, key, l, start, SpendBound(caps, k, l))
    requires Bounded(caps, r, es, key, k, l)
    ensures WithinBoundKey(caps, After(caps, r, es, key, k, l), key, l, start, SpendBound(caps, k, l))
    decreases |es|
  {
    if es != [] {
      var e := es[0];
      StepTracks(caps, r, e, key);
      if e.Arrive? && e.key == key && Step(caps, r, e).flying != r.flying {
        OthersAreWorthAtMost(caps, r, e, k, l);
      }
      StepKeepsBound(caps, r, e, key, l, start, SpendBound(caps, k, l));
      RunKeepsBound(caps, Step(caps, r, e), es[1..], key, k, l, start);
    }
  }

  /**
  The rolling cap over every interleaving: with at most `k` requests in flight, no charge above
  `most` and none above its worst case by more than `over`, any window holds at most the
  budget, `k - 1` charges and one overshoot.
  */
  lemma {:induction false} RollingSpendBound(caps: Caps, es: seq<Event>, key: string, k: nat, l: Limits, start: real)
    requires caps.perTenant > 0 && k >= 1 && Bounded(caps, Fresh, es, key, k, l)
    ensures SpentIn(Entries(After(caps, Fresh, es, key, k, l).history, key), start, caps.span) <= SpendBound(caps, k, l)
  {
    ProductBound(0, k, l.most);
    RunKeepsBound(caps, Fresh, es, key, k, l, start);
  }

  /** One request at a time, and none charged more than its worst case: the cap is exact. */
  lemma {:induction false} SerialSpendIsCapped(caps: Caps, es: seq<Event>, key: string, most: nat, start: real)
    requires caps.perTenant > 0 && Bounded(caps, Fresh, es, key, 1, Limits(most, 0))
    ensures SpentIn(Entries(After(caps, Fresh, es, key, 1, Limits(most, 0)).history, key), start, caps.span)
         <= caps.perTenant
  {
    RollingSpendBound(caps, es, key, 1, Limits(most, 0), start);
  }

  // ---- Who is admitted ----

  /** A run in which nothing is asked of the charges. */
  ghost predicate AllLegal(caps: Caps, r: Run, es: seq<Event>)
    decreases |es|
  {
    es == [] || (Legal(r, es[0]) && AllLegal(caps, Step(caps, r, es[0]), es[1..]))
  }

  function AfterAll(caps: Caps, r: Run, es: seq<Event>): Run
    requires AllLegal(caps, r, es)
    decreases |es|
  {
    if es == [] then r else AfterAll(caps, Step(caps, r, es[0]), es[1..])
  }

  lemma {:induction false} RunTracks(caps: Caps, r: Run, es: seq<Event>, key: string)
    requires caps.perTenant > 0 && AllLegal(caps, r, es) && TracksKey(caps, r, key)
    ensures TracksKey(caps, AfterAll(caps, r, es), key)
    decreases |es|
  {
    if es != [] {
      StepTracks(caps, r, es[0], key);
      RunTracks(caps, Step(caps, r, es[0]), es[1..], key);
    }
  }

  /** The tokens of the charges that are less than a window old. */
  function RecentSpend(all: seq<Charge>, now: real, span: real): nat {
    if all == [] then 0
    else
      var last := all[|all| - 1];
      RecentSpend(all[..|all| - 1], now, span) + if now - last.at < span then last.tokens else 0
  }

  lemma {:induction false} StaleSpendsNothing(stale: seq<Charge>, young: seq<Charge>, now: real, span: real)
    requires forall i :: 0 <= i < |stale| ==> now - stale[i].at >= span
    requires forall i :: 0 <= i < |young| ==> now - young[i].at < span
    ensures RecentSpend(stale + young, now, span) == Total(young)
    decreases |stale| + |young|
  {
    var all := stale + young;
    if young != [] {
      assert all[..|all| - 1] == stale + young[..|young| - 1];
      StaleSpendsNothing(stale, young[..|young| - 1], now, span);
    } else if stale != [] {
      assert all[..|all| - 1] == stale[..|stale| - 1] + [];
      StaleSpendsNothing(stale[..|stale| - 1], [], now, span);
    }
  }

  lemma {:induction false} TailIsSorted(all: seq<Charge>, cut: nat)
    requires Sorted(all) && cut <= |all|
    ensures Sorted(all[cut..])
  {
  }

  lemma {:induction false} AllAsYoungAsTheFirst(live: seq<Charge>, at: real, span: real)
    requires Sorted(live) && (live != [] ==> at - live[0].at < span)
    ensures forall i :: 0 <= i < |live| ==> at - live[i].at < span
  {
  }

  lemma {:induction false} TrackedTailIsTheRecentSpend(live: seq<Charge>, all: seq<Charge>, at: real, span: real)
    requires Tracks(live, all, at, span) && (live != [] ==> at - live[0].at < span)
    ensures Total(live) == RecentSpend(all, at, span)
  {
    var cut := |all| - |live|;
    TailIsSorted(all, cut);
    AllAsYoungAsTheFirst(live, at, span);
    assert all == all[..cut] + live;
    StaleSpendsNothing(all[..cut], live, at, span);
  }

  /** What a check reads as already spent is exactly what was charged within the last window. */
  lemma {:induction false} WindowIsTheRecentSpend(window: seq<Charge>, all: seq<Charge>, now: real, at: real,
                                                  span: real)
    requires Tracks(window, all, now, span) && at >= now
    ensures Total(Evict(window, at, span)) == RecentSpend(all, at, span)
  {
    EvictTracks(window, all, now, at, span);
    EvictStopsAtYoung(window, at, span);
    TrackedTailIsTheRecentSpend(Evict(window, at, span), all, at, span);
  }

  lemma {:induction false} EvictStopsAtYoung(window: seq<Charge>, now: real, span: real)
    ensures Evict(window, now, span) != [] ==> now - Evict(window, now, span)[0].at < span
  {
    if window != [] && now - window[0].at >= span {
      EvictStopsAtYoung(window[1..], now, span);
    }
  }

  /**
  After any run a request is admitted exactly when it is within the ceiling for one query and, on
  top of all its tenant was charged in the last window, within the tenant's budget; a cap of zero or
  less asks nothing. The refusal names the ceiling first, and else what was already spent.
  */
  lemma {:induction false} AdmittedExactlyWithinBothCaps(caps: Caps, es: seq<Event>, key: string, tokens: nat, at: real)
    requires AllLegal(caps, Fresh, es) && AfterAll(caps, Fresh, es).now <= at
    ensures var r := AfterAll(caps, Fresh, es);
            var spent := RecentSpend(Entries(r.history, key), at, caps.span);
            Judge(caps.perQuery, caps.perTenant, caps.span, r.ledger, key, tokens, at)
            == if caps.perQuery > 0 && tokens > caps.perQuery then OverQuery
               else if caps.perTenant > 0 && spent + tokens > caps.perTenant then OverTenant(spent) else Admitted
  {
    var r := AfterAll(caps, Fresh, es);
    if caps.perTenant > 0 {
      RunTracks(caps, Fresh, es, key);
      WindowIsTheRecentSpend(Entries(r.ledger, key), Entries(r.history, key), r.now, at, caps.span);
    }
  }

  ghost predicate AllWithin(flying: seq<InFlight>, ceiling: int) {
    forall i :: 0 <= i < |flying| ==> flying[i].worst <= ceiling
  }

  /** No run has a request in flight whose worst case is over the ceiling for one query. */
  lemma {:induction false} InFlightIsWithinTheCeiling(caps: Caps, r: Run, es: seq<Event>)
    requires caps.perQuery > 0 && AllLegal(caps, r, es) && AllWithin(r.flying, caps.perQuery)
    ensures AllWithin(AfterAll(caps, r, es).flying, caps.perQuery)
    decreases |es|
  {
    if es != [] {
      assert AllWithin(Step(caps, r, es[0]).flying, caps.perQuery);
      InFlightIsWithinTheCeiling(caps, Step(caps, r, es[0]), es[1..]);
    }
  }

  /** With no tenant budget nothing is ever kept. */
  lemma {:induction false} NoBudgetKeepsNothing(caps: Caps, r: Run, es: seq<Event>)
    requires caps.perTenant <= 0 && AllLegal(caps, r, es)
    ensures AfterAll(caps, r, es).ledger == r.ledger
    decreases |es|
  {
    if es != [] {
      NoBudgetKeepsNothing(caps, Step(caps, r, es[0]), es[1..]);
    }
  }

  // ---- The bound is reached ----

  function Copies<T>(x: T, n: nat): (copies: seq<T>)
    ensures |copies| == n && forall i :: 0 <= i < n ==> copies[i] == x
  {
    if n == 0 then [] else Copies(x, n - 1) + [x]
  }

  /** `n` times `each`. */
  function Worth(each: nat, n: nat): nat {
    if n == 0 then 0 else Worth(each, n - 1) + each
  }

  lemma {:induction false} WorthIsTheProduct(each: nat, n: nat)
    ensures Worth(each, n) == n * each
  {
    if n > 0 {
      WorthIsTheProduct(each, n - 1);
      OneMore(n - 1, each);
    }
  }

  lemma {:induction false} WorthOfOnes(n: nat)
    ensures Worth(1, n) == n
  {
    if n > 0 {
      WorthOfOnes(n - 1);
    }
  }

  lemma {:induction false} CopiesTotal(c: Charge, n: nat)
    ensures Total(Copies(c, n)) == Worth(c.tokens, n)
  {
    if n > 0 {
      CopiesTotal(c, n - 1);
      assert Copies(c, n)[..n - 1] == Copies(c, n - 1);
    }
  }

  lemma {:induction false} CopiesSpend(cs: seq<Charge>, c: Charge, n: nat, start: real, span: real)
    requires start <= c.at < start + span
    ensures SpentIn(cs + Copies(c, n), start, span) == SpentIn(cs, start, span) + Worth(c.tokens, n)
  {
    if n == 0 {
      assert cs + [] == cs;
    } else {
      CopiesSpend(cs, c, n - 1, start, span);
      assert cs + Copies(c, n) == cs + Copies(c, n - 1) + [c];
      ChargedSum(cs + Copies(c, n - 1), c, start, span);
    }
  }

  lemma {:induction false} FlyingAtMost(fs: seq<InFlight>, key: string)
    ensures Flying(fs, key) <= |fs|
  {
    if fs != [] {
      FlyingAtMost(fs[..|fs| - 1], key);
    }
  }

  lemma {:induction false} Prepend(caps: Caps, r: Run, e: Event, es: seq<Event>, key: string, k: nat, l: Limits)
    requires Legal(r, e) && (e.Charged? && r.flying[e.slot].key == key ==> e.actual <= l.Of(r.flying[e.slot]))
    requires Flying(Step(caps, r, e).flying, key) <= k
    requires Bounded(caps, Step(caps, r, e), es, key, k, l)
    ensures Bounded(caps, r, [e] + es, key, k, l)
    ensures After(caps, r, [e] + es, key, k, l) == After(caps, Step(caps, r, e), es, key, k, l)
  {
    assert ([e] + es)[1..] == es;
  }

  const One := Charge(0.0, 1)

  /** At the start of the run: `spent` tokens are charged, and the tenant's requests in flight are `flying`. */
  ghost predicate Early(r: Run, key: string, spent: nat, flying: seq<InFlight>) {
    && r.now == 0.0 && r.flying == flying
    && Entries(r.ledger, key) == Copies(One, spent) && Entries(r.history, key) == Copies(One, spent)
  }

  /** A request that fits in what is left is admitted, however many are in flight. */
  lemma {:induction false} ArriveEarly(caps: Caps, r: Run, key: string, spent: nat, flying: seq<InFlight>, worst: nat)
    requires caps.span > 0.0 && caps.perTenant > 0 && (caps.perQuery > 0 ==> worst <= caps.perQuery)
    requires Early(r, key, spent, flying) && spent + worst <= caps.perTenant
    ensures var e := Arrive(0.0, key, worst);
            Legal(r, e) && Early(Step(caps, r, e), key, spent, flying + [InFlight(key, worst)])
  {
    CopiesTotal(One, spent);
    WorthOfOnes(spent);
  }

  lemma {:induction false} ChargeEarly(caps: Caps, r: Run, key: string, spent: nat)
    requires caps.span > 0.0 && caps.perTenant > 0 && Early(r, key, spent, [InFlight(key, 1)])
    ensures var e := Charged(0.0, 0, 1);
            Legal(r, e) && Early(Step(caps, r, e), key, spent + 1, [])
  {
  }

  /** A request that overshoots as far as the limits let it: admitted for this much, it is charged `l.most`. */
  function Greedy(key: string, l: Limits): InFlight {
    InFlight(key, l.most - l.Overshoot())
  }

  /** Such a request is admitted on an empty window. */
  predicate Admits(caps: Caps, l: Limits) {
    var worst := l.most - l.Overshoot();
    && caps.span > 0.0 && l.most > 0 && caps.perTenant > 0
    && worst <= caps.perTenant && (caps.perQuery > 0 ==> worst <= caps.perQuery)
  }

  /** What is left of the budget beside one such request. */
  function Rest(caps: Caps, l: Limits): nat
    requires Admits(caps, l)
  {
    caps.perTenant - (l.most - l.Overshoot())
  }

  lemma {:induction false} ChargeLast(caps: Caps, r: Run, key: string, l: Limits, n: nat, at: real)
    requires caps.perTenant > 0 && l.most > 0 && r.now <= at && n > 0 && r.flying == Copies(Greedy(key, l), n)
    ensures var e := Charged(at, n - 1, l.most);
            Legal(r, e) && var s := Step(caps, r, e);
            s.flying == Copies(Greedy(key, l), n - 1) && s.now == at
            && Entries(s.history, key) == Entries(r.history, key) + [Charge(at, l.most)]
  {
    assert Without(r.flying, n - 1) == Copies(Greedy(key, l), n - 1);
  }

  lemma {:induction false} AppendCopies(charges: seq<Charge>, c: Charge, n: nat)
    requires n > 0
    ensures charges + [c] + Copies(c, n - 1) == charges + Copies(c, n)
  {
  }

  /** The requests in flight are charged, one after the other. */
  lemma {:induction false} ChargeAll(caps: Caps, r: Run, key: string, l: Limits, n: nat, k: nat, at: real)
    returns (es: seq<Event>)
    requires caps.perTenant > 0 && l.most > 0 && r.now <= at && n <= k && r.flying == Copies(Greedy(key, l), n)
    ensures Bounded(caps, r, es, key, k, l)
    ensures Entries(After(caps, r, es, key, k, l).history, key)
         == Entries(r.history, key) + Copies(Charge(at, l.most), n)
    decreases n
  {
    if n == 0 {
      es := [];
      assert Entries(r.history, key) + [] == Entries(r.history, key);
    } else {
      ChargeLast(caps, r, key, l, n, at);
      var e := Charged(at, n - 1, l.most);
      var s := Step(caps, r, e);
      FlyingAtMost(s.flying, key);
      var later := ChargeAll(caps, s, key, l, n - 1, k, at);
      AppendCopies(Entries(r.history, key), Charge(at, l.most), n);
      Prepend(caps, r, e, later, key, k, l);
      es := [e] + later;
    }
  }

  /** The run is legal and bounded; it spends the rest of the budget first, and `k` greatest charges at `at`. */
  ghost predicate Lands(caps: Caps, r: Run, es: seq<Event>, key: string, k: nat, l: Limits, at: real)
    requires Admits(caps, l)
  {
    && Bounded(caps, r, es, key, k, l)
    && Entries(After(caps, r, es, key, k, l).history, key) == Copies(One, Rest(caps, l)) + Copies(Charge(at, l.most), k)
  }

  lemma {:induction false} LandsFromTheNext(caps: Caps, r: Run, e: Event, es: seq<Event>, key: string, k: nat,
                                            l: Limits, at: real)
    requires Admits(caps, l) && Legal(r, e) && |Step(caps, r, e).flying| <= k
    requires e.Charged? && r.flying[e.slot].key == key ==> e.actual <= l.Of(r.flying[e.slot])
    requires Lands(caps, Step(caps, r, e), es, key, k, l, at)
    ensures Lands(caps, r, [e] + es, key, k, l, at)
  {
    FlyingAtMost(Step(caps, r, e).flying, key);
    Prepend(caps, r, e, es, key, k, l);
  }

  /**
  Room is left for exactly one request, and `k` check before any is charged: all are admitted,
  and all are charged.
  */
  lemma {:induction false} CheckTogether(caps: Caps, r: Run, key: string, l: Limits, m: nat, n: nat, k: nat, at: real)
    returns (es: seq<Event>)
    requires Admits(caps, l) && at >= 0.0 && m + n == k
    requires Early(r, key, Rest(caps, l), Copies(Greedy(key, l), m))
    ensures Lands(caps, r, es, key, k, l, at)
    decreases n
  {
    if n == 0 {
      es := ChargeAll(caps, r, key, l, k, k, at);
    } else {
      var worst := Greedy(key, l).worst;
      ArriveEarly(caps, r, key, Rest(caps, l), Copies(Greedy(key, l), m), worst);
      var e := Arrive(0.0, key, worst);
      var later := CheckTogether(caps, Step(caps, r, e), key, l, m + 1, n - 1, k, at);
      LandsFromTheNext(caps, r, e, later, key, k, l, at);
      es := [e] + later;
    }
  }

  /** A request of one token comes and goes. */
  lemma {:induction false} SpendToken(caps: Caps, r: Run, key: string, spent: nat) returns (between: Run, s: Run)
    requires caps.span > 0.0 && spent + 1 <= caps.perTenant && Early(r, key, spent, [])
    ensures Legal(r, Arrive(0.0, key, 1)) && between == Step(caps, r, Arrive(0.0, key, 1))
    ensures between.flying == [InFlight(key, 1)] && Legal(between, Charged(0.0, 0, 1))
    ensures s == Step(caps, between, Charged(0.0, 0, 1)) && Early(s, key, spent + 1, [])
  {
    ArriveEarly(caps, r, key, spent, [], 1);
    between := Step(caps, r, Arrive(0.0, key, 1));
    assert between.flying == [InFlight(key, 1)];
    ChargeEarly(caps, between, key, spent);
    s := Step(caps, between, Charged(0.0, 0, 1));
  }

  /** What the budget has beside one such request is spent token by token; then `k` requests check together. */
  lemma {:induction false} Rush(caps: Caps, r: Run, key: string, l: Limits, spent: nat, k: nat, at: real)
    returns (es: seq<Event>)
    requires Admits(caps, l) && at >= 0.0 && k > 0 && spent <= Rest(caps, l) && Early(r, key, spent, [])
    ensures Lands(caps, r, es, key, k, l, at)
    decreases Rest(caps, l) - spent
  {
    if spent == Rest(caps, l) {
      es := CheckTogether(caps, r, key, l, 0, k, k, at);
    } else {
      var between, s := SpendToken(caps, r, key, spent);
      var later := Rush(caps, s, key, l, spent + 1, k, at);
      LandsFromTheNext(caps, between, Charged(0.0, 0, 1), later, key, k, l, at);
      es := [Charged(0.0, 0, 1)] + later;
      LandsFromTheNext(caps, r, Arrive(0.0, key, 1), es, key, k, l, at);
      es := [Arrive(0.0, key, 1)] + es;
    }
  }

  lemma {:induction false} BurstSpends(spent: nat, at: real, tokens: nat, k: nat, span: real)
    requires 0.0 <= at < span
    ensures SpentIn(Copies(One, spent) + Copies(Charge(at, tokens), k), 0.0, span) == spent + Worth(tokens, k)
  {
    CopiesSpend([], One, spent, 0.0, span);
    assert [] + Copies(One, spent) == Copies(One, spent);
    CopiesSpend(Copies(One, spent), Charge(at, tokens), k, 0.0, span);
    WorthOfOnes(spent);
  }

  lemma {:induction false} RushReachesTheBound(caps: Caps, key: string, l: Limits, k: nat) returns (es: seq<Event>)
    requires Admits(caps, l) && k > 0
    ensures Bounded(caps, Fresh, es, key, k, l)
    ensures SpentIn(Entries(After(caps, Fresh, es, key, k, l).history, key), 0.0, caps.span)
         == caps.perTenant + l.Overshoot() + Worth(l.most, k - 1)
  {
    es := Rush(caps, Fresh, key, l, 0, k, 0.0);
    BurstSpends(Rest(caps, l), 0.0, l.most, k, caps.span);
  }

  /**
  The bound is met exactly, for every budget, window, limits and number of requests: all of the
  budget but one worst case is spent, then `k` requests check before any is charged.
  */
  lemma {:induction false} RequestsReachTheBound(caps: Caps, key: string, l: Limits, k: nat) returns (es: seq<Event>)
    requires Admits(caps, l) && k > 0
    ensures Bounded(caps, Fresh, es, key, k, l)
    ensures SpentIn(Entries(After(caps, Fresh, es, key, k, l).history, key), 0.0, caps.span) == SpendBound(caps, k, l)
  {
    WorthIsTheProduct(l.most, k - 1);
    es := RushReachesTheBound(caps, key, l, k);
  }

  /** Even alone, a tenant whose requests are charged more than they were admitted for overspends, by as much. */
  lemma {:induction false} SerialRequestsOverspend(caps: Caps, key: string, l: Limits) returns (es: seq<Event>)
    requires Admits(caps, l) && l.over > 0
    ensures Bounded(caps, Fresh, es, key, 1, l)
    ensures SpentIn(Entries(After(caps, Fresh, es, key, 1, l).history, key), 0.0, caps.span)
         == caps.perTenant + l.Overshoot() > caps.perTenant
  {
    es := RequestsReachTheBound(caps, key, l, 1);
  }

  // ---- Tenants do not interfere ----

  /** Two callers share a window exactly when they are one tenant, no tenant counting as the one without a name. */
  lemma {:induction false} WindowsAreSharedExactly(s: Option<string>, t: Option<string>)
    ensures Key(s) == Key(t) <==> s == t || (s in {None, Some("")} && t in {None, Some("")})
  {
  }

  /** What a tenant does to its own window. */
  datatype Act = Checked(at: real, tokens: nat) | Paid(at: real, tokens: nat)

  function Acted(caps: Caps, window: seq<Charge>, act: Act): seq<Charge> {
    match act
    case Checked(at, tokens) =>
      if caps.perQuery > 0 && tokens > caps.perQuery then window else Evict(window, at, caps.span)
    case Paid(at, tokens) => if tokens == 0 then window else Evict(window, at, caps.span) + [Charge(at, tokens)]
  }

  function AfterActs(caps: Caps, window: seq<Charge>, acts: seq<Act>): seq<Charge>
    decreases |acts|
  {
    if acts == [] then window else AfterActs(caps, Acted(caps, window, acts[0]), acts[1..])
  }

  /** An event, as far as it concerns one tenant. */
  function OwnAct(r: Run, e: Event, key: string): seq<Act>
    requires Legal(r, e)
  {
    match e
    case Arrive(at, k, worst) => if k == key then [Checked(at, worst)] else []
    case Charged(at, slot, actual) => if r.flying[slot].key == key then [Paid(at, actual)] else []
    case Failed(_, _) => []
  }

  function OwnActs(caps: Caps, r: Run, es: seq<Event>, key: string, k: nat, l: Limits): seq<Act>
    requires Bounded(caps, r, es, key, k, l)
    decreases |es|
  {
    if es == [] then [] else OwnAct(r, es[0], key) + OwnActs(caps, Step(caps, r, es[0]), es[1..], key, k, l)
  }

  /** One event changes a tenant's window only as an act of its own. */
  lemma {:induction false} StepActs(caps: Caps, r: Run, e: Event, key: string)
    requires Legal(r, e) && caps.perTenant > 0
    ensures Entries(Step(caps, r, e).ledger, key) == AfterActs(caps, Entries(r.ledger, key), OwnAct(r, e, key))
  {
    var own := OwnAct(r, e, key);
    if own != [] {
      assert own[1..] == [];
    }
  }

  lemma {:induction false} ActsInTurn(caps: Caps, window: seq<Charge>, first: seq<Act>, second: seq<Act>)
    ensures AfterActs(caps, window, first + second) == AfterActs(caps, AfterActs(caps, window, first), second)
    decreases |first|
  {
    if first == [] {
      assert first + second == second;
    } else {
      assert (first + second)[1..] == first[1..] + second;
      ActsInTurn(caps, Acted(caps, window, first[0]), first[1..], second);
    }
  }

  /**
  Whatever other tenants do in between, a tenant's window is what its own checks and charges
  make of it; so two runs in which it does the same leave it the same verdicts.
  */
  lemma {:induction false} TenantsDoNotInterfere(caps: Caps, r: Run, es: seq<Event>, key: string, k: nat, l: Limits)
    requires caps.perTenant > 0 && Bounded(caps, r, es, key, k, l)
    ensures Entries(After(caps, r, es, key, k, l).ledger, key)
         == AfterActs(caps, Entries(r.ledger, key), OwnActs(caps, r, es, key, k, l))
    decreases |es|
  {
    if es != [] {
      var next := Step(caps, r, es[0]);
      StepActs(caps, r, es[0], key);
      TenantsDoNotInterfere(caps, next, es[1..], key, k, l);
      ActsInTurn(caps, Entries(r.ledger, key), OwnAct(r, es[0], key), OwnActs(caps, next, es[1..], key, k, l));
    }
  }
}
