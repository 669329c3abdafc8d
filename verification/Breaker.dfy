/**
The circuit breaker of core/breaker.py. The class stores the lazy state the source stores:
an expired `Open` is only noticed when somebody reads it. The reference is a timed
automaton that becomes half-open at the instant the timeout runs out. Clock readings are
real seconds, one per call but for `Check` and `RecordFailure`; the timeout is configured in milliseconds.
*/
module Breaker {

  datatype CircuitState = Closed | HalfOpen | Open

  /** The three private fields. */
  datatype Fields = Fields(state: CircuitState, failures: nat, openedAt: real)

  datatype Config = Config(threshold: int, resetMs: int, enabled: bool) {
    /** The bounds the settings schema puts on both numbers. */
    predicate Valid() {
      threshold >= 1 && resetMs >= 1000
    }

    function Timeout(): real {
      resetMs as real / 1000.0
    }
  }

  datatype CheckResult = Admitted | Refused(retryAfterSeconds: real)

  function ElapsedMs(f: Fields, now: real): real {
    (now - f.openedAt) * 1000.0
  }

  /** Reading `state`: an expired `Open` turns half-open. */
  function Settled(c: Config, f: Fields, now: real): Fields {
    if f.state.Open? && ElapsedMs(f, now) >= c.resetMs as real then f.(state := HalfOpen) else f
  }

  function Succeeded(f: Fields): Fields {
    f.(failures := 0, state := Closed)
  }

  /** `again` is the clock as it is read for the moment of opening. */
  function Failed(c: Config, f: Fields, now: real, again: real, retryable: bool): Fields {
    if !c.enabled || !retryable then f
    else
      var g := Settled(c, f, now);
      if g.state.HalfOpen? then g.(openedAt := again, state := Open)
      else if g.failures + 1 < c.threshold then g.(failures := g.failures + 1)
      else g.(failures := g.failures + 1, state := Open, openedAt := if g.state.Open? then g.openedAt else again)
  }

  class CircuitBreaker {
    const config: Config
    var state: CircuitState
    var failures: nat
    var openedAt: real

    constructor (config: Config)
      ensures this.config == config && Now() == Fields(Closed, 0, 0.0)
    {
      this.config := config;
      state, failures, openedAt := Closed, 0, 0.0;
    }

    ghost function Now(): Fields
      reads this
    {
      Fields(state, failures, openedAt)
    }

    method Transition(to: CircuitState, now: real)
      modifies this
      ensures Now()
                == old(Now()).(state := to, openedAt := if to.Open? && !old(state).Open? then now else old(openedAt))
    {
      if to == state {
        return;
      }
      state := to;
      if to.Open? {
        openedAt := now;
      }
    }

    /** The `state` property. */
    method State(now: real) returns (current: CircuitState)
      modifies this
      ensures Now() == Settled(config, old(Now()), now) && current == state
    {
      if state.Open? && (now - openedAt) * 1000.0 >= config.resetMs as real {
        Transition(HalfOpen, now);
      }
      current := state;
    }

    method IsOpen(now: real) returns (shedding: bool)
      modifies this
      ensures shedding <==> config.enabled && Settled(config, old(Now()), now).state.Open?
      ensures Now() == if config.enabled then Settled(config, old(Now()), now) else old(Now())
    {
      shedding := false;
      if config.enabled {
        var current := State(now);
        shedding := current.Open?;
      }
    }

    /** `again` is the clock as it is read for the time that remains. */
    method Check(now: real, again: real) returns (result: CheckResult)
      modifies this
      ensures Now() == if config.enabled then Settled(config, old(Now()), now) else old(Now())
      ensures result.Refused? <==> config.enabled && Settled(config, old(Now()), now).state.Open?
      ensures result.Refused? ==>
                var left := old(openedAt) + config.Timeout() - again;
                result.retryAfterSeconds == if left > 0.0 then left else 0.0
    {
      if !config.enabled {
        return Admitted;
      }
      var current := State(now);
      if current.Open? {
        var remaining := config.resetMs as real - (again - openedAt) * 1000.0;
        return Refused((if remaining > 0.0 then remaining else 0.0) / 1000.0);
      }
      return Admitted;
    }

    method RecordSuccess(now: real)
      modifies this
      ensures Now() == Succeeded(old(Now()))
    {
      failures := 0;
      Transition(Closed, now);
    }

    /** `retryable` is true for an error-less failure too, as `record_failure(None)` counts. */
    method RecordFailure(retryable: bool, now: real, again: real)
      modifies this
      ensures Now() == Failed(config, old(Now()), now, again, retryable)
    {
      if !config.enabled || !retryable {
        return;
      }
      var current := State(now);
      if current.HalfOpen? {
        openedAt := again;
        Transition(Open, again);
        return;
      }
      failures := failures + 1;
      if failures >= config.threshold {
        Transition(Open, again);
      }
    }

    method Reset(now: real)
      modifies this
      ensures Now() == Fields(Closed, 0, 0.0)
    {
      failures, openedAt := 0, 0.0;
      Transition(Closed, now);
    }
  }

  // ---- The eager timed automaton ----

  datatype Automaton = Healthy(strikes: nat) | Shedding(until: real) | Probing

  /** Letting time pass up to `now`. */
  function Wait(a: Automaton, now: real): Automaton {
    if a.Shedding? && now >= a.until then Probing else a
  }

  datatype Op =
    | Look(at: real)
    | Ask(at: real)
    | Success(at: real)
    | Failure(at: real, again: real, retryable: bool)
    | Reset(at: real)

  /** An action of the automaton, which is never behind the clock. */
  function Act(c: Config, a: Automaton, op: Op): Automaton {
    match op
    case Look(_) => a
    case Ask(_) => a
    case Success(_) => Healthy(0)
    case Reset(_) => Healthy(0)
    case Failure(_, again, retryable) =>
      if !c.enabled || !retryable then a
      else
        match a
        case Healthy(n) => if n + 1 < c.threshold then Healthy(n + 1) else Shedding(again + c.Timeout())
        case Probing => Shedding(again + c.Timeout())
        case Shedding(until) => Shedding(until)
  }

  /** The same operation on the stored fields. */
  function Apply(c: Config, f: Fields, op: Op): Fields {
    match op
    case Look(at) => Settled(c, f, at)
    case Ask(at) => if c.enabled then Settled(c, f, at) else f
    case Success(_) => Succeeded(f)
    case Failure(at, again, retryable) => Failed(c, f, at, again, retryable)
    case Reset(_) => Fields(Closed, 0, 0.0)
  }

  predicate Refuses(c: Config, f: Fields, at: real) {
    c.enabled && Settled(c, f, at).state.Open?
  }

  function Abstract(c: Config, f: Fields): Automaton {
    match f.state
    case Closed => Healthy(f.failures)
    case HalfOpen => Probing
    case Open => Shedding(f.openedAt + c.Timeout())
  }

  /** What an observer can tell apart at time `now`. */
  ghost predicate Matches(c: Config, f: Fields, a: Automaton, now: real) {
    && Wait(Abstract(c, f), now) == Wait(a, now)
    && (f.state.Closed? ==> f.failures < c.threshold)
    && (!c.enabled ==> f.state.Closed?)
  }

  /** Expiry in milliseconds and expiry as a deadline are the same instant. */
  lemma {:induction false} ExpiryIsADeadline(c: Config, f: Fields, now: real)
    ensures ElapsedMs(f, now) >= c.resetMs as real <==> now >= f.openedAt + c.Timeout()
  {
  }

  lemma {:induction false} SettledMatches(c: Config, f: Fields, now: real)
    ensures Abstract(c, Settled(c, f, now)) == Wait(Abstract(c, f), now)
  {
    ExpiryIsADeadline(c, f, now);
  }

  lemma {:induction false} StepMatches(c: Config, f: Fields, a: Automaton, now: real, op: Op)
    requires c.Valid() && Matches(c, f, a, now) && now <= op.at <= End(op)
    ensures Matches(c, Apply(c, f, op), Act(c, Wait(a, op.at), op), End(op))
    ensures Refuses(c, f, op.at) <==> c.enabled && Wait(a, op.at).Shedding?
  {
    SettledMatches(c, f, op.at);
    assert Wait(Abstract(c, f), op.at) == Wait(a, op.at);
  }

  /** When an operation is through with the clock. */
  function End(op: Op): real {
    if op.Failure? then op.again else op.at
  }

  ghost predicate Ordered(now: real, ops: seq<Op>)
    decreases |ops|
  {
    ops == [] || (now <= ops[0].at <= End(ops[0]) && Ordered(End(ops[0]), ops[1..]))
  }

  /** The final state and the admission decisions of the stored breaker. */
  function RunLazy(c: Config, f: Fields, ops: seq<Op>): (Fields, seq<bool>)
    decreases |ops|
  {
    if ops == [] then (f, [])
    else
      var (g, rest) := RunLazy(c, Apply(c, f, ops[0]), ops[1..]);
      (g, (if ops[0].Ask? then [!Refuses(c, f, ops[0].at)] else []) + rest)
  }

  /** The same of the automaton. */
  function RunEager(c: Config, a: Automaton, ops: seq<Op>): (Automaton, seq<bool>)
    decreases |ops|
  {
    if ops == [] then (a, [])
    else
      var here := Wait(a, ops[0].at);
      var (b, rest) := RunEager(c, Act(c, here, ops[0]), ops[1..]);
      (b, (if ops[0].Ask? then [!(c.enabled && here.Shedding?)] else []) + rest)
  }

  function LastAt(now: real, ops: seq<Op>): real {
    if ops == [] then now else End(ops[|ops| - 1])
  }

  lemma {:induction false} RunsMatch(c: Config, f: Fields, a: Automaton, now: real, ops: seq<Op>)
    requires c.Valid() && Matches(c, f, a, now) && Ordered(now, ops)
    ensures Matches(c, RunLazy(c, f, ops).0, RunEager(c, a, ops).0, LastAt(now, ops))
    ensures RunLazy(c, f, ops).1 == RunEager(c, a, ops).1
    decreases |ops|
  {
    if ops != [] {
      StepMatches(c, f, a, now, ops[0]);
      RunsMatch(c, Apply(c, f, ops[0]), Act(c, Wait(a, ops[0].at), ops[0]), End(ops[0]), ops[1..]);
    }
  }

  /**
  Laziness is unobservable: after any sequence of operations, reading the state at any
  later time shows what the automaton shows, and every check was answered the same way.
  */
  lemma {:induction false} LazyBreakerRefinesTimedAutomaton(c: Config, ops: seq<Op>, later: real)
    requires c.Valid() && Ordered(0.0, ops) && LastAt(0.0, ops) <= later
    ensures var (f, admissions) := RunLazy(c, Fields(Closed, 0, 0.0), ops);
            var (a, expected) := RunEager(c, Healthy(0), ops);
            && admissions == expected
            && Abstract(c, Settled(c, f, later)) == Wait(a, later)
            && (f.state.Closed? ==> f.failures < c.threshold)
  {
    RunsMatch(c, Fields(Closed, 0, 0.0), Healthy(0), 0.0, ops);
    SettledMatches(c, RunLazy(c, Fields(Closed, 0, 0.0), ops).0, later);
  }

  /** The operations but for the reports of failures that no retry would mend. */
  function Mendable(ops: seq<Op>): seq<Op>
    decreases |ops|
  {
    if ops == [] then []
    else (if ops[0].Failure? && !ops[0].retryable then [] else [ops[0]]) + Mendable(ops[1..])
  }

  lemma {:induction false} RunLazyInTurn(c: Config, f: Fields, op: Op, ops: seq<Op>)
    ensures RunLazy(c, f, [op] + ops).0 == RunLazy(c, Apply(c, f, op), ops).0
    ensures var asked := if op.Ask? then [!Refuses(c, f, op.at)] else [];
            RunLazy(c, f, [op] + ops).1 == asked + RunLazy(c, Apply(c, f, op), ops).1
  {
    assert ([op] + ops)[1..] == ops;
  }

  /** A permanent misconfiguration is invisible to the breaker: any run goes as it would without such reports. */
  lemma {:induction false} PermanentFailuresChangeNothing(c: Config, f: Fields, ops: seq<Op>)
    ensures RunLazy(c, f, Mendable(ops)) == RunLazy(c, f, ops)
    decreases |ops|
  {
    if ops != [] {
      var op, later := ops[0], ops[1..];
      assert ops == [op] + later;
      PermanentFailuresChangeNothing(c, Apply(c, f, op), later);
      RunLazyInTurn(c, f, op, later);
      if op.Failure? && !op.retryable {
        assert [] + Mendable(later) == Mendable(later);
        assert [] + RunLazy(c, f, later).1 == RunLazy(c, f, later).1;
      } else {
        RunLazyInTurn(c, f, op, Mendable(later));
      }
    }
  }

  ghost predicate AllFailRetryably(ops: seq<Op>) {
    forall i :: 0 <= i < |ops| ==> ops[i].Failure? && ops[i].retryable
  }

  lemma {:induction false} FailuresCountUp(c: Config, f: Fields, ops: seq<Op>)
    requires c.Valid() && c.enabled && AllFailRetryably(ops)
    requires f.state.Closed? && ops != [] && f.failures + |ops| <= c.threshold
    ensures var g := RunLazy(c, f, ops).0;
            && g.failures == f.failures + |ops|
            && g.state == (if g.failures < c.threshold then Closed else Open)
            && (g.state.Open? ==> g.openedAt == ops[|ops| - 1].again)
    decreases |ops|
  {
    if |ops| == 1 {
      assert ops[1..] == [];
    } else {
      assert AllFailRetryably(ops[1..]);
      FailuresCountUp(c, Apply(c, f, ops[0]), ops[1..]);
      assert ops[1..][|ops| - 2] == ops[|ops| - 1];
    }
  }

  /**
  A closed breaker with nothing counted opens at the last of exactly `threshold` retryable failures
  in a row, and not before.
  */
  lemma {:induction false} OpensExactlyAtTheThreshold(c: Config, at: real, ops: seq<Op>)
    requires c.Valid() && c.enabled && AllFailRetryably(ops) && 0 < |ops| <= c.threshold
    ensures Abstract(c, RunLazy(c, Fields(Closed, 0, at), ops).0)
         == if |ops| < c.threshold then Healthy(|ops|) else Shedding(ops[|ops| - 1].again + c.Timeout())
  {
    FailuresCountUp(c, Fields(Closed, 0, at), ops);
  }

  // ---- Serial callers ----

  /**
  One call of a serial caller: it checks, and if admitted reports a retryable failure when it
  is done, which is noted.
  */
  datatype Call = Call(checkedAt: real, doneAt: real, notedAt: real)

  ghost predicate Serial(now: real, calls: seq<Call>)
    decreases |calls|
  {
    calls == [] ||
    (now <= calls[0].checkedAt <= calls[0].doneAt <= calls[0].notedAt && Serial(calls[0].notedAt, calls[1..]))
  }

  /**
  `reports` says whether a refused caller reports the refusal as a failure of its own, as
  the answer service does and the retrieval service does not.
  */
  function AfterCall(c: Config, f: Fields, call: Call, reports: bool): Fields {
    var g := Settled(c, f, call.checkedAt);
    if g.state.Open? && !reports then g else Failed(c, g, call.doneAt, call.notedAt, true)
  }

  function AdmittedCalls(c: Config, f: Fields, calls: seq<Call>, reports: bool): seq<Call>
    decreases |calls|
  {
    if calls == [] then []
    else
      (if Refuses(c, f, calls[0].checkedAt) then [] else [calls[0]])
      + AdmittedCalls(c, AfterCall(c, f, calls[0], reports), calls[1..], reports)
  }

  lemma {:induction false} AfterCallOpens(c: Config, f: Fields, call: Call, reports: bool)
    requires c.Valid() && c.enabled && f.state.Open? && f.openedAt <= call.checkedAt <= call.doneAt <= call.notedAt
    ensures var g := AfterCall(c, f, call, reports);
            && g.state.Open? && f.openedAt <= g.openedAt <= call.notedAt
            && (!Refuses(c, f, call.checkedAt) ==>
                  g.openedAt == call.notedAt && call.checkedAt >= f.openedAt + c.Timeout())
  {
    ExpiryIsADeadline(c, f, call.checkedAt);
  }

  lemma {:induction false} AdmittedFirst(c: Config, f: Fields, calls: seq<Call>, reports: bool)
    requires calls != []
    ensures var rest := AdmittedCalls(c, AfterCall(c, f, calls[0], reports), calls[1..], reports);
            AdmittedCalls(c, f, calls, reports) == if Refuses(c, f, calls[0].checkedAt) then rest else [calls[0]] + rest
  {
  }

  /** No call starts before `deadline`, and each starts a full timeout after every earlier one ended. */
  ghost predicate SpacedFrom(calls: seq<Call>, deadline: real, timeout: real) {
    && (forall i :: 0 <= i < |calls| ==> calls[i].checkedAt >= deadline)
    && (forall i, j :: 0 <= i < j < |calls| ==> calls[j].checkedAt >= calls[i].notedAt + timeout)
  }

  lemma {:induction false} SpacedEarlier(calls: seq<Call>, deadline: real, earlier: real, timeout: real)
    requires SpacedFrom(calls, deadline, timeout) && earlier <= deadline
    ensures SpacedFrom(calls, earlier, timeout)
  {
  }

  lemma {:induction false} SpacedPrepend(call: Call, rest: seq<Call>, deadline: real, timeout: real)
    requires SpacedFrom(rest, call.notedAt + timeout, timeout)
    requires deadline <= call.checkedAt <= call.notedAt && 0.0 <= timeout
    ensures SpacedFrom([call] + rest, deadline, timeout)
  {
    var all := [call] + rest;
    assert forall i :: 0 < i < |all| ==> all[i] == rest[i - 1];
  }

  lemma {:induction false} OneCallSpaces(c: Config, f: Fields, call: Call, reports: bool, rest: seq<Call>)
    requires c.Valid() && c.enabled && f.state.Open? && f.openedAt <= call.checkedAt <= call.doneAt <= call.notedAt
    requires SpacedFrom(rest, AfterCall(c, f, call, reports).openedAt + c.Timeout(), c.Timeout())
    ensures SpacedFrom(if Refuses(c, f, call.checkedAt) then rest else [call] + rest, f.openedAt + c.Timeout(),
                       c.Timeout())
  {
    AfterCallOpens(c, f, call, reports);
    if Refuses(c, f, call.checkedAt) {
      SpacedEarlier(rest, AfterCall(c, f, call, reports).openedAt + c.Timeout(), f.openedAt + c.Timeout(), c.Timeout());
    } else {
      SpacedPrepend(call, rest, f.openedAt + c.Timeout(), c.Timeout());
    }
  }

  lemma {:induction false} NothingBeforeTheDeadline(c: Config, f: Fields, now: real, calls: seq<Call>, reports: bool)
    requires c.Valid() && c.enabled && f.state.Open? && f.openedAt <= now && Serial(now, calls)
    ensures SpacedFrom(AdmittedCalls(c, f, calls, reports), f.openedAt + c.Timeout(), c.Timeout())
    decreases |calls|
  {
    if calls != [] {
      var call := calls[0];
      var g := AfterCall(c, f, call, reports);
      var rest := AdmittedCalls(c, g, calls[1..], reports);
      assert SpacedFrom(rest, g.openedAt + c.Timeout(), c.Timeout()) by {
        AfterCallOpens(c, f, call, reports);
        NothingBeforeTheDeadline(c, g, call.notedAt, calls[1..], reports);
      }
      OneCallSpaces(c, f, call, reports, rest);
      AdmittedFirst(c, f, calls, reports);
    }
  }

  /**
  Once open, a serial caller that only ever meets retryable failures gets at most one call
  through per timeout: each admitted call starts a full timeout after the previous one ended.
  */
  lemma {:induction false} OneProbePerTimeout(c: Config, f: Fields, now: real, calls: seq<Call>, reports: bool, i: nat,
                                              j: nat)
    requires c.Valid() && c.enabled && f.state.Open? && f.openedAt <= now && Serial(now, calls)
    requires i < j < |AdmittedCalls(c, f, calls, reports)|
    ensures var admitted := AdmittedCalls(c, f, calls, reports);
            admitted[j].checkedAt >= admitted[i].notedAt + c.Timeout()
  {
    NothingBeforeTheDeadline(c, f, now, calls, reports);
  }

  // ---- Where "one probe is allowed through" does not hold ----

  datatype ProbeOutcome = StillRunning | Worked | FailedRetryably | FailedForGood

  function AfterProbe(c: Config, f: Fields, outcome: ProbeOutcome, at: real, again: real): Fields {
    match outcome
    case StillRunning => f
    case Worked => Succeeded(f)
    case FailedRetryably => Failed(c, f, at, again, true)
    case FailedForGood => Failed(c, f, at, again, false)
  }

  /**
  A half-open breaker turns a second check away exactly when the probe has come back with a
  retryable failure less than a timeout ago.
  */
  lemma {:induction false} SecondCheckRefusedExactlyAfterFailedProbe(c: Config, f: Fields, probe: real,
        outcome: ProbeOutcome, reported: real, noted: real, second: real)
    requires c.Valid() && c.enabled && Settled(c, f, probe).state.HalfOpen? && probe <= reported <= noted <= second
    ensures !Refuses(c, f, probe)
    ensures Refuses(c, AfterProbe(c, Settled(c, f, probe), outcome, reported, noted), second)
        <==> outcome.FailedRetryably? && second < noted + c.Timeout()
  {
    var g := AfterProbe(c, Settled(c, f, probe), outcome, reported, noted);
    ExpiryIsADeadline(c, g, second);
  }

  /** Two callers that check a half-open breaker before either has an outcome are both let through. */
  lemma {:induction false} ConcurrentProbesAreAllAdmitted()
    ensures var c := Config(1, 1000, true);
            var f := Failed(c, Fields(Closed, 0, 0.0), 0.0, 0.0, true);
            && f.state.Open?
            && !Refuses(c, f, 1.0) && !Refuses(c, Settled(c, f, 1.0), 1.0)
  {
    var c := Config(1, 1000, true);
    ExpiryIsADeadline(c, Failed(c, Fields(Closed, 0, 0.0), 0.0, 0.0, true), 1.0);
  }

  /**
  A refused caller that reports the refusal as a failure leaves the shedding period alone
  exactly when it does so before that period is over; a report that crosses the deadline
  is taken for a failed probe and starts another full timeout, with no provider called.
  */
  lemma {:induction false} ShedCallExtendsTheOutageExactlyWhenLate(c: Config, f: Fields, checked: real, reported: real,
        noted: real)
    requires c.Valid() && c.enabled && checked <= reported <= noted && Refuses(c, f, checked)
    ensures var deadline := f.openedAt + c.Timeout();
            var g := AfterCall(c, f, Call(checked, reported, noted), true);
            && checked < deadline
            && Abstract(c, g) == Shedding(if reported < deadline then deadline else noted + c.Timeout())
            && (Abstract(c, g) == Abstract(c, f) <==> reported < deadline)
  {
    ExpiryIsADeadline(c, f, checked);
    ExpiryIsADeadline(c, f, reported);
  }
}
