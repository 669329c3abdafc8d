/**
Blue/green reindexing, services/reindex.py, over a backend that is a set of collections and
a map of aliases. `stampTime` is the calendar: it gives the moment a stamp denotes, or None
for text that is not a stamp.
*/
module Reindex {
  import opened Wrappers
  import opened Text

  const GREEN_SUFFIX := "-v"

  datatype Backend = Backend(collections: set<string>, aliases: map<string, string>)

  function Target(b: Backend, alias: string): Option<string> {
    if alias in b.aliases then Some(b.aliases[alias]) else None
  }

  function BuildPrefix(alias: string): string {
    alias + GREEN_SUFFIX
  }

  function GreenName(alias: string, stamp: string): string {
    BuildPrefix(alias) + stamp
  }

  datatype Error = Conflict | NotFound

  datatype Plan = Plan(alias: string, blue: Option<string>, green: string, evalGate: bool, retentionHours: nat)

  /** A served name must be an alias: a physical collection of that name refuses the plan. */
  function PlanReindex(b: Backend, alias: string, stamp: string, evalGate: bool, retentionHours: nat)
    : Result<Plan, Error>
  {
    if Target(b, alias).None? && alias in b.collections then Err(Conflict)
    else Ok(Plan(alias, Target(b, alias), GreenName(alias, stamp), evalGate, retentionHours))
  }

  datatype Reason = Silent | GateBlocked | Ungated

  datatype SwapResult = SwapResult(swapped: bool, reason: Reason, gateRan: bool)

  /** `evalPassed` is None when the gate could not run. */
  predicate Blocked(plan: Plan, evalPassed: Option<bool>) {
    plan.evalGate && evalPassed.Some? && !evalPassed.value
  }

  function Swapped(b: Backend, plan: Plan, evalPassed: Option<bool>): Backend {
    if Blocked(plan, evalPassed) then b else b.(aliases := b.aliases[plan.alias := plan.green])
  }

  /** No alias hides a collection of its own name. */
  predicate Unshadowed(b: Backend) {
    forall alias :: alias in b.aliases ==> alias !in b.collections
  }

  /**
  A plan is refused exactly when swapping its alias in would hide a collection; otherwise it names
  what the alias serves and a build of its own prefix and stamp, under the gate and window asked for.
  */
  lemma {:induction false} PlanRefusedExactlyWhenItWouldShadow(b: Backend, alias: string, stamp: string, gate: bool,
                                                               hours: nat, passed: Option<bool>)
    requires Unshadowed(b)
    ensures var blue := if alias in b.aliases then Some(b.aliases[alias]) else None;
            var plan := Plan(alias, blue, alias + "-v" + stamp, gate, hours);
            && PlanReindex(b, alias, stamp, gate, hours)
               == (if Unshadowed(b.(aliases := b.aliases[alias := plan.green])) then Ok(plan) else Err(Conflict))
            && Swapped(b, plan, passed) == if gate && passed == Some(false) then b
                                           else b.(aliases := b.aliases[alias := plan.green])
  {
    var after := b.(aliases := b.aliases[alias := GreenName(alias, stamp)]);
    assert alias in after.aliases;
  }

  /** Builds of the alias that it does not point at. */
  function Others(b: Backend, alias: string): set<string> {
    set name | name in b.collections && BuildPrefix(alias) <= name && Some(name) != Target(b, alias)
  }

  ghost predicate IsGreatest(name: string, names: set<string>) {
    name in names && forall other :: other in names ==> !Less(name, other)
  }

  lemma {:induction false} GreatestUnique(x: string, y: string, names: set<string>)
    requires IsGreatest(x, names) && IsGreatest(y, names)
    ensures x == y
  {
    LessTotal(x, y);
  }

  /** `sorted(builds)[-1]`. */
  ghost function Greatest(names: set<string>): (name: string)
    requires names != {}
    ensures IsGreatest(name, names)
    decreases |names|
  {
    var x :| x in names;
    if names == {x} then (LessIrreflexive(x); x)
    else
      assert names == {x} + (names - {x});
      var y := Greatest(names - {x});
      LessIrreflexive(x);
      if Less(y, x) then
        assert IsGreatest(x, names) by {
          forall z | z in names ensures !Less(x, z) {
            if z != x && Less(x, z) {
              LessTransitive(y, x, z);
            }
          }
        }
        x
      else y
  }

  ghost function RollbackTarget(b: Backend, alias: string, to: Option<string>): Option<string> {
    if to.Some? then to
    else if Others(b, alias) == {} then None
    else Some(Greatest(Others(b, alias)))
  }

  ghost function RolledBack(b: Backend, alias: string, to: Option<string>): Backend {
    match RollbackTarget(b, alias, to)
    case None => b
    case Some(name) => b.(aliases := b.aliases[alias := name])
  }

  /** A build past the window: not served, with a readable stamp from before the cutoff. */
  predicate Expired(b: Backend, alias: string, stampTime: string -> Option<real>, cutoff: real, name: string) {
    && BuildPrefix(alias) <= name && Some(name) != Target(b, alias)
    && var built := stampTime(name[|BuildPrefix(alias)|..]);
    built.Some? && built.value < cutoff
  }

  function Cutoff(now: real, retentionHours: nat): real {
    now - (retentionHours * 3600) as real
  }

  function Retired(b: Backend, alias: string, stampTime: string -> Option<real>, now: real,
                   retentionHours: nat): Backend {
    b.(collections := set name | name in b.collections
                               && !Expired(b, alias, stampTime, Cutoff(now, retentionHours), name))
  }

  class VectorDb {
    var state: Backend

    constructor (state: Backend)
      ensures this.state == state
    {
      this.state := state;
    }

    method Swap(plan: Plan, evalPassed: Option<bool>) returns (r: SwapResult)
      modifies this
      ensures state == Swapped(old(state), plan, evalPassed)
      ensures r.swapped <==> !Blocked(plan, evalPassed)
      ensures r.reason == if Blocked(plan, evalPassed) then GateBlocked
                          else if plan.evalGate && evalPassed.None? then Ungated else Silent
      ensures r.gateRan <==> plan.evalGate && evalPassed.Some? && evalPassed.value
    {
      var gateRan := plan.evalGate && evalPassed.Some?;
      if plan.evalGate && evalPassed.Some? && !evalPassed.value {
        return SwapResult(false, GateBlocked, false);
      }
      state := state.(aliases := state.aliases[plan.alias := plan.green]);
      return SwapResult(true, if gateRan || !plan.evalGate then Silent else Ungated, gateRan);
    }

    method Rollback(alias: string, to: Option<string>) returns (r: Result<string, Error>)
      modifies this
      ensures state == RolledBack(old(state), alias, to)
      ensures r == match RollbackTarget(old(state), alias, to) case None => Err(NotFound) case Some(name) => Ok(name)
    {
      var target := to;
      if target.None? {
        target := LastSorted(set name | name in state.collections && BuildPrefix(alias) <= name
                             && Some(name) != Target(state, alias));
      }
      if target.None? {
        return Err(NotFound);
      }
      state := state.(aliases := state.aliases[alias := target.value]);
      return Ok(target.value);
    }

    method Retire(alias: string, stampTime: string -> Option<real>, now: real, retentionHours: nat)
      returns (dropped: seq<string>)
      modifies this
      ensures state == Retired(old(state), alias, stampTime, now, retentionHours)
      ensures forall name :: name in dropped <==> name in old(state).collections && name !in state.collections
    {
      var current := Target(state, alias);
      var prefix := BuildPrefix(alias);
      var cutoff := now - (retentionHours * 3600) as real;
      dropped := [];
      var pending := state.collections;
      while pending != {}
        invariant pending <= state.collections <= old(state).collections
        invariant state.aliases == old(state).aliases
        invariant forall name :: name in old(state).collections ==>
                    (name !in state.collections <==>
                       name !in pending && Expired(old(state), alias, stampTime, cutoff, name))
        invariant forall name :: name in dropped <==> name in old(state).collections && name !in state.collections
        decreases |pending|
      {
        var name :| name in pending;
        pending := pending - {name};
        if prefix <= name && Some(name) != current {
          var built := stampTime(name[|prefix|..]);
          if built.Some? && built.value < cutoff {
            state := state.(collections := state.collections - {name});
            dropped := dropped + [name];
          }
        }
      }
    }
  }

  method LastSorted(builds: set<string>) returns (last: Option<string>)
    ensures last == if builds == {} then None else Some(Greatest(builds))
  {
    last := None;
    var pending := builds;
    ghost var seen: set<string> := {};
    while pending != {}
      invariant seen + pending == builds
      invariant last.None? ==> seen == {}
      invariant last.Some? ==> IsGreatest(last.value, seen)
      decreases |pending|
    {
      var name :| name in pending;
      if last.None? || Less(last.value, name) {
        GreatestSoFar(seen, name, last);
        last := Some(name);
      } else {
        assert IsGreatest(last.value, seen + {name});
      }
      pending, seen := pending - {name}, seen + {name};
    }
    if last.Some? {
      GreatestUnique(last.value, Greatest(builds), builds);
    }
  }

  lemma {:induction false} GreatestSoFar(seen: set<string>, name: string, best: Option<string>)
    requires best.Some? ==> IsGreatest(best.value, seen) && Less(best.value, name)
    requires best.None? ==> seen == {}
    ensures IsGreatest(name, seen + {name})
  {
    LessIrreflexive(name);
    forall other | other in seen ensures !Less(name, other) {
      if Less(name, other) {
        LessTransitive(best.value, name, other);
      }
    }
  }

  // ---- Runs ----

  datatype Op =
    | Build(name: string)
    | Swap(plan: Plan, evalPassed: Option<bool>)
    | Rollback(alias: string, to: Option<string>)
    | Retire(alias: string, now: real, retentionHours: nat)

  ghost function Step(stampTime: string -> Option<real>, b: Backend, op: Op): Backend {
    match op
    case Build(name) => b.(collections := b.collections + {name})
    case Swap(plan, evalPassed) => Swapped(b, plan, evalPassed)
    case Rollback(alias, to) => RolledBack(b, alias, to)
    case Retire(alias, now, hours) => Retired(b, alias, stampTime, now, hours)
  }

  predicate Resolves(b: Backend, alias: string) {
    alias in b.aliases && b.aliases[alias] in b.collections
  }

  /** What the caller has to see to: the green build it swaps to, and a build it names itself, must exist. */
  predicate Sound(b: Backend, alias: string, op: Op) {
    match op
    case Swap(plan, evalPassed) => plan.alias == alias && !Blocked(plan, evalPassed) ==> plan.green in b.collections
    case Rollback(a, to) => a == alias && to.Some? ==> to.value in b.collections
    case _ => true
  }

  /** `Retire` of another alias must not be able to drop what this one serves. */
  predicate Apart(b: Backend, alias: string, stampTime: string -> Option<real>, op: Op) {
    op.Retire? && op.alias != alias && alias in b.aliases ==>
      !Expired(b, op.alias, stampTime, Cutoff(op.now, op.retentionHours), b.aliases[alias])
  }

  lemma {:induction false} StepResolves(stampTime: string -> Option<real>, b: Backend, alias: string, op: Op)
    requires Resolves(b, alias)
    ensures Resolves(Step(stampTime, b, op), alias) <==> Sound(b, alias, op) && Apart(b, alias, stampTime, op)
  {
  }

  ghost predicate AlwaysResolves(stampTime: string -> Option<real>, b: Backend, alias: string, ops: seq<Op>)
    decreases |ops|
  {
    Resolves(b, alias) && (ops == [] || AlwaysResolves(stampTime, Step(stampTime, b, ops[0]), alias, ops[1..]))
  }

  ghost predicate AllSound(stampTime: string -> Option<real>, b: Backend, alias: string, ops: seq<Op>)
    decreases |ops|
  {
    ops == [] ||
    (Sound(b, alias, ops[0]) && Apart(b, alias, stampTime, ops[0])
     && AllSound(stampTime, Step(stampTime, b, ops[0]), alias, ops[1..]))
  }

  /**
  Over every run the alias keeps naming an existing collection exactly when no operation is
  pointed at a missing one.
  */
  lemma {:induction false} AliasAlwaysResolves(stampTime: string -> Option<real>, b: Backend, alias: string,
                                               ops: seq<Op>)
    requires Resolves(b, alias)
    ensures AlwaysResolves(stampTime, b, alias, ops) <==> AllSound(stampTime, b, alias, ops)
    decreases |ops|
  {
    if ops != [] {
      StepResolves(stampTime, b, alias, ops[0]);
      var next := Step(stampTime, b, ops[0]);
      if Resolves(next, alias) {
        AliasAlwaysResolves(stampTime, next, alias, ops[1..]);
      }
    }
  }

  /** One use of the tools on an alias: build and swap under some gate, roll back by default, or retire. */
  datatype Cycle = Rebuild(green: string, evalGate: bool, evalPassed: Option<bool>) | Undo
      | Prune(now: real, hours: nat)

  function Ops(alias: string, cycle: Cycle): seq<Op> {
    match cycle
    case Rebuild(green, gate, passed) => [Build(green), Swap(Plan(alias, None, green, gate, 0), passed)]
    case Undo => [Rollback(alias, None)]
    case Prune(now, hours) => [Retire(alias, now, hours)]
  }

  function AllOps(alias: string, cycles: seq<Cycle>): seq<Op> {
    if cycles == [] then [] else Ops(alias, cycles[0]) + AllOps(alias, cycles[1..])
  }

  lemma {:induction false} CyclesAreSound(stampTime: string -> Option<real>, b: Backend, alias: string,
                                          cycles: seq<Cycle>)
    ensures AllSound(stampTime, b, alias, AllOps(alias, cycles))
    decreases |cycles|
  {
    if cycles != [] {
      var ops, later := Ops(alias, cycles[0]), AllOps(alias, cycles[1..]);
      var one := Step(stampTime, b, ops[0]);
      assert (ops + later)[0] == ops[0] && (ops + later)[1..] == ops[1..] + later;
      if cycles[0].Rebuild? {
        var two := Step(stampTime, one, ops[1]);
        assert ops[1..] + later == [ops[1]] + later && ([ops[1]] + later)[1..] == later;
        CyclesAreSound(stampTime, two, alias, cycles[1..]);
      } else {
        assert ops[1..] + later == later;
        CyclesAreSound(stampTime, one, alias, cycles[1..]);
      }
    }
  }

  /**
  However an alias is rebuilt, rolled back by default and retired, gates passing or not, it
  always names an existing collection.
  */
  lemma {:induction false} OrdinaryUseAlwaysResolves(stampTime: string -> Option<real>, b: Backend, alias: string,
                                                     cycles: seq<Cycle>)
    requires Resolves(b, alias)
    ensures AlwaysResolves(stampTime, b, alias, AllOps(alias, cycles))
  {
    CyclesAreSound(stampTime, b, alias, cycles);
    AliasAlwaysResolves(stampTime, b, alias, AllOps(alias, cycles));
  }

  // ---- What the default rollback restores ----

  /** Names under one prefix compare as their stamps do. */
  lemma {:induction false} StampOrder(alias: string, s: string, t: string)
    requires AllDigits(s) && AllDigits(t) && |s| == |t|
    ensures Less(GreenName(alias, s), GreenName(alias, t)) <==> Value(s) < Value(t)
  {
    LessAfterPrefix(BuildPrefix(alias), s, t);
    FixedWidthOrder(s, t);
  }

  ghost predicate WellStamped(b: Backend, alias: string) {
    forall name :: name in b.collections && BuildPrefix(alias) <= name ==>
      AllDigits(name[|BuildPrefix(alias)|..]) && |name| == |BuildPrefix(alias)| + 14
  }

  /** Under fixed-width stamps the restored build is the newest one not being served. */
  lemma {:induction false} DefaultRollbackTakesTheNewest(b: Backend, alias: string, name: string)
    requires WellStamped(b, alias) && name in Others(b, alias)
    ensures var target := RollbackTarget(b, alias, None);
            var n := |BuildPrefix(alias)|;
            target.Some? && target.value in Others(b, alias) && Value(name[n..]) <= Value(target.value[n..])
  {
    var n := |BuildPrefix(alias)|;
    var target := Greatest(Others(b, alias));
    assert name == GreenName(alias, name[n..]) && target == GreenName(alias, target[n..]);
    StampOrder(alias, target[n..], name[n..]);
  }

  /** The build before the served one: the greatest retained name below it. */
  ghost predicate IsPrevious(b: Backend, alias: string, name: string) {
    alias in b.aliases && IsGreatest(name, set other | other in Others(b, alias) && Less(other, b.aliases[alias]))
  }

  /**
  "Back at the previous build": the default rollback goes there exactly when no retained
  build is named after the served one. A green build whose gate blocked it is such a build.
  */
  lemma {:induction false} RollbackGoesBackExactlyWhenServingTheLatest(b: Backend, alias: string, previous: string)
    requires alias in b.aliases && IsPrevious(b, alias, previous)
    ensures RollbackTarget(b, alias, None) == Some(previous)
       <==> forall name :: name in Others(b, alias) ==> !Less(b.aliases[alias], name)
  {
    var current, others := b.aliases[alias], Others(b, alias);
    var earlier := set other | other in others && Less(other, current);
    var target := Greatest(others);
    assert previous in earlier;
    if forall name :: name in others ==> !Less(current, name) {
      forall name | name in others ensures name in earlier {
        LessTotal(current, name);
      }
      assert earlier == others;
      GreatestUnique(target, previous, others);
    } else if target == previous {
      var name :| name in others && Less(current, name);
      LessTransitive(previous, current, name);
      assert false;
    }
  }

  /** A rollback undoes a swap exactly when blue is the greatest of the other builds. */
  lemma {:induction false} RollbackUndoesSwap(b: Backend, plan: Plan, evalPassed: Option<bool>)
    requires Target(b, plan.alias) == plan.blue && plan.blue.Some? && !Blocked(plan, evalPassed)
    requires plan.blue.value in b.collections && BuildPrefix(plan.alias) <= plan.blue.value
        && plan.blue.value != plan.green
    ensures var after := Swapped(b, plan, evalPassed);
            RolledBack(after, plan.alias, None) == b <==> IsGreatest(plan.blue.value, Others(after, plan.alias))
  {
    var after := Swapped(b, plan, evalPassed);
    var others := Others(after, plan.alias);
    assert plan.blue.value in others;
    var target := Greatest(others);
    if IsGreatest(plan.blue.value, others) {
      GreatestUnique(target, plan.blue.value, others);
      assert b.aliases[plan.alias := plan.green][plan.alias := target] == b.aliases;
    } else {
      assert RolledBack(after, plan.alias, None).aliases[plan.alias] == target;
    }
  }

  /**
  A build its gate kept from being served is what the default rollback serves, exactly when no
  retained build has a later stamp.
  */
  lemma {:induction false} BlockedBuildIsServedExactlyWhenNewest(b: Backend, plan: Plan)
    requires plan.evalGate && plan.green in Others(b, plan.alias) && WellStamped(b, plan.alias)
    ensures var after, n := Swapped(b, plan, Some(false)), |BuildPrefix(plan.alias)|;
            && after == b
            && (RollbackTarget(after, plan.alias, None) == Some(plan.green)
                <==> forall name :: name in Others(b, plan.alias) ==> Value(name[n..]) <= Value(plan.green[n..]))
  {
    var n, others := |BuildPrefix(plan.alias)|, Others(b, plan.alias);
    forall name | name in others ensures Less(plan.green, name) <==> Value(plan.green[n..]) < Value(name[n..]) {
      assert name == GreenName(plan.alias, name[n..]) && plan.green == GreenName(plan.alias, plan.green[n..]);
      StampOrder(plan.alias, plan.green[n..], name[n..]);
    }
    assert IsGreatest(plan.green, others) <==> forall name :: name in others ==> !Less(plan.green, name);
    if IsGreatest(plan.green, others) {
      GreatestUnique(plan.green, Greatest(others), others);
    }
  }

  /** After builds `first`, `served` and a blocked `later`, a rollback from the second serves the third. */
  lemma {:induction false} GateBlockedBuildIsRestored(alias: string, first: string, served: string, later: string,
                                                      hours: nat)
    requires first != served && Less(first, later) && served != later
    ensures var green := GreenName(alias, later);
            var b := Backend({GreenName(alias, first), GreenName(alias, served), green},
                             map[alias := GreenName(alias, served)]);
            var blocked := Swapped(b, Plan(alias, Some(GreenName(alias, served)), green, true, hours), Some(false));
            blocked == b && RollbackTarget(blocked, alias, None) == Some(green)
  {
    var x, y, z := GreenName(alias, first), GreenName(alias, served), GreenName(alias, later);
    var b := Backend({x, y, z}, map[alias := y]);
    var n := |BuildPrefix(alias)|;
    assert x[n..] == first && y[n..] == served && z[n..] == later;
    assert Others(b, alias) == {x, z};
    LessAfterPrefix(BuildPrefix(alias), first, later);
    LessIrreflexive(z);
    LessOneWay(z, x);
    GreatestUnique(z, Greatest(Others(b, alias)), Others(b, alias));
  }

  lemma {:induction false} LessOneWay(x: string, y: string)
    ensures Less(y, x) ==> !Less(x, y)
  {
    if Less(y, x) && Less(x, y) {
      LessTransitive(y, x, y);
      LessIrreflexive(y);
    }
  }

  /** Two stamps as the code makes them. */
  lemma {:induction false} JanuaryBeforeMarch() returns (january: string, march: string)
    ensures january == "20260101000000" && march == "20260301000000"
    ensures AllDigits(january) && AllDigits(march) && Less(january, march) && january != march
  {
    january := Month("1");
    march := Month("3");
    LessAfterPrefix("20260", "1" + "01000000", "3" + "01000000");
    LessIrreflexive(january);
  }

  /** Midnight on the first of a month. */
  lemma {:induction false} Month(m: string) returns (stamp: string)
    requires AllDigits(m)
    ensures stamp == "20260" + (m + "01000000") && AllDigits(stamp)
    ensures m == "1" ==> stamp == "20260101000000"
    ensures m == "3" ==> stamp == "20260301000000"
  {
    stamp := "20260" + (m + "01000000");
    assert AllDigits("20260") && AllDigits("01000000");
  }

  // ---- What a retention window keeps ----

  /** Exactly the unserved builds with a readable stamp from before the cutoff go; nothing else does. */
  lemma {:induction false} RetireDropsExactlyTheExpired(b: Backend, alias: string, stampTime: string -> Option<real>,
                                                        now: real, hours: nat, name: string)
    requires name in b.collections
    ensures name !in Retired(b, alias, stampTime, now, hours).collections <==>
            && BuildPrefix(alias) <= name && Some(name) != Target(b, alias)
            && stampTime(name[|BuildPrefix(alias)|..]).Some?
            && now - stampTime(name[|BuildPrefix(alias)|..]).value > (hours * 3600) as real
  {
  }

  /**
  The window is counted from a build's own stamp. Retiring right after a swap keeps the
  build it replaced exactly when that build is younger than the window, or carries no
  readable stamp, however recently it stopped being served.
  */
  lemma {:induction false} ReplacedBuildSurvivesExactlyWhenYoung(b: Backend, plan: Plan, evalPassed: Option<bool>,
                                                                 stampTime: string -> Option<real>, now: real)
    requires Target(b, plan.alias) == plan.blue && plan.blue.Some? && !Blocked(plan, evalPassed)
    requires plan.blue.value in b.collections && BuildPrefix(plan.alias) <= plan.blue.value
        && plan.blue.value != plan.green
    ensures var after := Retired(Swapped(b, plan, evalPassed), plan.alias, stampTime, now, plan.retentionHours);
            var built := stampTime(plan.blue.value[|BuildPrefix(plan.alias)|..]);
            plan.blue.value in after.collections
            <==> built.None? || now - built.value <= (plan.retentionHours * 3600) as real
  {
  }

  /** A build stamped before the retention window. */
  predicate TooOld(alias: string, stampTime: string -> Option<real>, now: real, hours: nat, name: string)
    requires BuildPrefix(alias) <= name
  {
    var built := stampTime(name[|BuildPrefix(alias)|..]);
    built.Some? && now - built.value > (hours * 3600) as real
  }

  /**
  When the replaced build was old, the rollback the window exists for is gone at once: naming it
  leaves the alias on nothing, and the default is refused exactly when every other build is old
  as well.
  */
  lemma {:induction false} OldBlueCannotBeRolledBackTo(b: Backend, plan: Plan, evalPassed: Option<bool>,
                                                       stampTime: string -> Option<real>, now: real)
    requires Target(b, plan.alias) == plan.blue && plan.blue.Some? && !Blocked(plan, evalPassed)
    requires BuildPrefix(plan.alias) <= plan.blue.value && plan.blue.value != plan.green
    requires TooOld(plan.alias, stampTime, now, plan.retentionHours, plan.blue.value)
    ensures var after := Retired(Swapped(b, plan, evalPassed), plan.alias, stampTime, now, plan.retentionHours);
            && !Resolves(RolledBack(after, plan.alias, plan.blue), plan.alias)
            && (RollbackTarget(after, plan.alias, None).None? <==>
                forall name :: name in Others(b, plan.alias) && name != plan.green ==>
                  TooOld(plan.alias, stampTime, now, plan.retentionHours, name))
  {
    var after := Retired(Swapped(b, plan, evalPassed), plan.alias, stampTime, now, plan.retentionHours);
    forall name
      ensures name in Others(after, plan.alias) <==>
                && name in Others(b, plan.alias) && name != plan.green
                && !TooOld(plan.alias, stampTime, now, plan.retentionHours, name)
    {
    }
    if RollbackTarget(after, plan.alias, None).None? {
      assert Others(after, plan.alias) == {};
    }
  }

  // ---- Builds of other aliases ----

  /** A build of `other` counts as a build of `alias` exactly when the alias is the same or nests in it. */
  lemma {:induction false} BuildsAreSharedExactlyWhenAliasesNest(alias: string, other: string, stamp: string)
    requires AllDigits(stamp)
    ensures BuildPrefix(alias) <= GreenName(other, stamp) <==> alias == other || BuildPrefix(alias) <= other
  {
    var p, g := BuildPrefix(alias), GreenName(other, stamp);
    var n, m := |alias|, |other|;
    assert p[n] == '-' && p[n + 1] == 'v' && p[..n] == alias;
    assert g[m] == '-' && g[m + 1] == 'v' && g[..m] == other;
    assert forall k :: m + 2 <= k < |g| ==> g[k] == stamp[k - m - 2] && IsDigit(g[k]);
    assert m >= n + 2 ==> g[..n + 2] == other[..n + 2];
    assert alias == other ==> g[..n + 2] == p;
    if p <= g {
      assert g[n] == '-' && g[n + 1] == 'v' && g[..n] == alias;
    }
  }

  /** Retiring never touches such a build, because what follows the prefix is not a stamp. */
  lemma {:induction false} RetireSparesForeignBuilds(b: Backend, alias: string, other: string, stamp: string,
                                                     stampTime: string -> Option<real>, now: real, hours: nat)
    requires forall s :: stampTime(s).Some? ==> AllDigits(s)
    requires AllDigits(stamp) && alias != other && GreenName(other, stamp) in b.collections
    ensures GreenName(other, stamp) in Retired(b, alias, stampTime, now, hours).collections
  {
    var g, n := GreenName(other, stamp), |BuildPrefix(alias)|;
    BuildsAreSharedExactlyWhenAliasesNest(alias, other, stamp);
    if BuildPrefix(alias) <= other {
      assert g[|other|] == '-';
      assert g[n..][|other| - n] == g[|other|];
    }
  }

  /** A build the alias made itself: what follows the prefix is a stamp. */
  ghost predicate Own(alias: string, name: string) {
    BuildPrefix(alias) <= name && AllDigits(name[|BuildPrefix(alias)|..])
  }

  /**
  Rolling back may leave the alias's own builds: it stays with them exactly when one of them
  is named after every retained build of another alias.
  */
  lemma {:induction false} RollbackStaysHomeExactly(b: Backend, alias: string)
    requires Others(b, alias) != {}
    ensures Own(alias, RollbackTarget(b, alias, None).value)
       <==> exists own :: own in Others(b, alias) && Own(alias, own)
              && forall foreign :: foreign in Others(b, alias) && !Own(alias, foreign) ==> Less(foreign, own)
  {
    var others := Others(b, alias);
    var target := Greatest(others);
    if Own(alias, target) {
      forall foreign | foreign in others && !Own(alias, foreign) ensures Less(foreign, target) {
        LessTotal(foreign, target);
      }
    }
  }

  /**
  A nested alias that goes on with a letter, or anything else after the digits, always
  outranks the alias's own builds.
  */
  lemma {:induction false} LetterExtensionsAlwaysWin(alias: string, own: string, other: string, stamp: string)
    requires AllDigits(own) && own != ""
    requires BuildPrefix(alias) < other && other[|BuildPrefix(alias)|] > '9'
    ensures Less(GreenName(alias, own), GreenName(other, stamp))
  {
    var n := |BuildPrefix(alias)|;
    var rest := other[n..] + GREEN_SUFFIX + stamp;
    assert GreenName(other, stamp) == BuildPrefix(alias) + rest;
    LessAfterPrefix(BuildPrefix(alias), own, rest);
    assert IsDigit(own[0]) && rest[0] == other[n];
  }

  /** So a rollback serves another alias's build although an own one is retained. */
  lemma {:induction false} RollbackCanCrossAliases(alias: string, first: string, served: string, other: string,
                                                   stamp: string)
    requires AllDigits(first) && first != "" && AllDigits(served) && first != served
    requires BuildPrefix(alias) < other && other[|BuildPrefix(alias)|] > '9'
    ensures var own, current, foreign := GreenName(alias, first), GreenName(alias, served), GreenName(other, stamp);
            var b := Backend({own, current, foreign}, map[alias := current, other := foreign]);
            && own in Others(b, alias) && Own(alias, own) && !Own(alias, foreign)
            && RollbackTarget(b, alias, None) == Some(foreign)
  {
    var x, y, z := GreenName(alias, first), GreenName(alias, served), GreenName(other, stamp);
    var b := Backend({x, y, z}, map[alias := y, other := z]);
    var n := |BuildPrefix(alias)|;
    assert x[n..] == first && y[n..] == served && z[n..][0] == z[n] == other[n];
    LetterExtensionsAlwaysWin(alias, first, other, stamp);
    assert Others(b, alias) == {x, z};
    LessIrreflexive(z);
    LessOneWay(z, x);
    GreatestUnique(z, Greatest(Others(b, alias)), Others(b, alias));
  }

  /** With real stamps: `docs` loses its rollback to `docs-vx`. */
  lemma {:induction false} DocsRollsBackToAnotherAlias() returns (january: string, march: string, b: Backend)
    ensures january == "20260101000000" && march == "20260301000000"
    ensures b == Backend({GreenName("docs", january), GreenName("docs", march), GreenName("docs-vx", january)},
                         map["docs" := GreenName("docs", march), "docs-vx" := GreenName("docs-vx", january)])
    ensures RollbackTarget(b, "docs", None) == Some(GreenName("docs-vx", january))
  {
    january, march := JanuaryBeforeMarch();
    b := Backend({GreenName("docs", january), GreenName("docs", march), GreenName("docs-vx", january)},
                 map["docs" := GreenName("docs", march), "docs-vx" := GreenName("docs-vx", january)]);
    assert BuildPrefix("docs") == "docs-v" && "docs-vx"[..6] == "docs-v";
    RollbackCanCrossAliases("docs", january, march, "docs-vx", january);
  }
}
