/**
Answering a question, services/generation.py: the event stream, the whole answer, what each
does to the circuit breaker and the cost governor, and the router of api/query.py that
frames the stream. Retrieval, the model, the grading and the semantic cache are inputs: what
they will say is given, and what the service makes of it is the model.
*/
module AnswerStream {
  import opened Wrappers
  import opened Context
  import opened Citations
  import Breaker
  import Budget

  datatype Error = BudgetExceeded | CircuitOpen | Upstream(retryable: bool) {
    predicate Retryable() {
      match this
      case BudgetExceeded => false
      case CircuitOpen => true
      case Upstream(retryable) => retryable
    }
  }

  datatype Mode = Full | HybridOnly | Extractive

  datatype Event =
    | Meta(mode: Mode)
    | Token(text: string)
    | Citations(citations: seq<Citation>)
    | Usage(promptTokens: nat, completionTokens: nat)
    | Done
    | InsufficientEvidence
    | Failure(error: Error)

  datatype Outcome = Returned | Raised(error: Error)

  /** An answer body, as kept by the cache. A refusal has no text. */
  datatype Answer = Answer(text: Option<string>, citations: seq<Citation>, mode: Mode, promptTokens: nat,
                           completionTokens: nat)

  datatype Prepared = Prepared(prompt: string, context: string, citations: seq<Citation>, mode: Mode)

  /** What the model will produce: deltas, and perhaps a failure after the last of them. */
  datatype Generation = Generation(deltas: seq<string>, failure: Option<Error>)

  /** One request, with everything outside the service already decided. `hit` is None on a miss or without a cache. */
  datatype Request = Request(hit: Option<Answer>, caching: bool, prepared: Result<Prepared, Error>,
                             generation: Generation,
                             score: Option<real>, tenant: Option<string>)

  datatype Settings = Settings(gated: bool, threshold: real, maxTokens: nat, count: string -> nat)

  /**
  The clock readings of one request, in the order they are taken; `refused` and `noted` only
  by a breaker that refuses, or opens.
  */
  datatype Clock = Clock(charged: real, checked: real, refused: real, done: real, noted: real)

  function Joined(parts: seq<string>): string {
    if parts == [] then "" else Joined(parts[..|parts| - 1]) + parts[|parts| - 1]
  }

  /** `verdict.withholds`; an ungraded answer is never withheld. */
  predicate Withheld(s: Settings, score: Option<real>) {
    s.gated && score.Some? && score.value < s.threshold
  }

  function CachedEvents(hit: Answer): seq<Event> {
    [Meta(hit.mode), Token(if hit.text.Some? then hit.text.value else ""), Citations(hit.citations),
     Usage(hit.promptTokens, hit.completionTokens), Done]
  }

  function Tokens(parts: seq<string>): seq<Event> {
    seq(|parts|, i requires 0 <= i < |parts| => Token(parts[i]))
  }

  function WorstCase(s: Settings, prepared: Prepared): nat {
    s.count(prepared.prompt) + s.maxTokens
  }

  // ---- The stream as a function of its inputs ----

  datatype StreamResult = StreamResult(events: seq<Event>, outcome: Outcome, stored: Option<Answer>)

  /** The events up to the end of the model's deltas. */
  function Head(s: Settings, mode: Mode, deltas: seq<string>): seq<Event> {
    [Meta(mode)] + if s.gated then [] else Tokens(deltas)
  }

  /** The events of a generation that ran to its end, after those already sent. */
  function Concluded(s: Settings, head: seq<Event>, text: string, p: Prepared, q: Request): StreamResult {
    if Withheld(s, q.score) then StreamResult(head + [InsufficientEvidence, Done], Returned, None)
    else
      var cited := Resolved(text, p.citations);
      StreamResult(head + (if s.gated then [Token(text)] else [])
                   + [Citations(cited), Usage(s.count(p.prompt), s.count(text)), Done],
                   Returned,
                   if q.caching && p.mode.Full?
                   then Some(Answer(Some(text), cited, p.mode, s.count(p.prompt), s.count(text))) else None)
  }

  /** The events once the model has been called. */
  function Generated(s: Settings, q: Request, p: Prepared): StreamResult {
    var head := Head(s, p.mode, q.generation.deltas);
    match q.generation.failure
    case None => Concluded(s, head, Joined(q.generation.deltas), p, q)
    case Some(e) =>
      if e.Retryable() then StreamResult(head + [Failure(e)], Returned, None) else StreamResult(head, Raised(e), None)
  }

  function Streamed(s: Settings, q: Request, overBudget: bool, shed: bool): StreamResult {
    if q.hit.Some? then StreamResult(CachedEvents(q.hit.value), Returned, None)
    else
      match q.prepared
      case Err(e) => StreamResult([], Raised(e), None)
      case Ok(p) =>
        if overBudget then StreamResult([Meta(p.mode)], Raised(BudgetExceeded), None)
        else if shed then StreamResult([Meta(p.mode), Failure(CircuitOpen)], Returned, None)
        else Generated(s, q, p)
  }

  /** Whether the model is called at all. */
  predicate Reaches(q: Request, overBudget: bool) {
    q.hit.None? && q.prepared.Ok? && !overBudget
  }

  /** What the request reports to the breaker. A shed request reports its own refusal. */
  function Reported(q: Request, shed: bool, clock: Clock): Breaker.Op {
    if shed then Breaker.Failure(clock.done, clock.noted, true)
    else
      match q.generation.failure
      case Some(e) => Breaker.Failure(clock.done, clock.noted, e.Retryable())
      case None => Breaker.Success(clock.done)
  }

  /** The breaker hears about a request twice: when it asks, and when it is over. */
  function AfterAttempt(c: Breaker.Config, f: Breaker.Fields, q: Request, clock: Clock, shed: bool): Breaker.Fields {
    Breaker.Apply(c, Breaker.Apply(c, f, Breaker.Ask(clock.checked)), Reported(q, shed, clock))
  }

  /** The tenant is charged exactly for a generation that ran to its end, refused or not. */
  function Charged(perTenant: int, span: real, ledger: Budget.Ledger, q: Request, tokens: nat, at: real, shed: bool)
    : Budget.Ledger
  {
    if shed || q.generation.failure.Some? then ledger
    else Budget.AfterRecord(perTenant, span, ledger, Budget.Key(q.tenant), tokens, at)
  }

  /** What a stream is charged for. */
  function TokensStreamed(s: Settings, q: Request): nat
    requires q.prepared.Ok?
  {
    s.count(q.prepared.value.prompt) + s.count(Joined(q.generation.deltas))
  }

  // ---- The whole answer, as a function of its inputs ----

  /** The completion's own counts are the provider's. */
  datatype Completion = Completion(text: string, promptTokens: nat, completionTokens: nat)

  datatype Reply = Reply(result: Result<Answer, Error>, stored: Option<Answer>)

  /** `answer`: the same decisions, with the passages themselves as the last resort. */
  function Answered(s: Settings, q: Request, completion: Completion, overBudget: bool, shed: bool): Reply {
    if q.hit.Some? then Reply(Ok(q.hit.value), None)
    else
      match q.prepared
      case Err(e) => Reply(Err(e), None)
      case Ok(p) =>
        var extractive := Answer(Some(p.context), p.citations, Extractive, 0, 0);
        if overBudget then Reply(Err(BudgetExceeded), None)
        else if shed then Reply(Ok(extractive), None)
        else if q.generation.failure.Some? then
          (if q.generation.failure.value.Retryable() then Reply(Ok(extractive), None)
           else Reply(Err(q.generation.failure.value), None))
        else if Withheld(s, q.score) then Reply(Ok(Answer(None, [], p.mode, 0, 0)), None)
        else
          var a := Answer(Some(completion.text), Resolved(completion.text, p.citations), p.mode,
                          completion.promptTokens, completion.completionTokens);
          Reply(Ok(a), if q.caching && p.mode.Full? then Some(a) else None)
  }

  class GenerationService {
    const settings: Settings
    const breaker: Breaker.CircuitBreaker
    const governor: Budget.CostGovernor

    constructor (settings: Settings, breaker: Breaker.CircuitBreaker, governor: Budget.CostGovernor)
      ensures this.settings == settings && this.breaker == breaker && this.governor == governor
    {
      this.settings, this.breaker, this.governor := settings, breaker, governor;
    }

    ghost predicate OverBudget(p: Prepared, tenant: Option<string>, at: real)
      reads governor
    {
      !Budget.Judge(governor.perQuery, governor.perTenant, governor.span, governor.spent,
                    Budget.Key(tenant), WorstCase(settings, p), at).Admitted?
    }

    ghost predicate Sheds(at: real)
      reads breaker
    {
      Breaker.Refuses(breaker.config, breaker.Now(), at)
    }

    /** `_charge_budget`; with no budget configured the check is skipped altogether. */
    method ChargeBudget(p: Prepared, tenant: Option<string>, at: real) returns (refused: bool)
      modifies governor
      ensures refused <==> old(OverBudget(p, tenant, at))
      ensures governor.spent
                == old(Budget.AfterCheck(governor.perQuery, governor.perTenant, governor.span, governor.spent,
                                                      Budget.Key(tenant), WorstCase(settings, p), at))
    {
      refused := false;
      if governor.perQuery > 0 || governor.perTenant > 0 {
        var verdict := governor.Check(WorstCase(settings, p), tenant, at);
        refused := !verdict.Admitted?;
      }
    }

    method Stream(q: Request, clock: Clock) returns (r: StreamResult)
      modifies breaker, governor
      ensures var over := q.prepared.Ok? && old(OverBudget(q.prepared.value, q.tenant, clock.charged));
              var shed := old(Sheds(clock.checked));
              && r == Streamed(settings, q, over, shed)
              && breaker.Now()
                  == (if Reaches(q, over) then AfterAttempt(breaker.config, old(breaker.Now()), q, clock, shed)
                                   else old(breaker.Now()))
      ensures q.hit.Some? || q.prepared.Err? ==> governor.spent == old(governor.spent)
      ensures q.hit.None? && q.prepared.Ok? ==>
                var checked :=
                    old(Budget.AfterCheck(governor.perQuery, governor.perTenant, governor.span, governor.spent,
                                          Budget.Key(q.tenant), WorstCase(settings, q.prepared.value),
                                          clock.charged));
                governor.spent ==
                  if old(OverBudget(q.prepared.value, q.tenant, clock.charged)) then checked
                  else Charged(governor.perTenant, governor.span, checked, q, TokensStreamed(settings, q), clock.done,
                               old(Sheds(clock.checked)))
    {
      if q.hit.Some? {
        return StreamResult(CachedEvents(q.hit.value), Returned, None);
      }
      if q.prepared.Err? {
        return StreamResult([], Raised(q.prepared.error), None);
      }
      var p := q.prepared.value;
      var refused := ChargeBudget(p, q.tenant, clock.charged);
      if refused {
        return StreamResult([Meta(p.mode)], Raised(BudgetExceeded), None);
      }
      r := Attempt(q, clock);
    }

    /**
    `answer`: the whole answer at once. The budget and the breaker are asked, told and charged
    as by a stream, the tokens being those the provider counted.
    */
    method AnswerWhole(q: Request, completion: Completion, clock: Clock) returns (reply: Reply)
      modifies breaker, governor
      ensures var over := q.prepared.Ok? && old(OverBudget(q.prepared.value, q.tenant, clock.charged));
              var shed := old(Sheds(clock.checked));
              && reply == Answered(settings, q, completion, over, shed)
              && breaker.Now()
                  == (if Reaches(q, over) then AfterAttempt(breaker.config, old(breaker.Now()), q, clock, shed)
                      else old(breaker.Now()))
      ensures q.hit.Some? || q.prepared.Err? ==> governor.spent == old(governor.spent)
      ensures q.hit.None? && q.prepared.Ok? ==>
                var checked :=
                    old(Budget.AfterCheck(governor.perQuery, governor.perTenant, governor.span, governor.spent,
                                          Budget.Key(q.tenant), WorstCase(settings, q.prepared.value),
                                          clock.charged));
                governor.spent ==
                  if old(OverBudget(q.prepared.value, q.tenant, clock.charged)) then checked
                  else Charged(governor.perTenant, governor.span, checked, q,
                               completion.promptTokens + completion.completionTokens, clock.done,
                               old(Sheds(clock.checked)))
    {
      if q.hit.Some? {
        return Reply(Ok(q.hit.value), None);
      }
      if q.prepared.Err? {
        return Reply(Err(q.prepared.error), None);
      }
      var p := q.prepared.value;
      var refused := ChargeBudget(p, q.tenant, clock.charged);
      if refused {
        return Reply(Err(BudgetExceeded), None);
      }
      reply := Complete(q, p, completion, clock);
    }

    /** The `try` of `answer`, and what follows it. */
    method Complete(q: Request, p: Prepared, completion: Completion, clock: Clock) returns (reply: Reply)
      requires q.prepared == Ok(p) && q.hit.None?
      modifies breaker, governor
      ensures var shed := old(Sheds(clock.checked));
              && reply == Answered(settings, q, completion, false, shed)
              && breaker.Now() == AfterAttempt(breaker.config, old(breaker.Now()), q, clock, shed)
              && governor.spent
                  == Charged(governor.perTenant, governor.span, old(governor.spent), q,
                             completion.promptTokens + completion.completionTokens, clock.done, shed)
    {
      var extractive := Answer(Some(p.context), p.citations, Extractive, 0, 0);
      var admitted := breaker.Check(clock.checked, clock.refused);
      var failure := if admitted.Refused? then Some(CircuitOpen) else q.generation.failure;
      if failure.Some? {
        breaker.RecordFailure(failure.value.Retryable(), clock.done, clock.noted);
        return Reply(if failure.value.Retryable() then Ok(extractive) else Err(failure.value), None);
      }
      breaker.RecordSuccess(clock.done);
      governor.Record(completion.promptTokens + completion.completionTokens, q.tenant, clock.done);
      if Withheld(settings, q.score) {
        return Reply(Ok(Answer(None, [], p.mode, 0, 0)), None);
      }
      var cited, _ := ResolveCitations(completion.text, p.citations);
      var a := Answer(Some(completion.text), cited, p.mode, completion.promptTokens, completion.completionTokens);
      reply := Reply(Ok(a), if q.caching && p.mode.Full? then Some(a) else None);
    }

    /** From `breaker.check` on. */
    method Attempt(q: Request, clock: Clock) returns (r: StreamResult)
      requires q.prepared.Ok?
      modifies breaker, governor
      ensures var shed := old(Sheds(clock.checked));
              && r == (if shed then StreamResult([Meta(q.prepared.value.mode), Failure(CircuitOpen)], Returned, None)
                       else Generated(settings, q, q.prepared.value))
              && breaker.Now() == AfterAttempt(breaker.config, old(breaker.Now()), q, clock, shed)
              && governor.spent
                  == Charged(governor.perTenant, governor.span, old(governor.spent), q, TokensStreamed(settings, q),
                             clock.done, shed)
    {
      var p := q.prepared.value;
      var admitted := breaker.Check(clock.checked, clock.refused);
      if admitted.Refused? {
        breaker.RecordFailure(true, clock.done, clock.noted);
        return StreamResult([Meta(p.mode), Failure(CircuitOpen)], Returned, None);
      }
      r := Generate(q, clock);
    }

    /** From the first delta on. */
    method Generate(q: Request, clock: Clock) returns (r: StreamResult)
      requires q.prepared.Ok?
      modifies breaker, governor
      ensures r == Generated(settings, q, q.prepared.value)
      ensures breaker.Now() == Breaker.Apply(breaker.config, old(breaker.Now()), Reported(q, false, clock))
      ensures governor.spent
                == Charged(governor.perTenant, governor.span, old(governor.spent), q, TokensStreamed(settings, q),
                           clock.done, false)
    {
      var p := q.prepared.value;
      var events, parts := Relay(p.mode, q.generation.deltas);
      if q.generation.failure.Some? {
        var e := q.generation.failure.value;
        breaker.RecordFailure(e.Retryable(), clock.done, clock.noted);
        if !e.Retryable() {
          return StreamResult(events, Raised(e), None);
        }
        return StreamResult(events + [Failure(e)], Returned, None);
      }
      breaker.RecordSuccess(clock.done);
      var text := Joined(parts);
      governor.Record(settings.count(p.prompt) + settings.count(text), q.tenant, clock.done);
      r := Conclude(events, text, p, q);
    }

    /** The loop over the model's deltas: keep every part, and pass it on unless the answer is gated. */
    method Relay(mode: Mode, deltas: seq<string>) returns (events: seq<Event>, parts: seq<string>)
      ensures parts == deltas
      ensures events == Head(settings, mode, deltas)
    {
      events, parts := [Meta(mode)], [];
      for i := 0 to |deltas|
        invariant parts == deltas[..i]
        invariant events == Head(settings, mode, deltas[..i])
      {
        parts := parts + [deltas[i]];
        if !settings.gated {
          events := events + [Token(deltas[i])];
          assert Tokens(deltas[..i + 1]) == Tokens(deltas[..i]) + [Token(deltas[i])];
        }
      }
      assert deltas[..|deltas|] == deltas;
    }

    /** From the verdict on. */
    method Conclude(events: seq<Event>, text: string, p: Prepared, q: Request) returns (r: StreamResult)
      ensures r == Concluded(settings, events, text, p, q)
    {
      if Withheld(settings, q.score) {
        return StreamResult(events + [InsufficientEvidence, Done], Returned, None);
      }
      var cited, _ := ResolveCitations(text, p.citations);
      var usage := Usage(settings.count(p.prompt), settings.count(text));
      r := StreamResult(events + (if settings.gated then [Token(text)] else []) + [Citations(cited), usage, Done],
                        Returned, None);
      if q.caching && p.mode.Full? {
        r := r.(stored := Some(Answer(Some(text), cited, p.mode, usage.promptTokens, usage.completionTokens)));
      }
    }
  }

  // ---- The event grammar ----

  /** A reader of the documented order, independent of how the stream is produced. */
  datatype Phase = Begin | Answering | Refusing | Cited | Accounted | Finished | Failed | Broken

  function Next(phase: Phase, event: Event): Phase {
    match (phase, event)
    case (Begin, Meta(_)) => Answering
    case (Begin, Failure(_)) => Failed
    case (Answering, Token(_)) => Answering
    case (Answering, Failure(_)) => Failed
    case (Answering, InsufficientEvidence) => Refusing
    case (Refusing, Done) => Finished
    case (Answering, Citations(_)) => Cited
    case (Cited, Usage(_, _)) => Accounted
    case (Accounted, Done) => Finished
    case _ => Broken
  }

  function PhaseFrom(phase: Phase, events: seq<Event>): Phase
    decreases |events|
  {
    if events == [] then phase else PhaseFrom(Next(phase, events[0]), events[1..])
  }

  lemma {:induction false} PhaseOfConcat(phase: Phase, a: seq<Event>, b: seq<Event>)
    ensures PhaseFrom(phase, a + b) == PhaseFrom(PhaseFrom(phase, a), b)
    decreases |a|
  {
    if a == [] {
      assert a + b == b;
    } else {
      assert (a + b)[1..] == a[1..] + b;
      PhaseOfConcat(Next(phase, a[0]), a[1..], b);
    }
  }

  lemma {:induction false} TokensStayInAnswer(parts: seq<string>)
    ensures PhaseFrom(Answering, Tokens(parts)) == Answering
  {
    if parts != [] {
      assert Tokens(parts)[1..] == Tokens(parts[1..]);
      TokensStayInAnswer(parts[1..]);
    }
  }

  predicate Terminal(event: Event) {
    event.Done? || event.Failure?
  }

  /**
  A finished sequence ends in its only `done` and holds no `error`; a failed one ends in its
  only `error` and holds no `done`.
  */
  lemma {:induction false} TerminalIsLastAndOnly(phase: Phase, events: seq<Event>)
    requires phase !in {Finished, Failed, Broken} && PhaseFrom(phase, events) != Broken
    ensures var last := PhaseFrom(phase, events);
            && (last in {Finished, Failed} <==> exists i :: 0 <= i < |events| && Terminal(events[i]))
            && (forall i :: 0 <= i < |events| && Terminal(events[i]) ==>
                  i == |events| - 1 && (events[i].Done? <==> last == Finished))
    decreases |events|
  {
    if events != [] {
      var next := Next(phase, events[0]);
      if next in {Finished, Failed} {
        if |events| > 1 {
          assert Next(next, events[1]) == Broken;
          BrokenStaysBroken(events[1..][1..]);
        }
        assert Terminal(events[0]);
      } else {
        assert next != Broken by { BrokenStaysBroken(events[1..]); }
        TerminalIsLastAndOnly(next, events[1..]);
        assert forall i :: 0 < i < |events| ==> events[i] == events[1..][i - 1];
      }
    }
  }

  lemma {:induction false} BrokenStaysBroken(events: seq<Event>)
    ensures PhaseFrom(Broken, events) == Broken
  {
    if events != [] {
      BrokenStaysBroken(events[1..]);
    }
  }

  lemma {:induction false} HeadPhase(s: Settings, mode: Mode, deltas: seq<string>)
    ensures PhaseFrom(Begin, Head(s, mode, deltas)) == Answering
  {
    TokensStayInAnswer(deltas);
    PhaseOfConcat(Begin, [Meta(mode)], if s.gated then [] else Tokens(deltas));
  }

  function Ending(cited: seq<Citation>, prompt: nat, completion: nat): seq<Event> {
    [Citations(cited), Usage(prompt, completion), Done]
  }

  lemma {:induction false} EndingFacts(cited: seq<Citation>, prompt: nat, completion: nat)
    ensures PhaseFrom(Answering, Ending(cited, prompt, completion)) == Finished
    ensures Texts(Ending(cited, prompt, completion)) == []
  {
    var e := Ending(cited, prompt, completion);
    assert e[1..] == [Usage(prompt, completion), Done] && e[1..][1..] == [Done] && [Done][1..] == [];
    assert PhaseFrom(Cited, e[1..]) == PhaseFrom(Accounted, [Done]) == Finished;
    assert Texts([Done]) == [] && Texts(e[1..]) == [];
  }

  lemma {:induction false} RefusalFacts()
    ensures PhaseFrom(Answering, [InsufficientEvidence, Done]) == Finished
    ensures Texts([InsufficientEvidence, Done]) == []
  {
    assert [InsufficientEvidence, Done][1..] == [Done] && [Done][1..] == [];
    assert Texts([Done]) == [];
  }

  lemma {:induction false} CachedFacts(hit: Answer)
    ensures PhaseFrom(Begin, CachedEvents(hit)) == Finished
    ensures Texts(CachedEvents(hit)) == [if hit.text.Some? then hit.text.value else ""]
    ensures Joined(Texts(CachedEvents(hit))) == if hit.text.Some? then hit.text.value else ""
  {
    var text := if hit.text.Some? then hit.text.value else "";
    var ending := Ending(hit.citations, hit.promptTokens, hit.completionTokens);
    EndingFacts(hit.citations, hit.promptTokens, hit.completionTokens);
    assert CachedEvents(hit) == [Meta(hit.mode)] + ([Token(text)] + ending);
    PhaseOfConcat(Begin, [Meta(hit.mode)], [Token(text)] + ending);
    PhaseOfConcat(Answering, [Token(text)], ending);
    TextsOfConcat([Meta(hit.mode)], [Token(text)] + ending);
    TextsOfConcat([Token(text)], ending);
    assert Texts(CachedEvents(hit)) == [text];
    JoinedOne(text);
  }

  lemma {:induction false} ConcludedPhase(s: Settings, head: seq<Event>, text: string, p: Prepared, q: Request)
    requires PhaseFrom(Begin, head) == Answering
    ensures PhaseFrom(Begin, Concluded(s, head, text, p, q).events) == Finished
  {
    if Withheld(s, q.score) {
      RefusalFacts();
      PhaseOfConcat(Begin, head, [InsufficientEvidence, Done]);
    } else {
      var middle := if s.gated then [Token(text)] else [];
      EndingFacts(Resolved(text, p.citations), s.count(p.prompt), s.count(text));
      PhaseOfConcat(Begin, head + middle, Ending(Resolved(text, p.citations), s.count(p.prompt), s.count(text)));
      PhaseOfConcat(Begin, head, middle);
    }
  }

  lemma {:induction false} FailurePhase(head: seq<Event>, e: Error)
    requires PhaseFrom(Begin, head) == Answering
    ensures PhaseFrom(Begin, head + [Failure(e)]) == Failed
  {
    PhaseOfConcat(Begin, head, [Failure(e)]);
  }

  /** Where the stream of a request that reaches the model ends up. */
  lemma {:induction false} ReachedPhase(s: Settings, q: Request, shed: bool)
    requires Reaches(q, false)
    ensures PhaseFrom(Begin, Streamed(s, q, false, shed).events)
         == if shed then Failed
            else if q.generation.failure.None? then Finished
            else if q.generation.failure.value.Retryable() then Failed else Answering
  {
    var p := q.prepared.value;
    if shed {
      FailurePhase([Meta(p.mode)], CircuitOpen);
    } else {
      HeadPhase(s, p.mode, q.generation.deltas);
      GeneratedPhase(s, q, p);
    }
  }

  lemma {:induction false} GeneratedPhase(s: Settings, q: Request, p: Prepared)
    requires PhaseFrom(Begin, Head(s, p.mode, q.generation.deltas)) == Answering
    ensures PhaseFrom(Begin, Generated(s, q, p).events)
         == if q.generation.failure.None? then Finished
            else if q.generation.failure.value.Retryable() then Failed else Answering
  {
    var head := Head(s, p.mode, q.generation.deltas);
    match q.generation.failure {
      case None => ConcludedPhase(s, head, Joined(q.generation.deltas), p, q);
      case Some(e) => FailurePhase(head, e);
    }
  }

  /** Every stream follows the grammar: it finishes, or fails once, or raises before any terminal event. */
  lemma {:induction false} StreamFollowsTheGrammar(s: Settings, q: Request, overBudget: bool, shed: bool)
    ensures var r := Streamed(s, q, overBudget, shed);
            if r.outcome.Raised? then PhaseFrom(Begin, r.events) in {Begin, Answering}
            else PhaseFrom(Begin, r.events) in {Finished, Failed}
  {
    if q.hit.Some? {
      CachedFacts(q.hit.value);
    } else if Reaches(q, overBudget) {
      ReachedPhase(s, q, shed);
      if !shed {
        assert Streamed(s, q, overBudget, shed) == Generated(s, q, q.prepared.value);
      }
    }
  }

  // ---- The router ----

  /** `api/query._stream`: a raised typed error becomes one last frame. */
  function Framed(r: StreamResult): seq<Event> {
    match r.outcome
    case Returned => r.events
    case Raised(e) => r.events + [Failure(e)]
  }

  /** What a client sees always ends in exactly one `done` or exactly one `error`, and in nothing after it. */
  lemma {:induction false} EveryFramedStreamTerminates(s: Settings, q: Request, overBudget: bool, shed: bool)
    ensures var frames := Framed(Streamed(s, q, overBudget, shed));
            && frames != [] && Terminal(frames[|frames| - 1])
            && (forall i :: 0 <= i < |frames| - 1 ==> !Terminal(frames[i]))
            && PhaseFrom(Begin, frames) in {Finished, Failed}
  {
    var r := Streamed(s, q, overBudget, shed);
    StreamFollowsTheGrammar(s, q, overBudget, shed);
    if r.outcome.Raised? {
      PhaseOfConcat(Begin, r.events, [Failure(r.outcome.error)]);
    }
    TerminalIsLastAndOnly(Begin, Framed(r));
  }

  /** A budget refusal is not seen as a refused request: the client has had `meta`, and then gets an error frame. */
  lemma {:induction false} BudgetRefusalFollowsMeta(s: Settings, q: Request, overBudget: bool, shed: bool)
    requires q.prepared != Err(BudgetExceeded) && q.generation.failure != Some(BudgetExceeded)
    ensures q.hit.None? && q.prepared.Ok? && overBudget
       <==> Streamed(s, q, overBudget, shed).outcome == Raised(BudgetExceeded)
    ensures Streamed(s, q, overBudget, shed).outcome == Raised(BudgetExceeded) ==>
              Framed(Streamed(s, q, overBudget, shed)) == [Meta(q.prepared.value.mode), Failure(BudgetExceeded)]
  {
    if Reaches(q, overBudget) && !shed && q.generation.failure.None? {
      assert Generated(s, q, q.prepared.value).outcome == Returned;
    }
  }

  // ---- What the tokens say ----

  function Texts(events: seq<Event>): seq<string> {
    if events == [] then []
    else (if events[0].Token? then [events[0].text] else []) + Texts(events[1..])
  }

  lemma {:induction false} TextsOfConcat(a: seq<Event>, b: seq<Event>)
    ensures Texts(a + b) == Texts(a) + Texts(b)
  {
    if a == [] {
      assert a + b == b;
    } else {
      assert (a + b)[1..] == a[1..] + b;
      TextsOfConcat(a[1..], b);
    }
  }

  lemma {:induction false} TextsOfTokens(parts: seq<string>)
    ensures Texts(Tokens(parts)) == parts
  {
    if parts != [] {
      assert Tokens(parts)[1..] == Tokens(parts[1..]);
      TextsOfTokens(parts[1..]);
      assert parts == [parts[0]] + parts[1..];
    }
  }

  lemma {:induction false} HeadTexts(s: Settings, mode: Mode, deltas: seq<string>)
    ensures Texts(Head(s, mode, deltas)) == if s.gated then [] else deltas
  {
    TextsOfTokens(deltas);
    TextsOfConcat([Meta(mode)], if s.gated then [] else Tokens(deltas));
  }

  lemma {:induction false} JoinedOne(text: string)
    ensures Joined([text]) == text
  {
    assert [text][..0] == [];
    assert Joined([]) + text == text;
  }

  /**
  An answered stream spells out, token by token, the text its citations were resolved from;
  gating delays the text but does not change it.
  */
  lemma {:induction false} TokensSpellTheCitedAnswer(s: Settings, q: Request, overBudget: bool, shed: bool)
    requires Reaches(q, overBudget) && !shed && q.generation.failure.None? && !Withheld(s, q.score)
    ensures var events := Streamed(s, q, overBudget, shed).events;
            var text := Joined(q.generation.deltas);
            && Joined(Texts(events)) == text
            && |events| >= 3 && events[|events| - 3] == Citations(Resolved(text, q.prepared.value.citations))
  {
    var p, text := q.prepared.value, Joined(q.generation.deltas);
    var head := Head(s, p.mode, q.generation.deltas);
    ConcludedTexts(s, head, text, p, q);
    ConcludedEnding(s, head, text, p, q);
    SpokenText(s, p.mode, q.generation.deltas);
  }

  lemma {:induction false} SpokenText(s: Settings, mode: Mode, deltas: seq<string>)
    ensures Joined(Texts(Head(s, mode, deltas)) + if s.gated then [Joined(deltas)] else []) == Joined(deltas)
  {
    HeadTexts(s, mode, deltas);
    JoinedOne(Joined(deltas));
    assert deltas + [] == deltas && [] + [Joined(deltas)] == [Joined(deltas)];
  }

  lemma {:induction false} ConcludedEnding(s: Settings, head: seq<Event>, text: string, p: Prepared, q: Request)
    requires !Withheld(s, q.score)
    ensures var events := Concluded(s, head, text, p, q).events;
            && |events| >= |head| + 3
            && events[|events| - 3..] == Ending(Resolved(text, p.citations), s.count(p.prompt), s.count(text))
  {
  }

  lemma {:induction false} ConcludedTexts(s: Settings, head: seq<Event>, text: string, p: Prepared, q: Request)
    ensures Texts(Concluded(s, head, text, p, q).events)
         == Texts(head) + if !Withheld(s, q.score) && s.gated then [text] else []
  {
    if Withheld(s, q.score) {
      RefusalFacts();
      TextsOfConcat(head, [InsufficientEvidence, Done]);
    } else {
      var middle := if s.gated then [Token(text)] else [];
      EndingFacts(Resolved(text, p.citations), s.count(p.prompt), s.count(text));
      TextsOfConcat(head + middle, Ending(Resolved(text, p.citations), s.count(p.prompt), s.count(text)));
      TextsOfConcat(head, middle);
    }
  }

  /**
  Grounded or refuse: nothing new is said before the verdict, and a withheld answer is never
  said. A cache hit is said at once, as it was stored.
  */
  lemma {:induction false} GatedStreamSpeaksOnlyAfterTheVerdict(s: Settings, q: Request, overBudget: bool, shed: bool)
    requires s.gated
    ensures var r := Streamed(s, q, overBudget, shed);
            Texts(r.events) == if q.hit.Some? then [if q.hit.value.text.Some? then q.hit.value.text.value else ""]
                               else if Reaches(q, overBudget) && !shed && q.generation.failure.None?
                                       && !Withheld(s, q.score)
                               then [Joined(q.generation.deltas)] else []
  {
    if q.hit.Some? {
      CachedFacts(q.hit.value);
    }
    if Reaches(q, overBudget) {
      var p, text := q.prepared.value, Joined(q.generation.deltas);
      var head := Head(s, p.mode, q.generation.deltas);
      TextsOfConcat([Meta(p.mode)], [Failure(CircuitOpen)]);
      HeadTexts(s, p.mode, q.generation.deltas);
      ConcludedTexts(s, head, text, p, q);
      if q.generation.failure.Some? {
        TextsOfConcat(head, [Failure(q.generation.failure.value)]);
      }
    }
  }

  // ---- Grounded or refuse ----

  /** Nothing speaks against the answer: it is not gated, was not graded, or was graded high enough. */
  predicate Grounded(s: Settings, score: Option<real>) {
    !s.gated || score.None? || score.value >= s.threshold
  }

  /** The stream ends as an answer with these citations and counts, and says this text. */
  ghost predicate SaysInFull(events: seq<Event>, text: string, cited: seq<Citation>, prompt: nat, completion: nat) {
    && Joined(Texts(events)) == text && InsufficientEvidence !in events
    && |events| >= 3 && events[|events| - 3..] == [Citations(cited), Usage(prompt, completion), Done]
  }

  /**
  A stream that ran to its end says the answer exactly when it is grounded, with its own citations
  and token counts; otherwise it does not say a word of it, and nothing is kept.
  */
  lemma {:induction false} StreamSaysExactlyWhenGrounded(s: Settings, q: Request)
    requires Reaches(q, false) && q.generation.failure.None?
    ensures var p, text, r := q.prepared.value, Joined(q.generation.deltas), Streamed(s, q, false, false);
            if Grounded(s, q.score)
            then SaysInFull(r.events, text, Resolved(text, p.citations), s.count(p.prompt), s.count(text))
            else r.events == [Meta(p.mode), InsufficientEvidence, Done] && r.stored.None?
  {
    var p, text := q.prepared.value, Joined(q.generation.deltas);
    var head := Head(s, p.mode, q.generation.deltas);
    assert Streamed(s, q, false, false) == Concluded(s, head, text, p, q);
    if Grounded(s, q.score) {
      TokensSpellTheCitedAnswer(s, q, false, false);
      ConcludedEnding(s, head, text, p, q);
      NoRefusalInHead(s, p.mode, q.generation.deltas);
      NoRefusalWhenSaid(s, head, text, p, q);
    } else {
      RefusedAtOnce(s, text, p, q);
    }
  }

  lemma {:induction false} RefusedAtOnce(s: Settings, text: string, p: Prepared, q: Request)
    requires !Grounded(s, q.score)
    ensures Concluded(s, [Meta(p.mode)] + [], text, p, q)
         == StreamResult([Meta(p.mode), InsufficientEvidence, Done], Returned, None)
  {
  }

  lemma {:induction false} NoRefusalInHead(s: Settings, mode: Mode, deltas: seq<string>)
    ensures InsufficientEvidence !in Head(s, mode, deltas)
  {
  }

  lemma {:induction false} NoRefusalWhenSaid(s: Settings, head: seq<Event>, text: string, p: Prepared, q: Request)
    requires Grounded(s, q.score) && InsufficientEvidence !in head
    ensures InsufficientEvidence !in Concluded(s, head, text, p, q).events
  {
  }

  /** And the whole answer likewise: the two say, and withhold, the same answers. */
  lemma {:induction false} SaidExactlyWhenGrounded(s: Settings, q: Request, completion: Completion)
    requires Reaches(q, false) && q.generation.failure.None?
    ensures var p, text := q.prepared.value, Joined(q.generation.deltas);
            var r, reply := Streamed(s, q, false, false), Answered(s, q, completion, false, false);
            if Grounded(s, q.score) then
              && SaysInFull(r.events, text, Resolved(text, p.citations), s.count(p.prompt), s.count(text))
              && reply.result
                 == Ok(Answer(Some(completion.text), Resolved(completion.text, p.citations), p.mode,
                              completion.promptTokens, completion.completionTokens))
            else
              && r.events == [Meta(p.mode), InsufficientEvidence, Done] && r.stored.None?
              && reply == Reply(Ok(Answer(None, [], p.mode, 0, 0)), None)
  {
    StreamSaysExactlyWhenGrounded(s, q);
  }

  /** An answer said at one score is said, word for word, at every higher one. */
  lemma {:induction false} HigherScoresSayTheSame(s: Settings, q: Request, completion: Completion, low: real,
                                                  high: real)
    requires Reaches(q, false) && q.generation.failure.None? && low <= high
    requires InsufficientEvidence !in Streamed(s, q.(score := Some(low)), false, false).events
    ensures Streamed(s, q.(score := Some(high)), false, false) == Streamed(s, q.(score := Some(low)), false, false)
    ensures Answered(s, q.(score := Some(high)), completion, false, false)
         == Answered(s, q.(score := Some(low)), completion, false, false)
  {
    SaidExactlyWhenGrounded(s, q.(score := Some(low)), completion);
  }

  // ---- The cache ----

  /** Only a whole answer of a full-quality run is kept. */
  lemma {:induction false} StoredExactlyWhenAnsweredInFull(s: Settings, q: Request, overBudget: bool, shed: bool)
    ensures Streamed(s, q, overBudget, shed).stored.Some?
       <==> && Reaches(q, overBudget) && !shed && q.generation.failure.None? && !Withheld(s, q.score)
            && q.caching && q.prepared.value.mode.Full?
  {
  }

  /** A later hit replays what the first client was told: the same text, the same citations, the same counts. */
  lemma {:induction false} HitReplaysTheStoredStream(s: Settings, q: Request, overBudget: bool, shed: bool)
    requires Streamed(s, q, overBudget, shed).stored.Some?
    ensures var first := Streamed(s, q, overBudget, shed);
            var replay := CachedEvents(first.stored.value);
            && Joined(Texts(replay)) == Joined(Texts(first.events))
            && |first.events| >= 3 && replay[|replay| - 3..] == first.events[|first.events| - 3..]
            && PhaseFrom(Begin, replay) == Finished
  {
    TokensSpellTheCitedAnswer(s, q, overBudget, shed);
    CachedFacts(Streamed(s, q, overBudget, shed).stored.value);
  }

  // ---- The stream and the whole answer ----

  /** Both ways of asking raise the same errors, and keep an answer for the cache in the same cases. */
  lemma {:induction false} StreamAndAnswerRaiseAlike(s: Settings, q: Request, completion: Completion, overBudget: bool,
                                                     shed: bool)
    ensures var r, reply := Streamed(s, q, overBudget, shed), Answered(s, q, completion, overBudget, shed);
            && (if r.outcome.Raised? then reply.result == Err(r.outcome.error) else reply.result.Ok?)
            && (r.stored.Some? <==> reply.stored.Some?)
  {
  }

  lemma {:induction false} AnsweredTextIsSpoken(s: Settings, q: Request, completion: Completion)
    requires Reaches(q, false) && q.generation.failure.None? && completion.text == Joined(q.generation.deltas)
    ensures Joined(Texts(Streamed(s, q, false, false).events)) == if Withheld(s, q.score) then "" else completion.text
  {
    if Withheld(s, q.score) {
      GatedStreamSpeaksOnlyAfterTheVerdict(s, q, false, false);
    } else {
      TokensSpellTheCitedAnswer(s, q, false, false);
    }
  }

  /**
  Otherwise they refuse the same answers and say the same text, and part only where the
  model fails retryably, which the stream reports as an error and the whole answer covers
  with the retrieved passages.
  */
  lemma {:induction false} StreamAgreesWithWholeAnswer(s: Settings, q: Request, completion: Completion,
                                                       overBudget: bool, shed: bool)
    requires completion.text == Joined(q.generation.deltas)
    requires Answered(s, q, completion, overBudget, shed).result.Ok?
    ensures var events := Streamed(s, q, overBudget, shed).events;
            var a := Answered(s, q, completion, overBudget, shed).result.value;
            var failed := q.hit.None? && (shed || q.generation.failure.Some?);
            && (PhaseFrom(Begin, events) == if failed then Failed else Finished)
            && (failed ==> a == Answer(Some(q.prepared.value.context), q.prepared.value.citations, Extractive, 0, 0))
            && (!failed ==> Joined(Texts(events)) == if a.text.Some? then a.text.value else "")
  {
    if q.hit.Some? {
      CachedFacts(q.hit.value);
    } else {
      ReachedPhase(s, q, shed);
      if !shed && q.generation.failure.None? {
        AnsweredTextIsSpoken(s, q, completion);
      }
    }
  }

  // ---- What a request costs ----

  /**
  A stream is charged no more than it was checked for exactly when its completion keeps to the
  maximum that is asked of the model; what is charged beyond that is what the completion is longer.
  */
  lemma {:induction false} ChargedWithinTheCheckExactly(s: Settings, q: Request)
    requires q.prepared.Ok?
    ensures TokensStreamed(s, q) - WorstCase(s, q.prepared.value) == s.count(Joined(q.generation.deltas)) - s.maxTokens
    ensures WorstCase(s, q.prepared.value) >= s.maxTokens && TokensStreamed(s, q) >= s.count(q.prepared.value.prompt)
  {
  }

  /** A generation that ran to its end is one more charge to its tenant, and anything else none to anybody. */
  lemma {:induction false} ChargedExactlyForWhatRanToItsEnd(perTenant: int, span: real, ledger: Budget.Ledger,
                                                            q: Request, tokens: nat, at: real, shed: bool,
                                                            other: string)
    requires perTenant > 0 && tokens > 0
    ensures var after, key := Charged(perTenant, span, ledger, q, tokens, at, shed), Budget.Key(q.tenant);
            && (shed || q.generation.failure.Some? ==> after == ledger)
            && (!shed && q.generation.failure.None? ==>
                  Budget.Entries(after, key)
                  == Budget.Evict(Budget.Entries(ledger, key), at, span) + [Budget.Charge(at, tokens)])
            && (other != key ==> Budget.Entries(after, other) == Budget.Entries(ledger, other))
  {
  }

  // ---- The breaker over a request ----

  /**
  What a request that was let through tells the breaker: a generation that ran to its end closes
  it and forgets all failures; a failure no retry would mend leaves it as the check found it; any
  other counts, and opens it at the threshold, or at once when it was the probe.
  */
  lemma {:induction false} BreakerHearsHowItEnded(c: Breaker.Config, f: Breaker.Fields, q: Request, clock: Clock)
    requires c.Valid() && c.enabled && clock.checked <= clock.done <= clock.noted
        && !Breaker.Refuses(c, f, clock.checked)
    ensures var found := Breaker.Wait(Breaker.Abstract(c, f), clock.checked);
            var after := Breaker.Abstract(c, AfterAttempt(c, f, q, clock, false));
            match q.generation.failure
            case None => after == Breaker.Healthy(0)
            case Some(e) =>
              if !e.Retryable() then after == found
              else if found.Healthy? && found.strikes + 1 < c.threshold then after == Breaker.Healthy(found.strikes + 1)
              else after == Breaker.Shedding(clock.noted + c.Timeout())
  {
    Breaker.SettledMatches(c, f, clock.checked);
    Breaker.ExpiryIsADeadline(c, f, clock.checked);
  }

  /**
  A shed request never calls the provider, yet if it reports back after the shedding period
  it opens the breaker for another whole period; earlier, it changes nothing an observer sees.
  */
  lemma {:induction false} ShedRequestProlongsTheOutageExactlyWhenLate(c: Breaker.Config, f: Breaker.Fields, q: Request,
        clock: Clock)
    requires c.Valid() && c.enabled && clock.checked <= clock.done <= clock.noted
        && Breaker.Refuses(c, f, clock.checked)
    ensures Breaker.Abstract(c, AfterAttempt(c, f, q, clock, true)) == Breaker.Abstract(c, f)
       <==> clock.done < f.openedAt + c.Timeout()
  {
    Breaker.ExpiryIsADeadline(c, f, clock.checked);
    Breaker.ExpiryIsADeadline(c, f, clock.done);
  }
}
