/**
What a resumed ingest completes: the parse loop of workers/cpu_pool.py, the in-memory queue
and embedding pool behind it, and the journal checkpoint of services/ingestion.py, with
content deduplication on or off. Documents are named by their position in the corpus.
*/
module IngestResume {
  import opened Wrappers
  import opened Journal

  /** The content hash of each document, or none for one that cannot be parsed. */
  type Corpus = seq<Option<string>>

  /**
  How far the loop is with the document at the cursor: not begun, put in the queue, or done
  but for the progress call.
  */
  datatype Stage = Ready | Queued | Recorded

  /**
  `disk` is the collection's content-hash file, `resume` the checkpoint on disk, `dead` the
  dead letters; `cursor`, `memory` and `flying` (parsed, not yet written to the index) die
  with the process.
  */
  datatype Pipeline = Pipeline(cursor: nat, stage: Stage, memory: set<string>, flying: set<nat>,
                               disk: set<string>, resume: nat, indexed: set<nat>, dead: set<nat>)

  const Start := Pipeline(0, Ready, {}, {}, {}, 0, {}, {})

  /** An embedding batch that was given up becomes a dead letter at the end of the run. */
  datatype Event = Parse | Record | Note | Written(document: nat) | GiveUp(document: nat) | Crash

  predicate Legal(content: Corpus, p: Pipeline, e: Event) {
    match e
    case Parse => p.stage.Ready? && p.cursor < |content|
    case Record => p.stage.Queued? && p.cursor < |content| && content[p.cursor].Some?
    case Note => p.stage.Recorded?
    case Written(i) => i in p.flying
    case GiveUp(i) => i in p.flying && p.cursor == |content|
    case Crash => true
  }

  function Parsed(content: Corpus, p: Pipeline): Pipeline
    requires p.cursor < |content|
  {
    match content[p.cursor]
    case None => p.(stage := Recorded, dead := p.dead + {p.cursor})
    case Some(c) =>
      if c in p.memory then p.(stage := Recorded)
      else p.(stage := Queued, memory := p.memory + {c}, flying := p.flying + {p.cursor})
  }

  function Step(dedup: bool, content: Corpus, every: Interval, p: Pipeline, e: Event): Pipeline
    requires Legal(content, p, e)
  {
    match e
    case Parse => Parsed(content, p)
    case Record => p.(stage := Recorded, disk := if dedup then p.disk + {content[p.cursor].value} else p.disk)
    case Note => p.(stage := Ready, cursor := p.cursor + 1,
                    resume := if Due(p.cursor, every) then p.cursor + 1 else p.resume)
    case Written(i) => p.(flying := p.flying - {i}, indexed := p.indexed + {i})
    case GiveUp(i) => p.(flying := p.flying - {i}, dead := p.dead + {i})
    case Crash => p.(cursor := p.resume, stage := Ready, memory := if dedup then p.disk else {}, flying := {})
  }

  ghost predicate Run(dedup: bool, content: Corpus, every: Interval, p: Pipeline, es: seq<Event>)
    decreases |es|
  {
    es == [] || (Legal(content, p, es[0]) && Run(dedup, content, every, Step(dedup, content, every, p, es[0]), es[1..]))
  }

  function After(dedup: bool, content: Corpus, every: Interval, p: Pipeline, es: seq<Event>): Pipeline
    requires Run(dedup, content, every, p, es)
    decreases |es|
  {
    if es == [] then p else After(dedup, content, every, Step(dedup, content, every, p, es[0]), es[1..])
  }

  /** The run is over: every document was parsed or skipped, and the queue has drained. */
  predicate Finished(content: Corpus, p: Pipeline) {
    p.cursor == |content| && p.flying == {}
  }

  /** One of these documents has the content. */
  ghost predicate Has(content: Corpus, documents: set<nat>, c: string) {
    exists i :: i in documents && i < |content| && content[i] == Some(c)
  }

  /** The content is in the index or reported as dead. */
  ghost predicate Settled(content: Corpus, p: Pipeline, c: string) {
    Has(content, p.indexed, c) || Has(content, p.dead, c)
  }

  /** All that can be parsed is in the index or reported as dead. */
  ghost predicate Covered(content: Corpus, p: Pipeline) {
    forall c :: Some(c) in content ==> Settled(content, p, c)
  }

  /** No document from `n` on has the content. */
  ghost predicate Behind(content: Corpus, n: nat, c: string) {
    forall i :: n <= i < |content| ==> content[i] != Some(c)
  }

  /**
  A run that starts now will not put the content in its queue: it is remembered, or all its
  documents are checkpointed.
  */
  ghost predicate PassedOver(dedup: bool, content: Corpus, p: Pipeline, c: string) {
    (dedup && c in p.disk) || Behind(content, p.resume, c)
  }

  /** A crash here costs nothing: whatever is in flight and not settled will be parsed again. */
  ghost predicate Harmless(dedup: bool, content: Corpus, p: Pipeline) {
    forall c :: Has(content, p.flying, c) && !Settled(content, p, c) ==> !PassedOver(dedup, content, p, c)
  }

  ghost predicate CrashesAreHarmless(dedup: bool, content: Corpus, every: Interval, p: Pipeline, es: seq<Event>)
    requires Run(dedup, content, every, p, es)
    decreases |es|
  {
    es == [] ||
    ((es[0].Crash? ==> Harmless(dedup, content, p))
     && CrashesAreHarmless(dedup, content, every, Step(dedup, content, every, p, es[0]), es[1..]))
  }

  // ---- What a run keeps ----

  /** Settled, or on its way. */
  ghost predicate Reached(content: Corpus, p: Pipeline, c: string) {
    Settled(content, p, c) || Has(content, p.flying, c)
  }

  /** The first document the loop has not looked at. */
  function Next(p: Pipeline): nat {
    if p.stage.Ready? then p.cursor else p.cursor + 1
  }

  ghost predicate Consistent(dedup: bool, content: Corpus, p: Pipeline) {
    && p.resume <= p.cursor && Next(p) <= |content|
    && (p.stage.Queued? ==> content[p.cursor].Some? && Reached(content, p, content[p.cursor].value))
    && (if dedup then Remembers(content, p) else Recalls(content, p))
  }

  /** With deduplication: every document passed is on disk, and memory is what is on disk, or about to be. */
  ghost predicate Remembers(content: Corpus, p: Pipeline)
    requires Next(p) <= |content| && (p.stage.Queued? ==> content[p.cursor].Some?)
  {
    && p.memory == p.disk + (if p.stage.Queued? then {content[p.cursor].value} else {})
    && forall i :: 0 <= i < Next(p) && content[i].Some? && !(i == p.cursor && p.stage.Queued?) ==>
        content[i].value in p.disk
  }

  /** Without: what this run has parsed is in memory, and all that is in memory is settled or on its way. */
  ghost predicate Recalls(content: Corpus, p: Pipeline)
    requires Next(p) <= |content|
  {
    && (forall c :: c in p.memory ==> Reached(content, p, c))
    && forall i :: p.resume <= i < Next(p) && content[i].Some? ==> content[i].value in p.memory
  }

  /** Neither settled nor on its way, and the loop will not take it up. */
  ghost predicate Lost(dedup: bool, content: Corpus, p: Pipeline, c: string) {
    && Some(c) in content && !Reached(content, p, c)
    && ((dedup && c in p.disk) || Behind(content, Next(p), c))
  }

  ghost predicate AnyLost(dedup: bool, content: Corpus, p: Pipeline) {
    exists c :: Lost(dedup, content, p, c)
  }

  lemma {:induction false} HasAlso(content: Corpus, documents: set<nat>, i: nat, c: string)
    ensures Has(content, documents + {i}, c) <==> Has(content, documents, c) || (i < |content| && content[i] == Some(c))
  {
    if Has(content, documents, c) {
      var j :| j in documents && j < |content| && content[j] == Some(c);
      assert j in documents + {i};
    }
    assert i in documents + {i};
  }

  /** A document that leaves the queue for the index or the dead letters is still reached. */
  lemma {:induction false} LandingReaches(dedup: bool, content: Corpus, every: Interval, p: Pipeline, e: Event,
                                          c: string)
    requires Legal(content, p, e) && (e.Written? || e.GiveUp?)
    ensures Reached(content, Step(dedup, content, every, p, e), c) <==> Reached(content, p, c)
  {
    var i := e.document;
    HasAlso(content, p.indexed, i, c);
    HasAlso(content, p.dead, i, c);
    HasAlso(content, p.flying - {i}, i, c);
    assert p.flying - {i} + {i} == p.flying;
  }

  /** Parsing reaches the content it puts in the queue, and nothing else. */
  lemma {:induction false} ParsingReaches(content: Corpus, p: Pipeline, c: string)
    requires p.cursor < |content|
    ensures Reached(content, Parsed(content, p), c) <==>
              Reached(content, p, c) || (content[p.cursor] == Some(c) && c !in p.memory)
  {
    HasAlso(content, p.flying, p.cursor, c);
    HasAlso(content, p.dead, p.cursor, c);
  }

  /** A step that is neither a parse nor a crash. */
  lemma {:induction false} QuietStep(dedup: bool, content: Corpus, every: Interval, p: Pipeline, e: Event)
    requires Consistent(dedup, content, p) && Legal(content, p, e) && !e.Parse? && !e.Crash?
    ensures Consistent(dedup, content, Step(dedup, content, every, p, e))
    ensures forall c :: Lost(dedup, content, Step(dedup, content, every, p, e), c) <==> Lost(dedup, content, p, c)
  {
    var q := Step(dedup, content, every, p, e);
    forall c ensures Reached(content, q, c) <==> Reached(content, p, c) {
      if e.Written? || e.GiveUp? {
        LandingReaches(dedup, content, every, p, e, c);
      }
    }
  }

  lemma {:induction false} ParseStep(dedup: bool, content: Corpus, every: Interval, p: Pipeline)
    requires Consistent(dedup, content, p) && Legal(content, p, Parse)
    ensures Consistent(dedup, content, Parsed(content, p))
    ensures forall c :: Lost(dedup, content, Parsed(content, p), c) <==> Lost(dedup, content, p, c)
  {
    forall c
      ensures Reached(content, Parsed(content, p), c) <==>
                Reached(content, p, c) || (content[p.cursor] == Some(c) && c !in p.memory)
    {
      ParsingReaches(content, p, c);
    }
  }

  /** What a crash loses is what it finds in flight and no later run takes up. */
  lemma {:induction false} CrashLoses(dedup: bool, content: Corpus, every: Interval, p: Pipeline, c: string)
    requires Consistent(dedup, content, p)
    ensures Lost(dedup, content, Step(dedup, content, every, p, Crash), c) <==>
              Lost(dedup, content, p, c)
              || (Has(content, p.flying, c) && !Settled(content, p, c) && PassedOver(dedup, content, p, c))
  {
    if Behind(content, p.resume, c) {
      assert Behind(content, Next(p), c);
    }
    if Lost(dedup, content, p, c) && !(dedup && c in p.disk) {
      forall i | p.resume <= i < |content| ensures content[i] != Some(c) {
      }
    }
  }

  lemma {:induction false} CrashStep(dedup: bool, content: Corpus, every: Interval, p: Pipeline)
    requires Consistent(dedup, content, p)
    ensures Consistent(dedup, content, Step(dedup, content, every, p, Crash))
  {
  }

  lemma {:induction false} StepLoses(dedup: bool, content: Corpus, every: Interval, p: Pipeline, e: Event)
    requires Consistent(dedup, content, p) && Legal(content, p, e)
    ensures Consistent(dedup, content, Step(dedup, content, every, p, e))
    ensures AnyLost(dedup, content, Step(dedup, content, every, p, e))
       <==> AnyLost(dedup, content, p) || (e.Crash? && !Harmless(dedup, content, p))
  {
    var q := Step(dedup, content, every, p, e);
    if e.Crash? {
      CrashStep(dedup, content, every, p);
      forall c
        ensures Lost(dedup, content, q, c) <==>
                  Lost(dedup, content, p, c)
                  || (Has(content, p.flying, c) && !Settled(content, p, c) && PassedOver(dedup, content, p, c))
      {
        CrashLoses(dedup, content, every, p, c);
      }
    } else if e.Parse? {
      ParseStep(dedup, content, every, p);
    } else {
      QuietStep(dedup, content, every, p, e);
    }
    if c :| Lost(dedup, content, p, c) {
      assert Lost(dedup, content, q, c);
    }
    if c :| Lost(dedup, content, q, c) {
      assert Lost(dedup, content, p, c) || e.Crash?;
    }
  }

  lemma {:induction false} LossesAreHarmfulCrashes(dedup: bool, content: Corpus, every: Interval, p: Pipeline,
                                                   es: seq<Event>)
    requires Run(dedup, content, every, p, es) && Consistent(dedup, content, p)
    ensures Consistent(dedup, content, After(dedup, content, every, p, es))
    ensures AnyLost(dedup, content, After(dedup, content, every, p, es))
       <==> AnyLost(dedup, content, p) || !CrashesAreHarmless(dedup, content, every, p, es)
    decreases |es|
  {
    if es != [] {
      StepLoses(dedup, content, every, p, es[0]);
      LossesAreHarmfulCrashes(dedup, content, every, Step(dedup, content, every, p, es[0]), es[1..]);
    }
  }

  /** When a run is over, what is not settled is lost. */
  lemma {:induction false} UnsettledIsLost(dedup: bool, content: Corpus, p: Pipeline, c: string)
    requires Finished(content, p) && Consistent(dedup, content, p)
    ensures Lost(dedup, content, p, c) <==> Some(c) in content && !Settled(content, p, c)
  {
  }

  /**
  Crashing and resuming any number of times settles the whole corpus, in the index or as
  dead letters, exactly when every crash was harmless. Content lost to one that was not is
  remembered as ingested, or lies below the checkpoint, on every later run.
  */
  lemma {:induction false} ResumeCompletesExactlyWhenCrashesAreHarmless(dedup: bool, content: Corpus, every: Interval,
        es: seq<Event>)
    requires Run(dedup, content, every, Start, es) && Finished(content, After(dedup, content, every, Start, es))
    ensures Covered(content, After(dedup, content, every, Start, es))
       <==> CrashesAreHarmless(dedup, content, every, Start, es)
  {
    var t := After(dedup, content, every, Start, es);
    LossesAreHarmfulCrashes(dedup, content, every, Start, es);
    forall c ensures Lost(dedup, content, t, c) <==> Some(c) in content && !Settled(content, t, c) {
      UnsettledIsLost(dedup, content, t, c);
    }
    assert forall c :: !Lost(dedup, content, Start, c);
  }

  /** Every document passed so far that cannot be parsed is reported. */
  ghost predicate Reported(content: Corpus, p: Pipeline) {
    && p.resume <= p.cursor
    && forall i :: 0 <= i < Next(p) && i < |content| && content[i].None? ==> i in p.dead
  }

  lemma {:induction false} StepReports(dedup: bool, content: Corpus, every: Interval, p: Pipeline, e: Event)
    requires Reported(content, p) && Legal(content, p, e)
    ensures Reported(content, Step(dedup, content, every, p, e))
  {
  }

  /** Whatever crashes, when a run is over every document that cannot be parsed is among the dead letters. */
  lemma {:induction false} UnparsableDocumentsAreReported(dedup: bool, content: Corpus, every: Interval, p: Pipeline,
                                                          es: seq<Event>)
    requires Run(dedup, content, every, p, es) && Reported(content, p)
    ensures Reported(content, After(dedup, content, every, p, es))
    ensures var t := After(dedup, content, every, p, es);
            Finished(content, t) ==> forall i :: 0 <= i < |content| && content[i].None? ==> i in t.dead
    decreases |es|
  {
    if es != [] {
      StepReports(dedup, content, every, p, es[0]);
      UnparsableDocumentsAreReported(dedup, content, every, Step(dedup, content, every, p, es[0]), es[1..]);
    }
  }

  /**
  One document and a crash at the wrong moment are enough, with deduplication or without: the
  resumed run has nothing to do.
  */
  lemma {:induction false} AParsedDocumentCanBeLost(dedup: bool)
    ensures var es, content := [Parse, Record, Note, Crash], [Some("h")];
            && Run(dedup, content, 1, Start, es)
            && var t := After(dedup, content, 1, Start, es); Finished(content, t) && t.indexed == {} && t.dead == {}
  {
    var content := [Some("h")];
    var p1 := Step(dedup, content, 1, Start, Parse);
    var p2 := Step(dedup, content, 1, p1, Record);
    var p3 := Step(dedup, content, 1, p2, Note);
    var p4 := Step(dedup, content, 1, p3, Crash);
    assert [Parse, Record, Note, Crash][1..] == [Record, Note, Crash] && [Record, Note, Crash][1..] == [Note, Crash];
    assert [Note, Crash][1..] == [Crash] && [Crash][1..] == [];
    assert Run(dedup, content, 1, p4, []) && After(dedup, content, 1, p4, []) == p4;
    assert Run(dedup, content, 1, p3, [Crash]) && After(dedup, content, 1, p3, [Crash]) == p4;
    assert Run(dedup, content, 1, p2, [Note, Crash]) && After(dedup, content, 1, p2, [Note, Crash]) == p4;
    assert Run(dedup, content, 1, p1, [Record, Note, Crash])
        && After(dedup, content, 1, p1, [Record, Note, Crash]) == p4;
  }
}
