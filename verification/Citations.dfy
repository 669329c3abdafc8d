/** Citation markers and their resolution, core/generation.py. */
module Citations {
  import opened Wrappers
  import opened Context
  import opened Text

  predicate MarkerChar(c: char) {
    'A' <= c <= 'Z' || 'a' <= c <= 'z' || '0' <= c <= '9' || c == '_' || c == '-'
  }

  function CitationMarker(chunkId: string): string {
    "[^" + chunkId + "]"
  }

  function MarkerRun(s: string): (k: nat)
    ensures k <= |s| && (forall i :: 0 <= i < k ==> MarkerChar(s[i])) && (k < |s| ==> !MarkerChar(s[k]))
  {
    if s == "" || !MarkerChar(s[0]) then 0 else 1 + MarkerRun(s[1..])
  }

  /** The id of a marker that starts `s`, or the empty string. */
  function MarkerAt(s: string): (id: string)
    ensures id != "" ==> CitationMarker(id) <= s
  {
    if |s| < 2 || s[0] != '[' || s[1] != '^' then ""
    else
      var k := MarkerRun(s[2..]);
      if 2 + k < |s| && s[2 + k] == ']' then
        assert s[..3 + k] == "[^" + s[2..2 + k] + "]";
        s[2..2 + k]
      else ""
  }

  /** What the search finds at the front of `s`, if anything. */
  function Found(s: string): seq<string> {
    if MarkerAt(s) != "" then [MarkerAt(s)] else []
  }

  /** How far it moves on. */
  function FirstStep(s: string): (n: nat)
    requires s != ""
    ensures 0 < n <= |s|
  {
    if MarkerAt(s) != "" then |CitationMarker(MarkerAt(s))| else 1
  }

  /** `_MARKER.finditer`: leftmost matches that do not overlap. */
  function Markers(s: string): seq<string>
    decreases |s|
  {
    if s == "" then [] else Found(s) + Markers(s[FirstStep(s)..])
  }

  ghost predicate Citable(id: string) {
    id != "" && forall i :: 0 <= i < |id| ==> MarkerChar(id[i])
  }

  lemma {:induction false} MarkerRunOf(id: string, rest: string)
    requires (forall i :: 0 <= i < |id| ==> MarkerChar(id[i])) && (rest == "" || !MarkerChar(rest[0]))
    ensures MarkerRun(id + rest) == |id|
  {
    if id == "" {
      assert id + rest == rest;
    } else {
      assert (id + rest)[1..] == id[1..] + rest;
      MarkerRunOf(id[1..], rest);
    }
  }

  lemma {:induction false} MarkersStep(s: string, here: seq<string>, left: string)
    requires s != "" && here == Found(s) && left == s[FirstStep(s)..]
    ensures Markers(s) == here + Markers(left)
  {
  }

  lemma {:induction false} MarkerStandsFirst(id: string, rest: string)
    requires Citable(id)
    ensures MarkerAt(CitationMarker(id) + rest) == id
  {
    var s := CitationMarker(id) + rest;
    assert s[2..] == id + ("]" + rest);
    MarkerRunOf(id, "]" + rest);
    assert s[2..2 + |id|] == id;
  }

  lemma {:induction false} MarkerLeads(id: string, rest: string)
    requires Citable(id)
    ensures Markers(CitationMarker(id) + rest) == [id] + Markers(rest)
  {
    var s := CitationMarker(id) + rest;
    MarkerStandsFirst(id, rest);
    assert s[|CitationMarker(id)|..] == rest;
    MarkersStep(s, [id], rest);
  }

  lemma {:induction false} MarkerRunStops(a: string, rest: string)
    requires rest != "" && !MarkerChar(rest[0])
    ensures MarkerRun(a + rest) == MarkerRun(a)
  {
    if a == "" {
      assert a + rest == rest;
    } else {
      assert (a + rest)[1..] == a[1..] + rest;
      MarkerRunStops(a[1..], rest);
    }
  }

  /** An opening bracket further on changes nothing about the marker, if any, that a text starts with. */
  lemma {:induction false} LaterBracketChangesNothing(a: string, rest: string)
    requires a != "" && rest != "" && rest[0] == '['
    ensures MarkerAt(a + rest) == MarkerAt(a)
  {
    var s := a + rest;
    if |a| >= 2 && a[0] == '[' && a[1] == '^' {
      assert s[2..] == a[2..] + rest;
      MarkerRunStops(a[2..], rest);
      var k := MarkerRun(a[2..]);
      assert s[2..2 + k] == a[2..2 + k];
    }
  }

  lemma {:induction false} StepBeforeBracket(a: string, tail: string, here: seq<string>, left: string)
    requires a != "" && tail != "" && tail[0] == '[' && here == Found(a) && left == a[FirstStep(a)..]
    ensures Markers(a) == here + Markers(left) && Markers(a + tail) == here + Markers(left + tail)
  {
    LaterBracketChangesNothing(a, tail);
    assert (a + tail)[FirstStep(a)..] == left + tail;
  }

  lemma {:induction false} Regroup<T>(x: seq<T>, y: seq<T>, z: seq<T>)
    ensures x + (y + z) == (x + y) + z
  {
  }

  lemma {:induction false} BracketSplits(a: string, tail: string)
    requires tail != "" && tail[0] == '['
    ensures Markers(a + tail) == Markers(a) + Markers(tail)
    decreases |a|
  {
    if a == "" {
      assert a + tail == tail && Markers(a) + Markers(tail) == Markers(tail);
    } else {
      var here, left := Found(a), a[FirstStep(a)..];
      calc {
        Markers(a + tail);
        { StepBeforeBracket(a, tail, here, left); }
        here + Markers(left + tail);
        { BracketSplits(left, tail); }
        here + (Markers(left) + Markers(tail));
        { Regroup(here, Markers(left), Markers(tail)); }
        (here + Markers(left)) + Markers(tail);
        { StepBeforeBracket(a, tail, here, left); }
        Markers(a) + Markers(tail);
      }
    }
  }

  /** A marker the prompt offered is found again wherever the model puts it, and disturbs no other. */
  lemma {:induction false} MarkerIsFound(a: string, id: string, rest: string)
    requires Citable(id)
    ensures Markers(a + CitationMarker(id) + rest) == Markers(a) + [id] + Markers(rest)
  {
    var tail := CitationMarker(id) + rest;
    assert a + CitationMarker(id) + rest == a + tail;
    BracketSplits(a, tail);
    MarkerLeads(id, rest);
  }

  lemma {:induction false} MarkerAtIsCitable(s: string)
    requires MarkerAt(s) != ""
    ensures Citable(MarkerAt(s))
  {
    var k, id := MarkerRun(s[2..]), MarkerAt(s);
    assert id == s[2..2 + k];
    forall i | 0 <= i < |id| ensures MarkerChar(id[i]) {
      assert id[i] == s[2..][i];
    }
  }

  lemma {:induction false} FoundIsCitable(s: string)
    ensures |Found(s)| <= 1 && (Found(s) != [] ==> Citable(Found(s)[0]))
  {
    if Found(s) != [] {
      MarkerAtIsCitable(s);
    }
  }

  lemma {:induction false} MarkersAreCitable(s: string, id: string)
    requires id in Markers(s)
    ensures Citable(id)
    decreases |s|
  {
    var here, left := Found(s), s[FirstStep(s)..];
    MarkersStep(s, here, left);
    FoundIsCitable(s);
    if id !in here {
      MarkersAreCitable(left, id);
    }
  }

  /** An id outside the marker alphabet can be offered to the model but never be read back. */
  lemma {:induction false} OnlyCitableIdsResolve(id: string)
    ensures Markers(CitationMarker(id)) == [id] <==> Citable(id)
  {
    if Citable(id) {
      MarkerLeads(id, "");
      assert CitationMarker(id) + "" == CitationMarker(id);
      assert [id] + Markers("") == [id];
    } else if Markers(CitationMarker(id)) == [id] {
      MarkersAreCitable(CitationMarker(id), id);
      assert false;
    }
  }

  // ---- Resolution ----

  /** `{citation.chunk_id: citation}`: the last of two citations with one id wins. */
  function ById(supplied: seq<Citation>): (m: map<string, Citation>)
    ensures forall id :: id in m ==> m[id] in supplied && m[id].chunkId == id
    ensures forall c :: c in supplied ==> c.chunkId in m
  {
    if supplied == [] then map[]
    else
      var n := |supplied| - 1;
      ById(supplied[..n])[supplied[n].chunkId := supplied[n]]
  }

  /** The ids that name a supplied citation, each at its first appearance. */
  function Cited(markers: seq<string>, known: map<string, Citation>): seq<string> {
    if markers == [] then []
    else
      var n := |markers| - 1;
      var before := Cited(markers[..n], known);
      if markers[n] in known && markers[n] !in before then before + [markers[n]] else before
  }

  function Resolved(answer: string, supplied: seq<Citation>): seq<Citation> {
    var known, ids := ById(supplied), Cited(Markers(answer), ById(supplied));
    CitedKnown(Markers(answer), known);
    seq(|ids|, i requires 0 <= i < |ids| => known[ids[i]])
  }

  lemma {:induction false} CitedKnown(markers: seq<string>, known: map<string, Citation>)
    ensures forall i :: 0 <= i < |Cited(markers, known)| ==> Cited(markers, known)[i] in known
  {
    if markers != [] {
      CitedKnown(markers[..|markers| - 1], known);
    }
  }

  /** The loop of `resolve_citations`, over any way of looking an id up. */
  lemma {:induction false} OneMoreMarker(markers: seq<string>, i: nat)
    requires i < |markers|
    ensures forall id :: id in markers[..i + 1] <==> id in markers[..i] || id == markers[i]
  {
    assert markers[..i + 1] == markers[..i] + [markers[i]];
  }

  method ResolveMarkers(markers: seq<string>, byId: map<string, Citation>)
    returns (resolved: seq<Citation>, invented: seq<string>)
    ensures |resolved| == |Cited(markers, byId)|
    ensures forall j :: 0 <= j < |resolved| ==>
              Cited(markers, byId)[j] in byId && resolved[j] == byId[Cited(markers, byId)[j]]
    ensures forall id :: id in invented <==> id in markers && id !in byId
  {
    var seen: set<string> := {};
    ghost var ids: seq<string> := [];
    resolved, invented := [], [];
    for i := 0 to |markers|
      invariant ids == Cited(markers[..i], byId) && |resolved| == |ids|
      invariant forall j :: 0 <= j < |ids| ==> ids[j] in byId && resolved[j] == byId[ids[j]]
      invariant forall id :: id in seen <==> id in ids
      invariant forall id :: id in invented <==> id in markers[..i] && id !in byId
    {
      var chunkId := markers[i];
      CitedGrows(markers, i, byId);
      OneMoreMarker(markers, i);
      if chunkId in seen {
        continue;
      }
      if chunkId !in byId {
        invented := invented + [chunkId];
        continue;
      }
      seen := seen + {chunkId};
      ids := ids + [chunkId];
      resolved := resolved + [byId[chunkId]];
    }
    assert markers[..|markers|] == markers;
  }

  method ResolveCitations(answer: string, supplied: seq<Citation>)
    returns (resolved: seq<Citation>, invented: seq<string>)
    ensures resolved == Resolved(answer, supplied)
    ensures forall id :: id in invented <==> id in Markers(answer) && id !in ById(supplied)
  {
    resolved, invented := ResolveMarkers(Markers(answer), ById(supplied));
  }

  lemma {:induction false} CitedGrows(markers: seq<string>, i: nat, known: map<string, Citation>)
    requires i < |markers|
    ensures var before, id := Cited(markers[..i], known), markers[i];
            Cited(markers[..i + 1], known) == if id in known && id !in before then before + [id] else before
  {
    assert markers[..i + 1][..i] == markers[..i];
  }

  /** The first position at which `id` is marked. */
  function FirstAt(markers: seq<string>, id: string): (i: nat)
    ensures i <= |markers| && (i < |markers| ==> markers[i] == id) && forall j :: 0 <= j < i ==> markers[j] != id
  {
    if markers == [] || markers[0] == id then 0 else 1 + FirstAt(markers[1..], id)
  }

  lemma {:induction false} CitedExactly(markers: seq<string>, known: map<string, Citation>)
    ensures forall id :: id in Cited(markers, known) <==> id in markers && id in known
  {
    if markers != [] {
      CitedExactly(markers[..|markers| - 1], known);
      assert markers == markers[..|markers| - 1] + [markers[|markers| - 1]];
    }
  }

  /** First marked earlier, listed earlier; in particular nothing is listed twice. */
  ghost predicate InOrder(markers: seq<string>, ids: seq<string>) {
    forall i, j :: 0 <= i < j < |ids| ==> FirstAt(markers, ids[i]) < FirstAt(markers, ids[j])
  }

  lemma {:induction false} CitedInOrder(markers: seq<string>, known: map<string, Citation>)
    ensures InOrder(markers, Cited(markers, known))
  {
    if markers != [] {
      var n := |markers| - 1;
      var before, ids := Cited(markers[..n], known), Cited(markers, known);
      CitedInOrder(markers[..n], known);
      CitedExactly(markers[..n], known);
      forall i | 0 <= i < |before| ensures FirstAt(markers, before[i]) == FirstAt(markers[..n], before[i]) < n {
        assert before[i] in before;
        FirstAtPrefix(markers, n, before[i]);
      }
      if ids != before {
        assert markers[n] !in markers[..n];
        FirstAtUnique(markers, n);
      }
    }
  }

  lemma {:induction false} FirstAtUnique(markers: seq<string>, n: nat)
    requires n < |markers| && markers[n] !in markers[..n]
    ensures FirstAt(markers, markers[n]) == n
  {
    assert forall i :: 0 <= i < n ==> markers[i] == markers[..n][i] && markers[..n][i] in markers[..n];
  }

  lemma {:induction false} FirstAtPrefix(markers: seq<string>, n: nat, id: string)
    requires n <= |markers| && id in markers[..n]
    ensures FirstAt(markers, id) == FirstAt(markers[..n], id) < n
  {
    var j :| 0 <= j < n && markers[..n][j] == id;
    var i := FirstAt(markers[..n], id);
    assert markers[i] == markers[..n][i] == id;
    assert forall k :: 0 <= k < i ==> markers[k] == markers[..n][k] != id;
  }

  /**
  Whatever the model writes, the resolved citations are distinct, in order of first
  appearance, exactly those it marked among the supplied ones, and all of them supplied.
  */
  lemma {:induction false} ResolvedCitationsWereSupplied(answer: string, supplied: seq<Citation>)
    ensures var resolved, markers := Resolved(answer, supplied), Markers(answer);
            && (forall i :: 0 <= i < |resolved| ==> resolved[i] in supplied && resolved[i].chunkId in markers)
            && (forall i, j :: 0 <= i < j < |resolved| ==>
                  FirstAt(markers, resolved[i].chunkId) < FirstAt(markers, resolved[j].chunkId))
            && (forall c :: c in supplied && c.chunkId in markers ==>
                  exists i :: 0 <= i < |resolved| && resolved[i].chunkId == c.chunkId)
  {
    var known, markers := ById(supplied), Markers(answer);
    var ids, resolved := Cited(markers, known), Resolved(answer, supplied);
    CitedExactly(markers, known);
    CitedInOrder(markers, known);
    CitedKnown(markers, known);
    assert |resolved| == |ids|;
    forall i | 0 <= i < |resolved|
      ensures resolved[i] == known[ids[i]] && resolved[i].chunkId == ids[i] && resolved[i] in supplied
                && ids[i] in markers
    {
      assert ids[i] in ids;
    }
    forall c | c in supplied && c.chunkId in markers
      ensures exists i :: 0 <= i < |resolved| && resolved[i].chunkId == c.chunkId
    {
      assert c.chunkId in ids;
      var i :| 0 <= i < |ids| && ids[i] == c.chunkId;
      assert resolved[i].chunkId == c.chunkId;
    }
  }

  // ---- The prompt ----

  /** `_describe`; `show` prints a page number. */
  function Describe(show: int -> string, c: Citation): string {
    var source := if c.source.Some? && c.source.value != "" then ["source: " + c.source.value] else [];
    var page := if c.page.Some? then ["page: " + show(c.page.value)] else [];
    if source + page == [] then "" else " (" + JoinedBy(", ", source + page) + ")"
  }

  /** `separator.join(parts)` */
  function JoinedBy(separator: string, parts: seq<string>): string {
    if parts == [] then ""
    else if |parts| == 1 then parts[0]
    else JoinedBy(separator, parts[..|parts| - 1]) + separator + parts[|parts| - 1]
  }

  /** One marked, attributed passage. */
  function Passage(show: int -> string, c: Citation, text: string): string {
    CitationMarker(c.chunkId) + Describe(show, c) + "\n" + text
  }

  function Passages(show: int -> string, citations: seq<Citation>, texts: seq<string>): (ps: seq<string>)
    ensures |ps| == if |citations| <= |texts| then |citations| else |texts|
    ensures forall i :: 0 <= i < |ps| ==> ps[i] == Passage(show, citations[i], texts[i])
  {
    if citations == [] || texts == [] then []
    else [Passage(show, citations[0], texts[0])] + Passages(show, citations[1..], texts[1..])
  }

  /** `build_prompt` over `build_context_block`. */
  function Prompt(show: int -> string, question: string, a: Assembled): string {
    "<context>\n" + JoinedBy("\n\n", Passages(show, a.citations, a.packed)) + "\n</context>\n\nQuestion: " + question
  }

  /** Joining puts the separator between any two neighbours, and nowhere else. */
  lemma {:induction false} JoinedBySplits(separator: string, first: seq<string>, second: seq<string>)
    requires first != [] && second != []
    ensures JoinedBy(separator, first + second) == JoinedBy(separator, first) + separator + JoinedBy(separator, second)
    decreases |second|
  {
    var all, n := first + second, |second| - 1;
    assert all[..|all| - 1] == first + second[..n] && all[|all| - 1] == second[n];
    if n == 0 {
      assert first + [] == first;
    } else {
      JoinedBySplits(separator, first, second[..n]);
      Regrouped(JoinedBy(separator, first) + separator, JoinedBy(separator, second[..n]), separator, second[n]);
    }
  }

  lemma {:induction false} Regrouped(a: string, b: string, c: string, d: string)
    ensures a + b + c + d == a + (b + c + d)
  {
  }

  /** What is joined before a part, and with what follows it. */
  lemma {:induction false} PartIsInJoined(separator: string, parts: seq<string>, i: nat)
    returns (before: string, later: string)
    requires i < |parts|
    ensures JoinedBy(separator, parts) == before + parts[i] + later
    ensures before == if i == 0 then "" else JoinedBy(separator, parts[..i]) + separator
    ensures later == if i == |parts| - 1 then "" else separator + JoinedBy(separator, parts[i + 1..])
  {
    before := if i == 0 then "" else JoinedBy(separator, parts[..i]) + separator;
    later := if i == |parts| - 1 then "" else separator + JoinedBy(separator, parts[i + 1..]);
    var from := parts[i..];
    assert JoinedBy(separator, from) == parts[i] + later by {
      assert from == [parts[i]] + parts[i + 1..];
      if i < |parts| - 1 {
        JoinedBySplits(separator, [parts[i]], parts[i + 1..]);
      }
    }
    if i > 0 {
      assert parts == parts[..i] + from;
      JoinedBySplits(separator, parts[..i], from);
    } else {
      assert parts == from;
    }
  }

  /** The parts of a provenance line. */
  lemma {:induction false} DescriptionOfParts(show: int -> string, c: Citation, sources: seq<string>,
                                              pages: seq<string>)
    requires sources == if c.source.Some? && c.source.value != "" then ["source: " + c.source.value] else []
    requires pages == if c.page.Some? then ["page: " + show(c.page.value)] else []
    ensures Describe(show, c)
         == if sources == [] && pages == [] then ""
            else if pages == [] then " (" + sources[0] + ")"
            else if sources == [] then " (" + pages[0] + ")"
            else " (" + (sources[0] + ", " + pages[0]) + ")"
  {
    if sources != [] && pages != [] {
      var both := [sources[0], pages[0]];
      assert sources + pages == both && both[..1] == [sources[0]];
      assert JoinedBy(", ", both) == sources[0] + ", " + pages[0];
    } else {
      assert sources + [] == sources && [] + pages == pages;
    }
  }

  /** The provenance line names the source, unless it is missing or empty, and the page, unless it is missing. */
  lemma {:induction false} DescriptionNamesSourceAndPage(show: int -> string, c: Citation)
    ensures var source := if c.source.Some? then c.source.value else "";
            Describe(show, c)
            == match c.page
               case None => (if source == "" then "" else " (" + ("source: " + source) + ")")
               case Some(page) =>
                 if source == "" then " (" + ("page: " + show(page)) + ")"
                 else " (" + (("source: " + source) + ", " + ("page: " + show(page))) + ")"
  {
    var sources := if c.source.Some? && c.source.value != "" then ["source: " + c.source.value] else [];
    var pages := if c.page.Some? then ["page: " + show(c.page.value)] else [];
    DescriptionOfParts(show, c, sources, pages);
  }

  /** What stands around the passages: the question comes last. */
  lemma {:induction false} QuestionComesLast(show: int -> string, question: string, other: string, a: Assembled)
    returns (head: string)
    ensures Prompt(show, question, a) == head + question && Prompt(show, other, a) == head + other
  {
    head := "<context>\n" + JoinedBy("\n\n", Passages(show, a.citations, a.packed)) + "\n</context>\n\nQuestion: ";
  }

  /** What stands before passage `i` of a context. */
  function Opening(show: int -> string, a: Assembled, i: nat): string
    requires i < |a.packed| == |a.citations|
  {
    "<context>\n" + if i == 0 then "" else JoinedBy("\n\n", Passages(show, a.citations, a.packed)[..i]) + "\n\n"
  }

  /** What stands after it. */
  function Closing(show: int -> string, question: string, a: Assembled, i: nat): string
    requires i < |a.packed| == |a.citations|
  {
    (if i == |a.packed| - 1 then "" else "\n\n" + JoinedBy("\n\n", Passages(show, a.citations, a.packed)[i + 1..]))
    + ("\n</context>\n\nQuestion: " + question)
  }

  lemma {:induction false} AroundThePassage(show: int -> string, question: string, a: Assembled, i: nat)
    requires i < |a.packed| == |a.citations|
    ensures Prompt(show, question, a)
         == Opening(show, a, i) + Passage(show, a.citations[i], a.packed[i]) + Closing(show, question, a, i)
  {
    var ps, ending := Passages(show, a.citations, a.packed), "\n</context>\n\nQuestion: " + question;
    var before, later := PartIsInJoined("\n\n", ps, i);
    PromptIsWrapped(show, question, a, ending);
    Wrapped("<context>\n", before, ps[i], later, ending);
    assert Opening(show, a, i) == "<context>\n" + before && Closing(show, question, a, i) == later + ending;
  }

  lemma {:induction false} Wrapped(opening: string, pre: string, part: string, post: string, ending: string)
    ensures opening + (pre + part + post) + ending == opening + pre + part + (post + ending)
  {
  }

  lemma {:induction false} PromptIsWrapped(show: int -> string, question: string, a: Assembled, ending: string)
    requires ending == "\n</context>\n\nQuestion: " + question
    ensures Prompt(show, question, a)
         == "<context>\n" + JoinedBy("\n\n", Passages(show, a.citations, a.packed)) + ending
  {
  }

  /**
  Each packed text stands in the prompt, on its own lines, right under its own citation's marker
  and description; the first passage opens the context, the last one closes it, blank lines part
  them, and the question follows.
  */
  lemma {:induction false} PackedTextIsInThePrompt(p: Packer, chunks: seq<ScoredChunk>, show: int -> string,
                                                   question: string, i: nat)
    returns (before: string, later: string)
    requires i < |Assemble(p, chunks).packed|
    ensures var a := Assemble(p, chunks);
            && |a.citations| == |a.packed|
            && Prompt(show, question, a)
               == before + "[^" + a.citations[i].chunkId + "]" + Describe(show, a.citations[i]) + "\n" + a.packed[i]
                  + later
            && before == Opening(show, a, i) && later == Closing(show, question, a, i)
  {
    var a := Assemble(p, chunks);
    PackingKeepsProvenance(p, chunks);
    AroundThePassage(show, question, a, i);
    before, later := Opening(show, a, i), Closing(show, question, a, i);
    PassageIsWrittenOut(before, a.citations[i].chunkId, Describe(show, a.citations[i]), a.packed[i], later);
  }

  lemma {:induction false} PassageIsWrittenOut(before: string, id: string, about: string, text: string, later: string)
    ensures before + (CitationMarker(id) + about + "\n" + text) + later
         == before + "[^" + id + "]" + about + "\n" + text + later
  {
  }

  /**
  End to end: a citation resolved from any answer describes a retrieved chunk, and that chunk's
  text, stripped, stood in the prompt under the marker the answer used.
  */
  lemma {:induction false} EveryCitationWasInThePrompt(p: Packer, chunks: seq<ScoredChunk>, show: int -> string,
                                                       question: string, answer: string, k: nat)
    returns (chunk: ScoredChunk, before: string, later: string)
    requires k < |Resolved(answer, Assemble(p, chunks).citations)|
    ensures var a := Assemble(p, chunks);
            && chunk in chunks
            && Resolved(answer, a.citations)[k] == CitationFor(chunk) && chunk.chunkId in Markers(answer)
            && Prompt(show, question, a)
               == before + "[^" + chunk.chunkId + "]" + Describe(show, CitationFor(chunk)) + "\n" + Strip(chunk.text)
                  + later
  {
    var a := Assemble(p, chunks);
    ResolvedCitationsWereSupplied(answer, a.citations);
    PackingKeepsProvenance(p, chunks);
    assert Resolved(answer, a.citations)[k] in a.citations;
    var i :| 0 <= i < |a.citations| && a.citations[i] == Resolved(answer, a.citations)[k];
    chunk := chunks[Kept(p, chunks)[i]];
    before, later := PackedTextIsInThePrompt(p, chunks, show, question, i);
  }
}
