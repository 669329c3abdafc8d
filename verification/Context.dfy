/**
Context assembly, core/context.py: retrieved chunks are packed greedily in rank order under
a token budget, near duplicates are dropped, and every packed text keeps its citation. Case
folding and white space are ASCII.
*/
module Context {
  import opened Wrappers
  import opened Text
  import Json

  // ---- Text ----

  function WordLength(s: string): (k: nat)
    ensures k <= |s| && (s != "" && !IsSpace(s[0]) ==> k > 0)
  {
    if s == "" || IsSpace(s[0]) then 0 else 1 + WordLength(s[1..])
  }

  /** `s.split()`. */
  function Words(s: string): seq<string>
    decreases |s|
  {
    if s == "" then []
    else if IsSpace(s[0]) then Words(s[1..])
    else [s[..WordLength(s)]] + Words(s[WordLength(s)..])
  }

  function Terms(text: string): set<string> {
    set w | w in Words(Lower(text))
  }

  /** White space separates words. */
  lemma {:induction false} SpaceSeparatesWords(a: string, space: char, b: string)
    requires IsSpace(space)
    ensures Words(a + [space] + b) == Words(a) + Words(b)
    decreases |a|
  {
    var s := a + [space] + b;
    if a == "" {
      assert s[1..] == b;
    } else if IsSpace(a[0]) {
      assert s[1..] == a[1..] + [space] + b;
      SpaceSeparatesWords(a[1..], space, b);
    } else {
      var k := WordLength(a);
      WordEndsAtSpace(a, space, b);
      assert s[..k] == a[..k] && s[k..] == a[k..] + [space] + b;
      SpaceSeparatesWords(a[k..], space, b);
      assert [a[..k]] + (Words(a[k..]) + Words(b)) == [a[..k]] + Words(a[k..]) + Words(b);
    }
  }

  lemma {:induction false} WordEndsAtSpace(a: string, space: char, b: string)
    requires IsSpace(space)
    ensures WordLength(a + [space] + b) == WordLength(a)
  {
    if a != "" {
      assert (a + [space] + b)[1..] == a[1..] + [space] + b;
      WordEndsAtSpace(a[1..], space, b);
    }
  }

  /** A text without white space is one word. */
  lemma {:induction false} UnbrokenTextIsOneWord(w: string)
    requires w != "" && forall i :: 0 <= i < |w| ==> !IsSpace(w[i])
    ensures Words(w) == [w]
  {
    UnbrokenLength(w);
    assert w[..|w|] == w && w[|w|..] == "";
  }

  lemma {:induction false} UnbrokenLength(w: string)
    requires forall i :: 0 <= i < |w| ==> !IsSpace(w[i])
    ensures WordLength(w) == |w|
  {
    if w != "" {
      UnbrokenLength(w[1..]);
    }
  }

  lemma {:induction false} LowerDistributes(a: string, b: string)
    ensures Lower(a + b) == Lower(a) + Lower(b)
  {
  }

  /**
  The terms of a text are its words whatever their case: those on both sides of any white space,
  and a text without white space itself.
  */
  lemma {:induction false} TermsAreTheWords(a: string, space: char, b: string, w: string, v: string)
    requires IsSpace(space) && w != "" && forall i :: 0 <= i < |w| ==> !IsSpace(w[i])
    ensures Terms("") == {} && Terms(w) == {Lower(w)} && Terms(a + [space] + b) == Terms(a) + Terms(b)
    ensures Lower(v) == Lower(w) ==> Terms(v) == Terms(w)
  {
    assert Lower("") == "" && Words("") == [];
    assert forall i :: 0 <= i < |w| ==> !IsSpace(Lower(w)[i]);
    UnbrokenTextIsOneWord(Lower(w));
    LowerDistributes(a + [space], b);
    LowerDistributes(a, [space]);
    assert Lower([space]) == [space];
    SpaceSeparatesWords(Lower(a), space, Lower(b));
    assert Words(Lower(a + [space] + b)) == Words(Lower(a)) + Words(Lower(b));
  }

  /** The Jaccard overlap, as an exact fraction. */
  function Similarity(left: set<string>, right: set<string>): real {
    if left == {} || right == {} then 0.0 else |left * right| as real / |left + right| as real
  }

  lemma {:induction false} SizesOfOverlap(left: set<string>, right: set<string>)
    ensures 0 <= |left * right| <= |left + right|
    ensures left != {} || right != {} ==> |left + right| > 0
    ensures |left * right| == |left + right| <==> left == right
    ensures |left * right| == 0 <==> left !! right
  {
    var common, all := left * right, left + right;
    assert all == common + (all - common) && common !! (all - common);
    assert |all| == |common| + |all - common|;
    if |common| == |all| {
      assert all - common == {};
      assert left == common == right;
    }
    if left == right {
      assert common == all;
    }
  }

  lemma {:induction false} FractionFacts(part: nat, whole: nat, threshold: real)
    requires part <= whole && whole > 0
    ensures var f := part as real / whole as real;
            && 0.0 <= f <= 1.0 && (f == 1.0 <==> part == whole) && (f == 0.0 <==> part == 0)
            && (f >= threshold <==> part as real >= threshold * whole as real)
  {
    var f, w := part as real / whole as real, whole as real;
    assert f * w == part as real;
    if f >= threshold {
      assert (f - threshold) * w >= 0.0;
      assert (f - threshold) * w == part as real - threshold * w;
    } else {
      assert (threshold - f) * w > 0.0;
      assert (threshold - f) * w == threshold * w - part as real;
    }
  }

  /**
  The overlap of two sets of words that are not empty reaches a threshold exactly when the words
  they share are at least that part of all their words; it is one exactly for equal sets, and
  zero exactly for disjoint ones.
  */
  lemma {:induction false} SimilarityCountsSharedWords(left: set<string>, right: set<string>, threshold: real)
    requires left != {} && right != {}
    ensures Similarity(left, right) >= threshold <==> |left * right| as real >= threshold * |left + right| as real
    ensures 0.0 <= Similarity(left, right) <= 1.0
    ensures Similarity(left, right) == 1.0 <==> left == right
    ensures Similarity(left, right) == 0.0 <==> left !! right
  {
    SizesOfOverlap(left, right);
    FractionFacts(|left * right|, |left + right|, threshold);
  }

  /** A text that does not start with white space has a term. */
  lemma {:induction false} TextHasATerm(text: string)
    requires text != "" && !IsSpace(text[0])
    ensures Terms(text) != {}
  {
    var lower := Lower(text);
    assert lower[0] == LowerChar(text[0]);
    assert lower[..WordLength(lower)] in Words(lower);
    assert lower[..WordLength(lower)] in Terms(text);
  }

  lemma {:induction false} TextWithTermsIsSimilarToItself(text: string)
    requires text != "" && !IsSpace(text[0])
    ensures Similarity(Terms(text), Terms(text)) == 1.0
  {
    TextHasATerm(text);
    SimilarityCountsSharedWords(Terms(text), Terms(text), 1.0);
  }

  // ---- Chunks and citations ----

  datatype ScoredChunk = ScoredChunk(chunkId: string, text: string, source: Option<string>, payload: Json.Payload,
                                     rrfScore: real, rerankScore: Option<real>)

  datatype Span = Span(start: int, end: int)

  datatype Citation = Citation(chunkId: string, source: Option<string>, page: Option<int>, span: Option<Span>,
                               score: Option<real>)

  function CitationFor(chunk: ScoredChunk): Citation {
    var span :=
      match Json.Get(chunk.payload, "span")
      case Obj(fields) =>
        (match (Json.AsInt(Json.Get(fields, "start")), Json.AsInt(Json.Get(fields, "end")))
         case (Some(start), Some(end)) => Some(Span(start, end))
         case _ => None)
      case _ => None;
    Citation(chunk.chunkId, chunk.source, Json.AsInt(Json.Get(chunk.payload, "page")), span,
             Some(if chunk.rerankScore.Some? then chunk.rerankScore.value else chunk.rrfScore))
  }

  /** A whole number as Python sees one in a payload; its booleans count. */
  predicate Whole(v: Json.Value, n: int) {
    v == Json.Int(n) || (v == Json.Bool(true) && n == 1) || (v == Json.Bool(false) && n == 0)
  }

  /**
  A citation names its chunk and the chunk's source, and scores it as the reranker did, where there
  was one; it has a page exactly when the payload states a whole number, and a span exactly when
  the payload has both its ends.
  */
  lemma {:induction false} CitationDescribesItsChunk(chunk: ScoredChunk, page: int, start: int, end: int)
    ensures var citation, span := CitationFor(chunk), Json.Get(chunk.payload, "span");
            && citation.chunkId == chunk.chunkId && citation.source == chunk.source
            && citation.score == (if chunk.rerankScore.Some? then chunk.rerankScore else Some(chunk.rrfScore))
            && (citation.page == Some(page) <==> Whole(Json.Get(chunk.payload, "page"), page))
            && (citation.span == Some(Span(start, end)) <==>
                span.Obj? && Whole(Json.Get(span.fields, "start"), start) && Whole(Json.Get(span.fields, "end"), end))
  {
  }

  // ---- Packing ----

  /** The settings of one assembly; `count` is the token counter. */
  datatype Packer = Packer(budget: int, threshold: real, count: string -> int) {
    function Cost(text: string): (c: int)
      ensures c >= 1 && c >= count(text) && (c == 1 || c == count(text))
    {
      if count(text) >= 1 then count(text) else 1
    }
  }

  datatype Assembled = Assembled(packed: seq<string>, citations: seq<Citation>, tokens: int,
                                 duplicates: nat, overBudget: nat, blank: nat)

  datatype Fate = Blank | Duplicate | OverBudget | Packed

  predicate Resembles(p: Packer, packed: seq<string>, text: string) {
    text in packed || exists i :: 0 <= i < |packed| && Similarity(Terms(text), Terms(packed[i])) >= p.threshold
  }

  function Judge(p: Packer, a: Assembled, chunk: ScoredChunk): Fate {
    var text := Strip(chunk.text);
    if text == "" then Blank
    else if Resembles(p, a.packed, text) then Duplicate
    else if a.tokens + p.Cost(text) > p.budget then OverBudget
    else Packed
  }

  function Take(p: Packer, a: Assembled, chunk: ScoredChunk): Assembled {
    var text := Strip(chunk.text);
    match Judge(p, a, chunk)
    case Blank => a.(blank := a.blank + 1)
    case Duplicate => a.(duplicates := a.duplicates + 1)
    case OverBudget => a.(overBudget := a.overBudget + 1)
    case Packed => a.(packed := a.packed + [text], citations := a.citations + [CitationFor(chunk)],
                      tokens := a.tokens + p.Cost(text))
  }

  function Assemble(p: Packer, chunks: seq<ScoredChunk>): Assembled {
    if chunks == [] then Assembled([], [], 0, 0, 0, 0)
    else Take(p, Assemble(p, chunks[..|chunks| - 1]), chunks[|chunks| - 1])
  }

  method AssembleContext(p: Packer, chunks: seq<ScoredChunk>) returns (a: Assembled)
    ensures a == Assemble(p, chunks)
  {
    var packed: seq<string>, citations: seq<Citation> := [], [];
    var seen: seq<set<string>>, seenText: set<string> := [], {};
    var used, duplicates, overBudget, blank := 0, 0, 0, 0;
    for i := 0 to |chunks|
      invariant Assembled(packed, citations, used, duplicates, overBudget, blank) == Assemble(p, chunks[..i])
      invariant Mirrors(packed, seen, seenText)
    {
      ghost var before := Assemble(p, chunks[..i]);
      AssembleOneMore(p, chunks, i);
      var text := Strip(chunks[i].text);
      MirrorsDecide(p, packed, seen, seenText, text);
      if text == "" {
        assert Judge(p, before, chunks[i]).Blank?;
        blank := blank + 1;
        continue;
      }
      if text in seenText {
        assert Judge(p, before, chunks[i]).Duplicate?;
        duplicates := duplicates + 1;
        continue;
      }
      var terms := Terms(text);
      if AnySimilar(terms, seen, p.threshold) {
        assert Judge(p, before, chunks[i]).Duplicate?;
        duplicates := duplicates + 1;
        continue;
      }
      var cost := p.Cost(text);
      if used + cost > p.budget {
        assert Judge(p, before, chunks[i]).OverBudget?;
        overBudget := overBudget + 1;
        continue;
      }
      assert Judge(p, before, chunks[i]).Packed?;
      MirrorsGrow(packed, seen, seenText, text);
      packed, citations := packed + [text], citations + [CitationFor(chunks[i])];
      seen, seenText := seen + [terms], seenText + {text};
      used := used + cost;
    }
    assert chunks[..|chunks|] == chunks;
    a := Assembled(packed, citations, used, duplicates, overBudget, blank);
  }

  /** The loop's `seen` and `seen_text` hold the term set and the text of everything packed. */
  ghost predicate Mirrors(packed: seq<string>, seen: seq<set<string>>, seenText: set<string>) {
    && |seen| == |packed|
    && (forall j :: 0 <= j < |seen| ==> seen[j] == Terms(packed[j]))
    && (forall t :: t in seenText <==> t in packed)
  }

  lemma {:induction false} MirrorsDecide(p: Packer, packed: seq<string>, seen: seq<set<string>>, seenText: set<string>,
                                         text: string)
    requires Mirrors(packed, seen, seenText)
    ensures Resembles(p, packed, text) <==> text in seenText || AnySimilar(Terms(text), seen, p.threshold)
  {
    if AnySimilar(Terms(text), seen, p.threshold) {
      var j :| 0 <= j < |seen| && Similarity(Terms(text), seen[j]) >= p.threshold;
      assert Similarity(Terms(text), Terms(packed[j])) >= p.threshold;
    }
    if i :| 0 <= i < |packed| && Similarity(Terms(text), Terms(packed[i])) >= p.threshold {
      assert Similarity(Terms(text), seen[i]) >= p.threshold;
    }
  }

  lemma {:induction false} MirrorsGrow(packed: seq<string>, seen: seq<set<string>>, seenText: set<string>, text: string)
    requires Mirrors(packed, seen, seenText)
    ensures Mirrors(packed + [text], seen + [Terms(text)], seenText + {text})
  {
  }

  predicate AnySimilar(terms: set<string>, seen: seq<set<string>>, threshold: real) {
    exists j :: 0 <= j < |seen| && Similarity(terms, seen[j]) >= threshold
  }

  lemma {:induction false} AssembleOneMore(p: Packer, chunks: seq<ScoredChunk>, i: nat)
    requires i < |chunks|
    ensures Assemble(p, chunks[..i + 1]) == Take(p, Assemble(p, chunks[..i]), chunks[i])
  {
    assert chunks[..i + 1][..i] == chunks[..i];
  }

  // ---- What a packed context guarantees ----

  /** The positions of the packed chunks among the retrieved ones. */
  function Kept(p: Packer, chunks: seq<ScoredChunk>): seq<nat> {
    if chunks == [] then []
    else
      var n := |chunks| - 1;
      Kept(p, chunks[..n]) + if Judge(p, Assemble(p, chunks[..n]), chunks[n]).Packed? then [n] else []
  }

  ghost predicate Increasing(s: seq<nat>, bound: nat) {
    && (forall i, j :: 0 <= i < j < |s| ==> s[i] < s[j])
    && (forall i :: 0 <= i < |s| ==> s[i] < bound)
  }

  /** What is packed comes from the chunks at these positions, in their order. */
  ghost predicate Traced(a: Assembled, kept: seq<nat>, chunks: seq<ScoredChunk>) {
    && |a.packed| == |a.citations| == |kept| && Increasing(kept, |chunks|)
    && forall i :: 0 <= i < |kept| ==>
         a.packed[i] == Strip(chunks[kept[i]].text) && a.citations[i] == CitationFor(chunks[kept[i]])
  }

  lemma {:induction false} TracedOneMore(p: Packer, a: Assembled, kept: seq<nat>, chunks: seq<ScoredChunk>,
                                         chunk: ScoredChunk)
    requires Traced(a, kept, chunks)
    ensures Traced(Take(p, a, chunk), kept + if Judge(p, a, chunk).Packed? then [|chunks|] else [], chunks + [chunk])
  {
    assert kept + [] == kept;
  }

  /** Packed text `i` and citation `i` come from one retrieved chunk, and rank order is kept. */
  lemma {:induction false} PackingKeepsProvenance(p: Packer, chunks: seq<ScoredChunk>)
    ensures Traced(Assemble(p, chunks), Kept(p, chunks), chunks)
  {
    if chunks != [] {
      var before, last := chunks[..|chunks| - 1], chunks[|chunks| - 1];
      PackingKeepsProvenance(p, before);
      TracedOneMore(p, Assemble(p, before), Kept(p, before), before, last);
      assert chunks == before + [last];
    }
  }

  /** Everything retrieved is used or dropped for a counted reason. */
  lemma {:induction false} AccountingReconciles(p: Packer, chunks: seq<ScoredChunk>)
    ensures var a := Assemble(p, chunks); |a.packed| + a.duplicates + a.overBudget + a.blank == |chunks|
  {
    if chunks != [] {
      AccountingReconciles(p, chunks[..|chunks| - 1]);
    }
  }

  /** How many of the chunks met a fate, each judged by what was packed before it. */
  function Fated(p: Packer, chunks: seq<ScoredChunk>, fate: Fate): nat {
    if chunks == [] then 0
    else
      var n := |chunks| - 1;
      Fated(p, chunks[..n], fate) + if Judge(p, Assemble(p, chunks[..n]), chunks[n]) == fate then 1 else 0
  }

  /** Each counter counts the chunks that met its fate. */
  lemma {:induction false} EachCounterCountsItsFate(p: Packer, chunks: seq<ScoredChunk>)
    ensures var a := Assemble(p, chunks);
            && |a.packed| == Fated(p, chunks, Packed) && a.duplicates == Fated(p, chunks, Duplicate)
            && a.overBudget == Fated(p, chunks, OverBudget) && a.blank == Fated(p, chunks, Blank)
  {
    if chunks != [] {
      EachCounterCountsItsFate(p, chunks[..|chunks| - 1]);
    }
  }

  function TotalCost(p: Packer, texts: seq<string>): int {
    if texts == [] then 0 else TotalCost(p, texts[..|texts| - 1]) + p.Cost(texts[|texts| - 1])
  }

  /** What the counter makes of the texts. */
  function TotalCount(p: Packer, texts: seq<string>): int {
    if texts == [] then 0 else TotalCount(p, texts[..|texts| - 1]) + p.count(texts[|texts| - 1])
  }

  lemma {:induction false} CostsCoverCounts(p: Packer, texts: seq<string>)
    ensures TotalCost(p, texts) >= |texts| && TotalCost(p, texts) >= TotalCount(p, texts)
  {
    if texts != [] {
      CostsCoverCounts(p, texts[..|texts| - 1]);
    }
  }

  lemma {:induction false} TokensAreTheCosts(p: Packer, chunks: seq<ScoredChunk>)
    ensures var a := Assemble(p, chunks);
            a.tokens == TotalCost(p, a.packed) >= 0 && (a.packed != [] ==> a.tokens <= p.budget)
  {
    if chunks != [] {
      var n := |chunks| - 1;
      var before := Assemble(p, chunks[..n]);
      TokensAreTheCosts(p, chunks[..n]);
      assert (before.packed + [Strip(chunks[n].text)])[..|before.packed|] == before.packed;
    }
  }

  /**
  The tokens reported are the summed costs of what is packed, at least one for each text and at
  least what the counter makes of them, and they are within the budget.
  */
  lemma {:induction false} BudgetIsNeverExceeded(p: Packer, chunks: seq<ScoredChunk>)
    ensures var a := Assemble(p, chunks);
            && a.tokens == TotalCost(p, a.packed) >= |a.packed| && a.tokens >= TotalCount(p, a.packed)
            && (a.packed != [] ==> a.tokens <= p.budget)
  {
    TokensAreTheCosts(p, chunks);
    CostsCoverCounts(p, Assemble(p, chunks).packed);
  }

  /** The texts are equal, or share enough of the words of the two together. */
  predicate Alike(p: Packer, a: string, b: string) {
    a == b || |Terms(a) * Terms(b)| as real >= p.threshold * |Terms(a) + Terms(b)| as real
  }

  lemma {:induction false} OverlapSymmetric(left: set<string>, right: set<string>)
    ensures left * right == right * left && left + right == right + left
  {
  }

  lemma {:induction false} AlikeSymmetric(p: Packer, a: string, b: string)
    ensures Alike(p, a, b) <==> Alike(p, b, a)
  {
    OverlapSymmetric(Terms(a), Terms(b));
  }

  /** What is packed starts with no white space, and so has words. */
  lemma {:induction false} PackedTextsHaveTerms(p: Packer, chunks: seq<ScoredChunk>)
    ensures forall i :: 0 <= i < |Assemble(p, chunks).packed| ==> Terms(Assemble(p, chunks).packed[i]) != {}
  {
    if chunks != [] {
      PackedTextsHaveTerms(p, chunks[..|chunks| - 1]);
      var text := Strip(chunks[|chunks| - 1].text);
      if text != "" {
        TextHasATerm(text);
      }
    }
  }

  /** Being a duplicate, in counts of words. */
  lemma {:induction false} ResemblesExactlyWhenAlike(p: Packer, packed: seq<string>, text: string)
    requires Terms(text) != {} && forall i :: 0 <= i < |packed| ==> Terms(packed[i]) != {}
    ensures Resembles(p, packed, text) <==> exists i :: 0 <= i < |packed| && Alike(p, text, packed[i])
  {
    forall i | 0 <= i < |packed|
      ensures Alike(p, text, packed[i]) <==>
                text == packed[i] || Similarity(Terms(text), Terms(packed[i])) >= p.threshold
    {
      SimilarityCountsSharedWords(Terms(text), Terms(packed[i]), p.threshold);
    }
    if i :| 0 <= i < |packed| && Alike(p, text, packed[i]) {
      assert text in packed || Similarity(Terms(text), Terms(packed[i])) >= p.threshold;
    }
    if i :| 0 <= i < |packed| && Similarity(Terms(text), Terms(packed[i])) >= p.threshold {
      assert Alike(p, text, packed[i]);
    }
    if text in packed {
      var i :| 0 <= i < |packed| && packed[i] == text;
      assert Alike(p, text, packed[i]);
    }
  }

  /** No two of the texts are alike. */
  ghost predicate Dissimilar(p: Packer, packed: seq<string>) {
    forall i, j :: 0 <= i < j < |packed| ==> !Alike(p, packed[i], packed[j])
  }

  lemma {:induction false} DissimilarGrows(p: Packer, packed: seq<string>, text: string)
    requires Dissimilar(p, packed) && forall i :: 0 <= i < |packed| ==> !Alike(p, packed[i], text)
    ensures Dissimilar(p, packed + [text])
  {
  }

  /** No two packed texts are equal, or share as much of their words as the threshold asks. */
  lemma {:induction false} NoTwoPackedTextsResemble(p: Packer, chunks: seq<ScoredChunk>)
    ensures Dissimilar(p, Assemble(p, chunks).packed)
  {
    if chunks != [] {
      var n := |chunks| - 1;
      var before, text := Assemble(p, chunks[..n]), Strip(chunks[n].text);
      NoTwoPackedTextsResemble(p, chunks[..n]);
      if Judge(p, before, chunks[n]).Packed? {
        NewcomerIsUnlike(p, before.packed, text, chunks[..n]);
        DissimilarGrows(p, before.packed, text);
      }
    }
  }

  lemma {:induction false} NewcomerIsUnlike(p: Packer, packed: seq<string>, text: string, chunks: seq<ScoredChunk>)
    requires packed == Assemble(p, chunks).packed && !Resembles(p, packed, text) && text != "" && !IsSpace(text[0])
    ensures forall i :: 0 <= i < |packed| ==> !Alike(p, packed[i], text)
  {
    PackedTextsHaveTerms(p, chunks);
    TextHasATerm(text);
    ResemblesExactlyWhenAlike(p, packed, text);
    forall i | 0 <= i < |packed| ensures !Alike(p, packed[i], text) {
      AlikeSymmetric(p, packed[i], text);
    }
  }

  lemma {:induction false} OneMoreChunkOnlyAdds(p: Packer, chunks: seq<ScoredChunk>)
    requires chunks != []
    ensures Assemble(p, chunks[..|chunks| - 1]).packed <= Assemble(p, chunks).packed
    ensures Assemble(p, chunks[..|chunks| - 1]).tokens <= Assemble(p, chunks).tokens
  {
  }

  /** Lower-ranked chunks never change what higher-ranked ones were given. */
  lemma {:induction false} PackingIsStable(p: Packer, chunks: seq<ScoredChunk>, k: nat)
    requires k <= |chunks|
    ensures Assemble(p, chunks[..k]).packed <= Assemble(p, chunks).packed
    ensures Assemble(p, chunks[..k]).tokens <= Assemble(p, chunks).tokens
    decreases |chunks|
  {
    var n := |chunks| - 1;
    if k <= n {
      var fewer := chunks[..n];
      assert fewer[..k] == chunks[..k];
      PackingIsStable(p, fewer, k);
      OneMoreChunkOnlyAdds(p, chunks);
    } else {
      assert chunks[..k] == chunks;
    }
  }

  /**
  A chunk that is missing from the context is blank, equals a text that is in it or shares enough
  words with one, or would still overflow the budget if it were added to the finished context.
  */
  lemma {:induction false} DroppedForAStatedReason(p: Packer, chunks: seq<ScoredChunk>, k: nat)
    requires k < |chunks|
    ensures var a, text := Assemble(p, chunks), Strip(chunks[k].text);
            match Judge(p, Assemble(p, chunks[..k]), chunks[k])
            case Blank => text == ""
            case Duplicate => exists i :: 0 <= i < |a.packed| && Alike(p, text, a.packed[i])
            case OverBudget => a.tokens + p.Cost(text) > p.budget
            case Packed => text in a.packed
  {
    var before, a, text := Assemble(p, chunks[..k]), Assemble(p, chunks), Strip(chunks[k].text);
    PackingIsStable(p, chunks, k);
    PackingIsStable(p, chunks, k + 1);
    assert chunks[..k + 1][..k] == chunks[..k];
    match Judge(p, before, chunks[k]) {
      case Duplicate =>
        TextHasATerm(text);
        PackedTextsHaveTerms(p, chunks[..k]);
        ResemblesExactlyWhenAlike(p, before.packed, text);
        var i :| 0 <= i < |before.packed| && Alike(p, text, before.packed[i]);
        assert a.packed[i] == before.packed[i];
      case Packed =>
        var after := Assemble(p, chunks[..k + 1]).packed;
        assert after[|after| - 1] == text && a.packed[|after| - 1] == text;
      case _ =>
    }
  }

  /** The exact-text test is only a shortcut: up to a threshold of one, similarity alone decides the same. */
  lemma {:induction false} ExactMatchIsAShortcut(p: Packer, packed: seq<string>, text: string)
    requires text != "" && !IsSpace(text[0]) && p.threshold <= 1.0
    ensures Resembles(p, packed, text)
       <==> exists i :: 0 <= i < |packed| && Similarity(Terms(text), Terms(packed[i])) >= p.threshold
  {
    if text in packed {
      var i :| 0 <= i < |packed| && packed[i] == text;
      TextWithTermsIsSimilarToItself(text);
      assert Similarity(Terms(text), Terms(packed[i])) >= p.threshold;
    }
  }
}
