/**
 The second-stage ranker of src/retrieval-ranker.ts: removal of duplicates, BM25, fusion of scores
 and the greedy selection with a penalty for similarity to what is already selected.
 Scores are reals; tokenising, text normalisation and the logarithm are parameters.
 */
module RetrievalRanker {
  import opened Common
  import Sorting

  datatype Score = Finite(value: real) | NotFinite

  datatype Hit = Hit(id: string, title: string, snippet: string, score: Score)

  datatype Text = Text(tokenize: string -> seq<string>, normalize: string -> string, log: real -> real)

  /** A hit with what the selection needs. */
  datatype Candidate = Candidate(hit: Hit, tokens: set<string>, semantic: real, lexical: real, fused: real)

  const SEMANTIC_WEIGHT := 0.68
  const LEXICAL_WEIGHT := 0.32
  const DIVERSITY_PENALTY := 0.12

  function BoundedLimit(limit: int): (r: nat)
    ensures 1 <= r <= 50
  {
    if limit < 1 then 1 else if limit > 50 then 50 else limit
  }

  function First<T>(s: seq<T>, n: nat): seq<T> {
    if |s| <= n then s else s[..n]
  }

  // ---------------------------------------------------------------------------------------
  // Duplicates

  function ContentKey(text: Text, hit: Hit): string {
    text.normalize(hit.title + "\n" + hit.snippet)
  }

  predicate HasId(hits: seq<Hit>, id: string) {
    exists i :: 0 <= i < |hits| && hits[i].id == id
  }

  predicate HasContent(text: Text, hits: seq<Hit>, content: string) {
    exists i :: 0 <= i < |hits| && ContentKey(text, hits[i]) == content
  }

  /** The hits kept: not an id seen before, nor a content already kept. */
  function Deduped(text: Text, hits: seq<Hit>): seq<Hit> {
    if |hits| == 0 then []
    else
      var before, hit := hits[..|hits| - 1], hits[|hits| - 1];
      var kept := Deduped(text, before);
      var content := ContentKey(text, hit);
      if HasId(before, hit.id) || (content != "" && HasContent(text, kept, content)) then kept else kept + [hit]
  }

  method DedupeCandidates(text: Text, hits: seq<Hit>) returns (output: seq<Hit>)
    ensures output == Deduped(text, hits)
  {
    hide HasId, HasContent;
    var byId: set<string>, byContent: set<string> := {}, {};
    output := [];
    NoHits(text);
    for i := 0 to |hits|
      invariant output == Deduped(text, hits[..i])
      invariant forall id :: id in byId <==> HasId(hits[..i], id)
      invariant forall content :: content in byContent <==> content != "" && HasContent(text, output, content)
    {
      var hit := hits[i];
      assert hits[..i + 1][..i] == hits[..i] && hits[..i + 1] == hits[..i] + [hit];
      OneMoreId(hits[..i], hit);
      if hit.id in byId { continue; }
      byId := byId + {hit.id};
      var contentKey := ContentKey(text, hit);
      if contentKey != "" && contentKey in byContent { continue; }
      if contentKey != "" {
        byContent := byContent + {contentKey};
      }
      OneMoreContent(text, output, hit);
      output := output + [hit];
    }
    assert hits[..|hits|] == hits;
  }

  lemma NoHits(text: Text)
    ensures forall id :: !HasId([], id)
    ensures forall content :: !HasContent(text, [], content)
  {
  }

  lemma OneMoreId(hits: seq<Hit>, hit: Hit)
    ensures forall id :: HasId(hits + [hit], id) <==> HasId(hits, id) || id == hit.id
  {
    forall id
      ensures HasId(hits + [hit], id) <==> HasId(hits, id) || id == hit.id
    {
      if HasId(hits, id) {
        var i :| 0 <= i < |hits| && hits[i].id == id;
        assert (hits + [hit])[i].id == id;
      }
      assert (hits + [hit])[|hits|] == hit;
    }
  }

  lemma OneMoreContent(text: Text, hits: seq<Hit>, hit: Hit)
    ensures forall content :: HasContent(text, hits + [hit], content) <==> HasContent(text, hits, content) || content == ContentKey(text, hit)
  {
    forall content
      ensures HasContent(text, hits + [hit], content) <==> HasContent(text, hits, content) || content == ContentKey(text, hit)
    {
      if HasContent(text, hits, content) {
        var i :| 0 <= i < |hits| && ContentKey(text, hits[i]) == content;
        assert (hits + [hit])[i] == hits[i];
      }
      assert (hits + [hit])[|hits|] == hit;
    }
  }

  ghost predicate DistinctIds(hits: seq<Hit>) {
    forall i, j :: 0 <= i < j < |hits| ==> hits[i].id != hits[j].id
  }

  /** No two hits have the same content, hits without any content aside. */
  ghost predicate DistinctContents(text: Text, hits: seq<Hit>) {
    forall i, j :: 0 <= i < j < |hits| && ContentKey(text, hits[i]) != "" ==> ContentKey(text, hits[i]) != ContentKey(text, hits[j])
  }

  /** What is kept comes from the input and has no id and no content twice. */
  lemma {:induction false} DedupedIsDistinct(text: Text, hits: seq<Hit>)
    ensures (forall hit :: hit in Deduped(text, hits) ==> hit in hits)
    ensures DistinctIds(Deduped(text, hits)) && DistinctContents(text, Deduped(text, hits))
  {
    hide ContentKey;
    if |hits| > 0 {
      var before, hit := hits[..|hits| - 1], hits[|hits| - 1];
      DedupedIsDistinct(text, before);
      assert hits == before + [hit];
      var kept := Deduped(text, before);
      forall i | 0 <= i < |kept| && !HasId(before, hit.id)
        ensures kept[i].id != hit.id
      {
        assert kept[i] in before;
      }
    }
  }

  /** Every hit that is dropped repeats the id of an earlier hit or the content of one that is kept. */
  lemma {:induction false} DroppedIsRepeated(text: Text, hits: seq<Hit>, i: nat)
    requires i < |hits|
    ensures hits[i] in Deduped(text, hits) || HasId(hits[..i], hits[i].id) || HasContent(text, Deduped(text, hits), ContentKey(text, hits[i]))
  {
    hide HasId, HasContent;
    var before, hit := hits[..|hits| - 1], hits[|hits| - 1];
    if i < |hits| - 1 {
      DroppedIsRepeated(text, before, i);
      assert before[..i] == hits[..i];
      OneMoreContent(text, Deduped(text, before), hit);
    }
  }

  /** Hits with distinct ids and contents are all kept. */
  lemma {:induction false} DistinctAreKept(text: Text, hits: seq<Hit>)
    requires DistinctIds(hits) && DistinctContents(text, hits)
    ensures Deduped(text, hits) == hits
  {
    if |hits| > 0 {
      DistinctAreKept(text, hits[..|hits| - 1]);
      assert hits == hits[..|hits| - 1] + [hits[|hits| - 1]];
    }
  }

  // ---------------------------------------------------------------------------------------
  // Sums that forget the order

  function Sum<T>(s: seq<T>, f: T -> nat): nat {
    if |s| == 0 then 0 else Sum(s[..|s| - 1], f) + f(s[|s| - 1])
  }

  lemma {:induction false} SumWithout<T>(s: seq<T>, f: T -> nat, i: nat)
    requires i < |s|
    ensures Sum(s, f) == Sum(s[..i] + s[i + 1..], f) + f(s[i])
  {
    if i == |s| - 1 {
      assert s[..i] + s[i + 1..] == s[..i];
    } else {
      var rest := s[..|s| - 1];
      SumWithout(rest, f, i);
      assert (s[..i] + s[i + 1..])[..|s| - 2] == rest[..i] + rest[i + 1..];
    }
  }

  lemma {:induction false} SumForgetsOrder<T>(a: seq<T>, b: seq<T>, f: T -> nat)
    requires multiset(a) == multiset(b)
    ensures Sum(a, f) == Sum(b, f)
    decreases |a|
  {
    hide Sum;
    assert |a| == |multiset(a)| == |b|;
    if |a| > 0 {
      var i := |a| - 1;
      var j := PlaceOf(b, a, i);
      SumWithout(a, f, i);
      SumWithout(b, f, j);
      RemovedAt(a, i);
      RemovedAt(b, j);
      SumForgetsOrder(a[..i] + a[i + 1..], b[..j] + b[j + 1..], f);
    }
  }

  lemma PlaceOf<T>(b: seq<T>, a: seq<T>, i: nat) returns (j: nat)
    requires i < |a| && multiset(a) == multiset(b)
    ensures j < |b| && b[j] == a[i]
  {
    assert a[i] in multiset(a);
    assert a[i] in b;
    j :| 0 <= j < |b| && b[j] == a[i];
  }

  lemma RemovedAt<T>(s: seq<T>, i: nat)
    requires i < |s|
    ensures multiset(s[..i] + s[i + 1..]) == multiset(s) - multiset{s[i]}
  {
    assert s == s[..i] + [s[i]] + s[i + 1..];
  }

  // ---------------------------------------------------------------------------------------
  // BM25

  function DocumentTokens(text: Text, hit: Hit): seq<string> {
    var title := text.tokenize(hit.title);
    First(title + title + text.tokenize(hit.snippet), 2048)
  }

  function Length(doc: seq<string>): nat {
    |doc|
  }

  /** How often `term` is counted for one document, once for each time the query has it. */
  function Counted(terms: seq<string>, term: string): seq<string> -> nat {
    (doc: seq<string>) => if term in doc then multiset(terms)[term] else 0
  }

  function Frequency(documents: seq<seq<string>>, terms: seq<string>, term: string): nat {
    Sum(documents, Counted(terms, term))
  }

  function AtLeastOne(x: real): (r: real)
    ensures r >= 1.0 && r >= x
  {
    if x > 1.0 then x else 1.0
  }

  function AverageLength(documents: seq<seq<string>>): real {
    Sum(documents, Length) as real / AtLeastOne(|documents| as real)
  }

  function Denominator(tf: nat, length: nat, average: real): (r: real)
    requires tf > 0 && average >= 0.0
    ensures r > 0.0
  {
    var share := length as real / AtLeastOne(average);
    assert share >= 0.0;
    tf as real + 1.2 * (1.0 - 0.75 + 0.75 * share)
  }

  function TermScore(log: real -> real, count: nat, df: nat, average: real, doc: seq<string>, term: string): real
    requires average >= 0.0
  {
    var tf := multiset(doc)[term];
    if tf == 0 then 0.0
    else
      var idf := log(1.0 + (count as real - df as real + 0.5) / (df as real + 0.5));
      idf * (tf as real * (1.2 + 1.0)) / Denominator(tf, |doc|, average)
  }

  lemma AverageNotNegative(documents: seq<seq<string>>)
    ensures AverageLength(documents) >= 0.0
  {
  }

  /** The score of a document for the first `n` terms. */
  function TermsScore(log: real -> real, documents: seq<seq<string>>, terms: seq<string>, doc: seq<string>, n: nat): real
    requires n <= |terms|
  {
    AverageNotNegative(documents);
    if n == 0 then 0.0
    else TermsScore(log, documents, terms, doc, n - 1)
         + TermScore(log, |documents|, Frequency(documents, terms, terms[n - 1]), AverageLength(documents), doc, terms[n - 1])
  }

  function Bm25(log: real -> real, documents: seq<seq<string>>, terms: seq<string>, doc: seq<string>): real {
    TermsScore(log, documents, terms, doc, |terms|)
  }

  /** bm25Scores with its maps of frequencies. */
  method Bm25Scores(log: real -> real, documents: seq<seq<string>>, terms: seq<string>) returns (scores: seq<real>)
    ensures |scores| == |documents| && forall i :: 0 <= i < |documents| ==> scores[i] == Bm25(log, documents, terms, documents[i])
  {
    hide TermScore, AverageLength, Frequency, Counted;
    if |documents| == 0 || |terms| == 0 {
      return seq(|documents|, _ => 0.0);
    }
    var total := 0;
    for i := 0 to |documents|
      invariant total == Sum(documents[..i], Length)
    {
      assert documents[..i + 1][..i] == documents[..i];
      total := total + |documents[i]|;
    }
    assert documents[..|documents|] == documents;
    var averageLength := total as real / AtLeastOne(|documents| as real);
    AverageIs(documents, total);
    AverageNotNegative(documents);
    var documentFrequency := DocumentFrequencies(documents, terms);
    scores := [];
    for i := 0 to |documents|
      invariant |scores| == i && forall k :: 0 <= k < i ==> scores[k] == Bm25(log, documents, terms, documents[k])
    {
      var score := 0.0;
      for n := 0 to |terms|
        invariant score == TermsScore(log, documents, terms, documents[i], n)
      {
        var df := if terms[n] in documentFrequency then documentFrequency[terms[n]] else 0;
        score := score + TermScore(log, |documents|, df, averageLength, documents[i], terms[n]);
      }
      scores := scores + [score];
    }
  }

  lemma AverageIs(documents: seq<seq<string>>, total: nat)
    requires total == Sum(documents, Length)
    ensures AverageLength(documents) == total as real / AtLeastOne(|documents| as real)
  {
  }

  /** In how many documents each term of the query occurs. */
  method DocumentFrequencies(documents: seq<seq<string>>, terms: seq<string>) returns (df: map<string, nat>)
    ensures forall n :: 0 <= n < |terms| ==> Frequency(documents, terms, terms[n]) == if terms[n] in df then df[terms[n]] else 0
  {
    hide Frequency, Counted;
    df := map[];
    forall term
      ensures Frequency([], terms, term) == 0
    {
      NoDocuments(terms, term);
    }
    assert documents[..0] == [];
    for i := 0 to |documents|
      invariant forall term :: Frequency(documents[..i], terms, term) == Entry(df, term)
    {
      var seen := documents[i];
      ghost var before := df;
      for n := 0 to |terms|
        invariant forall term :: Entry(df, term) == Entry(before, term) + if term in seen then multiset(terms[..n])[term] else 0
      {
        assert terms[..n + 1] == terms[..n] + [terms[n]];
        if terms[n] in seen {
          df := df[terms[n] := Entry(df, terms[n]) + 1];
        }
      }
      assert terms[..|terms|] == terms;
      forall term
        ensures Frequency(documents[..i + 1], terms, term) == Entry(df, term)
      {
        OneMoreDocument(documents, i, terms, term);
      }
    }
    assert documents[..|documents|] == documents;
  }

  function Entry(df: map<string, nat>, term: string): nat {
    if term in df then df[term] else 0
  }

  lemma NoDocuments(terms: seq<string>, term: string)
    ensures Frequency([], terms, term) == 0
  {
  }

  lemma OneMoreDocument(documents: seq<seq<string>>, i: nat, terms: seq<string>, term: string)
    requires i < |documents|
    ensures Frequency(documents[..i + 1], terms, term) ==
      Frequency(documents[..i], terms, term) + if term in documents[i] then multiset(terms)[term] else 0
  {
    assert documents[..i + 1][..i] == documents[..i];
  }

  /**
   BM25 with k1 = 1.2 and b = 0.75, without fractions: the score of a term that occurs tf times, over
   its inverse frequency, is 2.2 tf to tf + 0.3 + 0.9 times the document's share of the average length.
   */
  lemma TermScoreIs(log: real -> real, count: nat, df: nat, average: real, doc: seq<string>, term: string)
    requires average >= 1.0 && term in doc
    ensures var tf, share := multiset(doc)[term] as real, |doc| as real / average;
      var idf := log(1.0 + (count as real - df as real + 0.5) / (df as real + 0.5));
      10.0 * TermScore(log, count, df, average, doc, term) * (tf + 0.3 + 0.9 * share) == idf * 22.0 * tf
  {
    var tf, share := multiset(doc)[term] as real, |doc| as real / average;
    var idf := log(1.0 + (count as real - df as real + 0.5) / (df as real + 0.5));
    var d := Denominator(multiset(doc)[term], |doc|, average);
    assert AtLeastOne(average) == average;
    assert d == tf + 0.3 + 0.9 * share;
    Cancel(idf * (tf * 2.2), d);
  }

  lemma Cancel(x: real, d: real)
    requires d > 0.0
    ensures x / d * d == x
  {
  }

  /** BM25 of a document does not depend on the order of the documents. */
  lemma {:induction false} Bm25ForgetsOrder(log: real -> real, a: seq<seq<string>>, b: seq<seq<string>>, terms: seq<string>, doc: seq<string>, n: nat)
    requires multiset(a) == multiset(b) && n <= |terms|
    ensures TermsScore(log, a, terms, doc, n) == TermsScore(log, b, terms, doc, n)
  {
    hide TermScore, Counted;
    assert |a| == |multiset(a)| == |b|;
    SumForgetsOrder(a, b, Length);
    AverageIs(a, Sum(a, Length));
    AverageIs(b, Sum(b, Length));
    if n > 0 {
      SumForgetsOrder(a, b, Counted(terms, terms[n - 1]));
      Bm25ForgetsOrder(log, a, b, terms, doc, n - 1);
    }
  }

  // ---------------------------------------------------------------------------------------
  // Fusion

  function NormalizeSemantic(score: Score): (r: real)
    ensures 0.0 <= r < 1.0
  {
    match score
    case NotFinite => 0.0
    case Finite(value) =>
      if value <= 0.0 then 0.0
      else
        assert 0.0 <= value / (1.0 + value) < 1.0;
        value / (1.0 + value)
  }

  predicate Includes(s: string, part: string) {
    exists i :: 0 <= i <= |s| && part <= s[i..]
  }

  function PhraseBoost(text: Text, query: string, hit: Hit): real {
    var phrase := text.normalize(query);
    if |phrase| < 3 || |phrase| > 120 then 0.0
    else if Includes(text.normalize(hit.title + " " + hit.snippet), phrase) then 0.08 else 0.0
  }

  function Clamp01(x: real): (r: real)
    ensures 0.0 <= r <= 1.0
  {
    if x < 0.0 then 0.0 else if x > 1.0 then 1.0 else x
  }

  /** Math.max(0, ...scores) */
  function MaxOf(scores: seq<real>): (r: real)
    ensures r >= 0.0 && (forall x :: x in scores ==> x <= r) && (r == 0.0 || r in scores)
  {
    if |scores| == 0 then 0.0
    else
      var rest := MaxOf(scores[1..]);
      assert scores == [scores[0]] + scores[1..];
      if scores[0] > rest then scores[0] else rest
  }

  lemma MaxForgetsOrder(a: seq<real>, b: seq<real>)
    requires forall x :: x in a <==> x in b
    ensures MaxOf(a) == MaxOf(b)
  {
  }

  function Documents(text: Text, hits: seq<Hit>): (r: seq<seq<string>>)
    ensures |r| == |hits| && forall i :: 0 <= i < |r| ==> r[i] == DocumentTokens(text, hits[i])
  {
    seq(|hits|, i requires 0 <= i < |hits| => DocumentTokens(text, hits[i]))
  }

  function LexicalOf(text: Text, hits: seq<Hit>, terms: seq<string>): (r: seq<real>)
    ensures |r| == |hits|
    ensures forall i :: 0 <= i < |r| ==> r[i] == Bm25(text.log, Documents(text, hits), terms, DocumentTokens(text, hits[i]))
  {
    seq(|hits|, i requires 0 <= i < |hits| => Bm25(text.log, Documents(text, hits), terms, DocumentTokens(text, hits[i])))
  }

  function TokenSet(doc: seq<string>): set<string> {
    set token | token in doc
  }

  /** A hit scored among all the hits kept. */
  function Scored(text: Text, query: string, terms: seq<string>, raw: real, most: real, hit: Hit): Candidate {
    var semantic := NormalizeSemantic(hit.score);
    var lexical := if most > 0.0 then raw / most else 0.0;
    Candidate(hit, TokenSet(DocumentTokens(text, hit)), semantic, lexical,
              Clamp01(SEMANTIC_WEIGHT * semantic + LEXICAL_WEIGHT * lexical + PhraseBoost(text, query, hit)))
  }

  function QueryTerms(text: Text, query: string): seq<string> {
    First(text.tokenize(query), 32)
  }

  function Candidates(text: Text, query: string, hits: seq<Hit>): (r: seq<Candidate>)
    ensures |r| == |hits| && forall i :: 0 <= i < |r| ==> r[i].hit == hits[i]
  {
    var terms := QueryTerms(text, query);
    var raw := LexicalOf(text, hits, terms);
    seq(|hits|, i requires 0 <= i < |hits| => Scored(text, query, terms, raw[i], MaxOf(raw), hits[i]))
  }

  /** Lexical scores are relative to the best one: none is above 1, and the best is 1 if any is positive. */
  lemma LexicalIsRelative(text: Text, query: string, hits: seq<Hit>)
    ensures forall c :: c in Candidates(text, query, hits) ==> c.lexical <= 1.0 && 0.0 <= c.fused <= 1.0
    ensures MaxOf(LexicalOf(text, hits, QueryTerms(text, query))) > 0.0 ==>
      exists c :: c in Candidates(text, query, hits) && c.lexical == 1.0
  {
    hide Bm25, DocumentTokens, Scored;
    var terms := QueryTerms(text, query);
    var raw := LexicalOf(text, hits, terms);
    var all := Candidates(text, query, hits);
    forall i | 0 <= i < |hits|
      ensures all[i].lexical <= 1.0 && 0.0 <= all[i].fused <= 1.0
    {
      assert raw[i] in raw;
      ScoredRange(text, query, terms, raw[i], MaxOf(raw), hits[i]);
    }
    if MaxOf(raw) > 0.0 {
      var i :| 0 <= i < |raw| && raw[i] == MaxOf(raw);
      ScoredRange(text, query, terms, raw[i], MaxOf(raw), hits[i]);
      assert all[i] in all;
    }
  }

  lemma ScoredRange(text: Text, query: string, terms: seq<string>, raw: real, most: real, hit: Hit)
    requires raw <= most
    ensures var c := Scored(text, query, terms, raw, most, hit);
      c.lexical <= 1.0 && 0.0 <= c.fused <= 1.0 && (raw == most && most > 0.0 ==> c.lexical == 1.0)
  {
    hide PhraseBoost, NormalizeSemantic, DocumentTokens;
    Share(raw, most);
  }

  lemma Share(x: real, most: real)
    requires x <= most
    ensures most > 0.0 ==> x / most <= 1.0 && (x == most ==> x / most == 1.0)
  {
  }

  ghost predicate Distinct(terms: seq<string>) {
    forall i, j :: 0 <= i < j < |terms| ==> terms[i] != terms[j]
  }

  ghost predicate PositiveAboveOne(log: real -> real) {
    forall x: real :: x > 1.0 ==> log(x) > 0.0
  }

  predicate Matches(terms: seq<string>, tokens: set<string>) {
    exists n :: 0 <= n < |terms| && terms[n] in tokens
  }

  lemma {:induction false} OnceEach(terms: seq<string>, term: string)
    requires Distinct(terms)
    ensures multiset(terms)[term] <= 1
  {
    if |terms| > 0 {
      var n := |terms| - 1;
      assert terms == terms[..n] + [terms[n]];
      OnceEach(terms[..n], term);
      if terms[n] == term {
        assert term !in terms[..n];
      }
    }
  }

  lemma {:induction false} SumAtMostLength<T>(s: seq<T>, f: T -> nat)
    requires forall x :: f(x) <= 1
    ensures Sum(s, f) <= |s|
  {
    if |s| > 0 {
      SumAtMostLength(s[..|s| - 1], f);
    }
  }

  /** A term in no more documents than there are counts for those that have it, and for no other. */
  lemma TermScoreSign(log: real -> real, count: nat, df: nat, average: real, doc: seq<string>, term: string)
    requires PositiveAboveOne(log) && df <= count && average >= 0.0
    ensures TermScore(log, count, df, average, doc, term) >= 0.0
    ensures TermScore(log, count, df, average, doc, term) > 0.0 <==> term in doc
  {
    hide Denominator;
    var tf := multiset(doc)[term];
    if tf > 0 {
      var odds := (count as real - df as real + 0.5) / (df as real + 0.5);
      var idf := log(1.0 + odds);
      Quotient(count as real - df as real + 0.5, df as real + 0.5);
      Product(idf, tf as real * (1.2 + 1.0));
      Quotient(idf * (tf as real * (1.2 + 1.0)), Denominator(tf, |doc|, average));
    }
  }

  lemma Quotient(x: real, y: real)
    requires x > 0.0 && y > 0.0
    ensures x / y > 0.0
  {
  }

  lemma Product(x: real, y: real)
    requires x > 0.0 && y > 0.0
    ensures x * y > 0.0
  {
  }

  lemma {:induction false} TermsScoreSign(log: real -> real, documents: seq<seq<string>>, terms: seq<string>, doc: seq<string>, n: nat)
    requires PositiveAboveOne(log) && Distinct(terms) && n <= |terms|
    ensures TermsScore(log, documents, terms, doc, n) >= 0.0
    ensures TermsScore(log, documents, terms, doc, n) > 0.0 <==> exists m :: 0 <= m < n && terms[m] in doc
  {
    hide TermScore, PositiveAboveOne, Distinct, AverageLength;
    if n > 0 {
      TermsScoreSign(log, documents, terms, doc, n - 1);
      OnceEach(terms, terms[n - 1]);
      SumAtMostLength(documents, Counted(terms, terms[n - 1]));
      AverageNotNegative(documents);
      TermScoreSign(log, |documents|, Frequency(documents, terms, terms[n - 1]), AverageLength(documents), doc, terms[n - 1]);
    }
  }

  /**
   The tokenizer repeats no token, so no lexical score is negative, and it is positive exactly for
   the hits that have one of the first 32 tokens of the query.
   */
  lemma LexicalIffMatched(text: Text, query: string, hits: seq<Hit>)
    requires Distinct(text.tokenize(query)) && PositiveAboveOne(text.log)
    ensures forall c :: c in Candidates(text, query, hits) ==>
      0.0 <= c.lexical <= 1.0 && (c.lexical > 0.0 <==> HasQueryTerm(text, query, c.tokens))
  {
    hide DocumentTokens, Scored, TermsScore, PositiveAboveOne, Matches, HasQueryTerm;
    var terms := QueryTerms(text, query);
    var raw := LexicalOf(text, hits, terms);
    var all := Candidates(text, query, hits);
    LexicalIsRelative(text, query, hits);
    forall i | 0 <= i < |hits|
      ensures all[i].lexical >= 0.0 && (all[i].lexical > 0.0 <==> Matches(terms, all[i].tokens))
    {
      var doc := DocumentTokens(text, hits[i]);
      assert raw[i] in raw;
      TermsScoreSign(text.log, Documents(text, hits), terms, doc, |terms|);
      ScoredSign(text, query, terms, raw[i], MaxOf(raw), hits[i]);
    }
    forall tokens ensures Matches(terms, tokens) <==> HasQueryTerm(text, query, tokens) { MatchesIff(text, query, tokens); }
  }

  predicate HasQueryTerm(text: Text, query: string, tokens: set<string>) {
    exists n :: 0 <= n < |text.tokenize(query)| && n < 32 && text.tokenize(query)[n] in tokens
  }

  lemma MatchesIff(text: Text, query: string, tokens: set<string>)
    ensures Matches(QueryTerms(text, query), tokens) <==> HasQueryTerm(text, query, tokens)
  {
    var terms := QueryTerms(text, query);
    if n :| 0 <= n < |text.tokenize(query)| && n < 32 && text.tokenize(query)[n] in tokens {
      assert terms[n] in tokens;
    }
  }

  lemma ScoredSign(text: Text, query: string, terms: seq<string>, raw: real, most: real, hit: Hit)
    requires 0.0 <= raw <= most && (raw > 0.0 <==> exists m :: 0 <= m < |terms| && terms[m] in DocumentTokens(text, hit))
    ensures var c := Scored(text, query, terms, raw, most, hit);
      c.lexical >= 0.0 && (c.lexical > 0.0 <==> Matches(terms, c.tokens))
  {
    hide PhraseBoost, NormalizeSemantic, DocumentTokens;
    if raw > 0.0 { Quotient(raw, most); }
    assert forall term :: term in TokenSet(DocumentTokens(text, hit)) <==> term in DocumentTokens(text, hit);
  }

  /** The normalised query occurs in the hit, and has 3 to 120 characters. */
  predicate HasPhrase(text: Text, query: string, hit: Hit) {
    var phrase := text.normalize(query);
    3 <= |phrase| <= 120 && exists i :: 0 <= i <= |text.normalize(hit.title + " " + hit.snippet)| && phrase <= text.normalize(hit.title + " " + hit.snippet)[i..]
  }

  /**
   What a fused score is made of: 68 parts of the semantic score and 32 of the lexical one in a hundred,
   8 hundredths for the phrase, and at most 1.  A positive semantic score v counts v / (1 + v), which is
   a half at 1; any other counts nothing.
   */
  lemma FusedIs(text: Text, query: string, terms: seq<string>, raw: real, most: real, hit: Hit)
    requires 0.0 <= raw <= most
    ensures var c := Scored(text, query, terms, raw, most, hit);
      var sum := (68.0 * c.semantic + 32.0 * c.lexical + (if HasPhrase(text, query, hit) then 8.0 else 0.0)) / 100.0;
      && c.fused == (if sum > 1.0 then 1.0 else sum)
      && c.lexical * most == raw && 0.0 <= c.semantic
      && (hit.score.Finite? && hit.score.value > 0.0 ==> c.semantic * (1.0 + hit.score.value) == hit.score.value)
      && (hit.score.NotFinite? || hit.score.value <= 0.0 ==> c.semantic == 0.0)
      && c.tokens == set token | token in DocumentTokens(text, hit)
  {
    hide DocumentTokens;
    PhraseIs(text, query, hit);
    LexicalShare(raw, most);
    if hit.score.Finite? && hit.score.value > 0.0 { SemanticShare(hit.score.value); }
  }

  lemma PhraseIs(text: Text, query: string, hit: Hit)
    ensures PhraseBoost(text, query, hit) == if HasPhrase(text, query, hit) then 0.08 else 0.0
  {
  }

  lemma LexicalShare(raw: real, most: real)
    requires 0.0 <= raw <= most
    ensures most > 0.0 ==> raw / most * most == raw && raw / most >= 0.0
  {
  }

  lemma SemanticShare(value: real)
    requires value > 0.0
    ensures value / (1.0 + value) * (1.0 + value) == value
  {
  }

  /** A document's tokens: those of the title count twice, and at most 2048 count in all. */
  lemma TitleCountsTwice(text: Text, hit: Hit)
    ensures var title, body := text.tokenize(hit.title), text.tokenize(hit.snippet);
      2 * |title| + |body| <= 2048 ==>
        && |DocumentTokens(text, hit)| == 2 * |title| + |body|
        && forall token :: multiset(DocumentTokens(text, hit))[token] == 2 * multiset(title)[token] + multiset(body)[token]
    ensures |DocumentTokens(text, hit)| <= 2048 && DocumentTokens(text, hit) <= text.tokenize(hit.title) + text.tokenize(hit.title) + text.tokenize(hit.snippet)
  {
  }

  /** With the same words a hit of higher semantic score never fuses lower. */
  lemma FusionIsMonotone(text: Text, query: string, terms: seq<string>, raw: real, most: real, a: Hit, b: Hit)
    requires a.title == b.title && a.snippet == b.snippet && a.score.Finite? && b.score.Finite? && a.score.value <= b.score.value
    ensures Scored(text, query, terms, raw, most, a).fused <= Scored(text, query, terms, raw, most, b).fused
    ensures 0.0 < a.score.value < b.score.value ==>
      Scored(text, query, terms, raw, most, a).semantic < Scored(text, query, terms, raw, most, b).semantic
  {
    if a.score.value > 0.0 {
      Saturation(a.score.value, b.score.value);
    }
  }

  lemma Saturation(x: real, y: real)
    requires 0.0 < x <= y
    ensures x / (1.0 + x) <= y / (1.0 + y)
    ensures x < y ==> x / (1.0 + x) < y / (1.0 + y)
  {
    assert x / (1.0 + x) == 1.0 - 1.0 / (1.0 + x);
    assert y / (1.0 + y) == 1.0 - 1.0 / (1.0 + y);
  }

  // ---------------------------------------------------------------------------------------
  // Selection

  function Similarity(left: set<string>, right: set<string>): real {
    if left == {} || right == {} then 0.0
    else |left * right| as real / |left + right| as real
  }

  lemma SimilarityRange(left: set<string>, right: set<string>)
    ensures 0.0 <= Similarity(left, right) <= 1.0
    ensures Similarity(left, right) == Similarity(right, left)
    ensures Similarity(left, right) == 1.0 <==> left == right && left != {}
  {
    assert left * right == right * left && left + right == right + left;
    if left != {} && right != {} {
      var both, all := left * right, left + right;
      assert all == both + (all - both);
      assert |all| == |both| + |all - both|;
      if |both| == |all| {
        assert all - both == {};
        assert left == right;
      }
      if left == right {
        assert both == all;
      }
      Fraction(|both|, |all|);
    }
  }

  lemma Fraction(x: nat, y: nat)
    requires x <= y && y > 0
    ensures 0.0 <= x as real / y as real <= 1.0
    ensures x as real / y as real == 1.0 <==> x == y
  {
  }

  /** jaccard: counts the common tokens one by one. */
  method Jaccard(left: set<string>, right: set<string>) returns (r: real)
    ensures r == Similarity(left, right)
  {
    if |left| == 0 || |right| == 0 { return 0.0; }
    var intersection, todo := 0, left;
    while todo != {}
      invariant todo <= left && intersection == |(left - todo) * right|
      decreases todo
    {
      var token :| token in todo;
      if token in right {
        assert (left - (todo - {token})) * right == (left - todo) * right + {token};
        intersection := intersection + 1;
      } else {
        assert (left - (todo - {token})) * right == (left - todo) * right;
      }
      todo := todo - {token};
    }
    assert (left - todo) * right == left * right;
    UnionSize(left, right);
    var union := |left| + |right| - intersection;
    return if union > 0 then intersection as real / union as real else 0.0;
  }

  lemma UnionSize(left: set<string>, right: set<string>)
    ensures |left + right| == |left| + |right| - |left * right|
    ensures left != {} ==> |left + right| > 0
  {
    assert left + right == left + (right - left * right);
    assert |right - left * right| == |right| - |left * right|;
  }

  /** The greatest similarity to what is selected. */
  function Closest(tokens: set<string>, selected: seq<Candidate>): real {
    if |selected| == 0 then 0.0
    else
      var rest := Closest(tokens, selected[..|selected| - 1]);
      var last := Similarity(tokens, selected[|selected| - 1].tokens);
      if |selected| == 1 || last > rest then last else rest
  }

  function Adjusted(c: Candidate, selected: seq<Candidate>): real {
    c.fused - DIVERSITY_PENALTY * Closest(c.tokens, selected)
  }

  /** `c` goes before `d`: by adjusted score, then fused score, then id. */
  predicate Better(c: Candidate, d: Candidate, selected: seq<Candidate>) {
    || Adjusted(c, selected) > Adjusted(d, selected)
    || (Adjusted(c, selected) == Adjusted(d, selected)
        && (c.fused > d.fused || (c.fused == d.fused && Sorting.Less(c.hit.id, d.hit.id))))
  }

  ghost predicate DistinctHits(candidates: seq<Candidate>) {
    forall i, j :: 0 <= i < j < |candidates| ==> candidates[i].hit.id != candidates[j].hit.id
  }

  /** Better than everything else in `rest`. */
  ghost predicate IsBest(c: Candidate, rest: seq<Candidate>, selected: seq<Candidate>) {
    c in rest && forall d :: d in rest && d != c ==> Better(c, d, selected)
  }

  /** Every pick is the best of what the earlier picks left over. */
  ghost predicate IsGreedy(candidates: seq<Candidate>, selected: seq<Candidate>) {
    && DistinctHits(selected)
    && (forall c :: c in selected ==> c in candidates)
    && forall k :: 0 <= k < |selected| ==> IsPick(candidates, selected[..k], selected[k])
  }

  ghost predicate IsPick(candidates: seq<Candidate>, before: seq<Candidate>, pick: Candidate) {
    pick !in before && forall d :: d in candidates && d !in before && d != pick ==> Better(pick, d, before)
  }

  lemma BetterIsStrict(c: Candidate, d: Candidate, e: Candidate, selected: seq<Candidate>)
    ensures !(Better(c, d, selected) && Better(d, c, selected))
    ensures Better(c, d, selected) && Better(d, e, selected) ==> Better(c, e, selected)
    ensures c.hit.id != d.hit.id ==> Better(c, d, selected) || Better(d, c, selected)
  {
    Sorting.LessTotal(c.hit.id, d.hit.id);
    Sorting.LessIrreflexive(c.hit.id);
    if Sorting.Less(c.hit.id, d.hit.id) && Sorting.Less(d.hit.id, c.hit.id) {
      Sorting.LessTransitive(c.hit.id, d.hit.id, c.hit.id);
    }
    if Sorting.Less(c.hit.id, d.hit.id) && Sorting.Less(d.hit.id, e.hit.id) {
      Sorting.LessTransitive(c.hit.id, d.hit.id, e.hit.id);
    }
  }

  /** The inner loop: the place of the best of what remains. */
  method BestOf(remaining: seq<Candidate>, selected: seq<Candidate>) returns (bestIndex: nat)
    requires |remaining| > 0 && DistinctHits(remaining)
    ensures bestIndex < |remaining| && IsBest(remaining[bestIndex], remaining, selected)
  {
    hide Better, Adjusted;
    bestIndex := 0;
    var bestAdjusted: Option<real> := None;       // negative infinity
    for index := 0 to |remaining|
      invariant bestIndex < |remaining| && (index == 0 ==> bestAdjusted.None?)
      invariant index > 0 ==> bestIndex < index && bestAdjusted == Some(Adjusted(remaining[bestIndex], selected))
      invariant forall k :: 0 <= k < index && k != bestIndex ==> Better(remaining[bestIndex], remaining[k], selected)
    {
      var candidate, best := remaining[index], remaining[bestIndex];
      var similarity := 0.0;
      if |selected| > 0 {
        similarity := ClosestOf(candidate.tokens, selected);
      }
      var adjusted := candidate.fused - DIVERSITY_PENALTY * similarity;
      AdjustedIs(candidate, selected, similarity);
      var better := bestAdjusted.None? || adjusted > bestAdjusted.value
        || (adjusted == bestAdjusted.value && candidate.fused > best.fused)
        || (adjusted == bestAdjusted.value && candidate.fused == best.fused && Sorting.Less(candidate.hit.id, best.hit.id));
      if index > 0 {
        BetterIs(candidate, best, selected);
        assert remaining[bestIndex].hit.id != remaining[index].hit.id;
        BetterIsStrict(best, candidate, candidate, selected);
      }
      if better {
        TakesOver(remaining, selected, bestIndex, index);
        bestIndex := index;
        bestAdjusted := Some(adjusted);
      }
    }
    forall d | d in remaining && d != remaining[bestIndex]
      ensures Better(remaining[bestIndex], d, selected)
    {
      var k :| 0 <= k < |remaining| && remaining[k] == d;
    }
  }

  lemma AdjustedIs(c: Candidate, selected: seq<Candidate>, similarity: real)
    requires similarity == Closest(c.tokens, selected)
    ensures Adjusted(c, selected) == c.fused - DIVERSITY_PENALTY * similarity
  {
  }

  lemma BetterIs(c: Candidate, d: Candidate, selected: seq<Candidate>)
    ensures Better(c, d, selected) <==>
      || Adjusted(c, selected) > Adjusted(d, selected)
      || (Adjusted(c, selected) == Adjusted(d, selected) && c.fused > d.fused)
      || (Adjusted(c, selected) == Adjusted(d, selected) && c.fused == d.fused && Sorting.Less(c.hit.id, d.hit.id))
  {
  }

  /** What was worse than the best so far is worse than the one that beats it. */
  lemma TakesOver(remaining: seq<Candidate>, selected: seq<Candidate>, best: nat, index: nat)
    requires best < |remaining| && index < |remaining| && (index > 0 ==> Better(remaining[index], remaining[best], selected))
    requires forall k :: 0 <= k < index && k != best ==> Better(remaining[best], remaining[k], selected)
    ensures forall k :: 0 <= k < index ==> Better(remaining[index], remaining[k], selected)
  {
    hide Better;
    forall k | 0 <= k < index
      ensures Better(remaining[index], remaining[k], selected)
    {
      if k != best {
        BetterIsStrict(remaining[index], remaining[best], remaining[k], selected);
      }
    }
  }

  /** Math.max over the similarities to the selected ones. */
  method ClosestOf(tokens: set<string>, selected: seq<Candidate>) returns (r: real)
    requires |selected| > 0
    ensures r == Closest(tokens, selected)
  {
    r := Jaccard(tokens, selected[0].tokens);
    assert selected[..1] == [selected[0]];
    for i := 1 to |selected|
      invariant r == Closest(tokens, selected[..i])
    {
      var similarity := Jaccard(tokens, selected[i].tokens);
      assert selected[..i + 1][..i] == selected[..i];
      if similarity > r {
        r := similarity;
      }
    }
    assert selected[..|selected|] == selected;
  }

  /** The outer loop: picks the best, moves it from the remaining to the selected, until the limit. */
  method Select(scored: seq<Candidate>, limit: nat) returns (selected: seq<Candidate>)
    requires DistinctHits(scored)
    ensures IsGreedy(scored, selected)
    ensures |selected| == if |scored| < limit then |scored| else limit
  {
    hide Better;
    selected := [];
    var remaining := scored;
    while |remaining| > 0 && |selected| < limit
      invariant |remaining| + |selected| == |scored| && |selected| <= limit
      invariant DistinctHits(remaining) && IsGreedy(scored, selected)
      invariant forall c :: c in scored <==> c in remaining || c in selected
      invariant forall c :: c in remaining ==> c !in selected
      decreases |remaining|
    {
      var best := BestOf(remaining, selected);
      var picked := remaining[best];
      PickExtends(scored, remaining, selected, best);
      remaining := remaining[..best] + remaining[best + 1..];
      selected := selected + [picked];
    }
  }

  lemma PickExtends(scored: seq<Candidate>, remaining: seq<Candidate>, selected: seq<Candidate>, best: nat)
    requires DistinctHits(scored) && DistinctHits(remaining) && IsGreedy(scored, selected)
    requires best < |remaining| && IsBest(remaining[best], remaining, selected)
    requires forall c :: c in scored <==> c in remaining || c in selected
    requires forall c :: c in remaining ==> c !in selected
    ensures var rest, more := remaining[..best] + remaining[best + 1..], selected + [remaining[best]];
      && DistinctHits(rest) && IsGreedy(scored, more)
      && (forall c :: c in scored <==> c in rest || c in more)
      && (forall c :: c in rest ==> c !in more)
  {
    hide Better;
    var picked := remaining[best];
    var rest, more := remaining[..best] + remaining[best + 1..], selected + [picked];
    assert remaining == remaining[..best] + [picked] + remaining[best + 1..];
    forall k | 0 <= k < |rest|
      ensures rest[k] != picked && rest[k] in remaining
    {
      assert rest[k] == remaining[if k < best then k else k + 1];
    }
    forall k | 0 <= k < |more|
      ensures IsPick(scored, more[..k], more[k])
    {
      if k < |selected| {
        assert more[..k] == selected[..k];
        assert IsPick(scored, selected[..k], selected[k]);
      } else {
        assert more[..k] == selected;
      }
    }
    forall i | 0 <= i < |selected|
      ensures selected[i].hit.id != picked.hit.id
    {
      DifferentIds(scored, selected[i], picked);
    }
  }

  lemma DifferentIds(scored: seq<Candidate>, c: Candidate, d: Candidate)
    requires DistinctHits(scored) && c in scored && d in scored && c != d
    ensures c.hit.id != d.hit.id
  {
    var i :| 0 <= i < |scored| && scored[i] == c;
    var j :| 0 <= j < |scored| && scored[j] == d;
  }

  /** The greedy selection is determined by the candidates, whatever order they come in. */
  lemma {:induction false} GreedyIsUnique(a: seq<Candidate>, b: seq<Candidate>, x: seq<Candidate>, y: seq<Candidate>, n: nat)
    requires DistinctHits(a) && (forall c :: c in a <==> c in b)
    requires IsGreedy(a, x) && IsGreedy(b, y) && n <= |x| && n <= |y|
    ensures x[..n] == y[..n]
    decreases n
  {
    hide Better, IsPick;
    if n > 0 {
      GreedyIsUnique(a, b, x, y, n - 1);
      var before, c, d := x[..n - 1], x[n - 1], y[n - 1];
      assert IsPick(a, before, c) && IsPick(b, before, d);
      assert c in x && d in y;
      OnePick(a, b, before, c, d);
      assert x[..n] == before + [c] && y[..n] == before + [d];
    }
  }

  lemma OnePick(a: seq<Candidate>, b: seq<Candidate>, before: seq<Candidate>, c: Candidate, d: Candidate)
    requires (forall e :: e in a <==> e in b) && c in a && d in b
    requires IsPick(a, before, c) && IsPick(b, before, d)
    ensures c == d
  {
    hide Better;
    BetterIsStrict(c, d, c, before);
  }

  // ---------------------------------------------------------------------------------------
  // What similarity to an earlier pick costs

  /** The closeness to what is selected is the greatest similarity to any of it. */
  lemma {:induction false} ClosestIsGreatest(tokens: set<string>, selected: seq<Candidate>)
    ensures forall i :: 0 <= i < |selected| ==> Similarity(tokens, selected[i].tokens) <= Closest(tokens, selected)
    ensures selected != [] ==> exists i :: 0 <= i < |selected| && Similarity(tokens, selected[i].tokens) == Closest(tokens, selected)
    ensures selected == [] ==> Closest(tokens, selected) == 0.0
  {
    hide Similarity;
    if |selected| > 0 {
      var before, last := selected[..|selected| - 1], |selected| - 1;
      ClosestIsGreatest(tokens, before);
      assert forall i :: 0 <= i < last ==> before[i] == selected[i];
      if |selected| > 1 && Similarity(tokens, selected[last].tokens) <= Closest(tokens, before) {
        var i :| 0 <= i < |before| && Similarity(tokens, before[i].tokens) == Closest(tokens, before);
        assert Similarity(tokens, selected[i].tokens) == Closest(tokens, selected);
      } else {
        assert Similarity(tokens, selected[last].tokens) == Closest(tokens, selected);
      }
    }
  }

  /** It shares no token with anything selected. */
  predicate Apart(tokens: set<string>, selected: seq<Candidate>) {
    forall i :: 0 <= i < |selected| ==> tokens !! selected[i].tokens
  }

  /** Something selected has exactly its tokens. */
  predicate Repeats(tokens: set<string>, selected: seq<Candidate>) {
    tokens != {} && exists i :: 0 <= i < |selected| && selected[i].tokens == tokens
  }

  lemma ClosestRange(tokens: set<string>, selected: seq<Candidate>)
    ensures 0.0 <= Closest(tokens, selected) <= 1.0
    ensures Closest(tokens, selected) == 0.0 <==> Apart(tokens, selected)
    ensures Closest(tokens, selected) == 1.0 <==> Repeats(tokens, selected)
  {
    hide Similarity, Closest;
    ClosestIsGreatest(tokens, selected);
    forall i | 0 <= i < |selected|
      ensures 0.0 <= Similarity(tokens, selected[i].tokens) <= 1.0
      ensures Similarity(tokens, selected[i].tokens) == 0.0 <==> tokens !! selected[i].tokens
      ensures Similarity(tokens, selected[i].tokens) == 1.0 <==> tokens == selected[i].tokens && tokens != {}
    {
      SimilarityRange(tokens, selected[i].tokens);
      NothingShared(tokens, selected[i].tokens);
    }
    if selected != [] {
      var i :| 0 <= i < |selected| && Similarity(tokens, selected[i].tokens) == Closest(tokens, selected);
    }
  }

  lemma NothingShared(left: set<string>, right: set<string>)
    ensures Similarity(left, right) == 0.0 <==> left !! right
  {
    if left != {} && right != {} {
      UnionSize(left, right);
      if left * right == {} {
        forall x | x in left ensures x !in right { assert x !in left * right; }
      } else {
        var x :| x in left * right;
      }
      Positive(|left * right|, |left + right|);
    }
  }

  lemma Positive(x: nat, y: nat)
    requires y > 0
    ensures x as real / y as real == 0.0 <==> x == 0
  {
  }

  /**
   One candidate goes before another exactly if its lead in fused score exceeds twelve hundredths of
   what it is closer to the earlier picks; at a tie the one of higher fused score, and then the lower id.
   */
  lemma LeadDecides(c: Candidate, d: Candidate, selected: seq<Candidate>)
    ensures var lead, cost := c.fused - d.fused, (Closest(c.tokens, selected) - Closest(d.tokens, selected)) * 12.0 / 100.0;
      Better(c, d, selected) <==> lead > cost || (lead == cost && (lead > 0.0 || (lead == 0.0 && Sorting.Less(c.hit.id, d.hit.id))))
  {
  }

  /**
   Why one candidate comes before another after the earlier picks: of two with equal fused scores the
   one closer to an earlier pick is not preferred; one that shares no token with any earlier pick is
   never passed over for one of lower fused score; and one that repeats an earlier pick goes before such
   a one exactly with a lead of at least 0.12.
   */
  predicate Prefers(before: seq<Candidate>, pick: Candidate, other: Candidate) {
    && (pick.fused == other.fused ==> Closest(pick.tokens, before) <= Closest(other.tokens, before))
    && (Apart(other.tokens, before) ==> pick.fused >= other.fused)
    && (Apart(other.tokens, before) && Repeats(pick.tokens, before) ==> pick.fused - other.fused >= 0.12)
    && (Apart(pick.tokens, before) && Repeats(other.tokens, before) ==> other.fused - pick.fused < 0.12)
  }

  /** A pick of the selection is preferred to everything that the earlier picks left. */
  lemma PickIsDiverse(candidates: seq<Candidate>, before: seq<Candidate>, pick: Candidate, other: Candidate)
    requires IsPick(candidates, before, pick) && other in candidates && other !in before && other != pick
    ensures Prefers(before, pick, other)
  {
    hide Better, Closest, Apart, Repeats;
    LeadDecides(pick, other, before);
    ClosestRange(pick.tokens, before);
    ClosestRange(other.tokens, before);
    Sorting.LessIrreflexive(pick.hit.id);
  }

  /** The first pick has the highest fused score. */
  lemma FirstIsHighest(candidates: seq<Candidate>, selected: seq<Candidate>, other: Candidate)
    requires IsGreedy(candidates, selected) && |selected| > 0 && other in candidates
    ensures selected[0].fused >= other.fused
  {
    hide Better;
    assert IsPick(candidates, selected[..0], selected[0]);
    assert selected[..0] == [];
    if other != selected[0] {
      PickIsDiverse(candidates, [], selected[0], other);
    }
  }

  // ---------------------------------------------------------------------------------------
  // The ranking

  /** rankRecallHits: the hits in the order of selection, with their candidates. */
  method RankRecallHits(text: Text, hits: seq<Hit>, query: string, limit: int) returns (ranked: seq<Candidate>)
    ensures IsGreedy(Candidates(text, query, Deduped(text, hits)), ranked)
    ensures var deduped, bound := |Deduped(text, hits)|, if limit < 1 then 1 else if limit > 50 then 50 else limit;
      |ranked| == if deduped < bound then deduped else bound
    ensures forall c :: c in ranked ==> c.hit in hits
    ensures forall k, c :: 0 <= k < |ranked| && c in Candidates(text, query, Deduped(text, hits)) && c !in ranked[..k] && c != ranked[k] ==>
      Prefers(ranked[..k], ranked[k], c)
  {
    hide Scored, IsGreedy, Better, Prefers;
    var boundedLimit := BoundedLimit(limit);
    var queryTerms := QueryTerms(text, query);
    var uniqueCandidates := DedupeCandidates(text, hits);
    DedupedIsDistinct(text, hits);
    var lexicalRaw := Bm25Scores(text.log, Documents(text, uniqueCandidates), queryTerms);
    assert lexicalRaw == LexicalOf(text, uniqueCandidates, queryTerms);
    var maxLexical := MaxOf(lexicalRaw);
    var scored := seq(|uniqueCandidates|, i requires 0 <= i < |uniqueCandidates| && |lexicalRaw| == |uniqueCandidates| =>
      Scored(text, query, queryTerms, lexicalRaw[i], maxLexical, uniqueCandidates[i]));
    assert scored == Candidates(text, query, uniqueCandidates);
    ranked := Select(scored, boundedLimit);
    RankedAreHits(text, query, uniqueCandidates, ranked);
    forall k, c | 0 <= k < |ranked| && c in scored && c !in ranked[..k] && c != ranked[k]
      ensures Prefers(ranked[..k], ranked[k], c)
    {
      GreedyPrefers(scored, ranked, k, c);
    }
  }

  lemma GreedyPrefers(candidates: seq<Candidate>, selected: seq<Candidate>, k: nat, other: Candidate)
    requires IsGreedy(candidates, selected) && k < |selected|
    requires other in candidates && other !in selected[..k] && other != selected[k]
    ensures Prefers(selected[..k], selected[k], other)
  {
    hide Better, Prefers;
    assert IsPick(candidates, selected[..k], selected[k]);
    PickIsDiverse(candidates, selected[..k], selected[k], other);
  }

  lemma RankedAreHits(text: Text, query: string, hits: seq<Hit>, ranked: seq<Candidate>)
    requires IsGreedy(Candidates(text, query, hits), ranked)
    ensures forall c :: c in ranked ==> c.hit in hits
  {
    hide Scored;
    forall c | c in ranked
      ensures c.hit in hits
    {
      assert c in Candidates(text, query, hits);
      var i :| 0 <= i < |hits| && Candidates(text, query, hits)[i] == c;
      assert hits[i] in hits;
    }
  }

  lemma DocumentsPermuted(text: Text, a: seq<Hit>, b: seq<Hit>)
    requires DistinctIds(a) && DistinctIds(b) && (forall hit :: hit in a <==> hit in b)
    ensures multiset(Documents(text, a)) == multiset(Documents(text, b))
  {
    SameMultiset(a, b);
    MappedPermuted(text, a, b);
  }

  lemma SameMultiset(a: seq<Hit>, b: seq<Hit>)
    requires DistinctIds(a) && DistinctIds(b) && (forall hit :: hit in a <==> hit in b)
    ensures multiset(a) == multiset(b)
  {
    Sorting.SameElements(a, b);
  }

  function IsDocument(text: Text, doc: seq<string>): Hit -> nat {
    (hit: Hit) => if DocumentTokens(text, hit) == doc then 1 else 0
  }

  lemma {:induction false} DocumentCount(text: Text, hits: seq<Hit>, doc: seq<string>)
    ensures multiset(Documents(text, hits))[doc] == Sum(hits, IsDocument(text, doc))
  {
    hide DocumentTokens;
    if |hits| > 0 {
      var before := hits[..|hits| - 1];
      DocumentCount(text, before, doc);
      assert Documents(text, hits) == Documents(text, before) + [DocumentTokens(text, hits[|hits| - 1])];
    }
  }

  lemma MappedPermuted(text: Text, a: seq<Hit>, b: seq<Hit>)
    requires multiset(a) == multiset(b)
    ensures multiset(Documents(text, a)) == multiset(Documents(text, b))
  {
    hide Documents, IsDocument;
    forall doc
      ensures multiset(Documents(text, a))[doc] == multiset(Documents(text, b))[doc]
    {
      DocumentCount(text, a, doc);
      DocumentCount(text, b, doc);
      SumForgetsOrder(a, b, IsDocument(text, doc));
    }
  }

  lemma SameLexical(text: Text, terms: seq<string>, a: seq<Hit>, b: seq<Hit>, i: nat, j: nat)
    requires multiset(Documents(text, a)) == multiset(Documents(text, b)) && i < |a| && j < |b| && a[i] == b[j]
    ensures LexicalOf(text, a, terms)[i] == LexicalOf(text, b, terms)[j]
  {
    Bm25ForgetsOrder(text.log, Documents(text, a), Documents(text, b), terms, DocumentTokens(text, a[i]), |terms|);
  }

  lemma LexicalIncluded(text: Text, terms: seq<string>, a: seq<Hit>, b: seq<Hit>)
    requires multiset(Documents(text, a)) == multiset(Documents(text, b)) && (forall hit :: hit in a ==> hit in b)
    ensures forall x :: x in LexicalOf(text, a, terms) ==> x in LexicalOf(text, b, terms)
  {
    forall x | x in LexicalOf(text, a, terms)
      ensures x in LexicalOf(text, b, terms)
    {
      var i :| 0 <= i < |a| && LexicalOf(text, a, terms)[i] == x;
      assert a[i] in b;
      var j :| 0 <= j < |b| && b[j] == a[i];
      SameLexical(text, terms, a, b, i, j);
      assert LexicalOf(text, b, terms)[j] in LexicalOf(text, b, terms);
    }
  }

  lemma CandidatesIncluded(text: Text, query: string, a: seq<Hit>, b: seq<Hit>)
    requires multiset(Documents(text, a)) == multiset(Documents(text, b)) && (forall hit :: hit in a <==> hit in b)
    ensures forall c :: c in Candidates(text, query, a) ==> c in Candidates(text, query, b)
  {
    hide Scored, Bm25, DocumentTokens;
    var terms := QueryTerms(text, query);
    LexicalIncluded(text, terms, a, b);
    LexicalIncluded(text, terms, b, a);
    MaxForgetsOrder(LexicalOf(text, a, terms), LexicalOf(text, b, terms));
    forall c | c in Candidates(text, query, a)
      ensures c in Candidates(text, query, b)
    {
      var i :| 0 <= i < |a| && Candidates(text, query, a)[i] == c;
      assert a[i] in b;
      var j :| 0 <= j < |b| && b[j] == a[i];
      SameLexical(text, terms, a, b, i, j);
      assert Candidates(text, query, b)[j] == c;
    }
  }

  /**
   The ranking is a function of the set of hits: for hits with distinct ids and distinct contents, any
   order of the input gives the same ranking, with the same scores.
   */
  lemma {:induction false} RankingForgetsOrder(text: Text, query: string, a: seq<Hit>, b: seq<Hit>, x: seq<Candidate>, y: seq<Candidate>)
    requires DistinctIds(a) && DistinctContents(text, a) && DistinctIds(b) && DistinctContents(text, b)
    requires forall hit :: hit in a <==> hit in b
    requires IsGreedy(Candidates(text, query, Deduped(text, a)), x) && IsGreedy(Candidates(text, query, Deduped(text, b)), y) && |x| == |y|
    ensures x == y
  {
    hide Scored, Candidates, Better, DistinctContents, IsGreedy;
    DistinctAreKept(text, a);
    DistinctAreKept(text, b);
    DocumentsPermuted(text, a, b);
    CandidatesIncluded(text, query, a, b);
    CandidatesIncluded(text, query, b, a);
    CandidatesDistinct(text, query, a);
    GreedyIsUnique(Candidates(text, query, a), Candidates(text, query, b), x, y, |x|);
    assert x[..|x|] == x && y[..|x|] == y;
  }

  lemma CandidatesDistinct(text: Text, query: string, hits: seq<Hit>)
    requires DistinctIds(hits)
    ensures DistinctHits(Candidates(text, query, hits))
  {
    hide Scored;
  }
}
