/** The in-memory retrieval engine: matching, scoring, ranking and paging. Scores are reals and the
    logarithm is any strictly increasing function with log(1) = 0. */
module Retrieval {
  import opened Documents
  import opened Text
  import opened EditDistance
  import CacheKeys

  datatype Doc = Doc(id: Uuid, tenant: Tenant, source: Source)

  ghost predicate IsLog(log: real -> real) {
    log(1.0) == 0.0 && forall x, y :: 0.0 < x < y ==> log(x) < log(y)
  }

  // ---------------------------------------------------------------- what a search means

  function TitleTokens(d: Doc): seq<string> { Tokenize(d.source.title) }
  function ContentTokens(d: Doc): seq<string> { Tokenize(d.source.content) }

  predicate Contains(d: Doc, term: string) {
    term in TitleTokens(d) || term in ContentTokens(d)
  }

  /** A title occurrence counts three times. */
  function TermFrequency(d: Doc, term: string): nat {
    multiset(TitleTokens(d))[term] * 3 + multiset(ContentTokens(d))[term]
  }

  function Holders(docs: set<Doc>, term: string): set<Doc> {
    set d | d in docs && Contains(d, term)
  }

  function Idf(log: real -> real, total: nat, frequency: nat): real {
    log(1.0 + (total as real - frequency as real + 0.5) / (frequency as real + 0.5))
  }

  function CorpusSize(docs: set<Doc>): nat { if |docs| < 1 then 1 else |docs| }

  function LengthNorm(log: real -> real, d: Doc): real {
    1.0 + log(1.0 + |ContentTokens(d)| as real) / 10.0
  }

  function Contribution(idf: real, tf: nat, norm: real): real
    requires norm != 0.0
  {
    idf * (tf as real / (tf as real + 1.2)) / norm
  }

  function Weight(log: real -> real, idf: real, d: Doc, term: string): real
    requires LengthNorm(log, d) != 0.0
  {
    if TermFrequency(d, term) == 0 then 0.0 else Contribution(idf, TermFrequency(d, term), LengthNorm(log, d))
  }

  function Score(log: real -> real, docs: set<Doc>, terms: seq<string>, d: Doc): real
    requires LengthNorm(log, d) != 0.0
  {
    if terms == [] then 0.0
    else
      var init, term := terms[..|terms| - 1], terms[|terms| - 1];
      Score(log, docs, init, d) + Weight(log, Idf(log, CorpusSize(docs), |Holders(docs, term)|), d, term)
  }

  function Matched(terms: seq<string>, d: Doc): nat {
    if terms == [] then 0
    else Matched(terms[..|terms| - 1], d) + if TermFrequency(d, terms[|terms| - 1]) == 0 then 0 else 1
  }

  function Required(terms: seq<string>, fuzzy: bool): nat { if fuzzy then 1 else |terms| }

  ghost predicate IsMatch(log: real -> real, docs: set<Doc>, terms: seq<string>, fuzzy: bool, d: Doc)
    requires IsLog(log)
  {
    NormPositive(log, d);
    Matched(terms, d) >= Required(terms, fuzzy) && Score(log, docs, terms, d) > 0.0
  }

  datatype Hit = Hit(score: real, doc: Doc)

  ghost function HitOf(log: real -> real, docs: set<Doc>, terms: seq<string>, d: Doc): Hit
    requires IsLog(log)
  {
    NormPositive(log, d);
    Hit(Score(log, docs, terms, d), d)
  }

  /** The hits of a search over a set of documents. */
  ghost function Matches(log: real -> real, docs: set<Doc>, terms: seq<string>, fuzzy: bool): set<Hit>
    requires IsLog(log)
  {
    if terms == [] then {}
    else set d | d in docs && IsMatch(log, docs, terms, fuzzy, d) :: HitOf(log, docs, terms, d)
  }

  lemma NormPositive(log: real -> real, d: Doc)
    requires IsLog(log)
    ensures LengthNorm(log, d) >= 1.0
  {
    var n := |ContentTokens(d)|;
    if n > 0 {
      assert log(1.0) < log(1.0 + n as real);
    }
  }

  // ---------------------------------------------------------------- the positive-score test

  lemma OccursExactlyWhenContained(d: Doc, term: string)
    ensures TermFrequency(d, term) > 0 <==> Contains(d, term)
  {
    assert term in multiset(TitleTokens(d)) <==> term in TitleTokens(d);
    assert term in multiset(ContentTokens(d)) <==> term in ContentTokens(d);
  }

  /** The inverse document frequency is positive, because no term is in more documents than there are. */
  lemma IdfPositive(log: real -> real, docs: set<Doc>, term: string)
    requires IsLog(log)
    ensures Idf(log, CorpusSize(docs), |Holders(docs, term)|) > 0.0
  {
    var n, df := CorpusSize(docs) as real, |Holders(docs, term)| as real;
    HoldersBound(docs, term);
    Above(n - df + 0.5, df + 0.5);
    assert log(1.0) < log(1.0 + (n - df + 0.5) / (df + 0.5));
  }

  lemma HoldersBound(docs: set<Doc>, term: string)
    ensures |Holders(docs, term)| <= |docs|
  {
    assert docs == Holders(docs, term) + (docs - Holders(docs, term));
  }

  lemma Above(a: real, b: real)
    requires a > 0.0 && b > 0.0
    ensures a / b > 0.0
  {}

  lemma PositiveProduct(a: real, b: real)
    requires a > 0.0 && b > 0.0
    ensures a * b > 0.0
  {}

  lemma WeightSign(log: real -> real, idf: real, d: Doc, term: string)
    requires IsLog(log) && idf > 0.0 && LengthNorm(log, d) != 0.0
    ensures Weight(log, idf, d, term) >= 0.0
    ensures Contains(d, term) ==> Weight(log, idf, d, term) > 0.0
  {
    NormPositive(log, d);
    OccursExactlyWhenContained(d, term);
    if TermFrequency(d, term) > 0 {
      var tf := TermFrequency(d, term) as real;
      Above(tf, tf + 1.2);
      PositiveProduct(idf, tf / (tf + 1.2));
      Above(idf * (tf / (tf + 1.2)), LengthNorm(log, d));
    }
  }

  lemma {:induction false} ScoreSign(log: real -> real, docs: set<Doc>, terms: seq<string>, d: Doc)
    requires IsLog(log) && LengthNorm(log, d) != 0.0
    ensures Score(log, docs, terms, d) >= 0.0
    ensures Matched(terms, d) > 0 <==> Score(log, docs, terms, d) > 0.0
  {
    if terms != [] {
      var init, term := terms[..|terms| - 1], terms[|terms| - 1];
      ScoreSign(log, docs, init, d);
      IdfPositive(log, docs, term);
      OccursExactlyWhenContained(d, term);
      WeightSign(log, Idf(log, CorpusSize(docs), |Holders(docs, term)|), d, term);
    }
  }

  // ---------------------------------------------------------------- what makes a score high

  lemma RatioGrows(a: real, b: real, c: real, d: real)
    requires b > 0.0 && d > 0.0
    ensures a / b < c / d <==> a * d < c * b
  {
    var x, y := a / b, c / d;
    assert x * b == a && y * d == c;
    assert x * (b * d) == a * d && y * (b * d) == c * b;
    PositiveProduct(b, d);
    if x < y {
      PositiveProduct(y - x, b * d);
      assert (y - x) * (b * d) == c * b - a * d;
    } else {
      ProductNonNegative(x - y, b * d);
      assert (x - y) * (b * d) == a * d - c * b;
    }
  }

  lemma ProductNonNegative(a: real, b: real)
    requires a >= 0.0 && b >= 0.0
    ensures a * b >= 0.0
  {}

  lemma Scales(a: real, b: real, r: real)
    requires r > 0.0 && a < b
    ensures a * r < b * r
  {
    PositiveProduct(b - a, r);
    assert (b - a) * r == b * r - a * r;
  }

  lemma ContributionGrows(idf: real, a: nat, b: nat, norm: real)
    requires idf > 0.0 && norm > 0.0 && a < b
    ensures Contribution(idf, a, norm) < Contribution(idf, b, norm)
  {
    var x, y := a as real / (a as real + 1.2), b as real / (b as real + 1.2);
    RatioGrows(a as real, a as real + 1.2, b as real, b as real + 1.2);
    assert a as real * (b as real + 1.2) < b as real * (a as real + 1.2);
    Scales(x, y, idf);
    assert idf * x == x * idf && idf * y == y * idf;
    RatioGrows(idf * x, norm, idf * y, norm);
    Scales(idf * x, idf * y, norm);
  }

  lemma NothingContributes(idf: real, norm: real)
    requires norm > 0.0
    ensures Contribution(idf, 0, norm) == 0.0
  {
    assert 0 as real / (0 as real + 1.2) == 0.0;
    assert idf * 0.0 == 0.0;
  }

  lemma WeightIsContribution(log: real -> real, idf: real, d: Doc, term: string)
    requires IsLog(log) && LengthNorm(log, d) > 0.0
    ensures Weight(log, idf, d, term) == Contribution(idf, TermFrequency(d, term), LengthNorm(log, d))
  {
    NothingContributes(idf, LengthNorm(log, d));
  }

  function InTitle(d: Doc, term: string): nat { multiset(Tokenize(d.source.title))[term] }
  function InContent(d: Doc, term: string): nat { multiset(Tokenize(d.source.content))[term] }

  /** Between documents whose contents are equally long, a term weighs more in the one where three times its
      title occurrences and its content occurrences come to more. */
  lemma OccurrencesDecide(log: real -> real, idf: real, d: Doc, e: Doc, term: string)
    requires IsLog(log) && idf > 0.0 && LengthNorm(log, d) != 0.0 && LengthNorm(log, e) != 0.0
    requires |Tokenize(d.source.content)| == |Tokenize(e.source.content)|
    ensures Weight(log, idf, d, term) > Weight(log, idf, e, term) <==>
              3 * InTitle(d, term) + InContent(d, term) > 3 * InTitle(e, term) + InContent(e, term)
  {
    NormPositive(log, d);
    WeightsCompare(log, idf, d, e, term);
  }

  lemma WeightsCompare(log: real -> real, idf: real, d: Doc, e: Doc, term: string)
    requires IsLog(log) && idf > 0.0 && 0.0 < LengthNorm(log, d) == LengthNorm(log, e)
    ensures Weight(log, idf, d, term) > Weight(log, idf, e, term) <==> TermFrequency(d, term) > TermFrequency(e, term)
  {
    WeightIsContribution(log, idf, d, term);
    WeightIsContribution(log, idf, e, term);
    ContributionsCompare(idf, TermFrequency(d, term), TermFrequency(e, term), LengthNorm(log, d));
  }

  lemma ContributionsCompare(idf: real, a: nat, b: nat, norm: real)
    requires idf > 0.0 && norm > 0.0
    ensures Contribution(idf, a, norm) > Contribution(idf, b, norm) <==> a > b
  {
    if a > b {
      ContributionGrows(idf, b, a, norm);
    } else if a < b {
      ContributionGrows(idf, a, b, norm);
    }
  }

  /** The same occurrences weigh less in a longer content. */
  lemma LongerContentWeighsLess(log: real -> real, idf: real, d: Doc, e: Doc, term: string)
    requires IsLog(log) && idf > 0.0 && LengthNorm(log, d) != 0.0 && LengthNorm(log, e) != 0.0
    requires InTitle(d, term) == InTitle(e, term) && InContent(d, term) == InContent(e, term)
    requires term in Tokenize(d.source.title) || term in Tokenize(d.source.content)
    requires |Tokenize(d.source.content)| < |Tokenize(e.source.content)|
    ensures Weight(log, idf, d, term) > Weight(log, idf, e, term)
  {
    NormPositive(log, d);
    NormPositive(log, e);
    OccursExactlyWhenContained(d, term);
    NormGrows(log, d, e);
    NormDecidesWeight(log, idf, d, e, term);
  }

  lemma NormDecidesWeight(log: real -> real, idf: real, d: Doc, e: Doc, term: string)
    requires idf > 0.0 && 0.0 < LengthNorm(log, d) < LengthNorm(log, e)
    requires TermFrequency(d, term) == TermFrequency(e, term) > 0
    ensures Weight(log, idf, d, term) > Weight(log, idf, e, term)
  {
    NormDecides(idf, TermFrequency(d, term), LengthNorm(log, d), LengthNorm(log, e));
  }

  lemma NormGrows(log: real -> real, d: Doc, e: Doc)
    requires IsLog(log) && |ContentTokens(d)| < |ContentTokens(e)|
    ensures LengthNorm(log, d) < LengthNorm(log, e)
  {
    assert log(1.0 + |ContentTokens(d)| as real) < log(1.0 + |ContentTokens(e)| as real);
  }

  lemma NormDecides(idf: real, tf: nat, n: real, m: real)
    requires idf > 0.0 && tf > 0 && 0.0 < n < m
    ensures Contribution(idf, tf, n) > Contribution(idf, tf, m)
  {
    var x := idf * (tf as real / (tf as real + 1.2));
    Above(tf as real, tf as real + 1.2);
    PositiveProduct(idf, tf as real / (tf as real + 1.2));
    Scales(n, m, x);
    assert x * n == n * x && x * m == m * x;
    RatioGrows(x, m, x, n);
  }

  /** A term held by fewer documents weighs more where it occurs as often. */
  lemma RarerWeighsMore(log: real -> real, docs: set<Doc>, rare: string, common: string, d: Doc)
    requires IsLog(log) && LengthNorm(log, d) != 0.0
    requires |set x | x in docs && (rare in Tokenize(x.source.title) || rare in Tokenize(x.source.content))|
           < |set x | x in docs && (common in Tokenize(x.source.title) || common in Tokenize(x.source.content))|
    requires InTitle(d, rare) == InTitle(d, common) && InContent(d, rare) == InContent(d, common)
    requires rare in Tokenize(d.source.title) || rare in Tokenize(d.source.content)
    ensures Score(log, docs, [rare], d) > Score(log, docs, [common], d)
  {
    HoldersWrittenOut(docs, rare);
    HoldersWrittenOut(docs, common);
    HoldersBound(docs, common);
    IdfFalls(log, CorpusSize(docs), |Holders(docs, rare)|, |Holders(docs, common)|);
    NormPositive(log, d);
    OccursExactlyWhenContained(d, rare);
    OneTermScore(log, docs, rare, d);
    OneTermScore(log, docs, common, d);
    IdfDecidesWeight(log, Idf(log, CorpusSize(docs), |Holders(docs, common)|),
                     Idf(log, CorpusSize(docs), |Holders(docs, rare)|), d, rare, common);
  }

  lemma HoldersWrittenOut(docs: set<Doc>, term: string)
    ensures Holders(docs, term)
         == set x | x in docs && (term in Tokenize(x.source.title) || term in Tokenize(x.source.content))
  {}

  lemma IdfDecidesWeight(log: real -> real, low: real, high: real, d: Doc, rare: string, common: string)
    requires low < high && LengthNorm(log, d) > 0.0 && TermFrequency(d, rare) == TermFrequency(d, common) > 0
    ensures Weight(log, high, d, rare) > Weight(log, low, d, common)
  {
    ContributionFollowsIdf(low, high, TermFrequency(d, rare), LengthNorm(log, d));
  }

  lemma IdfFalls(log: real -> real, total: nat, a: nat, b: nat)
    requires IsLog(log) && a < b <= total
    ensures Idf(log, total, a) > Idf(log, total, b)
  {
    var n, x, y := total as real, a as real, b as real;
    RatioGrows(n - y + 0.5, y + 0.5, n - x + 0.5, x + 0.5);
    assert (n - y + 0.5) * (x + 0.5) < (n - x + 0.5) * (y + 0.5) by {
      assert (n - x + 0.5) * (y + 0.5) - (n - y + 0.5) * (x + 0.5) == (n + 1.0) * (y - x);
      PositiveProduct(n + 1.0, y - x);
    }
    Above(n - y + 0.5, y + 0.5);
    assert 0.0 < 1.0 + (n - y + 0.5) / (y + 0.5) < 1.0 + (n - x + 0.5) / (x + 0.5);
  }

  lemma ContributionFollowsIdf(low: real, high: real, tf: nat, norm: real)
    requires low < high && tf > 0 && norm > 0.0
    ensures Contribution(low, tf, norm) < Contribution(high, tf, norm)
  {
    var x := tf as real / (tf as real + 1.2);
    Above(tf as real, tf as real + 1.2);
    Scales(low, high, x);
    RatioGrows(low * x, norm, high * x, norm);
    Scales(low * x, high * x, norm);
  }

  lemma OneTermScore(log: real -> real, docs: set<Doc>, term: string, d: Doc)
    requires LengthNorm(log, d) != 0.0
    ensures Score(log, docs, [term], d) == Weight(log, Idf(log, CorpusSize(docs), |Holders(docs, term)|), d, term)
  {
    assert [term][..0] == [];
  }

  /** A score is the sum of what its terms contribute, wherever they stand in the query. */
  lemma {:induction false} ScoreIsAdditive(log: real -> real, docs: set<Doc>, a: seq<string>, b: seq<string>, d: Doc)
    requires LengthNorm(log, d) != 0.0
    ensures Score(log, docs, a + b, d) == Score(log, docs, a, d) + Score(log, docs, b, d)
  {
    if b == [] {
      assert a + b == a;
    } else {
      assert (a + b)[..|a + b| - 1] == a + b[..|b| - 1];
      ScoreIsAdditive(log, docs, a, b[..|b| - 1], d);
    }
  }

  /** One term in full: its occurrences saturate, rare terms count for more, long contents for less. */
  lemma OneTermInFull(log: real -> real, docs: set<Doc>, term: string, d: Doc)
    requires IsLog(log) && LengthNorm(log, d) != 0.0
    ensures var idf, norm := Idf(log, CorpusSize(docs), |Holders(docs, term)|), LengthNorm(log, d);
            Score(log, docs, [term], d) == InFull(idf, (3 * InTitle(d, term) + InContent(d, term)) as real, norm)
    ensures var total, held := if |docs| < 1 then 1.0 else |docs| as real, |Holders(docs, term)| as real;
            Idf(log, CorpusSize(docs), |Holders(docs, term)|) == log(1.0 + (total - held + 0.5) / (held + 0.5))
    ensures LengthNorm(log, d) == 1.0 + log(1.0 + |Tokenize(d.source.content)| as real) / 10.0
  {
    NormPositive(log, d);
    OneTermScore(log, docs, term, d);
    WeightInFull(log, Idf(log, CorpusSize(docs), |Holders(docs, term)|), d, term);
  }

  lemma WeightInFull(log: real -> real, idf: real, d: Doc, term: string)
    requires IsLog(log) && LengthNorm(log, d) > 0.0
    ensures Weight(log, idf, d, term) == InFull(idf, TermFrequency(d, term) as real, LengthNorm(log, d))
  {
    WeightIsContribution(log, idf, d, term);
    ContributionInFull(idf, TermFrequency(d, term), LengthNorm(log, d));
  }

  function InFull(idf: real, tf: real, norm: real): real
    requires norm != 0.0 && tf >= 0.0
  {
    idf * (tf / (tf + 1.2)) / norm
  }

  lemma ContributionInFull(idf: real, tf: nat, norm: real)
    requires norm != 0.0
    ensures Contribution(idf, tf, norm) == InFull(idf, tf as real, norm)
  {}

  // ---------------------------------------------------------------- which documents match

  predicate ContainsAll(d: Doc, terms: seq<string>) {
    forall k :: 0 <= k < |terms| ==> Contains(d, terms[k])
  }

  predicate ContainsAny(d: Doc, terms: seq<string>) {
    exists k :: 0 <= k < |terms| && Contains(d, terms[k])
  }

  lemma ContainsOneMore(d: Doc, init: seq<string>, term: string)
    ensures ContainsAll(d, init + [term]) <==> ContainsAll(d, init) && Contains(d, term)
    ensures ContainsAny(d, init + [term]) <==> ContainsAny(d, init) || Contains(d, term)
  {
    var terms := init + [term];
    assert terms[|init|] == term;
    assert forall k :: 0 <= k < |init| ==> terms[k] == init[k];
    if ContainsAny(d, init) {
      var k :| 0 <= k < |init| && Contains(d, init[k]);
      assert Contains(d, terms[k]);
    }
  }

  lemma {:induction false} MatchedAll(terms: seq<string>, d: Doc)
    ensures Matched(terms, d) <= |terms|
    ensures Matched(terms, d) == |terms| <==> ContainsAll(d, terms)
    ensures Matched(terms, d) > 0 <==> ContainsAny(d, terms)
  {
    if terms != [] {
      var init, term := terms[..|terms| - 1], terms[|terms| - 1];
      MatchedAll(init, d);
      OccursExactlyWhenContained(d, term);
      assert terms == init + [term];
      ContainsOneMore(d, init, term);
    }
  }

  /** A search without typo tolerance finds exactly the documents that contain every term in title
      or content: the positive-score test drops none. */
  lemma ExactSearchFindsAllTerms(log: real -> real, docs: set<Doc>, terms: seq<string>, d: Doc)
    requires IsLog(log) && terms != []
    ensures IsMatch(log, docs, terms, false, d) <==> ContainsAll(d, terms)
  {
    NormPositive(log, d);
    ScoreSign(log, docs, terms, d);
    MatchedAll(terms, d);
  }

  lemma FuzzySearchFindsAnyTerm(log: real -> real, docs: set<Doc>, terms: seq<string>, d: Doc)
    requires IsLog(log) && terms != []
    ensures IsMatch(log, docs, terms, true, d) <==> ContainsAny(d, terms)
  {
    NormPositive(log, d);
    ScoreSign(log, docs, terms, d);
    MatchedAll(terms, d);
  }

  // ---------------------------------------------------------------- typo tolerance widens the result

  ghost predicate InVocabulary(docs: set<Doc>, word: string) {
    exists d :: d in docs && Contains(d, word)
  }

  /** The terms actually searched for: a word of the corpus stands for itself, and under typo
      tolerance a foreign word is replaced by a closest word of the corpus, if there is one. */
  ghost predicate IsEffective(docs: set<Doc>, terms: seq<string>, fuzzy: bool, effective: seq<string>) {
    && |effective| == |terms|
    && forall k :: 0 <= k < |terms| ==> StandsFor(docs, terms[k], fuzzy, effective[k])
  }

  ghost predicate StandsFor(docs: set<Doc>, term: string, fuzzy: bool, word: string) {
    if !fuzzy || InVocabulary(docs, term) then word == term
    else
      (word == term && forall w :: InVocabulary(docs, w) ==> !Close(term, w)) || IsStandIn(docs, term, word)
  }

  /** A shortest word of the corpus within one edit. */
  ghost predicate IsStandIn(docs: set<Doc>, term: string, word: string) {
    && InVocabulary(docs, word) && Close(term, word)
    && forall w :: InVocabulary(docs, w) && Close(term, w) ==> |word| <= |w|
  }

  /** The term is a word of the corpus, or at most one word can stand in for it. */
  ghost predicate Unambiguous(docs: set<Doc>, term: string) {
    InVocabulary(docs, term) || forall v, w :: IsStandIn(docs, term, v) && IsStandIn(docs, term, w) ==> v == w
  }

  ghost predicate AllUnambiguous(docs: set<Doc>, terms: seq<string>, fuzzy: bool) {
    fuzzy ==> forall k :: 0 <= k < |terms| ==> Unambiguous(docs, terms[k])
  }

  lemma {:induction false} SomeStandIn(docs: set<Doc>, term: string, word: string) returns (shortest: string)
    requires InVocabulary(docs, word) && Close(term, word)
    ensures IsStandIn(docs, term, shortest)
    decreases |word|
  {
    if w :| InVocabulary(docs, w) && Close(term, w) && |w| < |word| {
      shortest := SomeStandIn(docs, term, w);
    } else {
      shortest := word;
    }
  }

  lemma {:induction false} SomeEffective(docs: set<Doc>, terms: seq<string>, fuzzy: bool)
    returns (effective: seq<string>)
    ensures IsEffective(docs, terms, fuzzy, effective)
  {
    if terms == [] {
      effective := [];
    } else {
      var init, term := terms[..|terms| - 1], terms[|terms| - 1];
      var before := SomeEffective(docs, init, fuzzy);
      var word := term;
      if fuzzy && !InVocabulary(docs, term) {
        if w :| InVocabulary(docs, w) && Close(term, w) {
          word := SomeStandIn(docs, term, w);
        }
      }
      OneMoreStands(docs, init, fuzzy, before, term, word);
      assert terms == init + [term];
      effective := before + [word];
    }
  }

  lemma EffectiveIsUnique(docs: set<Doc>, terms: seq<string>, fuzzy: bool, effective: seq<string>, other: seq<string>)
    requires AllUnambiguous(docs, terms, fuzzy)
    requires IsEffective(docs, terms, fuzzy, effective) && IsEffective(docs, terms, fuzzy, other)
    ensures effective == other
  {
    forall k | 0 <= k < |terms|
      ensures effective[k] == other[k]
    {
      assert StandsFor(docs, terms[k], fuzzy, effective[k]) && StandsFor(docs, terms[k], fuzzy, other[k]);
      assert fuzzy ==> Unambiguous(docs, terms[k]);
    }
  }

  lemma Replaced(docs: set<Doc>, terms: seq<string>, effective: seq<string>, k: nat, word: string)
    requires IsEffective(docs, terms, true, effective) && k < |terms|
    requires !InVocabulary(docs, terms[k]) && IsStandIn(docs, terms[k], word)
    ensures IsEffective(docs, terms, true, effective[k := word])
  {
    forall i | 0 <= i < |terms|
      ensures StandsFor(docs, terms[i], true, effective[k := word][i])
    {
      assert StandsFor(docs, terms[i], true, effective[i]);
    }
  }

  /** What is searched for is determined by corpus and query, whatever order the vocabulary is visited in,
      exactly when the search is exact or no foreign word has two shortest close words. */
  lemma EffectiveUniqueExactly(docs: set<Doc>, terms: seq<string>, fuzzy: bool)
    ensures (forall e, f :: IsEffective(docs, terms, fuzzy, e) && IsEffective(docs, terms, fuzzy, f) ==> e == f)
            <==> AllUnambiguous(docs, terms, fuzzy)
  {
    if AllUnambiguous(docs, terms, fuzzy) {
      forall e, f | IsEffective(docs, terms, fuzzy, e) && IsEffective(docs, terms, fuzzy, f)
        ensures e == f
      {
        EffectiveIsUnique(docs, terms, fuzzy, e, f);
      }
    } else {
      var k :| 0 <= k < |terms| && !Unambiguous(docs, terms[k]);
      var e, f := TwoEffective(docs, terms, k);
    }
  }

  lemma TwoEffective(docs: set<Doc>, terms: seq<string>, k: nat) returns (e: seq<string>, f: seq<string>)
    requires k < |terms| && !Unambiguous(docs, terms[k])
    ensures IsEffective(docs, terms, true, e) && IsEffective(docs, terms, true, f) && e != f
  {
    var v, w :| IsStandIn(docs, terms[k], v) && IsStandIn(docs, terms[k], w) && v != w;
    var effective := SomeEffective(docs, terms, true);
    Replaced(docs, terms, effective, k, v);
    Replaced(docs, terms, effective, k, w);
    e, f := effective[k := v], effective[k := w];
    assert e[k] != f[k];
  }

  /** Every document the exact search finds, the tolerant search of the same text finds too. */
  lemma FuzzyFindsMore(log: real -> real, docs: set<Doc>, terms: seq<string>, effective: seq<string>, d: Doc)
    requires IsLog(log) && terms != [] && d in docs && IsEffective(docs, terms, true, effective)
    ensures IsMatch(log, docs, terms, false, d) ==> effective == terms && IsMatch(log, docs, effective, true, d)
  {
    ExactSearchFindsAllTerms(log, docs, terms, d);
    if ContainsAll(d, terms) {
      forall k | 0 <= k < |terms|
        ensures effective[k] == terms[k]
      {
        assert Contains(d, terms[k]);
        assert StandsFor(docs, terms[k], true, effective[k]);
      }
      FuzzySearchFindsAnyTerm(log, docs, terms, d);
      assert Contains(d, terms[0]);
    }
  }

  // ---------------------------------------------------------------- ranking

  /** Higher scores first, equal scores by document id. */
  predicate Before(a: Hit, b: Hit) {
    a.score > b.score || (a.score == b.score && a.doc.id < b.doc.id)
  }

  ghost predicate DistinctIds(docs: set<Doc>) {
    forall a, b :: a in docs && b in docs && a.id == b.id ==> a == b
  }

  ghost predicate Ordered(list: seq<Hit>) {
    forall i, j :: 0 <= i < j < |list| ==> Before(list[i], list[j])
  }

  /** `list` is the ranked list of `hits`. */
  ghost predicate IsRanking(list: seq<Hit>, hits: set<Hit>) {
    Ordered(list) && Elements(list) == hits
  }

  /** There is only one ranked list. */
  lemma {:induction false} RankingIsUnique(a: seq<Hit>, b: seq<Hit>, hits: set<Hit>)
    requires IsRanking(a, hits) && IsRanking(b, hits)
    ensures a == b
    decreases |a|
  {
    if a == [] {
      if b != [] {
        SameHead(b, a, hits);
      }
    } else {
      assert a[0] in Elements(a);
      SameHead(a, b, hits);
      TailRanking(a, hits);
      TailRanking(b, hits);
      RankingIsUnique(a[1..], b[1..], hits - {a[0]});
      assert a == [a[0]] + a[1..] && b == [b[0]] + b[1..];
    }
  }

  lemma SameHead(a: seq<Hit>, b: seq<Hit>, hits: set<Hit>)
    requires IsRanking(a, hits) && IsRanking(b, hits) && a != []
    ensures b != [] && a[0] == b[0]
  {
    assert a[0] in hits;
    assert a[0] in Elements(b);
    var j :| 0 <= j < |b| && b[j] == a[0];
    assert b[0] in Elements(b) && b[0] in Elements(a);
    var i :| 0 <= i < |a| && a[i] == b[0];
  }

  lemma TailRanking(a: seq<Hit>, hits: set<Hit>)
    requires IsRanking(a, hits) && a != []
    ensures IsRanking(a[1..], hits - {a[0]})
  {
    forall h
      ensures h in a[1..] <==> h in hits && h != a[0]
    {
      if h in hits && h != a[0] {
        assert h in Elements(a);
        var i :| 0 <= i < |a| && a[i] == h;
        assert a[1..][i - 1] == h;
      }
      if h in a[1..] {
        var i :| 0 <= i < |a| - 1 && a[1..][i] == h;
        assert a[i + 1] == h;
        assert h in Elements(a);
      }
    }
  }

  // ---------------------------------------------------------------- pages

  /** Slicing stops at the end of the list. */
  function Page(list: seq<Hit>, page: nat, size: nat): seq<Hit>
    requires page >= 1
  {
    var offset := (page - 1) * size;
    if offset >= |list| then [] else list[offset..Min(offset + size, |list|)]
  }

  function Pages(list: seq<Hit>, count: nat, size: nat): seq<Hit> {
    if count == 0 then [] else Pages(list, count - 1, size) + Page(list, count, size)
  }

  /** Successive pages put end to end give the list from its start, with no gap and no overlap. */
  lemma {:induction false} PagesCoverTheList(list: seq<Hit>, count: nat, size: nat)
    ensures 0 <= count * size
    ensures Pages(list, count, size) == list[..Min(count * size, |list|)]
  {
    if count != 0 {
      PagesCoverTheList(list, count - 1, size);
      OneMorePage(count, size);
      NextPage(list, (count - 1) * size, size);
    }
  }

  lemma OneMorePage(count: nat, size: nat)
    requires count > 0
    ensures count * size == (count - 1) * size + size && 0 <= count * size
  {}

  lemma NextPage(list: seq<Hit>, offset: nat, size: nat)
    ensures list[..Min(offset, |list|)] + (if offset >= |list| then [] else list[offset..Min(offset + size, |list|)])
         == list[..Min(offset + size, |list|)]
  {}

  /** The deep-paging guard. `None` is the division by zero of a zero page size. */
  function Clamp(page: int, size: int, maxPageSize: int, window: int): Option<(int, int)>
    requires page >= 1 && size >= 1
  {
    var clamped := Min(size, maxPageSize);
    if clamped == 0 then None
    else
      var pages := FloorDiv(window, clamped);
      Some((Min(page, if pages < 1 then 1 else pages), clamped))
  }

  function FloorDiv(a: int, b: int): int
    requires b != 0
  {
    if b > 0 then a / b else (-a) / (-b)
  }

  /** The clamped request stays within the result window exactly when a single page does, and a page
      that was within the window is left alone. */
  lemma ClampStaysInWindow(page: int, size: int, maxPageSize: int, window: int)
    requires page >= 1 && size >= 1 && maxPageSize >= 1
    ensures Clamp(page, size, maxPageSize, window).Some?
    ensures var (p, n) := Clamp(page, size, maxPageSize, window).value;
            && 1 <= p <= page && n == Min(size, maxPageSize)
            && ((p - 1) * n + n <= window <==> n <= window)
            && ((page - 1) * n + n <= window ==> p == page)
  {
    var (p, n) := Clamp(page, size, maxPageSize, window).value;
    Product(p, window / n, n);
    Product(page, window / n, n);
    if n <= window {
      assert window / n >= 1;
    } else {
      Product(window / n, 0, n);
    }
  }

  /** Page `p` of size `n` ends within the window exactly when there are that many whole pages in it. */
  lemma Product(p: int, q: int, n: int)
    requires n > 0
    ensures (p - 1) * n + n == p * n
    ensures p <= q <==> p * n <= q * n
    ensures p > q ==> p * n >= q * n + n
  {
    if p <= q {
      PagesGrow(p, q, n);
    } else {
      PagesGrow(q + 1, p, n);
    }
  }

  lemma {:induction false} PagesGrow(p: int, q: int, n: int)
    requires p <= q && n > 0
    ensures p * n <= q * n
    decreases q - p
  {
    if p < q {
      PagesGrow(p + 1, q, n);
      assert (p + 1) * n == p * n + n;
    }
  }

  // ---------------------------------------------------------------- the search as it runs

  method CorpusOf(all: seq<Doc>, tenant: Tenant) returns (corpus: seq<Doc>)
    requires NoDuplicates(all)
    ensures NoDuplicates(corpus)
    ensures forall d :: d in corpus <==> d in all && d.tenant == tenant
  {
    corpus := [];
    for i := 0 to |all|
      invariant NoDuplicates(corpus)
      invariant forall d :: d in corpus <==> d in all[..i] && d.tenant == tenant
    {
      if all[i].tenant == tenant {
        corpus := corpus + [all[i]];
      }
    }
  }

  method VocabularyOf(corpus: seq<Doc>) returns (vocabulary: set<string>)
    ensures forall w :: w in vocabulary <==> InVocabulary(Elements(corpus), w)
  {
    vocabulary := {};
    for i := 0 to |corpus|
      invariant forall w :: w in vocabulary <==> exists d :: d in corpus[..i] && Contains(d, w)
    {
      var d := corpus[i];
      assert corpus[..i + 1] == corpus[..i] + [d];
      var words := Elements(TitleTokens(d)) + Elements(ContentTokens(d));
      assert forall w :: w in words <==> Contains(d, w);
      vocabulary := vocabulary + words;
    }
    assert corpus[..|corpus|] == corpus;
    forall w
      ensures w in vocabulary <==> InVocabulary(Elements(corpus), w)
    {
      assert w in vocabulary <==> exists d :: d in corpus && Contains(d, w);
      if InVocabulary(Elements(corpus), w) {
        var d :| d in Elements(corpus) && Contains(d, w);
        assert d in corpus;
      }
      if exists d :: d in corpus && Contains(d, w) {
        var d :| d in corpus && Contains(d, w);
        assert d in Elements(corpus);
      }
    }
  }

  method EffectiveTerms(ghost docs: set<Doc>, terms: seq<string>, vocabulary: set<string>,
                        fuzzy: bool) returns (effective: seq<string>)
    requires forall w :: w in vocabulary <==> InVocabulary(docs, w)
    ensures IsEffective(docs, terms, fuzzy, effective)
  {
    effective := [];
    for i := 0 to |terms|
      invariant IsEffective(docs, terms[..i], fuzzy, effective)
    {
      var word := EffectiveTerm(docs, terms[i], vocabulary, fuzzy);
      OneMoreStands(docs, terms[..i], fuzzy, effective, terms[i], word);
      assert terms[..i + 1] == terms[..i] + [terms[i]];
      effective := effective + [word];
    }
    assert terms[..|terms|] == terms;
  }

  lemma OneMoreStands(docs: set<Doc>, terms: seq<string>, fuzzy: bool, effective: seq<string>, term: string,
                      word: string)
    requires IsEffective(docs, terms, fuzzy, effective) && StandsFor(docs, term, fuzzy, word)
    ensures IsEffective(docs, terms + [term], fuzzy, effective + [word])
  {
    forall k | 0 <= k <= |terms|
      ensures StandsFor(docs, (terms + [term])[k], fuzzy, (effective + [word])[k])
    {
      if k < |terms| {
        assert StandsFor(docs, terms[k], fuzzy, effective[k]);
      }
    }
  }

  method EffectiveTerm(ghost docs: set<Doc>, term: string, vocabulary: set<string>, fuzzy: bool) returns (word: string)
    requires forall w :: w in vocabulary <==> InVocabulary(docs, w)
    ensures StandsFor(docs, term, fuzzy, word)
  {
    if term in vocabulary || !fuzzy {
      return term;
    }
    var best := Closest(term, vocabulary);
    if best.Some? {
      assert InVocabulary(docs, best.value);
      VocabularyIsMeaningful(docs, best.value);
    }
    word := if best.Some? && best.value != "" then best.value else term;
  }

  lemma VocabularyIsMeaningful(docs: set<Doc>, w: string)
    requires InVocabulary(docs, w)
    ensures w != ""
  {
    var d :| d in docs && Contains(d, w);
    if w in TitleTokens(d) {
      TokensAreMeaningful(d.source.title, w);
    } else {
      TokensAreMeaningful(d.source.content, w);
    }
  }

  lemma HoldersNext(seen: seq<Doc>, d: Doc, term: string)
    requires d !in seen
    ensures |Holders(Elements(seen + [d]), term)| == |Holders(Elements(seen), term)| + if Contains(d, term) then 1
            else 0
  {
    var before, after := Holders(Elements(seen), term), Holders(Elements(seen + [d]), term);
    assert d !in before;
    assert after == before + (if Contains(d, term) then {d} else {});
  }

  method CountDoc(counts: map<string, nat>, d: Doc) returns (df: map<string, nat>)
    ensures df.Keys == counts.Keys
    ensures forall t :: t in counts ==> df[t] == counts[t] + if Contains(d, t) then 1 else 0
  {
    df := counts;
    var rest := counts.Keys;
    while rest != {}
      invariant rest <= counts.Keys && df.Keys == counts.Keys
      invariant forall t :: t in counts && t !in rest ==> df[t] == counts[t] + if Contains(d, t) then 1 else 0
      invariant forall t :: t in rest ==> df[t] == counts[t]
      decreases rest
    {
      var t :| t in rest;
      if Contains(d, t) {
        df := df[t := df[t] + 1];
      }
      rest := rest - {t};
    }
  }

  method DocumentFrequencies(corpus: seq<Doc>, effective: seq<string>) returns (df: map<string, nat>)
    requires NoDuplicates(corpus)
    ensures df.Keys == Elements(effective)
    ensures forall t :: t in df ==> df[t] == |Holders(Elements(corpus), t)|
  {
    df := map t | t in effective :: 0;
    for i := 0 to |corpus|
      invariant df.Keys == Elements(effective)
      invariant forall t :: t in df ==> df[t] == |Holders(Elements(corpus[..i]), t)|
    {
      assert corpus[..i + 1] == corpus[..i] + [corpus[i]];
      forall t | t in df
        ensures |Holders(Elements(corpus[..i + 1]), t)| == df[t] + if Contains(corpus[i], t) then 1 else 0
      {
        HoldersNext(corpus[..i], corpus[i], t);
      }
      df := CountDoc(df, corpus[i]);
    }
    assert corpus[..|corpus|] == corpus;
  }

  method ScoreDoc(log: real -> real, ghost docs: set<Doc>, total: nat, df: map<string, nat>, effective: seq<string>,
                  d: Doc)
    returns (matched: nat, score: real)
    requires LengthNorm(log, d) != 0.0 && total == CorpusSize(docs)
    requires forall t :: t in effective ==> t in df && df[t] == |Holders(docs, t)|
    ensures matched == Matched(effective, d) && score == Score(log, docs, effective, d)
  {
    matched, score := 0, 0.0;
    for i := 0 to |effective|
      invariant matched == Matched(effective[..i], d) && score == Score(log, docs, effective[..i], d)
    {
      var term := effective[i];
      ScoreNext(log, docs, effective, i, d);
      var tf, weight := WeighTerm(log, Idf(log, total, df[term]), d, term);
      if tf == 0 {
        continue;
      }
      matched := matched + 1;
      score := score + weight;
    }
    assert effective[..|effective|] == effective;
  }

  method WeighTerm(log: real -> real, idf: real, d: Doc, term: string) returns (tf: nat, weight: real)
    requires LengthNorm(log, d) != 0.0
    ensures tf == TermFrequency(d, term) && weight == Weight(log, idf, d, term)
    ensures tf == 0 ==> weight == 0.0
  {
    var titleCounts, contentCounts := multiset(TitleTokens(d)), multiset(ContentTokens(d));
    tf := titleCounts[term] * 3 + contentCounts[term];
    weight := if tf == 0 then 0.0 else Contribution(idf, tf, LengthNorm(log, d));
  }

  lemma ScoreNext(log: real -> real, docs: set<Doc>, terms: seq<string>, i: nat, d: Doc)
    requires i < |terms| && LengthNorm(log, d) != 0.0
    ensures Matched(terms[..i + 1], d) == Matched(terms[..i], d) + if TermFrequency(d, terms[i]) == 0 then 0 else 1
    ensures Score(log, docs, terms[..i + 1], d)
         == Score(log, docs, terms[..i], d)
           + Weight(log, Idf(log, CorpusSize(docs), |Holders(docs, terms[i])|), d, terms[i])
  {
    assert terms[..i + 1][..i] == terms[..i];
  }

  ghost predicate Comparable(list: seq<Hit>, h: Hit) {
    forall i :: 0 <= i < |list| ==> Before(list[i], h) || Before(h, list[i])
  }

  method Insert(list: seq<Hit>, h: Hit) returns (longer: seq<Hit>)
    requires Ordered(list) && Comparable(list, h)
    ensures Ordered(longer) && Elements(longer) == Elements(list) + {h}
  {
    var k := 0;
    while k < |list| && Before(list[k], h)
      invariant 0 <= k <= |list|
      invariant forall i :: 0 <= i < k ==> Before(list[i], h)
    {
      k := k + 1;
    }
    longer := list[..k] + [h] + list[k..];
    InsertedIsOrdered(list, k, h);
    assert list == list[..k] + list[k..];
  }

  lemma InsertedIsOrdered(list: seq<Hit>, k: nat, h: Hit)
    requires k <= |list| && Ordered(list) && (forall i :: 0 <= i < k ==> Before(list[i], h))
    requires k < |list| ==> Before(h, list[k])
    ensures Ordered(list[..k] + [h] + list[k..])
  {
    var longer := list[..k] + [h] + list[k..];
    assert forall i :: 0 <= i < k ==> longer[i] == list[i];
    assert longer[k] == h;
    assert forall i :: k < i < |longer| ==> longer[i] == list[i - 1];
    forall j | k <= j < |list|
      ensures Before(h, list[j])
    {
      assert j == k || Before(list[k], list[j]);
    }
  }

  method Rank(scored: seq<Hit>) returns (list: seq<Hit>)
    requires forall i, j :: 0 <= i < j < |scored| ==> scored[i].doc.id != scored[j].doc.id
    ensures IsRanking(list, Elements(scored))
    // Scores never rise along the list, and equal scores come by rising document id.
    ensures forall i, j :: 0 <= i < j < |list| ==>
              list[i].score > list[j].score || (list[i].score == list[j].score && list[i].doc.id < list[j].doc.id)
  {
    list := [];
    for n := 0 to |scored|
      invariant IsRanking(list, Elements(scored[..n]))
    {
      var h := scored[n];
      forall i | 0 <= i < |list|
        ensures Before(list[i], h) || Before(h, list[i])
      {
        assert list[i] in Elements(scored[..n]);
        var j :| 0 <= j < n && scored[j] == list[i];
      }
      list := Insert(list, h);
      assert Elements(scored[..n + 1]) == Elements(scored[..n]) + {h};
    }
    assert scored[..|scored|] == scored;
  }

  ghost predicate Collected(log: real -> real, docs: set<Doc>, seen: seq<Doc>, terms: seq<string>, fuzzy: bool,
                            scored: seq<Hit>)
    requires IsLog(log)
  {
    && (forall k :: 0 <= k < |scored| ==> Deserved(log, docs, seen, terms, fuzzy, scored[k]))
    && (forall d :: d in seen && IsMatch(log, docs, terms, fuzzy, d) ==> HitOf(log, docs, terms, d) in scored)
    && (forall i, j :: 0 <= i < j < |scored| ==> scored[i].doc.id != scored[j].doc.id)
  }

  ghost predicate Deserved(log: real -> real, docs: set<Doc>, seen: seq<Doc>, terms: seq<string>, fuzzy: bool, h: Hit)
    requires IsLog(log)
  {
    h.doc in seen && h == HitOf(log, docs, terms, h.doc) && IsMatch(log, docs, terms, fuzzy, h.doc)
  }

  lemma CollectedNext(log: real -> real, docs: set<Doc>, seen: seq<Doc>, d: Doc, terms: seq<string>, fuzzy: bool,
                      scored: seq<Hit>)
    requires IsLog(log) && Collected(log, docs, seen, terms, fuzzy, scored) && forall e :: e in seen ==> e.id != d.id
    ensures IsMatch(log, docs, terms, fuzzy, d) ==>
              Collected(log, docs, seen + [d], terms, fuzzy, scored + [HitOf(log, docs, terms, d)])
    ensures !IsMatch(log, docs, terms, fuzzy, d) ==> Collected(log, docs, seen + [d], terms, fuzzy, scored)
  {
    assert forall e :: e in seen + [d] <==> e in seen || e == d;
    if IsMatch(log, docs, terms, fuzzy, d) {
      var h := HitOf(log, docs, terms, d);
      var scored' := scored + [h];
      assert forall x :: x in scored' <==> x in scored || x == h;
      assert Deserved(log, docs, seen + [d], terms, fuzzy, h);
      forall k | 0 <= k < |scored|
        ensures Deserved(log, docs, seen + [d], terms, fuzzy, scored[k]) && scored[k].doc.id != d.id
      {
        assert Deserved(log, docs, seen, terms, fuzzy, scored[k]);
      }
    } else {
      forall k | 0 <= k < |scored|
        ensures Deserved(log, docs, seen + [d], terms, fuzzy, scored[k])
      {
        assert Deserved(log, docs, seen, terms, fuzzy, scored[k]);
      }
    }
  }

  method Collect(log: real -> real, corpus: seq<Doc>, effective: seq<string>, fuzzy: bool) returns (scored: seq<Hit>)
    requires IsLog(log) && NoDuplicates(corpus) && DistinctIds(Elements(corpus))
    ensures Collected(log, Elements(corpus), corpus, effective, fuzzy, scored)
  {
    ghost var docs := Elements(corpus);
    var df := DocumentFrequencies(corpus, effective);
    var total := if |corpus| < 1 then 1 else |corpus|;
    CardinalityOfDistinct(corpus);
    scored := [];
    for i := 0 to |corpus|
      invariant Collected(log, docs, corpus[..i], effective, fuzzy, scored)
    {
      var d := corpus[i];
      NormPositive(log, d);
      var matched, score := ScoreDoc(log, docs, total, df, effective, d);
      assert corpus[..i + 1] == corpus[..i] + [d];
      assert forall e :: e in corpus[..i] ==> e in docs && e != d && d in docs;
      CollectedNext(log, docs, corpus[..i], d, effective, fuzzy, scored);
      if matched >= (if fuzzy then 1 else |effective|) && score > 0.0 {
        scored := scored + [Hit(score, d)];
      }
    }
    assert corpus[..|corpus|] == corpus;
  }

  lemma CollectedIsMatches(log: real -> real, corpus: seq<Doc>, terms: seq<string>, fuzzy: bool, scored: seq<Hit>)
    requires IsLog(log) && terms != [] && Collected(log, Elements(corpus), corpus, terms, fuzzy, scored)
    ensures Elements(scored) == Matches(log, Elements(corpus), terms, fuzzy)
  {
    var docs := Elements(corpus);
    forall h
      ensures h in Elements(scored) <==> h in Matches(log, docs, terms, fuzzy)
    {
      if h in Elements(scored) {
        var k :| 0 <= k < |scored| && scored[k] == h;
        assert h.doc in docs;
      }
      if h in Matches(log, docs, terms, fuzzy) {
        var d :| d in docs && IsMatch(log, docs, terms, fuzzy, d) && HitOf(log, docs, terms, d) == h;
        assert d in corpus;
      }
    }
  }

  function TenantDocs(all: seq<Doc>, tenant: Tenant): set<Doc> {
    set d | d in all && d.tenant == tenant
  }

  /** Only the tenant's own documents are candidates; the ranked list is that of the meaning above;
      the page is a slice of it. */
  method Search(log: real -> real, all: seq<Doc>, tenant: Tenant, text: string, page: nat, size: nat, fuzzy: bool)
    returns (hits: seq<Hit>, total: nat, effective: seq<string>, ghost ranked: seq<Hit>)
    requires IsLog(log) && NoDuplicates(all) && DistinctIds(Elements(all)) && page >= 1
    ensures IsEffective(TenantDocs(all, tenant), Tokenize(text), fuzzy, effective)
    ensures IsRanking(ranked, Matches(log, TenantDocs(all, tenant), effective, fuzzy))
    ensures total == |ranked| && hits == Page(ranked, page, size)
    ensures forall i, j :: 0 <= i < j < |ranked| ==>
              ranked[i].score > ranked[j].score
              || (ranked[i].score == ranked[j].score && ranked[i].doc.id < ranked[j].doc.id)
  {
    var corpus := CorpusOf(all, tenant);
    assert Elements(corpus) == TenantDocs(all, tenant);
    var terms := Tokenize(text);
    effective := [];
    var list: seq<Hit> := [];
    if terms != [] {
      var vocabulary := VocabularyOf(corpus);
      effective := EffectiveTerms(Elements(corpus), terms, vocabulary, fuzzy);
      var scored := Collect(log, corpus, effective, fuzzy);
      CollectedIsMatches(log, corpus, effective, fuzzy, scored);
      list := Rank(scored);
    }
    total, hits, ranked := |list|, Page(list, page, size), list;
  }

  // ---------------------------------------------------------------- what callers rely on

  /** The ranked list is fixed by the set of stored documents, whatever order they were stored in, and by
      the tokens of the query, as long as typo tolerance has no choice between words. */
  lemma RankingIgnoresInsertionOrder(log: real -> real, these: seq<Doc>, those: seq<Doc>, tenant: Tenant, fuzzy: bool,
                                     text: string, text': string,
                                     effective: seq<string>, effective': seq<string>, a: seq<Hit>, b: seq<Hit>)
    requires IsLog(log) && Elements(these) == Elements(those) && Tokenize(text) == Tokenize(text')
    requires AllUnambiguous(TenantDocs(these, tenant), Tokenize(text), fuzzy)
    requires IsEffective(TenantDocs(these, tenant), Tokenize(text), fuzzy, effective)
    requires IsEffective(TenantDocs(those, tenant), Tokenize(text'), fuzzy, effective')
    requires IsRanking(a, Matches(log, TenantDocs(these, tenant), effective, fuzzy))
    requires IsRanking(b, Matches(log, TenantDocs(those, tenant), effective', fuzzy))
    ensures a == b
  {
    assert TenantDocs(these, tenant) == TenantDocs(those, tenant) by {
      assert forall d :: d in these <==> d in Elements(these);
      assert forall d :: d in those <==> d in Elements(those);
    }
    EffectiveIsUnique(TenantDocs(these, tenant), Tokenize(text), fuzzy, effective, effective');
    RankingIsUnique(a, b, Matches(log, TenantDocs(these, tenant), effective, fuzzy));
  }

  /** Of two documents that match one word and whose contents are equally long, the one with more title and no
      fewer content occurrences, or three content occurrences or fewer against one more in the title, comes
      first. */
  lemma TitleMatchesRankFirst(log: real -> real, docs: set<Doc>, term: string, fuzzy: bool, ranked: seq<Hit>,
                              i: nat, j: nat)
    requires IsLog(log) && IsRanking(ranked, Matches(log, docs, [term], fuzzy)) && i < |ranked| && j < |ranked|
    requires |Tokenize(ranked[i].doc.source.content)| == |Tokenize(ranked[j].doc.source.content)|
    requires 3 * InTitle(ranked[i].doc, term) + InContent(ranked[i].doc, term)
           > 3 * InTitle(ranked[j].doc, term) + InContent(ranked[j].doc, term)
    ensures i < j
  {
    var d, e := ranked[i].doc, ranked[j].doc;
    assert ranked[i] in Elements(ranked) && ranked[j] in Elements(ranked);
    NormPositive(log, d);
    NormPositive(log, e);
    assert ranked[i] == HitOf(log, docs, [term], d) && ranked[j] == HitOf(log, docs, [term], e);
    OneTermScore(log, docs, term, d);
    OneTermScore(log, docs, term, e);
    IdfPositive(log, docs, term);
    OccurrencesDecide(log, Idf(log, CorpusSize(docs), |Holders(docs, term)|), d, e, term);
  }

  lemma ExactTermsStand(docs: set<Doc>, terms: seq<string>, effective: seq<string>)
    requires IsEffective(docs, terms, false, effective)
    ensures effective == terms
  {
    forall k | 0 <= k < |terms|
      ensures effective[k] == terms[k]
    {
      assert StandsFor(docs, terms[k], false, effective[k]);
    }
  }

  /** A search never ranks another tenant's document. */
  lemma TenantIsolation(log: real -> real, all: seq<Doc>, tenant: Tenant, terms: seq<string>, fuzzy: bool,
                        ranked: seq<Hit>, k: nat)
    requires IsLog(log) && IsRanking(ranked, Matches(log, TenantDocs(all, tenant), terms, fuzzy)) && k < |ranked|
    ensures ranked[k].doc in all && ranked[k].doc.tenant == tenant
  {
    assert ranked[k] in Elements(ranked);
    assert ranked[k].doc in TenantDocs(all, tenant);
  }

  /** Two requests that share a cache entry deserve the same page, unless their digests collide or typo
      tolerance has a choice between words. */
  lemma SharedEntrySharedPage(log: real -> real, hexdigest: string -> string, all: seq<Doc>, g: int,
                              t: Tenant, r: Request, t': Tenant, r': Request,
                              effective: seq<string>, effective': seq<string>, a: seq<Hit>, b: seq<Hit>)
    requires IsLog(log) && r.page >= 1 && r.size >= 0
    requires AllUnambiguous(TenantDocs(all, t), Tokenize(r.text), r.fuzzy)
    requires |hexdigest(CacheKeys.Canonical(r))| >= CacheKeys.DIGEST_LENGTH
    requires |hexdigest(CacheKeys.Canonical(r'))| >= CacheKeys.DIGEST_LENGTH
    requires CacheKeys.IsHex(hexdigest(CacheKeys.Canonical(r))) && CacheKeys.IsHex(hexdigest(CacheKeys.Canonical(r')))
    requires hexdigest(CacheKeys.Canonical(r))[..CacheKeys.DIGEST_LENGTH]
             == hexdigest(CacheKeys.Canonical(r'))[..CacheKeys.DIGEST_LENGTH] ==>
               CacheKeys.Canonical(r) == CacheKeys.Canonical(r')
    requires CacheKeys.KeyFor(hexdigest, t, g, r) == CacheKeys.KeyFor(hexdigest, t', g, r')
    requires IsEffective(TenantDocs(all, t), Tokenize(r.text), r.fuzzy, effective)
    requires IsEffective(TenantDocs(all, t'), Tokenize(r'.text), r'.fuzzy, effective')
    requires IsRanking(a, Matches(log, TenantDocs(all, t), effective, r.fuzzy))
    requires IsRanking(b, Matches(log, TenantDocs(all, t'), effective', r'.fuzzy))
    ensures t == t' && r'.page >= 1 && r'.size >= 0 && Page(a, r.page, r.size) == Page(b, r'.page, r'.size)
  {
    CacheKeys.SearchKeysSeparateRequests(hexdigest, t, g, r, t', g, r');
    RankingIgnoresInsertionOrder(log, all, all, t, r.fuzzy, r.text, r'.text, effective, effective', a, b);
  }
}
