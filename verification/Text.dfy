/** Query text: tokens for the engine and the normal form for the cache key, over ASCII. */
module Text {

  predicate IsWordChar(c: char) { 'a' <= c <= 'z' || '0' <= c <= '9' }

  predicate IsSpace(c: char) {
    c == ' ' || '\t' <= c <= '\r' || '\U{1c}' <= c <= '\U{1f}'
  }

  function LowerChar(c: char): char { if 'A' <= c <= 'Z' then c - 'A' + 'a' else c }

  function Lower(s: string): (r: string)
    ensures |r| == |s| && forall i :: 0 <= i < |s| ==> r[i] == LowerChar(s[i])
  {
    seq(|s|, i requires 0 <= i < |s| => LowerChar(s[i]))
  }

  const STOPWORDS: set<string> := {"the", "a", "an", "of", "and", "or", "to", "in", "is", "it", "for", "on"}

  function Flush(word: string): seq<string> { if word == [] then [] else [word] }

  /** The maximal runs of word characters; `word` is the run being read. */
  function Words(s: string, word: string): seq<string> {
    if s == [] then Flush(word)
    else if IsWordChar(s[0]) then Words(s[1..], word + [s[0]])
    else Flush(word) + Words(s[1..], [])
  }

  function Meaningful(words: seq<string>): seq<string> {
    if words == [] then []
    else (if words[0] in STOPWORDS then [] else [words[0]]) + Meaningful(words[1..])
  }

  function Tokenize(text: string): seq<string> {
    Meaningful(Words(Lower(text), []))
  }

  // ---------------------------------------------------------------- the normal form

  function StripLeft(s: string): string {
    if s != [] && IsSpace(s[0]) then StripLeft(s[1..]) else s
  }

  function StripRight(s: string): string {
    if s != [] && IsSpace(s[|s| - 1]) then StripRight(s[..|s| - 1]) else s
  }

  function Strip(s: string): string { StripRight(StripLeft(s)) }

  /** Every run of white space becomes one blank; `after` says that a blank was just written. */
  function Collapse(s: string, after: bool): string {
    if s == [] then []
    else if IsSpace(s[0]) then (if after then [] else " ") + Collapse(s[1..], true)
    else [s[0]] + Collapse(s[1..], false)
  }

  function Normalize(text: string): string {
    Collapse(Lower(Strip(text)), false)
  }

  // ---------------------------------------------------------------- normalising keeps the tokens

  lemma {:induction false} WordsStripLeft(s: string)
    ensures Words(StripLeft(s), []) == Words(s, [])
  {
    if s != [] && IsSpace(s[0]) {
      WordsStripLeft(s[1..]);
    }
  }

  lemma {:induction false} WordsTrailing(s: string, c: char, word: string)
    requires !IsWordChar(c)
    ensures Words(s + [c], word) == Words(s, word)
    decreases |s|
  {
    if s == [] {
      assert [c][1..] == [];
    } else {
      assert (s + [c])[1..] == s[1..] + [c];
      if IsWordChar(s[0]) {
        WordsTrailing(s[1..], c, word + [s[0]]);
      } else {
        WordsTrailing(s[1..], c, []);
      }
    }
  }

  lemma {:induction false} WordsStripRight(s: string)
    ensures Words(StripRight(s), []) == Words(s, [])
  {
    if s != [] && IsSpace(s[|s| - 1]) {
      assert s == s[..|s| - 1] + [s[|s| - 1]];
      WordsTrailing(s[..|s| - 1], s[|s| - 1], []);
      WordsStripRight(s[..|s| - 1]);
    }
  }

  lemma {:induction false} WordsCollapse(s: string, after: bool, word: string)
    requires after ==> word == []
    ensures Words(Collapse(s, after), word) == Words(s, word)
    decreases |s|
  {
    if s != [] {
      var rest := Collapse(s[1..], IsSpace(s[0]));
      if IsSpace(s[0]) {
        WordsCollapse(s[1..], true, []);
        if after {
          assert Collapse(s, after) == rest;
          assert Words(s, word) == [] + Words(s[1..], []) == Words(s[1..], []);
        } else {
          assert (" " + rest)[1..] == rest;
        }
      } else {
        assert ([s[0]] + rest)[1..] == rest;
        WordsCollapse(s[1..], false, if IsWordChar(s[0]) then word + [s[0]] else []);
      }
    }
  }

  lemma LowerKeepsSpaces(s: string, i: nat)
    requires i < |s|
    ensures IsSpace(Lower(s)[i]) == IsSpace(s[i])
  {}

  lemma {:induction false} LowerStripLeft(s: string)
    ensures Lower(StripLeft(s)) == StripLeft(Lower(s))
  {
    if s != [] {
      LowerKeepsSpaces(s, 0);
      assert Lower(s)[1..] == Lower(s[1..]);
      LowerStripLeft(s[1..]);
    }
  }

  lemma {:induction false} LowerStripRight(s: string)
    ensures Lower(StripRight(s)) == StripRight(Lower(s))
  {
    if s != [] {
      LowerKeepsSpaces(s, |s| - 1);
      assert Lower(s)[..|s| - 1] == Lower(s[..|s| - 1]);
      LowerStripRight(s[..|s| - 1]);
    }
  }

  lemma {:induction false} CollapseStaysLower(s: string, after: bool)
    requires Lower(s) == s
    ensures Lower(Collapse(s, after)) == Collapse(s, after)
    decreases |s|
  {
    if s != [] {
      assert forall i :: 0 <= i < |s| ==> LowerChar(s[i]) == s[i] by {
        assert forall i :: 0 <= i < |s| ==> Lower(s)[i] == s[i];
      }
      assert Lower(s[1..]) == s[1..];
      CollapseStaysLower(s[1..], true);
      CollapseStaysLower(s[1..], false);
      var c := Collapse(s, after);
      var rest := Collapse(s[1..], IsSpace(s[0]));
      assert forall i :: 0 <= i < |rest| ==> LowerChar(rest[i]) == rest[i] by {
        assert forall i :: 0 <= i < |rest| ==> Lower(rest)[i] == rest[i];
      }
    }
  }

  lemma LowerTwice(s: string)
    ensures Lower(Lower(s)) == Lower(s)
  {}

  /** A query and its normal form ask for the same tokens. */
  lemma NormalizeKeepsTokens(text: string)
    ensures Tokenize(Normalize(text)) == Tokenize(text)
  {
    var low := Lower(text);
    LowerStrip(text);
    LowerTwice(Strip(text));
    CollapseStaysLower(Strip(low), false);
    WordsCollapse(Strip(low), false, []);
    WordsStripRight(StripLeft(low));
    WordsStripLeft(low);
  }

  lemma {:induction false} WordsNonEmpty(s: string, word: string)
    ensures "" !in Words(s, word)
    decreases |s|
  {
    if s != [] {
      WordsNonEmpty(s[1..], if IsWordChar(s[0]) then word + [s[0]] else []);
    }
  }

  lemma {:induction false} MeaningfulSubset(words: seq<string>, w: string)
    requires w in Meaningful(words)
    ensures w in words && w !in STOPWORDS
  {
    if words[0] != w || w in STOPWORDS {
      MeaningfulSubset(words[1..], w);
    }
  }

  /** Tokens are never empty and never stop words. */
  lemma TokensAreMeaningful(text: string, w: string)
    requires w in Tokenize(text)
    ensures w != "" && w !in STOPWORDS
  {
    MeaningfulSubset(Words(Lower(text), []), w);
    WordsNonEmpty(Lower(text), []);
  }

  // ---------------------------------------------------------------- tokens are the runs of the text

  /** A lower-case letter or a digit stands at `k`. */
  predicate WordAt(s: string, k: int) {
    0 <= k < |s| && ('a' <= s[k] <= 'z' || '0' <= s[k] <= '9')
  }

  predicate AllWord(s: string, i: nat, j: nat) {
    forall k :: i <= k < j ==> WordAt(s, k)
  }

  /** `s[i..j]` is a maximal run of lower-case letters and digits. */
  predicate IsRun(s: string, i: nat, j: nat) {
    i < j <= |s| && AllWord(s, i, j) && !WordAt(s, i - 1) && !WordAt(s, j)
  }

  datatype Span = Span(from: nat, to: nat)

  /** From left to right, the runs of `s` that begin at `start` or later: all of them, and nothing else. */
  ghost predicate AreRuns(s: string, spans: seq<Span>, start: nat) {
    && (forall k :: 0 <= k < |spans| ==> start <= spans[k].from && IsRun(s, spans[k].from, spans[k].to))
    && (forall k, l :: 0 <= k < l < |spans| ==> spans[k].to <= spans[l].from)
    && (forall i: nat, j: nat :: start <= i && IsRun(s, i, j) ==> Span(i, j) in spans)
  }

  function Texts(s: string, spans: seq<Span>): seq<string>
    requires forall k :: 0 <= k < |spans| ==> spans[k].from <= spans[k].to <= |s|
  {
    seq(|spans|, k requires 0 <= k < |spans| => s[spans[k].from..spans[k].to])
  }

  function OneSpan(from: nat, to: nat): seq<Span> { if from == to then [] else [Span(from, to)] }

  /** The runs from position `n` on, where the current one began at `start`. */
  function SpansFrom(s: string, start: nat, n: nat): (spans: seq<Span>)
    requires start <= n <= |s|
    ensures forall k :: 0 <= k < |spans| ==> spans[k].from <= spans[k].to <= |s|
    decreases |s| - n
  {
    if n == |s| then OneSpan(start, n)
    else if IsWordChar(s[n]) then SpansFrom(s, start, n + 1)
    else OneSpan(start, n) + SpansFrom(s, n + 1, n + 1)
  }

  lemma {:induction false} WordsAreTexts(s: string, start: nat, n: nat)
    requires start <= n <= |s|
    ensures Words(s[n..], s[start..n]) == Texts(s, SpansFrom(s, start, n))
    decreases |s| - n
  {
    WordsUnfold(s, start, n);
    TextOfOneSpan(s, start, n);
    if n < |s| {
      if IsWordChar(s[n]) {
        WordsAreTexts(s, start, n + 1);
      } else {
        WordsAreTexts(s, n + 1, n + 1);
        TextsConcat(s, OneSpan(start, n), SpansFrom(s, n + 1, n + 1));
      }
    }
  }

  lemma WordsUnfold(s: string, start: nat, n: nat)
    requires start <= n <= |s|
    ensures n == |s| ==> Words(s[n..], s[start..n]) == Flush(s[start..n])
    ensures n < |s| ==>
              Words(s[n..], s[start..n])
              == if IsWordChar(s[n]) then Words(s[n + 1..], s[start..n + 1])
                 else Flush(s[start..n]) + Words(s[n + 1..], s[n + 1..n + 1])
  {
    if n < |s| {
      assert s[n..][1..] == s[n + 1..] && s[start..n + 1] == s[start..n] + [s[n]] && s[n + 1..n + 1] == [];
    }
  }

  lemma TextOfOneSpan(s: string, start: nat, n: nat)
    requires start <= n <= |s|
    ensures Texts(s, OneSpan(start, n)) == Flush(s[start..n])
  {}

  lemma TextsConcat(s: string, a: seq<Span>, b: seq<Span>)
    requires forall k :: 0 <= k < |a| ==> a[k].from <= a[k].to <= |s|
    requires forall k :: 0 <= k < |b| ==> b[k].from <= b[k].to <= |s|
    ensures Texts(s, a + b) == Texts(s, a) + Texts(s, b)
  {}

  lemma {:induction false} SpansAreRuns(s: string, start: nat, n: nat)
    requires start <= n <= |s| && AllWord(s, start, n) && !WordAt(s, start - 1)
    ensures AreRuns(s, SpansFrom(s, start, n), start)
    decreases |s| - n
  {
    if n < |s| && IsWordChar(s[n]) {
      assert WordAt(s, n);
      SpansAreRuns(s, start, n + 1);
    } else if n < |s| {
      SpansAreRuns(s, n + 1, n + 1);
      RunThenRuns(s, start, n, SpansFrom(s, n + 1, n + 1));
    } else {
      LastRun(s, start);
    }
  }

  lemma LastRun(s: string, start: nat)
    requires start <= |s| && AllWord(s, start, |s|) && !WordAt(s, start - 1)
    ensures AreRuns(s, OneSpan(start, |s|), start)
  {
    forall i: nat, j: nat | start <= i && IsRun(s, i, j)
      ensures Span(i, j) in OneSpan(start, |s|)
    {
      RunStartsOnce(s, start, |s|, i, j);
    }
  }

  lemma RunThenRuns(s: string, start: nat, n: nat, later: seq<Span>)
    requires start <= n < |s| && AllWord(s, start, n) && !WordAt(s, start - 1) && !WordAt(s, n)
    requires AreRuns(s, later, n + 1)
    ensures AreRuns(s, OneSpan(start, n) + later, start)
  {
    var first, spans := OneSpan(start, n), OneSpan(start, n) + later;
    forall k | 0 <= k < |spans|
      ensures start <= spans[k].from && IsRun(s, spans[k].from, spans[k].to)
    {
      assert spans[k] == if k < |first| then Span(start, n) else later[k - |first|];
    }
    forall k, l | 0 <= k < l < |spans|
      ensures spans[k].to <= spans[l].from
    {
      assert spans[l] == later[l - |first|];
      assert spans[k] == if k < |first| then Span(start, n) else later[k - |first|];
    }
    forall i: nat, j: nat | start <= i && IsRun(s, i, j)
      ensures Span(i, j) in spans
    {
      if i <= n {
        RunStartsOnce(s, start, n, i, j);
        assert spans[0] == Span(i, j);
      } else {
        assert Span(i, j) in later;
      }
    }
  }

  /** A run that begins between `start` and `n` is the run from `start` to `n`. */
  lemma RunStartsOnce(s: string, start: nat, n: nat, i: nat, j: nat)
    requires start <= i <= n <= |s| && IsRun(s, i, j) && AllWord(s, start, n) && !WordAt(s, n)
    ensures i == start && j == n && start < n
  {
    // The borders, each of which one of the runs excludes.
    var borders := [WordAt(s, n), WordAt(s, i - 1), WordAt(s, j), WordAt(s, i)];
  }

  /** The tokens of a text, in order, are the maximal runs of letters and digits of its lower-case form that
      are no stop words: all of them, and nothing else. */
  lemma TokensAreTheRuns(text: string) returns (spans: seq<Span>)
    ensures AreRuns(Lower(text), spans, 0)
    ensures Tokenize(text) == Meaningful(Texts(Lower(text), spans))
  {
    var s := Lower(text);
    SpansAreRuns(s, 0, 0);
    WordsAreTexts(s, 0, 0);
    assert s[0..] == s && s[0..0] == [];
    spans := SpansFrom(s, 0, 0);
  }

  /** Dropping stop words keeps every other word, in its place. */
  lemma {:induction false} OnlyStopWordsGo(a: seq<string>, b: seq<string>, w: string)
    ensures Meaningful(a + b) == Meaningful(a) + Meaningful(b)
    ensures Meaningful([w])
         == if w in {"the", "a", "an", "of", "and", "or", "to", "in", "is", "it", "for", "on"} then [] else [w]
  {
    assert [w][1..] == [];
    if a == [] {
      assert a + b == b;
    } else {
      assert (a + b)[1..] == a[1..] + b;
      OnlyStopWordsGo(a[1..], b, w);
    }
  }

  // ---------------------------------------------------------------- spellings with one normal form

  predicate SameLetter(c: char, d: char) {
    c == d || ('A' <= c <= 'Z' && d == c + 32 as char) || ('A' <= d <= 'Z' && c == d + 32 as char)
  }

  /** Spellings that differ in case alone have one normal form. */
  lemma CaseIsIgnored(a: string, b: string)
    requires |a| == |b| && forall i :: 0 <= i < |a| ==> SameLetter(a[i], b[i])
    ensures Normalize(a) == Normalize(b)
  {
    LowerStrip(a);
    LowerStrip(b);
    LowerIgnoresCase(a, b);
  }

  lemma LowerStrip(text: string)
    ensures Lower(Strip(text)) == Strip(Lower(text))
  {
    LowerStripLeft(text);
    LowerStripRight(StripLeft(text));
  }

  lemma LowerIgnoresCase(a: string, b: string)
    requires |a| == |b| && forall i :: 0 <= i < |a| ==> SameLetter(a[i], b[i])
    ensures Lower(a) == Lower(b)
  {
    forall i | 0 <= i < |a|
      ensures Lower(a)[i] == Lower(b)[i]
    {
      assert SameLetter(a[i], b[i]);
    }
  }

  predicate IsBlank(s: string) {
    forall i :: 0 <= i < |s| ==> s[i] == ' ' || '\t' <= s[i] <= '\r' || '\U{1c}' <= s[i] <= '\U{1f}'
  }

  lemma {:induction false} StripLeftBlank(blank: string, s: string)
    requires IsBlank(blank)
    ensures StripLeft(blank + s) == StripLeft(s)
  {
    if blank == [] {
      assert blank + s == s;
    } else {
      assert (blank + s)[1..] == blank[1..] + s;
      StripLeftBlank(blank[1..], s);
    }
  }

  lemma {:induction false} StripRightBlank(s: string, blank: string)
    requires IsBlank(blank)
    ensures StripRight(s + blank) == StripRight(s)
  {
    if blank == [] {
      assert s + blank == s;
    } else {
      assert (s + blank)[..|s + blank| - 1] == s + blank[..|blank| - 1];
      StripRightBlank(s, blank[..|blank| - 1]);
    }
  }

  /** White space around a query does not matter. */
  lemma OuterBlanksAreIgnored(blank: string, text: string, blank': string)
    requires IsBlank(blank) && IsBlank(blank')
    ensures Normalize(blank + text + blank') == Normalize(text)
  {
    assert blank + text + blank' == blank + (text + blank');
    StripLeftBlank(blank, text + blank');
    StripLeftThenBlank(text, blank');
    StripRightBlank(StripLeft(text), blank');
  }

  lemma {:induction false} StripLeftThenBlank(s: string, blank: string)
    requires IsBlank(blank)
    ensures StripRight(StripLeft(s + blank)) == StripRight(StripLeft(s) + blank)
  {
    if s == [] {
      assert s + blank == blank && StripLeft(s) + blank == blank;
      StripLeftBlank(blank, []);
      assert blank + [] == blank && [] + blank == blank;
      StripRightBlank([], blank);
    } else if IsSpace(s[0]) {
      assert (s + blank)[1..] == s[1..] + blank;
      StripLeftThenBlank(s[1..], blank);
    }
  }

  lemma {:induction false} CollapseBlanks(a: string, blank: string, b: string, after: bool)
    requires IsBlank(blank) && blank != []
    ensures Collapse(a + blank + b, after) == Collapse(a + " " + b, after)
    decreases |a| + |blank|
  {
    if a == [] {
      assert a + blank + b == blank + b && a + " " + b == " " + b;
      assert (blank + b)[1..] == blank[1..] + b && (" " + b)[1..] == b;
      SkipBlanks(blank[1..], b);
    } else {
      assert (a + blank + b)[1..] == a[1..] + blank + b && (a + " " + b)[1..] == a[1..] + " " + b;
      CollapseBlanks(a[1..], blank, b, IsSpace(a[0]));
    }
  }

  lemma {:induction false} SkipBlanks(blank: string, b: string)
    requires IsBlank(blank)
    ensures Collapse(blank + b, true) == Collapse(b, true)
  {
    if blank == [] {
      assert blank + b == b;
    } else {
      assert (blank + b)[1..] == blank[1..] + b;
      SkipBlanks(blank[1..], b);
    }
  }

  /** Nor does how much of it, or what kind, stands between two words. */
  lemma InnerBlanksAreOne(a: string, blank: string, b: string)
    requires IsBlank(blank) && blank != [] && a != [] && b != []
    requires !IsBlank([a[0]]) && !IsBlank([b[|b| - 1]])
    ensures Normalize(a + blank + b) == Normalize(a + " " + b)
  {
    NothingToStrip(a, blank, b);
    NothingToStrip(a, " ", b);
    LowerConcat(a, blank, b);
    LowerConcat(a, " ", b);
    LowerBlank(blank);
    LowerBlank(" ");
    CollapseBlanks(Lower(a), blank, Lower(b), false);
  }

  lemma NothingToStrip(a: string, middle: string, b: string)
    requires a != [] && b != [] && !IsBlank([a[0]]) && !IsBlank([b[|b| - 1]])
    ensures Strip(a + middle + b) == a + middle + b
  {
    var s := a + middle + b;
    assert [a[0]][0] == s[0] && [b[|b| - 1]][0] == s[|s| - 1];
  }

  lemma LowerConcat(a: string, b: string, c: string)
    ensures Lower(a + b + c) == Lower(a) + Lower(b) + Lower(c)
  {}

  lemma LowerBlank(blank: string)
    requires IsBlank(blank)
    ensures Lower(blank) == blank
  {}
}
