/** Typo tolerance: the two-pointer test against the Levenshtein distance, and the closest word. */
module EditDistance {
  import opened Documents

  /** The reference: fewest single-character insertions, deletions and substitutions. */
  function Levenshtein(a: string, b: string): nat
    decreases |a| + |b|
  {
    if a == [] then |b|
    else if b == [] then |a|
    else
      Min(Levenshtein(a[1..], b[1..]) + (if a[0] == b[0] then 0 else 1),
          Min(Levenshtein(a[1..], b), Levenshtein(a, b[1..])) + 1)
  }

  // ---------------------------------------------------------------- the test as coded

  function Mismatches(a: string, b: string): nat
    requires |a| == |b|
  {
    if a == [] then 0 else (if a[0] == b[0] then 0 else 1) + Mismatches(a[1..], b[1..])
  }

  /** Walk both words; one character of the longer may be skipped. */
  predicate Walk(shorter: string, longer: string, skipped: bool)
    decreases |longer|
  {
    if shorter == [] || longer == [] then true
    else if shorter[0] == longer[0] then Walk(shorter[1..], longer[1..], skipped)
    else !skipped && Walk(shorter, longer[1..], true)
  }

  predicate AtMostOne(a: string, b: string) {
    if a == b then true
    else if |a| == |b| then Mismatches(a, b) == 1
    else if |a| < |b| then Walk(a, b, false)
    else Walk(b, a, false)
  }

  /** The caller's guard. */
  predicate LengthsWithinOne(a: string, b: string) {
    |a| <= |b| + 1 && |b| <= |a| + 1
  }

  method EditDistanceAtMostOne(a: string, b: string) returns (r: bool)
    ensures r == AtMostOne(a, b)
    ensures LengthsWithinOne(a, b) ==> (r <==> Levenshtein(a, b) <= 1)
  {
    if LengthsWithinOne(a, b) {
      TwoPointersAreLevenshtein(a, b);
    }
    if a == b {
      return true;
    }
    if |a| == |b| {
      var differing := 0;
      for k := 0 to |a|
        invariant differing + Mismatches(a[k..], b[k..]) == Mismatches(a, b)
      {
        if a[k] != b[k] {
          differing := differing + 1;
        }
      }
      return differing == 1;
    }
    var shorter, longer := if |a| < |b| then a else b, if |a| < |b| then b else a;
    var i, j, skipped := 0, 0, false;
    while i < |shorter| && j < |longer|
      invariant 0 <= i <= |shorter| && 0 <= j <= |longer|
      invariant Walk(shorter[i..], longer[j..], skipped) == Walk(shorter, longer, false)
      decreases |longer| - j
    {
      if shorter[i] != longer[j] {
        if skipped {
          return false;
        }
        skipped := true;
        j := j + 1;
        continue;
      }
      i := i + 1;
      j := j + 1;
    }
    return true;
  }

  // ---------------------------------------------------------------- both are the same relation

  lemma {:induction false} ZeroIsEqual(a: string, b: string)
    ensures Levenshtein(a, b) == 0 <==> a == b
    decreases |a| + |b|
  {
    if a != [] && b != [] {
      ZeroIsEqual(a[1..], b[1..]);
      assert a == b <==> a[0] == b[0] && a[1..] == b[1..] by {
        assert a == [a[0]] + a[1..] && b == [b[0]] + b[1..];
      }
    }
  }

  /** Dropping the first character is one edit. */
  lemma DropFirst(a: string)
    requires a != []
    ensures Levenshtein(a, a[1..]) <= 1 && Levenshtein(a[1..], a) <= 1
  {
    ZeroIsEqual(a[1..], a[1..]);
  }

  /** Distance at most one, unfolded: a common first character never has to be touched. */
  lemma OneEdit(a: string, b: string)
    requires a != [] && b != []
    ensures a[0] == b[0] ==> (Levenshtein(a, b) <= 1 <==> Levenshtein(a[1..], b[1..]) <= 1)
    ensures a[0] != b[0] ==> (Levenshtein(a, b) <= 1 <==> a[1..] == b[1..] || a[1..] == b || a == b[1..])
  {
    ZeroIsEqual(a[1..], b[1..]);
    ZeroIsEqual(a[1..], b);
    ZeroIsEqual(a, b[1..]);
    if a[0] == b[0] {
      DropFirst(b);
      DropFirst(a);
    }
  }

  lemma {:induction false} EqualLengths(a: string, b: string)
    requires |a| == |b|
    ensures Mismatches(a, b) == 0 <==> a == b
    ensures Mismatches(a, b) <= 1 <==> Levenshtein(a, b) <= 1
  {
    if a != [] {
      EqualLengths(a[1..], b[1..]);
      OneEdit(a, b);
      assert a == b <==> a[0] == b[0] && a[1..] == b[1..] by {
        assert a == [a[0]] + a[1..] && b == [b[0]] + b[1..];
      }
    }
  }

  /** After the skip only a prefix is accepted: the rest of the longer word is never looked at. */
  lemma {:induction false} WalkAfterSkip(shorter: string, longer: string)
    requires |shorter| <= |longer|
    ensures Walk(shorter, longer, true) <==> shorter <= longer
  {
    if shorter != [] {
      WalkAfterSkip(shorter[1..], longer[1..]);
      PrefixUnfolds(shorter, longer);
    }
  }

  lemma PrefixUnfolds(a: string, b: string)
    requires a != [] && b != []
    ensures a <= b <==> a[0] == b[0] && a[1..] <= b[1..]
  {
    assert a == [a[0]] + a[1..] && b == [b[0]] + b[1..];
  }

  lemma {:induction false} LengthsOneApart(shorter: string, longer: string)
    requires |shorter| + 1 == |longer|
    ensures Walk(shorter, longer, false) <==> Levenshtein(shorter, longer) <= 1
  {
    if shorter != [] {
      OneEdit(shorter, longer);
      if shorter[0] == longer[0] {
        LengthsOneApart(shorter[1..], longer[1..]);
      } else {
        WalkAfterSkip(shorter, longer[1..]);
      }
    }
  }

  lemma {:induction false} Symmetric(a: string, b: string)
    ensures Levenshtein(a, b) == Levenshtein(b, a)
    decreases |a| + |b|
  {
    if a != [] && b != [] {
      Symmetric(a[1..], b[1..]);
      Symmetric(a[1..], b);
      Symmetric(a, b[1..]);
    }
  }

  lemma TwoPointersAreLevenshtein(a: string, b: string)
    requires LengthsWithinOne(a, b)
    ensures AtMostOne(a, b) <==> Levenshtein(a, b) <= 1
  {
    if |a| == |b| {
      EqualLengths(a, b);
    } else if |a| < |b| {
      LengthsOneApart(a, b);
    } else {
      LengthsOneApart(b, a);
      Symmetric(a, b);
    }
  }

  /** The distance is at least the difference of the lengths. */
  lemma {:induction false} LengthGap(a: string, b: string)
    ensures |a| <= |b| + Levenshtein(a, b) && |b| <= |a| + Levenshtein(a, b)
    decreases |a| + |b|
  {
    if a != [] && b != [] {
      LengthGap(a[1..], b[1..]);
      LengthGap(a[1..], b);
      LengthGap(a, b[1..]);
    }
  }

  // ---------------------------------------------------------------- without the length guard

  function Without(word: string, k: nat): string
    requires k < |word|
  {
    word[..k] + word[k + 1..]
  }

  /** The shorter word begins the longer one, once some character of the longer is dropped. */
  ghost predicate BeginsWithoutOne(shorter: string, longer: string) {
    exists k :: 0 <= k < |longer| && shorter <= Without(longer, k)
  }

  lemma DropLater(shorter: string, longer: string, k: nat)
    requires shorter != [] && 0 < k < |longer| && |shorter| < |longer|
    ensures shorter <= Without(longer, k) <==> shorter[0] == longer[0] && shorter[1..] <= Without(longer[1..], k - 1)
  {
    assert Without(longer, k)[1..] == Without(longer[1..], k - 1);
    PrefixUnfolds(shorter, Without(longer, k));
  }

  lemma BeginsUnfolds(shorter: string, longer: string)
    requires shorter != [] && |shorter| < |longer|
    ensures BeginsWithoutOne(shorter, longer) <==>
              if shorter[0] == longer[0] then BeginsWithoutOne(shorter[1..], longer[1..]) else shorter <= longer[1..]
  {
    assert Without(longer, 0) == longer[1..];
    if BeginsWithoutOne(shorter, longer) {
      var k :| 0 <= k < |longer| && shorter <= Without(longer, k);
      if k > 0 {
        DropLater(shorter, longer, k);
      } else if shorter[0] == longer[0] {
        PrefixUnfolds(shorter, longer[1..]);
        assert Without(longer[1..], 0) == longer[1..][1..];
      }
    }
    if shorter[0] == longer[0] && BeginsWithoutOne(shorter[1..], longer[1..]) {
      var k :| 0 <= k < |longer[1..]| && shorter[1..] <= Without(longer[1..], k);
      DropLater(shorter, longer, k + 1);
    }
  }

  /** What the walk over words of different lengths accepts, whatever their lengths. */
  lemma {:induction false} WalkAccepts(shorter: string, longer: string)
    requires |shorter| < |longer|
    ensures Walk(shorter, longer, false) <==> BeginsWithoutOne(shorter, longer)
  {
    if shorter == [] {
      assert shorter <= Without(longer, 0);
    } else {
      BeginsUnfolds(shorter, longer);
      if shorter[0] == longer[0] {
        WalkAccepts(shorter[1..], longer[1..]);
      } else {
        WalkAfterSkip(shorter, longer[1..]);
      }
    }
  }

  function Shorter(a: string, b: string): string { if |a| < |b| then a else b }
  function Longer(a: string, b: string): string { if |a| < |b| then b else a }

  /** For all words, the test is wrong exactly when their lengths are further apart than the caller's
      guard allows and the shorter word begins the longer one, once some character of the longer is
      dropped. */
  lemma GuardIsNeeded(a: string, b: string)
    ensures (AtMostOne(a, b) <==> Levenshtein(a, b) <= 1) <==>
              LengthsWithinOne(a, b) || !BeginsWithoutOne(Shorter(a, b), Longer(a, b))
    ensures AtMostOne("", "ab") && Levenshtein("", "ab") == 2
  {
    if LengthsWithinOne(a, b) {
      TwoPointersAreLevenshtein(a, b);
    } else {
      LengthGap(a, b);
      WalkAccepts(Shorter(a, b), Longer(a, b));
    }
  }

  // ---------------------------------------------------------------- the closest word

  ghost predicate Close(term: string, word: string) {
    Levenshtein(term, word) <= 1
  }

  /** Nothing when no word of the vocabulary is within one edit, otherwise a shortest such word.
      The vocabulary is visited in any order. */
  ghost predicate IsClosest(term: string, vocabulary: set<string>, best: Option<string>) {
    match best
    case None => forall w :: w in vocabulary ==> !Close(term, w)
    case Some(word) =>
      word in vocabulary && Close(term, word) && forall w :: w in vocabulary && Close(term, w) ==> |word| <= |w|
  }

  method Closest(term: string, vocabulary: set<string>) returns (best: Option<string>)
    ensures IsClosest(term, vocabulary, best)
  {
    best := None;
    var rest := vocabulary;
    while rest != {}
      invariant rest <= vocabulary
      invariant IsClosest(term, vocabulary - rest, best)
      decreases rest
    {
      var candidate :| candidate in rest;
      rest := rest - {candidate};
      assert vocabulary - rest == (vocabulary - (rest + {candidate})) + {candidate};
      LengthGap(term, candidate);
      if |candidate| > |term| + 1 || |term| > |candidate| + 1 {
        continue;
      }
      var close := EditDistanceAtMostOne(term, candidate);
      if close && (best.None? || |candidate| < |best.value|) {
        best := Some(candidate);
      }
    }
    assert vocabulary - rest == vocabulary;
  }
}
