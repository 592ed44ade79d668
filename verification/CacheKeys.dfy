/** Cache keys as text. Tenant ids and queries are arbitrary strings, separators included. */
module CacheKeys {
  import opened Text
  import Documents

  type Request = Documents.Request

  // ---------------------------------------------------------------- numbers

  const DIGITS := "0123456789"

  function Decimal(n: nat): (s: string)
    ensures s != []
  {
    if n < 10 then [DIGITS[n]] else Decimal(n / 10) + [DIGITS[n % 10]]
  }

  function Show(n: int): string { if n < 0 then "-" + Decimal(-n) else Decimal(n) }

  function Bit(b: bool): string { if b then "1" else "0" }

  // ---------------------------------------------------------------- keys

  function Canonical(r: Request): string {
    var paged := Field(Field(Normalize(r.text), 'p', Show(r.page)), 's', Show(r.size));
    Field(Field(Field(paged, 'f', Bit(r.fuzzy)), 'h', Bit(r.highlight)), 'a', Bit(r.facets))
  }

  /** What is left of a request in its canonical text. */
  function NormalForm(r: Request): Request {
    r.(text := Normalize(r.text))
  }

  function Field(before: string, name: char, value: string): string {
    before + ['|', name, '='] + value
  }

  const DIGEST_LENGTH := 24

  function SearchKey(tenant: string, generation: int, digest: string): string {
    "t:" + tenant + ":search" + ":" + ("g" + Show(generation)) + ":" + digest
  }

  function GenerationKey(tenant: string): string {
    "t:" + tenant + ":search" + ":" + "gen"
  }

  function DocumentKey(tenant: string, id: string): string {
    "t:" + tenant + ":doc" + ":" + id
  }

  function RateLimitKey(tenant: string, bucket: string): string {
    "rl:" + tenant + ":" + bucket
  }

  /** The search key of a request under a hexadecimal digest. */
  function KeyFor(hexdigest: string -> string, tenant: string, generation: int, r: Request): string
    requires |hexdigest(Canonical(r))| >= DIGEST_LENGTH
  {
    SearchKey(tenant, generation, hexdigest(Canonical(r))[..DIGEST_LENGTH])
  }

  predicate IsHex(s: string) {
    forall i :: 0 <= i < |s| ==> '0' <= s[i] <= '9' || 'a' <= s[i] <= 'f'
  }

  /** The canonical text of a document id: 32 hexadecimal digits and four dashes. */
  predicate IsUuidText(s: string) {
    |s| == 36 && forall i :: 0 <= i < |s| ==> '0' <= s[i] <= '9' || 'a' <= s[i] <= 'f' || s[i] == '-'
  }

  // ---------------------------------------------------------------- taking keys apart

  lemma NotAfter(x: string, c: char, d: string)
    requires c !in d
    ensures forall i :: |x| < i < |x + [c] + d| ==> (x + [c] + d)[i] != c
  {
    forall i | |x| < i < |x + [c] + d|
      ensures (x + [c] + d)[i] != c
    {
      assert (x + [c] + d)[i] == d[i - |x| - 1];
    }
  }

  /** Text is split in one way only at its last separator. */
  lemma LastSeparator(x: string, c: char, d: string, x': string, d': string)
    requires x + [c] + d == x' + [c] + d' && c !in d && c !in d'
    ensures x == x' && d == d'
  {
    var s := x + [c] + d;
    assert s[|x|] == c && s[|x'|] == c;
    NotAfter(x, c, d);
    NotAfter(x', c, d');
    assert x == s[..|x|] && d == s[|x| + 1..];
  }

  lemma SameSuffix(x: string, x': string, suffix: string)
    requires x + suffix == x' + suffix
    ensures x == x'
  {
    assert x == (x + suffix)[..|x|];
  }

  lemma SamePrefix(prefix: string, x: string, x': string)
    requires prefix + x == prefix + x'
    ensures x == x'
  {
    assert x == (prefix + x)[|prefix|..];
  }

  lemma {:induction false} DecimalDigits(n: nat)
    ensures forall i :: 0 <= i < |Decimal(n)| ==> '0' <= Decimal(n)[i] <= '9'
  {
    if n >= 10 {
      DecimalDigits(n / 10);
    }
  }

  lemma DigitsDiffer(i: nat, j: nat)
    requires i < 10 && j < 10 && DIGITS[i] == DIGITS[j]
    ensures i == j
  {}

  lemma {:induction false} DecimalInjective(n: nat, m: nat)
    requires Decimal(n) == Decimal(m)
    ensures n == m
  {
    var s, t := Decimal(n), Decimal(m);
    assert s[|s| - 1] == DIGITS[n % 10] && t[|t| - 1] == DIGITS[m % 10];
    DigitsDiffer(n % 10, m % 10);
    if n >= 10 && m >= 10 {
      assert s[..|s| - 1] == Decimal(n / 10) && t[..|t| - 1] == Decimal(m / 10);
      DecimalInjective(n / 10, m / 10);
    }
  }

  lemma ShowsSign(n: int)
    ensures Show(n) != [] && (Show(n)[0] == '-' <==> n < 0)
  {
    if n >= 0 {
      DecimalDigits(n);
    }
  }

  lemma NegativeInjective(n: nat, m: nat)
    requires "-" + Decimal(n) == "-" + Decimal(m)
    ensures n == m
  {
    SamePrefix("-", Decimal(n), Decimal(m));
    DecimalInjective(n, m);
  }

  lemma ShowInjective(n: int, m: int)
    requires Show(n) == Show(m)
    ensures n == m
  {
    ShowsSign(n);
    ShowsSign(m);
    assert n < 0 <==> m < 0;
    if n < 0 {
      NegativeInjective(-n, -m);
    } else {
      DecimalInjective(n, m);
    }
  }

  lemma ShowIsPlain(n: int, c: char)
    requires c == '=' || c == ':'
    ensures c !in Show(n)
  {
    if n < 0 { DecimalDigits(-n); } else { DecimalDigits(n); }
  }

  lemma FieldInjective(x: string, name: char, v: string, x': string, v': string)
    requires Field(x, name, v) == Field(x', name, v') && '=' !in v && '=' !in v'
    ensures x == x' && v == v'
  {
    assert Field(x, name, v) == (x + ['|', name]) + ['='] + v;
    assert Field(x', name, v') == (x' + ['|', name]) + ['='] + v';
    LastSeparator(x + ['|', name], '=', v, x' + ['|', name], v');
    SameSuffix(x, x', ['|', name]);
  }

  /** Equal canonical texts come from equal page, size and flags and from queries with one normal form. */
  lemma CanonicalInjective(r: Request, r': Request)
    requires Canonical(r) == Canonical(r')
    ensures Normalize(r.text) == Normalize(r'.text)
    ensures r.page == r'.page && r.size == r'.size && r.fuzzy == r'.fuzzy && r.highlight == r'.highlight
    ensures r.facets == r'.facets
  {
    var p, p' := Field(Normalize(r.text), 'p', Show(r.page)), Field(Normalize(r'.text), 'p', Show(r'.page));
    var s, s' := Field(p, 's', Show(r.size)), Field(p', 's', Show(r'.size));
    var f, f' := Field(s, 'f', Bit(r.fuzzy)), Field(s', 'f', Bit(r'.fuzzy));
    var h, h' := Field(f, 'h', Bit(r.highlight)), Field(f', 'h', Bit(r'.highlight));
    FieldInjective(h, 'a', Bit(r.facets), h', Bit(r'.facets));
    FieldInjective(f, 'h', Bit(r.highlight), f', Bit(r'.highlight));
    FieldInjective(s, 'f', Bit(r.fuzzy), s', Bit(r'.fuzzy));
    ShowIsPlain(r.size, '=');
    ShowIsPlain(r'.size, '=');
    FieldInjective(p, 's', Show(r.size), p', Show(r'.size));
    ShowIsPlain(r.page, '=');
    ShowIsPlain(r'.page, '=');
    FieldInjective(Normalize(r.text), 'p', Show(r.page), Normalize(r'.text), Show(r'.page));
    ShowInjective(r.page, r'.page);
    ShowInjective(r.size, r'.size);
  }

  /** Requests with one normal form ask for the same words, page, size and options. */
  lemma NormalFormKeepsTokens(r: Request, r': Request)
    requires NormalForm(r) == NormalForm(r')
    ensures Tokenize(r.text) == Tokenize(r'.text)
    ensures r == r'.(text := r.text)
  {
    assert NormalForm(r).text == NormalForm(r').text;
    NormalizeKeepsTokens(r.text);
    NormalizeKeepsTokens(r'.text);
    assert r == NormalForm(r).(text := r.text) && r'.(text := r.text) == NormalForm(r').(text := r.text);
  }

  /** The canonical text keeps exactly the normal form. */
  lemma CanonicalKeepsTheNormalForm(r: Request, r': Request)
    ensures Canonical(r) == Canonical(r') <==> NormalForm(r) == NormalForm(r')
  {
    if Canonical(r) == Canonical(r') {
      CanonicalInjective(r, r');
    }
  }

  lemma SearchKeyInjective(t: string, g: int, d: string, t': string, g': int, d': string)
    requires SearchKey(t, g, d) == SearchKey(t', g', d') && ':' !in d && ':' !in d'
    ensures t == t' && g == g' && d == d'
  {
    var n, n' := "g" + Show(g), "g" + Show(g');
    var x, x' := "t:" + t + ":search", "t:" + t' + ":search";
    assert SearchKey(t, g, d) == (x + ":" + n) + [':'] + d;
    assert SearchKey(t', g', d') == (x' + ":" + n') + [':'] + d';
    LastSeparator(x + ":" + n, ':', d, x' + ":" + n', d');
    ShowIsPlain(g, ':');
    ShowIsPlain(g', ':');
    LastSeparator(x, ':', n, x', n');
    SameSuffix("t:" + t, "t:" + t', ":search");
    SamePrefix("t:", t, t');
    SamePrefix("g", Show(g), Show(g'));
    ShowInjective(g, g');
  }

  /** Unless the digests of these two requests collide, equal search keys mean the same tenant,
      generation, page, size and flags and queries with the same tokens. */
  lemma SearchKeysSeparateRequests(hexdigest: string -> string, t: string, g: int, r: Request, t': string, g': int,
                                   r': Request)
    requires |hexdigest(Canonical(r))| >= DIGEST_LENGTH && |hexdigest(Canonical(r'))| >= DIGEST_LENGTH
    requires IsHex(hexdigest(Canonical(r))) && IsHex(hexdigest(Canonical(r')))
    requires hexdigest(Canonical(r))[..DIGEST_LENGTH] == hexdigest(Canonical(r'))[..DIGEST_LENGTH] ==>
               Canonical(r) == Canonical(r')
    requires KeyFor(hexdigest, t, g, r) == KeyFor(hexdigest, t', g', r')
    ensures t == t' && g == g'
    ensures r.page == r'.page && r.size == r'.size && r.fuzzy == r'.fuzzy && r.highlight == r'.highlight
    ensures r.facets == r'.facets
    ensures Tokenize(r.text) == Tokenize(r'.text)
  {
    var d, d' := hexdigest(Canonical(r))[..DIGEST_LENGTH], hexdigest(Canonical(r'))[..DIGEST_LENGTH];
    SearchKeyInjective(t, g, d, t', g', d');
    CanonicalInjective(r, r');
    NormalizeKeepsTokens(r.text);
    NormalizeKeepsTokens(r'.text);
  }

  /** Keys of different purposes never coincide, within or across tenants. */
  lemma PurposesNeverCoincide(t: string, g: int, d: string, t': string, id: string, t'': string, bucket: string)
    requires |d| == DIGEST_LENGTH && IsHex(d) && IsUuidText(id)
    ensures SearchKey(t, g, d) != GenerationKey(t')
    ensures SearchKey(t, g, d) != DocumentKey(t', id)
    ensures GenerationKey(t) != DocumentKey(t', id)
    ensures RateLimitKey(t'', bucket) != SearchKey(t, g, d) && RateLimitKey(t'', bucket) != GenerationKey(t')
            && RateLimitKey(t'', bucket) != DocumentKey(t', id)
  {
    assert RateLimitKey(t'', bucket)[0] == 'r';
    assert SearchKey(t, g, d)[0] == GenerationKey(t')[0] == DocumentKey(t', id)[0] == 't';
    DifferentTails("t:" + t + ":search" + ":" + ("g" + Show(g)), d, "t:" + t' + ":search", "gen");
    DifferentTails("t:" + t + ":search" + ":" + ("g" + Show(g)), d, "t:" + t' + ":doc", id);
    DifferentTails("t:" + t + ":search", "gen", "t:" + t' + ":doc", id);
  }

  lemma DifferentTails(x: string, d: string, x': string, d': string)
    requires ':' !in d && ':' !in d' && d != d'
    ensures x + ":" + d != x' + ":" + d'
  {
    if x + ":" + d == x' + ":" + d' {
      LastSeparator(x, ':', d, x', d');
    }
  }

  /** Generation, document and rate-limit keys determine their tenant and the rest of their fields;
      bucket names contain no separator. */
  lemma OtherKeysInjective(t: string, t': string, id: string, id': string, bucket: string, bucket': string)
    requires IsUuidText(id) && IsUuidText(id') && ':' !in bucket && ':' !in bucket'
    ensures GenerationKey(t) == GenerationKey(t') ==> t == t'
    ensures DocumentKey(t, id) == DocumentKey(t', id') ==> t == t' && id == id'
    ensures RateLimitKey(t, bucket) == RateLimitKey(t', bucket') ==> t == t' && bucket == bucket'
  {
    if GenerationKey(t) == GenerationKey(t') {
      LastSeparator("t:" + t + ":search", ':', "gen", "t:" + t' + ":search", "gen");
      SameSuffix("t:" + t, "t:" + t', ":search");
      SamePrefix("t:", t, t');
    }
    if DocumentKey(t, id) == DocumentKey(t', id') {
      LastSeparator("t:" + t + ":doc", ':', id, "t:" + t' + ":doc", id');
      SameSuffix("t:" + t, "t:" + t', ":doc");
      SamePrefix("t:", t, t');
    }
    if RateLimitKey(t, bucket) == RateLimitKey(t', bucket') {
      LastSeparator("rl:" + t, ':', bucket, "rl:" + t', bucket');
      SamePrefix("rl:", t, t');
    }
  }
}
