/**
  Models of the JavaScript built-ins the front end relies on: `String.prototype`
  `includes`, `toLowerCase`, `trim`, `slice` and `replace(/\s+/g, ...)`,
  `Array.prototype` `findIndex`, `find` and `filter`, and the conversions
  between numbers and strings (`Number(s)` and `${n}`).
 */
module Js {
  import opened Wrappers

  // ---------------------------------------------------------------------------
  // Characters and substrings
  // ---------------------------------------------------------------------------

  /** The characters ECMAScript counts as white space or line terminators:
      exactly the ones `\s` matches in a regular expression and the ones
      `trim` and `Number(s)` strip. */
  predicate IsWhitespace(c: char) {
    || c == '\t' || c == '\n' || c == '\U{000B}' || c == '\U{000C}' || c == '\r'
    || c == ' ' || c == '\U{00A0}' || c == '\U{1680}'
    || ('\U{2000}' <= c <= '\U{200A}')
    || c == '\U{2028}' || c == '\U{2029}' || c == '\U{202F}' || c == '\U{205F}'
    || c == '\U{3000}' || c == '\U{FEFF}'
  }

  predicate NoWhitespace(s: string) {
    forall k | 0 <= k < |s| :: !IsWhitespace(s[k])
  }

  predicate AllWhitespace(s: string) {
    forall k | 0 <= k < |s| :: IsWhitespace(s[k])
  }

  /** `s.includes(sub)`: `sub` occurs in `s` as a contiguous, case-sensitive
      substring. A string contains each of its prefixes, and nothing longer than itself. */
  predicate Contains(s: string, sub: string)
    ensures sub <= s ==> Contains(s, sub)
    ensures Contains(s, sub) ==> |sub| <= |s|
  {
    assert s[0..] == s;
    exists i | 0 <= i <= |s| :: sub <= s[i..]
  }

  /** A non-empty substring brings its first character with it. */
  lemma ContainsFirstChar(s: string, sub: string)
    requires Contains(s, sub) && |sub| > 0
    ensures sub[0] in s
  {
    var i :| 0 <= i <= |s| && sub <= s[i..];
    assert s[i] == sub[0];
  }

  /** A text lacking one of a substring's characters does not contain it. */
  lemma MissingCharNotContained(s: string, sub: string, j: nat)
    requires j < |sub| && sub[j] !in s
    ensures !Contains(s, sub)
  {
    forall i | 0 <= i <= |s| ensures !(sub <= s[i..]) {
      if |sub| <= |s| - i {
        assert s[i..][j] == s[i + j] && s[i + j] in s;
      }
    }
  }

  /** Every string contains the empty string, so an empty search never excludes anything. */
  lemma ContainsEmpty(s: string)
    ensures Contains(s, "")
  {
    assert "" <= s[0..];
  }

  /** Containment is monotone in the haystack: a substring of an infix is a substring of the whole. */
  lemma ContainsInfix(s: string, i: nat, j: nat, sub: string)
    requires i <= j <= |s| && Contains(s[i..j], sub)
    ensures Contains(s, sub)
  {
    var k :| 0 <= k <= j - i && sub <= s[i..j][k..];
    assert s[i..j][k..] <= s[i + k..];
    assert sub <= s[i + k..];
  }

  // ---------------------------------------------------------------------------
  // toLowerCase
  // ---------------------------------------------------------------------------

  function LowerChar(c: char): (d: char)
    ensures !('A' <= d <= 'Z')
  {
    if 'A' <= c <= 'Z' then (c as int - 'A' as int + 'a' as int) as char else c
  }

  /** `s.toLowerCase()`, restricted to the ASCII letters. */
  function ToLower(s: string): (r: string)
    ensures |r| == |s|
    ensures forall k | 0 <= k < |s| :: r[k] == LowerChar(s[k])
  {
    seq(|s|, k requires 0 <= k < |s| => LowerChar(s[k]))
  }

  /** Lower-casing twice is lower-casing once. */
  lemma ToLowerIdempotent(s: string)
    ensures ToLower(ToLower(s)) == ToLower(s)
  {
    var once := ToLower(s);
    var twice := ToLower(once);
    assert |twice| == |once|;
    forall k | 0 <= k < |once| ensures twice[k] == once[k] {
      assert !('A' <= once[k] <= 'Z');
    }
  }

  // ---------------------------------------------------------------------------
  // trim
  // ---------------------------------------------------------------------------

  /** `s.trimStart()`: the suffix left after the leading white-space run. */
  function TrimStart(s: string): (r: string)
    ensures |r| <= |s| && r == s[|s| - |r|..]
    ensures AllWhitespace(s[..|s| - |r|])
    ensures r != [] ==> !IsWhitespace(r[0])
  {
    if s != [] && IsWhitespace(s[0]) then
      var r := TrimStart(s[1..]);
      assert s[..|s| - |r|] == [s[0]] + s[1..][..|s| - 1 - |r|];
      r
    else s
  }

  /** `s.trimEnd()`: the prefix left before the trailing white-space run. */
  function TrimEnd(s: string): (r: string)
    ensures |r| <= |s| && r == s[..|r|]
    ensures AllWhitespace(s[|r|..])
    ensures r != [] ==> !IsWhitespace(r[|r| - 1])
  {
    if s != [] && IsWhitespace(s[|s| - 1]) then
      var r := TrimEnd(s[..|s| - 1]);
      assert s[|r|..] == s[..|s| - 1][|r|..] + [s[|s| - 1]];
      r
    else s
  }

  /** `s.trim()`: never longer than the input, and neither starting nor
      ending with white space. */
  function Trim(s: string): (r: string)
    ensures |r| <= |s|
    ensures r != [] ==> !IsWhitespace(r[0]) && !IsWhitespace(r[|r| - 1])
  {
    assert TrimEnd(TrimStart(s)) != [] ==> TrimEnd(TrimStart(s))[0] == TrimStart(s)[0];
    TrimEnd(TrimStart(s))
  }

  /** Where the trimmed text starts within the input. */
  function TrimOffset(s: string): nat {
    |s| - |TrimStart(s)|
  }

  /** A trimmed string is the infix of the input that is left when the white
      space at both ends is removed, and it neither starts nor ends with white space. */
  lemma TrimIsInfix(s: string)
    ensures TrimOffset(s) + |Trim(s)| <= |s|
    ensures Trim(s) == s[TrimOffset(s)..TrimOffset(s) + |Trim(s)|]
    ensures AllWhitespace(s[..TrimOffset(s)]) && AllWhitespace(s[TrimOffset(s) + |Trim(s)|..])
    ensures Trim(s) != [] ==> !IsWhitespace(Trim(s)[0]) && !IsWhitespace(Trim(s)[|Trim(s)| - 1])
  {
    TrimInfixAt(s);
    TrimMargins(s);
  }

  lemma TrimInfixAt(s: string)
    ensures TrimOffset(s) + |Trim(s)| <= |s|
    ensures Trim(s) == s[TrimOffset(s)..TrimOffset(s) + |Trim(s)|]
  {
    var t := TrimStart(s);
    var r := TrimEnd(t);
    assert Trim(s) == r && TrimOffset(s) == |s| - |t|;
    PrefixOfSuffix(s, t, r);
  }

  /** A prefix of a suffix is an infix, found where the suffix starts. */
  lemma PrefixOfSuffix<T>(s: seq<T>, t: seq<T>, r: seq<T>)
    requires |t| <= |s| && t == s[|s| - |t|..]
    requires |r| <= |t| && r == t[..|r|]
    ensures s[|s| - |t|..|s| - |t| + |r|] == r
  {
    var i := |s| - |t|;
    calc {
      s[i..i + |r|];
      s[i..][..|r|];
      t[..|r|];
      r;
    }
  }

  lemma TrimMargins(s: string)
    ensures TrimOffset(s) + |Trim(s)| <= |s|
    ensures AllWhitespace(s[..TrimOffset(s)]) && AllWhitespace(s[TrimOffset(s) + |Trim(s)|..])
  {
    var t := TrimStart(s);
    var r := TrimEnd(t);
    var i := |s| - |t|;
    assert Trim(s) == r && TrimOffset(s) == i;
    assert t[|r|..] == s[i + |r|..];
  }

  /** `s.trim()` is empty exactly when `s` consists of white space only. */
  lemma TrimEmptyIff(s: string)
    ensures Trim(s) == "" <==> AllWhitespace(s)
  {
    TrimIsInfix(s);
    if Trim(s) == "" {
      assert s[..|s|] == s;
    } else {
      assert s[TrimOffset(s)] == Trim(s)[0];
    }
  }

  /** Trimming a string that starts and ends with something other than white space changes nothing. */
  lemma TrimUnchanged(s: string)
    requires s != [] ==> !IsWhitespace(s[0]) && !IsWhitespace(s[|s| - 1])
    ensures Trim(s) == s
  {
  }

  /** Trimming is idempotent. */
  lemma TrimIdempotent(s: string)
    ensures Trim(Trim(s)) == Trim(s)
  {
    TrimIsInfix(s);
    TrimUnchanged(Trim(s));
  }

  // ---------------------------------------------------------------------------
  // replace(/\s+/g, '-')
  // ---------------------------------------------------------------------------

  /** `s.replace(/\s+/g, '-')`: every maximal run of white space becomes a single `-`. */
  function DashWhitespace(s: string): (r: string)
    ensures NoWhitespace(r)
    ensures |r| <= |s|
    decreases |s|
  {
    if s == [] then []
    else if IsWhitespace(s[0]) then
      var rest := TrimStart(s);
      assert |rest| < |s|;
      "-" + DashWhitespace(rest)
    else [s[0]] + DashWhitespace(s[1..])
  }

  lemma DashWhitespaceCons(c: char, s: string)
    requires !IsWhitespace(c)
    ensures DashWhitespace([c] + s) == [c] + DashWhitespace(s)
  {
    assert ([c] + s)[1..] == s;
  }

  /** Text without white space passes through unchanged. */
  lemma {:induction false} DashWhitespaceKeepsWords(w: string, s: string)
    requires NoWhitespace(w)
    ensures DashWhitespace(w + s) == w + DashWhitespace(s)
    decreases |w|
  {
    if w != [] {
      var c, v := w[0], w[1..];
      assert w == [c] + v;
      assert NoWhitespace(v) && !IsWhitespace(c);
      calc {
        DashWhitespace(w + s);
        { assert w + s == [c] + (v + s); }
        DashWhitespace([c] + (v + s));
        { DashWhitespaceCons(c, v + s); }
        [c] + DashWhitespace(v + s);
        { DashWhitespaceKeepsWords(v, s); }
        [c] + (v + DashWhitespace(s));
        w + DashWhitespace(s);
      }
    } else {
      assert w + s == s && w + DashWhitespace(s) == DashWhitespace(s);
    }
  }

  /** A maximal white-space run (followed by end of text or by a non-white-space
      character) becomes exactly one `-`. */
  lemma DashWhitespaceRun(u: string, s: string)
    requires u != [] && AllWhitespace(u)
    requires s != [] ==> !IsWhitespace(s[0])
    ensures DashWhitespace(u + s) == "-" + DashWhitespace(s)
  {
    TrimStartDropsRun(u, s);
  }

  lemma {:induction false} TrimStartDropsRun(u: string, s: string)
    requires AllWhitespace(u)
    requires s != [] ==> !IsWhitespace(s[0])
    ensures TrimStart(u + s) == s
    decreases |u|
  {
    if u != [] {
      assert (u + s)[1..] == u[1..] + s;
      TrimStartDropsRun(u[1..], s);
    }
  }

  /** The replacement is the identity exactly on strings without white space;
      so applying it twice is applying it once. */
  lemma DashWhitespaceIdentityIff(s: string)
    ensures DashWhitespace(s) == s <==> NoWhitespace(s)
  {
    if NoWhitespace(s) {
      DashWhitespaceKeepsWords(s, []);
      assert s + [] == s;
    }
  }

  lemma DashWhitespaceIdempotent(s: string)
    ensures DashWhitespace(DashWhitespace(s)) == DashWhitespace(s)
  {
    DashWhitespaceIdentityIff(DashWhitespace(s));
  }

  // ---------------------------------------------------------------------------
  // slice
  // ---------------------------------------------------------------------------

  /** `s.slice(0, n)` for a non-negative `n`. */
  function SliceFront(s: string, n: nat): (r: string)
    ensures |r| <= n && r <= s
    ensures |s| <= n ==> r == s
    ensures |s| > n ==> |r| == n
  {
    if |s| <= n then s else s[..n]
  }

  // ---------------------------------------------------------------------------
  // Numbers and their decimal strings
  // ---------------------------------------------------------------------------

  /** A JavaScript number as this front end meets it: an integer or NaN.
      Fractions, infinities and the -0/+0 distinction are not modelled. */
  datatype JsNumber = Num(value: int) | NaN {
    /** JavaScript truthiness: 0 and NaN are falsy. */
    predicate Truthy() {
      Num? && value != 0
    }
  }

  predicate IsDigit(c: char) {
    '0' <= c <= '9'
  }

  predicate AllDigits(s: string) {
    forall k | 0 <= k < |s| :: IsDigit(s[k])
  }

  function DigitChar(d: nat): (c: char)
    requires d < 10
    ensures IsDigit(c)
  {
    ('0' as int + d) as char
  }

  /** The value of a string of decimal digits, most significant first. */
  function DigitsValue(s: string): nat
    requires AllDigits(s)
  {
    if s == [] then 0
    else 10 * DigitsValue(s[..|s| - 1]) + (s[|s| - 1] as int - '0' as int)
  }

  /** The shortest decimal digit string of `n`. */
  function NatDigits(n: nat): (r: string)
    ensures AllDigits(r) && r != []
    ensures r[0] == '0' ==> n == 0
  {
    if n < 10 then [DigitChar(n)] else NatDigits(n / 10) + [DigitChar(n % 10)]
  }

  lemma {:induction false} NatDigitsRoundTrip(n: nat)
    ensures DigitsValue(NatDigits(n)) == n
  {
    if n >= 10 {
      NatDigitsRoundTrip(n / 10);
      var s := NatDigits(n);
      assert s[..|s| - 1] == NatDigits(n / 10);
    }
  }

  /** `${n}` (or `String(n)`) for an integral number. */
  function NumberToString(n: int): (r: string)
    ensures r != [] && NoWhitespace(r)
  {
    if n < 0 then "-" + NatDigits(-n) else NatDigits(n)
  }

  /** `Number(s)` over decimal integers: white space around the text is
      ignored, an empty (or all-white-space) text is 0, an optional sign
      followed by decimal digits is that integer, and anything else is NaN. */
  function ToNumber(s: string): (r: JsNumber)
    ensures AllWhitespace(s) ==> r == Num(0)
    ensures (exists k | 0 <= k < |s| :: !IsNumeral(s[k])) ==> r == NaN
  {
    TrimEmptyIff(s);
    ForeignCharMakesNaN(s);
    var t := Trim(s);
    if t == [] then Num(0)
    else if AllDigits(t) then Num(DigitsValue(t))
    else if |t| > 1 && (t[0] == '-' || t[0] == '+') && AllDigits(t[1..]) then
      var magnitude: int := DigitsValue(t[1..]);
      Num(if t[0] == '-' then -magnitude else magnitude)
    else NaN
  }

  /** The characters a decimal integer literal may consist of, with the
      white space `Number` ignores around it. */
  predicate IsNumeral(c: char) {
    IsDigit(c) || c == '-' || c == '+' || IsWhitespace(c)
  }

  /** A character that is neither a digit, a sign nor white space survives
      trimming, so the trimmed text is not a signed digit string. */
  lemma ForeignCharMakesNaN(s: string)
    ensures (exists k | 0 <= k < |s| :: !IsNumeral(s[k])) ==>
      var t := Trim(s);
      t != [] && !AllDigits(t) && !(|t| > 1 && (t[0] == '-' || t[0] == '+') && AllDigits(t[1..]))
  {
    if k :| 0 <= k < |s| && !IsNumeral(s[k]) {
      var j := ForeignCharSurvivesTrim(s, k);
      var t := Trim(s);
      assert !IsDigit(t[j]);
      if j > 0 && |t| > 1 {
        assert t[1..][j - 1] == t[j];
      }
    }
  }

  /** Where a character that is not white space lands in the trimmed text. */
  lemma ForeignCharSurvivesTrim(s: string, k: nat) returns (j: nat)
    requires k < |s| && !IsWhitespace(s[k])
    ensures j < |Trim(s)| && Trim(s)[j] == s[k]
  {
    TrimIsInfix(s);
    var i := TrimOffset(s);
    var t := Trim(s);
    assert i <= k < i + |t|;
    j := k - i;
    assert t[j] == s[k];
  }

  /** Printing an integer and reading it back with `Number` gives the same integer. */
  lemma NumberRoundTrip(n: int)
    ensures ToNumber(NumberToString(n)) == Num(n)
  {
    var s := NumberToString(n);
    TrimUnchanged(s);
    if n < 0 {
      assert s[1..] == NatDigits(-n);
      assert !IsDigit(s[0]);
      NatDigitsRoundTrip(-n);
    } else {
      NatDigitsRoundTrip(n);
    }
  }

  /** A printed integer holds only digits and `-`. */
  lemma NumberToStringAvoids(n: int, c: char)
    requires !IsDigit(c) && c != '-'
    ensures c !in NumberToString(n)
  {
    var s := NumberToString(n);
    if n < 0 {
      assert s == "-" + NatDigits(-n);
    }
  }

  // ---------------------------------------------------------------------------
  // Arrays: findIndex, find, filter
  // ---------------------------------------------------------------------------

  /** `xs.findIndex(p)`, with "not found" reported as `|xs|` instead of -1. */
  function FindIndex<T>(xs: seq<T>, p: T -> bool): (k: nat)
    ensures k <= |xs|
    ensures forall j | 0 <= j < k :: !p(xs[j])
    ensures k < |xs| ==> p(xs[k])
  {
    if xs == [] then 0
    else if p(xs[0]) then 0
    else 1 + FindIndex(xs[1..], p)
  }

  /** `xs.find(p)`: the first element that satisfies `p`, or nothing. */
  function Find<T>(xs: seq<T>, p: T -> bool): (r: Option<T>)
    ensures r.None? <==> forall j | 0 <= j < |xs| :: !p(xs[j])
    ensures r.Some? ==> r.value in xs && p(r.value)
  {
    var k := FindIndex(xs, p);
    if k < |xs| then Some(xs[k]) else None
  }

  /** What `find` promises: nothing exactly when no element qualifies, and
      otherwise an element that qualifies with none before it that does. */
  lemma FindFirst<T>(xs: seq<T>, p: T -> bool)
    ensures Find(xs, p).None? <==> forall j | 0 <= j < |xs| :: !p(xs[j])
    ensures Find(xs, p).Some? ==>
      exists k | 0 <= k < |xs| :: xs[k] == Find(xs, p).value && p(xs[k]) && forall j | 0 <= j < k :: !p(xs[j])
  {
    var k := FindIndex(xs, p);
    if k < |xs| {
      assert xs[k] == Find(xs, p).value && p(xs[k]);
    }
  }

  /** `xs.filter(p)`. */
  function Filter<T>(xs: seq<T>, p: T -> bool): (r: seq<T>)
    ensures |r| <= |xs|
    ensures forall x | x in r :: x in xs && p(x)
  {
    if xs == [] then []
    else (if p(xs[0]) then [xs[0]] else []) + Filter(xs[1..], p)
  }

  /** `ys` embeds `xs` in order: `idx` picks, for each element of `xs`, a
      strictly later position of `ys` holding the same value. */
  ghost predicate IsEmbedding<T>(idx: seq<nat>, xs: seq<T>, ys: seq<T>) {
    && |idx| == |xs|
    && (forall k | 0 <= k < |idx| :: idx[k] < |ys| && xs[k] == ys[idx[k]])
    && (forall k, l | 0 <= k < l < |idx| :: idx[k] < idx[l])
  }

  /** `xs` is `ys` with some elements left out and the rest in their original order. */
  ghost predicate IsSubsequence<T>(xs: seq<T>, ys: seq<T>) {
    exists idx: seq<nat> :: IsEmbedding(idx, xs, ys)
  }

  function Shift(idx: seq<nat>): (r: seq<nat>)
    ensures |r| == |idx| && forall k | 0 <= k < |idx| :: r[k] == idx[k] + 1
  {
    seq(|idx|, k requires 0 <= k < |idx| => idx[k] + 1)
  }

  /** Skipping the first element of `ys` moves every position one up. */
  lemma EmbeddingSkip<T>(idx: seq<nat>, xs: seq<T>, ys: seq<T>)
    requires ys != [] && IsEmbedding(idx, xs, ys[1..])
    ensures IsEmbedding(Shift(idx), xs, ys)
  {
    var r := Shift(idx);
    forall k | 0 <= k < |r| ensures r[k] < |ys| && xs[k] == ys[r[k]] {
      assert ys[1..][idx[k]] == ys[idx[k] + 1];
    }
  }

  /** Keeping the first element of `ys` adds position 0 in front. */
  lemma EmbeddingKeep<T>(idx: seq<nat>, xs: seq<T>, ys: seq<T>)
    requires ys != [] && IsEmbedding(idx, xs, ys[1..])
    ensures IsEmbedding([0] + Shift(idx), [ys[0]] + xs, ys)
  {
    EmbeddingSkip(idx, xs, ys);
    var r := [0] + Shift(idx);
    var zs := [ys[0]] + xs;
    forall k | 0 <= k < |r| ensures r[k] < |ys| && zs[k] == ys[r[k]] {
      if k > 0 {
        assert r[k] == Shift(idx)[k - 1] && zs[k] == xs[k - 1];
      }
    }
    forall k, l | 0 <= k < l < |r| ensures r[k] < r[l] {
      if k > 0 {
        assert r[k] == Shift(idx)[k - 1] && r[l] == Shift(idx)[l - 1];
      }
    }
  }

  /** The positions of `xs` that `filter` keeps, in increasing order. */
  lemma {:induction false} FilterEmbedding<T>(xs: seq<T>, p: T -> bool) returns (idx: seq<nat>)
    ensures IsEmbedding(idx, Filter(xs, p), xs)
  {
    if xs == [] {
      idx := [];
    } else {
      var tail := FilterEmbedding(xs[1..], p);
      if p(xs[0]) {
        EmbeddingKeep(tail, Filter(xs[1..], p), xs);
        idx := [0] + Shift(tail);
      } else {
        EmbeddingSkip(tail, Filter(xs[1..], p), xs);
        idx := Shift(tail);
      }
    }
  }

  /** `filter` keeps the relative order of the elements it keeps. */
  lemma FilterIsSubsequence<T>(xs: seq<T>, p: T -> bool)
    ensures IsSubsequence(Filter(xs, p), xs)
  {
    var idx := FilterEmbedding(xs, p);
  }

  /** An element survives `filter` exactly when it is in the input and satisfies `p`. */
  lemma {:induction false} FilterMember<T>(xs: seq<T>, p: T -> bool, x: T)
    ensures x in Filter(xs, p) <==> x in xs && p(x)
  {
    if xs != [] {
      FilterMember(xs[1..], p, x);
      assert xs == [xs[0]] + xs[1..];
    }
  }

  /** When every element qualifies, `filter` returns its input unchanged. */
  lemma {:induction false} FilterAll<T>(xs: seq<T>, p: T -> bool)
    requires forall k | 0 <= k < |xs| :: p(xs[k])
    ensures Filter(xs, p) == xs
  {
    if xs != [] {
      FilterAll(xs[1..], p);
      assert xs == [xs[0]] + xs[1..];
    }
  }

  /** `filter` keeps each element as many times as it occurs, when it qualifies. */
  lemma {:induction false} FilterMultiset<T>(xs: seq<T>, p: T -> bool, x: T)
    ensures multiset(Filter(xs, p))[x] == if p(x) then multiset(xs)[x] else 0
  {
    if xs != [] {
      FilterMultiset(xs[1..], p, x);
      assert xs == [xs[0]] + xs[1..];
    }
  }
}
