/** Shared vocabulary of the five exercises: optional values, ordered
    first-match search, and the character classes and string helpers that
    Python's `str` methods and `re` character classes provide. */
module Common {

  datatype Option<+T> = None | Some(value: T)

  datatype Result<+T, +E> = Ok(value: T) | Err(error: E)

  /** The index of the first element of `xs` that `accepts`: the rule that
      both a regular-expression alternation and a list of recognisers tried
      in order follow. */
  function FirstIndex<X>(xs: seq<X>, accepts: X -> bool): (r: Option<nat>)
    ensures r.Some? ==> r.value < |xs| && accepts(xs[r.value])
    ensures r.Some? ==> forall j :: 0 <= j < r.value ==> !accepts(xs[j])
    ensures r.None? ==> forall j :: 0 <= j < |xs| ==> !accepts(xs[j])
  {
    if xs == [] then None
    else if accepts(xs[0]) then Some(0)
    else match FirstIndex(xs[1..], accepts)
      case None => None
      case Some(i) => Some(i + 1)
  }

  predicate IsDigit(c: char) {
    '0' <= c <= '9'
  }

  predicate IsAsciiLetter(c: char) {
    'a' <= c <= 'z' || 'A' <= c <= 'Z'
  }

  predicate AllDigits(s: string) {
    forall i :: 0 <= i < |s| ==> IsDigit(s[i])
  }

  /** The characters for which Python's `str.isspace()` holds; `\s` in a
      `str` pattern and `str.strip()` use the same set. */
  predicate IsSpace(c: char) {
    || c == ' ' || ('\t' <= c <= '\r') || ('\U{1C}' <= c <= '\U{1F}')
    || c == '\U{85}' || c == '\U{A0}' || c == '\U{1680}'
    || ('\U{2000}' <= c <= '\U{200A}') || c == '\U{2028}' || c == '\U{2029}'
    || c == '\U{202F}' || c == '\U{205F}' || c == '\U{3000}'
  }

  function DigitValue(c: char): (d: nat)
    requires IsDigit(c)
    ensures d < 10
  {
    c as int - '0' as int
  }

  function DigitChar(d: nat): (c: char)
    requires d < 10
    ensures IsDigit(c) && DigitValue(c) == d
  {
    ('0' as int + d) as char
  }

  /** The value of a run of decimal digits, as Python's `int()` reads it. */
  function DigitsValue(s: string): nat
    requires AllDigits(s)
  {
    if s == [] then 0 else DigitsValue(s[..|s| - 1]) * 10 + DigitValue(s[|s| - 1])
  }

  /** Python's `str(n)` for a natural number: decimal digits without leading zeros. */
  function NatToString(n: nat): (s: string)
    ensures AllDigits(s) && s != []
    ensures s[0] == '0' ==> n == 0
  {
    if n < 10 then [DigitChar(n)] else NatToString(n / 10) + [DigitChar(n % 10)]
  }

  /** Reading back what `NatToString` writes gives the number again. */
  lemma {:induction false} NatToStringRoundTrip(n: nat)
    ensures DigitsValue(NatToString(n)) == n
  {
    if n >= 10 {
      NatToStringRoundTrip(n / 10);
      var s := NatToString(n);
      assert s[..|s| - 1] == NatToString(n / 10);
    }
  }

  /** The number of digits in `s` from index `i` on, up to the first character
      that is not one. */
  function DigitsFrom(s: string, i: nat): (n: nat)
    requires i <= |s|
    ensures i + n <= |s|
    decreases |s| - i
  {
    if i < |s| && IsDigit(s[i]) then 1 + DigitsFrom(s, i + 1) else 0
  }

  /** The number of whitespace characters in `s` from index `i` on, up to the
      first character that is not one. */
  function SpacesFrom(s: string, i: nat): (n: nat)
    requires i <= |s|
    ensures i + n <= |s|
    decreases |s| - i
  {
    if i < |s| && IsSpace(s[i]) then 1 + SpacesFrom(s, i + 1) else 0
  }

  lemma {:induction false} DigitsFromMeaning(s: string, i: nat)
    requires i <= |s|
    ensures var n := DigitsFrom(s, i);
      (forall k :: i <= k < i + n ==> IsDigit(s[k])) && (i + n == |s| || !IsDigit(s[i + n]))
    decreases |s| - i
  {
    if i < |s| && IsDigit(s[i]) {
      DigitsFromMeaning(s, i + 1);
    }
  }

  /** The digits counted from `i` are exactly those up to `m` when `m` ends
      the run. */
  lemma {:induction false} DigitsFromRun(s: string, i: nat, m: nat)
    requires i <= m <= |s|
    requires forall k :: i <= k < m ==> IsDigit(s[k])
    requires m == |s| || !IsDigit(s[m])
    ensures DigitsFrom(s, i) == m - i
    decreases m - i
  {
    if i < m {
      DigitsFromRun(s, i + 1, m);
    }
  }

  lemma {:induction false} SpacesFromMeaning(s: string, i: nat)
    requires i <= |s|
    ensures var n := SpacesFrom(s, i);
      (forall k :: i <= k < i + n ==> IsSpace(s[k])) && (i + n == |s| || !IsSpace(s[i + n]))
    decreases |s| - i
  {
    if i < |s| && IsSpace(s[i]) {
      SpacesFromMeaning(s, i + 1);
    }
  }

  /** Python's `str.lower()` on ASCII letters; other characters are kept. */
  function ToLower(c: char): char {
    if 'A' <= c <= 'Z' then (c as int - 'A' as int + 'a' as int) as char else c
  }

  function Lower(s: string): (r: string)
    ensures |r| == |s| && forall i :: 0 <= i < |s| ==> r[i] == ToLower(s[i])
  {
    if s == [] then [] else [ToLower(s[0])] + Lower(s[1..])
  }

  /** Python's `str.lstrip()`: drops the leading whitespace. */
  function TrimStart(s: string): string {
    if s != [] && IsSpace(s[0]) then TrimStart(s[1..]) else s
  }

  lemma {:induction false} TrimStartMeaning(s: string)
    ensures var r := TrimStart(s);
      && |r| <= |s| && r == s[|s| - |r|..]
      && (forall k :: 0 <= k < |s| - |r| ==> IsSpace(s[k]))
      && (r == [] || !IsSpace(r[0]))
  {
    if s != [] && IsSpace(s[0]) {
      var t := s[1..];
      TrimStartMeaning(t);
      var r := TrimStart(t);
      assert t[|t| - |r|..] == s[|s| - |r|..];
      forall k | 0 <= k < |s| - |r|
        ensures IsSpace(s[k])
      {
        if k > 0 {
          assert s[k] == t[k - 1];
        }
      }
    }
  }

  /** Python's `str.rstrip()`: drops the trailing whitespace. */
  function TrimEnd(s: string): string {
    if s != [] && IsSpace(s[|s| - 1]) then TrimEnd(s[..|s| - 1]) else s
  }

  lemma {:induction false} TrimEndMeaning(s: string)
    ensures var r := TrimEnd(s);
      && |r| <= |s| && r == s[..|r|]
      && (forall k :: |r| <= k < |s| ==> IsSpace(s[k]))
      && (r == [] || !IsSpace(r[|r| - 1]))
  {
    if s != [] && IsSpace(s[|s| - 1]) {
      var t := s[..|s| - 1];
      TrimEndMeaning(t);
      var r := TrimEnd(t);
      assert t[..|r|] == s[..|r|];
      forall k | |r| <= k < |s|
        ensures IsSpace(s[k])
      {
        if k < |t| {
          assert s[k] == t[k];
        }
      }
    }
  }

  /** A string with no whitespace at either end. */
  predicate Stripped(s: string) {
    s == [] || (!IsSpace(s[0]) && !IsSpace(s[|s| - 1]))
  }

  /** Python's `str.strip()`. */
  function Strip(s: string): (r: string)
    ensures Stripped(r)
  {
    TrimStartMeaning(s);
    TrimEndMeaning(TrimStart(s));
    TrimEnd(TrimStart(s))
  }

  /** `Strip` keeps a middle part of its argument: the characters it returns
      are characters of `s`. */
  lemma {:induction false} StripIsInside(s: string)
    ensures forall c :: c in Strip(s) ==> c in s
  {
    var t := TrimStart(s);
    TrimStartMeaning(s);
    TrimEndMeaning(t);
    assert forall c :: c in TrimEnd(t) ==> c in t;
  }

  /** Stripping a string that neither starts nor ends with whitespace keeps it. */
  lemma {:induction false} StripKeeps(s: string)
    requires Stripped(s)
    ensures Strip(s) == s
  {
  }

  predicate AllSpace(s: string) {
    forall k :: 0 <= k < |s| ==> IsSpace(s[k])
  }

  /** `lstrip` drops a whitespace prefix up to the first other character. */
  lemma {:induction false} TrimStartSkips(blanks: string, rest: string)
    requires AllSpace(blanks) && (rest == [] || !IsSpace(rest[0]))
    ensures TrimStart(blanks + rest) == rest
    decreases |blanks|
  {
    if blanks == [] {
      assert blanks + rest == rest;
    } else {
      assert (blanks + rest)[1..] == blanks[1..] + rest;
      TrimStartSkips(blanks[1..], rest);
    }
  }

  /** `rstrip` drops a whitespace suffix back to the last other character. */
  lemma {:induction false} TrimEndSkips(rest: string, blanks: string)
    requires AllSpace(blanks) && (rest == [] || !IsSpace(rest[|rest| - 1]))
    ensures TrimEnd(rest + blanks) == rest
    decreases |blanks|
  {
    if blanks == [] {
      assert rest + blanks == rest;
    } else {
      var init := blanks[..|blanks| - 1];
      assert (rest + blanks)[..|rest + blanks| - 1] == rest + init;
      TrimEndSkips(rest, init);
    }
  }

  /** `strip` removes any whitespace around a stripped text, and nothing
      else. */
  lemma {:induction false} StripSurrounded(before: string, text: string, after: string)
    requires AllSpace(before) && AllSpace(after) && Stripped(text)
    ensures Strip(before + text + after) == text
  {
    if text == [] {
      assert before + text + after == before + after;
      assert AllSpace(before + after);
      TrimStartSkips(before + after, []);
      assert before + after + [] == before + after;
    } else {
      assert before + text + after == before + (text + after);
      assert (text + after)[0] == text[0];
      TrimStartSkips(before, text + after);
      TrimEndSkips(text, after);
    }
  }

  function Count<X(==)>(s: seq<X>, x: X): (n: nat)
    ensures n <= |s|
  {
    if s == [] then 0 else Count(s[..|s| - 1], x) + (if s[|s| - 1] == x then 1 else 0)
  }

  /** Counting over a concatenation adds the counts of its two parts. */
  lemma {:induction false} CountAppend<X>(a: seq<X>, b: seq<X>, x: X)
    ensures Count(a + b, x) == Count(a, x) + Count(b, x)
    decreases |b|
  {
    if b == [] {
      assert a + b == a;
    } else {
      CountAppend(a, b[..|b| - 1], x);
      assert (a + b)[..|a + b| - 1] == a + b[..|b| - 1];
    }
  }

  /** A sequence made of `x` alone holds as many `x` as it is long. */
  lemma {:induction false} CountAll<X>(s: seq<X>, x: X)
    requires forall i :: 0 <= i < |s| ==> s[i] == x
    ensures Count(s, x) == |s|
  {
    if s != [] {
      CountAll(s[..|s| - 1], x);
    }
  }

  /** A sequence without `x` holds none. */
  lemma {:induction false} CountNone<X>(s: seq<X>, x: X)
    requires x !in s
    ensures Count(s, x) == 0
  {
    if s != [] {
      CountNone(s[..|s| - 1], x);
    }
  }
}
