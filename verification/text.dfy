/**
 The string primitives the application relies on: Python's `str.isspace`,
 `str.strip`, `str.lower`, the `in` substring test and `int()` of a digit run.
 Only the ASCII range is modelled; see README for what that leaves out.
 */
module Text {
  /** `str.isspace()` on one ASCII character: tab, line feed, vertical tab,
      form feed, carriage return (9..13), the separators 0x1C..0x1F and space. */
  predicate IsSpace(c: char) {
    (9 <= c as int <= 13) || (28 <= c as int <= 32)
  }

  predicate IsDigit(c: char) {
    '0' <= c <= '9'
  }

  predicate IsUpper(c: char) {
    'A' <= c <= 'Z'
  }

  /** Every character of s in [lo, hi) is whitespace. */
  predicate SpacesBetween(s: string, lo: int, hi: int)
    requires 0 <= lo <= hi <= |s|
  {
    forall j | lo <= j < hi :: IsSpace(s[j])
  }

  /** Every character of s in [lo, hi) is a decimal digit. */
  predicate DigitsBetween(s: string, lo: int, hi: int)
    requires 0 <= lo <= hi <= |s|
  {
    forall j | lo <= j < hi :: IsDigit(s[j])
  }

  predicate AllSpace(s: string) {
    SpacesBetween(s, 0, |s|)
  }

  predicate AllDigits(s: string) {
    DigitsBetween(s, 0, |s|)
  }

  // ---------------------------------------------------------------------------
  // Substring search: Python's `pat in s`
  // ---------------------------------------------------------------------------

  /** pat occurs in s starting at position i. */
  predicate OccursAt(s: string, pat: string, i: nat) {
    i + |pat| <= |s| && forall j | 0 <= j < |pat| :: s[i + j] == pat[j]
  }

  /** Python's `pat in s`: pat occurs somewhere in s. */
  predicate Contains(s: string, pat: string) {
    exists i | 0 <= i <= |s| :: OccursAt(s, pat, i)
  }

  /** An occurrence inside a piece is still an occurrence once text is added around it. */
  lemma ContainsInfix(p: string, s: string, q: string, pat: string)
    requires Contains(s, pat)
    ensures Contains(p + s + q, pat)
  {
    var i :| 0 <= i <= |s| && OccursAt(s, pat, i);
    var t := p + s + q;
    assert forall j | 0 <= j < |pat| :: t[|p| + i + j] == pat[j];
    assert OccursAt(t, pat, |p| + i);
  }

  /** An occurrence survives appending text. */
  lemma ContainsExtend(s: string, t: string, pat: string)
    requires Contains(s, pat)
    ensures Contains(s + t, pat)
  {
    var i :| 0 <= i <= |s| && OccursAt(s, pat, i);
    assert forall j | 0 <= j < |pat| :: (s + t)[i + j] == pat[j];
    assert OccursAt(s + t, pat, i);
  }

  /** The pieces of a concatenation occur where they were put. */
  lemma OccursInConcat(p: string, a: string, q: string)
    ensures OccursAt(p + a + q, p, 0) && OccursAt(p + a + q, a, |p|)
  {
    var t := p + a + q;
    forall j | 0 <= j < |p|
      ensures t[0 + j] == p[j]
    {
      assert t[j] == (p + a)[j];
    }
    forall j | 0 <= j < |a|
      ensures t[|p| + j] == a[j]
    {
      assert t[|p| + j] == (p + a)[|p| + j];
    }
  }

  /** An occurrence of a + b is an occurrence of a followed by one of b. */
  lemma OccursSplit(s: string, a: string, b: string, k: nat)
    requires OccursAt(s, a + b, k)
    ensures OccursAt(s, a, k) && OccursAt(s, b, k + |a|)
  {
    forall j | 0 <= j < |a|
      ensures s[k + j] == a[j]
    {
      assert (a + b)[j] == a[j];
    }
    forall j | 0 <= j < |b|
      ensures s[k + |a| + j] == b[j]
    {
      assert (a + b)[|a| + j] == b[j];
    }
  }

  /** An occurrence of a followed by one of b is an occurrence of a + b. */
  lemma OccursJoin(s: string, a: string, b: string, k: nat)
    requires OccursAt(s, a, k) && OccursAt(s, b, k + |a|)
    ensures OccursAt(s, a + b, k)
  {
    forall j | 0 <= j < |a + b|
      ensures s[k + j] == (a + b)[j]
    {
      if j >= |a| {
        assert s[k + |a| + (j - |a|)] == b[j - |a|];
      }
    }
  }

  /** Where a run of whitespace occurs, the text is whitespace. */
  lemma OccursSpaces(s: string, w: string, k: nat)
    requires AllSpace(w) && OccursAt(s, w, k)
    ensures SpacesBetween(s, k, k + |w|)
  {
    assert forall j | k <= j < k + |w| :: s[j] == w[j - k];
  }

  /** Where a run of digits occurs, the text is digits. */
  lemma OccursDigits(s: string, ds: string, k: nat)
    requires AllDigits(ds) && OccursAt(s, ds, k)
    ensures DigitsBetween(s, k, k + |ds|)
  {
    assert forall j | k <= j < k + |ds| :: s[j] == ds[j - k];
  }

  // ---------------------------------------------------------------------------
  // str.lower()
  // ---------------------------------------------------------------------------

  function LowerChar(c: char): (d: char)
    ensures !IsUpper(d)
    ensures IsUpper(c) || d == c
    ensures IsUpper(c) ==> d as int == c as int + 32
  {
    if IsUpper(c) then (c as int + 32) as char else c
  }

  /** `s.lower()` on ASCII letters; every other character is kept. */
  function Lower(s: string): (r: string)
    ensures |r| == |s|
    ensures forall i | 0 <= i < |s| :: r[i] == LowerChar(s[i])
  {
    if s == [] then [] else [LowerChar(s[0])] + Lower(s[1..])
  }

  /** Text without capitals is its own lower case. */
  lemma LowerOfLowerCase(s: string)
    requires forall i | 0 <= i < |s| :: !IsUpper(s[i])
    ensures Lower(s) == s
  {
  }

  lemma LowerAppend(a: string, b: string)
    ensures Lower(a + b) == Lower(a) + Lower(b)
  {
  }

  /** Lower-casing twice is lower-casing once, and a lower-cased string has no capitals. */
  lemma LowerIdempotent(s: string)
    ensures Lower(Lower(s)) == Lower(s)
    ensures forall i | 0 <= i < |s| :: !IsUpper(Lower(s)[i])
  {
  }

  // ---------------------------------------------------------------------------
  // str.strip()
  // ---------------------------------------------------------------------------

  /** The end of the whitespace run starting at k: the first index at or after k
      that is not whitespace, or |s|. */
  function SkipSpaces(s: string, k: nat): (e: nat)
    requires k <= |s|
    ensures k <= e <= |s| && SpacesBetween(s, k, e)
    ensures e == |s| || !IsSpace(s[e])
    decreases |s| - k
  {
    if k < |s| && IsSpace(s[k]) then SkipSpaces(s, k + 1) else k
  }

  /** The start of the whitespace run ending at e, not going below lo. */
  function SkipSpacesBack(s: string, lo: nat, e: nat): (b: nat)
    requires lo <= e <= |s|
    ensures lo <= b <= e && SpacesBetween(s, b, e)
    ensures b == lo || !IsSpace(s[b - 1])
    decreases e - lo
  {
    if lo < e && IsSpace(s[e - 1]) then SkipSpacesBack(s, lo, e - 1) else e
  }

  /** Python's `s.strip()`: empty exactly when s is all whitespace, otherwise
      neither starting nor ending with whitespace. */
  function Strip(s: string): (r: string)
    ensures r == [] <==> AllSpace(s)
    ensures r != [] ==> !IsSpace(r[0]) && !IsSpace(r[|r| - 1])
  {
    var a := SkipSpaces(s, 0);
    var b := SkipSpacesBack(s, a, |s|);
    if a == |s| then
      []
    else
      assert !IsSpace(s[a]) && a < b;
      s[a..b]
  }

  /** What `strip()` leaves is a contiguous piece of the original, with only
      whitespace cut on either side. */
  lemma StripIsInfix(s: string)
    ensures exists a | 0 <= a <= |s| - |Strip(s)| ::
      OccursAt(s, Strip(s), a) && SpacesBetween(s, 0, a) && SpacesBetween(s, a + |Strip(s)|, |s|)
  {
    var a := SkipSpaces(s, 0);
    var b := SkipSpacesBack(s, a, |s|);
    assert Strip(s) == s[a..b];
    assert OccursAt(s, Strip(s), a);
  }

  // ---------------------------------------------------------------------------
  // Decimal digit runs: Python's `int()` of a run of ASCII digits
  // ---------------------------------------------------------------------------

  function DigitValue(c: char): (v: nat)
    requires IsDigit(c)
    ensures v < 10
  {
    c as int - '0' as int
  }

  function DigitChar(v: nat): (c: char)
    requires v < 10
    ensures IsDigit(c) && DigitValue(c) == v
  {
    ('0' as int + v) as char
  }

  /** 10 to the power k. */
  function Pow10(k: nat): (p: nat)
    ensures p >= 1
  {
    if k == 0 then 1 else 10 * Pow10(k - 1)
  }

  /** The decimal value of a digit string, most significant digit first;
      leading zeros are allowed, as `int("037") == 37`. The value has no more
      digits than the string, and its last digit is the string's last digit. */
  function DecimalValue(ds: string): (n: nat)
    requires AllDigits(ds)
    ensures n < Pow10(|ds|)
    ensures ds != [] ==> n % 10 == DigitValue(ds[|ds| - 1])
    decreases |ds|
  {
    if ds == [] then 0
    else
      assert AllDigits(ds[..|ds| - 1]) by {
        assert forall j | 0 <= j < |ds| - 1 :: ds[..|ds| - 1][j] == ds[j];
      }
      10 * DecimalValue(ds[..|ds| - 1]) + DigitValue(ds[|ds| - 1])
  }

  /** The canonical decimal spelling of n: at least one digit, no leading zero. */
  function DecimalString(n: nat): (ds: string)
    ensures |ds| >= 1 && AllDigits(ds)
    ensures ds[0] != '0' || n == 0
    ensures n < 10 <==> |ds| == 1
  {
    if n < 10 then [DigitChar(n)]
    else DecimalString(n / 10) + [DigitChar(n % 10)]
  }

  /** Reading back the decimal spelling of n gives n. */
  lemma {:induction false} DecimalRoundTrip(n: nat)
    ensures DecimalValue(DecimalString(n)) == n
  {
    if n >= 10 {
      var ds := DecimalString(n);
      assert ds[..|ds| - 1] == DecimalString(n / 10);
      DecimalRoundTrip(n / 10);
    }
  }

  /** A leading zero does not change the value. */
  lemma {:induction false} DecimalLeadingZero(ds: string)
    requires AllDigits(ds)
    ensures AllDigits("0" + ds) && DecimalValue("0" + ds) == DecimalValue(ds)
    decreases |ds|
  {
    var z := "0" + ds;
    assert AllDigits(z) by {
      assert forall j | 1 <= j < |z| :: z[j] == ds[j - 1];
    }
    if ds != [] {
      assert z[..|z| - 1] == "0" + ds[..|ds| - 1];
      assert AllDigits(ds[..|ds| - 1]) by {
        assert forall j | 0 <= j < |ds| - 1 :: ds[..|ds| - 1][j] == ds[j];
      }
      DecimalLeadingZero(ds[..|ds| - 1]);
    }
  }
}
