/** Character-level string helpers: decimal digits and Python's
    `str.replace` / `str.split` / `str.join` on non-empty separators. */
module Text {

  // ---------------------------------------------------------------------
  // Decimal digits
  // ---------------------------------------------------------------------

  predicate IsDigit(c: char) {
    '0' <= c <= '9'
  }

  predicate AllDigits(s: string) {
    forall i :: 0 <= i < |s| ==> IsDigit(s[i])
  }

  function DigitChar(n: nat): (c: char)
    requires n < 10
    ensures IsDigit(c)
  {
    (('0' as int) + n) as char
  }

  function DigitValue(c: char): nat
    requires IsDigit(c)
  {
    (c as int) - ('0' as int)
  }

  function Pow10(k: nat): (p: nat)
    ensures p >= 1
  {
    if k == 0 then 1 else 10 * Pow10(k - 1)
  }

  /** The shortest decimal spelling of `n` (no leading zeros; "0" for zero). */
  function NatToDigits(n: nat): (s: string)
    ensures |s| >= 1 && AllDigits(s)
  {
    if n < 10 then [DigitChar(n)] else NatToDigits(n / 10) + [DigitChar(n % 10)]
  }

  /** The number a string of decimal digits spells, most significant first. */
  function DigitsValue(s: string): nat
    requires AllDigits(s)
  {
    if s == [] then 0 else 10 * DigitsValue(s[..|s| - 1]) + DigitValue(s[|s| - 1])
  }

  lemma {:induction false} DigitsRoundTrip(n: nat)
    ensures DigitsValue(NatToDigits(n)) == n
  {
    if n >= 10 {
      var s := NatToDigits(n);
      assert s[..|s| - 1] == NatToDigits(n / 10);
      DigitsRoundTrip(n / 10);
    }
  }

  lemma {:induction false} DigitsLength(n: nat, k: nat)
    requires k >= 1 && n < Pow10(k)
    ensures |NatToDigits(n)| <= k
  {
    if n >= 10 {
      DigitsLength(n / 10, k - 1);
    }
  }

  function Zeros(k: nat): (s: string)
    ensures |s| == k && AllDigits(s)
    ensures forall i :: 0 <= i < k ==> s[i] == '0'
  {
    if k == 0 then "" else "0" + Zeros(k - 1)
  }

  lemma {:induction false} LeadingZerosAddNothing(k: nat, s: string)
    requires AllDigits(s)
    ensures DigitsValue(Zeros(k) + s) == DigitsValue(s)
  {
    if s == [] {
      assert Zeros(k) + s == Zeros(k);
      ZerosValue(k);
    } else {
      var t := Zeros(k) + s;
      assert t[..|t| - 1] == Zeros(k) + s[..|s| - 1];
      LeadingZerosAddNothing(k, s[..|s| - 1]);
    }
  }

  lemma {:induction false} ZerosValue(k: nat)
    ensures DigitsValue(Zeros(k)) == 0
  {
    if k > 0 {
      var z := Zeros(k);
      assert z[..|z| - 1] == Zeros(k - 1);
      ZerosValue(k - 1);
    }
  }

  /** `n` written in decimal, left-padded with zeros to at least `width`
      characters, as strftime's `%Y`, `%m` and `%d` do. */
  function PadDigits(n: nat, width: nat): (s: string)
    ensures AllDigits(s)
    ensures DigitsValue(s) == n
    ensures n < Pow10(width) && width >= 1 ==> |s| == width
  {
    var ds := NatToDigits(n);
    var pad := if |ds| < width then width - |ds| else 0;
    DigitsRoundTrip(n);
    LeadingZerosAddNothing(pad, ds);
    assert n < Pow10(width) && width >= 1 ==> |ds| <= width by {
      if n < Pow10(width) && width >= 1 {
        DigitsLength(n, width);
      }
    }
    Zeros(pad) + ds
  }

  // ---------------------------------------------------------------------
  // Search, replace, split, join
  // ---------------------------------------------------------------------

  predicate StartsWith(s: string, p: string) {
    |p| <= |s| && s[..|p|] == p
  }

  predicate EndsWith(s: string, p: string) {
    |p| <= |s| && s[|s| - |p|..] == p
  }

  predicate OccursAt(s: string, p: string, i: int) {
    0 <= i <= |s| - |p| && s[i..i + |p|] == p
  }

  /** `p in s` for Python strings. */
  predicate Contains(s: string, p: string) {
    exists i :: 0 <= i <= |s| && OccursAt(s, p, i)
  }

  /** Python's `s.replace(pat, rep)`: every non-overlapping occurrence of
      `pat`, scanning left to right, is replaced by `rep`. */
  function Replace(s: string, pat: string, rep: string): string
    requires |pat| > 0
    decreases |s|
  {
    if |s| < |pat| then s
    else if StartsWith(s, pat) then rep + Replace(s[|pat|..], pat, rep)
    else [s[0]] + Replace(s[1..], pat, rep)
  }

  /** Python's `s.split(sep)` for a non-empty separator. */
  function Split(s: string, sep: string): (parts: seq<string>)
    requires |sep| > 0
    ensures |parts| >= 1
    decreases |s|
  {
    if |s| < |sep| then [s]
    else if StartsWith(s, sep) then [""] + Split(s[|sep|..], sep)
    else
      var rest := Split(s[1..], sep);
      [[s[0]] + rest[0]] + rest[1..]
  }

  /** Python's `sep.join(parts)`. */
  function Join(parts: seq<string>, sep: string): string {
    if |parts| == 0 then ""
    else if |parts| == 1 then parts[0]
    else parts[0] + sep + Join(parts[1..], sep)
  }

  lemma JoinHeadChar(c: char, first: string, rest: seq<string>, sep: string)
    ensures Join([[c] + first] + rest, sep) == [c] + Join([first] + rest, sep)
  {
    var a := [[c] + first] + rest;
    var b := [first] + rest;
    if |rest| > 0 {
      assert a[1..] == rest && b[1..] == rest;
    }
  }

  /** `s.replace(p, r)` is `r.join(s.split(p))`. */
  lemma {:induction false} ReplaceIsSplitJoin(s: string, pat: string, rep: string)
    requires |pat| > 0
    ensures Replace(s, pat, rep) == Join(Split(s, pat), rep)
    decreases |s|
  {
    if |s| < |pat| {
    } else if StartsWith(s, pat) {
      var rest := Split(s[|pat|..], pat);
      ReplaceIsSplitJoin(s[|pat|..], pat, rep);
      assert ([""] + rest)[1..] == rest;
    } else {
      var rest := Split(s[1..], pat);
      ReplaceIsSplitJoin(s[1..], pat, rep);
      JoinHeadChar(s[0], rest[0], rest[1..], rep);
      assert [rest[0]] + rest[1..] == rest;
    }
  }

  /** A string without an occurrence of the pattern is returned unchanged. */
  lemma {:induction false} ReplaceAbsent(s: string, pat: string, rep: string)
    requires |pat| > 0
    requires !Contains(s, pat)
    ensures Replace(s, pat, rep) == s
    decreases |s|
  {
    if |s| >= |pat| {
      assert StartsWith(s, pat) ==> OccursAt(s, pat, 0);
      forall i | 0 <= i <= |s[1..]| && OccursAt(s[1..], pat, i)
        ensures OccursAt(s, pat, i + 1)
      {
        assert s[1..][i..i + |pat|] == s[i + 1..i + 1 + |pat|];
      }
      ReplaceAbsent(s[1..], pat, rep);
      assert [s[0]] + s[1..] == s;
    }
  }

  /** Replacing a pattern by itself changes nothing. */
  lemma {:induction false} ReplaceBySelf(s: string, pat: string)
    requires |pat| > 0
    ensures Replace(s, pat, pat) == s
    decreases |s|
  {
    if |s| < |pat| {
    } else if StartsWith(s, pat) {
      ReplaceBySelf(s[|pat|..], pat);
      assert s[..|pat|] + s[|pat|..] == s;
    } else {
      ReplaceBySelf(s[1..], pat);
      assert [s[0]] + s[1..] == s;
    }
  }

  /** An occurrence in a suffix is an occurrence in the whole string,
      shifted by the length of what was cut off. */
  lemma OccursInSuffix(s: string, p: string, d: nat, j: int)
    requires d <= |s|
    ensures OccursAt(s[d..], p, j) <==> j >= 0 && OccursAt(s, p, j + d)
  {
    if 0 <= j <= |s| - d - |p| {
      assert s[d..][j..j + |p|] == s[j + d..j + d + |p|];
    }
  }

  /** Putting text in front moves an occurrence along. */
  lemma OccursAfterPrefix(a: string, b: string, p: string, k: int)
    requires OccursAt(b, p, k)
    ensures OccursAt(a + b, p, |a| + k)
  {
    assert (a + b)[|a| + k..|a| + k + |p|] == b[k..k + |p|];
  }

  /** Nothing changes before the first occurrence of the pattern: a prefix
      where no occurrence starts comes through as it is. */
  lemma {:induction false} ReplaceKeepsCleanPrefix(s: string, pat: string, rep: string, n: nat)
    requires |pat| > 0 && n <= |s|
    requires forall j :: 0 <= j < n ==> !OccursAt(s, pat, j)
    ensures Replace(s, pat, rep) == s[..n] + Replace(s[n..], pat, rep)
    decreases n
  {
    if n > 0 {
      assert !OccursAt(s, pat, 0);
      if |s| < |pat| {
        assert s[..n] + s[n..] == s;
      } else {
        forall j | 0 <= j < n - 1
          ensures !OccursAt(s[1..], pat, j)
        {
          OccursInSuffix(s, pat, 1, j);
        }
        ReplaceKeepsCleanPrefix(s[1..], pat, rep, n - 1);
        assert s[1..][..n - 1] == s[1..n] && s[1..][n - 1..] == s[n..];
        assert [s[0]] + s[1..n] == s[..n];
      }
    }
  }

  /** An occurrence of `p` that no occurrence of `pat` overlaps survives the
      replacement (possibly moved). */
  lemma {:induction false} ReplaceKeepsOccurrence(s: string, pat: string, rep: string, p: string, i: nat)
    requires |pat| > 0 && |p| > 0
    requires OccursAt(s, p, i)
    requires forall j :: OccursAt(s, pat, j) ==> j + |pat| <= i || i + |p| <= j
    ensures Contains(Replace(s, pat, rep), p)
    decreases |s|
  {
    var r := Replace(s, pat, rep);
    if |s| < |pat| {
      assert OccursAt(r, p, i);
    } else if StartsWith(s, pat) || i > 0 {
      // The head (the pattern, or one character) is not part of the
      // occurrence of `p`: carry on with the rest.
      var d := if StartsWith(s, pat) then |pat| else 1;
      assert StartsWith(s, pat) ==> OccursAt(s, pat, 0);
      var t := s[d..];
      OccursInSuffix(s, p, d, i - d);
      forall j | OccursAt(t, pat, j)
        ensures j + |pat| <= i - d || i - d + |p| <= j
      {
        OccursInSuffix(s, pat, d, j);
      }
      ReplaceKeepsOccurrence(t, pat, rep, p, i - d);
      var rt := Replace(t, pat, rep);
      var k :| 0 <= k <= |rt| && OccursAt(rt, p, k);
      var head := if StartsWith(s, pat) then rep else [s[0]];
      assert r == head + rt;
      OccursAfterPrefix(head, rt, p, k);
    } else {
      forall j | 0 <= j < |p|
        ensures !OccursAt(s, pat, j)
      {
      }
      ReplaceKeepsCleanPrefix(s, pat, rep, |p|);
      assert r[..|p|] == s[..|p|];
      assert OccursAt(r, p, 0);
    }
  }
}
