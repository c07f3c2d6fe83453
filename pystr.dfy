/**
 * The handful of Python string operations the scraper is built from:
 * substring search (`p in s`, and `re.search` with a pattern that has no
 * metacharacters), `str.replace`, the `isdigit` filter, `str.lower`, and
 * the decimal rendering `str(n)` that f-strings use for a natural number.
 * Only ASCII is modelled: `isdigit` keeps '0'..'9' and `lower` folds 'A'..'Z'.
 */
module PyStr {

  /** `s.startswith(p)` */
  predicate StartsWith(s: string, p: string) {
    |p| <= |s| && s[..|p|] == p
  }

  /** `s.endswith(p)` */
  predicate EndsWith(s: string, p: string) {
    |p| <= |s| && s[|s| - |p|..] == p
  }

  /** `p in s`: p occurs at some position of s */
  predicate Contains(s: string, p: string) {
    exists i | 0 <= i <= |s| :: StartsWith(s[i..], p)
  }

  /**
   * `s.replace(pat, rep)`: scan left to right; at each position where pat
   * starts, emit rep and skip past the match, otherwise copy one character.
   * Every call in the scraper passes a non-empty literal pattern.
   */
  function Replace(s: string, pat: string, rep: string): string
    requires pat != []
    decreases |s|
  {
    if s == [] then []
    else if StartsWith(s, pat) then rep + Replace(s[|pat|..], pat, rep)
    else [s[0]] + Replace(s[1..], pat, rep)
  }

  /** Reference for the one-character case: every `a` becomes `b`, position by position. */
  function SubstChar(s: string, a: char, b: char): string {
    seq(|s|, i requires 0 <= i < |s| => if s[i] == a then b else s[i])
  }

  /** An occurrence in the tail is an occurrence in the whole string. */
  lemma ContainsTail(s: string, p: string)
    requires s != []
    ensures Contains(s[1..], p) ==> Contains(s, p)
  {
    if Contains(s[1..], p) {
      var i :| 0 <= i <= |s[1..]| && StartsWith(s[1..][i..], p);
      assert s[1..][i..] == s[i + 1..];
    }
  }

  /** Replacing a pattern that does not occur leaves the string as it was. */
  lemma {:induction false} ReplaceAbsent(s: string, pat: string, rep: string)
    requires pat != []
    requires !Contains(s, pat)
    ensures Replace(s, pat, rep) == s
  {
    if s != [] {
      assert s[0..] == s;
      assert !StartsWith(s, pat);
      ContainsTail(s, pat);
      ReplaceAbsent(s[1..], pat, rep);
    }
  }

  /** A string that starts with the pattern starts, once replaced, with the replacement. */
  lemma ReplaceLeading(pat: string, rest: string, rep: string)
    requires pat != []
    ensures Replace(pat + rest, pat, rep) == rep + Replace(rest, pat, rep)
  {
    assert StartsWith(pat + rest, pat);
    assert (pat + rest)[|pat|..] == rest;
  }

  /**
   * When the pattern occurs in s only as its suffix, `replace` swaps that
   * suffix for the replacement and keeps everything before it.
   */
  lemma {:induction false} ReplaceTrailing(s: string, pat: string, rep: string)
    requires pat != []
    requires EndsWith(s, pat)
    requires !Contains(s[..|s| - 1], pat)
    ensures Replace(s, pat, rep) == s[..|s| - |pat|] + rep
  {
    if |s| == |pat| {
      assert s == pat;
      assert StartsWith(s, pat);
      assert s[|pat|..] == [];
    } else {
      var u := s[..|s| - 1];
      assert u[0..] == u;
      assert StartsWith(s, pat) ==> StartsWith(u[0..], pat);
      var t := s[1..];
      assert EndsWith(t, pat) by {
        assert t[|t| - |pat|..] == s[|s| - |pat|..];
      }
      assert !Contains(t[..|t| - 1], pat) by {
        assert t[..|t| - 1] == s[..|s| - 1][1..];
        ContainsTail(s[..|s| - 1], pat);
      }
      ReplaceTrailing(t, pat, rep);
      assert t[..|t| - |pat|] == s[1..|s| - |pat|];
      assert s[..|s| - |pat|] == [s[0]] + s[1..|s| - |pat|];
    }
  }

  /** With a non-empty replacement, the result is empty exactly when the input is. */
  lemma ReplaceEmptyIff(s: string, pat: string, rep: string)
    requires pat != [] && rep != []
    ensures Replace(s, pat, rep) == [] <==> s == []
  {
  }

  /** One-character `replace` agrees with the position-wise reference. */
  lemma {:induction false} ReplaceChar(s: string, a: char, b: char)
    ensures Replace(s, [a], [b]) == SubstChar(s, a, b)
  {
    if s != [] {
      ReplaceChar(s[1..], a, b);
      if s[0] == a {
        assert StartsWith(s, [a]);
      } else {
        assert !StartsWith(s, [a]);
      }
      assert s[|[a]|..] == s[1..];
      assert SubstChar(s, a, b) == [if s[0] == a then b else s[0]] + SubstChar(s[1..], a, b);
    }
  }

  /** `c.isdigit()`, ASCII digits only */
  predicate IsDigit(c: char) {
    '0' <= c <= '9'
  }

  predicate AllDigits(s: string) {
    forall i | 0 <= i < |s| :: IsDigit(s[i])
  }

  /** `"".join(x for x in s if x.isdigit())`: the digits of s, in order. */
  function KeepDigits(s: string): (r: string)
    ensures AllDigits(r)
    ensures |r| <= |s|
  {
    if s == [] then []
    else (if IsDigit(s[0]) then [s[0]] else []) + KeepDigits(s[1..])
  }

  /** The filter works piecewise: the digits of a + b are the digits of a, then those of b. */
  lemma {:induction false} KeepDigitsAppend(a: string, b: string)
    ensures KeepDigits(a + b) == KeepDigits(a) + KeepDigits(b)
  {
    if a != [] {
      assert (a + b)[1..] == a[1..] + b;
      KeepDigitsAppend(a[1..], b);
      calc {
        KeepDigits(a + b);
        (if IsDigit(a[0]) then [a[0]] else []) + KeepDigits(a[1..] + b);
        (if IsDigit(a[0]) then [a[0]] else []) + (KeepDigits(a[1..]) + KeepDigits(b));
        KeepDigits(a) + KeepDigits(b);
      }
    } else {
      assert a + b == b;
    }
  }

  /** A string of digits passes the filter unchanged, and only such a string does. */
  lemma {:induction false} KeepDigitsFixed(s: string)
    ensures KeepDigits(s) == s <==> AllDigits(s)
  {
    if s != [] {
      KeepDigitsFixed(s[1..]);
      if !IsDigit(s[0]) {
        assert |KeepDigits(s)| < |s|;
      } else {
        assert AllDigits(s) <==> AllDigits(s[1..]);
      }
    }
  }

  /** A string without digits filters to nothing. */
  lemma {:induction false} KeepDigitsNone(s: string)
    requires forall i | 0 <= i < |s| :: !IsDigit(s[i])
    ensures KeepDigits(s) == []
  {
    if s != [] {
      KeepDigitsNone(s[1..]);
    }
  }

  /** A run of digits between two digit-free texts is exactly what the filter keeps. */
  lemma KeepDigitsBetween(before: string, digits: string, after: string)
    requires forall i | 0 <= i < |before| :: !IsDigit(before[i])
    requires forall i | 0 <= i < |after| :: !IsDigit(after[i])
    requires AllDigits(digits)
    ensures KeepDigits(before + digits + after) == digits
  {
    KeepDigitsAppend(before + digits, after);
    KeepDigitsAppend(before, digits);
    KeepDigitsNone(before);
    KeepDigitsNone(after);
    KeepDigitsFixed(digits);
  }

  /** Filtering twice is filtering once. */
  lemma KeepDigitsIdempotent(s: string)
    ensures KeepDigits(KeepDigits(s)) == KeepDigits(s)
  {
    KeepDigitsFixed(KeepDigits(s));
  }

  /** `s.lower()` on ASCII letters */
  function Lower(s: string): (r: string)
    ensures |r| == |s|
    ensures forall i | 0 <= i < |s| :: ('A' <= s[i] <= 'Z' ==> r[i] as int == s[i] as int + 32)
    ensures forall i | 0 <= i < |s| :: (!('A' <= s[i] <= 'Z') ==> r[i] == s[i])
  {
    if s == [] then []
    else [if 'A' <= s[0] <= 'Z' then (s[0] as int + 32) as char else s[0]] + Lower(s[1..])
  }

  /** Lower-casing a capitalised lower-case word gives the word back. */
  lemma LowerCapitalised(w: string)
    requires w != [] && forall i | 0 <= i < |w| :: 'a' <= w[i] <= 'z'
    ensures Lower([(w[0] as int - 32) as char] + w[1..]) == w
  {
  }

  function DigitChar(d: nat): char
    requires d < 10
  {
    ('0' as int + d) as char
  }

  function DigitValue(c: char): nat
    requires IsDigit(c)
  {
    c as int - '0' as int
  }

  /** `str(n)` for a natural number: its decimal digits, no leading zero. */
  function NatToString(n: nat): (r: string)
    ensures r != [] && AllDigits(r)
    ensures r[0] == '0' ==> r == "0"
    decreases n
  {
    if n < 10 then [DigitChar(n)]
    else NatToString(n / 10) + [DigitChar(n % 10)]
  }

  /** The decimal value of a string of ASCII digits ("" counts as 0). */
  function ParseNat(s: string): nat
    requires AllDigits(s)
  {
    if s == [] then 0
    else 10 * ParseNat(s[..|s| - 1]) + DigitValue(s[|s| - 1])
  }

  /** `int(str(n)) == n` */
  lemma {:induction false} ParseNatToString(n: nat)
    ensures ParseNat(NatToString(n)) == n
    decreases n
  {
    var r := NatToString(n);
    if n >= 10 {
      ParseNatToString(n / 10);
      assert r[..|r| - 1] == NatToString(n / 10);
    }
  }

  /** Distinct numbers render as distinct strings. */
  lemma NatToStringInjective(m: nat, n: nat)
    requires NatToString(m) == NatToString(n)
    ensures m == n
  {
    ParseNatToString(m);
    ParseNatToString(n);
  }
}
