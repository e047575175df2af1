/**
 * The string operations of the dashboard: `toLowerCase`, `includes`,
 * `Number.prototype.toString` and `Number(...)` on integers, the order in
 * which `Object.entries` lists keys that look like array indices, and the
 * order `localeCompare` is modelled by.
 */
module Text {

  /** `toLowerCase` on one character; only ASCII letters are mapped. */
  function LowerChar(c: char): (r: char)
    ensures !('A' <= r <= 'Z')
    ensures !('A' <= c <= 'Z') ==> r == c
  {
    if 'A' <= c <= 'Z' then (c as int + 32) as char else c
  }

  /** `s.toLowerCase()` for ASCII text. */
  function Lower(s: string): (r: string)
    ensures |r| == |s|
    ensures forall i :: 0 <= i < |r| ==> r[i] == LowerChar(s[i])
  {
    seq(|s|, i requires 0 <= i < |s| => LowerChar(s[i]))
  }

  predicate StartsWith(s: string, prefix: string)
  {
    |prefix| <= |s| && s[..|prefix|] == prefix
  }

  /** `s.includes(needle)`: a case-sensitive substring test. */
  function Includes(s: string, needle: string): bool
  {
    StartsWith(s, needle) || (s != [] && Includes(s[1..], needle))
  }

  /** `needle` occurs in `s` starting at position `i`. */
  predicate OccursAt(needle: string, s: string, i: int)
  {
    0 <= i <= |s| - |needle| && s[i..i + |needle|] == needle
  }

  /** `needle` occurs in `s` at some position. */
  ghost predicate IsSubstring(needle: string, s: string)
  {
    exists i :: OccursAt(needle, s, i)
  }

  lemma {:induction false} IncludesFindsOccurrence(s: string, needle: string)
    requires Includes(s, needle)
    ensures IsSubstring(needle, s)
  {
    if StartsWith(s, needle) {
      assert OccursAt(needle, s, 0);
    } else {
      IncludesFindsOccurrence(s[1..], needle);
      var i :| OccursAt(needle, s[1..], i);
      assert s[i + 1..i + 1 + |needle|] == s[1..][i..i + |needle|];
      assert OccursAt(needle, s, i + 1);
    }
  }

  lemma {:induction false} OccurrenceIsIncluded(s: string, needle: string, i: int)
    requires OccursAt(needle, s, i)
    ensures Includes(s, needle)
    decreases i
  {
    if i != 0 {
      assert s[1..][i - 1..i - 1 + |needle|] == s[i..i + |needle|];
      OccurrenceIsIncluded(s[1..], needle, i - 1);
    }
  }

  /** `includes` holds exactly when the needle occurs somewhere in the string. */
  lemma IncludesIsSubstring(s: string, needle: string)
    ensures Includes(s, needle) <==> IsSubstring(needle, s)
  {
    if Includes(s, needle) {
      IncludesFindsOccurrence(s, needle);
    }
    if IsSubstring(needle, s) {
      var i :| OccursAt(needle, s, i);
      OccurrenceIsIncluded(s, needle, i);
    }
  }

  /** The empty string is included in every string. */
  lemma IncludesEmpty(s: string)
    ensures Includes(s, "")
  {
    assert StartsWith(s, "");
  }

  predicate IsDigit(c: char)
  {
    '0' <= c <= '9'
  }

  predicate IsDigits(s: string)
  {
    forall i :: 0 <= i < |s| ==> IsDigit(s[i])
  }

  function DigitChar(d: nat): (c: char)
    requires d < 10
    ensures IsDigit(c) && c as int - '0' as int == d
  {
    ('0' as int + d) as char
  }

  /** The decimal digits of `n`, without leading zeros. */
  function Digits(n: nat): (r: string)
    ensures IsDigits(r)
    ensures |r| >= 1 && (|r| == 1 <==> n < 10)
    ensures r[0] == '0' <==> n == 0
  {
    if n < 10 then [DigitChar(n)] else Digits(n / 10) + [DigitChar(n % 10)]
  }

  /** `n.toString()` for an integer `n`. */
  function IntToString(n: int): string
  {
    if n < 0 then "-" + Digits(-n) else Digits(n)
  }

  /** The value of a string of decimal digits, read left to right. */
  function DigitsValue(s: string): int
  {
    if s == [] then 0 else DigitsValue(s[..|s| - 1]) * 10 + (s[|s| - 1] as int - '0' as int)
  }

  /** `Number(s)` on the strings that `IntToString` produces (an optional minus sign, then digits). */
  function StringToNumber(s: string): int
  {
    if |s| > 0 && s[0] == '-' then -DigitsValue(s[1..]) else DigitsValue(s)
  }

  lemma {:induction false} DigitsRoundTrip(n: nat)
    ensures DigitsValue(Digits(n)) == n
  {
    if n >= 10 {
      DigitsRoundTrip(n / 10);
      var d := Digits(n);
      assert d[..|d| - 1] == Digits(n / 10);
    }
  }

  /** `Number(String(n)) == n` for every integer `n`. */
  lemma NumberRoundTrip(n: int)
    ensures StringToNumber(IntToString(n)) == n
  {
    if n < 0 {
      DigitsRoundTrip(-n);
      assert ("-" + Digits(-n))[1..] == Digits(-n);
    } else {
      DigitsRoundTrip(n);
    }
  }

  /** Distinct integers have distinct decimal strings. */
  lemma IntToStringInjective(m: int, n: int)
    ensures IntToString(m) == IntToString(n) ==> m == n
  {
    NumberRoundTrip(m);
    NumberRoundTrip(n);
  }

  /** The largest array index, 2^32 - 2. */
  const MaxArrayIndex: nat := 4294967294

  /**
   * `s` is an array index: the canonical decimal form of an integer in
   * [0, 2^32 - 2]. `Object.entries` lists such keys first, in ascending
   * numeric order, and every other key afterwards in insertion order.
   */
  predicate IsArrayIndex(s: string)
  {
    s != [] && IsDigits(s) && (s[0] != '0' || |s| == 1) && DigitsValue(s) <= MaxArrayIndex
  }

  /** A key holding any character other than a digit (a dot, a letter, a space) is never an array index. */
  lemma NonDigitIsNotIndex(s: string, i: nat)
    requires i < |s| && !IsDigit(s[i])
    ensures !IsArrayIndex(s)
  {
  }

  /** The decimal string of `n` is an array index exactly when `0 <= n <= 2^32 - 2`. */
  lemma IntToStringIsIndex(n: int)
    ensures IsArrayIndex(IntToString(n)) <==> 0 <= n <= MaxArrayIndex
  {
    if n < 0 {
      assert !IsDigit(IntToString(n)[0]);
    } else {
      DigitsRoundTrip(n);
    }
  }

  /**
   * Lexicographic order by character (a Dafny `char` is a Unicode scalar
   * value); `LexLe(a, b)` models `a.localeCompare(b) <= 0`. Unlike a locale
   * collation it never treats two distinct strings as equal.
   */
  predicate LexLe(a: string, b: string)
  {
    a == [] || (b != [] && (a[0] < b[0] || (a[0] == b[0] && LexLe(a[1..], b[1..]))))
  }

  lemma {:induction false} LexLeReflexive(a: string)
    ensures LexLe(a, a)
  {
    if a != [] {
      LexLeReflexive(a[1..]);
    }
  }

  lemma {:induction false} LexLeTotal(a: string, b: string)
    ensures LexLe(a, b) || LexLe(b, a)
  {
    if a != [] && b != [] && a[0] == b[0] {
      LexLeTotal(a[1..], b[1..]);
    }
  }

  lemma {:induction false} LexLeTransitive(a: string, b: string, c: string)
    requires LexLe(a, b) && LexLe(b, c)
    ensures LexLe(a, c)
  {
    if a != [] && a[0] == b[0] && b[0] == c[0] {
      LexLeTransitive(a[1..], b[1..], c[1..]);
    }
  }

  lemma {:induction false} LexLeAntisymmetric(a: string, b: string)
    requires LexLe(a, b) && LexLe(b, a)
    ensures a == b
  {
    if a != [] && b != [] {
      LexLeAntisymmetric(a[1..], b[1..]);
      assert a == [a[0]] + a[1..] && b == [b[0]] + b[1..];
    }
  }
}
