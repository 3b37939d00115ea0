/** String helpers used by several modules: the pieces of Rust's `str` API
    that the modelled code relies on (`contains`, `ends_with`,
    `to_lowercase`, `replace`), decimal rendering of integers, and
    concatenation of a list of strings. */
module Text {

  predicate IsAsciiDigit(c: char) {
    '0' <= c <= '9'
  }

  predicate IsAsciiLetter(c: char) {
    ('a' <= c <= 'z') || ('A' <= c <= 'Z')
  }

  /** `char::is_ascii_alphanumeric` */
  predicate IsAsciiAlphanumeric(c: char) {
    IsAsciiDigit(c) || IsAsciiLetter(c)
  }

  function LowerChar(c: char): char {
    if 'A' <= c <= 'Z' then (c as int + 32) as char else c
  }

  function UpperChar(c: char): char {
    if 'a' <= c <= 'z' then (c as int - 32) as char else c
  }

  /** `str::to_lowercase`, restricted to ASCII letters. */
  function Lower(s: string): (r: string)
    ensures |r| == |s|
    ensures forall i :: 0 <= i < |s| ==> r[i] == LowerChar(s[i])
  {
    if s == [] then [] else [LowerChar(s[0])] + Lower(s[1..])
  }

  /** `str::to_uppercase`, restricted to ASCII letters. */
  function Upper(s: string): (r: string)
    ensures |r| == |s|
    ensures forall i :: 0 <= i < |s| ==> r[i] == UpperChar(s[i])
  {
    if s == [] then [] else [UpperChar(s[0])] + Upper(s[1..])
  }

  /** Lower-casing twice is lower-casing once. */
  lemma LowerIdempotent(s: string)
    ensures Lower(Lower(s)) == Lower(s)
  {
  }

  /** Lower-casing forgets whatever case a string was written in. */
  lemma LowerOfUpper(s: string)
    ensures Lower(Upper(s)) == Lower(s)
  {
  }

  predicate StartsWith(s: string, prefix: string) {
    |prefix| <= |s| && s[..|prefix|] == prefix
  }

  predicate EndsWith(s: string, suffix: string) {
    |suffix| <= |s| && s[|s| - |suffix|..] == suffix
  }

  /** `str::contains` for a string pattern, as a scan from the left. */
  function Contains(s: string, pattern: string): (r: bool)
    decreases |s|
  {
    StartsWith(s, pattern) || (|s| > 0 && Contains(s[1..], pattern))
  }

  /** `pattern` occurs in `s` starting at offset `i`. */
  predicate OccursAt(s: string, pattern: string, i: int) {
    0 <= i && i + |pattern| <= |s| && s[i..i + |pattern|] == pattern
  }

  /** The scan finds the pattern exactly when it occurs at some offset. */
  lemma {:induction false} ContainsIff(s: string, pattern: string)
    ensures Contains(s, pattern) <==> exists i :: OccursAt(s, pattern, i)
    decreases |s|
  {
    if StartsWith(s, pattern) {
      assert OccursAt(s, pattern, 0);
    } else if |s| > 0 {
      ContainsIff(s[1..], pattern);
      if Contains(s[1..], pattern) {
        var i :| OccursAt(s[1..], pattern, i);
        assert s[i + 1..i + 1 + |pattern|] == s[1..][i..i + |pattern|];
        assert OccursAt(s, pattern, i + 1);
      }
      if exists i :: OccursAt(s, pattern, i) {
        var i :| OccursAt(s, pattern, i);
        assert i != 0;
        assert s[1..][i - 1..i - 1 + |pattern|] == s[i..i + |pattern|];
        assert OccursAt(s[1..], pattern, i - 1);
      }
    }
  }

  /** A string occurs in itself extended on both sides. */
  lemma ContainsInfix(a: string, pattern: string, b: string)
    ensures Contains(a + pattern + b, pattern)
  {
    var s := a + pattern + b;
    assert s[|a|..|a| + |pattern|] == pattern;
    assert OccursAt(s, pattern, |a|);
    ContainsIff(s, pattern);
  }

  /** `str::replace(c, "")` for a one-character pattern: drop every `c`. */
  function RemoveChar(s: string, c: char): (r: string)
    ensures |r| <= |s|
    ensures c !in r
    ensures forall x :: x in r <==> x in s && x != c
  {
    if s == [] then []
    else (if s[0] == c then [] else [s[0]]) + RemoveChar(s[1..], c)
  }

  function DigitChar(d: nat): char
    requires d < 10
  {
    "0123456789"[d]
  }

  /** Decimal rendering of a natural number, as Rust's `Display` writes it. */
  function NatToString(n: nat): (r: string)
    decreases n
  {
    if n < 10 then [DigitChar(n)] else NatToString(n / 10) + [DigitChar(n % 10)]
  }

  function DigitOf(c: char): nat
    requires IsAsciiDigit(c)
  {
    c as int - '0' as int
  }

  /** The value of a string of decimal digits. */
  function DigitsValue(s: string): nat
    requires forall i :: 0 <= i < |s| ==> IsAsciiDigit(s[i])
  {
    if s == [] then 0 else DigitsValue(s[..|s| - 1]) * 10 + DigitOf(s[|s| - 1])
  }

  /** Rendering a number gives digits only, with no superfluous leading
      zero. */
  lemma {:induction false} NatToStringDigits(n: nat)
    ensures var s := NatToString(n);
      0 < |s| && (forall i :: 0 <= i < |s| ==> IsAsciiDigit(s[i])) && (|s| > 1 ==> s[0] != '0')
  {
    if n >= 10 {
      NatToStringDigits(n / 10);
    }
  }

  /** Reading the rendered digits back gives the number. */
  lemma {:induction false} NatToStringRoundTrip(n: nat)
    ensures (NatToStringDigits(n); DigitsValue(NatToString(n)) == n)
  {
    NatToStringDigits(n);
    if n >= 10 {
      NatToStringRoundTrip(n / 10);
      var s := NatToString(n);
      assert s[..|s| - 1] == NatToString(n / 10);
    }
  }

  /** Distinct numbers render to distinct strings. */
  lemma NatToStringInjective(m: nat, n: nat)
    requires NatToString(m) == NatToString(n)
    ensures m == n
  {
    NatToStringRoundTrip(m);
    NatToStringRoundTrip(n);
  }

  /** Concatenation of a list of strings, in order (`push_str` one by one). */
  function Concat(parts: seq<string>): string {
    if parts == [] then "" else Concat(parts[..|parts| - 1]) + parts[|parts| - 1]
  }

  lemma {:induction false} ConcatAppend(a: seq<string>, b: seq<string>)
    ensures Concat(a + b) == Concat(a) + Concat(b)
    decreases |b|
  {
    if b == [] {
      assert a + b == a;
    } else {
      var init, last := b[..|b| - 1], b[|b| - 1];
      var ab := a + b;
      assert ab[..|ab| - 1] == a + init && ab[|ab| - 1] == last;
      assert Concat(b) == Concat(init) + last;
      ConcatAppend(a, init);
    }
  }

  /** Every piece of a concatenation occurs in it. */
  lemma ConcatContains(parts: seq<string>, i: nat)
    requires i < |parts|
    ensures Contains(Concat(parts), parts[i])
  {
    var before, p, after := parts[..i], parts[i], parts[i + 1..];
    assert parts == (before + [p]) + after;
    ConcatAppend(before + [p], after);
    assert (before + [p])[..|before|] == before;
    assert Concat(before + [p]) == Concat(before) + p;
    ContainsInfix(Concat(before), p, Concat(after));
  }

  /** An occurrence inside a middle piece is an occurrence in the whole. */
  lemma ContainsWithin(a: string, b: string, c: string, pattern: string)
    requires Contains(b, pattern)
    ensures Contains(a + b + c, pattern)
  {
    ContainsIff(b, pattern);
    var i :| OccursAt(b, pattern, i);
    assert (a + b + c)[|a| + i..|a| + i + |pattern|] == b[i..i + |pattern|];
    assert OccursAt(a + b + c, pattern, |a| + i);
    ContainsIff(a + b + c, pattern);
  }

  /** Containment is transitive. */
  lemma ContainsTransitive(s: string, t: string, pattern: string)
    requires Contains(s, t) && Contains(t, pattern)
    ensures Contains(s, pattern)
  {
    ContainsIff(s, t);
    ContainsIff(t, pattern);
    var i :| OccursAt(s, t, i);
    var j :| OccursAt(t, pattern, j);
    forall k | 0 <= k < |pattern|
      ensures s[i + j..i + j + |pattern|][k] == pattern[k]
    {
      assert pattern[k] == t[j..j + |pattern|][k] == t[j + k];
      assert t[j + k] == s[i..i + |t|][j + k];
    }
    assert s[i + j..i + j + |pattern|] == pattern;
    assert OccursAt(s, pattern, i + j);
    ContainsIff(s, pattern);
  }

  lemma ConcatOfThree(parts: seq<string>)
    requires |parts| == 3
    ensures Concat(parts) == parts[0] + parts[1] + parts[2]
  {
    assert parts[..2][..1] == [parts[0]];
    assert Concat([parts[0]]) == parts[0];
  }

  /** A concatenation starts with the concatenation of its first parts. */
  lemma ConcatStartsWith(parts: seq<string>, k: nat)
    requires k <= |parts|
    ensures StartsWith(Concat(parts), Concat(parts[..k]))
  {
    assert parts == parts[..k] + parts[k..];
    ConcatAppend(parts[..k], parts[k..]);
  }
}
