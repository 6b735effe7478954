/** The string operations the views rely on: number formatting, JavaScript's
    `toLowerCase` (on ASCII letters), `includes` and single-character `replace`, and the digit
    scanning behind `parseInt`. */
module Text {

  /** The decimal digit character for `d`. */
  function DigitChar(d: nat): (c: char)
    requires d < 10
    ensures '0' <= c <= '9'
  {
    "0123456789"[d]
  }

  /** The decimal representation of a natural number, as `String(n)` prints it. */
  function NatString(n: nat): (s: string)
    ensures |s| > 0
    ensures forall i :: 0 <= i < |s| ==> '0' <= s[i] <= '9'
    ensures s[0] == '0' ==> n == 0 && |s| == 1
  {
    if n < 10 then [DigitChar(n)] else NatString(n / 10) + [DigitChar(n % 10)]
  }

  /** `String(n)` for an integer: an optional minus sign, then the digits. */
  function DecimalString(n: int): (s: string)
  {
    if n < 0 then "-" + NatString(-n) else NatString(n)
  }

  /** Whether `c` is a digit in base `radix` (10 or 16), as `parseInt` reads it. */
  predicate IsDigit(c: char, radix: nat)
  {
    ('0' <= c <= '9') || (radix == 16 && (('a' <= c <= 'f') || ('A' <= c <= 'F')))
  }

  /** The value of a digit character of base 10 or 16. */
  function DigitValue(c: char): (v: nat)
    ensures v < 16
  {
    if '0' <= c <= '9' then (c - '0') as nat
    else if 'a' <= c <= 'f' then (c - 'a') as nat + 10
    else if 'A' <= c <= 'F' then (c - 'A') as nat + 10
    else 0
  }

  /** The longest prefix of `s` made of base-`radix` digits. */
  function LeadingDigits(s: string, radix: nat): (r: string)
    ensures |r| <= |s| && r == s[..|r|]
    ensures forall i :: 0 <= i < |r| ==> IsDigit(r[i], radix)
    ensures |r| < |s| ==> !IsDigit(s[|r|], radix)
  {
    if s == [] || !IsDigit(s[0], radix) then []
    else [s[0]] + LeadingDigits(s[1..], radix)
  }

  /** The number a string of base-`radix` digits denotes, most significant first. */
  function DigitsValue(s: string, radix: nat): nat
  {
    if s == [] then 0
    else DigitsValue(s[..|s| - 1], radix) * radix + DigitValue(s[|s| - 1])
  }

  /** Reading back the digits of `NatString(n)` gives `n`. */
  lemma {:induction false} NatStringValue(n: nat)
    ensures DigitsValue(NatString(n), 10) == n
  {
    if n >= 10 {
      var s := NatString(n);
      assert s[..|s| - 1] == NatString(n / 10);
      NatStringValue(n / 10);
    }
  }

  /** Every character of `NatString(n)` is a decimal digit, so the digit scan takes all of it. */
  lemma {:induction false} NatStringAllDigits(n: nat)
    ensures LeadingDigits(NatString(n), 10) == NatString(n)
  {
    AllDigitsLeading(NatString(n), 10);
  }

  lemma {:induction false} AllDigitsLeading(s: string, radix: nat)
    requires forall i :: 0 <= i < |s| ==> IsDigit(s[i], radix)
    ensures LeadingDigits(s, radix) == s
  {
    if s != [] {
      AllDigitsLeading(s[1..], radix);
    }
  }

  /** The digit scan stops where the digits do. */
  lemma {:induction false} LeadingDigitsAppend(d: string, rest: string, radix: nat)
    requires forall i :: 0 <= i < |d| ==> IsDigit(d[i], radix)
    requires rest == [] || !IsDigit(rest[0], radix)
    ensures LeadingDigits(d + rest, radix) == d
  {
    if d == [] {
      assert d + rest == rest;
    } else {
      assert (d + rest)[1..] == d[1..] + rest;
      LeadingDigitsAppend(d[1..], rest, radix);
    }
  }

  /** JavaScript's `toLowerCase` on one character (ASCII letters only). */
  function LowerChar(c: char): (r: char)
  {
    if 'A' <= c <= 'Z' then (c - 'A' + 'a') as char else c
  }

  /** JavaScript's `toLowerCase` (ASCII letters only). */
  function Lower(s: string): (r: string)
    ensures |r| == |s|
    ensures forall i :: 0 <= i < |s| ==> r[i] == LowerChar(s[i])
    ensures forall i :: 0 <= i < |r| ==> !('A' <= r[i] <= 'Z')
  {
    seq(|s|, i requires 0 <= i < |s| => LowerChar(s[i]))
  }

  /** Lower-casing twice is lower-casing once. */
  lemma LowerIdempotent(s: string)
    ensures Lower(Lower(s)) == Lower(s)
  {
  }

  /** Whether `s` begins with `prefix`. */
  predicate StartsWith(s: string, prefix: string)
  {
    |prefix| <= |s| && s[..|prefix|] == prefix
  }

  /** Whether `needle` occurs in `hay` starting at index `i`. */
  predicate OccursAt(hay: string, needle: string, i: int)
  {
    0 <= i <= |hay| - |needle| && hay[i..i + |needle|] == needle
  }

  /** `hay.includes(needle)`: whether `needle` occurs somewhere in `hay`. */
  function Contains(hay: string, needle: string): (r: bool)
    ensures r <==> exists i :: OccursAt(hay, needle, i)
    decreases |hay|
  {
    if StartsWith(hay, needle) then
      assert OccursAt(hay, needle, 0);
      true
    else if |hay| <= |needle| then
      assert forall i :: OccursAt(hay, needle, i) ==> i == 0;
      false
    else
      OccursShift(hay, needle);
      Contains(hay[1..], needle)
  }

  /** The occurrences in `hay` after its first character are those in `hay[1..]`, one
      further on. */
  lemma OccursShift(hay: string, needle: string)
    requires hay != []
    ensures forall j :: OccursAt(hay[1..], needle, j) ==> OccursAt(hay, needle, j + 1)
    ensures forall i :: OccursAt(hay, needle, i) && i >= 1 ==> OccursAt(hay[1..], needle, i - 1)
  {
    forall j | OccursAt(hay[1..], needle, j)
      ensures OccursAt(hay, needle, j + 1)
    {
      assert hay[j + 1..j + 1 + |needle|] == hay[1..][j..j + |needle|];
    }
    forall i | OccursAt(hay, needle, i) && i >= 1
      ensures OccursAt(hay[1..], needle, i - 1)
    {
      assert hay[1..][i - 1..i - 1 + |needle|] == hay[i..i + |needle|];
    }
  }

  /** `s.replace(from, to)` for one-character strings: only the first occurrence is replaced
      (`ReplaceFirstAbsent` and `ReplaceFirstSplit` cover every string between them). */
  function ReplaceFirst(s: string, from: char, to: char): (r: string)
    ensures |r| == |s|
  {
    if s == [] then []
    else if s[0] == from then [to] + s[1..]
    else [s[0]] + ReplaceFirst(s[1..], from, to)
  }

  /** With no `from` in `s` there is nothing to replace. */
  lemma {:induction false} ReplaceFirstAbsent(s: string, from: char, to: char)
    requires from !in s
    ensures ReplaceFirst(s, from, to) == s
  {
    if s != [] {
      assert s[0] != from && from !in s[1..];
      ReplaceFirstAbsent(s[1..], from, to);
      assert s == [s[0]] + s[1..];
    }
  }

  /** Replacing in `p + [from] + q`, where `p` holds no `from`, swaps that one character and
      leaves `q` as it is, whatever it holds. */
  lemma {:induction false} ReplaceFirstSplit(p: string, q: string, from: char, to: char)
    requires from !in p
    ensures ReplaceFirst(p + [from] + q, from, to) == p + [to] + q
  {
    var s := p + [from] + q;
    if p == [] {
      assert s == [from] + q;
    } else {
      assert s[0] == p[0] != from;
      assert s[1..] == p[1..] + [from] + q;
      assert ReplaceFirst(s, from, to) == [p[0]] + ReplaceFirst(s[1..], from, to);
      ReplaceFirstSplit(p[1..], q, from, to);
      assert p == [p[0]] + p[1..];
    }
  }
}
