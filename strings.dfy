/** The string operations the exercises use: f-string rendering of integers
    (`f"{n}"`, `f"{n:02d}"`), `str.lower` on ASCII text, `in` on strings,
    `str.startswith`, `str.endswith`, `str.replace` of one character. */
module Strings {

  predicate IsDigit(c: char)
  {
    '0' <= c <= '9'
  }

  predicate AllDigits(s: string)
  {
    forall i :: 0 <= i < |s| ==> IsDigit(s[i])
  }

  function DigitChar(d: nat): (c: char)
    requires d < 10
    ensures IsDigit(c)
  {
    "0123456789"[d]
  }

  function DigitValue(c: char): (d: nat)
    requires IsDigit(c)
    ensures d < 10
  {
    (c as int - '0' as int) as nat
  }

  /** `f"{n}"` for a non-negative integer: its decimal digits, no leading zero. */
  function NatToString(n: nat): (s: string)
    ensures 1 <= |s| && AllDigits(s)
  {
    if n < 10 then [DigitChar(n)] else NatToString(n / 10) + [DigitChar(n % 10)]
  }

  /** `f"{i}"` for any integer: a minus sign before the digits of a negative number. */
  function IntToString(i: int): (s: string)
    ensures i >= 0 ==> s == NatToString(i)
    ensures i < 0 ==> s == "-" + NatToString(-i)
  {
    if i < 0 then "-" + NatToString(-i) else NatToString(i)
  }

  /** The value of a string of decimal digits (`int(s)`); the empty string reads as 0. */
  function ParseNat(s: string): nat
    requires AllDigits(s)
  {
    if s == [] then 0 else ParseNat(s[..|s| - 1]) * 10 + DigitValue(s[|s| - 1])
  }

  lemma DigitRoundTrip(d: nat)
    requires d < 10
    ensures DigitValue(DigitChar(d)) == d
  {
  }

  /** Reading back the rendered digits gives the number. */
  lemma {:induction false} ParseNatToString(n: nat)
    ensures ParseNat(NatToString(n)) == n
  {
    var s := NatToString(n);
    if n < 10 {
      DigitRoundTrip(n);
      assert s[..|s| - 1] == [];
    } else {
      ParseNatToString(n / 10);
      DigitRoundTrip(n % 10);
      assert s[..|s| - 1] == NatToString(n / 10);
    }
  }

  lemma IntToStringInjective(i: int, j: int)
    requires IntToString(i) == IntToString(j)
    ensures i == j
  {
    ParseIntToString(i);
    ParseIntToString(j);
  }

  /** `int(s)` on an optional '-' followed by digits; anything else reads as 0. */
  function ParseInt(s: string): int
  {
    if |s| > 0 && s[0] == '-' && AllDigits(s[1..]) then -(ParseNat(s[1..]) as int)
    else if AllDigits(s) then ParseNat(s)
    else 0
  }

  /** `int(str(i)) == i`. */
  lemma ParseIntToString(i: int)
    ensures ParseInt(IntToString(i)) == i
  {
    if i < 0 {
      ParseNegative(i);
    } else {
      ParseNonNegative(i);
    }
  }

  lemma ParseNegative(i: int)
    requires i < 0
    ensures ParseInt(IntToString(i)) == i
  {
    var n: nat := -i;
    var t := NatToString(n);
    assert IntToString(i) == "-" + t;
    ParseSigned(t);
    ParseNatToString(n);
  }

  lemma ParseSigned(t: string)
    requires AllDigits(t)
    ensures ParseInt("-" + t) == -(ParseNat(t) as int)
  {
    var s := "-" + t;
    assert s[0] == '-' && s[1..] == t;
  }

  lemma ParseNonNegative(i: int)
    requires i >= 0
    ensures ParseInt(IntToString(i)) == i
  {
    var s := IntToString(i);
    assert s == NatToString(i) && AllDigits(s);
    assert IsDigit(s[0]);
    ParseNatToString(i);
  }

  /** `f"{n:02d}"`: at least two digits, a leading zero for a single digit. */
  function ZeroPad2(n: nat): (s: string)
    ensures AllDigits(s)
    ensures n < 100 ==> |s| == 2
    ensures ParseNat(s) == n
  {
    ParseNatToString(n);
    if n < 10 then
      assert ParseNat("0" + NatToString(n)) == n by {
        var t := "0" + NatToString(n);
        assert t[..|t| - 1] == "0";
        assert ParseNat("0") == 0 by { assert "0"[..0] == []; }
        assert ParseNat(NatToString(n)) == DigitValue(NatToString(n)[0]) by {
          assert NatToString(n)[..0] == [];
        }
      }
      "0" + NatToString(n)
    else NatToString(n)
  }

  /** `f"{i:02d}"` for any integer: a negative number keeps its sign and needs no padding. */
  function Format02(i: int): (s: string)
    ensures 0 <= i < 100 ==> |s| == 2 && AllDigits(s) && ParseNat(s) == i
    ensures i >= 0 ==> s == ZeroPad2(i)
  {
    if i < 0 then IntToString(i) else ZeroPad2(i)
  }

  /** `str.lower` restricted to ASCII: 'A'..'Z' become 'a'..'z', everything else is kept. */
  function LowerChar(c: char): char
  {
    if 'A' <= c <= 'Z' then (c as int + 32) as char else c
  }

  function Lower(s: string): (r: string)
    ensures |r| == |s|
    ensures forall i :: 0 <= i < |s| ==> r[i] == LowerChar(s[i])
  {
    seq(|s|, i requires 0 <= i < |s| => LowerChar(s[i]))
  }

  /** `p == s[..len(p)]`, as `s.startswith(p)`. */
  predicate StartsWith(s: string, p: string)
  {
    |p| <= |s| && s[..|p|] == p
  }

  /** `s.endswith(p)`. */
  predicate EndsWith(s: string, p: string)
  {
    |p| <= |s| && s[|s| - |p|..] == p
  }

  /** pat occurs in s starting at index i. */
  predicate OccursAt(s: string, pat: string, i: int)
  {
    0 <= i <= |s| - |pat| && s[i..i + |pat|] == pat
  }

  /** `pat in s`: pat occurs as a contiguous substring of s. */
  predicate Contains(s: string, pat: string)
  {
    exists i | 0 <= i <= |s| - |pat| :: OccursAt(s, pat, i)
  }

  /** `s.replace(old, new)` for single characters. */
  function ReplaceChar(s: string, from: char, to: char): (r: string)
    ensures |r| == |s|
    ensures forall i :: 0 <= i < |s| ==> r[i] == (if s[i] == from then to else s[i])
  {
    seq(|s|, i requires 0 <= i < |s| => if s[i] == from then to else s[i])
  }

  /** Replacing a character that does not occur changes nothing. */
  lemma ReplaceAbsent(s: string, from: char, to: char)
    requires forall k :: 0 <= k < |s| ==> s[k] != from
    ensures ReplaceChar(s, from, to) == s
  {
  }
}
