/** The JavaScript string operations the library relies on: `indexOf`,
    `replace` with a string pattern, and the decimal rendering of a number
    inside a template literal. */
module Strings {

  /** `q` occurs in `s` starting at index `i`. */
  predicate OccursAt(s: string, q: string, i: int)
  {
    0 <= i && i + |q| <= |s| && s[i..i + |q|] == q
  }

  /** `s.indexOf(q, i)`: the first occurrence of `q` at or after `i`, or -1. */
  function IndexFrom(s: string, q: string, i: nat): (k: int)
    ensures k == -1 || (i <= k && OccursAt(s, q, k))
    ensures forall j :: i <= j && (k == -1 || j < k) ==> !OccursAt(s, q, j)
    decreases |s| - i
  {
    if i + |q| > |s| then -1
    else if s[i..i + |q|] == q then i
    else IndexFrom(s, q, i + 1)
  }

  /** `s.indexOf(q)`: the first index at which `q` occurs in `s`, or -1. */
  function IndexOf(s: string, q: string): (k: int)
    ensures k == -1 || OccursAt(s, q, k)
    ensures forall j :: 0 <= j && (k == -1 || j < k) ==> !OccursAt(s, q, j)
  {
    IndexFrom(s, q, 0)
  }

  /** `q` is a substring of `s` (`-1 !== s.indexOf(q)`). */
  predicate Contains(s: string, q: string)
  {
    IndexOf(s, q) != -1
  }

  lemma ContainsIffOccurs(s: string, q: string)
    ensures Contains(s, q) <==> exists j :: OccursAt(s, q, j)
  {
    if exists j :: OccursAt(s, q, j) {
      var j :| OccursAt(s, q, j);
      assert IndexOf(s, q) != -1;
    }
  }

  /** The empty string occurs at index 0 of every string. */
  lemma IndexOfEmpty(s: string)
    ensures IndexOf(s, "") == 0
  {
    assert OccursAt(s, "", 0);
  }

  /** `s.replace(p, '')`: the first occurrence of `p` is cut out of `s`;
      without an occurrence `s` is returned as it is. */
  function RemoveFirst(s: string, p: string): (r: string)
    ensures IndexOf(s, p) == -1 ==> r == s
    ensures IndexOf(s, p) != -1 ==>
      |r| == |s| - |p| && s == r[..IndexOf(s, p)] + p + r[IndexOf(s, p)..]
  {
    var k := IndexOf(s, p);
    if k == -1 then s
    else
      var r := s[..k] + s[k + |p|..];
      assert r[..k] == s[..k] && r[k..] == s[k + |p|..];
      assert s == s[..k] + s[k..k + |p|] + s[k + |p|..];
      r
  }

  /** Cutting a prefix out: the first occurrence of `p` in `p + t` is at 0. */
  lemma RemoveFirstOfPrefix(p: string, t: string)
    ensures RemoveFirst(p + t, p) == t
  {
    assert OccursAt(p + t, p, 0);
    assert (p + t)[|p|..] == t;
  }

  /** Removing the empty string changes nothing (`s.replace('', '')`). */
  lemma RemoveFirstEmpty(s: string)
    ensures RemoveFirst(s, "") == s
  {
    IndexOfEmpty(s);
  }

  /** The character of a decimal digit. */
  function DigitChar(d: nat): (c: char)
    requires d < 10
    ensures '0' <= c <= '9'
  {
    (48 + d) as char
  }

  /** The decimal rendering of a natural number, without leading zeros. */
  function NatToDecimal(n: nat): (s: string)
    ensures 1 <= |s|
    ensures (|s| == 1) == (n < 10)
    ensures forall i :: 0 <= i < |s| ==> '0' <= s[i] <= '9'
    ensures s[0] == '0' ==> n == 0
  {
    if n < 10 then [DigitChar(n)]
    else NatToDecimal(n / 10) + [DigitChar(n % 10)]
  }

  /** `${n}` for an integer `n`: a minus sign before the digits of `-n`. */
  function IntToDecimal(n: int): (s: string)
    ensures 1 <= |s|
    ensures (s[0] == '-') == (n < 0)
  {
    if n < 0 then "-" + NatToDecimal(-n) else NatToDecimal(n)
  }

  /** Different naturals have different decimal renderings. */
  lemma {:induction false} NatToDecimalInjective(a: nat, b: nat)
    requires NatToDecimal(a) == NatToDecimal(b)
    ensures a == b
  {
    var s := NatToDecimal(a);
    if a >= 10 && b >= 10 {
      assert s[|s| - 1] == DigitChar(a % 10) == DigitChar(b % 10);
      assert NatToDecimal(a / 10) == s[..|s| - 1] == NatToDecimal(b / 10);
      NatToDecimalInjective(a / 10, b / 10);
    }
  }

  /** Different integers have different decimal renderings. */
  lemma IntToDecimalInjective(a: int, b: int)
    requires IntToDecimal(a) == IntToDecimal(b)
    ensures a == b
  {
    if a < 0 && b < 0 {
      assert NatToDecimal(-a) == IntToDecimal(a)[1..] == NatToDecimal(-b);
      NatToDecimalInjective(-a, -b);
    } else if a >= 0 && b >= 0 {
      NatToDecimalInjective(a, b);
    }
  }
}
