/** String helpers the components rely on: JavaScript's decimal rendering of a
    non-negative integer inside a template literal, `String.prototype.startsWith`,
    `indexOf` and `replace` with a string pattern. */
module Text {

  predicate IsDigit(c: char) {
    '0' <= c <= '9'
  }

  function DigitChar(d: nat): (c: char)
    requires d < 10
    ensures IsDigit(c) && c as int - '0' as int == d
  {
    ('0' as int + d) as char
  }

  function DigitValue(c: char): (d: nat)
    requires IsDigit(c)
    ensures d < 10
  {
    c as int - '0' as int
  }

  predicate AllDigits(s: string) {
    forall i :: 0 <= i < |s| ==> IsDigit(s[i])
  }

  /** `${n}` for a non-negative integer n: its shortest decimal numeral. This is
      JavaScript's rendering only below 1e21, from where it switches to exponent
      form; the components render numbers no larger than twelve. */
  function NatToString(n: nat): (s: string)
    ensures |s| >= 1 && AllDigits(s)
    ensures s[0] == '0' ==> n == 0
    ensures n < 10 <==> |s| == 1
    decreases n
  {
    if n < 10 then [DigitChar(n)] else NatToString(n / 10) + [DigitChar(n % 10)]
  }

  /** The value of a numeral read as base ten, most significant digit first. */
  function ParseDecimal(s: string): nat
    requires AllDigits(s)
    decreases |s|
  {
    if s == [] then 0 else ParseDecimal(s[..|s| - 1]) * 10 + DigitValue(s[|s| - 1])
  }

  /** Reading back a rendered number gives the number. */
  lemma {:induction false} ParseNatToString(n: nat)
    ensures ParseDecimal(NatToString(n)) == n
    decreases n
  {
    var s := NatToString(n);
    if n >= 10 {
      assert s[..|s| - 1] == NatToString(n / 10);
      ParseNatToString(n / 10);
    }
  }

  /** Different numbers render as different numerals. */
  lemma NatToStringInjective(m: nat, n: nat)
    ensures NatToString(m) == NatToString(n) ==> m == n
  {
    ParseNatToString(m);
    ParseNatToString(n);
  }

  /** `s.startsWith(prefix)`. */
  predicate StartsWith(s: string, prefix: string)
    ensures StartsWith(s, prefix) <==> |prefix| <= |s| && s == prefix + s[|prefix|..]
    ensures StartsWith(s, prefix) ==> IndexOf(s, prefix) == 0
  {
    |prefix| <= |s| && s[..|prefix|] == prefix
  }

  predicate MatchesAt(s: string, pat: string, j: int) {
    0 <= j && j + |pat| <= |s| && s[j..j + |pat|] == pat
  }

  /** `s.indexOf(pat)`: the first position where `pat` occurs in `s`, or -1. */
  function IndexOf(s: string, pat: string): (r: int)
    ensures r >= -1
    ensures r >= 0 ==> MatchesAt(s, pat, r)
    ensures forall j :: 0 <= j && (r < 0 || j < r) ==> !MatchesAt(s, pat, j)
    decreases |s|
  {
    if |pat| > |s| then -1
    else if s[..|pat|] == pat then 0
    else
      var k := IndexOf(s[1..], pat);
      assert forall j :: 1 <= j ==> (MatchesAt(s, pat, j) <==> MatchesAt(s[1..], pat, j - 1)) by {
        forall j | 1 <= j
          ensures MatchesAt(s, pat, j) <==> MatchesAt(s[1..], pat, j - 1)
        {
          if j + |pat| <= |s| {
            assert s[1..][j - 1..j - 1 + |pat|] == s[j..j + |pat|];
          }
        }
      }
      if k < 0 then -1 else k + 1
  }

  /** `s.replace(pat, rep)` with a string pattern: only the first occurrence is
      replaced, and `s` is returned unchanged when `pat` does not occur. */
  function ReplaceFirst(s: string, pat: string, rep: string): (r: string)
    ensures IndexOf(s, pat) < 0 ==> r == s
    ensures IndexOf(s, pat) >= 0 ==>
      |r| == |s| - |pat| + |rep| && r[..IndexOf(s, pat)] == s[..IndexOf(s, pat)]
    ensures IndexOf(s, pat) >= 0 ==>
      r[IndexOf(s, pat)..IndexOf(s, pat) + |rep|] == rep &&
      r[IndexOf(s, pat) + |rep|..] == s[IndexOf(s, pat) + |pat|..]
  {
    var i := IndexOf(s, pat);
    if i < 0 then s else s[..i] + rep + s[i + |pat|..]
  }

  /** Removing a leading prefix with `replace(prefix, '')` leaves exactly the rest. */
  lemma StripLeadingPrefix(prefix: string, rest: string)
    ensures ReplaceFirst(prefix + rest, prefix, "") == rest
  {
    var s := prefix + rest;
    assert s[..|prefix|] == prefix;
    assert MatchesAt(s, prefix, 0);
    assert s[|prefix|..] == rest;
  }

  /** Fixed text around two fillings is equal only when the fillings are. */
  lemma FramedInjective(pre: string, a: string, b: string, post: string)
    requires pre + a + post == pre + b + post
    ensures a == b
  {
    var s, t := pre + a + post, pre + b + post;
    assert |a| == |b|;
    assert a == s[|pre|..|pre| + |a|];
    assert b == t[|pre|..|pre| + |b|];
  }
}
