/**
 * String helpers shared by the dashboard and the quality check: the
 * substring test of JavaScript's `String.prototype.includes` and the
 * decimal rendering of a natural number used inside template literals
 * and f-strings.
 */
module Text {

  /** `s.includes(p)`: some window of `s` equals `p`. */
  predicate Contains(s: string, p: string)
  {
    exists i {:trigger s[i..]} :: 0 <= i <= |s| - |p| && s[i..][..|p|] == p
  }

  /** A text that lacks one of the pattern's characters cannot contain it. */
  lemma AbsentChar(s: string, p: string, c: char)
    requires c in p && c !in s
    ensures !Contains(s, p)
  {
  }

  /** Every string contains each of its own infixes. */
  lemma ContainsInfix(a: string, p: string, b: string)
    ensures Contains(a + p + b, p)
  {
    var s := a + p + b;
    assert s[|a|..][..|p|] == p;
  }

  /**
   * A prefix that lacks one of the pattern's characters and ends in a
   * character the pattern does not use adds no occurrence of the pattern.
   */
  lemma ContainsAfterPrefix(q: string, m: string, p: string, c: char)
    requires |q| > 0 && q[|q| - 1] !in p
    requires c in p && c !in q
    ensures Contains(q + m, p) <==> Contains(m, p)
  {
    var s := q + m;
    if Contains(s, p) {
      var i :| 0 <= i <= |s| - |p| && s[i..][..|p|] == p;
      var j :| 0 <= j < |p| && p[j] == c;
      WindowAt(s, p, i, j);
      if i < |q| {
        WindowAt(s, p, i, |q| - 1 - i);
        assert false;
      }
      assert m[i - |q|..][..|p|] == p;
    }
    if Contains(m, p) {
      var i :| 0 <= i <= |m| - |p| && m[i..][..|p|] == p;
      assert s[i + |q|..][..|p|] == p;
    }
  }

  /** The characters of a matching window are the pattern's. */
  lemma WindowAt(s: string, p: string, i: int, k: int)
    requires 0 <= i <= |s| - |p| && s[i..][..|p|] == p
    requires 0 <= k < |p|
    ensures s[i + k] == p[k]
  {
  }

  function Digit(d: nat): (c: char)
    requires d < 10
    ensures '0' <= c <= '9' && c as int - '0' as int == d
  {
    ['0', '1', '2', '3', '4', '5', '6', '7', '8', '9'][d]
  }

  /** The number a string of decimal digits denotes. */
  function DigitsValue(s: string): nat
    requires forall i :: 0 <= i < |s| ==> '0' <= s[i] <= '9'
  {
    if s == [] then 0
    else DigitsValue(s[..|s| - 1]) * 10 + (s[|s| - 1] as int - '0' as int)
  }

  /** The decimal text of `n`, as `${n}` renders it. */
  function NatToString(n: nat): (s: string)
    ensures s != []
    ensures forall i :: 0 <= i < |s| ==> '0' <= s[i] <= '9'
  {
    if n < 10 then [Digit(n)] else NatToString(n / 10) + [Digit(n % 10)]
  }

  /** The rendered digits denote `n`, with no leading zero. */
  lemma {:induction false} NatToStringValue(n: nat)
    ensures DigitsValue(NatToString(n)) == n
    ensures n > 0 ==> NatToString(n)[0] != '0'
  {
    if n >= 10 {
      NatToStringValue(n / 10);
      var init := NatToString(n / 10);
      var s := NatToString(n);
      assert s == init + [Digit(n % 10)];
      assert s[..|s| - 1] == init;
    }
  }
}
