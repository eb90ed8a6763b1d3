/** Small helpers shared by the other modules: an optional value (for JavaScript's
    null/undefined), ASCII lower-casing, substring search, and the decimal rendering
    that JavaScript's String(number) gives for the numbers this program uses. */
module Options {
  datatype Option<+T> = None | Some(value: T)
}

module Text {

  function LowerChar(c: char): char {
    if 'A' <= c <= 'Z' then (c as int + 32) as char else c
  }

  /** ASCII lower-casing of a whole string, character by character. */
  function Lower(s: string): (r: string)
    ensures |r| == |s|
    ensures forall i :: 0 <= i < |s| ==> r[i] == LowerChar(s[i])
  {
    seq(|s|, i requires 0 <= i < |s| => LowerChar(s[i]))
  }

  lemma LowerIdempotent(s: string)
    ensures Lower(Lower(s)) == Lower(s)
  {
  }

  /** `t.includes(p)`: true when p occurs in t at some position (the empty pattern
      occurs everywhere). */
  function Contains(t: string, p: string): (b: bool)
    ensures b <==> exists i :: 0 <= i <= |t| && p <= t[i..]
    decreases |t|
  {
    if p <= t then assert t[0..] == t; true
    else if t == [] then false
    else
      var r := Contains(t[1..], p);
      assert forall i :: 1 <= i <= |t| ==> t[i..] == t[1..][i - 1..];
      assert r ==> exists i :: 0 <= i <= |t[1..]| && p <= t[1..][i..];
      r
  }

  /** A pattern holding a character the text lacks does not occur in it. */
  lemma AbsentCharNotContained(t: string, p: string, c: char)
    requires c in p && c !in t
    ensures !Contains(t, p)
  {
    var k :| 0 <= k < |p| && p[k] == c;
    forall i | 0 <= i <= |t|
      ensures !(p <= t[i..])
    {
      if k < |t| - i {
        assert t[i..][k] == t[i + k];
      }
    }
  }

  lemma PrefixContained(t: string, p: string)
    requires p <= t
    ensures Contains(t, p)
  {
    assert t[0..] == t;
  }

  function DigitChar(d: nat): (c: char)
    requires d < 10
    ensures '0' <= c <= '9'
  {
    (('0' as int) + d) as char
  }

  /** Decimal digits of n, most significant first, without leading zeros. */
  function NatToString(n: nat): (s: string)
    ensures 1 <= |s|
    ensures forall i :: 0 <= i < |s| ==> '0' <= s[i] <= '9'
    ensures n < 10 <==> |s| == 1
  {
    if n < 10 then [DigitChar(n)] else NatToString(n / 10) + [DigitChar(n % 10)]
  }

  /** String(i) for an integer. */
  function IntToString(i: int): string {
    if i < 0 then "-" + NatToString(-i) else NatToString(i)
  }

  /** String(t / 10) for a number held as a count of tenths: "40", "35.5", "-0.5". */
  function TenthsToString(t: int): (s: string)
    ensures 1 <= |s|
    ensures s[0] == '-' <==> t < 0
    ensures '.' in s <==> t % 10 != 0
  {
    var a := if t < 0 then -t else t;
    (if t < 0 then "-" else "")
      + NatToString(a / 10)
      + (if a % 10 == 0 then "" else "." + [DigitChar(a % 10)])
  }
}
