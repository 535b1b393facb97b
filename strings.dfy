/**
 * String helpers shared by the model: decimal rendering of counters,
 * suffix tests and separator joins.
 */
module Strings {

  /** The decimal digit character for d. */
  function DigitChar(d: nat): (c: char)
    requires d < 10
    ensures '0' <= c <= '9'
  {
    "0123456789"[d]
  }

  /** Decimal rendering of a natural number, as PHP's string conversion of an int. */
  function NatToString(n: nat): (s: string)
    ensures |s| >= 1
    ensures forall i :: 0 <= i < |s| ==> '0' <= s[i] <= '9'
    ensures n < 10 <==> |s| == 1
  {
    if n < 10 then [DigitChar(n)] else NatToString(n / 10) + [DigitChar(n % 10)]
  }

  /** PHP's string conversion of an int. */
  function IntToString(n: int): string
  {
    if n < 0 then "-" + NatToString(-n) else NatToString(n)
  }

  lemma DigitCharInjective(a: nat, b: nat)
    requires a < 10 && b < 10
    requires DigitChar(a) == DigitChar(b)
    ensures a == b
  {
  }

  /** Different numbers have different decimal renderings. */
  lemma {:induction false} NatToStringInjective(n: nat, m: nat)
    requires NatToString(n) == NatToString(m)
    ensures n == m
  {
    var s, t := NatToString(n), NatToString(m);
    if n < 10 {
      assert |t| == 1;
      DigitCharInjective(n, m);
    } else {
      assert m >= 10;
      assert s[..|s| - 1] == NatToString(n / 10);
      assert t[..|t| - 1] == NatToString(m / 10);
      NatToStringInjective(n / 10, m / 10);
      assert s[|s| - 1] == DigitChar(n % 10);
      assert t[|t| - 1] == DigitChar(m % 10);
      DigitCharInjective(n % 10, m % 10);
    }
  }

  predicate EndsWith(s: string, suffix: string)
  {
    |suffix| <= |s| && s[|s| - |suffix|..] == suffix
  }

  lemma ConcatAssoc<T>(a: seq<T>, b: seq<T>, c: seq<T>)
    ensures a + (b + c) == (a + b) + c
  {
  }

  /** The parts separated by sep (PHP's implode). */
  function JoinWith(parts: seq<string>, sep: string): (r: string)
    ensures parts == [] ==> r == ""
    ensures |parts| == 1 ==> r == parts[0]
  {
    if parts == [] then ""
    else if |parts| == 1 then parts[0]
    else JoinWith(parts[..|parts| - 1], sep) + sep + parts[|parts| - 1]
  }

  /** Appending one part extends the joined string by a separator and the part. */
  lemma JoinWithSnoc(parts: seq<string>, x: string, sep: string)
    ensures JoinWith(parts + [x], sep) == if parts == [] then x else JoinWith(parts, sep) + sep + x
  {
    assert (parts + [x])[..|parts + [x]| - 1] == parts;
  }

  /** n copies of "?" separated by ",". */
  function Placeholders(n: nat): (r: string)
    ensures n == 0 ==> r == ""
    ensures n > 0 ==> |r| == 2 * n - 1
    ensures forall i :: 0 <= i < |r| ==> r[i] == (if i % 2 == 0 then '?' else ',')
  {
    if n == 0 then "" else if n == 1 then "?" else Placeholders(n - 1) + ",?"
  }

  /** PHP's strtoupper: ASCII lower-case letters become upper-case, all else is kept. */
  function UpperChar(c: char): (u: char)
    ensures 'a' <= c <= 'z' ==> 'A' <= u <= 'Z'
    ensures !('a' <= c <= 'z') ==> u == c
  {
    if 'a' <= c <= 'z' then (c as int - 'a' as int + 'A' as int) as char else c
  }

  function Upper(s: string): (u: string)
    ensures |u| == |s|
    ensures forall i :: 0 <= i < |s| ==> u[i] == UpperChar(s[i])
  {
    seq(|s|, i requires 0 <= i < |s| => UpperChar(s[i]))
  }

  /** The elements of s, last first. */
  function Reverse<T>(s: seq<T>): (r: seq<T>)
    ensures |r| == |s|
    ensures forall i :: 0 <= i < |s| ==> r[i] == s[|s| - 1 - i]
  {
    if s == [] then [] else Reverse(s[1..]) + [s[0]]
  }
}
