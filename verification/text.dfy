/** Decimal integers and string fields as Java prints and parses them:
    Integer.toString, Integer.parseInt (32-bit range, optional sign) and
    splitting a line at a separator character. */
module Text {
  import opened Outcomes

  const INT_MIN: int := -0x8000_0000
  const INT_MAX: int := 0x7fff_ffff

  predicate IsInt32(i: int) {
    INT_MIN <= i <= INT_MAX
  }

  /** Two's-complement wrap-around of a Java int. */
  function Wrap32(x: int): (r: int)
    ensures IsInt32(r)
    ensures IsInt32(x) ==> r == x
  {
    (x - INT_MIN) % 0x1_0000_0000 + INT_MIN
  }

  predicate IsDigit(c: char) {
    '0' <= c <= '9'
  }

  predicate AllDigits(s: string) {
    forall i :: 0 <= i < |s| ==> IsDigit(s[i])
  }

  function DigitChar(d: nat): (c: char)
    requires d < 10
    ensures IsDigit(c)
  {
    (('0' as int) + d) as char
  }

  function DigitValue(c: char): (d: nat)
    requires IsDigit(c)
    ensures d < 10
  {
    c as int - '0' as int
  }

  /** Decimal form of n, most significant digit first, no leading zeros. */
  function NatToString(n: nat): (s: string)
    ensures |s| > 0 && AllDigits(s)
    ensures s[0] == '0' ==> n == 0
  {
    if n < 10 then [DigitChar(n)] else NatToString(n / 10) + [DigitChar(n % 10)]
  }

  /** Value of a string of decimal digits; leading zeros are allowed. */
  function DigitsValue(s: string): nat
    requires AllDigits(s)
  {
    if s == [] then 0 else DigitsValue(s[..|s| - 1]) * 10 + DigitValue(s[|s| - 1])
  }

  lemma {:induction false} DigitsValueOfNatToString(n: nat)
    ensures DigitsValue(NatToString(n)) == n
  {
    var s := NatToString(n);
    if n >= 10 {
      DigitsValueOfNatToString(n / 10);
      assert s[..|s| - 1] == NatToString(n / 10);
    }
  }

  /** Integer.toString: a minus sign for negative values, then the digits. */
  function IntToString(i: int): string {
    if i < 0 then "-" + NatToString(-i) else NatToString(i)
  }

  /** Integer.parseInt: an optional '+' or '-' and one or more decimal digits whose
      value lies in the 32-bit range; anything else fails (NumberFormatException). */
  function ParseInt(s: string): (r: Option<int>)
    ensures r.Some? ==> IsInt32(r.value)
    ensures r.Some? ==> |s| > 0
  {
    if |s| > 1 && (s[0] == '-' || s[0] == '+') && AllDigits(s[1..]) then
      var d: int := DigitsValue(s[1..]);
      var v := if s[0] == '-' then -d else d;
      if IsInt32(v) then Some(v) else None
    else if |s| > 0 && AllDigits(s) then
      var v := DigitsValue(s);
      if IsInt32(v) then Some(v) else None
    else
      None
  }

  /** What Java prints for an int, parseInt reads back. */
  lemma ParseIntOfIntToString(i: int)
    requires IsInt32(i)
    ensures ParseInt(IntToString(i)) == Some(i)
  {
    var s := IntToString(i);
    if i < 0 {
      var digits := NatToString(-i);
      assert s[1..] == digits;
      DigitsValueOfNatToString(-i);
      assert s[0] == '-' && |s| > 1 && AllDigits(s[1..]);
    } else {
      DigitsValueOfNatToString(i);
      assert IsDigit(s[0]);
    }
  }

  lemma IntToStringInjective(i: int, j: int)
    requires IsInt32(i) && IsInt32(j)
    requires IntToString(i) == IntToString(j)
    ensures i == j
  {
    ParseIntOfIntToString(i);
    ParseIntOfIntToString(j);
  }

  /** A non-negative number prints as digits only (no sign, no separator). */
  lemma NonNegativeIntToString(i: int)
    requires i >= 0
    ensures IntToString(i) == NatToString(i)
    ensures |IntToString(i)| > 0 && AllDigits(IntToString(i))
  {
  }

  /** Index of the first occurrence of c in s. */
  function IndexOf(s: string, c: char): (k: nat)
    requires c in s
    ensures k < |s| && s[k] == c && c !in s[..k]
  {
    if s[0] == c then 0 else 1 + IndexOf(s[1..], c)
  }

  /** The fields of s between occurrences of sep: every field, empty ones included, a
      trailing empty field too (like split(sep, -1), not like a plain split, which drops
      trailing empty fields). */
  function Split(s: string, sep: char): (r: seq<string>)
    ensures |r| > 0
    decreases |s|
  {
    if sep !in s then [s]
    else
      var k := IndexOf(s, sep);
      [s[..k]] + Split(s[k + 1..], sep)
  }

  lemma SplitFirst(a: string, sep: char, b: string)
    requires sep !in a
    ensures Split(a + [sep] + b, sep) == [a] + Split(b, sep)
  {
    var s := a + [sep] + b;
    assert s[|a|] == sep;
    assert s[..|a|] == a;
    var k := IndexOf(s, sep);
    assert s[..k] == a;
    assert s[k + 1..] == b;
  }

  lemma SplitNone(a: string, sep: char)
    requires sep !in a
    ensures Split(a, sep) == [a]
  {
  }

  lemma DigitsHaveNoSeparator(s: string, sep: char)
    requires AllDigits(s) && !IsDigit(sep)
    ensures sep !in s
  {
    forall k | 0 <= k < |s| ensures s[k] != sep {
      assert IsDigit(s[k]);
    }
  }
}
