/**
 * The panel titles, f-strings over the current filter values, and the
 * decimal rendering of an `int` that `f'{years[1]}'` performs.
 */
module Titles {
  import opened Table

  predicate IsDigit(c: char) {
    '0' <= c <= '9'
  }

  function DigitChar(d: nat): (c: char)
    requires d < 10
    ensures IsDigit(c)
  {
    ('0' as int + d) as char
  }

  function DigitValue(c: char): (d: nat)
    requires IsDigit(c)
    ensures d < 10
  {
    (c as int - '0' as int) as nat
  }

  /** Decimal digits of `n`, most significant first, without leading zeros. */
  function NatToString(n: nat): (s: string)
    ensures |s| >= 1
    ensures forall i :: 0 <= i < |s| ==> IsDigit(s[i])
    ensures s[0] == '0' ==> n == 0
  {
    if n < 10 then [DigitChar(n)] else NatToString(n / 10) + [DigitChar(n % 10)]
  }

  /** `str(i)` for a Python `int`: a minus sign for negative values, then the digits. */
  function IntToString(i: int): string {
    if i < 0 then "-" + NatToString(-i) else NatToString(i)
  }

  /** Reads back a string of decimal digits. */
  function ParseNat(s: string): nat
    requires forall i :: 0 <= i < |s| ==> IsDigit(s[i])
  {
    if s == [] then 0 else ParseNat(s[..|s| - 1]) * 10 + DigitValue(s[|s| - 1])
  }

  /** Reads back an optional minus sign and decimal digits; `None` for anything else. */
  function ParseInt(s: string): Option<int> {
    if |s| > 0 && s[0] == '-' then
      if |s| > 1 && forall i :: 1 <= i < |s| ==> IsDigit(s[i]) then
        var magnitude: int := ParseNat(s[1..]);
        Some(-magnitude)
      else None
    else if |s| > 0 && forall i :: 0 <= i < |s| ==> IsDigit(s[i]) then Some(ParseNat(s))
    else None
  }

  lemma {:induction false} ParseNatToString(n: nat)
    ensures ParseNat(NatToString(n)) == n
  {
    if n >= 10 {
      var s := NatToString(n);
      ParseNatToString(n / 10);
      assert s[..|s| - 1] == NatToString(n / 10);
    }
  }

  /** The year printed in a title is read back exactly: the rendering loses nothing. */
  lemma IntToStringRoundTrip(i: int)
    ensures ParseInt(IntToString(i)) == Some(i)
  {
    var s := IntToString(i);
    if i < 0 {
      ParseNatToString(-i);
      assert s[1..] == NatToString(-i);
    } else {
      ParseNatToString(i);
    }
  }

  const LinePrefix := "Comparison of "
  const LineSuffix := " over time"
  const BubblePrefix := "Bubble Chart for "
  const BarPrefix := "Top 15 Countries by Population in "
  const PiePrefix := "Population by Continent in "

  /** `f'Comparison of {y_axis} over time'`: the y-axis column name, verbatim, between the fixed words. */
  function LineTitle(yAxis: string): (r: string)
    ensures |r| == |LinePrefix| + |yAxis| + |LineSuffix|
    ensures r[..|LinePrefix|] == LinePrefix
    ensures r[|LinePrefix|..|r| - |LineSuffix|] == yAxis
    ensures r[|r| - |LineSuffix|..] == LineSuffix
  {
    LinePrefix + yAxis + LineSuffix
  }

  /** `f'Bubble Chart for {years[1]}'`: the upper slider bound, read back exactly after the fixed words. */
  function BubbleTitle(years: YearRange): (r: string)
    ensures |BubblePrefix| <= |r| && r[..|BubblePrefix|] == BubblePrefix
    ensures ParseInt(r[|BubblePrefix|..]) == Some(years.hi)
  {
    IntToStringRoundTrip(years.hi);
    var r := BubblePrefix + IntToString(years.hi);
    assert r[|BubblePrefix|..] == IntToString(years.hi);
    r
  }

  /** `f'Top 15 Countries by Population in {years[1]}'`: the upper slider bound, read back exactly after the fixed words. */
  function BarTitle(years: YearRange): (r: string)
    ensures |BarPrefix| <= |r| && r[..|BarPrefix|] == BarPrefix
    ensures ParseInt(r[|BarPrefix|..]) == Some(years.hi)
  {
    IntToStringRoundTrip(years.hi);
    var r := BarPrefix + IntToString(years.hi);
    assert r[|BarPrefix|..] == IntToString(years.hi);
    r
  }

  /** `f'Population by Continent in {years[1]}'`: the upper slider bound, read back exactly after the fixed words. */
  function PieTitle(years: YearRange): (r: string)
    ensures |PiePrefix| <= |r| && r[..|PiePrefix|] == PiePrefix
    ensures ParseInt(r[|PiePrefix|..]) == Some(years.hi)
  {
    IntToStringRoundTrip(years.hi);
    var r := PiePrefix + IntToString(years.hi);
    assert r[|PiePrefix|..] == IntToString(years.hi);
    r
  }
}
