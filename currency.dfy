/**
 * `formatCurrency`: integer cents rendered as dollars with two decimals,
 * or "N/A" for a missing amount. For integer cents of magnitude below
 * 2^52 the double nearest `cents / 100` lies within 0.005 of it, so
 * `toFixed(2)` gives the cents exactly, with the minus sign (for a
 * negative amount) after the dollar sign.
 */
module Currency {
  import opened Wrappers
  import opened Text

  function Abs(c: int): nat {
    if c < 0 then -c else c
  }

  /** The two-digit fraction of `n` cents, including a leading zero. */
  function TwoDigits(n: nat): (s: string)
    requires n < 100
    ensures |s| == 2 && AllDigits(s)
    ensures 10 * DigitValue(s[0]) + DigitValue(s[1]) == n
  {
    [DigitChar(n / 10), DigitChar(n % 10)]
  }

  function FormatCurrency(cents: Option<int>): (r: string)
    ensures cents.None? ==> r == "N/A"
    ensures cents.Some? ==> |r| >= 5 && r[0] == '$' && r[|r| - 3] == '.' && IsDigit(r[|r| - 2]) && IsDigit(r[|r| - 1])
    ensures cents.Some? ==> (r[1] == '-' <==> cents.value < 0)
  {
    match cents
    case None => "N/A"
    case Some(c) =>
      "$" + (if c < 0 then "-" else "") + NatToDecimal(Abs(c) / 100) + "." + TwoDigits(Abs(c) % 100)
  }

  /** Reads back what `FormatCurrency` writes: "$", an optional "-", dollars, ".", two digits. */
  function ParseCurrency(s: string): Option<int> {
    if |s| < 5 || s[0] != '$' || s[|s| - 3] != '.' || !IsDigit(s[|s| - 2]) || !IsDigit(s[|s| - 1]) then None
    else
      var neg := s[1] == '-';
      var whole := s[if neg then 2 else 1 .. |s| - 3];
      if |whole| == 0 || !AllDigits(whole) then None
      else
        var v := 100 * DecimalValue(whole) + 10 * DigitValue(s[|s| - 2]) + DigitValue(s[|s| - 1]);
        Some(if neg then -v else v)
  }

  /** Formatting loses nothing: the amount is read back exactly. */
  lemma FormatRoundTrip(c: int)
    ensures ParseCurrency(FormatCurrency(Some(c))) == Some(c)
  {
    var sign := if c < 0 then "-" else "";
    var w := NatToDecimal(Abs(c) / 100);
    var f := TwoDigits(Abs(c) % 100);
    var s := FormatCurrency(Some(c));
    assert s == "$" + sign + w + "." + f;
    var start := if c < 0 then 2 else 1;
    assert s[start..|s| - 3] == w;
    assert s[|s| - 2] == f[0] && s[|s| - 1] == f[1];
    DecimalRoundTrip(Abs(c) / 100);
  }

  /** Two different amounts never render the same. */
  lemma FormatInjective(a: int, b: int)
    requires FormatCurrency(Some(a)) == FormatCurrency(Some(b))
    ensures a == b
  {
    FormatRoundTrip(a);
    FormatRoundTrip(b);
  }

  /** An amount and a missing amount never render the same. */
  lemma FormatNeverNA(c: int)
    ensures FormatCurrency(Some(c)) != "N/A"
  {
    assert FormatCurrency(Some(c))[0] == '$';
  }

  /** The minus sign follows the dollar sign: -150 cents is "$-1.50". */
  lemma NegativeExample()
    ensures FormatCurrency(Some(-150)) == "$-1.50"
  {
    assert NatToDecimal(1) == "1";
    assert TwoDigits(50) == "50";
  }

  /** A whole number of dollars keeps its two zeros: 1000 cents is "$10.00". */
  lemma WholeDollarsExample()
    ensures FormatCurrency(Some(1000)) == "$10.00"
  {
    assert NatToDecimal(10) == "10" by {
      assert NatToDecimal(1) == "1";
    }
    assert TwoDigits(0) == "00";
  }
}
