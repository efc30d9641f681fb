/**
 * Money as integer cents. The decimal(10,2) columns and JavaScript's
 * toFixed(2) both render an amount as its whole part, a point and exactly
 * two fraction digits; FormatCents is that rendering and ParseCents reads it
 * back.
 */
module Money {
  import opened Wrappers
  import opened Digits

  /** An amount of money in cents. */
  type Cents = int

  /** s has the shape [-]digits.dd: a single point followed by exactly two digits. */
  predicate HasTwoDecimals(s: string) {
    |s| >= 4 && s[|s| - 3] == '.' && IsDigit(s[|s| - 2]) && IsDigit(s[|s| - 1])
    && (forall i :: 0 <= i < |s| - 3 ==> IsDigit(s[i]) || (i == 0 && s[i] == '-'))
  }

  function Abs(c: int): nat { if c < 0 then -c else c }

  function FormatCents(c: Cents): (s: string)
    ensures HasTwoDecimals(s)
    ensures (s[0] == '-') <==> c < 0
  {
    var a := Abs(c);
    (if c < 0 then "-" else "") + ShowNat(a / 100) + "." + [DigitChar(a % 100 / 10), DigitChar(a % 10)]
  }

  /** Reads [-]digits.dd; anything else is rejected. */
  function ParseCents(s: string): Option<Cents> {
    var neg := |s| > 0 && s[0] == '-';
    var body := if neg then s[1..] else s;
    match ReadNat(body)
    case None => None
    case Some((whole, rest)) =>
      if |rest| == 3 && rest[0] == '.' && IsDigit(rest[1]) && IsDigit(rest[2]) then
        var v := whole * 100 + DigitValue(rest[1]) * 10 + DigitValue(rest[2]);
        Some(if neg then -v else v)
      else None
  }

  /** Formatting then parsing gives back the amount. */
  lemma FormatParse(c: Cents)
    ensures ParseCents(FormatCents(c)) == Some(c)
  {
    var a := Abs(c);
    var frac := "." + [DigitChar(a % 100 / 10), DigitChar(a % 10)];
    var body := ShowNat(a / 100) + frac;
    ReadShowNat(a / 100, frac);
    assert |frac| == 3 && frac[0] == '.' && frac[1] == DigitChar(a % 100 / 10) && frac[2] == DigitChar(a % 10);
    SplitCents(a);
    if c < 0 {
      assert FormatCents(c) == "-" + body;
      assert ("-" + body)[1..] == body;
    } else {
      assert FormatCents(c) == body;
    }
  }

  /** An amount is its whole part, its tens of cents and its cents. */
  lemma SplitCents(a: nat)
    ensures (a / 100) * 100 + (a % 100 / 10) * 10 + a % 10 == a
  {
    var q, r := a / 100, a % 100;
    assert a == q * 100 + r;
    var t, u := r / 10, r % 10;
    assert r == t * 10 + u;
    assert a == (q * 10 + t) * 10 + u;
    assert a % 10 == u;
  }

  /** Different amounts have different renderings. */
  lemma FormatInjective(c: Cents, d: Cents)
    requires FormatCents(c) == FormatCents(d)
    ensures c == d
  {
    FormatParse(c);
    FormatParse(d);
  }
}
