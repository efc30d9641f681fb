/**
 * Decimal digit strings: rendering a natural number and reading the
 * longest run of decimal digits at the front of a string.
 */
module Digits {
  import opened Wrappers

  predicate IsDigit(c: char) { '0' <= c <= '9' }

  predicate AllDigits(s: string) { forall i :: 0 <= i < |s| ==> IsDigit(s[i]) }

  function DigitValue(c: char): (d: nat)
    requires IsDigit(c)
    ensures d < 10
  {
    c as int - '0' as int
  }

  function DigitChar(d: nat): (c: char)
    requires d < 10
    ensures IsDigit(c) && DigitValue(c) == d
  {
    ('0' as int + d) as char
  }

  /** The shortest decimal rendering of n, as JavaScript's String(n) gives it. */
  function ShowNat(n: nat): (s: string)
    ensures |s| >= 1 && AllDigits(s)
    ensures n > 0 ==> s[0] != '0'
    decreases n
  {
    if n < 10 then [DigitChar(n)] else ShowNat(n / 10) + [DigitChar(n % 10)]
  }

  /** The value of the digits ds read left to right, starting from acc. */
  function FoldDigits(ds: string, acc: nat): nat
    requires AllDigits(ds)
    decreases |ds|
  {
    if ds == [] then acc else FoldDigits(ds[1..], acc * 10 + DigitValue(ds[0]))
  }

  /** Consumes the longest digit prefix of s, returning its value and the rest. */
  function ReadDigits(s: string, acc: nat): (nat, string)
    decreases |s|
  {
    if |s| > 0 && IsDigit(s[0]) then ReadDigits(s[1..], acc * 10 + DigitValue(s[0])) else (acc, s)
  }

  /** A natural number written in decimal at the front of s, with what follows it. */
  function ReadNat(s: string): (r: Option<(nat, string)>)
    ensures r.Some? ==> |r.value.1| < |s|
    ensures r.Some? ==> |r.value.1| == 0 || !IsDigit(r.value.1[0])
  {
    if |s| > 0 && IsDigit(s[0]) then
      ReadDigitsShrinks(s, 0);
      Some(ReadDigits(s, 0))
    else None
  }

  lemma {:induction false} ReadDigitsShrinks(s: string, acc: nat)
    ensures |ReadDigits(s, acc).1| <= |s|
    ensures |s| > 0 && IsDigit(s[0]) ==> |ReadDigits(s, acc).1| < |s|
    ensures |ReadDigits(s, acc).1| == 0 || !IsDigit(ReadDigits(s, acc).1[0])
    decreases |s|
  {
    if |s| > 0 && IsDigit(s[0]) {
      ReadDigitsShrinks(s[1..], acc * 10 + DigitValue(s[0]));
    }
  }

  lemma {:induction false} FoldDigitsSnoc(ds: string, d: char, acc: nat)
    requires AllDigits(ds) && IsDigit(d)
    ensures AllDigits(ds + [d])
    ensures FoldDigits(ds + [d], acc) == FoldDigits(ds, acc) * 10 + DigitValue(d)
    decreases |ds|
  {
    if ds != [] {
      assert (ds + [d])[1..] == ds[1..] + [d];
      FoldDigitsSnoc(ds[1..], d, acc * 10 + DigitValue(ds[0]));
    }
  }

  lemma {:induction false} ReadDigitsAppend(ds: string, rest: string, acc: nat)
    requires AllDigits(ds)
    ensures ReadDigits(ds + rest, acc) == ReadDigits(rest, FoldDigits(ds, acc))
    decreases |ds|
  {
    if ds == [] {
      assert ds + rest == rest;
    } else {
      assert (ds + rest)[1..] == ds[1..] + rest;
      ReadDigitsAppend(ds[1..], rest, acc * 10 + DigitValue(ds[0]));
    }
  }

  lemma {:induction false} ShowNatValue(n: nat)
    ensures FoldDigits(ShowNat(n), 0) == n
    decreases n
  {
    if n >= 10 {
      ShowNatValue(n / 10);
      FoldDigitsSnoc(ShowNat(n / 10), DigitChar(n % 10), 0);
    }
  }

  /** Reading back what ShowNat wrote gives the number and leaves the rest untouched. */
  lemma {:induction false} ReadShowNat(n: nat, rest: string)
    requires rest == [] || !IsDigit(rest[0])
    ensures ReadNat(ShowNat(n) + rest) == Some((n, rest))
  {
    ReadDigitsAppend(ShowNat(n), rest, 0);
    ShowNatValue(n);
  }

  /** ShowNat is injective: different numbers have different renderings. */
  lemma ShowNatInjective(m: nat, n: nat)
    requires ShowNat(m) == ShowNat(n)
    ensures m == n
  {
    ShowNatValue(m);
    ShowNatValue(n);
  }
}
