/**
 * JSON values as they arrive in a request body, with JavaScript numbers
 * held exactly as finite decimals.
 */
module Json {
  import opened Digits

  function Pow10(k: nat): (p: nat)
    ensures p >= 1
  {
    if k == 0 then 1 else 10 * Pow10(k - 1)
  }

  /** The number mantissa / 10^scale. */
  datatype Num = Num(mantissa: int, scale: nat) {
    predicate IsInteger() { mantissa % Pow10(scale) == 0 }
    /** The number is at least k. */
    predicate AtLeast(k: int) { mantissa >= k * Pow10(scale) }
  }

  function FromInt(i: int): (n: Num)
    ensures n.IsInteger()
  {
    Num(i, 0)
  }

  datatype Json =
    | JNull
    | JBool(b: bool)
    | JNum(n: Num)
    | JStr(s: string)
    | JArr(elems: seq<Json>)
    | JObj(fields: map<string, Json>)

  /** Decimal rendering of an integer, as String(i) gives it. */
  function ShowInt(i: int): (s: string)
    ensures |s| >= 1
  {
    if i < 0 then "-" + ShowNat(-i) else ShowNat(i)
  }

  /** Drops trailing zero fraction digits: the same number, on the smallest scale. */
  function Normalize(n: Num): (r: Num)
    ensures r.scale <= n.scale
    ensures r.mantissa * Pow10(n.scale - r.scale) == n.mantissa
    ensures r.scale > 0 ==> r.mantissa % 10 != 0
    decreases n.scale
  {
    if n.scale > 0 && n.mantissa % 10 == 0 then
      var r := Normalize(Num(n.mantissa / 10, n.scale - 1));
      assert Pow10(n.scale - r.scale) == 10 * Pow10(n.scale - 1 - r.scale);
      r
    else n
  }

  function PadZeros(s: string, width: nat): (r: string)
    ensures |r| >= width && |r| >= |s|
    decreases width - |s|
  {
    if |s| >= width then s else PadZeros("0" + s, width)
  }

  /**
   * String(n) for a JavaScript number in fixed notation: no trailing zero
   * fraction digits and no point for whole numbers.
   */
  function NumToString(n: Num): string {
    Render(Normalize(n))
  }

  /** m written with m.scale fraction digits, or as a whole number when its scale is 0. */
  function Render(m: Num): string {
    var a: nat := if m.mantissa < 0 then -m.mantissa else m.mantissa;
    var p := Pow10(m.scale);
    NatDivMod(a, p);
    (if m.mantissa < 0 then "-" else "")
    + ShowNat(a / p)
    + (if m.scale == 0 then "" else "." + PadZeros(ShowNat(a % p), m.scale))
  }

  lemma NatDivMod(a: nat, p: nat)
    requires p >= 1
    ensures a / p >= 0 && a % p >= 0
  {
  }

  lemma MulDivExact(q: int, p: int)
    requires p > 0
    ensures (q * p) / p == q && (q * p) % p == 0
  {
    var d, r := (q * p) / p, (q * p) % p;
    assert p * (q - d) == r;
    if q - d >= 1 {
      assert false;
    } else if q - d <= -1 {
      assert false;
    }
  }

  lemma NormalizeStep(m: int, p: int)
    requires p >= 1 && m % (10 * p) == 0
    ensures m % 10 == 0 && (m / 10) % p == 0 && (m / 10) / p == m / (10 * p)
  {
    var q := m / (10 * p);
    assert m == q * (10 * p);
    assert m == (q * p) * 10;
    MulDivExact(q * p, 10);
    MulDivExact(q, p);
  }

  lemma {:induction false} NormalizeInteger(n: Num)
    requires n.IsInteger()
    ensures Normalize(n) == Num(n.mantissa / Pow10(n.scale), 0)
    decreases n.scale
  {
    if n.scale > 0 {
      var p := Pow10(n.scale - 1);
      assert Pow10(n.scale) == 10 * p;
      NormalizeStep(n.mantissa, p);
      NormalizeInteger(Num(n.mantissa / 10, n.scale - 1));
    }
  }

  /** A whole number renders exactly as the integer it is, whatever scale it is written on. */
  lemma {:induction false} NumToStringInteger(n: Num)
    requires n.IsInteger()
    ensures NumToString(n) == ShowInt(n.mantissa / Pow10(n.scale))
  {
    NormalizeInteger(n);
  }
}
