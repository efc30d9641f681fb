/**
 * The text the cart is saved as in its browser storage slot. Every field is self-delimiting: an
 * integer is a sign, its digits and ';'; a string is its length, ':' and its characters; a missing
 * image is 'n' and a present one 's' and the string; each line starts with ',' and the list ends
 * with '.'.
 */
module CartCodec {
  import opened Wrappers
  import opened Digits
  import opened Money
  import opened Schema

  function EncInt(n: int): string {
    (if n < 0 then "-" else "+") + ShowNat(if n < 0 then -n else n) + ";"
  }

  function EncStr(s: string): string { ShowNat(|s|) + ":" + s }

  function EncOpt(o: Option<string>): string {
    if o.None? then "n" else "s" + EncStr(o.value)
  }

  function EncItem(c: CartItem): string {
    EncInt(c.productId) + (EncStr(c.name) + (EncInt(c.price) + (EncOpt(c.imageUrl) + EncInt(c.quantity))))
  }

  function Serialize(items: seq<CartItem>): string {
    if items == [] then "." else "," + EncItem(items[0]) + Serialize(items[1..])
  }

  // Each decoder reads one value from the front and returns what is left.

  function DecInt(s: string): (r: Option<(int, string)>)
    ensures r.Some? ==> |r.value.1| < |s|
  {
    if |s| == 0 || (s[0] != '-' && s[0] != '+') then None
    else match ReadNat(s[1..])
      case None => None
      case Some((n, rest)) =>
        if |rest| == 0 || rest[0] != ';' then None
        else var v: int := n; Some((if s[0] == '-' then -v else v, rest[1..]))
  }

  function DecStr(s: string): (r: Option<(string, string)>)
    ensures r.Some? ==> |r.value.1| < |s|
  {
    match ReadNat(s)
    case None => None
    case Some((n, rest)) =>
      if |rest| == 0 || rest[0] != ':' || |rest| - 1 < n then None
      else Some((rest[1..n + 1], rest[n + 1..]))
  }

  function DecOpt(s: string): (r: Option<(Option<string>, string)>)
    ensures r.Some? ==> |r.value.1| < |s|
  {
    if |s| == 0 then None
    else if s[0] == 'n' then Some((None, s[1..]))
    else if s[0] != 's' then None
    else match DecStr(s[1..])
      case None => None
      case Some((v, rest)) => Some((Some(v), rest))
  }

  function DecItem(s: string): (r: Option<(CartItem, string)>)
    ensures r.Some? ==> |r.value.1| < |s|
  {
    match DecInt(s)
    case None => None
    case Some((id, s1)) =>
      match DecStr(s1)
      case None => None
      case Some((name, s2)) =>
        match DecInt(s2)
        case None => None
        case Some((price, s3)) =>
          match DecOpt(s3)
          case None => None
          case Some((image, s4)) =>
            match DecInt(s4)
            case None => None
            case Some((q, s5)) => Some((CartItem(id, name, price, image, q), s5))
  }

  /** Reads a whole saved cart; None when the text is not one, including text with anything after it. */
  function Parse(s: string): Option<seq<CartItem>>
    decreases |s|
  {
    if s == "." then Some([])
    else if |s| == 0 || s[0] != ',' then None
    else match DecItem(s[1..])
      case None => None
      case Some((x, rest)) =>
        match Parse(rest)
        case None => None
        case Some(xs) => Some([x] + xs)
  }

  // ---- round trips

  lemma DecEncInt(n: int, rest: string)
    ensures DecInt(EncInt(n) + rest) == Some((n, rest))
  {
    var m: nat := if n < 0 then -n else n;
    var s := EncInt(n) + rest;
    assert s[1..] == ShowNat(m) + (";" + rest);
    ReadShowNat(m, ";" + rest);
  }

  lemma DecEncStr(t: string, rest: string)
    ensures DecStr(EncStr(t) + rest) == Some((t, rest))
  {
    var s := EncStr(t) + rest;
    assert s == ShowNat(|t|) + (":" + t + rest);
    ReadShowNat(|t|, ":" + t + rest);
    var r := ":" + t + rest;
    assert r[1..|t| + 1] == t && r[|t| + 1..] == rest;
  }

  lemma DecEncOpt(o: Option<string>, rest: string)
    ensures DecOpt(EncOpt(o) + rest) == Some((o, rest))
  {
    var s := EncOpt(o) + rest;
    if o.Some? {
      assert s == "s" + (EncStr(o.value) + rest);
      assert s[0] == 's' && s[1..] == EncStr(o.value) + rest;
      DecEncStr(o.value, rest);
    } else {
      assert s == "n" + rest;
      assert s[0] == 'n' && s[1..] == rest;
    }
  }

  lemma DecEncItem(c: CartItem, rest: string)
    ensures DecItem(EncItem(c) + rest) == Some((c, rest))
  {
    var s4 := EncInt(c.quantity) + rest;
    var s3 := EncOpt(c.imageUrl) + s4;
    var s2 := EncInt(c.price) + s3;
    var s1 := EncStr(c.name) + s2;
    assert (EncOpt(c.imageUrl) + EncInt(c.quantity)) + rest == s3;
    assert (EncInt(c.price) + (EncOpt(c.imageUrl) + EncInt(c.quantity))) + rest == s2;
    assert (EncStr(c.name) + (EncInt(c.price) + (EncOpt(c.imageUrl) + EncInt(c.quantity)))) + rest == s1;
    assert EncItem(c) + rest == EncInt(c.productId) + s1;
    DecEncInt(c.productId, s1);
    DecEncStr(c.name, s2);
    DecEncInt(c.price, s3);
    DecEncOpt(c.imageUrl, s4);
    DecEncInt(c.quantity, rest);
  }

  lemma ParseCons(x: CartItem, rest: string)
    ensures Parse("," + EncItem(x) + rest) ==
      match Parse(rest) case None => None case Some(xs) => Some([x] + xs)
  {
    var s := "," + EncItem(x) + rest;
    assert s[0] == ',' && s != ".";
    assert s[1..] == EncItem(x) + rest;
    DecEncItem(x, rest);
  }

  /** Loading what was saved gives back the same cart. */
  lemma {:induction false} ParseSerialize(items: seq<CartItem>)
    ensures Parse(Serialize(items)) == Some(items)
  {
    if items != [] {
      assert Serialize(items) == "," + EncItem(items[0]) + Serialize(items[1..]);
      ParseCons(items[0], Serialize(items[1..]));
      ParseSerialize(items[1..]);
      assert [items[0]] + items[1..] == items;
    }
  }

  /** Different carts are saved as different text. */
  lemma SerializeInjective(xs: seq<CartItem>, ys: seq<CartItem>)
    requires Serialize(xs) == Serialize(ys)
    ensures xs == ys
  {
    ParseSerialize(xs);
    ParseSerialize(ys);
  }
}
