/**
 * The JavaScript string built-ins the core relies on: parseInt without a
 * radix, trim, ASCII toLowerCase and includes.
 */
module JsText {
  import opened Wrappers
  import opened Digits

  /** WhiteSpace and LineTerminator code points, which trim and parseInt skip. */
  predicate IsJsSpace(c: char) {
    var k := c as int;
    (0x09 <= k <= 0x0D) || k == 0x20 || k == 0xA0 || k == 0x1680 || (0x2000 <= k <= 0x200A)
    || k == 0x2028 || k == 0x2029 || k == 0x202F || k == 0x205F || k == 0x3000 || k == 0xFEFF
  }

  /** Every character of s from lo up to hi is white space. */
  predicate SpaceBetween(s: string, lo: int, hi: int)
    requires 0 <= lo && hi <= |s|
  {
    forall k :: lo <= k < hi ==> IsJsSpace(s[k])
  }

  function TrimStart(s: string): (r: string)
    ensures |r| <= |s| && r == s[|s| - |r|..]
    ensures SpaceBetween(s, 0, |s| - |r|)
    ensures r == [] || !IsJsSpace(r[0])
    decreases |s|
  {
    if |s| > 0 && IsJsSpace(s[0]) then TrimStart(s[1..]) else s
  }

  function TrimEnd(s: string): (r: string)
    ensures |r| <= |s| && r == s[..|r|]
    ensures SpaceBetween(s, |r|, |s|)
    ensures r == [] || !IsJsSpace(r[|r| - 1])
    decreases |s|
  {
    if |s| > 0 && IsJsSpace(s[|s| - 1]) then TrimEnd(s[..|s| - 1]) else s
  }

  /**
   * s[i..j] is what is left of s when its leading and its trailing white space are cut: the cut parts
   * are all white space, and a non-empty rest neither starts nor ends with white space.
   */
  predicate TrimSplit(s: string, i: int, j: int) {
    && 0 <= i <= j <= |s| && SpaceBetween(s, 0, i) && SpaceBetween(s, j, |s|)
    && (i < j ==> !IsJsSpace(s[i]) && !IsJsSpace(s[j - 1]))
  }

  /** r is s with white space, and only white space, cut from its two ends. */
  predicate TrimmedFrom(s: string, r: string) {
    exists i, j | 0 <= i <= j <= |s| :: TrimSplit(s, i, j) && s[i..j] == r
  }

  /** String.prototype.trim: the text without surrounding white space. */
  function Trim(s: string): (r: string)
    ensures TrimmedFrom(s, r)
  {
    var t := TrimStart(s);
    var r := TrimEnd(t);
    TrimParts(s, t, r);
    r
  }

  /** Cutting t from the end of s and r from the start of t, as the two halves of trim do, is a trim split. */
  lemma TrimParts(s: string, t: string, r: string)
    requires |t| <= |s| && t == s[|s| - |t|..] && SpaceBetween(s, 0, |s| - |t|) && (t == [] || !IsJsSpace(t[0]))
    requires |r| <= |t| && r == t[..|r|] && SpaceBetween(t, |r|, |t|) && (r == [] || !IsJsSpace(r[|r| - 1]))
    ensures TrimSplit(s, |s| - |t|, |s| - |t| + |r|) && s[|s| - |t|..|s| - |t| + |r|] == r
  {
    var i := |s| - |t|;
    var j := i + |r|;
    forall k | j <= k < |s|
      ensures IsJsSpace(s[k])
    {
      assert s[k] == t[k - i];
    }
    if r != [] {
      assert s[i] == t[0] == r[0];
      assert s[j - 1] == r[|r| - 1];
    }
    assert s[i..j] == t[..|r|];
  }

  /** Only one text is s trimmed, so TrimmedFrom describes trim completely. */
  lemma TrimmedUnique(s: string, r1: string, r2: string)
    requires TrimmedFrom(s, r1) && TrimmedFrom(s, r2)
    ensures r1 == r2
  {
    var i1, j1 :| 0 <= i1 <= j1 <= |s| && TrimSplit(s, i1, j1) && s[i1..j1] == r1;
    var i2, j2 :| 0 <= i2 <= j2 <= |s| && TrimSplit(s, i2, j2) && s[i2..j2] == r2;
    SplitUnique(s, i1, j1, i2, j2);
  }

  lemma SplitUnique(s: string, i1: int, j1: int, i2: int, j2: int)
    requires TrimSplit(s, i1, j1) && TrimSplit(s, i2, j2)
    ensures i1 < j1 ==> i1 == i2 && j1 == j2
    ensures i1 == j1 ==> i2 == j2
  {
    if i1 < j1 {
      NotSpaceInside(s, i1, j1, i2, j2);
      NotSpaceInside(s, i2, j2, i1, j1);
    } else if i2 < j2 {
      NotSpaceInside(s, i2, j2, i1, j1);
    }
  }

  /** A non-empty trimmed part lies inside every other split whose ends are white space. */
  lemma NotSpaceInside(s: string, i1: int, j1: int, i2: int, j2: int)
    requires TrimSplit(s, i1, j1) && i1 < j1
    requires 0 <= i2 <= j2 <= |s| && SpaceBetween(s, 0, i2) && SpaceBetween(s, j2, |s|)
    ensures i2 <= i1 && j1 <= j2
  {
  }

  /** Whatever r is s trimmed is exactly what trim returns. */
  lemma TrimmedIsTrim(s: string, r: string)
    requires TrimmedFrom(s, r)
    ensures Trim(s) == r
  {
    TrimmedUnique(s, Trim(s), r);
  }

  function LowerChar(c: char): char {
    if 'A' <= c <= 'Z' then (c as int + 32) as char else c
  }

  /** toLowerCase on ASCII letters; other characters are kept. */
  function LowerAscii(s: string): (r: string)
    ensures |r| == |s| && forall i :: 0 <= i < |s| ==> r[i] == LowerChar(s[i])
  {
    seq(|s|, i requires 0 <= i < |s| => LowerChar(s[i]))
  }

  /** The capitals toLowerCase folds here: A-Z and the Latin-1 capitals U+00C0-U+00DE other than the
      multiplication sign, which covers the accented letters of Portuguese. */
  predicate IsCapital(c: char) {
    ('A' <= c <= 'Z') || ('\U{C0}' <= c <= '\U{DE}' && c != '\U{D7}')
  }

  /** Each capital above is 32 code points before its small letter. */
  function LowerLatin1(c: char): (r: char)
    ensures !IsCapital(r)
    ensures IsCapital(c) ==> r as int == c as int + 32
    ensures !IsCapital(c) ==> r == c
  {
    if IsCapital(c) then (c as int + 32) as char else c
  }

  /** toLowerCase on ASCII and Latin-1 text; other characters are kept. */
  function LowerCase(s: string): (r: string)
    ensures |r| == |s| && forall i :: 0 <= i < |s| ==> r[i] == LowerLatin1(s[i])
  {
    seq(|s|, i requires 0 <= i < |s| => LowerLatin1(s[i]))
  }

  /** Lower-casing twice is lower-casing once. */
  lemma LowerCaseIdempotent(s: string)
    ensures LowerCase(LowerCase(s)) == LowerCase(s)
  {
  }

  /** needle is the part of hay that starts at position i. */
  predicate OccursAt(hay: string, needle: string, i: int) {
    0 <= i <= |hay| - |needle| && hay[i..i + |needle|] == needle
  }

  /** String.prototype.includes: needle occurs in hay at some position. */
  predicate Includes(hay: string, needle: string) {
    exists i | 0 <= i <= |hay| :: OccursAt(hay, needle, i)
  }

  function HexValue(c: char): Option<nat> {
    if '0' <= c <= '9' then Some(c as int - '0' as int)
    else if 'a' <= c <= 'f' then Some(c as int - 'a' as int + 10)
    else if 'A' <= c <= 'F' then Some(c as int - 'A' as int + 10)
    else None
  }

  /** Value of the longest hexadecimal digit prefix of s, read after acc. */
  function ReadHex(s: string, acc: nat, any: bool): Option<nat>
    decreases |s|
  {
    if |s| > 0 && HexValue(s[0]).Some? then ReadHex(s[1..], acc * 16 + HexValue(s[0]).value, true)
    else if any then Some(acc) else None
  }

  /**
   * parseInt(s) with no radix: leading white space is skipped, one sign is
   * read, a 0x or 0X prefix selects base 16, and the longest digit prefix is
   * read. None stands for NaN (no digit at all).
   */
  function ParseInt(s: string): Option<int> {
    var t := TrimStart(s);
    var neg := |t| > 0 && t[0] == '-';
    var u := if |t| > 0 && (t[0] == '-' || t[0] == '+') then t[1..] else t;
    match Magnitude(u)
    case None => None
    case Some(m) => var v: int := m; Some(if neg then -v else v)
  }

  /** The unsigned part: hexadecimal after 0x or 0X, else the longest decimal digit prefix. */
  function Magnitude(u: string): Option<nat> {
    if |u| >= 2 && u[0] == '0' && (u[1] == 'x' || u[1] == 'X') then ReadHex(u[2..], 0, false)
    else match ReadNat(u) case None => None case Some((n, _)) => Some(n)
  }

  /** A decimal numeral reads back as its value, whatever non-digit text follows it. */
  lemma ParseIntShowNat(n: nat, rest: string)
    requires rest == [] || !IsDigit(rest[0])
    requires n > 0 || rest == [] || (rest[0] != 'x' && rest[0] != 'X')
    ensures ParseInt(ShowNat(n) + rest) == Some(n)
  {
    ReadShowNat(n, rest);
    var s := ShowNat(n) + rest;
    assert s[0] == ShowNat(n)[0] && IsDigit(s[0]);
    assert !(|s| >= 2 && s[0] == '0' && (s[1] == 'x' || s[1] == 'X')) by {
      if n == 0 {
        assert ShowNat(n) == "0";
        assert |s| >= 2 ==> s[1] == rest[0];
      }
    }
    ParseIntDigits(s);
  }

  /** Text that starts with a digit, and not with 0x, is read as its leading decimal numeral. */
  lemma ParseIntDigits(s: string)
    requires |s| > 0 && IsDigit(s[0])
    requires !(|s| >= 2 && s[0] == '0' && (s[1] == 'x' || s[1] == 'X'))
    ensures ReadNat(s).Some? && ParseInt(s) == Some(ReadNat(s).value.0)
  {
    NoSpaceNoTrim(s);
    var m := Magnitude(s);
    assert m == Some(ReadNat(s).value.0);
    assert s[0] != '-' && s[0] != '+';
  }

  /** Text that does not start with white space is left as it is by trimStart. */
  lemma NoSpaceNoTrim(s: string)
    requires |s| > 0 && IsDigit(s[0])
    ensures TrimStart(s) == s
  {
    assert !IsJsSpace(s[0]);
  }

  /** Text whose first non-space character is neither a sign nor a digit is NaN. */
  lemma ParseIntNaN(s: string)
    requires var t := TrimStart(s); t == [] || (!IsDigit(t[0]) && t[0] != '-' && t[0] != '+')
    ensures ParseInt(s) == None
  {
  }

  /** s || "": the text, or empty when there is none. */
  function OrEmpty(s: Option<string>): string { if s.Some? then s.value else "" }

  /** s || null: the text, or null when it is empty. */
  function NullIfEmpty(s: string): (r: Option<string>)
    ensures r.None? <==> s == ""
    ensures r.Some? ==> r.value == s
  {
    if s == "" then None else Some(s)
  }
}
