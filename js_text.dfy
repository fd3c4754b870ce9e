/**
 * The few JavaScript string primitives the pages rely on, restricted to
 * ASCII: `toLowerCase`, `includes`, `Number.prototype.toString` on an
 * integer, and `parseInt` with and without an explicit radix of 10.
 * Python's `str` of an integer prints the same decimal text.
 */
module JsText {
  import opened Common

  predicate IsDecimalDigit(c: char) {
    '0' <= c <= '9'
  }

  /** `toLowerCase` on one ASCII character; other characters are left alone. */
  function LowerChar(c: char): (r: char)
    ensures !('A' <= r <= 'Z')
    ensures 'A' <= c <= 'Z' ==> r as int == c as int + 32
    ensures !('A' <= c <= 'Z') ==> r == c
  {
    if 'A' <= c <= 'Z' then (c as int + 32) as char else c
  }

  /** `s.toLowerCase()` for ASCII text. */
  function Lower(s: string): (r: string)
    ensures |r| == |s|
    ensures forall i :: 0 <= i < |s| ==> r[i] == LowerChar(s[i])
  {
    if |s| == 0 then [] else [LowerChar(s[0])] + Lower(s[1..])
  }

  /** Lower-casing twice is lower-casing once. */
  lemma LowerIdempotent(s: string)
    ensures Lower(Lower(s)) == Lower(s)
  {
    assert forall i :: 0 <= i < |s| ==> LowerChar(LowerChar(s[i])) == LowerChar(s[i]);
  }

  /** needle occurs in hay starting at offset i. */
  ghost predicate OccursAt(hay: string, needle: string, i: int) {
    0 <= i <= |hay| - |needle| && hay[i..i + |needle|] == needle
  }

  /** `hay.includes(needle)`: needle occurs in hay at some offset. */
  function Includes(hay: string, needle: string): (b: bool)
    ensures b <==> exists i :: OccursAt(hay, needle, i)
    decreases |hay|
  {
    if needle <= hay then
      assert OccursAt(hay, needle, 0);
      true
    else if |hay| == 0 then false
    else
      var b := Includes(hay[1..], needle);
      assert b ==> exists i :: OccursAt(hay, needle, i) by {
        if b {
          var j :| OccursAt(hay[1..], needle, j);
          assert OccursAt(hay, needle, j + 1);
        }
      }
      assert (exists i :: OccursAt(hay, needle, i)) ==> b by {
        if i :| OccursAt(hay, needle, i) {
          if i > 0 {
            assert OccursAt(hay[1..], needle, i - 1);
          }
        }
      }
      b
  }

  /** The empty string is included in every string. */
  lemma IncludesEmpty(hay: string)
    ensures Includes(hay, "")
  {
    assert OccursAt(hay, "", 0);
  }

  function DigitChar(d: nat): (c: char)
    requires d < 10
    ensures IsDecimalDigit(c)
  {
    ('0' as int + d) as char
  }

  /** Decimal text of a natural number, most significant digit first. */
  function NatToString(n: nat): (r: string)
    ensures |r| >= 1
    ensures forall i :: 0 <= i < |r| ==> IsDecimalDigit(r[i])
    ensures |r| > 1 ==> r[0] != '0'
  {
    if n < 10 then [DigitChar(n)] else NatToString(n / 10) + [DigitChar(n % 10)]
  }

  /** `n.toString()` for an integer n (and Python `str(n)`). */
  function IntToString(n: int): (r: string)
    ensures |r| >= 1
    ensures r[0] == '-' <==> n < 0
    ensures forall i :: (if n < 0 then 1 else 0) <= i < |r| ==> IsDecimalDigit(r[i])
  {
    if n < 0 then "-" + NatToString(-n) else NatToString(n)
  }

  /** Whitespace that `parseInt` skips before the number (the ASCII part of it). */
  predicate IsSpace(c: char) {
    c == ' ' || c == '\t' || c == '\n' || c == '\r' || c == '\U{000B}' || c == '\U{000C}'
  }

  function TrimStart(s: string): (r: string)
    ensures |r| <= |s| && r == s[|s| - |r|..]
    ensures r == [] || !IsSpace(r[0])
    ensures forall i :: 0 <= i < |s| - |r| ==> IsSpace(s[i])
  {
    if |s| > 0 && IsSpace(s[0]) then TrimStart(s[1..]) else s
  }

  /** Value of c as a digit in bases up to 36, or 36 when it is not a digit at all. */
  function DigitValue(c: char): (d: nat)
    ensures d <= 36
  {
    if '0' <= c <= '9' then c as int - '0' as int
    else if 'a' <= c <= 'z' then c as int - 'a' as int + 10
    else if 'A' <= c <= 'Z' then c as int - 'A' as int + 10
    else 36
  }

  /** Length of the longest prefix of s made of digits of the given radix. */
  function DigitRun(s: string, radix: nat): (k: nat)
    ensures k <= |s|
    ensures forall i :: 0 <= i < k ==> DigitValue(s[i]) < radix
    ensures k < |s| ==> DigitValue(s[k]) >= radix
  {
    if |s| > 0 && DigitValue(s[0]) < radix then 1 + DigitRun(s[1..], radix) else 0
  }

  /** Positional value of a digit string, most significant digit first. */
  function DigitsValue(ds: string, radix: nat): nat
    requires forall i :: 0 <= i < |ds| ==> DigitValue(ds[i]) < radix
  {
    if |ds| == 0 then 0
    else DigitsValue(ds[..|ds| - 1], radix) * radix + DigitValue(ds[|ds| - 1])
  }

  /**
   * The unsigned part of `parseInt`: with hexPrefix (no radix argument) a
   * "0x" or "0X" prefix selects base 16, otherwise base 10; then the longest
   * run of digits is read, and no digit at all is NaN (None).
   */
  function ParseDigits(u: string, hexPrefix: bool): (r: Option<int>)
    ensures r.Some? ==> r.value >= 0
  {
    var hex := hexPrefix && |u| >= 2 && u[0] == '0' && (u[1] == 'x' || u[1] == 'X');
    var radix := if hex then 16 else 10;
    var v := if hex then u[2..] else u;
    var k := DigitRun(v, radix);
    if k == 0 then None else Some(DigitsValue(v[..k], radix))
  }

  /**
   * `parseInt(s)` when hexPrefix holds, `parseInt(s, 10)` otherwise: skip
   * leading whitespace, take one optional sign, then read the digits.
   * `-0` is the integer 0 here.
   */
  function ParseIntWith(s: string, hexPrefix: bool): (r: Option<int>)
    ensures |TrimStart(s)| == 0 ==> r == None
    ensures r.Some? && r.value < 0 ==> TrimStart(s)[0] == '-'
  {
    var t := TrimStart(s);
    if |t| > 0 && t[0] == '-' then
      var m := ParseDigits(t[1..], hexPrefix);
      if m.None? then None else Some(-m.value)
    else if |t| > 0 && t[0] == '+' then ParseDigits(t[1..], hexPrefix)
    else ParseDigits(t, hexPrefix)
  }

  /** JavaScript `parseInt(s)` (no radix argument). */
  function ParseInt(s: string): (r: Option<int>)
    ensures forall n :: s == IntToString(n) ==> r == Some(n)
  {
    forall n | s == IntToString(n)
      ensures ParseIntWith(s, true) == Some(n)
    {
      ParseIntOfIntToString(n, true);
    }
    ParseIntWith(s, true)
  }

  /** JavaScript `parseInt(s, 10)`. */
  function ParseIntDecimal(s: string): (r: Option<int>)
    ensures forall n :: s == IntToString(n) ==> r == Some(n)
  {
    forall n | s == IntToString(n)
      ensures ParseIntWith(s, false) == Some(n)
    {
      ParseIntOfIntToString(n, false);
    }
    ParseIntWith(s, false)
  }

  /** Reading back the decimal text of n gives n. */
  lemma {:induction false} DigitsValueOfNatToString(n: nat)
    ensures DigitRun(NatToString(n), 10) == |NatToString(n)|
    ensures DigitsValue(NatToString(n), 10) == n
  {
    var r := NatToString(n);
    if n >= 10 {
      DigitsValueOfNatToString(n / 10);
      assert r[..|r| - 1] == NatToString(n / 10);
    }
  }

  /** After the sign, the decimal text of m reads back as m. */
  lemma DigitsReadBack(m: nat, hexPrefix: bool)
    ensures ParseDigits(NatToString(m), hexPrefix) == Some(m)
  {
    var d := NatToString(m);
    DigitsValueOfNatToString(m);
    assert d[..|d|] == d;
  }

  /** Text that starts with a digit is read by `parseInt` as its unsigned part. */
  lemma ParseIntOfDigits(d: string, hexPrefix: bool)
    requires |d| > 0 && IsDecimalDigit(d[0])
    ensures ParseIntWith(d, hexPrefix) == ParseDigits(d, hexPrefix)
  {
    assert TrimStart(d) == d;
  }

  /** A minus sign before text that starts with a digit negates what the digits read. */
  lemma ParseIntOfNegated(d: string, hexPrefix: bool)
    requires |d| > 0 && IsDecimalDigit(d[0])
    ensures var m := ParseDigits(d, hexPrefix);
      ParseIntWith("-" + d, hexPrefix) == if m.None? then None else Some(-m.value)
  {
    var s := "-" + d;
    assert TrimStart(s) == s;
    assert s[1..] == d;
  }

  /** `parseInt` (with or without radix 10) inverts `toString` on integers. */
  lemma ParseIntOfIntToString(n: int, hexPrefix: bool)
    ensures ParseIntWith(IntToString(n), hexPrefix) == Some(n)
  {
    var d := NatToString(if n < 0 then -n else n);
    assert IsDecimalDigit(d[0]);
    DigitsReadBack(if n < 0 then -n else n, hexPrefix);
    if n < 0 {
      ParseIntOfNegated(d, hexPrefix);
    } else {
      ParseIntOfDigits(d, hexPrefix);
    }
  }

  /** Text that does not start with a decimal digit has no digit run in base 10 and no hex prefix. */
  lemma NoLeadingDigit(u: string, hexPrefix: bool)
    requires |u| == 0 || !IsDecimalDigit(u[0])
    ensures ParseDigits(u, hexPrefix) == None
  {
    assert DigitRun(u, 10) == 0;
  }

  /** Text without any decimal digit is NaN to `parseInt`. */
  lemma ParseIntNoDigit(s: string, hexPrefix: bool)
    requires forall i :: 0 <= i < |s| ==> !IsDecimalDigit(s[i])
    ensures ParseIntWith(s, hexPrefix) == None
  {
    var t := TrimStart(s);
    if |t| > 0 && (t[0] == '-' || t[0] == '+') {
      if |t| > 1 {
        assert t[1..][0] == s[|s| - |t| + 1];
      }
      NoLeadingDigit(t[1..], hexPrefix);
    } else {
      if |t| > 0 {
        assert t[0] == s[|s| - |t|];
      }
      NoLeadingDigit(t, hexPrefix);
    }
  }
}
