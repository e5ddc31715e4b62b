/**
 * JavaScript numbers as the core meets them: integers parsed by `parseInt` and printed
 * by `toString`, and NaN when nothing parses.
 */
module JsNumbers {
  import opened Strings

  /** An integral JavaScript number, or NaN. */
  datatype Number = Num(n: int) | NaN

  /** `x < bound` on a JavaScript number: always false for NaN. */
  predicate LessThan(x: Number, bound: int)
  {
    x.Num? && x.n < bound
  }

  predicate IsDigit(c: char)
  {
    '0' <= c <= '9'
  }

  predicate AllDigits(s: string)
  {
    forall i :: 0 <= i < |s| ==> IsDigit(s[i])
  }

  function DigitValue(c: char): nat
    requires IsDigit(c)
  {
    (c as int) - ('0' as int)
  }

  function DigitChar(d: nat): (c: char)
    requires d < 10
    ensures IsDigit(c) && DigitValue(c) == d
  {
    (('0' as int) + d) as char
  }

  predicate IsHexDigit(c: char)
  {
    IsDigit(c) || 'a' <= c <= 'f' || 'A' <= c <= 'F'
  }

  function HexDigitValue(c: char): nat
    requires IsHexDigit(c)
  {
    if IsDigit(c) then DigitValue(c)
    else if 'a' <= c <= 'f' then (c as int) - ('a' as int) + 10
    else (c as int) - ('A' as int) + 10
  }

  /** The longest prefix of `s` made of decimal digits. */
  function DecimalPrefix(s: string): (r: string)
    ensures r <= s && AllDigits(r)
    ensures |r| < |s| ==> !IsDigit(s[|r|])
  {
    if s != [] && IsDigit(s[0]) then [s[0]] + DecimalPrefix(s[1..]) else []
  }

  /** The longest prefix of `s` made of hexadecimal digits. */
  function HexPrefix(s: string): (r: string)
    ensures r <= s && forall i :: 0 <= i < |r| ==> IsHexDigit(r[i])
    ensures |r| < |s| ==> !IsHexDigit(s[|r|])
  {
    if s != [] && IsHexDigit(s[0]) then [s[0]] + HexPrefix(s[1..]) else []
  }

  function DecimalValue(ds: string): nat
    requires AllDigits(ds)
  {
    if ds == [] then 0 else DecimalValue(ds[..|ds| - 1]) * 10 + DigitValue(ds[|ds| - 1])
  }

  function HexValue(ds: string): nat
    requires forall i :: 0 <= i < |ds| ==> IsHexDigit(ds[i])
  {
    if ds == [] then 0 else HexValue(ds[..|ds| - 1]) * 16 + HexDigitValue(ds[|ds| - 1])
  }

  /** `n.toString()` for a non-negative integer: decimal digits, no leading zero. */
  function NatToString(n: nat): (s: string)
    ensures |s| >= 1 && AllDigits(s)
    ensures |s| == 1 <==> n < 10
    ensures s[0] == '0' ==> n == 0
  {
    if n < 10 then [DigitChar(n)] else NatToString(n / 10) + [DigitChar(n % 10)]
  }

  /** `n.toString()` for an integer. */
  function IntToString(n: int): (s: string)
    ensures s != []
  {
    if n < 0 then "-" + NatToString(-n) else NatToString(n)
  }

  function Signed(negative: bool, magnitude: nat): int
  {
    if negative then 0 - magnitude as int else magnitude
  }

  /** `parseInt(s)` with no radix: leading white space is skipped, then an optional sign,
      then either `0x`/`0X` and hexadecimal digits or decimal digits, as many as there
      are; anything after them is ignored, and no digit at all gives NaN. */
  function ParseInt(s: string): Number
  {
    var t := TrimStart(s);
    var negative := t != [] && t[0] == '-';
    var u := if t != [] && (t[0] == '-' || t[0] == '+') then t[1..] else t;
    if |u| >= 2 && u[0] == '0' && (u[1] == 'x' || u[1] == 'X') then
      var ds := HexPrefix(u[2..]);
      if ds == [] then NaN else Num(Signed(negative, HexValue(ds)))
    else
      var ds := DecimalPrefix(u);
      if ds == [] then NaN else Num(Signed(negative, DecimalValue(ds)))
  }

  lemma {:induction false} DecimalValueOfNatToString(n: nat)
    ensures DecimalValue(NatToString(n)) == n
  {
    var s := NatToString(n);
    if n >= 10 {
      DecimalValueOfNatToString(n / 10);
      assert s[..|s| - 1] == NatToString(n / 10);
    }
  }

  lemma {:induction false} DecimalPrefixOfDigits(s: string)
    requires AllDigits(s)
    ensures DecimalPrefix(s) == s
  {
    if s != [] {
      DecimalPrefixOfDigits(s[1..]);
    }
  }

  lemma ParseIntDigits(negative: bool, digits: string)
    requires AllDigits(digits) && digits != []
    requires |digits| >= 2 ==> digits[0] != '0'
    ensures ParseInt(if negative then "-" + digits else digits) == Num(Signed(negative, DecimalValue(digits)))
  {
    var s := if negative then "-" + digits else digits;
    assert !IsWhite(s[0]);
    assert TrimStart(s) == s;
    assert s[0] == if negative then '-' else digits[0];
    var u := if negative then s[1..] else s;
    assert u == digits;
    assert !(|u| >= 2 && u[0] == '0');
    DecimalPrefixOfDigits(digits);
    assert DecimalPrefix(u) == digits;
  }

  /** Text that starts with a decimal digit other than a `0x` prefix is read as the
      value of its leading digits. */
  lemma ParseIntDecimalStart(s: string)
    requires s != [] && IsDigit(s[0])
    requires !(|s| >= 2 && s[0] == '0' && (s[1] == 'x' || s[1] == 'X'))
    ensures DecimalPrefix(s) != []
    ensures ParseInt(s) == Num(DecimalValue(DecimalPrefix(s)))
  {
    assert !IsWhite(s[0]);
    assert TrimStart(s) == s;
    assert s[0] != '-' && s[0] != '+';
    var ds := DecimalPrefix(s);
    assert ds == [s[0]] + DecimalPrefix(s[1..]);
    assert Signed(false, DecimalValue(ds)) == DecimalValue(ds);
  }

  /** `parseInt` reads back what `toString` prints. */
  lemma ParseIntToString(n: int)
    ensures ParseInt(IntToString(n)) == Num(n)
  {
    var m: nat := if n < 0 then -n else n;
    DecimalValueOfNatToString(m);
    ParseIntDigits(n < 0, NatToString(m));
  }
}
