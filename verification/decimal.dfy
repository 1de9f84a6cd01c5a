/** Decimal rendering of integers (JavaScript's `${n}` / `String(n)`) and
    JavaScript's `parseInt` with no radix argument, over exact integers. */
module Decimal {
  import opened Wrappers
  import opened Text

  function DigitChar(d: nat): (c: char)
    requires d < 10
    ensures IsDigit(c)
  {
    ('0' as int + d) as char
  }

  /** The value of `c` as a digit of base `radix` (2..36), as `parseInt` reads it. */
  function DigitValue(c: char, radix: nat): (r: Option<nat>)
    ensures r.Some? ==> r.value < radix
  {
    var v: int :=
      if IsDigit(c) then c as int - '0' as int
      else if IsLower(c) then c as int - 'a' as int + 10
      else if IsUpper(c) then c as int - 'A' as int + 10
      else radix;
    if 0 <= v < radix then Some(v) else None
  }

  /** The canonical decimal string of a natural number: no sign, no leading zero. */
  function NatToString(n: nat): (s: string)
    ensures |s| >= 1
    ensures forall i :: 0 <= i < |s| ==> IsDigit(s[i])
    ensures n < 10 <==> |s| == 1
    ensures n > 0 ==> s[0] != '0'
    decreases n
  {
    if n < 10 then [DigitChar(n)] else NatToString(n / 10) + [DigitChar(n % 10)]
  }

  /** `${n}` for an integer `n`. */
  function IntToString(n: int): (s: string)
    ensures |s| >= 1
    ensures n < 0 <==> s[0] == '-'
  {
    if n < 0 then "-" + NatToString(-n) else NatToString(n)
  }

  /** The longest prefix of `s` made of base-`radix` digits. */
  function DigitPrefix(s: string, radix: nat): (p: string)
    ensures |p| <= |s| && p == s[..|p|]
    ensures forall i :: 0 <= i < |p| ==> DigitValue(p[i], radix).Some?
    ensures |p| < |s| ==> DigitValue(s[|p|], radix).None?
  {
    if |s| > 0 && DigitValue(s[0], radix).Some? then [s[0]] + DigitPrefix(s[1..], radix) else []
  }

  /** The value of a string of base-`radix` digits, most significant first. */
  function DigitsValue(p: string, radix: nat): nat
    requires forall i :: 0 <= i < |p| ==> DigitValue(p[i], radix).Some?
  {
    if |p| == 0 then 0
    else DigitsValue(p[..|p| - 1], radix) * radix + DigitValue(p[|p| - 1], radix).value
  }

  /** The digits after an optional `0x`/`0X` prefix, read in base 16 after
      that prefix and in base 10 otherwise; `None` when there is no digit. */
  function ParseMagnitude(u: string): Option<nat> {
    var hex := |u| >= 2 && u[0] == '0' && (u[1] == 'x' || u[1] == 'X');
    var radix := if hex then 16 else 10;
    var digits := DigitPrefix(if hex then u[2..] else u, radix);
    if digits == [] then None else Some(DigitsValue(digits, radix))
  }

  /** JavaScript `parseInt(s)` with no radix: leading whitespace is skipped, one
      sign is read, a `0x`/`0X` prefix selects base 16, and the longest run of
      digits that follows is read; `None` stands for `NaN` (no digit at all). */
  function JsParseInt(s: string): Option<int> {
    var t := TrimStart(s);
    var negative := |t| > 0 && t[0] == '-';
    var u := if |t| > 0 && (t[0] == '-' || t[0] == '+') then t[1..] else t;
    match ParseMagnitude(u)
    case None => None
    case Some(m) => Some(if negative then -(m as int) else m as int)
  }

  lemma {:induction false} DigitsOfNatToString(n: nat)
    ensures forall i :: 0 <= i < |NatToString(n)| ==> DigitValue(NatToString(n)[i], 10).Some?
    ensures DigitsValue(NatToString(n), 10) == n
    decreases n
  {
    var s := NatToString(n);
    if n >= 10 {
      DigitsOfNatToString(n / 10);
      assert s[..|s| - 1] == NatToString(n / 10);
    }
  }

  lemma DigitPrefixOfDigits(s: string, radix: nat)
    requires forall i :: 0 <= i < |s| ==> DigitValue(s[i], radix).Some?
    ensures DigitPrefix(s, radix) == s
  {
  }

  lemma MagnitudeOfNatToString(n: nat)
    ensures ParseMagnitude(NatToString(n)) == Some(n)
  {
    var s := NatToString(n);
    DigitsOfNatToString(n);
    DigitPrefixOfDigits(s, 10);
  }

  /** Reading back the decimal string of any integer with `parseInt` gives the integer. */
  lemma ParseIntOfIntToString(n: int)
    ensures JsParseInt(IntToString(n)) == Some(n)
  {
    var m: nat := if n < 0 then -n else n;
    MagnitudeOfNatToString(m);
    var s := IntToString(n);
    assert !IsWhitespace(s[0]);
    assert TrimStart(s) == s;
    if n < 0 {
      assert s == "-" + NatToString(m);
      assert s[1..] == NatToString(m);
      assert JsParseInt(s) == Some(-(m as int));
    } else {
      assert s == NatToString(m);
      assert s[0] != '-' && s[0] != '+';
    }
  }

  /** Text whose first character is neither whitespace, a sign nor a decimal
      digit reads as `NaN`. */
  lemma ParseIntWithoutDigits(s: string)
    requires |s| > 0 && !IsWhitespace(s[0]) && s[0] != '-' && s[0] != '+' && !IsDigit(s[0])
    ensures JsParseInt(s) == None
  {
    assert TrimStart(s) == s;
    assert DigitValue(s[0], 10).None?;
    assert DigitPrefix(s, 10) == [];
  }

  /** Distinct integers have distinct decimal strings. */
  lemma IntToStringInjective(a: int, b: int)
    ensures IntToString(a) == IntToString(b) ==> a == b
  {
    ParseIntOfIntToString(a);
    ParseIntOfIntToString(b);
  }
}
