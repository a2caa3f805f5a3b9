/** The global `parseInt(string)` of JavaScript, called without a radix, over
    exact integers: white space is skipped, one sign is read, a `0x`/`0X`
    prefix switches to base 16, and the longest run of digits that follows is
    the value; no digit at all gives NaN. */
module JsParseInt {
  import opened Wrappers
  import opened JsString

  /** The numbers `parseInt` can return. */
  datatype NumberValue = NaN | Finite(value: int)

  predicate IsDecimalDigit(c: char)
  {
    '0' <= c <= '9'
  }

  predicate IsRadixDigit(c: char, radix: nat)
  {
    IsDecimalDigit(c) || (radix == 16 && ('a' <= c <= 'f' || 'A' <= c <= 'F'))
  }

  function DigitValue(c: char): nat
  {
    if '0' <= c <= '9' then c as int - '0' as int
    else if 'a' <= c <= 'z' then c as int - 'a' as int + 10
    else if 'A' <= c <= 'Z' then c as int - 'A' as int + 10
    else 0
  }

  /** The longest prefix of `s` made of digits of the radix. */
  function DigitPrefix(s: string, radix: nat): (r: string)
    ensures |r| <= |s| && r == s[..|r|]
    ensures forall k :: 0 <= k < |r| ==> IsRadixDigit(r[k], radix)
    ensures |r| == |s| || !IsRadixDigit(s[|r|], radix)
  {
    if s != [] && IsRadixDigit(s[0], radix) then [s[0]] + DigitPrefix(s[1..], radix) else []
  }

  /** The positional value of a digit string, most significant digit first. */
  function DigitsValue(z: string, radix: nat): nat
  {
    if z == [] then 0 else DigitsValue(z[..|z| - 1], radix) * radix + DigitValue(z[|z| - 1])
  }

  predicate HasHexPrefix(s: string)
  {
    |s| >= 2 && s[0] == '0' && (s[1] == 'x' || s[1] == 'X')
  }

  /** -1 after a leading minus sign, 1 otherwise. */
  function SignOf(s: string): int
  {
    if s != [] && s[0] == '-' then -1 else 1
  }

  /** Drops one leading sign character. */
  function DropSign(s: string): string
  {
    if s != [] && (s[0] == '-' || s[0] == '+') then s[1..] else s
  }

  /** The value of the digits at the start of `d` in the radix, if there is one. */
  function LeadingDigits(d: string, radix: nat): Option<nat>
  {
    var z := DigitPrefix(d, radix);
    if z == [] then None else Some(DigitsValue(z, radix))
  }

  /** The unsigned part: base 16 after `0x`/`0X`, base 10 otherwise. */
  function Magnitude(u: string): Option<nat>
  {
    if HasHexPrefix(u) then LeadingDigits(u[2..], 16) else LeadingDigits(u, 10)
  }

  /** `parseInt(input)`: a number only where the input holds a digit, and a
      negative one only after a minus sign. */
  function ParseInt(input: string): (r: NumberValue)
    ensures r.Finite? ==> exists k :: 0 <= k < |input| && IsDecimalDigit(input[k])
    ensures r.Finite? && r.value < 0 ==> TrimStart(input) != [] && TrimStart(input)[0] == '-'
  {
    var s := TrimStart(input);
    var u := DropSign(s);
    match Magnitude(u)
    case None => NaN
    case Some(v) =>
      assert u == input[|input| - |u|..];
      assert IsDecimalDigit(u[0]) by {
        if !HasHexPrefix(u) {
          assert DigitPrefix(u, 10) != [];
        }
      }
      assert input[|input| - |u|] == u[0];
      Finite(SignOf(s) * v)
  }

  /** `String(n)` for a natural number: decimal digits without leading zeros. */
  function DecimalString(n: nat): (r: string)
    ensures r != []
    ensures forall k :: 0 <= k < |r| ==> IsDecimalDigit(r[k])
    ensures r[0] == '0' ==> n == 0 && r == "0"
  {
    if n < 10 then [('0' as int + n) as char]
    else DecimalString(n / 10) + [('0' as int + n % 10) as char]
  }

  /** `String(n)` for an integer. */
  function IntString(n: int): string
  {
    if n < 0 then "-" + DecimalString(-n) else DecimalString(n)
  }

  /** The decimal rendering of `n` has the value `n`. */
  lemma {:induction false} DecimalStringValue(n: nat)
    ensures DigitsValue(DecimalString(n), 10) == n
  {
    if n >= 10 {
      var z := DecimalString(n);
      assert z[..|z| - 1] == DecimalString(n / 10);
      DecimalStringValue(n / 10);
    }
  }

  /** The digit prefix of a digit string followed by a non-digit is that digit string. */
  lemma {:induction false} DigitPrefixOfDigits(z: string, rest: string, radix: nat)
    requires forall k :: 0 <= k < |z| ==> IsRadixDigit(z[k], radix)
    requires rest == [] || !IsRadixDigit(rest[0], radix)
    ensures DigitPrefix(z + rest, radix) == z
    decreases |z|
  {
    if z == [] {
      assert z + rest == rest;
    } else {
      assert (z + rest)[1..] == z[1..] + rest;
      DigitPrefixOfDigits(z[1..], rest, radix);
    }
  }

  /** What a digit after the rendering of a number must not be for `parseInt`
      to stop there: no decimal digit, and no `x` that would make a `0x` prefix. */
  predicate EndsNumber(rest: string)
  {
    rest == [] || (!IsDecimalDigit(rest[0]) && rest[0] != 'x' && rest[0] != 'X')
  }

  /** `parseInt(String(n) + rest)` is `n` whenever `rest` does not continue the
      number: `parseInt` reads back every integer it is shown, and ignores the tail
      ("10abc" gives 10, "7.9" gives 7). */
  lemma ParseIntString(n: int, rest: string)
    requires EndsNumber(rest)
    ensures ParseInt(IntString(n) + rest) == Finite(n)
  {
    var s := IntString(n) + rest;
    if n < 0 {
      var m: nat := -n;
      assert s == "-" + (DecimalString(m) + rest);
      ParseIntNegative(m, rest);
    } else {
      assert s == DecimalString(n) + rest;
      ParseIntNatural(n, rest);
    }
  }

  /** A decimal rendering without sign is read back. */
  lemma ParseIntNatural(m: nat, rest: string)
    requires EndsNumber(rest)
    ensures ParseInt(DecimalString(m) + rest) == Finite(m)
  {
    var u := DecimalString(m) + rest;
    assert IsDecimalDigit(u[0]);
    TrimStartUnchanged(u);
    assert DropSign(u) == u && SignOf(u) == 1;
    MagnitudeOfDecimal(m, rest);
  }

  /** A minus sign before a decimal rendering negates it. */
  lemma ParseIntNegative(m: nat, rest: string)
    requires EndsNumber(rest)
    ensures ParseInt("-" + (DecimalString(m) + rest)) == Finite(-(m as int))
  {
    var u := DecimalString(m) + rest;
    var s := "-" + u;
    assert s[0] == '-';
    TrimStartUnchanged(s);
    assert s[1..] == u;
    assert DropSign(s) == u && SignOf(s) == -1;
    MagnitudeOfDecimal(m, rest);
  }

  /** The unsigned part of the rendering of `m` has the magnitude `m`. */
  lemma MagnitudeOfDecimal(m: nat, rest: string)
    requires EndsNumber(rest)
    ensures Magnitude(DecimalString(m) + rest) == Some(m)
  {
    var z := DecimalString(m);
    assert !HasHexPrefix(z + rest) by {
      if |z + rest| >= 2 && (z + rest)[0] == '0' {
        assert z == "0";
        assert (z + rest)[1] == rest[0];
      }
    }
    DigitPrefixOfDigits(z, rest, 10);
    DecimalStringValue(m);
  }

  /** Input whose first character after white space is neither a sign nor a digit is NaN. */
  lemma ParseIntNoDigit(input: string)
    requires var s := TrimStart(input);
             s == [] || (!IsDecimalDigit(s[0]) && s[0] != '-' && s[0] != '+')
    ensures ParseInt(input) == NaN
  {
    var s := TrimStart(input);
    assert DropSign(s) == s;
    assert !HasHexPrefix(s);
    assert DigitPrefix(s, 10) == [];
    assert Magnitude(s) == None;
  }

  /** `parseInt` reads a `0x` or `0X` prefix as base 16: the longest run of
      hexadecimal digits after it is the value ("0x1f" gives 31, "0xAg" gives 10). */
  lemma ParseIntHex(x: char, z: string, rest: string)
    requires x == 'x' || x == 'X'
    requires z != [] && forall k :: 0 <= k < |z| ==> IsRadixDigit(z[k], 16)
    requires rest == [] || !IsRadixDigit(rest[0], 16)
    ensures ParseInt(['0', x] + (z + rest)) == Finite(DigitsValue(z, 16))
  {
    var u := z + rest;
    var s := ['0', x] + u;
    TrimStartUnchanged(s);
    assert DropSign(s) == s && SignOf(s) == 1;
    MagnitudeOfHex(x, z, rest);
  }

  /** After `0x`, the hexadecimal digits up to the first other character are the magnitude. */
  lemma MagnitudeOfHex(x: char, z: string, rest: string)
    requires x == 'x' || x == 'X'
    requires forall k :: 0 <= k < |z| ==> IsRadixDigit(z[k], 16)
    requires z != [] && (rest == [] || !IsRadixDigit(rest[0], 16))
    ensures Magnitude(['0', x] + (z + rest)) == Some(DigitsValue(z, 16))
  {
    var s := ['0', x] + (z + rest);
    assert HasHexPrefix(s) && s[2..] == z + rest;
    DigitPrefixOfDigits(z, rest, 16);
  }
}
