/**
 The two pieces of JavaScript number semantics the camera tile depends on:
 the remainder operator `%`, which truncates toward zero, and the global
 `parseInt` called without a radix (ECMAScript, section 19.2.5 "parseInt").
 */
module JsNumber {

  /** What `parseInt` returns: NaN, or an integral Number. */
  datatype Parsed = NaN | Int(value: int)

  /** `a % b` on integral Numbers: the sign of the result follows the dividend. */
  function Rem(a: int, b: int): (r: int)
    requires b > 0
    ensures -b < r < b
    ensures a >= 0 ==> r == a % b
    ensures a <= 0 ==> r <= 0
  {
    if a >= 0 then a % b else -((-a) % b)
  }

  /** The remainder of a negated dividend is the negated remainder. */
  lemma RemOdd(a: int, b: int)
    requires b > 0
    ensures Rem(-a, b) == -Rem(a, b)
  {
  }

  /** The characters that `parseInt` skips at the start of its argument:
      the ECMAScript WhiteSpace and LineTerminator code points. */
  predicate IsStrWhiteSpace(c: char)
  {
    || c == '\t' || c == '\n' || c == '\U{B}' || c == '\U{C}' || c == '\r'
    || c == ' ' || c == '\U{A0}' || c == '\U{1680}'
    || ('\U{2000}' <= c <= '\U{200A}')
    || c == '\U{2028}' || c == '\U{2029}' || c == '\U{202F}' || c == '\U{205F}'
    || c == '\U{3000}' || c == '\U{FEFF}'
  }

  /** `s` with its leading white space removed. */
  function TrimStart(s: string): (r: string)
    ensures |r| <= |s| && r == s[|s| - |r|..]
    ensures r == [] || !IsStrWhiteSpace(r[0])
  {
    if s != [] && IsStrWhiteSpace(s[0]) then TrimStart(s[1..]) else s
  }

  /** The value of `c` as a digit of radix 36 ('0'-'9', then 'a'-'z' in
      either case); 36 for every other character. */
  function DigitValue(c: char): (d: nat)
    ensures d <= 36
    ensures '0' <= c <= '9' <==> d < 10
  {
    if '0' <= c <= '9' then c as int - '0' as int
    else if 'a' <= c <= 'z' then c as int - 'a' as int + 10
    else if 'A' <= c <= 'Z' then c as int - 'A' as int + 10
    else 36
  }

  predicate IsRadixDigit(c: char, radix: nat)
  {
    DigitValue(c) < radix
  }

  /** The length of the longest prefix of `s` made of digits of `radix`. */
  function DigitPrefixLength(s: string, radix: nat): (n: nat)
    ensures n <= |s|
    ensures forall i :: 0 <= i < n ==> IsRadixDigit(s[i], radix)
    ensures n < |s| ==> !IsRadixDigit(s[n], radix)
  {
    if s != [] && IsRadixDigit(s[0], radix) then 1 + DigitPrefixLength(s[1..], radix) else 0
  }

  /** The mathematical value of a digit string in `radix`, most significant digit first. */
  function DigitsValue(digits: string, radix: nat): (v: nat)
  {
    if digits == [] then 0
    else DigitsValue(digits[..|digits| - 1], radix) * radix + DigitValue(digits[|digits| - 1])
  }

  /** `parseInt(s)` with no radix argument: skip leading white space, take
      an optional sign, then read the magnitude. */
  function ParseInt(s: string): (p: Parsed)
  {
    var t := TrimStart(s);
    if t != [] && t[0] == '-' then Negate(ParseMagnitude(t[1..]))
    else if t != [] && t[0] == '+' then ParseMagnitude(t[1..])
    else ParseMagnitude(t)
  }

  function Negate(p: Parsed): Parsed
  {
    if p.NaN? then NaN else Int(-p.value)
  }

  /** The unsigned part of `parseInt`: switch to radix 16 after a "0x" or "0X"
      prefix, then read the longest run of digits; no digits at all gives NaN. */
  function ParseMagnitude(u: string): (p: Parsed)
  {
    var hex := |u| >= 2 && u[0] == '0' && (u[1] == 'x' || u[1] == 'X');
    var radix := if hex then 16 else 10;
    var body := if hex then u[2..] else u;
    var n := DigitPrefixLength(body, radix);
    if n == 0 then NaN else Int(DigitsValue(body[..n], radix))
  }

  /** The decimal rendering of `n` without leading zeros, as `String(n)` gives it
      for every `n` below 10^21. */
  function DecimalString(n: nat): (s: string)
    ensures s != []
    ensures forall i :: 0 <= i < |s| ==> '0' <= s[i] <= '9'
    ensures s[0] == '0' ==> n == 0 && |s| == 1
  {
    if n < 10 then ['0' + n as char]
    else DecimalString(n / 10) + ['0' + (n % 10) as char]
  }

  lemma {:induction false} DigitsValueOfDecimal(n: nat)
    ensures DigitsValue(DecimalString(n), 10) == n
  {
    var s := DecimalString(n);
    if n >= 10 {
      DigitsValueOfDecimal(n / 10);
      assert s[..|s| - 1] == DecimalString(n / 10);
    }
  }

  /** Leading white space does not change what `s` parses to. */
  lemma {:induction false} TrimStartSkips(w: string, s: string)
    requires forall i :: 0 <= i < |w| ==> IsStrWhiteSpace(w[i])
    ensures TrimStart(w + s) == TrimStart(s)
  {
    if w != [] {
      assert (w + s)[0] == w[0] && (w + s)[1..] == w[1..] + s;
      assert IsStrWhiteSpace(w[0]);
      TrimStartSkips(w[1..], s);
    } else {
      assert w + s == s;
    }
  }

  lemma {:induction false} ParseIntSkipsWhiteSpace(w: string, s: string)
    requires forall i :: 0 <= i < |w| ==> IsStrWhiteSpace(w[i])
    ensures ParseInt(w + s) == ParseInt(s)
  {
    TrimStartSkips(w, s);
  }

  /** A string that starts with a digit has no sign and no white space to skip. */
  lemma {:induction false} ParseIntLeadingDigit(s: string)
    requires s != [] && '0' <= s[0] <= '9'
    ensures ParseInt(s) == ParseMagnitude(s)
  {
    assert TrimStart(s) == s by { assert !IsStrWhiteSpace(s[0]); }
  }

  lemma {:induction false} ParseIntLeadingMinus(s: string)
    ensures ParseInt("-" + s) == Negate(ParseMagnitude(s))
  {
    var m := "-" + s;
    assert m[0] == '-' && m[1..] == s;
    assert TrimStart(m) == m;
    assert ParseInt(m) == Negate(ParseMagnitude(m[1..]));
  }

  /** `k` is the length of the digit run of `s` when the first `k` characters
      are digits and the next one, if any, is not. */
  lemma DigitRunLength(s: string, k: nat, radix: nat)
    requires k <= |s| && forall i :: 0 <= i < k ==> IsRadixDigit(s[i], radix)
    requires k == |s| || !IsRadixDigit(s[k], radix)
    ensures DigitPrefixLength(s, radix) == k
  {
  }

  /** A run of decimal digits followed by anything that neither continues
      the run nor turns a lone "0" into a hexadecimal prefix. */
  lemma {:induction false} MagnitudeOfDecimalRun(d: string, rest: string)
    requires d != [] && forall i :: 0 <= i < |d| ==> '0' <= d[i] <= '9'
    requires rest == [] || !IsRadixDigit(rest[0], 10)
    requires !(d == "0" && rest != [] && (rest[0] == 'x' || rest[0] == 'X'))
    ensures ParseMagnitude(d + rest) == Int(DigitsValue(d, 10))
  {
    var u := d + rest;
    assert !(|u| >= 2 && u[0] == '0' && (u[1] == 'x' || u[1] == 'X')) by {
      if |d| >= 2 {
        assert u[1] == d[1];
      } else if |u| >= 2 && u[0] == '0' {
        assert d == "0" && u[1] == rest[0];
      }
    }
    assert forall i :: 0 <= i < |d| ==> u[i] == d[i];
    assert |d| < |u| ==> u[|d|] == rest[0];
    DigitRunLength(u, |d|, 10);
    assert u[..|d|] == d;
  }

  lemma {:induction false} MagnitudeOfDigits(s: string)
    requires s != [] && forall i :: 0 <= i < |s| ==> '0' <= s[i] <= '9'
    ensures ParseMagnitude(s) == Int(DigitsValue(s, 10))
  {
    MagnitudeOfDecimalRun(s, []);
    assert s + [] == s;
  }

  /** `parseInt` reads a leading run of decimal digits and ignores whatever
      follows it, unless the run is a lone "0" followed by "x" or "X". */
  lemma {:induction false} ParseIntIgnoresRest(d: string, rest: string)
    requires d != [] && forall i :: 0 <= i < |d| ==> '0' <= d[i] <= '9'
    requires rest == [] || !IsRadixDigit(rest[0], 10)
    requires !(d == "0" && rest != [] && (rest[0] == 'x' || rest[0] == 'X'))
    ensures ParseInt(d + rest) == Int(DigitsValue(d, 10))
    ensures ParseInt(d + rest) == ParseInt(d)
  {
    MagnitudeOfDecimalRun(d, rest);
    ParseIntLeadingDigit(d + rest);
    MagnitudeOfDigits(d);
    ParseIntLeadingDigit(d);
  }

  /** `parseInt` reads a run of decimal digits, with or without a minus sign,
      as long as it does not start with "0x". */
  lemma {:induction false} ParseIntDigits(s: string)
    requires s != [] && forall i :: 0 <= i < |s| ==> '0' <= s[i] <= '9'
    ensures ParseInt(s) == Int(DigitsValue(s, 10))
    ensures ParseInt("-" + s) == Int(-(DigitsValue(s, 10) as int))
  {
    var v := DigitsValue(s, 10);
    MagnitudeOfDigits(s);
    assert Negate(ParseMagnitude(s)) == Int(-(v as int));
    ParseIntLeadingDigit(s);
    ParseIntLeadingMinus(s);
  }

  /** `parseInt` reads back every decimal rendering of a non-negative integer,
      with or without a minus sign in front of it. */
  lemma {:induction false} ParseIntDecimal(n: nat)
    ensures ParseInt(DecimalString(n)) == Int(n)
    ensures ParseInt("-" + DecimalString(n)) == Int(-(n as int))
  {
    ParseIntDigits(DecimalString(n));
    DigitsValueOfDecimal(n);
  }

  /** After "0x" or "0X", `parseInt` reads the longest run of hexadecimal
      digits and ignores what follows it; with no such digit it gives NaN. */
  lemma {:induction false} ParseIntHex(x: char, h: string, rest: string)
    requires x == 'x' || x == 'X'
    requires forall i :: 0 <= i < |h| ==> IsRadixDigit(h[i], 16)
    requires rest == [] || !IsRadixDigit(rest[0], 16)
    ensures ParseInt(['0', x] + h + rest) == if h == [] then NaN else Int(DigitsValue(h, 16))
  {
    var u := ['0', x] + h + rest;
    assert u[2..] == h + rest;
    assert forall i :: 0 <= i < |h| ==> (h + rest)[i] == h[i];
    assert |h| < |h + rest| ==> (h + rest)[|h|] == rest[0];
    DigitRunLength(h + rest, |h|, 16);
    assert (h + rest)[..|h|] == h;
    ParseIntLeadingDigit(u);
  }
}
