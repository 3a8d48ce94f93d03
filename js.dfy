/**
 * The JavaScript coercions the route handlers apply to request bodies: truthiness and `||`
 * defaults, `parseInt(x) || 0` (section 19.2.5 of ECMA-262) and `parseFloat(x) || 0`
 * (section 19.2.4), with amounts of money read to the cent.
 */
module Js {
  import opened Wrappers
  import opened Text

  /**
   * A request-body value that the handlers coerce: missing (`undefined`/`null`), a JSON string,
   * or a JSON number already expressed in the field's unit (a count, or cents for money).
   */
  datatype Input = Absent | Str(s: string) | Num(n: int)

  /** JavaScript truthiness of an optional string: `undefined`, `null` and `""` are falsy. */
  predicate Present(x: Option<string>) {
    x.Some? && x.value != ""
  }

  /** JavaScript truthiness of a body value: a missing value, `""` and the number 0 are falsy, the text "0" is not. */
  predicate Truthy(x: Input) {
    match x
    case Absent => false
    case Str(s) => s != ""
    case Num(n) => n != 0
  }

  /** `x || d` on an optional string. */
  function Or(x: Option<string>, d: string): string {
    if Present(x) then x.value else d
  }

  /** ECMAScript `WhiteSpace` and `LineTerminator` code points, which `parseInt` and `parseFloat` skip. */
  predicate IsSpace(c: char) {
    c == '\t' || c == '\n' || c == '\U{B}' || c == '\U{C}' || c == '\r' || c == ' '
    || c == '\U{A0}' || c == '\U{1680}' || ('\U{2000}' <= c <= '\U{200A}')
    || c == '\U{2028}' || c == '\U{2029}' || c == '\U{202F}' || c == '\U{205F}'
    || c == '\U{3000}' || c == '\U{FEFF}'
  }

  /** The string with its leading white space removed. */
  function TrimStart(s: string): (r: string)
    ensures |r| <= |s| && r == s[|s| - |r|..]
    ensures forall i :: 0 <= i < |s| - |r| ==> IsSpace(s[i])
    ensures r == [] || !IsSpace(r[0])
  {
    if s != [] && IsSpace(s[0]) then TrimStart(s[1..]) else s
  }

  /** The value of `c` as a hexadecimal digit, or 16 when it is not one. */
  function DigitValue(c: char): (d: nat)
    ensures d <= 16
  {
    if '0' <= c <= '9' then c as int - '0' as int
    else if 'a' <= c <= 'f' then c as int - 'a' as int + 10
    else if 'A' <= c <= 'F' then c as int - 'A' as int + 10
    else 16
  }

  predicate IsDigitIn(c: char, radix: nat) {
    DigitValue(c) < radix
  }

  /** The length of the longest prefix of `s` made of digits of `radix`. */
  function DigitRun(s: string, radix: nat): (n: nat)
    ensures n <= |s|
    ensures forall i :: 0 <= i < n ==> IsDigitIn(s[i], radix)
    ensures n < |s| ==> !IsDigitIn(s[n], radix)
  {
    if s != [] && IsDigitIn(s[0], radix) then 1 + DigitRun(s[1..], radix) else 0
  }

  /** The number that the digit string `z` denotes in base `radix`. */
  function ValueOf(z: string, radix: nat): nat {
    if z == [] then 0 else ValueOf(z[..|z| - 1], radix) * radix + DigitValue(z[|z| - 1])
  }

  function Pow(radix: nat, k: nat): (r: nat)
    ensures radix > 0 ==> r > 0
  {
    if k == 0 then 1 else radix * Pow(radix, k - 1)
  }

  /** A leading `-` or `+` taken off: whether it was `-`, and the text after it. */
  function StripSign(t: string): (r: (bool, string))
    ensures r.1 == if t != [] && (t[0] == '-' || t[0] == '+') then t[1..] else t
    ensures r.0 <==> t != [] && t[0] == '-'
  {
    if t != [] && (t[0] == '-' || t[0] == '+') then (t[0] == '-', t[1..]) else (false, t)
  }

  /** Applies a sign read by `StripSign`. */
  function Signed(negative: bool, m: nat): int {
    if negative then -(m as int) else m
  }

  /** The unsigned part of `parseInt`: a `0x`/`0X` prefix selects base 16, otherwise base 10. */
  function ParseMagnitude(u: string): Option<nat> {
    var hex := |u| >= 2 && u[0] == '0' && (u[1] == 'x' || u[1] == 'X');
    var radix := if hex then 16 else 10;
    var v := if hex then u[2..] else u;
    var n := DigitRun(v, radix);
    if n == 0 then None else Some(ValueOf(v[..n], radix))
  }

  /** `parseInt(s)` with no radix: `None` stands for `NaN`. */
  function ParseIntText(s: string): Option<int> {
    var (negative, u) := StripSign(TrimStart(s));
    match ParseMagnitude(u)
    case None => None
    case Some(m) => Some(Signed(negative, m))
  }

  /** `parseInt(x)`: a number is read back from its own decimal text. */
  function ParseInt(x: Input): (p: Option<int>)
    ensures x.Absent? ==> p.None?
    ensures x.Num? ==> p == Some(x.n)
    ensures x.Str? ==> p == ParseIntText(x.s)
  {
    match x
    case Absent => None
    case Str(s) => ParseIntText(s)
    case Num(n) => Some(n)
  }

  /** `parseInt(x) || 0`: `NaN` becomes 0. */
  function CoerceInt(x: Input): (n: int)
    ensures ParseInt(x).Some? ==> n == ParseInt(x).value
    ensures ParseInt(x).None? ==> n == 0
  {
    ParseInt(x).GetOr(0)
  }

  /** The number read by `parseFloat`: its sign, integer digits, fraction digits and exponent. */
  datatype Decimal = Decimal(negative: bool, intDigits: string, fracDigits: string, exponent: int)

  /** The value of a leading `ExponentPart` (`e`, an optional sign, digits), or 0 when there is none. */
  function Exponent(s: string): int {
    if |s| >= 1 && (s[0] == 'e' || s[0] == 'E') then
      var (negative, body) := StripSign(s[1..]);
      var n := DigitRun(body, 10);
      if n == 0 then 0 else Signed(negative, ValueOf(body[..n], 10))
    else 0
  }

  /**
   * The unsigned part of a decimal literal at the start of `u`: integer digits, then an optional
   * `.` and fraction digits, then an optional exponent; at least one digit is needed.
   */
  function ScanUnsigned(u: string, negative: bool): Option<Decimal> {
    var i := DigitRun(u, 10);
    var rest := u[i..];
    var dot := rest != [] && rest[0] == '.';
    var f := if dot then DigitRun(rest[1..], 10) else 0;
    if i == 0 && f == 0 then None
    else
      var after := if dot then rest[1 + f..] else rest;
      Some(Decimal(negative, u[..i], if dot then rest[1..1 + f] else "", Exponent(after)))
  }

  /** The longest prefix of `s`, after white space, that is a decimal literal; `None` stands for `NaN`. */
  function ScanDecimal(s: string): Option<Decimal> {
    var (negative, u) := StripSign(TrimStart(s));
    ScanUnsigned(u, negative)
  }

  /** A decimal number in cents; digits below the cent are dropped. */
  function DecimalCents(d: Decimal): int {
    Signed(d.negative, Scale(ValueOf(d.intDigits + d.fracDigits, 10), d.exponent - |d.fracDigits| + 2))
  }

  /** `digits * 10^scale`, dropping what falls below 1 when `scale` is negative. */
  function Scale(digits: nat, scale: int): nat {
    if scale >= 0 then digits * Pow(10, scale) else digits / Pow(10, -scale)
  }

  /** `parseFloat(x)` in cents. */
  function ParseFloatCents(x: Input): (p: Option<int>)
    ensures x.Absent? ==> p.None?
    ensures x.Num? ==> p == Some(x.n)
    ensures x.Str? ==> (p.Some? <==> ScanDecimal(x.s).Some?)
    ensures x.Str? && p.Some? ==> p.value == DecimalCents(ScanDecimal(x.s).value)
  {
    match x
    case Absent => None
    case Str(s) => (match ScanDecimal(s) case None => None case Some(d) => Some(DecimalCents(d)))
    case Num(n) => Some(n)
  }

  /** `parseFloat(x) || 0` in cents. */
  function CoerceCents(x: Input): (c: int)
    ensures ParseFloatCents(x).Some? ==> c == ParseFloatCents(x).value
    ensures ParseFloatCents(x).None? ==> c == 0
  {
    ParseFloatCents(x).GetOr(0)
  }

  /** JavaScript's `String(c / 100)`: the shortest decimal text of an amount of cents. */
  function CentsToString(c: int): (r: string)
    ensures |r| >= 1
  {
    var a := if c < 0 then -c else c;
    var f := a % 100;
    var frac := if f == 0 then "" else if f % 10 == 0 then "." + [DigitChar(f / 10)] else "." + [DigitChar(f / 10), DigitChar(f % 10)];
    (if c < 0 then "-" else "") + NatToString(a / 100) + frac
  }

  // ----- properties -----

  /** Text that does not start with white space is not trimmed. */
  lemma TrimStartNoSpace(s: string)
    requires s == [] || !IsSpace(s[0])
    ensures TrimStart(s) == s
  {
  }

  /** Leading white space does not change what `parseInt` reads. */
  lemma {:induction false} ParseIntSkipsSpace(w: string, s: string)
    requires forall i :: 0 <= i < |w| ==> IsSpace(w[i])
    ensures ParseIntText(w + s) == ParseIntText(s)
  {
    TrimStartAfterSpace(w, s);
  }

  lemma {:induction false} TrimStartAfterSpace(w: string, s: string)
    requires forall i :: 0 <= i < |w| ==> IsSpace(w[i])
    ensures TrimStart(w + s) == TrimStart(s)
  {
    if w == [] {
      assert w + s == s;
    } else {
      assert (w + s)[1..] == w[1..] + s;
      TrimStartAfterSpace(w[1..], s);
    }
  }

  /** A run of digits followed by a non-digit is read up to that non-digit. */
  lemma {:induction false} DigitRunPrefix(d: string, r: string, radix: nat)
    requires forall i :: 0 <= i < |d| ==> IsDigitIn(d[i], radix)
    requires r == [] || !IsDigitIn(r[0], radix)
    ensures DigitRun(d + r, radix) == |d|
  {
    if d == [] {
      assert d + r == r;
    } else {
      assert (d + r)[1..] == d[1..] + r;
      DigitRunPrefix(d[1..], r, radix);
    }
  }

  /** Appending a digit multiplies by the base and adds the digit. */
  lemma ValueOfSnoc(z: string, c: char, radix: nat)
    ensures ValueOf(z + [c], radix) == ValueOf(z, radix) * radix + DigitValue(c)
  {
    assert (z + [c])[..|z|] == z;
  }

  lemma Distribute(a: int, p: int, b: int, r: int, c: int)
    ensures (a * p + b) * r + c == a * (r * p) + (b * r + c)
  {
  }

  /** The value of two digit strings written one after the other. */
  lemma {:induction false} ValueOfConcat(x: string, y: string, radix: nat)
    ensures ValueOf(x + y, radix) == ValueOf(x, radix) * Pow(radix, |y|) + ValueOf(y, radix)
    decreases |y|
  {
    if y == [] {
      assert x + y == x;
    } else {
      var y', c := y[..|y| - 1], y[|y| - 1];
      assert x + y == (x + y') + [c];
      assert y == y' + [c];
      ValueOfSnoc(x + y', c, radix);
      ValueOfSnoc(y', c, radix);
      ValueOfConcat(x, y', radix);
      Distribute(ValueOf(x, radix), Pow(radix, |y'|), ValueOf(y', radix), radix, DigitValue(c));
    }
  }

  lemma DigitCharValue(d: nat)
    requires d < 16
    ensures DigitValue(DigitChar(d)) == d && IsDigitIn(DigitChar(d), 16)
    ensures d < 10 ==> IsDigitIn(DigitChar(d), 10) && IsDigit(DigitChar(d))
  {
  }

  /** Decimal text is read back as the number it was written from. */
  lemma {:induction false} ValueOfNatToString(n: nat)
    ensures ValueOf(NatToString(n), 10) == n
    ensures forall i :: 0 <= i < |NatToString(n)| ==> IsDigitIn(NatToString(n)[i], 10)
  {
    var z := NatToString(n);
    if n < 10 {
      DigitCharValue(n);
      assert z[..0] == [];
    } else {
      ValueOfNatToString(n / 10);
      DigitCharValue(n % 10);
      assert z[..|z| - 1] == NatToString(n / 10);
    }
  }

  /** The decimal text of `m`, followed by text that does not continue it, has magnitude `m`. */
  lemma MagnitudeOfDigits(m: nat, t: string)
    requires t == [] || !IsDigit(t[0])
    requires m == 0 ==> t == [] || (t[0] != 'x' && t[0] != 'X')
    ensures ParseMagnitude(NatToString(m) + t) == Some(m)
  {
    var z := NatToString(m);
    ValueOfNatToString(m);
    assert !(|z| >= 2 && z[0] == '0');
    assert t != [] ==> !IsDigitIn(t[0], 10);
    DigitRunPrefix(z, t, 10);
    assert (z + t)[..|z|] == z;
  }

  /** Digits with an optional minus sign in front lose only that sign before the digits are read. */
  lemma SignOfDigitsText(negative: bool, z: string)
    requires z != [] && IsDigit(z[0])
    ensures StripSign(TrimStart((if negative then "-" else "") + z)) == (negative, z)
  {
    var s := (if negative then "-" else "") + z;
    if negative {
      assert s[0] == '-' && s[1..] == z;
    } else {
      assert s == z;
    }
    TrimStartNoSpace(s);
  }

  /** The text of an integer, followed by anything, loses only its sign before the digits are read. */
  lemma SignOfIntText(n: int, t: string)
    ensures StripSign(TrimStart(IntToString(n) + t)) == (n < 0, NatToString(if n < 0 then -n else n) + t)
  {
    var z := NatToString(if n < 0 then -n else n);
    DigitCharValue(0);
    assert IsDigit(z[0]);
    assert IntToString(n) + t == (if n < 0 then "-" else "") + (z + t);
    SignOfDigitsText(n < 0, z + t);
  }

  /** `parseInt` stops at the first character that is not a digit: `parseInt("12px")` is 12. */
  lemma ParseIntIgnoresTail(n: int, t: string)
    requires t == [] || !IsDigit(t[0])
    requires n == 0 ==> t == [] || (t[0] != 'x' && t[0] != 'X')
    ensures ParseIntText(IntToString(n) + t) == Some(n)
  {
    var m: nat := if n < 0 then -n else n;
    SignOfIntText(n, t);
    MagnitudeOfDigits(m, t);
  }

  /** `parseInt(String(n)) == n`: the decimal text of an integer parses back to it. */
  lemma ParseIntOfString(n: int)
    ensures ParseIntText(IntToString(n)) == Some(n)
  {
    ParseIntIgnoresTail(n, []);
    assert IntToString(n) + [] == IntToString(n);
  }

  /** `parseInt` of text with no leading digit is `NaN`, so `parseInt(x) || 0` is 0. */
  lemma ParseIntNoDigits(s: string)
    requires s == [] || (!IsDigitIn(s[0], 10) && !IsSpace(s[0]) && s[0] != '-' && s[0] != '+')
    ensures ParseIntText(s) == None
    ensures CoerceInt(Str(s)) == 0
  {
    TrimStartNoSpace(s);
  }

  /** Text that starts with no digit, point, sign or white space is `NaN` to `parseFloat`, so it becomes 0. */
  lemma ParseFloatNoDigits(s: string)
    requires s == [] || (!IsDigitIn(s[0], 10) && !IsSpace(s[0]) && s[0] != '-' && s[0] != '+' && s[0] != '.')
    ensures ParseFloatCents(Str(s)) == None
    ensures CoerceCents(Str(s)) == 0
  {
    TrimStartNoSpace(s);
  }

  /** The fraction digits `CentsToString` writes for the last two decimal digits `f` of an amount. */
  function FracDigits(f: nat): string
    requires f < 100
  {
    if f == 0 then "" else if f % 10 == 0 then [DigitChar(f / 10)] else [DigitChar(f / 10), DigitChar(f % 10)]
  }

  /** The fraction digits read back, scaled to cents, give `f` again. */
  lemma FracDigitsValue(w: nat, f: nat)
    requires f < 100
    ensures forall i :: 0 <= i < |FracDigits(f)| ==> IsDigitIn(FracDigits(f)[i], 10)
    ensures ValueOf(NatToString(w) + FracDigits(f), 10) * Pow(10, 2 - |FracDigits(f)|) == w * 100 + f
  {
    var z, d := NatToString(w), FracDigits(f);
    ValueOfNatToString(w);
    DigitCharValue(f / 10);
    DigitCharValue(f % 10);
    if f == 0 {
      assert z + d == z;
      assert Pow(10, 2) == 100;
    } else if f % 10 == 0 {
      ValueOfSnoc(z, DigitChar(f / 10), 10);
      assert z + d == z + [DigitChar(f / 10)];
      assert Pow(10, 1) == 10;
    } else {
      ValueOfSnoc(z, DigitChar(f / 10), 10);
      ValueOfSnoc(z + [DigitChar(f / 10)], DigitChar(f % 10), 10);
      assert z + d == z + [DigitChar(f / 10)] + [DigitChar(f % 10)];
      assert Pow(10, 0) == 1;
    }
  }

  /** The unsigned part of an amount's text scans as its digits with no exponent. */
  lemma ScanAmount(w: nat, f: nat, negative: bool)
    requires f < 100
    ensures ScanUnsigned(NatToString(w) + (if f == 0 then "" else "." + FracDigits(f)), negative)
         == Some(Decimal(negative, NatToString(w), FracDigits(f), 0))
  {
    var z, d := NatToString(w), FracDigits(f);
    var frac := if f == 0 then "" else "." + d;
    var u := z + frac;
    ValueOfNatToString(w);
    FracDigitsValue(w, f);
    DigitRunPrefix(z, frac, 10);
    assert u[..|z|] == z && u[|z|..] == frac;
    assert Exponent([]) == 0;
    if f == 0 {
      assert d == "";
    } else {
      DigitRunPrefix(d, [], 10);
      assert d + [] == d;
      assert frac[1..] == d && frac[1..1 + |d|] == d && frac[1 + |d|..] == [];
    }
  }

  /** The text of an amount loses only its sign before the digits are scanned. */
  lemma SignOfAmountText(c: int)
    ensures var a := if c < 0 then -c else c;
      StripSign(TrimStart(CentsToString(c)))
        == (c < 0, NatToString(a / 100) + (if a % 100 == 0 then "" else "." + FracDigits(a % 100)))
  {
    var a: nat := if c < 0 then -c else c;
    var f := a % 100;
    var z := NatToString(a / 100);
    var frac := if f == 0 then "" else "." + FracDigits(f);
    assert frac == (if f == 0 then "" else if f % 10 == 0 then "." + [DigitChar(f / 10)] else "." + [DigitChar(f / 10), DigitChar(f % 10)]);
    assert CentsToString(c) == (if c < 0 then "-" else "") + (z + frac);
    DigitCharValue(0);
    assert IsDigit(z[0]);
    SignOfDigitsText(c < 0, z + frac);
  }

  /** `parseFloat(String(c / 100))` gives back the amount `c`. */
  lemma ParseFloatOfString(c: int)
    ensures ParseFloatCents(Str(CentsToString(c))) == Some(c)
  {
    var a: nat := if c < 0 then -c else c;
    var w, f := a / 100, a % 100;
    var z, d := NatToString(w), FracDigits(f);
    var s := CentsToString(c);
    SignOfAmountText(c);
    ScanAmount(w, f, c < 0);
    var dec := Decimal(c < 0, z, d, 0);
    ScanDecimalOfUnsigned(s, c < 0, z + (if f == 0 then "" else "." + d));
    assert ScanDecimal(s) == Some(dec);
    AmountCents(w, f, c < 0);
    assert a == w * 100 + f;
  }

  lemma ScanDecimalOfUnsigned(s: string, negative: bool, u: string)
    requires StripSign(TrimStart(s)) == (negative, u)
    ensures ScanDecimal(s) == ScanUnsigned(u, negative)
  {
  }

  /** The scanned digits of an amount are worth `w * 100 + f` cents. */
  lemma AmountCents(w: nat, f: nat, negative: bool)
    requires f < 100
    ensures DecimalCents(Decimal(negative, NatToString(w), FracDigits(f), 0)) == Signed(negative, w * 100 + f)
  {
    var d := FracDigits(f);
    FracDigitsValue(w, f);
    assert |d| <= 2;
  }
}
