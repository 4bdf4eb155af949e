/**
 * The numeric part of Python's `float(text)`, restricted to plain decimal
 * literals: an optional sign, digits, and an optional `.` with a fraction.
 * A literal denotes the exact rational `mantissa / 10^scale`; IEEE rounding
 * is not modelled.
 */
module Decimal {
  import opened Wrappers

  /** The exact number `mantissa / 10^scale`; `scale` counts the fraction digits written. */
  datatype Decimal = Decimal(mantissa: int, scale: nat)

  function Pow10(k: nat): (r: nat)
    ensures r >= 1
  {
    if k == 0 then 1 else 10 * Pow10(k - 1)
  }

  function Value(d: Decimal): real {
    d.mantissa as real / Pow10(d.scale) as real
  }

  predicate IsDigit(c: char) {
    '0' <= c <= '9'
  }

  predicate IsSign(c: char) {
    c == '+' || c == '-'
  }

  predicate AllDigits(s: string) {
    forall i :: 0 <= i < |s| ==> IsDigit(s[i])
  }

  function DigitValue(c: char): (n: nat)
    requires IsDigit(c)
    ensures n < 10
  {
    c as int - '0' as int
  }

  function Digit(n: nat): (c: char)
    requires n < 10
    ensures IsDigit(c) && DigitValue(c) == n
  {
    ('0' as int + n) as char
  }

  /** The number a run of decimal digits denotes, most significant first. */
  function DigitsValue(s: string): (n: nat)
    requires AllDigits(s)
    ensures n < Pow10(|s|)
  {
    if s == [] then 0
    else
      var m := DigitsValue(s[..|s| - 1]);
      assert m + 1 <= Pow10(|s| - 1);
      assert (m + 1) * 10 <= Pow10(|s| - 1) * 10;
      m * 10 + DigitValue(s[|s| - 1])
  }

  lemma ShiftLeft(x: nat, p: nat, y: nat, c: nat)
    ensures (x * p + y) * 10 + c == x * (10 * p) + (y * 10 + c)
  {
  }

  /** Digits written after other digits shift those left by their own length. */
  lemma {:induction false} DigitsValueAppend(a: string, b: string)
    requires AllDigits(a) && AllDigits(b)
    ensures AllDigits(a + b)
    ensures DigitsValue(a + b) == DigitsValue(a) * Pow10(|b|) + DigitsValue(b)
  {
    if b == [] {
      assert a + b == a;
    } else {
      var b' := b[..|b| - 1];
      var c := DigitValue(b[|b| - 1]);
      assert (a + b)[..|a + b| - 1] == a + b';
      assert (a + b)[|a + b| - 1] == b[|b| - 1];
      DigitsValueAppend(a, b');
      assert DigitsValue(a + b) == DigitsValue(a + b') * 10 + c;
      assert DigitsValue(b) == DigitsValue(b') * 10 + c;
      ShiftLeft(DigitsValue(a), Pow10(|b'|), DigitsValue(b'), c);
    }
  }

  /** The length of the run of digits that `s` starts with. */
  function DigitRun(s: string): (k: nat)
    ensures k <= |s| && AllDigits(s[..k])
    ensures k < |s| ==> !IsDigit(s[k])
  {
    if s == [] || !IsDigit(s[0]) then 0
    else
      var k := 1 + DigitRun(s[1..]);
      assert forall i :: 1 <= i < k ==> s[..k][i] == s[1..][..k - 1][i - 1];
      k
  }

  /** Digits without a point: `digits`. */
  function Whole(ip: string): Option<Decimal>
    requires AllDigits(ip)
  {
    if ip == [] then None else Some(Decimal(DigitsValue(ip), 0))
  }

  /**
   * Digits around a point: `digits.`, `.digits` or `digits.digits`. All the
   * digits read together give the mantissa; those after the point, the scale.
   */
  function Pointed(ip: string, fp: string): Option<Decimal>
    requires AllDigits(ip)
  {
    if AllDigits(fp) && (ip != [] || fp != []) then
      assert AllDigits(ip + fp) by {
        assert forall i :: |ip| <= i < |ip + fp| ==> (ip + fp)[i] == fp[i - |ip|];
      }
      Some(Decimal(DigitsValue(ip + fp), |fp|))
    else
      None
  }

  /** An unsigned literal: a run of digits, then nothing or a `.` and the fraction. */
  function ParseUnsigned(s: string): Option<Decimal> {
    var k := DigitRun(s);
    if k == |s| then Whole(s)
    else if s[k] == '.' then Pointed(s[..k], s[k + 1..])
    else None
  }

  /** A literal with an optional leading `+` or `-`. */
  function ParseDecimal(s: string): Option<Decimal> {
    if |s| > 0 && IsSign(s[0]) then
      match ParseUnsigned(s[1..])
      case None => None
      case Some(d) => Some(if s[0] == '-' then Decimal(-d.mantissa, d.scale) else d)
    else
      ParseUnsigned(s)
  }

  // ---------------------------------------------------------------------
  // The grammar of literals, stated independently of the parser.

  /** `s` with one leading sign removed, if it has one. */
  function Unsigned(s: string): string {
    if |s| > 0 && IsSign(s[0]) then s[1..] else s
  }

  /**
   * The grammar of an unsigned literal as a left-to-right scan: digits and
   * at most one `.`, with at least one digit somewhere. `dot` records that
   * the point has been passed, `digit` that a digit has been seen. These are
   * the unsigned literals `float` accepts once exponents, `inf`, `nan` and
   * `_` are set aside.
   */
  predicate Scan(s: string, dot: bool, digit: bool) {
    if s == [] then digit
    else if IsDigit(s[0]) then Scan(s[1..], dot, true)
    else if s[0] == '.' && !dot then Scan(s[1..], true, digit)
    else false
  }

  predicate WellFormed(s: string) {
    Scan(Unsigned(s), false, false)
  }

  /** After the point only digits may follow. */
  lemma {:induction false} ScanFraction(s: string, digit: bool)
    ensures Scan(s, true, digit) <==> AllDigits(s) && (digit || s != [])
  {
    if s != [] {
      ScanFraction(s[1..], digit || IsDigit(s[0]));
      if IsDigit(s[0]) && AllDigits(s[1..]) {
        assert forall i :: 1 <= i < |s| ==> s[i] == s[1..][i - 1];
      }
    }
  }

  /** A run of digits before the point only records that a digit was seen. */
  lemma {:induction false} ScanDigits(ip: string, rest: string, digit: bool)
    requires AllDigits(ip)
    ensures Scan(ip + rest, false, digit) == Scan(rest, false, digit || ip != [])
  {
    if ip == [] {
      assert ip + rest == rest;
    } else {
      assert (ip + rest)[0] == ip[0];
      assert (ip + rest)[1..] == ip[1..] + rest;
      ScanDigits(ip[1..], rest, true);
    }
  }

  lemma ParseUnsignedIff(s: string)
    ensures ParseUnsigned(s).Some? <==> Scan(s, false, false)
  {
    var k := DigitRun(s);
    var ip, rest := s[..k], s[k..];
    assert s == ip + rest;
    ScanDigits(ip, rest, false);
    if k < |s| && s[k] == '.' {
      assert rest[1..] == s[k + 1..];
      ScanFraction(s[k + 1..], ip != []);
    }
  }

  /** The parser accepts exactly the well-formed literals. */
  lemma ParseDecimalIff(s: string)
    ensures ParseDecimal(s).Some? <==> WellFormed(s)
  {
    ParseUnsignedIff(Unsigned(s));
  }

  // ---------------------------------------------------------------------
  // Writing a decimal back as a literal: the partner of the parser.

  /** The shortest digit string for `n`. */
  function DigitsOf(n: nat): (s: string)
    ensures |s| > 0 && AllDigits(s)
    ensures DigitsValue(s) == n
  {
    if n < 10 then
      [Digit(n)]
    else
      var s := DigitsOf(n / 10) + [Digit(n % 10)];
      assert s[..|s| - 1] == DigitsOf(n / 10);
      s
  }

  function Zeros(k: nat): (s: string)
    ensures |s| == k && AllDigits(s)
    ensures DigitsValue(s) == 0
  {
    if k == 0 then []
    else
      var s := Zeros(k - 1) + ['0'];
      assert s[..|s| - 1] == Zeros(k - 1);
      s
  }

  /** The digits of `n`, padded on the left with zeros to at least `width`. */
  function PaddedDigits(n: nat, width: nat): (s: string)
    ensures |s| >= width && AllDigits(s)
    ensures DigitsValue(s) == n
  {
    var d := DigitsOf(n);
    var z := Zeros(if |d| < width then width - |d| else 0);
    DigitsValueAppend(z, d);
    z + d
  }

  /** `n / 10^scale` as an unsigned literal with exactly `scale` fraction digits. */
  function FormatUnsigned(n: nat, scale: nat): (s: string)
    ensures |s| > 0 && IsDigit(s[0]) && IsDigit(s[|s| - 1])
    ensures forall i :: 0 <= i < |s| ==> IsDigit(s[i]) || s[i] == '.'
  {
    var digits := PaddedDigits(n, scale + 1);
    var point := |digits| - scale;
    var s := digits[..point] + (if scale == 0 then "" else "." + digits[point..]);
    assert forall i :: point < i < |s| ==> s[i] == digits[i - 1];
    s
  }

  /** `d` as a literal with exactly `d.scale` fraction digits, e.g. `-0.50` for `Decimal(-50, 2)`. */
  function Format(d: Decimal): (s: string)
    ensures |s| > 0 && IsDigit(s[|s| - 1])
    ensures forall i :: 0 <= i < |s| ==> IsDigit(s[i]) || s[i] == '.' || s[i] == '-'
  {
    if d.mantissa < 0 then "-" + FormatUnsigned(-d.mantissa, d.scale)
    else FormatUnsigned(d.mantissa, d.scale)
  }

  lemma DigitRunStops(a: string, b: string)
    requires AllDigits(a)
    requires b == [] || !IsDigit(b[0])
    ensures DigitRun(a + b) == |a|
  {
    var k := DigitRun(a + b);
    assert forall i :: 0 <= i < k ==> (a + b)[..k][i] == (a + b)[i];
    assert |a| < |a + b| ==> (a + b)[|a|] == b[0];
  }

  lemma ParseWhole(ip: string)
    requires |ip| > 0 && AllDigits(ip)
    ensures ParseUnsigned(ip) == Some(Decimal(DigitsValue(ip), 0))
  {
    DigitRunStops(ip, []);
    assert ip + [] == ip;
  }

  lemma ParsePointed(ip: string, fp: string)
    requires |ip| > 0 && AllDigits(ip) && AllDigits(fp)
    ensures AllDigits(ip + fp)
    ensures ParseUnsigned(ip + "." + fp) == Some(Decimal(DigitsValue(ip + fp), |fp|))
  {
    var s := ip + "." + fp;
    var k := |ip|;
    assert s == ip + ("." + fp);
    DigitRunStops(ip, "." + fp);
    assert s[k] == '.';
    assert s[..k] == ip;
    assert s[k + 1..] == fp;
    assert DigitRun(s) == k;
  }

  lemma ParseUnsignedFormat(n: nat, scale: nat)
    ensures ParseUnsigned(FormatUnsigned(n, scale)) == Some(Decimal(n, scale))
  {
    var digits := PaddedDigits(n, scale + 1);
    var point := |digits| - scale;
    var ip, fp := digits[..point], digits[point..];
    assert digits == ip + fp;
    assert AllDigits(ip) && AllDigits(fp);
    if scale == 0 {
      assert ip == digits;
      assert FormatUnsigned(n, scale) == ip;
      ParseWhole(ip);
    } else {
      assert FormatUnsigned(n, scale) == ip + "." + fp;
      ParsePointed(ip, fp);
    }
  }

  lemma ParseMinus(f: string, u: Decimal)
    requires ParseUnsigned(f) == Some(u)
    ensures ParseDecimal("-" + f) == Some(Decimal(-u.mantissa, u.scale))
  {
    var s := "-" + f;
    assert s[0] == '-' && s[1..] == f;
  }

  lemma ParseNegated(d: Decimal)
    requires d.mantissa < 0
    ensures ParseDecimal(Format(d)) == Some(d)
  {
    var u := Decimal(-d.mantissa, d.scale);
    var f := FormatUnsigned(u.mantissa, u.scale);
    assert Format(d) == "-" + f;
    ParseUnsignedFormat(u.mantissa, u.scale);
    ParseMinus(f, u);
  }

  lemma ParseNonNegative(d: Decimal)
    requires d.mantissa >= 0
    ensures ParseDecimal(Format(d)) == Some(d)
  {
    var f := FormatUnsigned(d.mantissa, d.scale);
    assert Format(d) == f;
    assert !IsSign(f[0]);
    assert ParseUnsigned(f) == Some(d) by {
      ParseUnsignedFormat(d.mantissa, d.scale);
    }
  }

  /** Parsing a formatted decimal gives back exactly that decimal. */
  lemma ParseFormat(d: Decimal)
    ensures ParseDecimal(Format(d)) == Some(d)
  {
    if d.mantissa < 0 {
      ParseNegated(d);
    } else {
      ParseNonNegative(d);
    }
  }
}
