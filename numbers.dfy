/** Decimal text and numbers: the digit strings that `toString` and
    `toLocaleString` produce, and the prefix parser `Number.parseFloat`. */
module Numbers {
  import opened Optional
  import Text

  function Pow10(n: nat): (r: nat)
    ensures r >= 1
  {
    if n == 0 then 1 else 10 * Pow10(n - 1)
  }

  predicate IsDigit(c: char) { '0' <= c <= '9' }

  predicate AllDigits(s: string)
  {
    forall i :: 0 <= i < |s| ==> IsDigit(s[i])
  }

  function DigitChar(d: nat): (c: char)
    requires d < 10
    ensures IsDigit(c) && c as int - '0' as int == d
  {
    ('0' as int + d) as char
  }

  function DigitValue(c: char): nat
    requires IsDigit(c)
  {
    c as int - '0' as int
  }

  /** The number a string of decimal digits denotes, most significant first. */
  function DigitsValue(s: string): nat
    requires AllDigits(s)
  {
    if s == [] then 0 else 10 * DigitsValue(s[..|s| - 1]) + DigitValue(s[|s| - 1])
  }

  /** `n.toString()` for a natural number: decimal digits, no leading zero. */
  function NatToString(n: nat): (s: string)
    ensures |s| >= 1 && AllDigits(s)
    ensures |s| == 1 || s[0] != '0'
    ensures DigitsValue(s) == n
  {
    if n < 10 then [DigitChar(n)]
    else
      var p := NatToString(n / 10);
      var s := p + [DigitChar(n % 10)];
      assert s[..|s| - 1] == p;
      s
  }

  /** `n.toString()` for an integer: a minus sign before the digits of |n|. */
  function IntToString(n: int): (s: string)
    ensures s != [] && (n < 0 <==> s[0] == '-')
  {
    if n < 0 then "-" + NatToString(-n) else NatToString(n)
  }

  /** Euclidean division by a positive divisor, for natural numbers. */
  lemma DivFacts(m: nat, d: nat)
    requires d >= 1
    ensures 0 <= m / d <= m && 0 <= m % d < d && m == (m / d) * d + m % d
  {
  }

  /** Casting to real distributes over products. */
  lemma CastProduct(a: int, b: int)
    ensures (a * b) as real == a as real * b as real
  {
  }

  /** The `width` low-order digits of `n`, zero-padded on the left: the
      fraction part of an amount shown with a fixed number of decimals. */
  function PadDigits(n: nat, width: nat): (s: string)
    requires n < Pow10(width)
    ensures |s| == width && AllDigits(s)
    ensures DigitsValue(s) == n
  {
    if width == 0 then []
    else
      var p := PadDigits(n / 10, width - 1);
      var s := p + [DigitChar(n % 10)];
      assert s[..|s| - 1] == p;
      s
  }

  /** The length of the longest run of digits at the start of `s`. */
  function DigitRun(s: string): (k: nat)
    ensures k <= |s| && AllDigits(s[..k])
    ensures k == |s| || !IsDigit(s[k])
  {
    if s == [] || !IsDigit(s[0]) then 0
    else
      var k := 1 + DigitRun(s[1..]);
      assert s[..k] == [s[0]] + s[1..][..k - 1];
      k
  }

  /** A run of digits followed by something that is not a digit. */
  lemma {:induction false} DigitRunOf(d: string, rest: string)
    requires AllDigits(d)
    requires rest == [] || !IsDigit(rest[0])
    ensures DigitRun(d + rest) == |d|
  {
    if d != [] {
      assert (d + rest)[1..] == d[1..] + rest;
      DigitRunOf(d[1..], rest);
    }
  }

  /** `x` times 10 raised to the power `e`, one decimal place at a time. */
  function Shift(x: real, e: int): real
    decreases if e >= 0 then e else -e
  {
    if e == 0 then x
    else if e > 0 then 10.0 * Shift(x, e - 1)
    else Shift(x, e + 1) / 10.0
  }

  /** Shifting right by `k` places is division by 10^k. */
  lemma {:induction false} ShiftRight(x: real, k: nat)
    ensures Shift(x, 0 - k) == x / Pow10(k) as real
  {
    if k > 0 {
      ShiftRight(x, k - 1);
      assert Pow10(k) as real == 10.0 * Pow10(k - 1) as real;
    }
  }

  /** The minus sign that precedes a negative number's digits. */
  function SignText(negative: bool): string
  {
    if negative then "-" else ""
  }

  /** A decimal literal read from the front of a string: its value and the
      number of characters it spans. */
  datatype Literal = Literal(value: real, length: nat)

  /** The decimal literal that starts `u` (after any sign): digits, an
      optional "." and digits, at least one digit in all. */
  function Mantissa(u: string): Option<Literal>
  {
    var a := DigitRun(u);
    var rest := u[a..];
    var dot := |rest| > 0 && rest[0] == '.';
    var b := if dot then DigitRun(rest[1..]) else 0;
    if a + b == 0 then None
    else
      var frac := if dot then rest[1..][..b] else [];
      Some(Literal(DigitsValue(u[..a]) as real + Shift(DigitsValue(frac) as real, 0 - b),
                   a + (if dot then 1 + b else 0)))
  }

  /** An exponent part "e" or "E", an optional sign and at least one digit;
      None when `w` does not start with a complete one (parseFloat then
      ignores it). */
  function Exponent(w: string): Option<int>
  {
    if |w| == 0 || (w[0] != 'e' && w[0] != 'E') then None
    else
      var v := w[1..];
      var neg := |v| > 0 && v[0] == '-';
      var signed := |v| > 0 && (v[0] == '-' || v[0] == '+');
      var ds := if signed then v[1..] else v;
      var k := DigitRun(ds);
      if k == 0 then None
      else Some(if neg then -(DigitsValue(ds[..k]) as int) else DigitsValue(ds[..k]))
  }

  /** The longest unsigned decimal literal at the front of `u`, with its
      exponent applied when one follows. */
  function ParseUnsigned(u: string): Option<real>
  {
    match Mantissa(u)
    case None => None
    case Some(lit) =>
      match Exponent(u[lit.length..])
      case None => Some(lit.value)
      case Some(e) => Some(Shift(lit.value, e))
  }

  /** An optional leading "+" or "-": whether it is "-", and what follows. */
  function SplitSign(t: string): (bool, string)
  {
    if |t| > 0 && (t[0] == '-' || t[0] == '+') then (t[0] == '-', t[1..]) else (false, t)
  }

  /** `Number.parseFloat(s)`: leading whitespace skipped, an optional sign,
      then the longest prefix that is a decimal literal; None for NaN. */
  function ParseFloat(s: string): Option<real>
  {
    var sign := SplitSign(Text.TrimStart(s));
    match ParseUnsigned(sign.1)
    case None => None
    case Some(v) => Some(if sign.0 then -v else v)
  }

  /** Whether `u` starts a decimal literal: a digit, or "." and a digit. */
  predicate StartsLiteral(u: string)
  {
    (|u| > 0 && IsDigit(u[0])) || (|u| > 1 && u[0] == '.' && IsDigit(u[1]))
  }

  /** The mantissa is missing exactly when no literal starts at the front. */
  lemma MantissaMissing(u: string)
    ensures Mantissa(u) == None <==> !StartsLiteral(u)
  {
    var a := DigitRun(u);
    if |u| > 0 && IsDigit(u[0]) {
      assert a >= 1;
    } else {
      assert a == 0;
      assert u[a..] == u;
      if |u| > 1 && u[0] == '.' && IsDigit(u[1]) {
        assert DigitRun(u[1..]) >= 1;
      } else if |u| > 0 && u[0] == '.' {
        assert DigitRun(u[1..]) == 0;
      }
    }
  }

  /** `parseFloat` gives NaN exactly when, after leading whitespace and an
      optional sign, the text does not start with a digit or with "."
      followed by a digit. */
  lemma NaNExactly(s: string)
    ensures ParseFloat(s) == None <==> !StartsLiteral(SplitSign(Text.TrimStart(s)).1)
  {
    MantissaMissing(SplitSign(Text.TrimStart(s)).1);
  }

  /** Text without any digit is not a number. */
  lemma NoDigitIsNaN(s: string)
    requires forall c :: c in s ==> !IsDigit(c)
    ensures ParseFloat(s) == None
  {
    var t := Text.TrimStart(s);
    var u := SplitSign(t).1;
    assert forall i :: 0 <= i < |t| ==> t[i] == s[|s| - |t| + i];
    assert forall i :: 0 <= i < |u| ==> u[i] in t;
    NaNExactly(s);
  }

  /** A sign, then a literal that `Mantissa` reads to its end: parseFloat
      returns its signed value. */
  lemma {:induction false} ParseUnsignedLiteral(u: string, m: real)
    requires u != [] && IsDigit(u[0])
    requires Mantissa(u) == Some(Literal(m, |u|))
    ensures ParseFloat(u) == Some(m)
  {
    assert u[|u|..] == [];
    assert Exponent([]) == None;
    assert ParseUnsigned(u) == Some(m);
    assert !Text.IsJsWhitespace(u[0]);
    assert Text.TrimStart(u) == u;
    assert SplitSign(u) == (false, u);
  }

  lemma {:induction false} ParseNegatedLiteral(u: string, m: real)
    requires u != [] && IsDigit(u[0])
    requires Mantissa(u) == Some(Literal(m, |u|))
    ensures ParseFloat("-" + u) == Some(-m)
  {
    assert u[|u|..] == [];
    assert Exponent([]) == None;
    assert ParseUnsigned(u) == Some(m);
    var s := "-" + u;
    assert s[0] == '-';
    assert Text.TrimStart(s) == s;
    assert s[1..] == u;
    assert SplitSign(s) == (true, u);
  }

  lemma {:induction false} ParseSignedLiteral(neg: bool, u: string, m: real)
    requires u != [] && IsDigit(u[0])
    requires Mantissa(u) == Some(Literal(m, |u|))
    ensures ParseFloat(SignText(neg) + u) == Some(if neg then -m else m)
  {
    var s := SignText(neg) + u;
    if neg {
      assert s == "-" + u;
      ParseNegatedLiteral(u, m);
    } else {
      assert s == u;
      ParseUnsignedLiteral(u, m);
    }
  }

  lemma {:induction false} MantissaOfDigits(d: string)
    requires AllDigits(d) && |d| >= 1
    ensures Mantissa(d) == Some(Literal(DigitsValue(d) as real, |d|))
  {
    DigitRunOf(d, []);
    assert d + [] == d;
    assert DigitRun(d) == |d|;
    assert d[..|d|] == d;
    assert d[|d|..] == [];
    assert DigitsValue([]) == 0;
    assert Pow10(0) == 1;
  }

  lemma {:induction false} MantissaOfFixedPoint(ip: string, fp: string)
    requires AllDigits(ip) && AllDigits(fp) && |ip| >= 1
    ensures Mantissa(ip + "." + fp) ==
      Some(Literal(DigitsValue(ip) as real + Shift(DigitsValue(fp) as real, 0 - |fp|), |ip| + 1 + |fp|))
  {
    var u := ip + "." + fp;
    assert u == ip + ("." + fp);
    DigitRunOf(ip, "." + fp);
    assert DigitRun(u) == |ip|;
    assert u[..|ip|] == ip;
    var rest := u[|ip|..];
    assert rest == "." + fp;
    assert |rest| > 0 && rest[0] == '.';
    assert rest[1..] == fp;
    DigitRunOf(fp, []);
    assert fp + [] == fp;
    assert DigitRun(fp) == |fp|;
    assert fp[..|fp|] == fp;
  }

  /** Parsing a digit string gives its value. */
  lemma {:induction false} ParseDigits(d: string, value: nat)
    requires AllDigits(d) && |d| >= 1 && DigitsValue(d) == value
    ensures ParseFloat(d) == Some(value as real)
  {
    MantissaOfDigits(d);
    ParseUnsignedLiteral(d, value as real);
  }

  /** Parsing a minus sign and a digit string gives the negated value. */
  lemma {:induction false} ParseNegatedDigits(d: string, value: nat)
    requires AllDigits(d) && |d| >= 1 && DigitsValue(d) == value
    ensures ParseFloat("-" + d) == Some(-(value as real))
  {
    MantissaOfDigits(d);
    assert d[|d|..] == [];
    assert Exponent([]) == None;
    assert ParseUnsigned(d) == Some(value as real);
    var s := "-" + d;
    assert s[0] == '-';
    assert Text.TrimStart(s) == s;
    assert s[1..] == d;
    assert SplitSign(s) == (true, d);
  }

  /** Parsing an integer's `toString` gives the integer back. */
  lemma {:induction false} ParseIntToString(n: int)
    ensures ParseFloat(IntToString(n)) == Some(n as real)
  {
    if n >= 0 {
      assert IntToString(n) == NatToString(n);
      ParseDigits(NatToString(n), n);
    } else {
      var m: nat := -n;
      var d := NatToString(m);
      ParseNegatedDigits(d, m);
      assert IntToString(n) == "-" + d;
      assert -(m as real) == n as real;
    }
  }

  /** Parsing "[-]digits.digits" gives the signed value of the digits. */
  lemma {:induction false} ParseFixedPoint(neg: bool, u: string, ip: string, fp: string, v: real)
    requires AllDigits(ip) && AllDigits(fp) && |ip| >= 1
    requires u == ip + "." + fp
    requires v == DigitsValue(ip) as real + Shift(DigitsValue(fp) as real, 0 - |fp|)
    ensures ParseFloat(SignText(neg) + u) == Some(if neg then -v else v)
  {
    assert u[0] == ip[0] && IsDigit(u[0]);
    assert |u| == |ip| + 1 + |fp|;
    MantissaOfFixedPoint(ip, fp);
    ParseSignedLiteral(neg, u, v);
  }
}
