/**
  * Decimal text as the backend writes and reads it: `str(int)`,
  * `format(value, "0.2f")` of a value that already has two decimal places,
  * and the `Decimal(str)` constructor for plain decimal literals.
  */
module Decimals {
  import opened Wrappers

  predicate IsDigit(c: char) {
    '0' <= c <= '9'
  }

  predicate AllDigits(s: string) {
    forall i | 0 <= i < |s| :: IsDigit(s[i])
  }

  function DigitValue(c: char): (d: nat)
    requires IsDigit(c)
    ensures d < 10
  {
    c as int - '0' as int
  }

  function DigitChar(d: nat): (c: char)
    requires d < 10
    ensures IsDigit(c) && DigitValue(c) == d
  {
    ('0' as int + d) as char
  }

  /** The number a run of decimal digits denotes, most significant digit first. */
  function DigitsValue(s: string): nat
    requires AllDigits(s)
  {
    if s == [] then 0 else DigitsValue(s[..|s| - 1]) * 10 + DigitValue(s[|s| - 1])
  }

  function Pow10(k: nat): (p: nat)
    ensures p >= 1
  {
    if k == 0 then 1 else 10 * Pow10(k - 1)
  }

  /** The shortest decimal numeral of `n`, as Python's `str` writes a non-negative int. */
  function NatText(n: nat): (s: string)
    ensures |s| > 0 && AllDigits(s)
    ensures DigitsValue(s) == n
  {
    if n < 10 then [DigitChar(n)]
    else
      var s := NatText(n / 10) + [DigitChar(n % 10)];
      assert s[..|s| - 1] == NatText(n / 10);
      s
  }

  /** `str(n)` for an int: a minus sign for negatives, then the digits of |n|. */
  function IntText(n: int): string {
    if n < 0 then "-" + NatText(-n) else NatText(n)
  }

  /** `format(c / 100, "0.2f")`: sign, whole part, a point and exactly two digits. */
  function CentsText(c: int): (s: string)
    ensures |s| >= 4 && s[|s| - 3] == '.'
    ensures s[0] == '-' <==> c < 0
  {
    if c < 0 then "-" + UnsignedCentsText(-c) else UnsignedCentsText(c)
  }

  /** The whole part of `m / 100`, a point and its two hundredths digits. */
  function UnsignedCentsText(m: nat): string {
    NatText(m / 100) + "." + [DigitChar(m % 100 / 10), DigitChar(m % 10)]
  }

  /** Index of the first '.' in `s`, or |s| when there is none. */
  function PointIndex(s: string): (i: nat)
    ensures i <= |s|
    ensures i < |s| ==> s[i] == '.'
  {
    if s == [] then 0
    else if s[0] == '.' then 0
    else 1 + PointIndex(s[1..])
  }

  /**
    * `Decimal(s)` for an unsigned literal `digits '.' [digits]` or `['.'] digits`;
    * anything else makes Python raise InvalidOperation, here None.
    */
  function ParseUnsigned(s: string): Option<real> {
    var i := PointIndex(s);
    var whole := s[..i];
    var frac := if i < |s| then s[i + 1..] else "";
    if AllDigits(whole) && AllDigits(frac) && |whole| + |frac| > 0 then
      Some(DigitsValue(whole) as real + Fraction(DigitsValue(frac), |frac|))
    else
      None
  }

  /** The value of `k` digits `d` after the point: d / 10^k. */
  function Fraction(d: nat, k: nat): real {
    d as real / Pow10(k) as real
  }

  /** `Decimal(s)` for an optionally signed decimal literal. */
  function ParseDecimal(s: string): Option<real> {
    if |s| > 0 && s[0] == '-' then
      match ParseUnsigned(s[1..])
      case Some(v) => Some(-v)
      case None => None
    else if |s| > 0 && s[0] == '+' then
      ParseUnsigned(s[1..])
    else
      ParseUnsigned(s)
  }

  /** A run of digits holds no point, so the point of `s + t` is the point of `t`, shifted. */
  lemma {:induction false} NoPointInDigits(s: string, t: string)
    requires AllDigits(s)
    ensures PointIndex(s + t) == |s| + PointIndex(t)
  {
    if s == [] {
      assert s + t == t;
    } else {
      assert (s + t)[0] == s[0];
      assert (s + t)[1..] == s[1..] + t;
      NoPointInDigits(s[1..], t);
    }
  }

  /** Reading back what `str(int)` wrote gives the same integer. */
  lemma {:induction false} IntTextRoundTrip(n: int)
    ensures ParseDecimal(IntText(n)) == Some(n as real)
  {
    var m := if n < 0 then -n else n;
    var t := NatText(m);
    NoPointInDigits(t, "");
    assert t + "" == t;
    assert ParseUnsigned(t) == Some(m as real) by {
      assert t[..|t|] == t;
    }
    if n < 0 {
      assert IntText(n)[1..] == t;
    } else {
      assert IntText(n) == t;
    }
  }

  /** Reading back what `format(c / 100, "0.2f")` wrote gives the same amount. */
  lemma {:induction false} CentsTextRoundTrip(c: int)
    ensures var r := ParseDecimal(CentsText(c)); r.Some? && r.value == c as real / 100.0
  {
    var m := if c < 0 then -c else c;
    var u := UnsignedCentsText(m);
    UnsignedCentsRoundTrip(m);
    if c < 0 {
      assert CentsText(c) == "-" + u;
      assert ("-" + u)[1..] == u;
    } else {
      assert u[0] == NatText(m / 100)[0];
      assert IsDigit(u[0]);
    }
  }

  lemma UnsignedCentsRoundTrip(m: nat)
    ensures var r := ParseUnsigned(UnsignedCentsText(m)); r.Some? && r.value == m as real / 100.0
  {
    var w := NatText(m / 100);
    var f := [DigitChar(m % 100 / 10), DigitChar(m % 10)];
    assert UnsignedCentsText(m) == w + "." + f;
    TwoDigitsValue(m % 100);
    ReadsAsHundredths(w, f, m);
  }

  /** A whole part and two fraction digits that spell m / 100 read as m / 100. */
  lemma ReadsAsHundredths(w: string, f: string, m: nat)
    requires AllDigits(w) && |w| > 0 && DigitsValue(w) == m / 100
    requires |f| == 2 && AllDigits(f) && DigitsValue(f) == m % 100
    ensures var r := ParseUnsigned(w + "." + f); r.Some? && r.value == m as real / 100.0
  {
    PointedValue(w, f);
    HundredthsSplit(m);
  }

  /** m / 100 is its whole part plus two digits of fraction. */
  lemma HundredthsSplit(m: nat)
    ensures (m / 100) as real + Fraction(m % 100, 2) == m as real / 100.0
  {
    assert Pow10(2) == 100;
    assert m == (m / 100) * 100 + m % 100;
  }

  /** `whole "." frac` reads as the whole part plus the fraction. */
  lemma PointedValue(whole: string, frac: string)
    requires AllDigits(whole) && AllDigits(frac) && |whole| + |frac| > 0
    ensures var r := ParseUnsigned(whole + "." + frac);
      r.Some? && r.value == DigitsValue(whole) as real + Fraction(DigitsValue(frac), |frac|)
  {
    var u := whole + "." + frac;
    NoPointInDigits(whole, "." + frac);
    assert u == whole + ("." + frac);
    var i := PointIndex(u);
    assert i == |whole| < |u|;
    assert u[..i] == whole;
    assert u[i + 1..] == frac;
  }

  /** Two digit characters denote the number they were written from. */
  lemma TwoDigitsValue(k: nat)
    requires k < 100
    ensures DigitsValue([DigitChar(k / 10), DigitChar(k % 10)]) == k
  {
    var f := [DigitChar(k / 10), DigitChar(k % 10)];
    var hi := [DigitChar(k / 10)];
    assert f[..1] == hi;
    assert hi[..0] == [];
    assert DigitsValue(hi) == k / 10;
    assert DigitsValue(f) == DigitsValue(hi) * 10 + k % 10;
  }

  /** Text holding anything but digits, one point and a leading sign is not a number. */
  lemma {:induction false} ForeignCharRejected(s: string, k: nat)
    requires k < |s| && !IsDigit(s[k]) && s[k] != '.'
    requires k == 0 ==> s[0] != '-' && s[0] != '+'
    ensures ParseDecimal(s) == None
  {
    if s[0] == '-' || s[0] == '+' {
      UnsignedRejects(s[1..], k - 1);
    } else {
      UnsignedRejects(s, k);
    }
  }

  lemma UnsignedRejects(s: string, k: nat)
    requires k < |s| && !IsDigit(s[k]) && s[k] != '.'
    ensures ParseUnsigned(s) == None
  {
    var i := PointIndex(s);
    if k < i {
      assert s[..i][k] == s[k];
    } else {
      assert s[i + 1..][k - i - 1] == s[k];
    }
  }
}
