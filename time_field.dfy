/** `int(float(text))` as the importer applies it to the `offset`, `in` and
    `out` fields of a placement: Python's float literal grammar (ASCII digits,
    no `_` separators), its value kept as an exact decimal rather than rounded
    to the nearest double, then truncated toward zero. The two readings agree
    on every integer of magnitude at most `2^53`. */
module TimeField {
  import opened Strings

  /** What `float()` makes of a text: a finite decimal `±mant·10^exp`, an
      infinity, or NaN. */
  datatype FloatText = Finite(neg: bool, mant: nat, exp: int) | Infinite(neg: bool) | NaN

  /** The outcome of `int(float(text))`: an integer, or the exception raised. */
  datatype Conversion = Num(value: int) | ValueErr | OverflowErr

  function Pow10(k: nat): (p: nat)
    ensures p >= 1
  {
    if k == 0 then 1 else 10 * Pow10(k - 1)
  }

  /** `(2^54 - 1)·2^970`, i.e. `2^1024 - 2^970`: a decimal value of at least
      this magnitude rounds to infinity as an IEEE 754 double (the largest
      double is `(2^53 - 1)·2^971`, and the midpoint above it rounds to even,
      which is infinity). */
  const OverflowBound: int := 0xFFFFFFFFFFFFFC_000000000000000000000000000000000000000000000000000000000000000000000000000000000000000000000000000000000000000000000000000000000000000000000000000000000000000000000000000000000000000000000000000000000000000000000000000000000000000000000000000000

  /** `2^53`: every integer of at most this magnitude is a double. */
  const ExactIntBound: int := 0x20_0000_0000_0000

  predicate AllDigits(s: string)
    ensures AllDigits(s) <==> forall k :: 0 <= k < |s| ==> IsDigit(s[k])
  {
    s == [] || (IsDigit(s[0]) && AllDigits(s[1..]))
  }

  function LowerAscii(c: char): char
  {
    if 'A' <= c <= 'Z' then (c as int + 32) as char else c
  }

  /** `s` equals the lower-case ASCII `word` when case is ignored. */
  predicate IsWordIgnoringCase(s: string, word: string)
    decreases |s|
  {
    if s == [] || word == [] then s == word
    else LowerAscii(s[0]) == word[0] && IsWordIgnoringCase(s[1..], word[1..])
  }

  predicate IsExpMark(c: char)
  {
    c == 'e' || c == 'E'
  }

  /** Index of the first `e` or `E` at or after `from`; `|s|` when there is none. */
  function ExpMarkFrom(s: string, from: nat): (i: nat)
    requires from <= |s|
    ensures from <= i <= |s|
    ensures i < |s| ==> IsExpMark(s[i])
    ensures forall k :: from <= k < i ==> !IsExpMark(s[k])
    decreases |s| - from
  {
    if from == |s| || IsExpMark(s[from]) then from else ExpMarkFrom(s, from + 1)
  }

  /** The exponent after the `e`: an optional sign and at least one digit. */
  function ParseExponent(s: string): Option<int>
  {
    var digits := if s != [] && (s[0] == '+' || s[0] == '-') then s[1..] else s;
    if digits != [] && AllDigits(digits) then
      Some(if s[0] == '-' then -(DigitsValue(digits) as int) else DigitsValue(digits))
    else None
  }

  /** The part before the exponent: digits with at most one `.` among them and
      at least one digit in all. Gives the value of all the digits read as one
      number, and how many of them follow the point. */
  function ParseMantissa(s: string): Option<(nat, nat)>
  {
    var d := IndexFrom(s, '.', 0);
    var whole := s[..d];
    var frac := if d < |s| then s[d + 1..] else [];
    if AllDigits(whole) && AllDigits(frac) && |whole| + |frac| >= 1 then
      assert AllDigits(whole + frac) by {
        forall k | 0 <= k < |whole + frac| ensures IsDigit((whole + frac)[k]) {
          if k >= |whole| {
            assert (whole + frac)[k] == frac[k - |whole|];
          }
        }
      }
      Some((DigitsValue(whole + frac), |frac|))
    else None
  }

  /** An unsigned finite literal as `(mant, exp)`: a mantissa, then optionally
      `e` or `E` and an exponent. */
  function ParseDecimal(s: string): Option<(nat, int)>
  {
    var x := ExpMarkFrom(s, 0);
    match ParseMantissa(s[..x])
    case None => None
    case Some(m) =>
      if x == |s| then Some((m.0, -(m.1 as int)))
      else match ParseExponent(s[x + 1..])
        case None => None
        case Some(e) => Some((m.0, e - m.1 as int))
  }

  /** `float(text)`: whitespace at either end is ignored, the rest read as a
      literal; `None` where Python raises `ValueError`. */
  function ParseFloat(text: string): Option<FloatText>
    decreases |text|
  {
    if text != [] && IsSpace(text[0]) then ParseFloat(text[1..])
    else if text != [] && IsSpace(text[|text| - 1]) then ParseFloat(text[..|text| - 1])
    else ParseLiteral(text)
  }

  /** A literal without surrounding whitespace: an optional sign, then `inf`,
      `infinity` or `nan` in any mix of case, or a decimal literal. */
  function ParseLiteral(t: string): Option<FloatText>
  {
    var neg := t != [] && t[0] == '-';
    var body := if t != [] && (t[0] == '+' || t[0] == '-') then t[1..] else t;
    if IsWordIgnoringCase(body, "inf") || IsWordIgnoringCase(body, "infinity") then Some(Infinite(neg))
    else if IsWordIgnoringCase(body, "nan") then Some(NaN)
    else match ParseDecimal(body)
      case None => None
      case Some(d) => Some(Finite(neg, d.0, d.1))
  }

  /** `mant·10^exp` as an exact rational. */
  function Magnitude(mant: nat, exp: int): real
  {
    if exp >= 0 then (mant * Pow10(exp)) as real else mant as real / Pow10(-exp) as real
  }

  /** `mant·10^exp` with its fraction dropped. */
  function TruncMagnitude(mant: nat, exp: int): int
  {
    if exp >= 0 then mant * Pow10(exp) else mant / Pow10(-exp)
  }

  /** The decimal is too large for a double, so `float()` gives infinity. */
  predicate Overflows(mant: nat, exp: int)
  {
    if exp >= 0 then mant * Pow10(exp) >= OverflowBound else mant >= OverflowBound * Pow10(-exp)
  }

  /** `int(x)` for the float `x`: NaN raises `ValueError`, infinity raises
      `OverflowError`, a finite value is truncated toward zero. */
  function IntOf(f: FloatText): Conversion
  {
    match f
    case NaN => ValueErr
    case Infinite(_) => OverflowErr
    case Finite(neg, m, e) =>
      if Overflows(m, e) then OverflowErr
      else
        var t := TruncMagnitude(m, e);
        Num(if neg then -t else t)
  }

  /** `int(float(text))`. */
  function IntOfFloat(text: string): Conversion
  {
    match ParseFloat(text)
    case None => ValueErr
    case Some(f) => IntOf(f)
  }

  /** `Overflows` is exactly "the magnitude reaches the bound". */
  lemma {:induction false} OverflowsIff(mant: nat, exp: int)
    ensures Overflows(mant, exp) <==> Magnitude(mant, exp) >= OverflowBound as real
  {
    if exp < 0 {
      var p := Pow10(-exp);
      assert (mant >= OverflowBound * p) <==> (mant as real >= OverflowBound as real * p as real);
      ScaledCompare(mant as real, Magnitude(mant, exp), p as real, OverflowBound as real);
    }
  }

  /** Comparing `q = m / p` with a bound is comparing `m` with the bound
      scaled by `p`. */
  lemma {:induction false} ScaledCompare(m: real, q: real, p: real, b: real)
    requires p > 0.0 && q == m / p
    ensures m >= b * p <==> q >= b
  {
    assert m == q * p;
    if q >= b {
      assert q * p >= b * p;
    } else {
      assert q * p < b * p;
    }
  }


  /** Integer division of naturals truncates the exact quotient. */
  lemma {:induction false} DivTruncates(m: nat, p: nat)
    requires p >= 1
    ensures (m / p) as real <= m as real / p as real < (m / p) as real + 1.0
  {
    var q, rem := m / p, m % p;
    var pr := p as real;
    assert m == q * p + rem && 0 <= rem < p;
    assert m as real == q as real * pr + rem as real;
    assert m as real / pr == q as real + rem as real / pr;
    assert rem as real / pr < 1.0;
  }

  /** A converted value is the float truncated toward zero: its magnitude is
      the largest integer not above the literal's magnitude, its sign is the
      literal's, and the literal is below the overflow bound. */
  lemma {:induction false} TruncatesTowardZero(f: FloatText)
    requires IntOf(f).Num?
    ensures f.Finite?
    ensures Magnitude(f.mant, f.exp) < OverflowBound as real
    ensures var n := IntOf(f).value;
      && (f.neg ==> n <= 0) && (!f.neg ==> n >= 0)
      && (if f.neg then -n else n) as real <= Magnitude(f.mant, f.exp) < (if f.neg then -n else n) as real + 1.0
  {
    var m, e := f.mant, f.exp;
    OverflowsIff(m, e);
    var t := TruncMagnitude(m, e);
    if e < 0 {
      DivTruncates(m, Pow10(-e));
    } else {
      assert t == m * Pow10(e);
    }
    assert t >= 0;
    assert t as real <= Magnitude(m, e) < t as real + 1.0;
  }

  /** `float()` reads the stripped text. */
  lemma {:induction false} ParseFloatStrips(text: string)
    ensures ParseFloat(text) == ParseLiteral(Strip(text))
    decreases |text|
  {
    if text != [] && IsSpace(text[0]) {
      ParseFloatStrips(text[1..]);
      StripDropsLeadingSpace(text);
    } else if text != [] && IsSpace(text[|text| - 1]) {
      ParseFloatStrips(text[..|text| - 1]);
      StripDropsTrailingSpace(text);
    } else {
      StripUntrimmed(text);
    }
  }

  /** Whitespace around a field does not change its value. */
  lemma {:induction false} WhitespaceIgnored(text: string)
    ensures IntOfFloat(Strip(text)) == IntOfFloat(text)
  {
    ParseFloatStrips(text);
    ParseFloatStrips(Strip(text));
    StripIdempotent(text);
  }

  /** A run of digits not starting with `i` or `n` is no special word. */
  lemma {:induction false} DigitsNotSpecial(body: string)
    requires body != [] && IsDigit(body[0])
    ensures !IsWordIgnoringCase(body, "inf") && !IsWordIgnoringCase(body, "infinity")
    ensures !IsWordIgnoringCase(body, "nan")
  {
    assert LowerAscii(body[0]) == body[0];
  }

  /** The digits of `k` read as a decimal literal: mantissa `k`, exponent 0. */
  lemma {:induction false} DecimalOfDigits(k: nat)
    ensures ParseDecimal(NatDigits(k)) == Some((k, 0))
  {
    var body := NatDigits(k);
    assert ExpMarkFrom(body, 0) == |body| by {
      assert forall j :: 0 <= j < |body| ==> !IsExpMark(body[j]);
    }
    assert body[..|body|] == body;
    assert IndexFrom(body, '.', 0) == |body| by {
      assert forall j :: 0 <= j < |body| ==> body[j] != '.';
    }
    assert body + [] == body;
    DigitsValueOfNat(k);
    assert ParseMantissa(body) == Some((k, 0));
  }

  /** The text `str(n)` of an integer of magnitude at most `2^53` converts
      back to `n`; such an integer is a double, so rounding does not move it. */
  lemma {:induction false} IntOfFloatOfInt(n: int)
    requires -ExactIntBound <= n <= ExactIntBound
    ensures IntOfFloat(IntToString(n)) == Num(n)
  {
    var k: nat := if n < 0 then -n else n;
    var t := IntToString(n);
    var digits := NatDigits(k);
    assert t == if n < 0 then "-" + digits else digits;
    assert t[|t| - 1] == digits[|digits| - 1];
    StripUntrimmed(t);
    var body := if t[0] == '+' || t[0] == '-' then t[1..] else t;
    assert body == digits;
    DigitsNotSpecial(body);
    DecimalOfDigits(k);
    assert ParseFloat(t) == Some(Finite(n < 0, k, 0));
    assert k <= ExactIntBound < OverflowBound;
    assert !Overflows(k, 0);
  }

  lemma {:induction false} ParseInf()
    ensures ParseFloat("inf") == Some(Infinite(false))
  {
    assert !IsSpace('i') && !IsSpace('f');
    assert IsWordIgnoringCase("inf", "inf");
    assert ParseLiteral("inf") == Some(Infinite(false));
  }

  lemma {:induction false} ParseMinusInfinity()
    ensures ParseFloat("-Infinity") == Some(Infinite(true))
  {
    var t := "-Infinity";
    assert !IsSpace(t[0]) && !IsSpace(t[|t| - 1]);
    assert t[1..] == "Infinity";
    assert IsWordIgnoringCase("Infinity", "infinity");
    assert ParseLiteral(t) == Some(Infinite(true));
  }

  /** Python accepts `inf` as a float; converting it to an integer raises
      `OverflowError`, not `ValueError`. */
  lemma {:induction false} InfinityOverflows()
    ensures IntOfFloat("inf") == OverflowErr
    ensures IntOfFloat("-Infinity") == OverflowErr
  {
    ParseInf();
    ParseMinusInfinity();
  }

  /** `nan` is accepted by `float()` but raises `ValueError` in `int()`. */
  lemma {:induction false} NanRejected()
    ensures IntOfFloat("nan") == ValueErr
  {
    assert !IsSpace('n');
    assert !IsWordIgnoringCase("nan", "inf") && !IsWordIgnoringCase("nan", "infinity");
    assert IsWordIgnoringCase("nan", "nan");
    assert ParseLiteral("nan") == Some(NaN);
  }
}
