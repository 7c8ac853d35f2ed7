/** Values shared by the upload form and the rating widgets: optional and
    fallible results, JavaScript's rounding, and the decimal renderings that
    template literals, `toString`, `toFixed(2)` and `padStart` produce. */
module Common {

  /** A value that may be absent: TypeScript's `T | null`. */
  datatype Option<T> = None | Some(value: T)

  /** A validated value or the list of problems that prevented it. */
  datatype Result<T, E> = Ok(value: T) | Err(error: E)

  /** `Math.round`: the nearest integer, a half rounded up (towards +infinity). */
  function RoundHalfUp(x: real): (n: int)
    ensures n as real - 0.5 <= x < n as real + 0.5
  {
    (x + 0.5).Floor
  }

  /** `Math.floor`. */
  function Floor(x: real): (n: int)
    ensures n as real <= x < n as real + 1.0
  {
    x.Floor
  }

  predicate IsDigit(c: char) {
    '0' <= c <= '9'
  }

  predicate AllDigits(s: string) {
    forall i :: 0 <= i < |s| ==> IsDigit(s[i])
  }

  function DigitChar(d: int): (c: char)
    requires 0 <= d < 10
    ensures IsDigit(c) && c as int - '0' as int == d
  {
    "0123456789"[d]
  }

  /** The value of a string of decimal digits. */
  function DecimalValue(s: string): nat
    requires AllDigits(s)
  {
    if s == [] then 0
    else DecimalValue(s[..|s| - 1]) * 10 + (s[|s| - 1] as int - '0' as int)
  }

  /** The decimal digits of a natural number, as `String(n)` writes them:
      at least one digit and no leading zero. */
  function NatToString(n: nat): (s: string)
    ensures 1 <= |s| && AllDigits(s)
    ensures |s| > 1 ==> s[0] != '0'
    ensures n < 10 <==> |s| == 1
  {
    if n < 10 then [DigitChar(n)] else NatToString(n / 10) + [DigitChar(n % 10)]
  }

  /** Reading back the digits of `NatToString(n)` gives `n`. */
  lemma {:induction false} NatToStringRoundTrip(n: nat)
    ensures DecimalValue(NatToString(n)) == n
  {
    if n >= 10 {
      var s := NatToString(n);
      assert s[..|s| - 1] == NatToString(n / 10);
      NatToStringRoundTrip(n / 10);
    }
  }

  /** `String(n)` of an integer; JavaScript writes -0 as "0". */
  function IntToString(n: int): string
  {
    if n < 0 then "-" + NatToString(-n) else NatToString(n)
  }

  /** `s.padStart(2, '0')`: zeros in front up to length two. */
  function PadStart2(s: string): (r: string)
    ensures |s| >= 2 ==> r == s
    ensures |s| < 2 ==> |r| == 2 && r[2 - |s|..] == s && forall i :: 0 <= i < 2 - |s| ==> r[i] == '0'
  {
    if |s| >= 2 then s else if |s| == 1 then "0" + s else "00"
  }

  /** A natural number below 100 written with two digits keeps its value. */
  lemma TwoDigitsValue(n: nat)
    requires n < 100
    ensures |PadStart2(NatToString(n))| == 2
    ensures AllDigits(PadStart2(NatToString(n))) && DecimalValue(PadStart2(NatToString(n))) == n
  {
    NatToStringRoundTrip(n);
    var s := NatToString(n);
    if n < 10 {
      assert PadStart2(s) == ['0', s[0]];
      assert PadStart2(s)[..1] == ['0'];
    } else {
      assert |s| == 2 by {
        assert NatToString(n / 10) == [DigitChar(n / 10)];
      }
    }
  }

  /** The value of the digits after a decimal point: `0.d1d2...` is
      `(d1 + 0.d2...) / 10`. */
  function FractionValue(digits: string): real
    requires AllDigits(digits)
  {
    if digits == [] then 0.0
    else ((digits[0] as int - '0' as int) as real + FractionValue(digits[1..])) / 10.0
  }

  /** The number a decimal numeral `whole.fraction` stands for. */
  function NumeralValue(whole: string, fraction: string): real
    requires AllDigits(whole) && AllDigits(fraction)
  {
    DecimalValue(whole) as real + FractionValue(fraction)
  }

  /** `x.toFixed(2)` for `x == hundredths / 100`, a non-negative amount:
      the whole part, a point, and exactly two decimals. */
  function Fixed2(hundredths: nat): string
  {
    NatToString(hundredths / 100) + "." + PadStart2(NatToString(hundredths % 100))
  }

  /** The whole digits and the cents together stand for `hundredths / 100`. */
  lemma WholeAndCents(hundredths: nat)
    ensures DecimalValue(NatToString(hundredths / 100)) as real + (hundredths % 100) as real / 100.0
            == hundredths as real / 100.0
  {
    var whole, cents := hundredths / 100, hundredths % 100;
    NatToStringRoundTrip(whole);
    assert hundredths as real == 100.0 * whole as real + cents as real;
  }

  /** The parts of a numeral `whole.fraction` sit where expected. */
  lemma SplitAtPoint(whole: string, fraction: string)
    ensures var s := whole + "." + fraction;
            && |s| == |whole| + 1 + |fraction|
            && s[..|whole|] == whole && s[|whole|] == '.' && s[|whole| + 1..] == fraction
  {
    var s := whole + "." + fraction;
    assert s[..|whole|] == whole;
    assert s[|whole| + 1..] == fraction;
  }

  /** Two fraction digits are read in hundredths. */
  lemma TwoDigitFractionValue(f: string)
    requires |f| == 2 && AllDigits(f)
    ensures FractionValue(f) == DecimalValue(f) as real / 100.0
  {
    var a, b := f[0] as int - '0' as int, f[1] as int - '0' as int;
    assert f[1..][1..] == [];
    assert FractionValue(f[1..]) == b as real / 10.0;
    assert f[..1][..0] == [];
    assert f[..|f| - 1] == f[..1];
    assert DecimalValue(f[..1]) == a;
  }

  /** Two digits of `cents` stand for `cents / 100`. */
  lemma TwoDigitFraction(cents: nat)
    requires cents < 100
    ensures var f := PadStart2(NatToString(cents));
            && AllDigits(f) && |f| == 2 && FractionValue(f) == cents as real / 100.0
  {
    TwoDigitsValue(cents);
    TwoDigitFractionValue(PadStart2(NatToString(cents)));
  }

  /** `toFixed(2)` writes the whole digits, a point and two fraction digits,
      and that numeral reads back as exactly `hundredths / 100`. */
  lemma Fixed2ReadsBack(hundredths: nat)
    ensures var s, w := Fixed2(hundredths), NatToString(hundredths / 100);
            && |s| == |w| + 3 && s[..|w|] == w && s[|w|] == '.'
            && AllDigits(s[|w| + 1..])
            && NumeralValue(w, s[|w| + 1..]) == hundredths as real / 100.0
  {
    var w, f := NatToString(hundredths / 100), PadStart2(NatToString(hundredths % 100));
    TwoDigitFraction(hundredths % 100);
    SplitAtPoint(w, f);
    WholeAndCents(hundredths);
  }

  /** The fraction digits `parseFloat` keeps of `cents / 100`: none for 0,
      one when the second is 0, otherwise both. */
  function ShortFraction(cents: nat): string
    requires cents < 100
  {
    if cents == 0 then ""
    else if cents % 10 == 0 then [DigitChar(cents / 10)]
    else PadStart2(NatToString(cents))
  }

  /** The kept fraction digits stand for `cents / 100` and never end in 0. */
  lemma ShortFractionValue(cents: nat)
    requires cents < 100
    ensures var f := ShortFraction(cents);
            && AllDigits(f) && |f| <= 2
            && (f == "" <==> cents == 0)
            && (f != "" ==> f[|f| - 1] != '0')
            && FractionValue(f) == cents as real / 100.0
  {
    var f := ShortFraction(cents);
    if cents == 0 {
    } else if cents % 10 == 0 {
      assert f[1..] == [];
    } else {
      TwoDigitFraction(cents);
      LastDigit(cents);
    }
  }

  /** A number's decimal digits, padded or not, end in its last digit. */
  lemma LastDigit(n: nat)
    requires n < 100
    ensures var f := PadStart2(NatToString(n)); |f| >= 1 && f[|f| - 1] == DigitChar(n % 10)
  {
    var s := NatToString(n);
    if n >= 10 {
      assert s == NatToString(n / 10) + [DigitChar(n % 10)];
    }
  }

  /** `String(parseFloat(x.toFixed(2)))` for `x == hundredths / 100`: the
      shortest decimal of that number, so trailing zeros of the fraction and
      a point with nothing after it disappear. */
  function ShortDecimal(hundredths: nat): string
  {
    var whole, fraction := NatToString(hundredths / 100), ShortFraction(hundredths % 100);
    if fraction == "" then whole else whole + "." + fraction
  }

  /** What `parseFloat` leaves reads back as `hundredths / 100`: the whole
      digits, then a point and one or two fraction digits, the last of them
      not 0, exactly when the amount is not whole. */
  lemma ShortDecimalReadsBack(hundredths: nat)
    ensures var s, w := ShortDecimal(hundredths), NatToString(hundredths / 100);
            && |w| <= |s| && s[..|w|] == w
            && (|s| == |w| <==> hundredths % 100 == 0)
            && (|s| > |w| ==> s[|w|] == '.' && 2 <= |s| - |w| <= 3 && s[|s| - 1] != '0')
            && var f := if |s| > |w| then s[|w| + 1..] else "";
               AllDigits(f) && NumeralValue(w, f) == hundredths as real / 100.0
  {
    var s, w := ShortDecimal(hundredths), NatToString(hundredths / 100);
    var f := ShortFraction(hundredths % 100);
    ShortFractionValue(hundredths % 100);
    if f != "" {
      SplitAtPoint(w, f);
    }
    WholeAndCents(hundredths);
  }

  /** The index of the first '.' in `s`, or `|s|` when there is none. */
  function PointIndex(s: string): (k: nat)
    ensures k <= |s|
    ensures forall j :: 0 <= j < k ==> s[j] != '.'
    ensures k < |s| ==> s[k] == '.'
  {
    if s == [] || s[0] == '.' then 0 else 1 + PointIndex(s[1..])
  }

  /** `parseFloat` on the numerals written here: one or more digits,
      optionally followed by a point and more digits. Any other text is not
      read (None). */
  function ParseDecimal(s: string): Option<real> {
    var k := PointIndex(s);
    if k == 0 || !AllDigits(s[..k]) then None
    else if k == |s| then Some(DecimalValue(s[..k]) as real)
    else if AllDigits(s[k + 1..]) then Some(NumeralValue(s[..k], s[k + 1..]))
    else None
  }

  /** The first point after a run of digits is where that run ends. */
  lemma {:induction false} PointAfterDigits(w: string, rest: string)
    requires AllDigits(w) && (rest == [] || rest[0] == '.')
    ensures PointIndex(w + rest) == |w|
  {
    if w != [] {
      assert (w + rest)[1..] == w[1..] + rest;
      PointAfterDigits(w[1..], rest);
    }
  }

  /** A run of digits reads as its value, and has no point. */
  lemma ParsesWhole(w: string)
    requires w != [] && AllDigits(w)
    ensures PointIndex(w) == |w| && ParseDecimal(w) == Some(DecimalValue(w) as real)
  {
    assert w == w + [];
    PointAfterDigits(w, []);
    assert w[..|w|] == w;
  }

  /** Digits, a point and digits read as the numeral they spell, and the
      point is the first one. */
  lemma ParsesFraction(s: string, w: string, f: string)
    requires w != [] && AllDigits(w) && AllDigits(f)
    requires |s| == |w| + 1 + |f| && s[..|w|] == w && s[|w|] == '.' && s[|w| + 1..] == f
    ensures PointIndex(s) == |w| && ParseDecimal(s) == Some(NumeralValue(w, f))
  {
    assert s == w + s[|w|..];
    PointAfterDigits(w, s[|w|..]);
  }

  /** A text made of the digits `w`, then optionally a point and the digits
      of a fraction, reads as the numeral it spells. */
  lemma ParsesAsNumeral(s: string, w: string, x: real)
    requires w != [] && AllDigits(w) && |w| <= |s| && s[..|w|] == w
    requires |s| > |w| ==> s[|w|] == '.'
    requires var f := if |s| > |w| then s[|w| + 1..] else "";
             AllDigits(f) && NumeralValue(w, f) == x
    ensures ParseDecimal(s) == Some(x)
    ensures PointIndex(s) == |w|
  {
    if |s| == |w| {
      assert s == w;
      ParsesWhole(w);
    } else {
      ParsesFraction(s, w, s[|w| + 1..]);
    }
  }

  /** `parseFloat` reads the text `ShortDecimal` writes as exactly
      `hundredths / 100`; a point is written only for an amount that is not
      whole, and then the text does not end in a 0. */
  lemma ShortDecimalParses(hundredths: nat)
    ensures var s := ShortDecimal(hundredths);
            && ParseDecimal(s) == Some(hundredths as real / 100.0)
            && (PointIndex(s) < |s| <==> hundredths % 100 != 0)
            && (PointIndex(s) < |s| ==> s[|s| - 1] != '0')
  {
    ShortDecimalReadsBack(hundredths);
    ParsesAsNumeral(ShortDecimal(hundredths), NatToString(hundredths / 100), hundredths as real / 100.0);
  }

  /** `parseFloat` reads the text `Fixed2` writes as exactly
      `hundredths / 100`, and the point is followed by exactly two digits. */
  lemma Fixed2Parses(hundredths: nat)
    ensures var s := Fixed2(hundredths);
            && ParseDecimal(s) == Some(hundredths as real / 100.0)
            && PointIndex(s) == |s| - 3
  {
    Fixed2ReadsBack(hundredths);
    ParsesAsNumeral(Fixed2(hundredths), NatToString(hundredths / 100), hundredths as real / 100.0);
  }
}
