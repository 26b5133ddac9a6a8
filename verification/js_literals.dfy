/**
 * The values `Number` and `parseFloat` give to whole decimal literals: the
 * digits `d1 '.' d2` are worth `d1d2 / 10^|d2|`, negated after a `-`. Text is
 * described by its layout (`PointedText`, `WholeText`) rather than as a
 * concatenation; `PointedTextOf` and `WholeTextOf` connect the two.
 */
module JsLiterals {
  import opened Results
  import opened JsText

  /** The sign in front of a literal: none, `+` or `-`. */
  predicate IsSign(sign: string)
  {
    sign == "" || sign == "+" || sign == "-"
  }

  /** A magnitude with a sign applied: negated after `-`, unchanged otherwise. */
  function Signed(sign: string, m: real): real
  {
    if sign == "-" then -m else m
  }

  /** `s` is the text `sign d1 '.' d2`. */
  predicate PointedText(s: string, sign: string, d1: string, d2: string)
  {
    |s| == |sign| + |d1| + 1 + |d2| &&
    (forall k :: 0 <= k < |sign| ==> s[k] == sign[k]) &&
    (forall k :: 0 <= k < |d1| ==> s[|sign| + k] == d1[k]) &&
    s[|sign| + |d1|] == '.' &&
    (forall k :: 0 <= k < |d2| ==> s[|sign| + |d1| + 1 + k] == d2[k])
  }

  /** `s` is the text `sign d`. */
  predicate WholeText(s: string, sign: string, d: string)
  {
    |s| == |sign| + |d| &&
    (forall k :: 0 <= k < |sign| ==> s[k] == sign[k]) &&
    (forall k :: 0 <= k < |d| ==> s[|sign| + k] == d[k])
  }

  /** Digits written one after the other: `d1 d2` stands for `d1 * 10^|d2| + d2`. */
  lemma {:induction false} DigitsValueConcat(d1: string, d2: string)
    requires AllDigits(d1) && AllDigits(d2)
    ensures AllDigits(d1 + d2)
    ensures DigitsValue(d1 + d2) == DigitsValue(d1) * Pow10(|d2|) + DigitsValue(d2)
  {
    var s := d1 + d2;
    assert AllDigits(s);
    if |d2| == 0 {
      assert s == d1;
    } else {
      var init := d2[..|d2| - 1];
      var y := d2[|d2| - 1] as int - '0' as int;
      assert AllDigits(init) && AllDigits(d1 + init);
      assert DigitsValue(s) == DigitsValue(d1 + init) * 10 + y by {
        assert s[..|s| - 1] == d1 + init;
        assert s[|s| - 1] == d2[|d2| - 1];
      }
      DigitsValueConcat(d1, init);
      ShiftStep(DigitsValue(d1 + init), DigitsValue(d1), DigitsValue(init), Pow10(|init|), y);
    }
  }

  /** One more digit: if `x` is `a * q + b`, then `x * 10 + y` is `a * 10q + (b * 10 + y)`. */
  lemma ShiftStep(x: int, a: int, b: int, q: int, y: int)
    requires x == a * q + b
    ensures x * 10 + y == a * (10 * q) + (b * 10 + y)
  {
  }

  /** The digits around the point, `d1.d2`, are worth `d1d2 / 10^|d2|`. */
  lemma FractionValue(d1: string, d2: string)
    requires AllDigits(d1) && AllDigits(d2)
    ensures AllDigits(d1 + d2)
    ensures Magnitude(d1, d2) == DigitsValue(d1 + d2) as real / Pow10(|d2|) as real
  {
    DigitsValueConcat(d1, d2);
    var x, a, b, p := DigitsValue(d1 + d2), DigitsValue(d1), DigitsValue(d2), Pow10(|d2|);
    assert x == a * p + b;
    DivideOut(x, a, b, p);
  }

  /** If `x == a * p + b` with `p > 0`, then `x / p` is `a + b / p` in the reals. */
  lemma DivideOut(x: int, a: int, b: int, p: int)
    requires p > 0 && x == a * p + b
    ensures x as real / p as real == a as real + b as real / p as real
  {
    assert x as real == a as real * p as real + b as real;
  }

  /** A run of digits from `i` that ends at `j` is the run `DigitRun` finds. */
  lemma DigitRunTo(s: string, i: nat, j: nat)
    requires i <= j <= |s|
    requires AllDigits(s[i..j])
    requires j == |s| || !IsDigit(s[j])
    ensures DigitRun(s, i) == j
    decreases j - i
  {
    if i < j {
      assert s[i] == s[i..j][0];
      assert s[i + 1..j] == s[i..j][1..];
      DigitRunTo(s, i + 1, j);
    }
  }

  /**
   * Once the parts of a literal are located, `DecimalPrefix` reads their
   * magnitude, negated after a leading `-`, up to the end of the fraction.
   */
  lemma ReadSpan(s: string, start: nat, intEnd: nat, fracStart: nat, fracEnd: nat)
    requires start == (if |s| > 0 && (s[0] == '+' || s[0] == '-') then 1 else 0)
    requires start <= intEnd <= |s| && DigitRun(s, start) == intEnd
    requires fracStart == (if intEnd < |s| && s[intEnd] == '.' then intEnd + 1 else intEnd)
    requires fracStart <= fracEnd <= |s| && DigitRun(s, fracStart) == fracEnd
    requires intEnd > start || fracEnd > fracStart
    ensures Scan(s) == Span(start, intEnd, fracStart, fracEnd)
    ensures AllDigits(s[start..intEnd]) && AllDigits(s[fracStart..fracEnd])
    ensures var m := Magnitude(s[start..intEnd], s[fracStart..fracEnd]);
      DecimalPrefix(s) == Some((if start == 1 && s[0] == '-' then -m else m, fracEnd))
  {
  }

  /** Where a sign of at most one character ends, in text that goes on with a digit or a point. */
  lemma SignEnds(sign: string, s: string)
    requires IsSign(sign)
    requires |s| > |sign| && (|sign| > 0 ==> s[0] == sign[0])
    requires IsDigit(s[|sign|]) || s[|sign|] == '.'
    ensures |sign| == (if |s| > 0 && (s[0] == '+' || s[0] == '-') then 1 else 0)
    ensures |sign| == 1 && s[0] == '-' <==> sign == "-"
  {
  }

  /** `sign + d1 + "." + d2` is laid out as its parts. */
  lemma PointedTextOf(sign: string, d1: string, d2: string)
    ensures PointedText(sign + d1 + "." + d2, sign, d1, d2)
  {
  }

  /** `sign + d` is laid out as its parts. */
  lemma WholeTextOf(sign: string, d: string)
    ensures WholeText(sign + d, sign, d)
  {
  }

  /**
   * A literal with a point, `[+-]? d1 '.' d2` with a digit on at least one
   * side, is read whole: its value is `d1 + d2 / 10^|d2|`, negated after a `-`.
   */
  lemma DecimalLiteral(s: string, sign: string, d1: string, d2: string)
    requires IsSign(sign) && AllDigits(d1) && AllDigits(d2) && |d1| + |d2| > 0
    requires PointedText(s, sign, d1, d2)
    ensures DecimalPrefix(s) == Some((Signed(sign, Magnitude(d1, d2)), |s|))
    ensures IsDigit(s[|s| - 1]) || s[|s| - 1] == '.'
  {
    var start, point := |sign|, |sign| + |d1|;
    PointedParts(s, sign, d1, d2);
    SignEnds(sign, s);
    DigitRunTo(s, start, point);
    DigitRunTo(s, point + 1, |s|);
    ReadSpan(s, start, point, point + 1, |s|);
  }

  /** The parts of text laid out as `sign d1 '.' d2`, as slices, and its first and last characters. */
  lemma PointedParts(s: string, sign: string, d1: string, d2: string)
    requires PointedText(s, sign, d1, d2)
    ensures s[|sign|..|sign| + |d1|] == d1 && s[|sign| + |d1| + 1..|s|] == d2
    ensures s[|sign|] == (if |d1| > 0 then d1[0] else '.')
    ensures |sign| > 0 ==> s[0] == sign[0]
    ensures s[|s| - 1] == (if |d2| > 0 then d2[|d2| - 1] else '.')
  {
    assert s[|sign|..|sign| + |d1|] == d1;
    assert s[|sign| + |d1| + 1..|s|] == d2;
  }

  /** A literal without a point, `[+-]? d`, is read whole as the value of its digits, negated after a `-`. */
  lemma IntegerLiteral(s: string, sign: string, d: string)
    requires IsSign(sign) && AllDigits(d) && |d| > 0
    requires WholeText(s, sign, d)
    ensures DecimalPrefix(s) == Some((Signed(sign, DigitsValue(d) as real), |s|))
    ensures IsDigit(s[|s| - 1])
  {
    var start := |sign|;
    WholeParts(s, sign, d);
    SignEnds(sign, s);
    DigitRunTo(s, start, |s|);
    DigitRunTo(s, |s|, |s|);
    ReadSpan(s, start, |s|, |s|, |s|);
    WholeMagnitude(d);
  }

  /** The digits of text laid out as `sign d`, as a slice, and its first and last characters. */
  lemma WholeParts(s: string, sign: string, d: string)
    requires |d| > 0 && WholeText(s, sign, d)
    ensures s[|sign|..|s|] == d && s[|s|..|s|] == ""
    ensures s[|sign|] == d[0]
    ensures |sign| > 0 ==> s[0] == sign[0]
    ensures s[|s| - 1] == d[|d| - 1]
  {
    assert s[|sign|..|s|] == d;
  }

  /** Digits without a fraction are worth their integer value. */
  lemma WholeMagnitude(d: string)
    requires AllDigits(d)
    ensures Magnitude(d, "") == DigitsValue(d) as real
  {
    assert DigitsValue("") == 0 && Pow10(0) == 1;
  }

  /** Literal text begins and ends with a character that is not white space, so trimming leaves it alone. */
  lemma LiteralIsTrimmed(s: string)
    requires |s| > 0
    requires IsDigit(s[0]) || s[0] == '+' || s[0] == '-' || s[0] == '.'
    requires IsDigit(s[|s| - 1]) || s[|s| - 1] == '.'
    ensures TrimStart(s) == s && TrimEnd(s) == s
  {
    if IsWhitespace(s[0]) {
      WhitespaceIsNotLiteral(s[0]);
      assert false;
    }
    if IsWhitespace(s[|s| - 1]) {
      WhitespaceIsNotLiteral(s[|s| - 1]);
      assert false;
    }
  }

  /**
   * Text that `DecimalPrefix` reads whole is read the same by `Number`, and by
   * `parseFloat` whatever follows it, as long as that does not begin with a
   * digit or a point.
   */
  lemma WholeLiteralReads(s: string, w: string, v: real)
    requires |s| > 0 && (IsDigit(s[|s| - 1]) || s[|s| - 1] == '.')
    requires DecimalPrefix(s) == Some((v, |s|))
    requires |w| == 0 || (!IsDigit(w[0]) && w[0] != '.')
    ensures ToNumber(s) == Some(v) && ParseFloat(s + w) == Some(v)
  {
    LiteralIsTrimmed(s);
    assert ParseFloat(s) == Some(v);
    ParseFloatIgnoresTrailingText(s, w);
  }

  /**
   * `Number` and `parseFloat` read `[+-]? d1 '.' d2` as `d1d2 / 10^|d2|`,
   * negated after a `-`; `parseFloat` reads the same whatever follows, as
   * long as it does not begin with a digit or a point.
   */
  lemma NumberReadsDecimal(s: string, sign: string, d1: string, d2: string, w: string)
    requires IsSign(sign) && AllDigits(d1) && AllDigits(d2) && |d1| + |d2| > 0
    requires PointedText(s, sign, d1, d2)
    requires |w| == 0 || (!IsDigit(w[0]) && w[0] != '.')
    ensures AllDigits(d1 + d2)
    ensures ToNumber(s) == Some(Signed(sign, DigitsValue(d1 + d2) as real / Pow10(|d2|) as real))
    ensures ParseFloat(s + w) == Some(Signed(sign, DigitsValue(d1 + d2) as real / Pow10(|d2|) as real))
  {
    FractionValue(d1, d2);
    DecimalLiteral(s, sign, d1, d2);
    WholeLiteralReads(s, w, Signed(sign, Magnitude(d1, d2)));
  }

  /**
   * `Number` and `parseFloat` read `[+-]? d` as the value of its digits,
   * negated after a `-`; `parseFloat` reads the same whatever follows, as
   * long as it does not begin with a digit or a point (so "1,5" reads 1).
   */
  lemma NumberReadsInteger(s: string, sign: string, d: string, w: string)
    requires IsSign(sign) && AllDigits(d) && |d| > 0
    requires WholeText(s, sign, d)
    requires |w| == 0 || (!IsDigit(w[0]) && w[0] != '.')
    ensures ToNumber(s) == Some(Signed(sign, DigitsValue(d) as real))
    ensures ParseFloat(s + w) == Some(Signed(sign, DigitsValue(d) as real))
  {
    IntegerLiteral(s, sign, d);
    WholeLiteralReads(s, w, Signed(sign, DigitsValue(d) as real));
  }
}
