/**
 * Which text `Number` and `parseFloat` accept. `Number` reads a number from
 * blank text (0) and from text that, once trimmed, is exactly one decimal
 * literal; everything else is `NaN`. `parseFloat` reads a number only when the
 * text, after its leading white space, begins with a literal.
 */
module JsNumberText {
  import opened Results
  import opened JsText
  import opened JsLiterals

  /** `s` is laid out as `sign d1 '.' d2` with a digit on at least one side of the point. */
  predicate PointedLiteral(s: string, sign: string, d1: string, d2: string)
  {
    IsSign(sign) && AllDigits(d1) && AllDigits(d2) && |d1| + |d2| > 0 && PointedText(s, sign, d1, d2)
  }

  /** `s` is laid out as `sign d` with at least one digit. */
  predicate WholeLiteral(s: string, sign: string, d: string)
  {
    IsSign(sign) && AllDigits(d) && |d| > 0 && WholeText(s, sign, d)
  }

  /** `s` is exactly one decimal literal, and its value is `v`. */
  ghost predicate LiteralWorth(s: string, v: real)
  {
    (exists sign, d1, d2 :: PointedLiteral(s, sign, d1, d2) && v == Signed(sign, Magnitude(d1, d2))) ||
    (exists sign, d :: WholeLiteral(s, sign, d) && v == Signed(sign, DigitsValue(d) as real))
  }

  /** The sign `Scan` steps over is one of the three signs, and it is `-` exactly when the value is negated. */
  lemma ScanSign(s: string)
    ensures IsSign(s[..Scan(s).start])
    ensures s[..Scan(s).start] == "-" <==> Scan(s).start == 1 && s[0] == '-'
  {
  }

  /** Where `Scan` finds a point, the text up to the end of the fraction is laid out as `sign d1 '.' d2`. */
  lemma PointedPrefix(s: string, p: Span)
    requires p == Scan(s) && p.fracStart == p.intEnd + 1
    ensures PointedText(s[..p.fracEnd], s[..p.start], s[p.start..p.intEnd], s[p.fracStart..p.fracEnd])
  {
  }

  /** Where `Scan` finds no point, there is no fraction, and the text up to the digits' end is `sign d`. */
  lemma WholePrefix(s: string, p: Span)
    requires p == Scan(s) && p.fracStart != p.intEnd + 1
    ensures p.fracStart == p.fracEnd == p.intEnd
    ensures WholeText(s[..p.intEnd], s[..p.start], s[p.start..p.intEnd])
  {
  }

  /** Whatever `DecimalPrefix` reads is a literal, and the value it gives is that literal's value. */
  lemma PrefixIsLiteral(s: string)
    requires DecimalPrefix(s).Some?
    ensures LiteralWorth(s[..DecimalPrefix(s).value.1], DecimalPrefix(s).value.0)
  {
    var p := Scan(s);
    PrefixValue(s);
    if p.fracStart == p.intEnd + 1 {
      PointedWorth(s, p);
    } else {
      WholeWorth(s, p);
    }
  }

  /** The value `DecimalPrefix` gives, in terms of the sign and the digit runs `Scan` finds. */
  lemma PrefixValue(s: string)
    requires DecimalPrefix(s).Some?
    ensures Scan(s).intEnd > Scan(s).start || Scan(s).fracEnd > Scan(s).fracStart
    ensures DecimalPrefix(s) == Some((Signed(s[..Scan(s).start],
      Magnitude(s[Scan(s).start..Scan(s).intEnd], s[Scan(s).fracStart..Scan(s).fracEnd])), Scan(s).fracEnd))
  {
  }

  /** With a point, the text read is `sign d1 '.' d2`, worth its signed magnitude. */
  lemma PointedWorth(s: string, p: Span)
    requires p == Scan(s) && p.fracStart == p.intEnd + 1
    requires p.intEnd > p.start || p.fracEnd > p.fracStart
    ensures LiteralWorth(s[..p.fracEnd], Signed(s[..p.start], Magnitude(s[p.start..p.intEnd], s[p.fracStart..p.fracEnd])))
  {
  }

  /** Without a point, the text read is `sign d`, worth its signed digits. */
  lemma WholeWorth(s: string, p: Span)
    requires p == Scan(s) && p.fracStart != p.intEnd + 1
    requires p.intEnd > p.start || p.fracEnd > p.fracStart
    ensures LiteralWorth(s[..p.fracEnd], Signed(s[..p.start], Magnitude(s[p.start..p.intEnd], s[p.fracStart..p.fracEnd])))
  {
    var sign, d := s[..p.start], s[p.start..p.intEnd];
    ScanSign(s);
    WholePrefix(s, p);
    WholeMagnitude(d);
    assert WholeLiteral(s[..p.fracEnd], sign, d);
  }

  /**
   * `Number` reads a number from text that is not blank only when the trimmed
   * text is one literal, and the number is that literal's value: "1x",
   * "1.2.3", "+" and "." are `NaN`.
   */
  lemma NumberReadsOnlyLiterals(s: string)
    ensures ToNumber(s).Some? && !IsBlank(s) ==> LiteralWorth(TrimEnd(TrimStart(s)), ToNumber(s).value)
  {
    if ToNumber(s).Some? && !IsBlank(s) {
      var t := TrimEnd(TrimStart(s));
      NumberReadsWhole(s);
      PrefixIsLiteral(t);
      assert t[..|t|] == t;
    }
  }

  /** What `Number` accepts, it reads with `DecimalPrefix` to the end of the trimmed text. */
  lemma NumberReadsWhole(s: string)
    requires ToNumber(s).Some? && !IsBlank(s)
    ensures DecimalPrefix(TrimEnd(TrimStart(s))) == Some((ToNumber(s).value, |TrimEnd(TrimStart(s))|))
  {
  }

  /**
   * `parseFloat` reads a number only when a literal stands at the front of the
   * text, after its white space, and the number is that literal's value; the
   * literal is not followed by a digit. "+x", "." and "x1" are `NaN`.
   */
  lemma ParseFloatReadsOnlyLiterals(s: string)
    ensures ParseFloat(s).Some? ==>
      exists n :: 0 < n <= |TrimStart(s)| && LiteralWorth(TrimStart(s)[..n], ParseFloat(s).value) &&
        (n == |TrimStart(s)| || !IsDigit(TrimStart(s)[n]))
  {
    if ParseFloat(s).Some? {
      var t := TrimStart(s);
      assert DecimalPrefix(t).Some? && DecimalPrefix(t).value.0 == ParseFloat(s).value;
      PrefixIsLiteral(t);
    }
  }

  /** `Number` ignores the white space around text: it reads the trimmed text the same. */
  lemma NumberIgnoresSurroundingSpace(s: string)
    ensures ToNumber(s) == ToNumber(TrimEnd(TrimStart(s)))
  {
    TrimBoth(s);
    var t := TrimEnd(TrimStart(s));
    if |t| > 0 {
      assert TrimStart(t) == t;
      assert TrimEnd(t) == t;
    }
  }

  /** Text that is one literal is read by `Number` as the literal's value. */
  lemma LiteralIsNumber(t: string, v: real)
    requires LiteralWorth(t, v)
    ensures ToNumber(t) == Some(v)
  {
    if exists sign, d1, d2 :: PointedLiteral(t, sign, d1, d2) && v == Signed(sign, Magnitude(d1, d2)) {
      var sign, d1, d2 :| PointedLiteral(t, sign, d1, d2) && v == Signed(sign, Magnitude(d1, d2));
      DecimalLiteral(t, sign, d1, d2);
    } else {
      var sign, d :| WholeLiteral(t, sign, d) && v == Signed(sign, DigitsValue(d) as real);
      IntegerLiteral(t, sign, d);
    }
    WholeLiteralReads(t, "", v);
  }

  /**
   * `Number(s)` is `v` exactly when `s` is blank and `v` is 0, or when the
   * trimmed text is one literal worth `v`; every other text is `NaN`.
   */
  lemma NumberExactlyLiterals(s: string, v: real)
    ensures ToNumber(s) == Some(v) <==> (IsBlank(s) && v == 0.0) || LiteralWorth(TrimEnd(TrimStart(s)), v)
  {
    TrimBoth(s);
    NumberReadsOnlyLiterals(s);
    if LiteralWorth(TrimEnd(TrimStart(s)), v) {
      LiteralIsNumber(TrimEnd(TrimStart(s)), v);
      NumberIgnoresSurroundingSpace(s);
    }
  }
}
