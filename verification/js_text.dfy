/**
 * The few pieces of ECMAScript string and number handling the pipeline relies
 * on: the `\s` character class, deleting the characters a regular expression
 * matches, `String.prototype.replace` with a one-character pattern, `Number`
 * and `parseFloat`.
 *
 * Numbers are `real`. The grammar accepted by `Number` and `parseFloat` is the
 * decimal literal without an exponent: an optional sign, then digits with an
 * optional fraction, or a point followed by digits. `Infinity`, exponents and
 * hexadecimal, binary and octal literals are not modelled; `None` stands for `NaN`.
 */
module JsText {
  import opened Results

  /** The code points `\s` matches: ECMAScript WhiteSpace and LineTerminator. */
  predicate IsWhitespace(c: char)
  {
    || c == '\t' || c == '\n' || c == '\U{000B}' || c == '\U{000C}' || c == '\r' || c == ' '
    || c == '\U{00A0}' || c == '\U{1680}' || ('\U{2000}' <= c <= '\U{200A}')
    || c == '\U{2028}' || c == '\U{2029}' || c == '\U{202F}' || c == '\U{205F}'
    || c == '\U{3000}' || c == '\U{FEFF}'
  }

  predicate IsNotWhitespace(c: char)
  {
    !IsWhitespace(c)
  }

  predicate NoWhitespace(s: string)
  {
    forall i :: 0 <= i < |s| ==> !IsWhitespace(s[i])
  }

  /**
   * The characters of `s` that satisfy `keep`, in their original order: what
   * `s.replace(/[^...]/g, '')` leaves when the class matches the others.
   */
  function Keep(s: string, keep: char -> bool): (r: string)
    ensures |r| <= |s|
    ensures forall i :: 0 <= i < |r| ==> keep(r[i])
    ensures forall c :: c in r ==> c in s
  {
    if |s| == 0 then "" else (if keep(s[0]) then [s[0]] else "") + Keep(s[1..], keep)
  }

  /** Deletion distributes over concatenation: each character is kept or dropped on its own. */
  lemma {:induction false} KeepConcat(a: string, b: string, keep: char -> bool)
    ensures Keep(a + b, keep) == Keep(a, keep) + Keep(b, keep)
  {
    if |a| == 0 {
      assert a + b == b;
    } else {
      assert (a + b)[1..] == a[1..] + b;
      KeepConcat(a[1..], b, keep);
    }
  }

  /** Deletion changes nothing exactly when every character is kept. */
  lemma {:induction false} KeepFixedPoint(s: string, keep: char -> bool)
    ensures Keep(s, keep) == s <==> forall i :: 0 <= i < |s| ==> keep(s[i])
  {
    if |s| > 0 && keep(s[0]) {
      KeepFixedPoint(s[1..], keep);
      if forall i :: 0 <= i < |s| ==> keep(s[i]) {
        assert forall i :: 0 <= i < |s[1..]| ==> keep(s[1..][i]) by {
          forall i | 0 <= i < |s[1..]| ensures keep(s[1..][i]) {
            assert s[1..][i] == s[i + 1];
          }
        }
        assert [s[0]] + s[1..] == s;
      }
    }
  }

  /** A character is in the kept text exactly when it is in the input and kept. */
  lemma {:induction false} KeepMembership(s: string, keep: char -> bool, c: char)
    ensures c in Keep(s, keep) <==> c in s && keep(c)
  {
    if |s| > 0 {
      KeepMembership(s[1..], keep, c);
      assert s == [s[0]] + s[1..];
    }
  }

  /** Deleting twice is deleting once. */
  lemma KeepIdempotent(s: string, keep: char -> bool)
    ensures Keep(Keep(s, keep), keep) == Keep(s, keep)
  {
    KeepFixedPoint(Keep(s, keep), keep);
  }

  /** Index of the first `c` in `s`, or -1 (`String.prototype.indexOf`). */
  function IndexOf(s: string, c: char): (i: int)
    ensures -1 <= i < |s|
    ensures i >= 0 ==> s[i] == c && forall k :: 0 <= k < i ==> s[k] != c
    ensures i < 0 <==> c !in s
  {
    if |s| == 0 then -1
    else if s[0] == c then 0
    else
      var j := IndexOf(s[1..], c);
      if j < 0 then -1 else j + 1
  }

  /** `s.replace(from, to)` for one-character strings: only the first occurrence changes. */
  function ReplaceFirst(s: string, from: char, to: char): (r: string)
    ensures |r| == |s|
    ensures forall k :: 0 <= k < |s| && k != IndexOf(s, from) ==> r[k] == s[k]
    ensures from in s ==> r[IndexOf(s, from)] == to
  {
    var i := IndexOf(s, from);
    if i < 0 then s else s[..i] + [to] + s[i + 1..]
  }

  predicate IsDigit(c: char)
  {
    '0' <= c <= '9'
  }

  predicate AllDigits(d: string)
  {
    forall k :: 0 <= k < |d| ==> IsDigit(d[k])
  }

  /** A character a decimal literal may begin with: a digit, a sign or a point. */
  predicate StartsLiteral(s: string)
  {
    |s| > 0 && (IsDigit(s[0]) || s[0] == '+' || s[0] == '-' || s[0] == '.')
  }

  /** Text made of white space only, the empty string included. */
  predicate IsBlank(s: string)
  {
    forall i :: 0 <= i < |s| ==> IsWhitespace(s[i])
  }

  /** The end of the run of digits that starts at `i`. */
  function DigitRun(s: string, i: nat): (j: nat)
    requires i <= |s|
    ensures i <= j <= |s|
    ensures forall k :: i <= k < j ==> IsDigit(s[k])
    ensures j == |s| || !IsDigit(s[j])
    decreases |s| - i
  {
    if i < |s| && IsDigit(s[i]) then DigitRun(s, i + 1) else i
  }

  /** The value of a string of decimal digits (0 for the empty string). */
  function DigitsValue(d: string): nat
    requires AllDigits(d)
  {
    if |d| == 0 then 0
    else
      assert IsDigit(d[|d| - 1]);
      DigitsValue(d[..|d| - 1]) * 10 + (d[|d| - 1] as int - '0' as int)
  }

  function Pow10(n: nat): (r: nat)
    ensures r >= 1
  {
    if n == 0 then 1 else 10 * Pow10(n - 1)
  }

  /**
   * Where the parts of a decimal literal lie at the front of `s`: the digits
   * before the point run from `start` (past an optional sign) to `intEnd`, and
   * those after it from `fracStart` to `fracEnd`. Without a point the
   * fraction is empty.
   */
  datatype Span = Span(start: nat, intEnd: nat, fracStart: nat, fracEnd: nat)

  function Scan(s: string): (p: Span)
    ensures p.start <= p.intEnd <= p.fracStart <= p.fracEnd <= |s|
    ensures AllDigits(s[p.start..p.intEnd]) && AllDigits(s[p.fracStart..p.fracEnd])
  {
    var start := if |s| > 0 && (s[0] == '+' || s[0] == '-') then 1 else 0;
    var intEnd := DigitRun(s, start);
    var fracStart := if intEnd < |s| && s[intEnd] == '.' then intEnd + 1 else intEnd;
    var fracEnd := DigitRun(s, fracStart);
    assert AllDigits(s[start..intEnd]) by {
      forall k | 0 <= k < intEnd - start ensures IsDigit(s[start..intEnd][k]) {
        assert s[start..intEnd][k] == s[start + k];
      }
    }
    assert AllDigits(s[fracStart..fracEnd]) by {
      forall k | 0 <= k < fracEnd - fracStart ensures IsDigit(s[fracStart..fracEnd][k]) {
        assert s[fracStart..fracEnd][k] == s[fracStart + k];
      }
    }
    Span(start, intEnd, fracStart, fracEnd)
  }

  /** The value of a literal's digits, without its sign. */
  function Magnitude(intDigits: string, fracDigits: string): (m: real)
    requires AllDigits(intDigits) && AllDigits(fracDigits)
    ensures m >= 0.0
  {
    DigitsValue(intDigits) as real + DigitsValue(fracDigits) as real / Pow10(|fracDigits|) as real
  }

  /**
   * The longest prefix of `s` that is a decimal literal
   * `[+-]? (digits ('.' digits?)? | '.' digits)`, as its value and its length.
   * A literal begins with a digit, a sign or a point, never stops in the middle
   * of a run of digits, and has the sign of its leading `-`. A digit string is
   * read whole, as its decimal value.
   */
  function DecimalPrefix(s: string): (r: Option<(real, nat)>)
    ensures r.Some? ==> 0 < r.value.1 <= |s|
    ensures r.Some? ==> StartsLiteral(s)
    ensures r.Some? ==> r.value.1 == |s| || !IsDigit(s[r.value.1])
    ensures r.Some? && s[0] == '-' ==> r.value.0 <= 0.0
    ensures r.Some? && s[0] != '-' ==> r.value.0 >= 0.0
    ensures |s| > 0 && AllDigits(s) ==> r == Some((DigitsValue(s) as real, |s|))
  {
    var p := Scan(s);
    if p.intEnd == p.start && p.fracEnd == p.fracStart then None
    else
      var magnitude := Magnitude(s[p.start..p.intEnd], s[p.fracStart..p.fracEnd]);
      assert |s| > 0 && AllDigits(s) ==> s[p.start..p.intEnd] == s && p.fracStart == p.fracEnd;
      Some((if p.start == 1 && s[0] == '-' then -magnitude else magnitude, p.fracEnd))
  }

  /** A digit run is not lengthened by text that does not begin with a digit. */
  lemma {:induction false} DigitRunExtends(t: string, w: string, i: nat)
    requires i <= |t|
    requires |w| == 0 || !IsDigit(w[0])
    ensures DigitRun(t + w, i) == DigitRun(t, i)
    decreases |t| - i
  {
    if i < |t| {
      assert (t + w)[i] == t[i];
      if IsDigit(t[i]) {
        DigitRunExtends(t, w, i + 1);
      }
    } else if |w| > 0 {
      assert (t + w)[i] == w[0];
    }
  }

  /**
   * Text that cannot continue a literal (it begins with neither a digit nor a
   * point) changes nothing about the literal read in front of it.
   */
  lemma DecimalPrefixExtends(t: string, w: string)
    requires |t| > 0
    requires |w| == 0 || (!IsDigit(w[0]) && w[0] != '.')
    ensures DecimalPrefix(t + w) == DecimalPrefix(t)
  {
    var s := t + w;
    ScanExtends(t, w);
    var p := Scan(t);
    assert s[0] == t[0];
    assert s[p.start..p.intEnd] == t[p.start..p.intEnd];
    assert s[p.fracStart..p.fracEnd] == t[p.fracStart..p.fracEnd];
  }

  lemma ScanExtends(t: string, w: string)
    requires |t| > 0
    requires |w| == 0 || (!IsDigit(w[0]) && w[0] != '.')
    ensures Scan(t + w) == Scan(t)
  {
    var s := t + w;
    assert s[0] == t[0];
    var start := if t[0] == '+' || t[0] == '-' then 1 else 0;
    DigitRunExtends(t, w, start);
    var intEnd := DigitRun(t, start);
    if intEnd < |t| {
      assert s[intEnd] == t[intEnd];
    } else if |w| > 0 {
      assert s[intEnd] == w[0];
    }
    var fracStart := if intEnd < |t| && t[intEnd] == '.' then intEnd + 1 else intEnd;
    DigitRunExtends(t, w, fracStart);
  }

  /** `s` without its leading white space. */
  function TrimStart(s: string): (r: string)
    ensures |r| <= |s| && r == s[|s| - |r|..]
    ensures |r| == 0 || !IsWhitespace(r[0])
    ensures forall k :: 0 <= k < |s| - |r| ==> IsWhitespace(s[k])
  {
    if |s| > 0 && IsWhitespace(s[0]) then TrimStart(s[1..]) else s
  }

  /** `s` without its trailing white space. */
  function TrimEnd(s: string): (r: string)
    ensures |r| <= |s| && r == s[..|r|]
    ensures |r| == 0 || !IsWhitespace(r[|r| - 1])
    ensures forall k :: |r| <= k < |s| ==> IsWhitespace(s[k])
  {
    if |s| > 0 && IsWhitespace(s[|s| - 1]) then TrimEnd(s[..|s| - 1]) else s
  }

  lemma WhitespaceIsNotLiteral(c: char)
    requires IsWhitespace(c)
    ensures !IsDigit(c) && c != '.' && c != '+' && c != '-'
  {
  }

  /**
   * Trimming both ends leaves nothing exactly when the text is blank; what it
   * leaves begins where the front trim stopped, and a digit string has
   * nothing to trim.
   */
  lemma TrimBoth(s: string)
    ensures IsBlank(s) <==> TrimEnd(TrimStart(s)) == ""
    ensures |TrimEnd(TrimStart(s))| > 0 ==> TrimEnd(TrimStart(s))[0] == TrimStart(s)[0]
    ensures |s| > 0 && AllDigits(s) ==> TrimStart(s) == s && TrimEnd(TrimStart(s)) == s
  {
    var front := TrimStart(s);
    var t := TrimEnd(front);
    if IsBlank(s) && |front| > 0 {
      assert false;
    }
    if !IsBlank(s) {
      var k :| 0 <= k < |s| && !IsWhitespace(s[k]);
      assert |front| > 0;
      if |t| == 0 {
        assert false;
      }
    }
    if |s| > 0 && AllDigits(s) {
      if IsWhitespace(s[0]) {
        WhitespaceIsNotLiteral(s[0]);
        assert false;
      }
      assert front == s;
      if IsWhitespace(s[|s| - 1]) {
        WhitespaceIsNotLiteral(s[|s| - 1]);
        assert false;
      }
    }
  }

  /**
   * `Number(s)`: white space around a literal is ignored, blank text is 0,
   * anything else is `NaN`. Accepted text that is not blank begins, after its
   * white space, with a digit, a sign or a point; a digit string is read as its
   * decimal value.
   */
  function ToNumber(s: string): (r: Option<real>)
    ensures IsBlank(s) ==> r == Some(0.0)
    ensures r.Some? && !IsBlank(s) ==> StartsLiteral(TrimStart(s))
    ensures |s| > 0 && AllDigits(s) ==> r == Some(DigitsValue(s) as real)
  {
    TrimBoth(s);
    var t := TrimEnd(TrimStart(s));
    if |t| == 0 then Some(0.0)
    else match DecimalPrefix(t)
      case Some(p) => if p.1 == |t| then Some(p.0) else None
      case None => None
  }

  /**
   * `parseFloat(s)`: the longest literal after leading white space; trailing
   * text is ignored. Text with nothing numeric at its front is `NaN`; a digit
   * string is read as its decimal value.
   */
  function ParseFloat(s: string): (r: Option<real>)
    ensures r.Some? ==> StartsLiteral(TrimStart(s))
    ensures |s| > 0 && AllDigits(s) ==> r == Some(DigitsValue(s) as real)
  {
    TrimBoth(s);
    match DecimalPrefix(TrimStart(s))
    case Some(p) => Some(p.0)
    case None => None
  }

  /**
   * `parseFloat` reads a literal and stops at the first character that cannot
   * continue it, so whatever follows is ignored: `parseFloat("1e3")` reads 1.
   */
  lemma ParseFloatIgnoresTrailingText(t: string, w: string)
    requires |t| > 0 && !IsWhitespace(t[0])
    requires |w| == 0 || (!IsDigit(w[0]) && w[0] != '.')
    ensures ParseFloat(t + w) == ParseFloat(t)
  {
    assert (t + w)[0] == t[0];
    DecimalPrefixExtends(t, w);
  }

  /**
   * On text that is not blank and that `Number` accepts, `parseFloat` reads
   * the same value: the white space `Number` trims from the end cannot
   * continue the literal.
   */
  lemma NumberAgreesWithParseFloat(s: string)
    requires !IsBlank(s) && ToNumber(s).Some?
    ensures ParseFloat(s) == ToNumber(s)
  {
    var front := TrimStart(s);
    TrimBoth(s);
    TrimEndCannotContinue(front);
    assert DecimalPrefix(front) == DecimalPrefix(TrimEnd(front));
  }

  /** What `TrimEnd` removes cannot continue a literal, so the literal at the front reads the same. */
  lemma TrimEndCannotContinue(front: string)
    requires |TrimEnd(front)| > 0
    ensures DecimalPrefix(front) == DecimalPrefix(TrimEnd(front))
  {
    var t, w := TrimEnd(front), front[|TrimEnd(front)|..];
    assert front == t + w;
    assert |w| == 0 || w[0] == front[|t|];
    BlankCannotContinue(t, w);
  }

  /** White space after a literal does not change it. */
  lemma BlankCannotContinue(t: string, w: string)
    requires |t| > 0
    requires |w| == 0 || IsWhitespace(w[0])
    ensures DecimalPrefix(t + w) == DecimalPrefix(t)
  {
    if |w| > 0 {
      WhitespaceIsNotLiteral(w[0]);
    }
    DecimalPrefixExtends(t, w);
  }
}
