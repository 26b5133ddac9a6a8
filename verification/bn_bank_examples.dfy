/**
 * Worked examples of the BN Bank row cleaning: the Norwegian amount
 * "1 234,50", with a thousands space and a decimal comma, becomes the
 * JavaScript literal "1234.50", which `Number` reads as 1234.5.
 */
module BnBankExamples {
  import opened Results
  import opened JsText
  import Common
  import BnBankCsv
  import BnBankLoader

  lemma KeepDigitsAndComma()
    ensures Keep("234,50", IsNotWhitespace) == "234,50"
  {
    KeepFixedPoint("234,50", IsNotWhitespace);
  }

  lemma KeepAfterSpace()
    ensures Keep(" 234,50", IsNotWhitespace) == "234,50"
  {
    assert " 234,50"[1..] == "234,50";
    KeepDigitsAndComma();
  }

  /** The thousands space of "1 234,50" goes. */
  lemma DropThousandsSpace()
    ensures Keep("1 234,50", IsNotWhitespace) == "1234,50"
  {
    assert "1 234,50"[1..] == " 234,50";
    KeepAfterSpace();
    assert "1" + "234,50" == "1234,50";
  }

  lemma FirstCommaAt4()
    ensures IndexOf("1234,50", ',') == 4
  {
    assert "1234,50"[1..] == "234,50";
    assert "234,50"[1..] == "34,50";
    assert "34,50"[1..] == "4,50";
    assert "4,50"[1..] == ",50";
  }

  lemma PointBetween()
    ensures "1234" + ['.'] + "50" == "1234.50"
  {
    var s := "1234" + ['.'] + "50";
    assert |s| == 7;
    assert s[0] == '1' && s[1] == '2' && s[2] == '3' && s[3] == '4';
    assert s[4] == '.' && s[5] == '5' && s[6] == '0';
  }

  /** The decimal comma becomes a point. */
  lemma ReplaceDecimalComma()
    ensures ReplaceFirst("1234,50", ',', '.') == "1234.50"
  {
    FirstCommaAt4();
    assert "1234,50"[..4] == "1234";
    assert "1234,50"[5..] == "50";
    PointBetween();
  }

  /** A Norwegian amount with a thousands space and a decimal comma becomes a JavaScript literal. */
  lemma CleanNorwegianAmount()
    ensures BnBankCsv.CleanAmountText("1 234,50") == "1234.50"
  {
    DropThousandsSpace();
    ReplaceDecimalComma();
  }

  lemma DigitsOf1234()
    ensures DigitsValue("1234") == 1234
  {
    assert DigitsValue("1") == 1;
    assert DigitsValue("12") == 12 by { assert "12"[..1] == "1"; }
    assert DigitsValue("123") == 123 by { assert "123"[..2] == "12"; }
    assert "1234"[..3] == "123";
  }

  lemma DigitsOf50()
    ensures DigitsValue("50") == 50
  {
    assert "50"[..1] == "5";
  }

  lemma PrefixOfCleanAmount()
    ensures DecimalPrefix("1234.50") == Some((1234.5, 7))
  {
    var s := "1234.50";
    assert DigitRun(s, 0) == 4;
    assert DigitRun(s, 5) == 7;
    assert s[0..4] == "1234" && s[5..7] == "50";
    DigitsOf1234();
    DigitsOf50();
    assert Pow10(2) == 100;
  }

  /** `Number` reads the cleaned text as the amount it spells. */
  lemma ReadNorwegianAmount()
    ensures ToNumber("1234.50") == Some(1234.5)
  {
    assert TrimStart("1234.50") == "1234.50";
    assert TrimEnd("1234.50") == "1234.50";
    PrefixOfCleanAmount();
  }

  /** A row with "1 234,50" received is an IN transaction of 1234.5, whatever "ut" holds. */
  lemma ReceivedRowExample(ut: string)
    ensures var t := BnBankCsv.CleanTransaction(map[BnBankCsv.AmountInColumn := "1 234,50", BnBankCsv.AmountOutColumn := ut]);
      t.direction == Common.IN && t.amount == 1234.5
  {
    var row := map[BnBankCsv.AmountInColumn := "1 234,50", BnBankCsv.AmountOutColumn := ut];
    assert Common.Field(row, BnBankCsv.AmountInColumn) == "1 234,50";
    CleanNorwegianAmount();
    ReadNorwegianAmount();
  }

  /** A row with neither amount filled in counts as spending nothing, and is not rejected. */
  lemma EmptyAmountsExample(description: string)
    ensures var t := BnBankCsv.CleanTransaction(map[BnBankCsv.DescriptionColumn := description]);
      t.direction == Common.OUT && t.amount == 0.0 && t.targetName == description
  {
    var row := map[BnBankCsv.DescriptionColumn := description];
    assert Common.Field(row, BnBankCsv.AmountInColumn) == "" && Common.Field(row, BnBankCsv.AmountOutColumn) == "";
  }

  // ----- Column names and the character filter -----

  lemma ReplacementCharacterDeleted()
    ensures BnBankLoader.Sanitize("\U{FFFD}") == ""
  {
    assert "\U{FFFD}"[1..] == "";
  }

  lemma AsciiPartsKept()
    ensures BnBankLoader.Sanitize("Bel") == "Bel"
    ensures BnBankLoader.Sanitize("p inn") == "p inn"
  {
    BnBankLoader.SanitizeFixedPoint("Bel");
    BnBankLoader.SanitizeFixedPoint("p inn");
  }

  lemma StemLosesReplacement()
    ensures BnBankLoader.Sanitize("Bel\U{FFFD}") == "Bel"
  {
    ReplacementCharacterDeleted();
    AsciiPartsKept();
    BnBankLoader.SanitizeConcat("Bel", "\U{FFFD}");
    assert "Bel" + "\U{FFFD}" == "Bel\U{FFFD}";
    assert "Bel" + "" == "Bel";
  }

  /** A header whose "ø" was decoded as U+FFFD loses it to the filter and matches the column the cleaner reads. */
  lemma StrippedHeaderMatches()
    ensures BnBankLoader.Sanitize("Bel\U{FFFD}p inn") == BnBankCsv.AmountInColumn
  {
    StemLosesReplacement();
    AsciiPartsKept();
    BnBankLoader.SanitizeConcat("Bel\U{FFFD}", "p inn");
    assert "Bel\U{FFFD}" + "p inn" == "Bel\U{FFFD}p inn";
    assert "Bel" + "p inn" == BnBankCsv.AmountInColumn;
  }

  /** A header whose "ø" was decoded as itself passes the filter unchanged. */
  lemma DecodedHeaderKept()
    ensures BnBankLoader.Sanitize("Beløp inn") == "Beløp inn"
  {
    BnBankLoader.SanitizeFixedPoint("Beløp inn");
  }

  /**
   * With such a header the cleaner's lookups find nothing, so a row that
   * received money is cleaned as spending nothing.
   */
  lemma DecodedHeaderMissesAmount(amount: string)
    ensures var t := BnBankCsv.CleanTransaction(map["Beløp inn" := amount]);
      t.direction == Common.OUT && t.amount == 0.0
  {
    var row := map["Beløp inn" := amount];
    assert "Beløp inn" != BnBankCsv.AmountInColumn by {
      assert "Beløp inn"[3] != BnBankCsv.AmountInColumn[3];
    }
    assert "Beløp inn" != BnBankCsv.AmountOutColumn by {
      assert |"Beløp inn"| != |BnBankCsv.AmountOutColumn|;
    }
    assert Common.Field(row, BnBankCsv.AmountInColumn) == "";
    assert Common.Field(row, BnBankCsv.AmountOutColumn) == "";
  }
}
