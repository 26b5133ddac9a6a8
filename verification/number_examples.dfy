/**
 * Amounts written with an exponent. The number grammar has none, so
 * `parseFloat` stops at the `e` and both Wise pipelines read "1e3" as 1.
 */
module NumberExamples {
  import opened Results
  import opened Common
  import opened JsText
  import WiseCsv
  import LegacyCsv

  /** `parseFloat("1e3")` stops at the `e`: the literal read is "1". */
  lemma ExponentStopsLiteral()
    ensures ParseFloat("1e3") == Some(1.0)
  {
    assert "1e3" == "1" + "e3";
    ParseFloatIgnoresTrailingText("1", "e3");
    ReadOne();
  }

  lemma ReadOne()
    ensures ParseFloat("1") == Some(1.0)
  {
    assert AllDigits("1");
    assert DigitsValue("1") == 1;
  }

  /** A Wise amount written "1e3" is cleaned to 1, not 1000. */
  lemma ExponentAmountReadsAsOne(targetName: string, category: string, direction: Direction, createdOn: string)
    ensures WiseCsv.CleanTransaction(
      WiseCsv.WiseTransaction(targetName, Text("1e3"), category, direction, createdOn)).sourceAmount == 1.0
  {
    ExponentStopsLiteral();
  }

  /** The older pipeline turns the field "1e3" of the source amount column into the number 1. */
  lemma ExponentFieldReadsAsOne()
    ensures LegacyCsv.TransformValue("1e3", LegacyCsv.SourceAmountHeader) == Num(1.0)
  {
    ExponentStopsLiteral();
  }
}
