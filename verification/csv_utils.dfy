/**
 * The older Wise pipeline: the tokeniser's per-field transform, which turns
 * the four numeric columns into numbers when `parseFloat` finds one, the
 * error policy of the parse, and cleaning, totals, summaries and sorts over
 * the transformed rows. Nothing here validates a row or its direction.
 */
module LegacyCsv {
  import opened Results
  import opened Common
  import opened JsText
  import Aggregation
  import Sorting

  const SourceAmountHeader: string := "Source amount (after fees)"
  const TargetAmountHeader: string := "Target amount (after fees)"
  const ExchangeRateHeader: string := "Exchange rate"
  const SourceFeeHeader: string := "Source fee amount"
  const TargetNameHeader: string := "Target name"
  const CategoryHeader: string := "Category"
  const DirectionHeader: string := "Direction"
  const CreatedOnHeader: string := "Created on"

  /** The columns the transform reads as numbers. */
  const NumericHeaders: set<string> := {SourceAmountHeader, TargetAmountHeader, ExchangeRateHeader, SourceFeeHeader}

  /** A row after the transform: column name to a number or the raw text. */
  type LegacyRow = map<string, Cell>

  /**
   * The `transform` callback: in a numeric column the field becomes the
   * number `parseFloat` reads from it, or stays the raw text when that is
   * `NaN`; every other column keeps its text.
   */
  function TransformValue(value: string, header: string): (c: Cell)
    ensures c.Text? ==> c.text == value
    ensures c.Num? <==> header in NumericHeaders && ParseFloat(value).Some?
    ensures c.Num? ==> ParseFloat(value) == Some(c.number)
  {
    if header in NumericHeaders then
      match ParseFloat(value)
      case Some(n) => Num(n)
      case None => Text(value)
    else
      Text(value)
  }

  /**
   * In a numeric column, a field that is not blank and that `Number` accepts
   * becomes the number `Number` reads.
   */
  lemma TransformAgreesWithNumber(value: string, header: string)
    requires header in NumericHeaders
    requires !IsBlank(value) && ToNumber(value).Some?
    ensures TransformValue(value, header) == Num(ToNumber(value).value)
  {
    NumberAgreesWithParseFloat(value);
  }

  /** Every field of a tokenised row through the transform; the columns stay the same. */
  function TransformRow(row: Row): (r: LegacyRow)
    ensures r.Keys == row.Keys
    ensures forall k :: k in row && k !in NumericHeaders ==> r[k] == Text(row[k])
    ensures forall k :: k in row && k in NumericHeaders ==> r[k] == TransformValue(row[k], k)
  {
    map k | k in row :: TransformValue(row[k], k)
  }

  /**
   * The `complete` callback of `parseCSV`: any error the tokeniser reports
   * rejects the whole parse; otherwise every transformed row is returned,
   * with no validation of its own.
   */
  function ParseCsv(rows: seq<Row>, errors: seq<string>): (r: Result<seq<LegacyRow>, seq<string>>)
    ensures r.Err? <==> |errors| > 0
    ensures r.Err? ==> r.error == errors
    ensures r.Ok? ==> |r.value| == |rows| && forall i :: 0 <= i < |rows| ==> r.value[i].Keys == rows[i].Keys
    ensures r.Ok? ==> forall i, k :: 0 <= i < |rows| && k in rows[i] && k !in NumericHeaders ==> r.value[i][k] == Text(rows[i][k])
    ensures r.Ok? ==> forall i, k :: 0 <= i < |rows| && k in rows[i] && k in NumericHeaders ==>
      r.value[i][k] == TransformValue(rows[i][k], k)
  {
    if |errors| > 0 then Err(errors)
    else Ok(seq(|rows|, i requires 0 <= i < |rows| => TransformRow(rows[i])))
  }

  /** A text column as the application reads it; a missing column reads as the empty string. */
  function TextField(row: LegacyRow, key: string): string
  {
    if key in row && row[key].Text? then row[key].text else ""
  }

  /** A column that may hold a number; a missing column reads as the empty text. */
  function CellField(row: LegacyRow, key: string): Cell
  {
    if key in row then row[key] else Text("")
  }

  /** The transform leaves every non-numeric column readable as the text the tokeniser produced. */
  lemma TextColumnsSurvive(row: Row, key: string)
    requires key !in NumericHeaders
    ensures TextField(TransformRow(row), key) == Field(row, key)
  {
  }

  /** A transaction reduced to the columns the application uses; nothing is converted or checked. */
  datatype LegacyCleanTransaction = LegacyCleanTransaction(
    targetName: string, sourceAmount: Cell, category: string, direction: string, createdOn: string)

  /** `cleanTransactions`: one clean transaction per row, in order, each field copied as it is. */
  function CleanTransactions(rows: seq<LegacyRow>): (ts: seq<LegacyCleanTransaction>)
    ensures |ts| == |rows|
    ensures forall i :: 0 <= i < |rows| ==>
      && ts[i].targetName == TextField(rows[i], TargetNameHeader)
      && ts[i].sourceAmount == CellField(rows[i], SourceAmountHeader)
      && ts[i].category == TextField(rows[i], CategoryHeader)
      && ts[i].direction == TextField(rows[i], DirectionHeader)
      && ts[i].createdOn == TextField(rows[i], CreatedOnHeader)
  {
    seq(|rows|, i requires 0 <= i < |rows| =>
      LegacyCleanTransaction(
        TextField(rows[i], TargetNameHeader), CellField(rows[i], SourceAmountHeader),
        TextField(rows[i], CategoryHeader), TextField(rows[i], DirectionHeader),
        TextField(rows[i], CreatedOnHeader)))
  }

  /** Every amount is a number, as the declared type of a clean transaction says. */
  predicate NumericAmounts(ts: seq<LegacyCleanTransaction>)
  {
    forall i :: 0 <= i < |ts| ==> ts[i].sourceAmount.Num?
  }

  /** What aggregation reads of a clean transaction; the direction is the raw text. */
  function Entries(ts: seq<LegacyCleanTransaction>): (es: seq<Aggregation.Entry>)
    requires NumericAmounts(ts)
    ensures |es| == |ts|
    ensures forall i :: 0 <= i < |ts| ==>
      es[i] == Aggregation.Entry(ts[i].category, ts[i].targetName, ts[i].sourceAmount.number, ts[i].direction)
  {
    seq(|ts|, i requires 0 <= i < |ts| =>
      Aggregation.Entry(ts[i].category, ts[i].targetName, ts[i].sourceAmount.number, ts[i].direction))
  }

  /** `calculateTotalSpent`: the sum of the amounts whose direction is exactly "OUT". */
  function TotalSpent(ts: seq<LegacyCleanTransaction>): (r: real)
    requires NumericAmounts(ts)
    ensures r == Aggregation.AmountWhere(Entries(ts), OUT)
    ensures (forall i :: 0 <= i < |ts| ==> ts[i].direction != OUT) ==> r == 0.0
  {
    Aggregation.TotalSpent(Entries(ts))
  }

  /** `calculateTotalReceived`: the sum of the amounts whose direction is exactly "IN". */
  function TotalReceived(ts: seq<LegacyCleanTransaction>): (r: real)
    requires NumericAmounts(ts)
    ensures r == Aggregation.AmountWhere(Entries(ts), IN)
    ensures (forall i :: 0 <= i < |ts| ==> ts[i].direction != IN) ==> r == 0.0
  {
    Aggregation.TotalReceived(Entries(ts))
  }

  /**
   * Only when every direction is "IN" or "OUT" do the two totals add up to
   * the sum of all amounts: nothing validates the direction column here.
   */
  lemma TotalsPartition(ts: seq<LegacyCleanTransaction>)
    requires NumericAmounts(ts)
    requires forall i :: 0 <= i < |ts| ==> ts[i].direction == IN || ts[i].direction == OUT
    ensures TotalSpent(ts) + TotalReceived(ts) == Aggregation.Sum(Entries(ts))
  {
    Aggregation.TotalsPartition(Entries(ts));
  }

  /** `generateCategorySummaries`: spending per category, in first-occurrence order. */
  function CategorySummaries(ts: seq<LegacyCleanTransaction>): (r: seq<CategorySummary>)
    requires NumericAmounts(ts)
    ensures var es := Entries(ts);
      && |r| == |Aggregation.SpendKeys(es, Aggregation.ByCategory)|
      && (forall i :: 0 <= i < |r| ==>
        && r[i].category == Aggregation.SpendKeys(es, Aggregation.ByCategory)[i]
        && r[i].totalAmount == Aggregation.SpentOn(es, Aggregation.ByCategory, r[i].category)
        && r[i].count == Aggregation.SpendCount(es, Aggregation.ByCategory, r[i].category)
        && r[i].count >= 1
        && r[i].averageAmount == r[i].totalAmount / r[i].count as real)
    ensures forall i, j :: 0 <= i < j < |r| ==> r[i].category != r[j].category
    ensures Aggregation.CategoryTotals(r) == TotalSpent(ts)
    ensures Aggregation.CategoryCounts(r) == Aggregation.CountWhere(Entries(ts), OUT)
    ensures (forall i :: 0 <= i < |ts| ==> ts[i].direction != OUT) ==> r == []
  {
    Aggregation.CountWhereZero(Entries(ts), OUT);
    Aggregation.CategorySummaries(Entries(ts))
  }

  /** `generateTargetSummaries`: spending per counterparty, in first-occurrence order. */
  function TargetSummaries(ts: seq<LegacyCleanTransaction>): (r: seq<TargetSummary>)
    requires NumericAmounts(ts)
    ensures var es := Entries(ts);
      && |r| == |Aggregation.SpendKeys(es, Aggregation.ByTarget)|
      && (forall i :: 0 <= i < |r| ==>
        && r[i].targetName == Aggregation.SpendKeys(es, Aggregation.ByTarget)[i]
        && r[i].totalAmount == Aggregation.SpentOn(es, Aggregation.ByTarget, r[i].targetName)
        && r[i].count == Aggregation.SpendCount(es, Aggregation.ByTarget, r[i].targetName)
        && r[i].count >= 1
        && r[i].averageAmount == r[i].totalAmount / r[i].count as real)
    ensures forall i, j :: 0 <= i < j < |r| ==> r[i].targetName != r[j].targetName
    ensures Aggregation.TargetTotals(r) == TotalSpent(ts)
    ensures Aggregation.TargetCounts(r) == Aggregation.CountWhere(Entries(ts), OUT)
    ensures (forall i :: 0 <= i < |ts| ==> ts[i].direction != OUT) ==> r == []
  {
    Aggregation.CountWhereZero(Entries(ts), OUT);
    Aggregation.TargetSummaries(Entries(ts))
  }

  /** `sortByAmount`: a sorted copy, largest total first, equal totals in input order. */
  function SortByAmount<T(!new)>(summaries: seq<T>, totalAmount: T -> real): (r: seq<T>)
    ensures multiset(r) == multiset(summaries)
    ensures forall i, j :: 0 <= i < j < |r| ==> totalAmount(r[i]) >= totalAmount(r[j])
    ensures forall v :: Sorting.Ties(r, Sorting.Descending(totalAmount), v)
                     == Sorting.Ties(summaries, Sorting.Descending(totalAmount), v)
  {
    Sorting.SortDescending(summaries, totalAmount)
  }

  /** `sortByCount`: a sorted copy, largest count first, equal counts in input order. */
  function SortByCount<T(!new)>(summaries: seq<T>, count: T -> int): (r: seq<T>)
    ensures multiset(r) == multiset(summaries)
    ensures forall i, j :: 0 <= i < j < |r| ==> count(r[i]) >= count(r[j])
    ensures forall v :: Sorting.Ties(r, Sorting.Descending(Sorting.IntKey(count)), v)
                     == Sorting.Ties(summaries, Sorting.Descending(Sorting.IntKey(count)), v)
  {
    Sorting.SortDescending(summaries, Sorting.IntKey(count))
  }
}
