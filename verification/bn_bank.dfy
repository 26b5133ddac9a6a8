/**
 * The BN Bank CSV dialect: validating the tokenised rows, turning each row
 * into a clean transaction, and the totals, summaries and sorts over those.
 *
 * The column names are spelled as the loader's character filter leaves them
 * when the file's Norwegian letters do not survive decoding: `Utført dato`
 * is read as `Utfrt dato` and `Beløp inn` as `Belp inn`.
 */
module BnBankCsv {
  import opened Results
  import opened Common
  import opened JsText
  import Aggregation
  import Sorting

  const DateColumn: string := "Utfrt dato"
  const AmountInColumn: string := "Belp inn"
  const AmountOutColumn: string := "Belp ut"
  const DescriptionColumn: string := "Beskrivelse"
  const SubtypeColumn: string := "Undertype"

  /** A transaction reduced to the columns the application uses. */
  datatype BnCleanTransaction = BnCleanTransaction(
    targetName: string, amount: real, category: string, direction: Direction, date: string)

  /**
   * The first row the schema rejects. The thrown error carries the schema's
   * issue list and the row; the issue list is not modelled, and the row's
   * position is this model's own addition.
   */
  datatype ValidationError = ValidationError(index: nat, row: Row)

  /**
   * The validation loop of `parseBnBankCSV`: every row goes through the
   * schema, and the first rejected row throws, so the whole parse fails and
   * no partial list is returned. `schema` returns the validated record, or
   * `None` when the row does not satisfy it.
   */
  method ParseBnBankCsv(rows: seq<Row>, schema: Row -> Option<Row>) returns (r: Result<seq<Row>, ValidationError>)
    ensures r.Ok? <==> forall i :: 0 <= i < |rows| ==> schema(rows[i]).Some?
    ensures r.Ok? ==> |r.value| == |rows| && forall i :: 0 <= i < |rows| ==> r.value[i] == schema(rows[i]).value
    ensures r.Err? ==>
      && r.error.index < |rows|
      && r.error.row == rows[r.error.index]
      && schema(rows[r.error.index]).None?
      && forall i :: 0 <= i < r.error.index ==> schema(rows[i]).Some?
  {
    var transactions: seq<Row> := [];
    var i := 0;
    while i < |rows|
      invariant 0 <= i <= |rows|
      invariant |transactions| == i
      invariant forall k :: 0 <= k < i ==> schema(rows[k]).Some? && transactions[k] == schema(rows[k]).value
    {
      var result := schema(rows[i]);
      if result.Some? {
        transactions := transactions + [result.value];
      } else {
        return Err(ValidationError(i, rows[i]));
      }
      i := i + 1;
    }
    return Ok(transactions);
  }

  /**
   * `(raw ?? '').replace(/\s/g, '').replace(',', '.')`: every white-space
   * character goes, and then only the first comma becomes a decimal point.
   */
  function CleanAmountText(raw: string): (r: string)
    ensures NoWhitespace(r)
    ensures var kept := Keep(raw, IsNotWhitespace);
      && |r| == |kept|
      && (forall k :: 0 <= k < |r| && r[k] != kept[k] ==> k == IndexOf(kept, ',') && r[k] == '.')
      && (',' in kept ==> r[IndexOf(kept, ',')] == '.')
    ensures NoWhitespace(raw) && ',' !in raw ==> r == raw
  {
    var kept := Keep(raw, IsNotWhitespace);
    var r := ReplaceFirst(kept, ',', '.');
    assert forall k :: 0 <= k < |r| ==> r[k] == kept[k] || r[k] == '.';
    KeepFixedPoint(raw, IsNotWhitespace);
    r
  }

  /** `s && !isNaN(Number(s))`: the text is non-empty and `Number` reads it as a number. */
  predicate IsNumeric(s: string)
  {
    s != "" && ToNumber(s).Some?
  }

  /**
   * The direction and amount of a row from its cleaned "inn" and "ut"
   * texts: a numeric "inn" wins, then a numeric "ut", and otherwise the row
   * counts as spending nothing. The amount is read with `parseFloat`, which
   * on these texts agrees with `Number`.
   */
  function Classify(inn: string, ut: string): (r: (Direction, real))
    requires NoWhitespace(inn) && NoWhitespace(ut)
    ensures IsNumeric(inn) ==> r == (IN, ToNumber(inn).value)
    ensures !IsNumeric(inn) && IsNumeric(ut) ==> r == (OUT, ToNumber(ut).value)
    ensures !IsNumeric(inn) && !IsNumeric(ut) ==> r == (OUT, 0.0)
    ensures r.0 == IN <==> IsNumeric(inn)
  {
    if IsNumeric(inn) then
      assert !IsWhitespace(inn[0]);
      NumberAgreesWithParseFloat(inn);
      (IN, ParseFloat(inn).value)
    else if IsNumeric(ut) then
      assert !IsWhitespace(ut[0]);
      NumberAgreesWithParseFloat(ut);
      (OUT, ParseFloat(ut).value)
    else
      (OUT, 0.0)
  }

  /** One element of the `map` in `cleanBnBankTransactions`. */
  function CleanTransaction(row: Row): (t: BnCleanTransaction)
    ensures t.targetName == Field(row, DescriptionColumn)
    ensures t.category == Field(row, SubtypeColumn)
    ensures t.date == Field(row, DateColumn)
    ensures (t.direction, t.amount)
         == Classify(CleanAmountText(Field(row, AmountInColumn)), CleanAmountText(Field(row, AmountOutColumn)))
  {
    var inn := CleanAmountText(Field(row, AmountInColumn));
    var ut := CleanAmountText(Field(row, AmountOutColumn));
    var (direction, amount) := Classify(inn, ut);
    BnCleanTransaction(Field(row, DescriptionColumn), amount, Field(row, SubtypeColumn), direction, Field(row, DateColumn))
  }

  /** `cleanBnBankTransactions`: one clean transaction per row, in row order; no row is rejected. */
  function CleanBnBankTransactions(rows: seq<Row>): (ts: seq<BnCleanTransaction>)
    ensures |ts| == |rows|
    ensures forall i :: 0 <= i < |rows| ==>
      && ts[i].targetName == Field(rows[i], DescriptionColumn)
      && ts[i].category == Field(rows[i], SubtypeColumn)
      && ts[i].date == Field(rows[i], DateColumn)
      && (ts[i].direction, ts[i].amount)
         == Classify(CleanAmountText(Field(rows[i], AmountInColumn)), CleanAmountText(Field(rows[i], AmountOutColumn)))
  {
    seq(|rows|, i requires 0 <= i < |rows| => CleanTransaction(rows[i]))
  }

  /** What aggregation reads of a clean transaction. */
  function Entries(ts: seq<BnCleanTransaction>): (es: seq<Aggregation.Entry>)
    ensures |es| == |ts|
    ensures forall i :: 0 <= i < |ts| ==>
      es[i] == Aggregation.Entry(ts[i].category, ts[i].targetName, ts[i].amount, ts[i].direction)
  {
    seq(|ts|, i requires 0 <= i < |ts| => Aggregation.Entry(ts[i].category, ts[i].targetName, ts[i].amount, ts[i].direction))
  }

  /** `calculateBnBankTotalSpent`: the sum of the OUT amounts. */
  function TotalSpent(ts: seq<BnCleanTransaction>): (r: real)
    ensures r == Aggregation.AmountWhere(Entries(ts), OUT)
    ensures (forall i :: 0 <= i < |ts| ==> ts[i].direction == IN) ==> r == 0.0
  {
    Aggregation.TotalSpent(Entries(ts))
  }

  /** `calculateBnBankTotalReceived`: the sum of the IN amounts. */
  function TotalReceived(ts: seq<BnCleanTransaction>): (r: real)
    ensures r == Aggregation.AmountWhere(Entries(ts), IN)
    ensures (forall i :: 0 <= i < |ts| ==> ts[i].direction == OUT) ==> r == 0.0
  {
    Aggregation.TotalReceived(Entries(ts))
  }

  /** Every transaction is IN or OUT, so spent plus received is the sum of all amounts. */
  lemma TotalsPartition(ts: seq<BnCleanTransaction>)
    ensures TotalSpent(ts) + TotalReceived(ts) == Aggregation.Sum(Entries(ts))
  {
    Aggregation.TotalsPartition(Entries(ts));
  }

  /** `generateBnBankCategorySummaries`: spending per category, in first-occurrence order. */
  function CategorySummaries(ts: seq<BnCleanTransaction>): (r: seq<CategorySummary>)
    ensures var es := Entries(ts);
      && |r| == |Aggregation.SpendKeys(es, Aggregation.ByCategory)|
      && (forall i :: 0 <= i < |r| ==>
        && r[i].category == Aggregation.SpendKeys(es, Aggregation.ByCategory)[i]
        && r[i].totalAmount == Aggregation.SpentOn(es, Aggregation.ByCategory, r[i].category)
        && r[i].count == Aggregation.SpendCount(es, Aggregation.ByCategory, r[i].category)
        && r[i].count >= 1
        && r[i].averageAmount == r[i].totalAmount / r[i].count as real)
    ensures forall i, j :: 0 <= i < j < |r| ==> r[i].category != r[j].category
    ensures Aggregation.CategoryTotals(r) == TotalSpent(ts)
    ensures Aggregation.CategoryCounts(r) == Aggregation.CountWhere(Entries(ts), OUT)
    ensures (forall i :: 0 <= i < |ts| ==> ts[i].direction == IN) ==> r == []
  {
    Aggregation.CountWhereZero(Entries(ts), OUT);
    Aggregation.CategorySummaries(Entries(ts))
  }

  /** `generateBnBankTargetSummaries`: spending per counterparty, in first-occurrence order. */
  function TargetSummaries(ts: seq<BnCleanTransaction>): (r: seq<TargetSummary>)
    ensures var es := Entries(ts);
      && |r| == |Aggregation.SpendKeys(es, Aggregation.ByTarget)|
      && (forall i :: 0 <= i < |r| ==>
        && r[i].targetName == Aggregation.SpendKeys(es, Aggregation.ByTarget)[i]
        && r[i].totalAmount == Aggregation.SpentOn(es, Aggregation.ByTarget, r[i].targetName)
        && r[i].count == Aggregation.SpendCount(es, Aggregation.ByTarget, r[i].targetName)
        && r[i].count >= 1
        && r[i].averageAmount == r[i].totalAmount / r[i].count as real)
    ensures forall i, j :: 0 <= i < j < |r| ==> r[i].targetName != r[j].targetName
    ensures Aggregation.TargetTotals(r) == TotalSpent(ts)
    ensures Aggregation.TargetCounts(r) == Aggregation.CountWhere(Entries(ts), OUT)
    ensures (forall i :: 0 <= i < |ts| ==> ts[i].direction == IN) ==> r == []
  {
    Aggregation.CountWhereZero(Entries(ts), OUT);
    Aggregation.TargetSummaries(Entries(ts))
  }

  /** `sortBnBankByAmount`: a sorted copy, largest total first, equal totals in input order. */
  function SortByAmount<T(!new)>(summaries: seq<T>, totalAmount: T -> real): (r: seq<T>)
    ensures multiset(r) == multiset(summaries)
    ensures forall i, j :: 0 <= i < j < |r| ==> totalAmount(r[i]) >= totalAmount(r[j])
    ensures forall v :: Sorting.Ties(r, Sorting.Descending(totalAmount), v)
                     == Sorting.Ties(summaries, Sorting.Descending(totalAmount), v)
  {
    Sorting.SortDescending(summaries, totalAmount)
  }

  /** `sortBnBankByCount`: a sorted copy, largest count first, equal counts in input order. */
  function SortByCount<T(!new)>(summaries: seq<T>, count: T -> int): (r: seq<T>)
    ensures multiset(r) == multiset(summaries)
    ensures forall i, j :: 0 <= i < j < |r| ==> count(r[i]) >= count(r[j])
    ensures forall v :: Sorting.Ties(r, Sorting.Descending(Sorting.IntKey(count)), v)
                     == Sorting.Ties(summaries, Sorting.Descending(Sorting.IntKey(count)), v)
  {
    Sorting.SortDescending(summaries, Sorting.IntKey(count))
  }
}
