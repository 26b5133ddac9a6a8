/**
 * The Wise CSV dialect: validating the tokenised rows, turning each
 * validated record into a clean transaction, and the totals, summaries and
 * sorts over those.
 */
module WiseCsv {
  import opened Results
  import opened Common
  import opened JsText
  import Aggregation
  import Sorting

  /**
   * The fields of a validated Wise record that cleaning reads. The schema
   * leaves `Source amount (after fees)` as a number or as a string.
   */
  datatype WiseTransaction = WiseTransaction(
    targetName: string, sourceAmount: Cell, category: string, direction: Direction, createdOn: string)

  /** A transaction reduced to the columns the application uses. */
  datatype WiseCleanTransaction = WiseCleanTransaction(
    targetName: string, sourceAmount: real, category: string, direction: Direction, createdOn: string)

  /** The records of the rows the schema accepts, in row order. */
  function ValidRows(rows: seq<Row>, schema: Row -> Option<WiseTransaction>): (ts: seq<WiseTransaction>)
    ensures |ts| <= |rows|
    ensures (forall i :: 0 <= i < |rows| ==> schema(rows[i]).None?) ==> ts == []
  {
    if |rows| == 0 then []
    else
      var init := ValidRows(rows[..|rows| - 1], schema);
      match schema(rows[|rows| - 1])
      case Some(t) => init + [t]
      case None => init
  }

  /** Filtering rows one at a time: the records of `a + b` are those of `a`, then those of `b`. */
  lemma {:induction false} ValidRowsConcat(a: seq<Row>, b: seq<Row>, schema: Row -> Option<WiseTransaction>)
    ensures ValidRows(a + b, schema) == ValidRows(a, schema) + ValidRows(b, schema)
  {
    if |b| == 0 {
      assert a + b == a;
    } else {
      ValidRowsConcat(a, b[..|b| - 1], schema);
      assert (a + b)[..|a + b| - 1] == a + b[..|b| - 1];
      assert (a + b)[|a + b| - 1] == b[|b| - 1];
    }
  }

  /** When the schema accepts every row, every record is kept, in row order. */
  lemma {:induction false} AllValidRowsKept(rows: seq<Row>, schema: Row -> Option<WiseTransaction>)
    requires forall i :: 0 <= i < |rows| ==> schema(rows[i]).Some?
    ensures |ValidRows(rows, schema)| == |rows|
    ensures forall i :: 0 <= i < |rows| ==> ValidRows(rows, schema)[i] == schema(rows[i]).value
  {
    if |rows| > 0 {
      var init := rows[..|rows| - 1];
      assert forall i :: 0 <= i < |init| ==> init[i] == rows[i];
      AllValidRowsKept(init, schema);
    }
  }

  /**
   * The validation loop of `parseWiseCSV`: a rejected row is logged and
   * skipped, so the parse never fails because of one; the error log is not
   * modelled.
   */
  method ParseWiseCsv(rows: seq<Row>, schema: Row -> Option<WiseTransaction>) returns (ts: seq<WiseTransaction>)
    ensures ts == ValidRows(rows, schema)
  {
    ts := [];
    var i := 0;
    while i < |rows|
      invariant 0 <= i <= |rows|
      invariant ts == ValidRows(rows[..i], schema)
    {
      assert rows[..i + 1][..i] == rows[..i];
      var result := schema(rows[i]);
      if result.Some? {
        ts := ts + [result.value];
      }
      i := i + 1;
    }
    assert rows[..i] == rows;
  }

  /** `parseFloat` finds a number in the amount text; otherwise the source would produce `NaN`. */
  predicate HasNumericAmount(t: WiseTransaction)
  {
    t.sourceAmount.Text? ==> ParseFloat(t.sourceAmount.text).Some?
  }

  /**
   * One element of the `map` in `cleanWiseTransactions`: a number passes
   * through, a string is read with `parseFloat`, the other fields are copied.
   */
  function CleanTransaction(t: WiseTransaction): (c: WiseCleanTransaction)
    requires HasNumericAmount(t)
    ensures c.targetName == t.targetName && c.category == t.category
    ensures c.direction == t.direction && c.createdOn == t.createdOn
    ensures t.sourceAmount.Num? ==> c.sourceAmount == t.sourceAmount.number
    ensures t.sourceAmount.Text? ==> ParseFloat(t.sourceAmount.text) == Some(c.sourceAmount)
  {
    var amount := match t.sourceAmount
      case Num(n) => n
      case Text(s) => ParseFloat(s).value;
    WiseCleanTransaction(t.targetName, amount, t.category, t.direction, t.createdOn)
  }

  /**
   * An amount string that is not blank and that `Number` accepts is cleaned
   * to the value `Number` gives it.
   */
  lemma CleanAmountAgreesWithNumber(t: WiseTransaction)
    requires t.sourceAmount.Text? && !IsBlank(t.sourceAmount.text) && ToNumber(t.sourceAmount.text).Some?
    ensures HasNumericAmount(t)
    ensures CleanTransaction(t).sourceAmount == ToNumber(t.sourceAmount.text).value
  {
    NumberAgreesWithParseFloat(t.sourceAmount.text);
  }

  /** `cleanWiseTransactions`: one clean transaction per record, in order, fields copied verbatim. */
  function CleanWiseTransactions(ts: seq<WiseTransaction>): (cs: seq<WiseCleanTransaction>)
    requires forall i :: 0 <= i < |ts| ==> HasNumericAmount(ts[i])
    ensures |cs| == |ts|
    ensures forall i :: 0 <= i < |ts| ==>
      && cs[i].targetName == ts[i].targetName
      && cs[i].category == ts[i].category
      && cs[i].direction == ts[i].direction
      && cs[i].createdOn == ts[i].createdOn
      && (ts[i].sourceAmount.Num? ==> cs[i].sourceAmount == ts[i].sourceAmount.number)
      && (ts[i].sourceAmount.Text? ==> ParseFloat(ts[i].sourceAmount.text) == Some(cs[i].sourceAmount))
  {
    seq(|ts|, i requires 0 <= i < |ts| => CleanTransaction(ts[i]))
  }

  /** What aggregation reads of a clean transaction. */
  function Entries(ts: seq<WiseCleanTransaction>): (es: seq<Aggregation.Entry>)
    ensures |es| == |ts|
    ensures forall i :: 0 <= i < |ts| ==>
      es[i] == Aggregation.Entry(ts[i].category, ts[i].targetName, ts[i].sourceAmount, ts[i].direction)
  {
    seq(|ts|, i requires 0 <= i < |ts| => Aggregation.Entry(ts[i].category, ts[i].targetName, ts[i].sourceAmount, ts[i].direction))
  }

  /** `calculateWiseTotalSpent`: the sum of the OUT amounts. */
  function TotalSpent(ts: seq<WiseCleanTransaction>): (r: real)
    ensures r == Aggregation.AmountWhere(Entries(ts), OUT)
    ensures (forall i :: 0 <= i < |ts| ==> ts[i].direction == IN) ==> r == 0.0
  {
    Aggregation.TotalSpent(Entries(ts))
  }

  /** `calculateWiseTotalReceived`: the sum of the IN amounts. */
  function TotalReceived(ts: seq<WiseCleanTransaction>): (r: real)
    ensures r == Aggregation.AmountWhere(Entries(ts), IN)
    ensures (forall i :: 0 <= i < |ts| ==> ts[i].direction == OUT) ==> r == 0.0
  {
    Aggregation.TotalReceived(Entries(ts))
  }

  /** Every transaction is IN or OUT, so spent plus received is the sum of all amounts. */
  lemma TotalsPartition(ts: seq<WiseCleanTransaction>)
    ensures TotalSpent(ts) + TotalReceived(ts) == Aggregation.Sum(Entries(ts))
  {
    Aggregation.TotalsPartition(Entries(ts));
  }

  /** `generateWiseCategorySummaries`: spending per category, in first-occurrence order. */
  function CategorySummaries(ts: seq<WiseCleanTransaction>): (r: seq<CategorySummary>)
    ensures var es := Entries(ts);
      && |r| == |Aggregation.SpendKeys(es, Aggregation.ByCategory)|
      && (forall i :: 0 <= i < |r| ==>
        && r[i].category == Aggregation.SpendKeys(es, Aggregation.ByCategory)[i]
        && r[i].totalAmount == Aggregation.SpentOn(es, Aggregation.ByCategory, r[i].category)
        && r[i].count == Aggregation.SpendCount(es, Aggregation.ByCategory, r[i].category)
        && r[i].count >= 1
        && r[i].averageAmount == r[i].totalAmount / r[i].count as real)
    ensures forall i, j :: 0 <= i < j < |r| ==> r[i].category != r[j].category
    ensures Aggregation.CategoryTotals(r) == TotalSpent(ts)
    ensures Aggregation.CategoryCounts(r) == Aggregation.CountWhere(Entries(ts), OUT)
    ensures (forall i :: 0 <= i < |ts| ==> ts[i].direction == IN) ==> r == []
  {
    Aggregation.CountWhereZero(Entries(ts), OUT);
    Aggregation.CategorySummaries(Entries(ts))
  }

  /** `generateWiseTargetSummaries`: spending per counterparty, in first-occurrence order. */
  function TargetSummaries(ts: seq<WiseCleanTransaction>): (r: seq<TargetSummary>)
    ensures var es := Entries(ts);
      && |r| == |Aggregation.SpendKeys(es, Aggregation.ByTarget)|
      && (forall i :: 0 <= i < |r| ==>
        && r[i].targetName == Aggregation.SpendKeys(es, Aggregation.ByTarget)[i]
        && r[i].totalAmount == Aggregation.SpentOn(es, Aggregation.ByTarget, r[i].targetName)
        && r[i].count == Aggregation.SpendCount(es, Aggregation.ByTarget, r[i].targetName)
        && r[i].count >= 1
        && r[i].averageAmount == r[i].totalAmount / r[i].count as real)
    ensures forall i, j :: 0 <= i < j < |r| ==> r[i].targetName != r[j].targetName
    ensures Aggregation.TargetTotals(r) == TotalSpent(ts)
    ensures Aggregation.TargetCounts(r) == Aggregation.CountWhere(Entries(ts), OUT)
    ensures (forall i :: 0 <= i < |ts| ==> ts[i].direction == IN) ==> r == []
  {
    Aggregation.CountWhereZero(Entries(ts), OUT);
    Aggregation.TargetSummaries(Entries(ts))
  }

  /** `sortWiseByAmount`: a sorted copy, largest total first, equal totals in input order. */
  function SortByAmount<T(!new)>(summaries: seq<T>, totalAmount: T -> real): (r: seq<T>)
    ensures multiset(r) == multiset(summaries)
    ensures forall i, j :: 0 <= i < j < |r| ==> totalAmount(r[i]) >= totalAmount(r[j])
    ensures forall v :: Sorting.Ties(r, Sorting.Descending(totalAmount), v)
                     == Sorting.Ties(summaries, Sorting.Descending(totalAmount), v)
  {
    Sorting.SortDescending(summaries, totalAmount)
  }

  /** `sortWiseByCount`: a sorted copy, largest count first, equal counts in input order. */
  function SortByCount<T(!new)>(summaries: seq<T>, count: T -> int): (r: seq<T>)
    ensures multiset(r) == multiset(summaries)
    ensures forall i, j :: 0 <= i < j < |r| ==> count(r[i]) >= count(r[j])
    ensures forall v :: Sorting.Ties(r, Sorting.Descending(Sorting.IntKey(count)), v)
                     == Sorting.Ties(summaries, Sorting.Descending(Sorting.IntKey(count)), v)
  {
    Sorting.SortDescending(summaries, Sorting.IntKey(count))
  }
}
