/**
 * A worked example of the Wise summaries: two grocery purchases and one
 * top-up. Only the purchases are summarised, under one category.
 */
module WiseExamples {
  import opened Common
  import Aggregation
  import WiseCsv
  import Sorting

  const Shop1: WiseCsv.WiseCleanTransaction := WiseCsv.WiseCleanTransaction("MENY", 30.0, "Groceries", OUT, "2025-05-02")
  const Shop2: WiseCsv.WiseCleanTransaction := WiseCsv.WiseCleanTransaction("REMA 1000", 70.0, "Groceries", OUT, "2025-05-03")
  const TopUp: WiseCsv.WiseCleanTransaction := WiseCsv.WiseCleanTransaction("TransferWise", 500.0, "Money added", IN, "2025-05-01")

  lemma EntriesOfExample()
    ensures WiseCsv.Entries([TopUp, Shop1, Shop2]) == [
      Aggregation.Entry("Money added", "TransferWise", 500.0, IN),
      Aggregation.Entry("Groceries", "MENY", 30.0, OUT),
      Aggregation.Entry("Groceries", "REMA 1000", 70.0, OUT)]
  {
  }

  /** Groceries: spent 100 over 2 purchases, 50 on average; the top-up is not spending. */
  lemma GroceriesSummary()
    ensures WiseCsv.CategorySummaries([TopUp, Shop1, Shop2]) == [CategorySummary("Groceries", 100.0, 2, 50.0)]
  {
    var es := WiseCsv.Entries([TopUp, Shop1, Shop2]);
    EntriesOfExample();
    var g := Aggregation.ByCategory;
    var one, two := es[..1], es[..2];
    assert two[..1] == one && es[..2] == two && one[..0] == [];
    assert Aggregation.SpendKeys(one, g) == [];
    assert Aggregation.SpendKeys(two, g) == ["Groceries"];
    assert Aggregation.SpendKeys(es, g) == ["Groceries"];
    assert Aggregation.SpentOn(one, g, "Groceries") == 0.0;
    assert Aggregation.SpentOn(two, g, "Groceries") == 30.0;
    assert Aggregation.SpentOn(es, g, "Groceries") == 100.0;
    assert Aggregation.SpendCount(one, g, "Groceries") == 0;
    assert Aggregation.SpendCount(two, g, "Groceries") == 1;
    assert Aggregation.SpendCount(es, g, "Groceries") == 2;
  }

  function TotalOf(s: CategorySummary): real
  {
    s.totalAmount
  }

  /** Three summaries where the middle one has the largest total and the outer two tie. */
  lemma StableOnThree(a: CategorySummary, b: CategorySummary, c: CategorySummary)
    requires a.totalAmount == c.totalAmount < b.totalAmount
    ensures Sorting.SortBy([a, b, c], Sorting.Descending(TotalOf)) == [b, a, c]
  {
    var before := Sorting.Descending(TotalOf);
    assert [a, b, c][1..] == [b, c] && [b, c][1..] == [c];
    assert TotalOf(a) == a.totalAmount && TotalOf(b) == b.totalAmount && TotalOf(c) == c.totalAmount;
    assert before(b, c) && !before(a, b) && before(a, c);
    assert Sorting.SortBy([c], before) == [c];
    assert Sorting.SortBy([b, c], before) == Sorting.Insert(b, [c], before) == [b, c];
    assert Sorting.Insert(a, [c], before) == [a, c];
    assert Sorting.Insert(a, [b, c], before) == [b] + [a, c];
  }

  /** Sorting by amount puts the largest total first and keeps the two equal totals in input order. */
  lemma SortByAmountIsStable()
    ensures var a, b, c := CategorySummary("Bills", 10.0, 1, 10.0),
                           CategorySummary("Transport", 20.0, 4, 5.0),
                           CategorySummary("Eating out", 10.0, 2, 5.0);
      WiseCsv.SortByAmount([a, b, c], TotalOf) == [b, a, c]
  {
    StableOnThree(CategorySummary("Bills", 10.0, 1, 10.0),
                  CategorySummary("Transport", 20.0, 4, 5.0),
                  CategorySummary("Eating out", 10.0, 2, 5.0));
  }
}
