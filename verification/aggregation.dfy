/**
 * The aggregation both bank dialects (and the older Wise pipeline) share:
 * totals per direction, and spending grouped by category or by counterparty
 * in a JavaScript `Map`, whose iteration order is the order in which keys
 * were first set.
 *
 * Every dialect projects its clean transactions onto `Entry` and calls the
 * functions here. Sequences are built and summed front to back, as
 * `filter`, `reduce` and `forEach` do.
 */
module Aggregation {
  import opened Common

  /** What aggregation reads of a clean transaction; `direction` is compared as a string. */
  datatype Entry = Entry(category: string, targetName: string, amount: real, direction: string)

  /** The field a summary groups by. */
  datatype GroupBy = ByCategory | ByTarget

  /** One `Map` entry: the running `{ total, count }` of a key. */
  datatype Group = Group(key: string, total: real, count: int)

  function KeyOf(e: Entry, grouping: GroupBy): string
  {
    match grouping
    case ByCategory => e.category
    case ByTarget => e.targetName
  }

  // ----- Reference definitions, read off the unfiltered entries -----

  /** The sum of the amounts of the entries whose direction is `d`. */
  function AmountWhere(es: seq<Entry>, d: string): (r: real)
    ensures (forall i :: 0 <= i < |es| ==> es[i].direction != d) ==> r == 0.0
  {
    if |es| == 0 then 0.0
    else AmountWhere(es[..|es| - 1], d) + (if es[|es| - 1].direction == d then es[|es| - 1].amount else 0.0)
  }

  /** The number of entries whose direction is `d`. */
  function CountWhere(es: seq<Entry>, d: string): nat
  {
    if |es| == 0 then 0
    else CountWhere(es[..|es| - 1], d) + (if es[|es| - 1].direction == d then 1 else 0)
  }

  /** The sum of all amounts. */
  function Sum(es: seq<Entry>): real
  {
    if |es| == 0 then 0.0 else Sum(es[..|es| - 1]) + es[|es| - 1].amount
  }

  predicate IsSpendingOn(e: Entry, grouping: GroupBy, k: string)
  {
    e.direction == OUT && KeyOf(e, grouping) == k
  }

  /** The amount spent on key `k`. */
  function SpentOn(es: seq<Entry>, grouping: GroupBy, k: string): real
  {
    if |es| == 0 then 0.0
    else SpentOn(es[..|es| - 1], grouping, k) + (if IsSpendingOn(es[|es| - 1], grouping, k) then es[|es| - 1].amount else 0.0)
  }

  /** The number of spending entries with key `k`. */
  function SpendCount(es: seq<Entry>, grouping: GroupBy, k: string): nat
  {
    if |es| == 0 then 0
    else SpendCount(es[..|es| - 1], grouping, k) + (if IsSpendingOn(es[|es| - 1], grouping, k) then 1 else 0)
  }

  /** The keys of the spending entries, each once, in the order of their first occurrence. */
  function SpendKeys(es: seq<Entry>, grouping: GroupBy): (ks: seq<string>)
    ensures forall i, j :: 0 <= i < j < |ks| ==> ks[i] != ks[j]
    ensures forall k :: k in ks <==> SpendCount(es, grouping, k) > 0
  {
    if |es| == 0 then []
    else
      var ks := SpendKeys(es[..|es| - 1], grouping);
      var e := es[|es| - 1];
      if e.direction == OUT && KeyOf(e, grouping) !in ks then ks + [KeyOf(e, grouping)] else ks
  }

  /** A key is counted exactly when some OUT entry has it. */
  lemma {:induction false} SpendCountPositive(es: seq<Entry>, grouping: GroupBy, k: string)
    ensures SpendCount(es, grouping, k) > 0 <==> exists i :: 0 <= i < |es| && IsSpendingOn(es[i], grouping, k)
  {
    if |es| > 0 {
      var init := es[..|es| - 1];
      SpendCountPositive(init, grouping, k);
      if exists i :: 0 <= i < |init| && IsSpendingOn(init[i], grouping, k) {
        var i :| 0 <= i < |init| && IsSpendingOn(init[i], grouping, k);
        assert es[i] == init[i];
      }
    }
  }

  /** Without OUT entries there are no spending keys. */
  lemma {:induction false} NoSpendingNoKeys(es: seq<Entry>, grouping: GroupBy)
    ensures CountWhere(es, OUT) == 0 ==> SpendKeys(es, grouping) == []
  {
    if |es| > 0 {
      NoSpendingNoKeys(es[..|es| - 1], grouping);
    }
  }

  /** A key that was never spent on has spent nothing. */
  lemma {:induction false} SpentOnUnseenKey(es: seq<Entry>, grouping: GroupBy, k: string)
    requires SpendCount(es, grouping, k) == 0
    ensures SpentOn(es, grouping, k) == 0.0
  {
    if |es| > 0 {
      SpentOnUnseenKey(es[..|es| - 1], grouping, k);
    }
  }

  /** No entry is counted for `d` exactly when no entry has direction `d`. */
  lemma {:induction false} CountWhereZero(es: seq<Entry>, d: string)
    ensures CountWhere(es, d) == 0 <==> forall i :: 0 <= i < |es| ==> es[i].direction != d
  {
    if |es| > 0 {
      CountWhereZero(es[..|es| - 1], d);
      assert forall i :: 0 <= i < |es| - 1 ==> es[..|es| - 1][i] == es[i];
    }
  }

  /** The summaries as the reference definitions describe them. */
  function Reference(es: seq<Entry>, grouping: GroupBy): seq<Group>
  {
    var ks := SpendKeys(es, grouping);
    seq(|ks|, i requires 0 <= i < |ks| => Group(ks[i], SpentOn(es, grouping, ks[i]), SpendCount(es, grouping, ks[i])))
  }

  // ----- The source's algorithm -----

  /** The entries whose direction is `d`, in their original order. */
  function WithDirection(es: seq<Entry>, d: string): (r: seq<Entry>)
    ensures |r| == CountWhere(es, d)
    ensures forall i :: 0 <= i < |r| ==> r[i].direction == d
  {
    if |es| == 0 then []
    else if es[|es| - 1].direction == d then WithDirection(es[..|es| - 1], d) + [es[|es| - 1]]
    else WithDirection(es[..|es| - 1], d)
  }

  /** Filtering then reducing with `+` from 0 sums the amounts of that direction. */
  lemma {:induction false} FilteredSum(es: seq<Entry>, d: string)
    ensures Sum(WithDirection(es, d)) == AmountWhere(es, d)
  {
    if |es| > 0 {
      var init, e := es[..|es| - 1], es[|es| - 1];
      FilteredSum(init, d);
      if e.direction == d {
        var xs := WithDirection(init, d);
        assert (xs + [e])[..|xs|] == xs;
      }
    }
  }

  /** The OUT entries kept, then their amounts added up from 0. */
  function TotalSpent(es: seq<Entry>): (r: real)
    ensures r == AmountWhere(es, OUT)
  {
    FilteredSum(es, OUT);
    Sum(WithDirection(es, OUT))
  }

  /** The IN entries kept, then their amounts added up from 0. */
  function TotalReceived(es: seq<Entry>): (r: real)
    ensures r == AmountWhere(es, IN)
  {
    FilteredSum(es, IN);
    Sum(WithDirection(es, IN))
  }

  /** When every entry is IN or OUT, spent and received together are the sum of all amounts. */
  lemma {:induction false} TotalsPartition(es: seq<Entry>)
    requires forall i :: 0 <= i < |es| ==> es[i].direction == IN || es[i].direction == OUT
    ensures TotalSpent(es) + TotalReceived(es) == Sum(es)
  {
    PartitionAmounts(es);
  }

  lemma {:induction false} PartitionAmounts(es: seq<Entry>)
    requires forall i :: 0 <= i < |es| ==> es[i].direction == IN || es[i].direction == OUT
    ensures AmountWhere(es, OUT) + AmountWhere(es, IN) == Sum(es)
  {
    if |es| > 0 {
      PartitionAmounts(es[..|es| - 1]);
    }
  }

  /** Index of the group with key `k`, or -1 (`Map.prototype.get` finding nothing). */
  function IndexOfKey(gs: seq<Group>, k: string): (i: int)
    ensures -1 <= i < |gs|
    ensures i >= 0 ==> gs[i].key == k
    ensures i < 0 ==> forall j :: 0 <= j < |gs| ==> gs[j].key != k
  {
    if |gs| == 0 then -1
    else if gs[|gs| - 1].key == k then |gs| - 1
    else IndexOfKey(gs[..|gs| - 1], k)
  }

  /**
   * One step of `forEach`: `existing = map.get(key) ?? { total: 0, count: 0 }`,
   * then `map.set(key, { total: existing.total + amount, count: existing.count + 1 })`.
   * Setting a key already present keeps its position; a new key goes last.
   */
  function Upsert(gs: seq<Group>, e: Entry, grouping: GroupBy): seq<Group>
  {
    var k := KeyOf(e, grouping);
    var i := IndexOfKey(gs, k);
    var existing := if i >= 0 then gs[i] else Group(k, 0.0, 0);
    var updated := Group(k, existing.total + e.amount, existing.count + 1);
    if i >= 0 then gs[i := updated] else gs + [updated]
  }

  /** `xs.forEach(...)` over an initially empty `Map`. */
  function Accumulate(xs: seq<Entry>, grouping: GroupBy): seq<Group>
  {
    if |xs| == 0 then [] else Upsert(Accumulate(xs[..|xs| - 1], grouping), xs[|xs| - 1], grouping)
  }

  /** The groups built from the OUT entries, in `Map` iteration order. */
  function SpendingGroups(es: seq<Entry>, grouping: GroupBy): seq<Group>
  {
    Accumulate(WithDirection(es, OUT), grouping)
  }

  /** The `Map` the source builds holds exactly the reference groups, in first-occurrence order. */
  lemma {:induction false} GroupsMatchReference(es: seq<Entry>, grouping: GroupBy)
    ensures SpendingGroups(es, grouping) == Reference(es, grouping)
  {
    if |es| > 0 {
      var init, e := es[..|es| - 1], es[|es| - 1];
      assert es == init + [e];
      GroupsMatchReference(init, grouping);
      var xs := WithDirection(init, OUT);
      if e.direction == OUT {
        assert WithDirection(es, OUT) == xs + [e];
        assert (xs + [e])[..|xs|] == xs;
        assert Accumulate(xs + [e], grouping) == Upsert(Accumulate(xs, grouping), e, grouping);
        UpsertReference(init, e, grouping);
      } else {
        assert WithDirection(es, OUT) == xs;
        ReferenceIgnoresIncoming(init, e, grouping);
      }
    }
  }

  /** How the reference definitions change when one entry is appended. */
  lemma AppendStep(init: seq<Entry>, e: Entry, grouping: GroupBy, k: string)
    ensures SpentOn(init + [e], grouping, k)
      == SpentOn(init, grouping, k) + (if IsSpendingOn(e, grouping, k) then e.amount else 0.0)
    ensures SpendCount(init + [e], grouping, k)
      == SpendCount(init, grouping, k) + (if IsSpendingOn(e, grouping, k) then 1 else 0)
  {
  }

  /** An entry that is not OUT leaves the reference groups unchanged. */
  lemma ReferenceIgnoresIncoming(init: seq<Entry>, e: Entry, grouping: GroupBy)
    requires e.direction != OUT
    ensures Reference(init + [e], grouping) == Reference(init, grouping)
  {
  }

  /** Adding one OUT entry to the reference groups of `init` gives the reference groups of `init + [e]`. */
  lemma UpsertReference(init: seq<Entry>, e: Entry, grouping: GroupBy)
    requires e.direction == OUT
    ensures Upsert(Reference(init, grouping), e, grouping) == Reference(init + [e], grouping)
  {
    var es := init + [e];
    assert es[..|es| - 1] == init;
    var k := KeyOf(e, grouping);
    var ks := SpendKeys(init, grouping);
    var gs := Reference(init, grouping);
    var rs := Reference(es, grouping);
    var up := Upsert(gs, e, grouping);
    var i := IndexOfKey(gs, k);
    if i >= 0 {
      assert ks[i] == k;
      assert SpendKeys(es, grouping) == ks;
      forall j | 0 <= j < |rs| ensures up[j] == rs[j] {
        AppendStep(init, e, grouping, ks[j]);
        if j != i {
          assert ks[j] != k;
        }
      }
      assert up == rs;
    } else {
      assert k !in ks by {
        forall j | 0 <= j < |ks| ensures ks[j] != k {
          assert gs[j].key == ks[j];
        }
      }
      AppendStep(init, e, grouping, k);
      SpentOnUnseenKey(init, grouping, k);
      assert SpendKeys(es, grouping) == ks + [k];
      forall j | 0 <= j < |rs| ensures up[j] == rs[j] {
        if j < |ks| {
          AppendStep(init, e, grouping, ks[j]);
          assert ks[j] != k;
        }
      }
      assert up == rs;
    }
  }

  /** Sum of the group totals. */
  function GroupTotals(gs: seq<Group>): real
  {
    if |gs| == 0 then 0.0 else GroupTotals(gs[..|gs| - 1]) + gs[|gs| - 1].total
  }

  /** Sum of the group counts. */
  function GroupCounts(gs: seq<Group>): int
  {
    if |gs| == 0 then 0 else GroupCounts(gs[..|gs| - 1]) + gs[|gs| - 1].count
  }

  lemma {:induction false} GroupSumsAfterUpdate(gs: seq<Group>, i: nat, g: Group)
    requires i < |gs|
    ensures GroupTotals(gs[i := g]) == GroupTotals(gs) - gs[i].total + g.total
    ensures GroupCounts(gs[i := g]) == GroupCounts(gs) - gs[i].count + g.count
  {
    var hs := gs[i := g];
    if i < |gs| - 1 {
      assert hs[..|hs| - 1] == gs[..|gs| - 1][i := g];
      GroupSumsAfterUpdate(gs[..|gs| - 1], i, g);
    } else {
      assert hs[..|hs| - 1] == gs[..|gs| - 1];
    }
  }

  /** One `forEach` step adds the entry's amount to the totals and one to the counts. */
  lemma UpsertSums(gs: seq<Group>, e: Entry, grouping: GroupBy)
    ensures GroupTotals(Upsert(gs, e, grouping)) == GroupTotals(gs) + e.amount
    ensures GroupCounts(Upsert(gs, e, grouping)) == GroupCounts(gs) + 1
  {
    var k := KeyOf(e, grouping);
    var i := IndexOfKey(gs, k);
    if i >= 0 {
      GroupSumsAfterUpdate(gs, i, Group(k, gs[i].total + e.amount, gs[i].count + 1));
    } else {
      var g := Group(k, 0.0 + e.amount, 0 + 1);
      assert (gs + [g])[..|gs|] == gs;
    }
  }

  /** Each entry accumulated adds its amount to one group's total and one to one group's count. */
  lemma {:induction false} AccumulateSums(xs: seq<Entry>, grouping: GroupBy)
    ensures GroupTotals(Accumulate(xs, grouping)) == Sum(xs)
    ensures GroupCounts(Accumulate(xs, grouping)) == |xs|
  {
    if |xs| > 0 {
      AccumulateSums(xs[..|xs| - 1], grouping);
      UpsertSums(Accumulate(xs[..|xs| - 1], grouping), xs[|xs| - 1], grouping);
    }
  }

  /** The group totals add up to the total spent and the counts to the number of OUT entries. */
  lemma SpendingGroupSums(es: seq<Entry>, grouping: GroupBy)
    ensures GroupTotals(SpendingGroups(es, grouping)) == AmountWhere(es, OUT)
    ensures GroupCounts(SpendingGroups(es, grouping)) == CountWhere(es, OUT)
  {
    AccumulateSums(WithDirection(es, OUT), grouping);
    FilteredSum(es, OUT);
  }

  /** Everything the summaries need to know about the groups, in one place. */
  lemma SpendingGroupsFacts(es: seq<Entry>, grouping: GroupBy)
    ensures |SpendingGroups(es, grouping)| == |SpendKeys(es, grouping)|
    ensures forall i :: 0 <= i < |SpendingGroups(es, grouping)| ==>
      var g := SpendingGroups(es, grouping)[i];
      && g.key == SpendKeys(es, grouping)[i]
      && g.total == SpentOn(es, grouping, g.key)
      && g.count == SpendCount(es, grouping, g.key)
      && g.count >= 1
    ensures GroupTotals(SpendingGroups(es, grouping)) == AmountWhere(es, OUT)
    ensures GroupCounts(SpendingGroups(es, grouping)) == CountWhere(es, OUT)
    ensures CountWhere(es, OUT) == 0 ==> SpendingGroups(es, grouping) == []
  {
    GroupsMatchReference(es, grouping);
    SpendingGroupSums(es, grouping);
    NoSpendingNoKeys(es, grouping);
  }

  // ----- Summaries -----

  function CategoryTotals(s: seq<CategorySummary>): real
  {
    if |s| == 0 then 0.0 else CategoryTotals(s[..|s| - 1]) + s[|s| - 1].totalAmount
  }

  function CategoryCounts(s: seq<CategorySummary>): int
  {
    if |s| == 0 then 0 else CategoryCounts(s[..|s| - 1]) + s[|s| - 1].count
  }

  function TargetTotals(s: seq<TargetSummary>): real
  {
    if |s| == 0 then 0.0 else TargetTotals(s[..|s| - 1]) + s[|s| - 1].totalAmount
  }

  function TargetCounts(s: seq<TargetSummary>): int
  {
    if |s| == 0 then 0 else TargetCounts(s[..|s| - 1]) + s[|s| - 1].count
  }

  /**
   * One summary row per spending group keyed by category, in the map's
   * insertion order: the group's total and count, and their quotient as the
   * average.
   */
  function CategoryRows(es: seq<Entry>): seq<CategorySummary>
  {
    var gs := SpendingGroups(es, ByCategory);
    SpendingGroupsFacts(es, ByCategory);
    seq(|gs|, i requires 0 <= i < |gs| => CategorySummary(gs[i].key, gs[i].total, gs[i].count, gs[i].total / gs[i].count as real))
  }

  lemma {:induction false} CategorySumsMatchGroups(s: seq<CategorySummary>, gs: seq<Group>)
    requires |s| == |gs|
    requires forall i :: 0 <= i < |s| ==> s[i].totalAmount == gs[i].total && s[i].count == gs[i].count
    ensures CategoryTotals(s) == GroupTotals(gs) && CategoryCounts(s) == GroupCounts(gs)
  {
    if |s| > 0 {
      CategorySumsMatchGroups(s[..|s| - 1], gs[..|gs| - 1]);
    }
  }
  lemma CategoryRowsElements(es: seq<Entry>)
    ensures var r := CategoryRows(es);
      && |r| == |SpendingGroups(es, ByCategory)|
      && forall i :: 0 <= i < |r| ==>
        var g := SpendingGroups(es, ByCategory)[i];
        r[i] == CategorySummary(g.key, g.total, g.count, r[i].averageAmount)
        && r[i].count >= 1
        && r[i].averageAmount == r[i].totalAmount / r[i].count as real
  {
    SpendingGroupsFacts(es, ByCategory);
  }

  lemma CategorySummariesCorrect(es: seq<Entry>)
    ensures var r := CategoryRows(es);
      && |r| == |SpendKeys(es, ByCategory)|
      && (forall i :: 0 <= i < |r| ==>
        && r[i].category == SpendKeys(es, ByCategory)[i]
        && r[i].totalAmount == SpentOn(es, ByCategory, r[i].category)
        && r[i].count == SpendCount(es, ByCategory, r[i].category)
        && r[i].count >= 1
        && r[i].averageAmount == r[i].totalAmount / r[i].count as real)
      && (forall i, j :: 0 <= i < j < |r| ==> r[i].category != r[j].category)
      && CategoryTotals(r) == AmountWhere(es, OUT)
      && CategoryCounts(r) == CountWhere(es, OUT)
      && (CountWhere(es, OUT) == 0 ==> r == [])
  {
    var r := CategoryRows(es);
    var gs := SpendingGroups(es, ByCategory);
    SpendingGroupsFacts(es, ByCategory);
    CategoryRowsElements(es);
    CategorySumsMatchGroups(r, gs);
  }

  /** The category summaries: one per key spent on, in first-occurrence order. */
  function CategorySummaries(es: seq<Entry>): (r: seq<CategorySummary>)
    ensures |r| == |SpendKeys(es, ByCategory)|
    ensures forall i :: 0 <= i < |r| ==>
      && r[i].category == SpendKeys(es, ByCategory)[i]
      && r[i].totalAmount == SpentOn(es, ByCategory, r[i].category)
      && r[i].count == SpendCount(es, ByCategory, r[i].category)
      && r[i].count >= 1
      && r[i].averageAmount == r[i].totalAmount / r[i].count as real
    ensures forall i, j :: 0 <= i < j < |r| ==> r[i].category != r[j].category
    ensures CategoryTotals(r) == AmountWhere(es, OUT)
    ensures CategoryCounts(r) == CountWhere(es, OUT)
    ensures CountWhere(es, OUT) == 0 ==> r == []
  {
    CategorySummariesCorrect(es);
    CategoryRows(es)
  }

  /**
   * One summary row per spending group keyed by counterparty name, in the
   * map's insertion order: the group's total and count, and their quotient as
   * the average.
   */
  function TargetRows(es: seq<Entry>): seq<TargetSummary>
  {
    var gs := SpendingGroups(es, ByTarget);
    SpendingGroupsFacts(es, ByTarget);
    seq(|gs|, i requires 0 <= i < |gs| => TargetSummary(gs[i].key, gs[i].total, gs[i].count, gs[i].total / gs[i].count as real))
  }

  lemma {:induction false} TargetSumsMatchGroups(s: seq<TargetSummary>, gs: seq<Group>)
    requires |s| == |gs|
    requires forall i :: 0 <= i < |s| ==> s[i].totalAmount == gs[i].total && s[i].count == gs[i].count
    ensures TargetTotals(s) == GroupTotals(gs) && TargetCounts(s) == GroupCounts(gs)
  {
    if |s| > 0 {
      TargetSumsMatchGroups(s[..|s| - 1], gs[..|gs| - 1]);
    }
  }
  lemma TargetRowsElements(es: seq<Entry>)
    ensures var r := TargetRows(es);
      && |r| == |SpendingGroups(es, ByTarget)|
      && forall i :: 0 <= i < |r| ==>
        var g := SpendingGroups(es, ByTarget)[i];
        r[i] == TargetSummary(g.key, g.total, g.count, r[i].averageAmount)
        && r[i].count >= 1
        && r[i].averageAmount == r[i].totalAmount / r[i].count as real
  {
    SpendingGroupsFacts(es, ByTarget);
  }

  lemma TargetSummariesCorrect(es: seq<Entry>)
    ensures var r := TargetRows(es);
      && |r| == |SpendKeys(es, ByTarget)|
      && (forall i :: 0 <= i < |r| ==>
        && r[i].targetName == SpendKeys(es, ByTarget)[i]
        && r[i].totalAmount == SpentOn(es, ByTarget, r[i].targetName)
        && r[i].count == SpendCount(es, ByTarget, r[i].targetName)
        && r[i].count >= 1
        && r[i].averageAmount == r[i].totalAmount / r[i].count as real)
      && (forall i, j :: 0 <= i < j < |r| ==> r[i].targetName != r[j].targetName)
      && TargetTotals(r) == AmountWhere(es, OUT)
      && TargetCounts(r) == CountWhere(es, OUT)
      && (CountWhere(es, OUT) == 0 ==> r == [])
  {
    var r := TargetRows(es);
    var gs := SpendingGroups(es, ByTarget);
    SpendingGroupsFacts(es, ByTarget);
    TargetRowsElements(es);
    TargetSumsMatchGroups(r, gs);
  }

  /** The counterparty summaries: one per key spent on, in first-occurrence order. */
  function TargetSummaries(es: seq<Entry>): (r: seq<TargetSummary>)
    ensures |r| == |SpendKeys(es, ByTarget)|
    ensures forall i :: 0 <= i < |r| ==>
      && r[i].targetName == SpendKeys(es, ByTarget)[i]
      && r[i].totalAmount == SpentOn(es, ByTarget, r[i].targetName)
      && r[i].count == SpendCount(es, ByTarget, r[i].targetName)
      && r[i].count >= 1
      && r[i].averageAmount == r[i].totalAmount / r[i].count as real
    ensures forall i, j :: 0 <= i < j < |r| ==> r[i].targetName != r[j].targetName
    ensures TargetTotals(r) == AmountWhere(es, OUT)
    ensures TargetCounts(r) == CountWhere(es, OUT)
    ensures CountWhere(es, OUT) == 0 ==> r == []
  {
    TargetSummariesCorrect(es);
    TargetRows(es)
  }
}
