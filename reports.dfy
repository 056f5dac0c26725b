/**
 * What generate_summary and the weekly and monthly reports compute, as functions of the records
 * they fold over. The class methods that run the source's loops are proved equal to these.
 */
module Reports {
  import opened Options
  import opened Periods
  import opened Records

  /** generate_summary's figures, in cents (the source renders them as text). */
  datatype Summary = Summary(income: int, expenses: int, byCategory: map<string, int>, net: int)

  /** The weekly and monthly reports' figures, in cents. */
  datatype Report = Report(
    income: int,
    expenses: int,
    incomeByCategory: map<string, int>,
    expensesByCategory: map<string, int>,
    net: int)

  /** Per-category totals of kind k, one bucket for each current category. */
  function Buckets(txs: seq<Transaction>, k: Kind, cats: set<string>): map<string, int>
  {
    map c | c in cats :: CategoryTotal(txs, k, c)
  }

  /** Some record of kind k has a category that has no bucket: the loop's dict update raises KeyError. */
  predicate Orphaned(txs: seq<Transaction>, k: Kind, cats: set<string>)
  {
    exists i | 0 <= i < |txs| :: txs[i].kind == k && txs[i].category !in cats
  }

  /**
   * generate_summary over the records already filtered to the range: income, expenses, the expense
   * buckets and net, or None (the source returns "") when an expense's category is gone.
   */
  function SummaryOf(txs: seq<Transaction>, cats: set<string>): Option<Summary>
  {
    if Orphaned(txs, Expense, cats) then None
    else
      var income, expenses := Total(txs, Income), Total(txs, Expense);
      Some(Summary(income, expenses, Buckets(txs, Expense, cats), income - expenses))
  }

  /** Records dated inside the window, in ledger order. */
  function InPeriod(txs: seq<Transaction>, w: Window): seq<Transaction>
  {
    if txs == [] then []
    else
      var t := txs[|txs| - 1];
      InPeriod(txs[..|txs| - 1], w) + (if t.date.Some? && InWindow(t.date.value, w) then [t] else [])
  }

  /** The report's figures over the selected records; None when one of them has no bucket (KeyError). */
  function Tally(sel: seq<Transaction>, cats: set<string>): Option<Report>
  {
    if Orphaned(sel, Income, cats) || Orphaned(sel, Expense, cats) then None
    else
      var income, expenses := Total(sel, Income), Total(sel, Expense);
      Some(Report(income, expenses, Buckets(sel, Income, cats), Buckets(sel, Expense, cats), income - expenses))
  }

  /**
   * The weekly/monthly loop: strptime on a record without a date raises (TypeError), wherever the
   * record is, and abandons the report; otherwise the records in the window are tallied.
   */
  function PeriodReportOf(txs: seq<Transaction>, cats: set<string>, w: Window): Option<Report>
  {
    if exists i | 0 <= i < |txs| :: txs[i].date.None? then None
    else Tally(InPeriod(txs, w), cats)
  }

  /** Some key of a non-empty map. */
  ghost function Pick(m: map<string, int>): (k: string)
    requires |m| != 0
    ensures k in m
  {
    assert exists k :: k in m by {
      var ks := m.Keys;
      assert |ks| != 0;
      var k :| k in ks;
    }
    var k :| k in m;
    k
  }

  /** Sum of a map's values. */
  ghost function MapSum(m: map<string, int>): int
    decreases |m|
  {
    if |m| == 0 then 0
    else
      var k := Pick(m);
      RemoveShrinks(m, k);
      m[k] + MapSum(m - {k})
  }

  /** Any key can be taken out first. */
  lemma MapSumRemove(m: map<string, int>, x: string)
    requires x in m
    ensures MapSum(m) == m[x] + MapSum(m - {x})
    decreases |m|
  {
    var k := Pick(m);
    if k != x {
      var mk, mx := m - {k}, m - {x};
      RemoveShrinks(m, k);
      RemoveShrinks(m, x);
      assert x in mk && k in mx;
      MapSumRemove(mk, x);
      MapSumRemove(mx, k);
      assert mk - {x} == mx - {k};
    }
  }

  lemma RemoveShrinks(m: map<string, int>, k: string)
    requires k in m
    ensures |m - {k}| == |m| - 1
  {
    assert (m - {k}).Keys == m.Keys - {k};
  }

  /** Adding d to one bucket adds d to the sum. */
  lemma MapSumBump(m: map<string, int>, k: string, d: int)
    requires k in m
    ensures MapSum(m[k := m[k] + d]) == MapSum(m) + d
  {
    var m' := m[k := m[k] + d];
    MapSumRemove(m', k);
    MapSumRemove(m, k);
    assert m' - {k} == m - {k};
  }

  /** Buckets that all start at zero sum to zero. */
  lemma MapSumZero(m: map<string, int>)
    requires forall k | k in m :: m[k] == 0
    ensures MapSum(m) == 0
    decreases |m|
  {
    if |m| != 0 {
      var k := Pick(m);
      RemoveShrinks(m, k);
      MapSumZero(m - {k});
    }
  }

  /** Each amount of kind k lands in exactly one bucket, so the buckets add up to the total. */
  lemma {:induction false} BucketsSumToTotal(txs: seq<Transaction>, k: Kind, cats: set<string>)
    requires !Orphaned(txs, k, cats)
    ensures MapSum(Buckets(txs, k, cats)) == Total(txs, k)
  {
    if txs == [] {
      MapSumZero(Buckets(txs, k, cats));
    } else {
      var init, t := txs[..|txs| - 1], txs[|txs| - 1];
      PrefixNotOrphaned(txs, k, cats);
      BucketsSumToTotal(init, k, cats);
      BucketsStep(txs, k, cats);
      var d := if t.kind == k then t.amount else 0;
      assert Total(txs, k) == Total(init, k) + d;
      SumStep(Buckets(init, k, cats), Buckets(txs, k, cats), t.category, d);
    }
  }

  /** A bucket that grows by d (possibly 0) grows the sum by d. */
  lemma SumStep(before: map<string, int>, after: map<string, int>, c: string, d: int)
    requires after == before || (c in before && after == before[c := before[c] + d])
    requires after == before ==> d == 0
    ensures MapSum(after) == MapSum(before) + d
  {
    if after != before {
      MapSumBump(before, c, d);
    }
  }

  lemma PrefixNotOrphaned(txs: seq<Transaction>, k: Kind, cats: set<string>)
    requires txs != [] && !Orphaned(txs, k, cats)
    ensures !Orphaned(txs[..|txs| - 1], k, cats) && (txs[|txs| - 1].kind == k ==> txs[|txs| - 1].category in cats)
  {
    var init := txs[..|txs| - 1];
    forall i | 0 <= i < |init| ensures !(init[i].kind == k && init[i].category !in cats) {
      assert init[i] == txs[i];
    }
  }

  /** One more record of kind k moves exactly its own bucket. */
  lemma BucketsStep(txs: seq<Transaction>, k: Kind, cats: set<string>)
    requires txs != [] && !Orphaned(txs, k, cats)
    ensures var t, before := txs[|txs| - 1], Buckets(txs[..|txs| - 1], k, cats);
            Buckets(txs, k, cats) == if t.kind == k then before[t.category := before[t.category] + t.amount] else before
  {
    var t, before := txs[|txs| - 1], Buckets(txs[..|txs| - 1], k, cats);
    var after := Buckets(txs, k, cats);
    if t.kind == k {
      assert t.category in cats;
      var want := before[t.category := before[t.category] + t.amount];
      assert after.Keys == want.Keys;
      forall c | c in cats ensures after[c] == want[c] { }
    } else {
      forall c | c in cats ensures after[c] == before[c] { }
    }
  }

  /**
   * The summary fails exactly when an expense's category is not current; otherwise there is one
   * bucket per current category, the buckets add up to the expenses, and net is income minus
   * expenses.
   */
  lemma SummaryConsistent(txs: seq<Transaction>, cats: set<string>)
    ensures SummaryOf(txs, cats).None? <==> Orphaned(txs, Expense, cats)
    ensures SummaryOf(txs, cats).Some? ==>
              var s := SummaryOf(txs, cats).value;
              s.byCategory.Keys == cats && MapSum(s.byCategory) == s.expenses && s.net == s.income - s.expenses
  {
    if !Orphaned(txs, Expense, cats) {
      BucketsSumToTotal(txs, Expense, cats);
    }
  }

  /**
   * The weekly and monthly reports total the records in their window as generate_summary would,
   * and their income buckets add up to the income.
   */
  lemma ReportAgreesWithSummary(txs: seq<Transaction>, cats: set<string>, w: Window)
    requires PeriodReportOf(txs, cats, w).Some?
    ensures var r := PeriodReportOf(txs, cats, w).value;
            SummaryOf(InPeriod(txs, w), cats) == Some(Summary(r.income, r.expenses, r.expensesByCategory, r.net))
            && MapSum(r.incomeByCategory) == r.income
  {
    BucketsSumToTotal(InPeriod(txs, w), Income, cats);
  }
}
