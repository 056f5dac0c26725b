/**
 * The FinanceTracker object: its records, balance and categories, the operations that change them,
 * and the summaries that read them. What save_data writes to transactions.json is kept in the
 * field `stored`; messagebox errors become Failed outcomes.
 */
module Ledger {
  import opened Options
  import opened Amount
  import opened Dates
  import opened Periods
  import opened Records
  import opened Query
  import opened Reports

  /** The categories a ledger starts with when there is no saved file. */
  const DefaultCategories: set<string> :=
    {"Food", "Transportation", "Entertainment", "Utilities", "Salary", "Other"}

  /** The error dialogs that make an operation give up. */
  datatype Error =
    | BadAmount(reason: AmountError)
    | UnknownCategory
    | UnknownKind
    | NoSuchPosition

  datatype Outcome = Done | Failed(error: Error)

  /** What save_data writes: the records, the balance and the categories. */
  datatype LedgerState = LedgerState(transactions: seq<Transaction>, balance: int, categories: set<string>)

  /** How far the stored balance is from what the records account for (0 in a consistent ledger). */
  function Drift(s: LedgerState): int
  {
    s.balance - SumSigned(s.transactions)
  }

  /**
   * The record add_transaction appends, or the first check that refuses it: the amount, then the
   * category, then the type. A date format_date refuses does not refuse the record.
   */
  function NewRecord(amount: string, category: string, date: string, kind: string, source: string,
                     today: Date, cats: set<string>, index: int): (r: Result<Transaction, Error>)
    ensures r.Ok? <==> ParseAmount(amount).Ok? && category in cats && ParseKind(kind).Some?
    ensures ParseAmount(amount).Err? ==> r == Err(BadAmount(ParseAmount(amount).error))
    ensures ParseAmount(amount).Ok? && category !in cats ==> r == Err(UnknownCategory)
    ensures ParseAmount(amount).Ok? && category in cats && ParseKind(kind).None? ==> r == Err(UnknownKind)
    ensures r.Ok? ==>
              && r.value.amount == ParseAmount(amount).value > 0
              && r.value.category == category
              && KindName(r.value.kind) == kind
              && r.value.date == CheckDate(date, today)
              && r.value.source == source
              && r.value.index == index
  {
    match ParseAmount(amount)
    case Err(e) => Err(BadAmount(e))
    case Ok(cents) =>
      if category !in cats then Err(UnknownCategory)
      else
        match ParseKind(kind)
        case None => Err(UnknownKind)
        case Some(k) =>
          ParseAmountPositive(amount);
          Ok(Transaction(cents, category, CheckDate(date, today), k, source, index))
  }

  /** The ledger after appending t: the balance moves by t's signed amount. */
  function Added(s: LedgerState, t: Transaction): LedgerState
  {
    LedgerState(s.transactions + [t], s.balance + Signed(t), s.categories)
  }

  /** The ledger after popping the record at position p: its signed amount is taken back. */
  function Deleted(s: LedgerState, p: int): LedgerState
    requires 0 <= p < |s.transactions|
  {
    LedgerState(s.transactions[..p] + s.transactions[p + 1..], s.balance - Signed(s.transactions[p]), s.categories)
  }

  /** Popping a record keeps every stored date a calendar date. */
  lemma DeletedWellDated(s: LedgerState, p: int)
    requires WellDated(s.transactions) && 0 <= p < |s.transactions|
    ensures WellDated(Deleted(s, p).transactions)
  {
    var txs, rest := s.transactions, Deleted(s, p).transactions;
    forall j | 0 <= j < |rest| ensures rest[j].date.Some? ==> ValidDate(rest[j].date.value) {
      assert rest[j] == if j < p then txs[j] else txs[j + 1];
    }
  }

  /** Adding a record keeps the balance in step with the records. */
  lemma AddKeepsDrift(s: LedgerState, t: Transaction)
    ensures Drift(Added(s, t)) == Drift(s)
  {
    var txs := s.transactions + [t];
    assert txs[..|txs| - 1] == s.transactions;
  }

  /** Deleting a record keeps the balance in step with the records. */
  lemma DeleteKeepsDrift(s: LedgerState, p: int)
    requires 0 <= p < |s.transactions|
    ensures Drift(Deleted(s, p)) == Drift(s)
  {
    SumSignedRemove(s.transactions, p);
  }

  /** The optional new values update_transaction is given; None leaves a field alone. */
  datatype Edits = Edits(amount: Option<string>, category: Option<string>, date: Option<string>, kind: Option<string>)

  /**
   * update_transaction's writes on one record, in the source's order: amount, category, date, type.
   * A refused value stops the update but keeps the fields already written; a refused date is
   * stored as None rather than refused.
   */
  function ApplyEdits(t: Transaction, e: Edits, cats: set<string>, today: Date): (r: (Outcome, Transaction))
    ensures r.1.index == t.index && r.1.source == t.source
  {
    match EditAmount(t, e.amount)
    case Err(x) => (Failed(x), t)
    case Ok(t1) =>
      match EditCategory(t1, e.category, cats)
      case Err(x) => (Failed(x), t1)
      case Ok(t2) =>
        var t3 := EditDate(t2, e.date, today);
        match EditKind(t3, e.kind)
        case Err(x) => (Failed(x), t3)
        case Ok(t4) => (Done, t4)
  }

  /** The amount edit: the parsed amount replaces the old one, or the edit is refused. */
  function EditAmount(t: Transaction, a: Option<string>): Result<Transaction, Error>
  {
    if a.None? then Ok(t)
    else
      match ParseAmount(a.value)
      case Err(e) => Err(BadAmount(e))
      case Ok(cents) => Ok(t.(amount := cents))
  }

  /** The category edit: refused unless the name is a current category. */
  function EditCategory(t: Transaction, c: Option<string>, cats: set<string>): Result<Transaction, Error>
  {
    if c.None? then Ok(t)
    else if c.value !in cats then Err(UnknownCategory)
    else Ok(t.(category := c.value))
  }

  /** The date edit: whatever format_date returns is stored, None included. */
  function EditDate(t: Transaction, d: Option<string>, today: Date): Transaction
  {
    if d.None? then t else t.(date := CheckDate(d.value, today))
  }

  /** The type edit: refused unless the name is Income or Expense. */
  function EditKind(t: Transaction, k: Option<string>): Result<Transaction, Error>
  {
    if k.None? then Ok(t)
    else
      match ParseKind(k.value)
      case None => Err(UnknownKind)
      case Some(kind) => Ok(t.(kind := kind))
  }

  /** Every given value is acceptable. */
  predicate EditsAcceptable(e: Edits, cats: set<string>)
  {
    && (e.amount.Some? ==> ParseAmount(e.amount.value).Ok?)
    && (e.category.Some? ==> e.category.value in cats)
    && (e.kind.Some? ==> ParseKind(e.kind.value).Some?)
  }

  /**
   * The update succeeds exactly when every given value is acceptable; then each given field holds
   * its new value and every other field is as it was. A refused value keeps the writes made before
   * it and none after.
   */
  lemma ApplyEditsOutcome(t: Transaction, e: Edits, cats: set<string>, today: Date)
    ensures var (o, u) := ApplyEdits(t, e, cats, today);
            && (o.Done? <==> EditsAcceptable(e, cats))
            && (o.Done? ==>
                  && u.amount == (if e.amount.Some? then ParseAmount(e.amount.value).value else t.amount)
                  && u.category == (if e.category.Some? then e.category.value else t.category)
                  && u.date == (if e.date.Some? then CheckDate(e.date.value, today) else t.date)
                  && KindName(u.kind) == (if e.kind.Some? then e.kind.value else KindName(t.kind)))
            && (o == Failed(UnknownCategory) ==>
                  u == t.(amount := if e.amount.Some? then ParseAmount(e.amount.value).value else t.amount))
            && (o == Failed(UnknownKind) ==>
                  u == t.(amount := if e.amount.Some? then ParseAmount(e.amount.value).value else t.amount,
                          category := if e.category.Some? then e.category.value else t.category,
                          date := if e.date.Some? then CheckDate(e.date.value, today) else t.date))
            && (o.Failed? && o.error.BadAmount? ==> u == t)
            && (e.amount.Some? && ParseAmount(e.amount.value).Err? ==>
                  o == Failed(BadAmount(ParseAmount(e.amount.value).error)))
            && ((e.amount.None? || ParseAmount(e.amount.value).Ok?) && e.category.Some? && e.category.value !in cats ==>
                  o == Failed(UnknownCategory))
            && ((e.amount.None? || ParseAmount(e.amount.value).Ok?) && (e.category.None? || e.category.value in cats)
                && e.kind.Some? && ParseKind(e.kind.value).None? ==>
                  o == Failed(UnknownKind))
  {
    match EditAmount(t, e.amount)
    case Err(x) =>
      assert e.amount.Some? && ParseAmount(e.amount.value).Err?;
    case Ok(t1) =>
      assert t1 == t.(amount := if e.amount.Some? then ParseAmount(e.amount.value).value else t.amount);
      match EditCategory(t1, e.category, cats)
      case Err(x) =>
        assert e.category.Some? && e.category.value !in cats;
      case Ok(t2) =>
        var t3 := EditDate(t2, e.date, today);
        match EditKind(t3, e.kind)
        case Err(x) =>
          assert e.kind.Some? && ParseKind(e.kind.value).None?;
        case Ok(t4) =>
          assert e.kind.Some? ==> KindName(t4.kind) == e.kind.value;
  }

  /** The ledger after update_transaction's writes on the record at position p. */
  function Updated(s: LedgerState, p: int, e: Edits, today: Date): (Outcome, LedgerState)
    requires 0 <= p < |s.transactions|
  {
    var (o, u) := ApplyEdits(s.transactions[p], e, s.categories, today);
    (o, s.(transactions := s.transactions[p := u]))
  }

  /** Edits keep every stored date a calendar date. */
  lemma UpdatedWellDated(s: LedgerState, p: int, e: Edits, today: Date)
    requires WellDated(s.transactions) && 0 <= p < |s.transactions|
    ensures WellDated(Updated(s, p, e, today).1.transactions)
  {
    var u := ApplyEdits(s.transactions[p], e, s.categories, today).1;
    assert u.date == s.transactions[p].date || u.date == CheckDate(e.date.value, today);
  }

  /**
   * update_transaction never touches the balance, so the gap between the balance and the records
   * moves by exactly the change in the edited record's signed amount.
   */
  lemma UpdateDrift(s: LedgerState, p: int, e: Edits, today: Date)
    requires 0 <= p < |s.transactions|
    ensures var u := Updated(s, p, e, today).1;
            Drift(u) == Drift(s) + Signed(s.transactions[p]) - Signed(u.transactions[p])
  {
    var u := ApplyEdits(s.transactions[p], e, s.categories, today).1;
    SumSignedReplace(s.transactions, p, u);
  }

  /** Editing a consistent ledger's amount to a different value leaves the balance wrong. */
  lemma AmountEditBreaksBalance(s: LedgerState, p: int, amount: string, today: Date)
    requires 0 <= p < |s.transactions| && Drift(s) == 0
    requires ParseAmount(amount).Ok? && ParseAmount(amount).value != s.transactions[p].amount
    ensures var (o, u) := Updated(s, p, Edits(Some(amount), None, None, None), today);
            o == Done && Drift(u) != 0
  {
    UpdateDrift(s, p, Edits(Some(amount), None, None, None), today);
  }

  /**
   * A record's number is the count of records when it was added, so once a record is deleted the
   * next one repeats the number of the last record, and deleting by that number removes the older
   * of the two.
   */
  lemma IndexReuse(s: LedgerState, p: int, t: Transaction)
    requires forall i | 0 <= i < |s.transactions| :: s.transactions[i].index == i
    requires 0 <= p < |s.transactions| - 1
    requires t.index == |Deleted(s, p).transactions|
    ensures var txs := Added(Deleted(s, p), t).transactions;
            var n := |txs|;
            txs[n - 2].index == txs[n - 1].index == t.index
            && PositionOf(txs, t.index) == n - 2
  {
    var m := |s.transactions|;
    var txs := Added(Deleted(s, p), t).transactions;
    assert txs == s.transactions[..p] + s.transactions[p + 1..] + [t];
    assert txs[m - 2] == s.transactions[m - 1];
    forall j | 0 <= j < m - 2 ensures txs[j].index != t.index {
      if j < p {
        assert txs[j] == s.transactions[j];
      } else {
        assert txs[j] == s.transactions[j + 1];
      }
    }
  }

  /** Removing a category that an expense in range still uses makes generate_summary fail. */
  lemma RemovedCategoryBreaksSummary(txs: seq<Transaction>, cats: set<string>, i: int)
    requires 0 <= i < |txs| && txs[i].kind == Expense
    ensures SummaryOf(txs, cats - {txs[i].category}).None?
  {
    assert txs[i].category !in cats - {txs[i].category};
  }

  /** Orphaned records stay orphaned when more records follow. */
  lemma OrphanedExtends(a: seq<Transaction>, b: seq<Transaction>, k: Kind, cats: set<string>)
    requires Orphaned(a, k, cats)
    ensures Orphaned(a + b, k, cats)
  {
    var i :| 0 <= i < |a| && a[i].kind == k && a[i].category !in cats;
    assert (a + b)[i] == a[i];
  }

  /** One more record extends the selection by that record when it is dated inside the window. */
  lemma InPeriodStep(txs: seq<Transaction>, i: int, w: Window)
    requires 0 <= i < |txs|
    ensures var t := txs[i];
            InPeriod(txs[..i + 1], w)
              == InPeriod(txs[..i], w) + (if t.date.Some? && InWindow(t.date.value, w) then [t] else [])
  {
    assert txs[..i + 1][..i] == txs[..i];
  }

  /** Appending one record adds it to the total of its kind. */
  lemma TotalStep(sel: seq<Transaction>, t: Transaction, k: Kind)
    ensures Total(sel + [t], k) == Total(sel, k) + (if t.kind == k then t.amount else 0)
  {
    var s := sel + [t];
    assert s[..|s| - 1] == sel;
  }

  /** Appending one record of a current category moves its own bucket and orphans nothing. */
  lemma BucketsAppend(sel: seq<Transaction>, t: Transaction, k: Kind, cats: set<string>)
    requires !Orphaned(sel, k, cats) && (t.kind == k ==> t.category in cats)
    ensures !Orphaned(sel + [t], k, cats)
    ensures var before := Buckets(sel, k, cats);
            Buckets(sel + [t], k, cats) == if t.kind == k then before[t.category := before[t.category] + t.amount] else before
  {
    var s := sel + [t];
    assert s[..|s| - 1] == sel;
    forall i | 0 <= i < |s| ensures !(s[i].kind == k && s[i].category !in cats) {
      if i < |sel| {
        assert s[i] == sel[i];
      }
    }
    BucketsStep(s, k, cats);
  }

  /** generate_summary's loop reading one more record of a prefix whose expenses all have buckets. */
  lemma SummaryStep(txs: seq<Transaction>, i: int, cats: set<string>)
    requires 0 <= i < |txs| && !Orphaned(txs[..i], Expense, cats)
    requires txs[i].kind == Expense ==> txs[i].category in cats
    ensures !Orphaned(txs[..i + 1], Expense, cats)
    ensures var t := txs[i];
            && Total(txs[..i + 1], Income) == Total(txs[..i], Income) + (if t.kind == Income then t.amount else 0)
            && Total(txs[..i + 1], Expense) == Total(txs[..i], Expense) + (if t.kind == Expense then t.amount else 0)
    ensures var t, before := txs[i], Buckets(txs[..i], Expense, cats);
            Buckets(txs[..i + 1], Expense, cats)
              == if t.kind == Expense then before[t.category := before[t.category] + t.amount] else before
  {
    var t := txs[i];
    assert txs[..i + 1] == txs[..i] + [t];
    TotalStep(txs[..i], t, Income);
    TotalStep(txs[..i], t, Expense);
    BucketsAppend(txs[..i], t, Expense, cats);
  }

  /** The figures after counting one more record whose category has a bucket of its kind. */
  function Counted(r: Report, t: Transaction): Report
    requires t.category in (if t.kind == Income then r.incomeByCategory else r.expensesByCategory)
  {
    if t.kind == Income then
      var income := r.income + t.amount;
      r.(income := income, net := income - r.expenses,
         incomeByCategory := r.incomeByCategory[t.category := r.incomeByCategory[t.category] + t.amount])
    else
      var expenses := r.expenses + t.amount;
      r.(expenses := expenses, net := r.income - expenses,
         expensesByCategory := r.expensesByCategory[t.category := r.expensesByCategory[t.category] + t.amount])
  }

  /** Tallying one more record of a current category counts it once, in its kind and its bucket. */
  lemma TallyStep(sel: seq<Transaction>, t: Transaction, cats: set<string>)
    requires Tally(sel, cats).Some? && t.category in cats
    ensures t.category in Tally(sel, cats).value.incomeByCategory
    ensures t.category in Tally(sel, cats).value.expensesByCategory
    ensures Tally(sel + [t], cats) == Some(Counted(Tally(sel, cats).value, t))
  {
    var s := sel + [t];
    TotalStep(sel, t, Income);
    TotalStep(sel, t, Expense);
    BucketsAppend(sel, t, Income, cats);
    BucketsAppend(sel, t, Expense, cats);
    var r := Tally(sel, cats).value;
    var income: int, expenses: int := Total(s, Income), Total(s, Expense);
    var incomeBy, expensesBy := Buckets(s, Income, cats), Buckets(s, Expense, cats);
    assert Tally(s, cats) == Some(Report(income, expenses, incomeBy, expensesBy, income - expenses));
    assert r == Report(Total(sel, Income), Total(sel, Expense), Buckets(sel, Income, cats), Buckets(sel, Expense, cats),
                       Total(sel, Income) - Total(sel, Expense));
    CountedFields(r, t, income, expenses, incomeBy, expensesBy);
  }

  /** Counted moves the total and the bucket of the record's kind and nothing else. */
  lemma CountedFields(r: Report, t: Transaction, income: int, expenses: int,
                      incomeBy: map<string, int>, expensesBy: map<string, int>)
    requires t.category in r.incomeByCategory && t.category in r.expensesByCategory
    requires r.net == r.income - r.expenses
    requires income == r.income + (if t.kind == Income then t.amount else 0)
    requires expenses == r.expenses + (if t.kind == Expense then t.amount else 0)
    requires incomeBy == if t.kind == Income
                         then r.incomeByCategory[t.category := r.incomeByCategory[t.category] + t.amount]
                         else r.incomeByCategory
    requires expensesBy == if t.kind == Expense
                           then r.expensesByCategory[t.category := r.expensesByCategory[t.category] + t.amount]
                           else r.expensesByCategory
    ensures Counted(r, t) == Report(income, expenses, incomeBy, expensesBy, income - expenses)
  {
  }

  /** A selection that has failed keeps failing when more records are selected. */
  lemma TallyNoneExtends(sel: seq<Transaction>, t: Transaction, cats: set<string>)
    requires Tally(sel, cats).None?
    ensures Tally(sel + [t], cats).None?
  {
    if Orphaned(sel, Income, cats) {
      OrphanedExtends(sel, [t], Income, cats);
    } else {
      OrphanedExtends(sel, [t], Expense, cats);
    }
  }

  /** Selecting a record whose category has no bucket makes the tally fail. */
  lemma TallyOrphan(sel: seq<Transaction>, t: Transaction, cats: set<string>)
    requires t.category !in cats
    ensures Tally(sel + [t], cats).None?
  {
    assert (sel + [t])[|sel|] == t;
  }

  /** Before any record is read every bucket is zero. */
  lemma TallyEmpty(cats: set<string>)
    ensures Tally([], cats) == Some(Report(0, 0, map c | c in cats :: 0, map c | c in cats :: 0, 0))
  {
    assert Buckets([], Income, cats) == map c | c in cats :: 0;
    assert Buckets([], Expense, cats) == map c | c in cats :: 0;
  }

  /**
   * The weekly/monthly loop after reading the first n records: its running figures, or None once it
   * has stopped on a record without a date or on a category that has no bucket.
   */
  ghost function Scanned(txs: seq<Transaction>, n: nat, w: Window, cats: set<string>): Option<Report>
    requires n <= |txs|
  {
    if n == 0 then Some(Report(0, 0, map c | c in cats :: 0, map c | c in cats :: 0, 0))
    else
      match Scanned(txs, n - 1, w, cats)
      case None => None
      case Some(r) =>
        var t := txs[n - 1];
        if t.date.None? then None
        else if !InWindow(t.date.value, w) then Some(r)
        else if t.category !in (if t.kind == Income then r.incomeByCategory else r.expensesByCategory) then None
        else Some(Counted(r, t))
  }

  /** Once the loop has stopped, reading further records does not revive it. */
  lemma ScannedStaysNone(txs: seq<Transaction>, n: nat, m: nat, w: Window, cats: set<string>)
    requires n <= m <= |txs| && Scanned(txs, n, w, cats).None?
    ensures Scanned(txs, m, w, cats).None?
    decreases m
  {
    if m > n {
      ScannedStaysNone(txs, n, m - 1, w, cats);
    }
  }

  /**
   * Reading the first n records one at a time gives the tally of the prefix's records in the
   * window, unless one of them has no date.
   */
  lemma {:induction false} ScannedIsTally(txs: seq<Transaction>, n: nat, w: Window, cats: set<string>)
    requires n <= |txs|
    ensures Scanned(txs, n, w, cats)
              == if exists j | 0 <= j < n :: txs[j].date.None? then None else Tally(InPeriod(txs[..n], w), cats)
  {
    if n == 0 {
      TallyEmpty(cats);
      assert txs[..0] == [];
    } else {
      ScannedIsTally(txs, n - 1, w, cats);
      var t, sel := txs[n - 1], InPeriod(txs[..n - 1], w);
      InPeriodStep(txs, n - 1, w);
      if exists j | 0 <= j < n - 1 :: txs[j].date.None? {
        var j :| 0 <= j < n - 1 && txs[j].date.None?;
        assert exists j | 0 <= j < n :: txs[j].date.None?;
      } else if t.date.None? {
        assert exists j | 0 <= j < n :: txs[j].date.None?;
      } else {
        assert !exists j | 0 <= j < n :: txs[j].date.None?;
        if !InWindow(t.date.value, w) {
          assert sel + [] == sel;
        } else if Tally(sel, cats).None? {
          TallyNoneExtends(sel, t, cats);
        } else if t.category !in cats {
          TallyOrphan(sel, t, cats);
        } else {
          TallyStep(sel, t, cats);
        }
      }
    }
  }

  /** Once the loop has stopped, the report fails. */
  lemma StoppedReport(txs: seq<Transaction>, n: nat, w: Window, cats: set<string>)
    requires n <= |txs| && Scanned(txs, n, w, cats).None?
    ensures PeriodReportOf(txs, cats, w).None?
  {
    ScannedStaysNone(txs, n, |txs|, w, cats);
    ScannedIsReport(txs, w, cats);
  }

  /** Reading every record gives the report. */
  lemma ScannedIsReport(txs: seq<Transaction>, w: Window, cats: set<string>)
    ensures Scanned(txs, |txs|, w, cats) == PeriodReportOf(txs, cats, w)
  {
    ScannedIsTally(txs, |txs|, w, cats);
    assert txs[..|txs|] == txs;
  }

  class FinanceTracker {
    var transactions: seq<Transaction>
    var balance: int
    var categories: set<string>
    /** The contents of transactions.json: what save_data last wrote, None when there is no file. */
    var stored: Option<LedgerState>

    function State(): LedgerState
      reads this
    {
      LedgerState(transactions, balance, categories)
    }

    /** Every stored date is a calendar date: format_date only hands out those. */
    predicate Valid()
      reads this
    {
      WellDated(transactions)
    }

    /** __init__ with load_data: the saved file if there is one, otherwise an empty ledger. */
    constructor(file: Option<LedgerState>)
      requires file.Some? ==> WellDated(file.value.transactions)
      ensures Valid()
      ensures State() == if file.Some? then file.value else LedgerState([], 0, DefaultCategories)
      ensures stored == file
    {
      transactions := [];
      categories := DefaultCategories;
      balance := 0;
      stored := file;
      if file.Some? {
        transactions := file.value.transactions;
        balance := file.value.balance;
        categories := file.value.categories;
      }
    }

    /** add_transaction: check, append a new record numbered by the current count, move the balance, save. */
    method AddTransaction(amount: string, category: string, date: string, kind: string, source: string, today: Date)
      returns (outcome: Outcome)
      requires Valid()
      modifies this
      ensures Valid()
      ensures match NewRecord(amount, category, date, kind, source, today, old(categories), |old(transactions)|)
              case Ok(t) => outcome == Done && State() == Added(old(State()), t) && stored == Some(State())
              case Err(e) => outcome == Failed(e) && State() == old(State()) && stored == old(stored)
    {
      ghost var before := State();
      var parsed := ParseAmount(amount);
      if parsed.Err? {
        return Failed(BadAmount(parsed.error));
      }
      if category !in categories {
        return Failed(UnknownCategory);
      }
      var k := ParseKind(kind);
      if k.None? {
        return Failed(UnknownKind);
      }
      var formatted := CheckDate(date, today);
      var t := Transaction(parsed.value, category, formatted, k.value, source, |transactions|);
      assert NewRecord(amount, category, date, kind, source, today, categories, |transactions|) == Ok(t);
      transactions := transactions + [t];
      if t.kind == Income {
        balance := balance + t.amount;
      } else {
        balance := balance - t.amount;
      }
      assert State() == Added(before, t);
      stored := Some(State());
      return Done;
    }

    /**
     * update_transaction: edits the record at a position in the list (not the record's number) in
     * place, one field at a time, and saves only when every edit went through. The balance is never
     * touched.
     */
    method UpdateTransaction(position: int, edits: Edits, today: Date) returns (outcome: Outcome)
      requires Valid()
      modifies this
      ensures Valid()
      ensures balance == old(balance) && categories == old(categories)
      ensures if 0 <= position < |old(transactions)| then
                var (o, s) := Updated(old(State()), position, edits, today);
                outcome == o && transactions == s.transactions && stored == (if o.Done? then Some(s) else old(stored))
              else
                outcome == Failed(NoSuchPosition) && transactions == old(transactions) && stored == old(stored)
    {
      if position < 0 || position >= |transactions| {
        return Failed(NoSuchPosition);
      }
      UpdatedWellDated(State(), position, edits, today);
      var r := EditAmount(transactions[position], edits.amount);
      if r.Err? {
        return Failed(r.error);
      }
      transactions := transactions[position := r.value];
      r := EditCategory(transactions[position], edits.category, categories);
      if r.Err? {
        return Failed(r.error);
      }
      transactions := transactions[position := r.value];
      transactions := transactions[position := EditDate(transactions[position], edits.date, today)];
      r := EditKind(transactions[position], edits.kind);
      if r.Err? {
        return Failed(r.error);
      }
      transactions := transactions[position := r.value];
      stored := Some(State());
      return Done;
    }

    /**
     * delete_transaction: finds the first record carrying the number, pops it, takes its amount
     * back out of the balance and saves; nothing happens when no record carries the number.
     */
    method DeleteTransaction(index: int) returns (deleted: bool)
      requires Valid()
      modifies this
      ensures Valid()
      ensures var p := PositionOf(old(transactions), index);
              && deleted == (p >= 0)
              && (if p >= 0 then State() == Deleted(old(State()), p) && stored == Some(State())
                  else State() == old(State()) && stored == old(stored))
    {
      if !exists j | 0 <= j < |transactions| :: transactions[j].index == index {
        return false;
      }
      ghost var before, p := State(), PositionOf(transactions, index);
      DeletedWellDated(before, p);
      var i := 0;
      while transactions[i].index != index
        invariant 0 <= i <= p
        decreases p - i
      {
        i := i + 1;
      }
      var t := transactions[i];
      transactions := transactions[..i] + transactions[i + 1..];
      if t.kind == Income {
        balance := balance - t.amount;
      } else {
        balance := balance + t.amount;
      }
      assert State() == Deleted(before, p);
      stored := Some(State());
      return true;
    }

    /** add_category: refused when the name is already a category. */
    method AddCategory(name: string) returns (added: bool)
      modifies this
      ensures added <==> name !in old(categories)
      ensures categories == old(categories) + {name}
      ensures transactions == old(transactions) && balance == old(balance)
      ensures stored == if added then Some(State()) else old(stored)
    {
      if name in categories {
        return false;
      }
      categories := categories + {name};
      stored := Some(State());
      return true;
    }

    /** remove_category: refused when the name is not a category; records keep the name. */
    method RemoveCategory(name: string) returns (removed: bool)
      modifies this
      ensures removed <==> name in old(categories)
      ensures categories == old(categories) - {name}
      ensures transactions == old(transactions) && balance == old(balance)
      ensures stored == if removed then Some(State()) else old(stored)
    {
      if name !in categories {
        return false;
      }
      categories := categories - {name};
      stored := Some(State());
      return true;
    }

    /**
     * generate_summary over the records dated between two midnights: totals the income and the
     * expenses and buckets the expenses per category; None when an expense's category has no bucket.
     */
    method GenerateSummary(start: Date, end: Date) returns (r: Option<Summary>)
      requires Valid()
      ensures r == SummaryOf(FilterTransactions(transactions, Filter(None, None, Some(start), Some(end))), categories)
    {
      var filtered := FilterTransactions(transactions, Filter(None, None, Some(start), Some(end)));
      var income, expenses := 0, 0;
      var byCategory := map c | c in categories :: 0;
      assert byCategory == Buckets([], Expense, categories);
      var i := 0;
      while i < |filtered|
        invariant 0 <= i <= |filtered|
        invariant !Orphaned(filtered[..i], Expense, categories)
        invariant income == Total(filtered[..i], Income) && expenses == Total(filtered[..i], Expense)
        invariant byCategory == Buckets(filtered[..i], Expense, categories)
      {
        var t := filtered[i];
        if t.kind == Income {
          income := income + t.amount;
        } else {
          expenses := expenses + t.amount;
          if t.category !in byCategory {
            assert filtered[i].kind == Expense && filtered[i].category !in categories;
            return None;
          }
          byCategory := byCategory[t.category := byCategory[t.category] + t.amount];
        }
        SummaryStep(filtered, i, categories);
        i := i + 1;
      }
      assert filtered[..i] == filtered;
      return Some(Summary(income, expenses, byCategory, income - expenses));
    }

    /**
     * The loop shared by the weekly and monthly reports: every record's date is read (a record
     * without one ends the report); those inside the window are totalled and bucketed by kind. Its
     * callers hold Valid(), so every date it reads is a calendar date, as strptime demands.
     */
    method PeriodReport(w: Window) returns (r: Option<Report>)
      ensures r == PeriodReportOf(transactions, categories, w)
    {
      var txs, cats := transactions, categories;
      var income, expenses := 0, 0;
      var incomeBy := map c | c in cats :: 0;
      var expensesBy := map c | c in cats :: 0;
      var i := 0;
      while i < |txs|
        invariant 0 <= i <= |txs|
        invariant Scanned(txs, i, w, cats) == Some(Report(income, expenses, incomeBy, expensesBy, income - expenses))
      {
        var t := txs[i];
        if t.date.None? {
          StoppedReport(txs, i + 1, w, cats);
          return None;
        }
        if InWindow(t.date.value, w) {
          if t.kind == Income {
            income := income + t.amount;
            if t.category !in incomeBy {
              StoppedReport(txs, i + 1, w, cats);
              return None;
            }
            incomeBy := incomeBy[t.category := incomeBy[t.category] + t.amount];
          } else {
            expenses := expenses + t.amount;
            if t.category !in expensesBy {
              StoppedReport(txs, i + 1, w, cats);
              return None;
            }
            expensesBy := expensesBy[t.category := expensesBy[t.category] + t.amount];
          }
        }
        i := i + 1;
      }
      ScannedIsReport(txs, w, cats);
      return Some(Report(income, expenses, incomeBy, expensesBy, income - expenses));
    }

    /** get_weekly_summary: the report over the week up to `now`. */
    method WeeklyReport(now: DateTime) returns (r: Option<Report>)
      requires Valid() && ValidDateTime(now)
      ensures r == PeriodReportOf(transactions, categories, WeekWindow(now))
    {
      r := PeriodReport(WeekWindow(now));
    }

    /** get_monthly_summary: the report from the first of now's month up to `now`. */
    method MonthlyReport(now: DateTime) returns (r: Option<Report>)
      requires Valid() && ValidDateTime(now)
      ensures r == PeriodReportOf(transactions, categories, MonthWindow(now))
    {
      r := PeriodReport(MonthWindow(now));
    }
  }
}
