/** The ledger's records and the sums the balance and the reports are made of. */
module Records {
  import opened Options
  import opened Dates

  datatype Kind = Income | Expense

  function KindName(k: Kind): string
  {
    match k
    case Income => "Income"
    case Expense => "Expense"
  }

  /** The type check of add_transaction and update_transaction: exactly "Income" or "Expense". */
  function ParseKind(s: string): (r: Option<Kind>)
    ensures r.Some? ==> KindName(r.value) == s
    ensures r.None? ==> forall k: Kind :: KindName(k) != s
  {
    if s == "Income" then Some(Income) else if s == "Expense" then Some(Expense) else None
  }

  /**
   * One transaction. `amount` is in cents. `date` is None when format_date refused the text;
   * otherwise the record holds the string DateToString(date). `index` is the number given at
   * creation, not the record's position.
   */
  datatype Transaction = Transaction(
    amount: nat,
    category: string,
    date: Option<Date>,
    kind: Kind,
    source: string,
    index: int)

  /** Every stored date is a real calendar date (format_date only hands out those). */
  predicate WellDated(txs: seq<Transaction>)
  {
    forall i | 0 <= i < |txs| :: txs[i].date.Some? ==> ValidDate(txs[i].date.value)
  }

  /** The record's effect on the balance: +amount for Income, -amount otherwise. */
  function Signed(t: Transaction): int
  {
    if t.kind == Income then t.amount else -(t.amount as int)
  }

  /** The balance the records account for. */
  function SumSigned(txs: seq<Transaction>): int
  {
    if txs == [] then 0 else SumSigned(txs[..|txs| - 1]) + Signed(txs[|txs| - 1])
  }

  /** Sum of the amounts of the records of kind k. */
  function Total(txs: seq<Transaction>, k: Kind): nat
  {
    if txs == [] then 0
    else Total(txs[..|txs| - 1], k) + (if txs[|txs| - 1].kind == k then txs[|txs| - 1].amount else 0)
  }

  /** Sum of the amounts of the records of kind k in category c. */
  function CategoryTotal(txs: seq<Transaction>, k: Kind, c: string): nat
  {
    if txs == [] then 0
    else
      var t := txs[|txs| - 1];
      CategoryTotal(txs[..|txs| - 1], k, c) + (if t.kind == k && t.category == c then t.amount else 0)
  }

  /** The balance is total income minus total expenses. */
  lemma {:induction false} BalanceIsIncomeMinusExpense(txs: seq<Transaction>)
    ensures SumSigned(txs) == Total(txs, Income) - Total(txs, Expense)
  {
    if txs != [] {
      BalanceIsIncomeMinusExpense(txs[..|txs| - 1]);
    }
  }

  lemma {:induction false} SumSignedConcat(a: seq<Transaction>, b: seq<Transaction>)
    ensures SumSigned(a + b) == SumSigned(a) + SumSigned(b)
  {
    if b != [] {
      SumSignedConcat(a, b[..|b| - 1]);
      assert (a + b)[..|a + b| - 1] == a + b[..|b| - 1];
    } else {
      assert a + b == a;
    }
  }

  /** Taking a record out removes exactly its contribution. */
  lemma {:induction false} SumSignedRemove(txs: seq<Transaction>, i: int)
    requires 0 <= i < |txs|
    ensures SumSigned(txs[..i] + txs[i + 1..]) == SumSigned(txs) - Signed(txs[i])
  {
    assert txs == txs[..i] + [txs[i]] + txs[i + 1..];
    SumSignedConcat(txs[..i] + [txs[i]], txs[i + 1..]);
    SumSignedConcat(txs[..i], txs[i + 1..]);
    SumSignedConcat(txs[..i], [txs[i]]);
  }

  /** Replacing one record moves the sum by the change in that record's signed amount. */
  lemma SumSignedReplace(txs: seq<Transaction>, i: int, t: Transaction)
    requires 0 <= i < |txs|
    ensures SumSigned(txs[i := t]) == SumSigned(txs) - Signed(txs[i]) + Signed(t)
  {
    var u := txs[i := t];
    assert u == txs[..i] + [t] + txs[i + 1..];
    SumSignedConcat(txs[..i] + [t], txs[i + 1..]);
    SumSignedConcat(txs[..i], [t]);
    SumSignedRemove(txs, i);
    SumSignedConcat(txs[..i], txs[i + 1..]);
    assert SumSigned([t]) == Signed(t) by { assert [t][..0] == []; }
  }

  /** Position of the first record whose index field is `index`, or -1 when there is none. */
  function PositionOf(txs: seq<Transaction>, index: int): (p: int)
    ensures -1 <= p < |txs|
    ensures p >= 0 ==> txs[p].index == index && forall j | 0 <= j < p :: txs[j].index != index
    ensures p == -1 ==> forall j | 0 <= j < |txs| :: txs[j].index != index
  {
    if txs == [] then -1
    else if txs[0].index == index then 0
    else
      var p := PositionOf(txs[1..], index);
      if p == -1 then -1 else p + 1
  }
}
