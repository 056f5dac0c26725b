/**
 * filter_transactions: successive list comprehensions, one per supplied criterion, over a copy of
 * the records. A None or "" category or type and a None date bound impose nothing.
 */
module Query {
  import opened Options
  import opened Dates
  import opened Records

  /** One comprehension's test. */
  datatype Criterion =
    | CategoryIs(category: string)
    | KindIs(name: string)
    | NotBefore(start: Date)   // the record has a date and it is >= start
    | NotAfter(end: Date)      // the record has a date and it is <= end

  predicate Holds(t: Transaction, c: Criterion)
  {
    match c
    case CategoryIs(x) => t.category == x
    case KindIs(x) => KindName(t.kind) == x
    case NotBefore(d) => t.date.Some? && !Before(t.date.value, d)
    case NotAfter(d) => t.date.Some? && !Before(d, t.date.value)
  }

  /** The arguments of filter_transactions; the date bounds are datetimes at midnight. */
  datatype Filter = Filter(category: Option<string>, kind: Option<string>, start: Option<Date>, end: Option<Date>)

  /** Python truthiness of an optional string. */
  predicate Given(o: Option<string>) { o.Some? && o.value != "" }

  /** The criteria the arguments switch on, in the order the comprehensions run. */
  function Criteria(f: Filter): seq<Criterion>
  {
    (if Given(f.category) then [CategoryIs(f.category.value)] else [])
    + (if Given(f.kind) then [KindIs(f.kind.value)] else [])
    + (if f.start.Some? then [NotBefore(f.start.value)] else [])
    + (if f.end.Some? then [NotAfter(f.end.value)] else [])
  }

  /** The record satisfies every supplied criterion. */
  predicate Matches(t: Transaction, f: Filter)
  {
    (Given(f.category) ==> t.category == f.category.value)
    && (Given(f.kind) ==> KindName(t.kind) == f.kind.value)
    && (f.start.Some? ==> t.date.Some? && !Before(t.date.value, f.start.value))
    && (f.end.Some? ==> t.date.Some? && !Before(f.end.value, t.date.value))
  }

  /** `[t for t in txs if <c>]` */
  function Keep(txs: seq<Transaction>, c: Criterion): seq<Transaction>
  {
    if txs == [] then []
    else Keep(txs[..|txs| - 1], c) + (if Holds(txs[|txs| - 1], c) then [txs[|txs| - 1]] else [])
  }

  /** The comprehensions run one after another, each over the previous one's result. */
  function KeepAll(txs: seq<Transaction>, cs: seq<Criterion>): seq<Transaction>
    decreases |cs|
  {
    if cs == [] then txs else KeepAll(Keep(txs, cs[0]), cs[1..])
  }

  /** Reference definition: one pass keeping, in order, the records that satisfy all of cs. */
  function SelectAll(txs: seq<Transaction>, cs: seq<Criterion>): seq<Transaction>
  {
    if txs == [] then []
    else
      var t := txs[|txs| - 1];
      SelectAll(txs[..|txs| - 1], cs) + (if forall c | c in cs :: Holds(t, c) then [t] else [])
  }

  lemma {:induction false} KeepThenSelect(txs: seq<Transaction>, c: Criterion, cs: seq<Criterion>)
    ensures SelectAll(Keep(txs, c), cs) == SelectAll(txs, [c] + cs)
  {
    if txs != [] {
      var init, t := txs[..|txs| - 1], txs[|txs| - 1];
      KeepThenSelect(init, c, cs);
      var k := Keep(init, c);
      if Holds(t, c) {
        assert Keep(txs, c) == k + [t];
        assert (k + [t])[..|k + [t]| - 1] == k;
        assert (forall x | x in [c] + cs :: Holds(t, x)) <==> (forall x | x in cs :: Holds(t, x));
      } else {
        assert Keep(txs, c) == k;
        assert !(forall x | x in [c] + cs :: Holds(t, x)) by { assert c in [c] + cs; }
      }
    }
  }

  /** Running the comprehensions one after another is the one-pass selection by all of them. */
  lemma {:induction false} KeepAllIsSelectAll(txs: seq<Transaction>, cs: seq<Criterion>)
    ensures KeepAll(txs, cs) == SelectAll(txs, cs)
    decreases |cs|
  {
    if cs == [] {
      SelectNothing(txs);
    } else {
      KeepAllIsSelectAll(Keep(txs, cs[0]), cs[1..]);
      KeepThenSelect(txs, cs[0], cs[1..]);
      assert [cs[0]] + cs[1..] == cs;
    }
  }

  lemma {:induction false} SelectNothing(txs: seq<Transaction>)
    ensures SelectAll(txs, []) == txs
  {
    if txs != [] {
      SelectNothing(txs[..|txs| - 1]);
    }
  }

  lemma CriteriaMeaning(t: Transaction, f: Filter)
    ensures (forall c | c in Criteria(f) :: Holds(t, c)) <==> Matches(t, f)
  {
    var cs := Criteria(f);
    if Given(f.category) { assert CategoryIs(f.category.value) in cs; }
    if Given(f.kind) { assert KindIs(f.kind.value) in cs; }
    if f.start.Some? { assert NotBefore(f.start.value) in cs; }
    if f.end.Some? { assert NotAfter(f.end.value) in cs; }
  }

  /** filter_transactions over the records `txs`. */
  function FilterTransactions(txs: seq<Transaction>, f: Filter): (r: seq<Transaction>)
  {
    KeepAll(txs, Criteria(f))
  }

  /** The filter keeps, in their order, exactly the records that match: the last one is kept iff it matches. */
  lemma {:induction false} FilterStep(txs: seq<Transaction>, t: Transaction, f: Filter)
    ensures FilterTransactions(txs + [t], f) ==
              FilterTransactions(txs, f) + (if Matches(t, f) then [t] else [])
  {
    var cs := Criteria(f);
    KeepAllIsSelectAll(txs + [t], cs);
    KeepAllIsSelectAll(txs, cs);
    assert (txs + [t])[..|txs + [t]| - 1] == txs;
    CriteriaMeaning(t, f);
  }

  lemma {:induction false} FilterEmpty(f: Filter)
    ensures FilterTransactions([], f) == []
  {
    KeepAllIsSelectAll([], Criteria(f));
  }

  /** Filtering distributes over concatenation: the order of the kept records is the ledger's. */
  lemma {:induction false} FilterConcat(a: seq<Transaction>, b: seq<Transaction>, f: Filter)
    ensures FilterTransactions(a + b, f) == FilterTransactions(a, f) + FilterTransactions(b, f)
  {
    if b == [] {
      FilterEmpty(f);
      assert a + b == a;
    } else {
      var b', t := b[..|b| - 1], b[|b| - 1];
      FilterConcat(a, b', f);
      assert a + b == (a + b') + [t];
      assert b == b' + [t];
      FilterStep(a + b', t, f);
      FilterStep(b', t, f);
    }
  }

  /** A record is in the result iff it is in the ledger and matches every supplied criterion. */
  lemma {:induction false} FilterMembers(txs: seq<Transaction>, f: Filter, t: Transaction)
    ensures t in FilterTransactions(txs, f) <==> t in txs && Matches(t, f)
  {
    if txs == [] {
      FilterEmpty(f);
    } else {
      var init := txs[..|txs| - 1];
      FilterMembers(init, f, t);
      FilterStep(init, txs[|txs| - 1], f);
      assert txs == init + [txs[|txs| - 1]];
    }
  }

  /** With no criterion supplied (every argument None or "") the whole ledger comes back in order. */
  lemma NoCriteria(txs: seq<Transaction>, category: Option<string>, kind: Option<string>)
    requires !Given(category) && !Given(kind)
    ensures FilterTransactions(txs, Filter(category, kind, None, None)) == txs
  {
  }

  /** Filtering twice with the same arguments changes nothing more. */
  lemma {:induction false} FilterIdempotent(txs: seq<Transaction>, f: Filter)
    ensures FilterTransactions(FilterTransactions(txs, f), f) == FilterTransactions(txs, f)
  {
    if txs == [] {
      FilterEmpty(f);
    } else {
      var init, t := txs[..|txs| - 1], txs[|txs| - 1];
      FilterIdempotent(init, f);
      assert txs == init + [t];
      FilterStep(init, t, f);
      var once := FilterTransactions(init, f);
      if Matches(t, f) {
        assert FilterTransactions(txs, f) == once + [t];
        FilterStep(once, t, f);
      } else {
        assert FilterTransactions(txs, f) == once;
      }
    }
  }

  /** A date bound drops every record that has no date. */
  lemma DateBoundDropsUndated(txs: seq<Transaction>, f: Filter, t: Transaction)
    requires f.start.Some? || f.end.Some?
    requires t in FilterTransactions(txs, f)
    ensures t.date.Some?
  {
    FilterMembers(txs, f, t);
  }
}
