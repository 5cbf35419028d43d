/**
 * The finance page: the transaction list sorted newest first, the customer and
 * product filter options, the filter as the code parses it, and the monthly
 * income/expense buckets of the chart.
 */
module Finance {
  import opened Wrappers
  import opened Lists
  import opened Text

  /** A calendar date; the page keeps it as "yyyy-mm-dd". */
  datatype Date = Date(year: int, month: int, day: int)

  /** `a <= b` in calendar order. */
  predicate Le(a: Date, b: Date) {
    a.year < b.year || (a.year == b.year && (a.month < b.month || (a.month == b.month && a.day <= b.day)))
  }

  /** Amounts in cents; `kind` is "Receita" for income and anything else for an expense. */
  datatype Transaction = Transaction(date: Date, description: string, kind: string, amount: int, product: string, customer: string)

  const Income := "Receita"
  const NotApplicable := "N/A"
  const AllOption := "all"

  /** The transactions as listed in the source, before sorting. */
  const Listed: seq<Transaction> := [
    Transaction(Date(2023, 11, 23), "Venda - Pedido #3124", "Receita", 199900, "Laptop Pro", "Liam Johnson"),
    Transaction(Date(2023, 11, 22), "Pagamento de Fornecedor", "Despesa", -80000, "N/A", "Fornecedor de Peças"),
    Transaction(Date(2023, 11, 22), "Venda - Pedido #3123", "Receita", 3900, "Mouse Gamer", "Olivia Smith"),
    Transaction(Date(2023, 11, 21), "Aluguel do Escritório", "Despesa", -250000, "N/A", "N/A"),
    Transaction(Date(2023, 11, 20), "Venda - Pedido #3122", "Receita", 29900, "Teclado Mecânico", "Noah Williams")
  ]

  // ---------------------------------------------------------------------------
  // Newest first

  predicate NewestFirst(ts: seq<Transaction>) {
    forall i, j :: 0 <= i < j < |ts| ==> Le(ts[j].date, ts[i].date)
  }

  lemma LeTotal(a: Date, b: Date)
    ensures Le(a, b) || Le(b, a)
  {
  }

  lemma LeTransitive(a: Date, b: Date, c: Date)
    requires Le(a, b) && Le(b, c)
    ensures Le(a, c)
  {
  }

  /** Puts `t` before the first entry no newer than it, so it stays ahead of entries of its own date. */
  function Insert(t: Transaction, ts: seq<Transaction>): (r: seq<Transaction>)
    ensures multiset(r) == multiset(ts) + multiset{t}
  {
    if ts == [] || Le(ts[0].date, t.date) then [t] + ts
    else
      assert ts == [ts[0]] + ts[1..];
      [ts[0]] + Insert(t, ts[1..])
  }

  /** A newest-first list stays newest first with an entry no older than all of it in front. */
  lemma PrependNewestFirst(x: Transaction, ts: seq<Transaction>)
    requires NewestFirst(ts)
    requires forall i :: 0 <= i < |ts| ==> Le(ts[i].date, x.date)
    ensures NewestFirst([x] + ts)
  {
    var r := [x] + ts;
    forall i, j | 0 <= i < j < |r| ensures Le(r[j].date, r[i].date) {
      assert r[j] == ts[j - 1];
    }
  }

  /** Inserting an entry no newer than `bound` among entries no newer than `bound`. */
  lemma InsertBounded(t: Transaction, ts: seq<Transaction>, bound: Date)
    requires Le(t.date, bound)
    requires forall i :: 0 <= i < |ts| ==> Le(ts[i].date, bound)
    ensures forall i :: 0 <= i < |Insert(t, ts)| ==> Le(Insert(t, ts)[i].date, bound)
  {
    var r := Insert(t, ts);
    forall i | 0 <= i < |r| ensures Le(r[i].date, bound) {
      assert r[i] in multiset(ts) + multiset{t};
      if r[i] != t {
        assert r[i] in ts;
      }
    }
  }

  /** Inserting into a newest-first list keeps it newest first. */
  lemma {:induction false} InsertNewestFirst(t: Transaction, ts: seq<Transaction>)
    requires NewestFirst(ts)
    ensures NewestFirst(Insert(t, ts))
  {
    if ts == [] || Le(ts[0].date, t.date) {
      forall i | 0 <= i < |ts| ensures Le(ts[i].date, t.date) {
        if i > 0 {
          LeTransitive(ts[i].date, ts[0].date, t.date);
        }
      }
      PrependNewestFirst(t, ts);
    } else {
      var rest := Insert(t, ts[1..]);
      InsertNewestFirst(t, ts[1..]);
      LeTotal(ts[0].date, t.date);
      InsertBounded(t, ts[1..], ts[0].date);
      PrependNewestFirst(ts[0], rest);
      assert Insert(t, ts) == [ts[0]] + rest;
    }
  }

  /** `sort((a, b) => b.date - a.date)`: newest first, a rearrangement of the input. */
  function SortNewestFirst(ts: seq<Transaction>): (r: seq<Transaction>)
    ensures NewestFirst(r) && multiset(r) == multiset(ts)
  {
    if ts == [] then []
    else
      assert ts == [ts[0]] + ts[1..];
      var sorted := SortNewestFirst(ts[1..]);
      InsertNewestFirst(ts[0], sorted);
      Insert(ts[0], sorted)
  }

  /** A list already newest first is left exactly as it is. */
  lemma {:induction false} SortKeepsSorted(ts: seq<Transaction>)
    requires NewestFirst(ts)
    ensures SortNewestFirst(ts) == ts
  {
    if ts != [] {
      SortKeepsSorted(ts[1..]);
    }
  }

  const InitialTransactions := SortNewestFirst(Listed)

  /** The listed transactions are already newest first, so the page shows them in source order. */
  lemma InitialTransactionsInSourceOrder()
    ensures InitialTransactions == Listed
  {
    assert NewestFirst(Listed);
    SortKeepsSorted(Listed);
  }

  // ---------------------------------------------------------------------------
  // Filter options

  function Itself(s: string): string {
    s
  }

  /**
   * `['all', ...new Set(values.filter(v => v !== 'N/A'))]`: "all", then every other value
   * but "N/A", each once.
   */
  function Options(values: seq<string>): (r: seq<string>)
    ensures |r| >= 1 && r[0] == AllOption
    ensures forall i :: 1 <= i < |r| ==> r[i] != NotApplicable && r[i] in values
    ensures forall i :: 0 <= i < |values| && values[i] != NotApplicable ==> values[i] in r[1..]
    ensures Distinct(r[1..])
  {
    var d := Dedup(RemoveKey(values, Itself, NotApplicable));
    assert ([AllOption] + d)[1..] == d;
    [AllOption] + d
  }

  /** The options after "all" come in the order the values first appear. */
  lemma OptionsInFirstAppearanceOrder(values: seq<string>)
    ensures forall i, j :: 1 <= i < j < |Options(values)| ==>
              FirstIndex(values, Options(values)[i]) < FirstIndex(values, Options(values)[j])
  {
    var kept := RemoveKey(values, Itself, NotApplicable);
    var d := Dedup(kept);
    var r := Options(values);
    assert r == [AllOption] + d;
    DedupFirstAppearance(kept);
    forall i, j | 1 <= i < j < |r| ensures FirstIndex(values, r[i]) < FirstIndex(values, r[j]) {
      assert r[i] == d[i - 1] && r[j] == d[j - 1];
      RemoveKeyKeepsOrder(values, Itself, NotApplicable, d[i - 1], d[j - 1]);
    }
  }

  function Customers(ts: seq<Transaction>): (r: seq<string>)
    ensures |r| == |ts| && forall i :: 0 <= i < |ts| ==> r[i] == ts[i].customer
  {
    seq(|ts|, i requires 0 <= i < |ts| => ts[i].customer)
  }

  function Products(ts: seq<Transaction>): (r: seq<string>)
    ensures |r| == |ts| && forall i :: 0 <= i < |ts| ==> r[i] == ts[i].product
  {
    seq(|ts|, i requires 0 <= i < |ts| => ts[i].product)
  }

  /**
   * The customer filter's options, `['all', ...new Set(ts.map(t => t.customer).filter(c => c !== 'N/A'))]`:
   * "all", then each customer other than "N/A" that some transaction names, once each,
   * in the order of the first transaction naming it.
   */
  function CustomerOptions(ts: seq<Transaction>): (r: seq<string>)
    ensures |r| >= 1 && r[0] == AllOption
    ensures forall i :: 1 <= i < |r| ==> r[i] != NotApplicable && exists j :: 0 <= j < |ts| && ts[j].customer == r[i]
    ensures forall j :: 0 <= j < |ts| && ts[j].customer != NotApplicable ==> ts[j].customer in r[1..]
    ensures Distinct(r[1..])
    ensures forall i, k :: 1 <= i < k < |r| ==> FirstIndex(Customers(ts), r[i]) < FirstIndex(Customers(ts), r[k])
  {
    var column := Customers(ts);
    OptionsInFirstAppearanceOrder(column);
    assert forall j :: 0 <= j < |ts| ==> column[j] == ts[j].customer;
    Options(column)
  }

  /** The product filter's options, built the same way from the products the transactions name. */
  function ProductOptions(ts: seq<Transaction>): (r: seq<string>)
    ensures |r| >= 1 && r[0] == AllOption
    ensures forall i :: 1 <= i < |r| ==> r[i] != NotApplicable && exists j :: 0 <= j < |ts| && ts[j].product == r[i]
    ensures forall j :: 0 <= j < |ts| && ts[j].product != NotApplicable ==> ts[j].product in r[1..]
    ensures Distinct(r[1..])
    ensures forall i, k :: 1 <= i < k < |r| ==> FirstIndex(Products(ts), r[i]) < FirstIndex(Products(ts), r[k])
  {
    var column := Products(ts);
    OptionsInFirstAppearanceOrder(column);
    assert forall j :: 0 <= j < |ts| ==> column[j] == ts[j].product;
    Options(column)
  }

  // ---------------------------------------------------------------------------
  // The filter

  /** The picked range: either end may be missing; no range at all is both missing. */
  datatype Range = Range(from: Option<Date>, to: Option<Date>)

  /**
   * `!from || d >= from && !to || d <= to`, grouped as JavaScript groups it:
   * `!from || (d >= from && !to) || d <= to`, where `d <= undefined` is false.
   */
  predicate InDateRange(d: Date, range: Range) {
    range.from.None?
    || (Le(range.from.value, d) && range.to.None?)
    || (range.to.Some? && Le(d, range.to.value))
  }

  /** Without a start date everything passes, whatever the end date. */
  lemma NoStartPassesAll(d: Date, to: Option<Date>)
    ensures InDateRange(d, Range(None, to))
  {
  }

  /** With only a start date, a date passes exactly when it is not before the start. */
  lemma StartOnly(d: Date, from: Date)
    ensures InDateRange(d, Range(Some(from), None)) <==> Le(from, d)
  {
  }

  /** With both ends set, the start is ignored: a date passes exactly when it is not after the end. */
  lemma BothEndsIgnoreStart(d: Date, from: Date, to: Date)
    ensures InDateRange(d, Range(Some(from), Some(to))) <==> Le(d, to)
  {
  }

  /** A date before the start of a range still passes the filter. */
  lemma EarlyDatePasses()
    ensures var range := Range(Some(Date(2023, 11, 22)), Some(Date(2023, 11, 23)));
            InDateRange(Date(2023, 11, 20), range) && !Le(Date(2023, 11, 22), Date(2023, 11, 20))
  {
  }

  /** `filter === 'all' || value === filter`. */
  predicate Matches(filter: string, value: string) {
    filter == AllOption || value == filter
  }

  predicate Passes(t: Transaction, range: Range, customer: string, product: string) {
    InDateRange(t.date, range) && Matches(customer, t.customer) && Matches(product, t.product)
  }

  /** `filteredTransactions`. */
  function Filtered(ts: seq<Transaction>, range: Range, customer: string, product: string): (r: seq<Transaction>)
    ensures |r| <= |ts|
    ensures forall i :: 0 <= i < |r| ==> r[i] in ts && Passes(r[i], range, customer, product)
    ensures forall i :: 0 <= i < |ts| && Passes(ts[i], range, customer, product) ==> ts[i] in r
  {
    if ts == [] then []
    else (if Passes(ts[0], range, customer, product) then [ts[0]] else []) + Filtered(ts[1..], range, customer, product)
  }

  /** The filtered list keeps the transactions it keeps in their original order. */
  lemma {:induction false} FilteredIsSubsequence(ts: seq<Transaction>, range: Range, customer: string, product: string)
    ensures IsSubsequence(Filtered(ts, range, customer, product), ts)
  {
    if ts != [] {
      var rest := Filtered(ts[1..], range, customer, product);
      FilteredIsSubsequence(ts[1..], range, customer, product);
      if Passes(ts[0], range, customer, product) {
        assert Filtered(ts, range, customer, product) == [ts[0]] + rest;
        assert ([ts[0]] + rest)[1..] == rest;
      } else {
        assert Filtered(ts, range, customer, product) == rest;
      }
    }
  }

  /** With every filter at its default, nothing is filtered out. */
  lemma {:induction false} NoFilterKeepsAll(ts: seq<Transaction>)
    ensures Filtered(ts, Range(None, None), AllOption, AllOption) == ts
  {
    if ts != [] {
      NoFilterKeepsAll(ts[1..]);
      assert Passes(ts[0], Range(None, None), AllOption, AllOption);
      assert Filtered(ts, Range(None, None), AllOption, AllOption) == [ts[0]] + ts[1..];
      assert [ts[0]] + ts[1..] == ts;
    }
  }

  // ---------------------------------------------------------------------------
  // Monthly buckets

  /** The chart's month key: `format(date, 'MMM')` names the month and drops the year. */
  function MonthOf(d: Date): int {
    d.month
  }

  /** The income of month `m`: the "Receita" amounts dated in it. */
  function MonthIncome(ts: seq<Transaction>, m: int): int {
    if ts == [] then 0
    else
      var t := ts[|ts| - 1];
      MonthIncome(ts[..|ts| - 1], m) + (if MonthOf(t.date) == m && t.kind == Income then t.amount else 0)
  }

  /** The expenses of month `m`: the absolute values of the other amounts dated in it. */
  function MonthExpense(ts: seq<Transaction>, m: int): nat {
    if ts == [] then 0
    else
      var t := ts[|ts| - 1];
      MonthExpense(ts[..|ts| - 1], m) + (if MonthOf(t.date) == m && t.kind != Income then Abs(t.amount) else 0)
  }

  /** Transactions outside month `m` add nothing to its bucket. */
  lemma {:induction false} OtherMonthsAddNothing(ts: seq<Transaction>, m: int)
    requires forall i :: 0 <= i < |ts| ==> MonthOf(ts[i].date) != m
    ensures MonthIncome(ts, m) == 0 && MonthExpense(ts, m) == 0
  {
    if ts != [] {
      OtherMonthsAddNothing(ts[..|ts| - 1], m);
    }
  }

  /** Income and expenses of a month split over any cut of the list. */
  lemma {:induction false} BucketsSplit(a: seq<Transaction>, b: seq<Transaction>, m: int)
    ensures MonthIncome(a + b, m) == MonthIncome(a, m) + MonthIncome(b, m)
    ensures MonthExpense(a + b, m) == MonthExpense(a, m) + MonthExpense(b, m)
  {
    if b == [] {
      assert a + b == a;
    } else {
      var front := b[..|b| - 1];
      BucketsSplit(a, front, m);
      assert (a + b)[..|a + b| - 1] == a + front;
      assert (a + b)[|a + b| - 1] == b[|b| - 1];
    }
  }

  datatype Bucket = Bucket(month: int, income: int, expenses: int)

  /** `months.forEach(month => data[month] = {month, 0, 0})`, keys kept in insertion order. */
  method ZeroBuckets(months: seq<int>) returns (data: map<int, Bucket>, order: seq<int>)
    ensures order == Dedup(months)
    ensures forall m :: m in data <==> m in order
    ensures forall m :: m in data ==> data[m] == Bucket(m, 0, 0)
  {
    data, order := map[], [];
    var k := 0;
    while k < |months|
      invariant 0 <= k <= |months|
      invariant order == Dedup(months[..k])
      invariant forall m :: m in data <==> m in order
      invariant forall m :: m in data ==> data[m] == Bucket(m, 0, 0)
    {
      var month := months[k];
      assert months[..k + 1][..k] == months[..k];
      if month !in data {
        order := order + [month];
      }
      data := data[month := Bucket(month, 0, 0)];
      k := k + 1;
    }
    assert months[..k] == months;
  }

  /** `filteredTransactions.forEach(...)`: each amount goes to its month's bucket, if that month has one. */
  method AddTransactions(ts: seq<Transaction>, start: map<int, Bucket>) returns (data: map<int, Bucket>)
    requires forall m :: m in start ==> start[m] == Bucket(m, 0, 0)
    ensures data.Keys == start.Keys
    ensures forall m :: m in data ==> data[m] == Bucket(m, MonthIncome(ts, m), MonthExpense(ts, m))
  {
    data := start;
    var k := 0;
    while k < |ts|
      invariant 0 <= k <= |ts|
      invariant data.Keys == start.Keys
      invariant forall m :: m in data ==> data[m] == Bucket(m, MonthIncome(ts[..k], m), MonthExpense(ts[..k], m))
    {
      var t := ts[k];
      var month := MonthOf(t.date);
      assert ts[..k + 1][..k] == ts[..k];
      if month in data {
        var b := data[month];
        if t.kind == Income {
          data := data[month := b.(income := b.income + t.amount)];
        } else {
          data := data[month := b.(expenses := b.expenses + Abs(t.amount))];
        }
      }
      k := k + 1;
    }
    assert ts[..k] == ts;
  }

  /** `Object.values(data)`: the buckets in key insertion order. */
  method Values(data: map<int, Bucket>, order: seq<int>) returns (chart: seq<Bucket>)
    requires forall i :: 0 <= i < |order| ==> order[i] in data
    ensures |chart| == |order| && forall i :: 0 <= i < |order| ==> chart[i] == data[order[i]]
  {
    chart := [];
    var j := 0;
    while j < |order|
      invariant 0 <= j <= |order|
      invariant |chart| == j
      invariant forall i :: 0 <= i < j ==> chart[i] == data[order[i]]
    {
      chart := chart + [data[order[j]]];
      j := j + 1;
    }
  }

  /**
   * `chartData`: one zeroed bucket per month key, in first-appearance order, then every
   * transaction added to the bucket of its month when there is one.
   */
  method ChartData(ts: seq<Transaction>, months: seq<int>) returns (chart: seq<Bucket>)
    ensures |chart| == |Dedup(months)|
    ensures forall i :: 0 <= i < |chart| ==>
              chart[i] == Bucket(Dedup(months)[i], MonthIncome(ts, Dedup(months)[i]), MonthExpense(ts, Dedup(months)[i]))
  {
    var zeroed, order := ZeroBuckets(months);
    var data := AddTransactions(ts, zeroed);
    assert forall m :: m in zeroed <==> m in order;
    forall i | 0 <= i < |order| ensures order[i] in data {
      assert order[i] in order;
      assert order[i] in zeroed;
    }
    chart := Values(data, order);
  }
}
