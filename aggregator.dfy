/**
 * The "Summaries" view of app.py: the ledger grouped by customer into one
 * summary row per distinct customer (sorted by name), and the overall totals
 * with the average realized rate.
 */
module Aggregator {
  import opened Wrappers
  import opened Calculator
  import opened StringOrder
  import opened Formatting
  import LedgerStore

  /** The numeric columns of a ledger row. */
  datatype Column = InrPaid | UsdReceived | RealizedRate | ProfitUsd | ProfitInr

  function Amount(r: Record, col: Column): real
  {
    match col
    case InrPaid => r.inrPaid
    case UsdReceived => r.usdReceived
    case RealizedRate => r.realizedRate
    case ProfitUsd => r.profitUsd
    case ProfitInr => r.profitInr
  }

  /** The column total over some rows. */
  function Sum(rows: seq<Record>, col: Column): real
  {
    if rows == [] then 0.0 else Amount(rows[0], col) + Sum(rows[1..], col)
  }

  /** The distinct customer names of the ledger. */
  function Customers(rows: seq<Record>): set<string>
  {
    set r | r in rows :: r.customer
  }

  /** The rows of one customer, in ledger order. */
  function OfCustomer(rows: seq<Record>, c: string): seq<Record>
  {
    if rows == [] then []
    else (if rows[0].customer == c then [rows[0]] else []) + OfCustomer(rows[1..], c)
  }

  /** A customer's rows are the ledger rows with its name, and there are some exactly when it is a customer. */
  lemma {:induction false} OfCustomerMembers(rows: seq<Record>, c: string)
    ensures forall r :: r in OfCustomer(rows, c) <==> r in rows && r.customer == c
    ensures OfCustomer(rows, c) == [] <==> c !in Customers(rows)
  {
    if rows != [] {
      OfCustomerMembers(rows[1..], c);
      assert rows == [rows[0]] + rows[1..];
      assert Customers(rows) == {rows[0].customer} + Customers(rows[1..]);
    }
  }

  /**
   * One row of the customer summary, with the columns of the summary table:
   * four column sums, the mean rate and the number of transactions.
   */
  datatype Summary = Summary(
    customer: string,
    inrPaid: real,
    usdReceived: real,
    profitUsd: real,
    profitInr: real,
    realizedRate: real,
    txns: nat)

  /** The summed columns of a summary row; the rate column is a mean. */
  predicate Summed(col: Column)
  {
    col != RealizedRate
  }

  function SummaryAmount(s: Summary, col: Column): real
    requires Summed(col)
  {
    match col
    case InrPaid => s.inrPaid
    case UsdReceived => s.usdReceived
    case ProfitUsd => s.profitUsd
    case ProfitInr => s.profitInr
  }

  /** The mean of `n` values that add up to `total`. */
  function Mean(total: real, n: nat): real
    requires n > 0
  {
    total / (n as real)
  }

  /** The summary row named `c` of a non-empty group of rows: four sums, the mean rate and the count. */
  function SummaryOf(c: string, g: seq<Record>): Summary
    requires g != []
  {
    Summary(c, Sum(g, InrPaid), Sum(g, UsdReceived), Sum(g, ProfitUsd), Sum(g, ProfitInr),
            Mean(Sum(g, RealizedRate), |g|), |g|)
  }

  /** The summary row of a customer that has at least one row. */
  function Summarize(rows: seq<Record>, c: string): (s: Summary)
    requires c in Customers(rows)
    ensures s.customer == c && s.txns >= 1
  {
    OfCustomerMembers(rows, c);
    SummaryOf(c, OfCustomer(rows, c))
  }

  /** The customers of the ledger, each once, in the order pandas sorts them. */
  function SortedCustomers(rows: seq<Record>): (keys: seq<string>)
    ensures StrictlySorted(keys)
    ensures forall c :: c in keys <==> c in Customers(rows)
  {
    if rows == [] then []
    else
      var keys := Insert(SortedCustomers(rows[1..]), rows[0].customer);
      assert forall c :: c in Customers(rows) <==> c in Customers(rows[1..]) || c == rows[0].customer by {
        assert rows == [rows[0]] + rows[1..];
      }
      keys
  }

  function SummarizeAll(rows: seq<Record>, keys: seq<string>): (g: seq<Summary>)
    requires forall k :: k in keys ==> k in Customers(rows)
    ensures |g| == |keys|
    ensures forall i :: 0 <= i < |keys| ==> g[i] == Summarize(rows, keys[i])
  {
    if keys == [] then [] else [Summarize(rows, keys[0])] + SummarizeAll(rows, keys[1..])
  }

  /**
   * `df.groupby("customer").agg(...)`: one row per distinct customer, in sorted
   * order, each the summary of that customer's rows.
   */
  function GroupByCustomer(rows: seq<Record>): (g: seq<Summary>)
    ensures forall i, j :: 0 <= i < j < |g| ==> Below(g[i].customer, g[j].customer)
    ensures forall c :: c in Customers(rows) <==> exists i :: 0 <= i < |g| && g[i].customer == c
    ensures forall i :: 0 <= i < |g| ==> g[i].customer in Customers(rows) && g[i] == Summarize(rows, g[i].customer)
  {
    var keys := SortedCustomers(rows);
    var g := SummarizeAll(rows, keys);
    KeyedSummaries(rows, keys, g);
    g
  }

  lemma KeyedSummaries(rows: seq<Record>, keys: seq<string>, g: seq<Summary>)
    requires StrictlySorted(keys)
    requires forall c :: c in keys <==> c in Customers(rows)
    requires |g| == |keys|
    requires forall i :: 0 <= i < |keys| ==> g[i] == Summarize(rows, keys[i])
    ensures forall i :: 0 <= i < |g| ==> g[i].customer == keys[i] && g[i].customer in Customers(rows)
    ensures forall i, j :: 0 <= i < j < |g| ==> Below(g[i].customer, g[j].customer)
    ensures forall c :: c in Customers(rows) <==> exists i :: 0 <= i < |g| && g[i].customer == c
  {
    forall i | 0 <= i < |g| ensures g[i].customer == keys[i] && g[i].customer in Customers(rows) {
      assert keys[i] in keys;
    }
    forall c | c in Customers(rows) ensures exists i :: 0 <= i < |g| && g[i].customer == c {
      assert c in keys;
      var i :| 0 <= i < |keys| && keys[i] == c;
      assert g[i].customer == c;
    }
  }

  /** The summary has exactly one row per distinct customer. */
  lemma {:induction false} GroupRowPerCustomer(rows: seq<Record>)
    ensures |GroupByCustomer(rows)| == |Customers(rows)|
    ensures forall i, j :: 0 <= i < j < |GroupByCustomer(rows)| ==>
              GroupByCustomer(rows)[i].customer != GroupByCustomer(rows)[j].customer
  {
    var keys := SortedCustomers(rows);
    SortedIsDistinct(keys);
    DistinctCardinality(keys);
    assert (set k | k in keys) == Customers(rows);
  }

  /** Totals of summary rows. */
  function SummaryTotal(g: seq<Summary>, col: Column): real
    requires Summed(col)
  {
    if g == [] then 0.0 else SummaryAmount(g[0], col) + SummaryTotal(g[1..], col)
  }

  function TxnsTotal(g: seq<Summary>): nat
  {
    if g == [] then 0 else g[0].txns + TxnsTotal(g[1..])
  }

  /** Column totals of each listed customer's rows, added up. */
  function KeySum(rows: seq<Record>, keys: seq<string>, col: Column): real
  {
    if keys == [] then 0.0 else Sum(OfCustomer(rows, keys[0]), col) + KeySum(rows, keys[1..], col)
  }

  function KeyCount(rows: seq<Record>, keys: seq<string>): nat
  {
    if keys == [] then 0 else |OfCustomer(rows, keys[0])| + KeyCount(rows, keys[1..])
  }

  lemma {:induction false} KeyTotalsOfEmpty(keys: seq<string>, col: Column)
    ensures KeySum([], keys, col) == 0.0 && KeyCount([], keys) == 0
  {
    if keys != [] {
      KeyTotalsOfEmpty(keys[1..], col);
    }
  }

  lemma {:induction false} DistinctTail(keys: seq<string>)
    requires Distinct(keys) && keys != []
    ensures Distinct(keys[1..]) && keys[0] !in keys[1..]
  {
    forall i, j | 0 <= i < j < |keys[1..]| ensures keys[1..][i] != keys[1..][j] {
      assert keys[1..][i] == keys[i + 1] && keys[1..][j] == keys[j + 1];
    }
    forall j | 0 <= j < |keys[1..]| ensures keys[1..][j] != keys[0] {
      assert keys[1..][j] == keys[j + 1];
    }
  }

  /** Prepending a row adds its amount to the group of its customer only. */
  lemma {:induction false} KeyTotalsCons(r: Record, rest: seq<Record>, keys: seq<string>, col: Column)
    requires Distinct(keys)
    ensures KeySum([r] + rest, keys, col) == (if r.customer in keys then Amount(r, col) else 0.0) + KeySum(rest, keys, col)
    ensures KeyCount([r] + rest, keys) == (if r.customer in keys then 1 else 0) + KeyCount(rest, keys)
  {
    if keys != [] {
      DistinctTail(keys);
      KeyTotalsCons(r, rest, keys[1..], col);
      var rows := [r] + rest;
      assert rows[1..] == rest;
      var g := OfCustomer(rows, keys[0]);
      if r.customer == keys[0] {
        assert g == [r] + OfCustomer(rest, keys[0]);
        assert Sum(g, col) == Amount(r, col) + Sum(OfCustomer(rest, keys[0]), col);
      } else {
        assert g == OfCustomer(rest, keys[0]);
      }
    }
  }

  /**
   * Grouping partitions the ledger: over a duplicate-free list of keys that
   * covers every customer, the per-customer totals add up to the column total
   * and the per-customer counts to the number of rows.
   */
  lemma {:induction false} Partition(rows: seq<Record>, keys: seq<string>, col: Column)
    requires Distinct(keys)
    requires forall c :: c in Customers(rows) ==> c in keys
    ensures KeySum(rows, keys, col) == Sum(rows, col)
    ensures KeyCount(rows, keys) == |rows|
  {
    if rows == [] {
      KeyTotalsOfEmpty(keys, col);
    } else {
      var rest := rows[1..];
      assert rows == [rows[0]] + rest;
      assert forall c :: c in Customers(rest) ==> c in Customers(rows) by {
        forall c | c in Customers(rest) ensures c in Customers(rows) {
          var r :| r in rest && r.customer == c;
          assert r in rows;
        }
      }
      Partition(rest, keys, col);
      KeyTotalsCons(rows[0], rest, keys, col);
    }
  }

  lemma {:induction false} SummarizeAllTotals(rows: seq<Record>, keys: seq<string>, col: Column)
    requires forall k :: k in keys ==> k in Customers(rows)
    requires Summed(col)
    ensures SummaryTotal(SummarizeAll(rows, keys), col) == KeySum(rows, keys, col)
    ensures TxnsTotal(SummarizeAll(rows, keys)) == KeyCount(rows, keys)
  {
    if keys != [] {
      SummarizeAllTotals(rows, keys[1..], col);
      var g := SummarizeAll(rows, keys);
      assert g[1..] == SummarizeAll(rows, keys[1..]);
    }
  }

  /**
   * The summary's `txns` add up to the number of ledger rows, and each summed
   * column adds up to that column's ledger total.
   */
  lemma SummaryAddsUp(rows: seq<Record>, col: Column)
    requires Summed(col)
    ensures TxnsTotal(GroupByCustomer(rows)) == |rows|
    ensures SummaryTotal(GroupByCustomer(rows), col) == Sum(rows, col)
  {
    var keys := SortedCustomers(rows);
    SortedIsDistinct(keys);
    SummarizeAllTotals(rows, keys, col);
    Partition(rows, keys, col);
  }

  /** A customer with a single row is summarised by that row's own values. */
  lemma SingleTransactionSummary(rows: seq<Record>, r: Record)
    requires OfCustomer(rows, r.customer) == [r]
    ensures r.customer in Customers(rows)
    ensures Summarize(rows, r.customer)
            == Summary(r.customer, r.inrPaid, r.usdReceived, r.profitUsd, r.profitInr, r.realizedRate, 1)
  {
    OfCustomerMembers(rows, r.customer);
    SumOne(r, InrPaid);
    SumOne(r, UsdReceived);
    SumOne(r, ProfitUsd);
    SumOne(r, ProfitInr);
    SumOne(r, RealizedRate);
    assert r.realizedRate / 1.0 == r.realizedRate;
  }

  /** A one-row ledger has a one-row summary equal to that transaction. */
  lemma SingleTransactionLedger(r: Record)
    ensures GroupByCustomer([r])
            == [Summary(r.customer, r.inrPaid, r.usdReceived, r.profitUsd, r.profitInr, r.realizedRate, 1)]
  {
    var g := GroupByCustomer([r]);
    GroupRowPerCustomer([r]);
    assert Customers([r]) == {r.customer};
    assert [r][1..] == [];
    assert OfCustomer([r], r.customer) == [r];
    SingleTransactionSummary([r], r);
    assert g[0].customer == r.customer;
  }

  lemma SumOne(r: Record, col: Column)
    ensures Sum([r], col) == Amount(r, col)
  {
    assert [r][1..] == [];
  }

  lemma {:induction false} SumConcat(a: seq<Record>, b: seq<Record>, col: Column)
    ensures Sum(a + b, col) == Sum(a, col) + Sum(b, col)
  {
    if a == [] {
      assert a + b == b;
    } else {
      assert (a + b)[0] == a[0];
      assert (a + b)[1..] == a[1..] + b;
      SumConcat(a[1..], b, col);
    }
  }

  lemma {:induction false} OfCustomerAppend(rows: seq<Record>, r: Record, c: string)
    ensures OfCustomer(rows + [r], c) == OfCustomer(rows, c) + (if r.customer == c then [r] else [])
  {
    var tail := if r.customer == c then [r] else [];
    if rows == [] {
      assert [r][1..] == [];
      assert rows + [r] == [r];
    } else {
      var head := if rows[0].customer == c then [rows[0]] else [];
      assert (rows + [r])[0] == rows[0];
      assert (rows + [r])[1..] == rows[1..] + [r];
      OfCustomerAppend(rows[1..], r, c);
      calc {
        OfCustomer(rows + [r], c);
        head + OfCustomer(rows[1..] + [r], c);
        head + (OfCustomer(rows[1..], c) + tail);
        (head + OfCustomer(rows[1..], c)) + tail;
        OfCustomer(rows, c) + tail;
      }
    }
  }

  /** The appended row's own customer is summarised over its old rows plus the new one. */
  lemma AppendOwnCustomer(rows: seq<Record>, r: Record)
    ensures r.customer in Customers(rows + [r])
    ensures Summarize(rows + [r], r.customer) == SummaryOf(r.customer, OfCustomer(rows, r.customer) + [r])
  {
    assert r in rows + [r];
    OfCustomerAppend(rows, r, r.customer);
  }

  /** One more transaction, its amounts added, its rate averaged in. */
  lemma SummaryOfAppend(c: string, g: seq<Record>, r: Record)
    ensures SummaryOf(c, g + [r])
            == Summary(c,
                       Sum(g, InrPaid) + r.inrPaid, Sum(g, UsdReceived) + r.usdReceived,
                       Sum(g, ProfitUsd) + r.profitUsd, Sum(g, ProfitInr) + r.profitInr,
                       Mean(Sum(g, RealizedRate) + r.realizedRate, |g| + 1), |g| + 1)
  {
    AppendSum(g, r, InrPaid);
    AppendSum(g, r, UsdReceived);
    AppendSum(g, r, ProfitUsd);
    AppendSum(g, r, ProfitInr);
    AppendSum(g, r, RealizedRate);
  }

  lemma AppendSum(g: seq<Record>, r: Record, col: Column)
    ensures Sum(g + [r], col) == Sum(g, col) + Amount(r, col)
  {
    SumConcat(g, [r], col);
    SumOne(r, col);
  }

  /**
   * Adding a transaction leaves every other customer's summary row as it was,
   * and adds one transaction and its amounts to its own customer's row.
   */
  lemma AppendUpdatesOneCustomer(rows: seq<Record>, r: Record, c: string)
    requires c in Customers(rows + [r])
    ensures c != r.customer ==> c in Customers(rows) && Summarize(rows + [r], c) == Summarize(rows, c)
    ensures c == r.customer ==>
              Summarize(rows + [r], c).txns == |OfCustomer(rows, c)| + 1
              && Summarize(rows + [r], c).inrPaid == Sum(OfCustomer(rows, c), InrPaid) + r.inrPaid
              && Summarize(rows + [r], c).usdReceived == Sum(OfCustomer(rows, c), UsdReceived) + r.usdReceived
              && Summarize(rows + [r], c).profitUsd == Sum(OfCustomer(rows, c), ProfitUsd) + r.profitUsd
              && Summarize(rows + [r], c).profitInr == Sum(OfCustomer(rows, c), ProfitInr) + r.profitInr
              && Summarize(rows + [r], c).realizedRate
                 == Mean(Sum(OfCustomer(rows, c), RealizedRate) + r.realizedRate, |OfCustomer(rows, c)| + 1)
  {
    OfCustomerAppend(rows, r, c);
    if c == r.customer {
      AppendOwnCustomer(rows, r);
      SummaryOfAppend(c, OfCustomer(rows, c), r);
    } else {
      assert OfCustomer(rows + [r], c) == OfCustomer(rows, c);
    }
  }

  /** Deleting a row takes exactly its amount off each column total. */
  lemma DeleteReducesTotal(rows: seq<Record>, i: nat, col: Column)
    requires i < |rows|
    ensures Sum(LedgerStore.RemoveAt(rows, i), col) == Sum(rows, col) - Amount(rows[i], col)
  {
    assert rows == rows[..i] + ([rows[i]] + rows[i + 1..]);
    SumConcat(rows[..i], [rows[i]] + rows[i + 1..], col);
    SumConcat([rows[i]], rows[i + 1..], col);
    SumConcat(rows[..i], rows[i + 1..], col);
    assert [rows[i]][1..] == [];
  }

  // ----- the result cells -----

  /** The "Result" of a ledger row in the transaction list: its dollar profit at its own rate. */
  function RowResult(r: Record): (s: Shown)
    ensures Signed(s) == r.profitUsd && s.usd >= 0.0
    ensures s.outcome == Profit <==> r.profitUsd >= 0.0
    ensures s.inr == s.usd * r.realizedRate
  {
    FormatProfit(r.profitUsd, r.realizedRate)
  }

  /** For a row the app derived, with a rate the form allows, the shown rupee figure is the magnitude of its `profit_inr`. */
  lemma RowResultMatchesProfitInr(r: Record)
    requires Consistent(r) && r.realizedRate >= 0.0
    ensures RowResult(r).inr == if r.profitInr >= 0.0 then r.profitInr else -r.profitInr
  {
    ConsistentProfits(r);
    PricedAtOwnRate(r.profitUsd, r.profitInr, r.realizedRate);
  }

  /**
   * In a ledger whose rows were all derived by the calculator, every row with a
   * rate the form allows shows the magnitude of its own `profit_inr`.
   */
  lemma LedgerRowResults(ledger: LedgerStore.Ledger)
    requires ledger.Valid()
    ensures forall r :: r in ledger.rows && r.realizedRate >= 0.0 ==>
              RowResult(r).inr == if r.profitInr >= 0.0 then r.profitInr else -r.profitInr
  {
    forall r | r in ledger.rows && r.realizedRate >= 0.0
      ensures RowResult(r).inr == if r.profitInr >= 0.0 then r.profitInr else -r.profitInr
    {
      RowResultMatchesProfitInr(r);
    }
  }

  /** The "Result" of a summary row: its summed dollar profit priced at its mean rate. */
  function CustomerResult(g: Summary): (s: Shown)
    ensures Signed(s) == g.profitUsd && s.usd >= 0.0
    ensures s.outcome == Profit <==> g.profitUsd >= 0.0
    ensures s.inr == s.usd * g.realizedRate
  {
    FormatProfit(g.profitUsd, g.realizedRate)
  }

  lemma Distribute(a: real, b: real, rate: real)
    ensures a * rate + b * rate == (a + b) * rate
  {
  }

  /** A row at the given rate whose rupee profit is its dollar profit at that rate. */
  predicate PricedAt(r: Record, rate: real)
  {
    r.realizedRate == rate && r.profitInr == r.profitUsd * rate
  }

  lemma {:induction false} UniformRateSums(g: seq<Record>, rate: real)
    requires forall r :: r in g ==> PricedAt(r, rate)
    ensures Sum(g, ProfitInr) == Sum(g, ProfitUsd) * rate
    ensures Sum(g, RealizedRate) == (|g| as real) * rate
  {
    if g != [] {
      var rest := g[1..];
      forall r | r in rest ensures PricedAt(r, rate) {
        assert r in g;
      }
      UniformRateSums(rest, rate);
      assert g[0] in g;
      var usdHead, usdRest := g[0].profitUsd, Sum(rest, ProfitUsd);
      var inrHead, inrRest := g[0].profitInr, Sum(rest, ProfitInr);
      assert inrHead == usdHead * rate && inrRest == usdRest * rate;
      Distribute(usdHead, usdRest, rate);
      Distribute(1.0, |rest| as real, rate);
      assert Sum(g, ProfitInr) == inrHead + inrRest;
      assert Sum(g, ProfitUsd) == usdHead + usdRest;
      assert Sum(g, RealizedRate) == rate + Sum(rest, RealizedRate);
    }
  }

  lemma UniformGroup(rows: seq<Record>, c: string, rate: real)
    requires forall r :: r in rows && r.customer == c ==> r.realizedRate == rate && r.profitInr == r.profitUsd * rate
    ensures forall r :: r in OfCustomer(rows, c) ==> PricedAt(r, rate)
  {
    OfCustomerMembers(rows, c);
  }

  lemma PricedAtOwnRate(profitUsd: real, profitInr: real, rate: real)
    requires rate >= 0.0 && profitInr == profitUsd * rate
    ensures FormatProfit(profitUsd, rate).inr == if profitInr >= 0.0 then profitInr else -profitInr
  {
    if profitUsd >= 0.0 {
      assert profitInr >= 0.0;
    } else if rate == 0.0 {
      assert profitInr == 0.0;
    } else {
      assert profitInr < 0.0;
    }
  }

  lemma MeanOfUniform(total: real, n: nat, rate: real)
    requires n > 0 && total == (n as real) * rate
    ensures Mean(total, n) == rate
  {
  }

  /**
   * When all of a customer's rows share one non-negative rate, the rupee figure
   * of its result equals the magnitude of its summed `profit_inr`.
   */
  lemma UniformRateResult(rows: seq<Record>, c: string, rate: real)
    requires c in Customers(rows)
    requires rate >= 0.0
    requires forall r :: r in rows && r.customer == c ==> r.realizedRate == rate && r.profitInr == r.profitUsd * rate
    ensures var s := Summarize(rows, c);
            CustomerResult(s).inr == (if s.profitInr >= 0.0 then s.profitInr else -s.profitInr)
  {
    var g := OfCustomer(rows, c);
    UniformGroup(rows, c, rate);
    UniformRateSums(g, rate);
    var s := Summarize(rows, c);
    assert s.txns == |g| && s.realizedRate == Mean(Sum(g, RealizedRate), |g|);
    assert s.profitUsd == Sum(g, ProfitUsd) && s.profitInr == Sum(g, ProfitInr);
    MeanOfUniform(Sum(g, RealizedRate), |g|, rate);
    PricedAtOwnRate(s.profitUsd, s.profitInr, rate);
  }

  /**
   * With two rates the mean-rate pricing departs from the summed rupee profit:
   * +10 dollars at 80 and -10 dollars at 90 show a zero result, while the rows'
   * rupee profits add up to -100.
   */
  lemma MixedRateResult(d: Date)
    ensures var rows := [NewRecord(d, "A", 8000.0, 110.0, 80.0), NewRecord(d, "A", 9000.0, 90.0, 90.0)];
            "A" in Customers(rows)
            && CustomerResult(Summarize(rows, "A")).inr == 0.0
            && Summarize(rows, "A").profitInr == -100.0
  {
    var r1 := NewRecord(d, "A", 8000.0, 110.0, 80.0);
    var r2 := NewRecord(d, "A", 9000.0, 90.0, 90.0);
    var rows := [r1, r2];
    assert r1.profitUsd == 10.0 && r1.profitInr == 800.0;
    assert r2.profitUsd == -10.0 && r2.profitInr == -900.0;
    assert rows[1..] == [r2] && [r2][1..] == [];
    assert OfCustomer([r2], "A") == [r2];
    assert OfCustomer(rows, "A") == rows;
    assert rows == [r1] + [r2];
    SumConcat([r1], [r2], ProfitUsd);
    SumConcat([r1], [r2], ProfitInr);
    SumConcat([r1], [r2], RealizedRate);
    SumOne(r1, ProfitUsd);
    SumOne(r2, ProfitUsd);
    SumOne(r1, ProfitInr);
    SumOne(r2, ProfitInr);
    SumOne(r1, RealizedRate);
    SumOne(r2, RealizedRate);
    assert Sum(rows, ProfitUsd) == 0.0;
    assert Sum(rows, ProfitInr) == -100.0;
  }

  // ----- the overall summary -----

  /** The overall figures: three totals and the average rate, if there is one. */
  datatype Overall = Overall(totalInr: real, totalUsd: real, totalProfitUsd: real, avgRate: Option<real>)

  /**
   * The average realized rate is the total rupees over the total dollars, and
   * exists only when the dollar total is positive.
   */
  function OverallSummary(rows: seq<Record>): (o: Overall)
    ensures o.avgRate.Some? <==> o.totalUsd > 0.0
    ensures o.avgRate.Some? ==> o.avgRate.value * o.totalUsd == o.totalInr
  {
    var totalInr := Sum(rows, InrPaid);
    var totalUsd := Sum(rows, UsdReceived);
    Overall(totalInr, totalUsd, Sum(rows, ProfitUsd),
            if totalUsd > 0.0 then Some(totalInr / totalUsd) else None)
  }

  /**
   * The rate the overall result is priced at: the average when there is one
   * and it is not zero (a zero or absent average is falsy), otherwise 1.
   */
  function ResultRate(avgRate: Option<real>): (rate: real)
    ensures rate != 0.0
    ensures avgRate.Some? && avgRate.value != 0.0 ==> rate == avgRate.value
    ensures avgRate.None? || avgRate.value == 0.0 ==> rate == 1.0
  {
    if avgRate.Some? && avgRate.value != 0.0 then avgRate.value else 1.0
  }

  /** The "Result" metric of the overall summary. */
  function OverallResult(rows: seq<Record>): (s: Shown)
    ensures var o := OverallSummary(rows);
            Signed(s) == o.totalProfitUsd
            && s.usd >= 0.0
            && (s.outcome == Profit <==> o.totalProfitUsd >= 0.0)
            && (o.totalUsd <= 0.0 || o.totalInr == 0.0 ==> s.inr == s.usd)
            && (o.totalUsd > 0.0 && o.totalInr != 0.0 ==> s.inr * o.totalUsd == s.usd * o.totalInr)
  {
    var o := OverallSummary(rows);
    FormatProfit(o.totalProfitUsd, ResultRate(o.avgRate))
  }

  /** The overall totals are the sums of the per-customer summary columns. */
  lemma OverallMatchesSummary(rows: seq<Record>)
    ensures var o := OverallSummary(rows);
            var g := GroupByCustomer(rows);
            o.totalInr == SummaryTotal(g, InrPaid)
            && o.totalUsd == SummaryTotal(g, UsdReceived)
            && o.totalProfitUsd == SummaryTotal(g, ProfitUsd)
  {
    SummaryAddsUp(rows, InrPaid);
    SummaryAddsUp(rows, UsdReceived);
    SummaryAddsUp(rows, ProfitUsd);
  }
}
