# Customer ledger: a verified model of its core

The ledger app records currency-exchange transactions. For each one it stores
the rupees (INR) paid, the dollars (USD) received and the realized rate (₹ per $)
for a customer. It derives the expected dollars and the profit in both
currencies. It keeps the rows in one table and shows per-customer and overall
summaries. This project models that core in Dafny:

- `Calculator` (calculator.dfy): the ledger row and the profit arithmetic of
  `add_transaction`. A rate that is not positive expects no dollars, so nothing
  is divided by it.
- `Formatting` (formatting.dfy): the choice `format_profit` makes. A profit is
  labelled "Profit" or "To Collect", with a dollar amount that is never negative
  and its rupee value at a given rate.
- `LedgerStore` (ledger_store.dfy): the table as a class holding a
  `seq<Record>`. It starts empty, `AddTransaction` appends the derived row, and
  `DeleteAt` drops the row at a position. Its invariant is that every row
  carries the profits derived from its own inputs.
- `StringOrder` (string_order.dfy): the order in which `groupby` lists string
  keys (lexicographic by code point), and a sorted list of distinct keys.
- `Aggregator` (aggregator.dfy): the groupby by customer with four column sums,
  the mean rate and the count; the overall totals and average rate; and the
  "Result" cells.
- `Wrappers` (wrappers.dfy): `Option`, standing for Python's `None`.

Amounts and rates are exact `real`s. A transaction of 80000 rupees for 1000
dollars at rate 83 therefore has a rupee profit of exactly 3000
(`Calculator.ProfitExample`), and the row's "Result" shows that 3000 rupees
(`Aggregator.RowResultMatchesProfitInr`).

The per-customer "Result" is priced with the customer's mean rate, not with
the summed `profit_inr` (app.py:113, 117). The two agree when all of the
customer's rows share one rate (`Aggregator.UniformRateResult`). They can
differ otherwise (`Aggregator.MixedRateResult`). The overall "Result" is priced with
`avg if avg else 1`. That falls back to rate 1 both when there is no average
and when the average is 0, i.e. nothing paid but dollars received
(`Aggregator.ResultRate`).

## Model

| member | source | states |
|---|---|---|
| `Calculator.ExpectedUsd` | app.py:19 | with a positive rate the expected dollars times the rate give back the rupees paid; otherwise nothing is expected |
| `Calculator.ProfitUsd` | app.py:19-20 | with a positive rate the dollar profit, valued at the rate, is the received dollars' value less the rupees paid; otherwise it is all the dollars received |
| `Calculator.ProfitInr` | app.py:19-21 | with a positive rate the rupee profit is the received dollars' value less the rupees paid; with a non-positive rate it is the received dollars times the rate, so 0 at rate 0 |
| `Calculator.NewRecord` | app.py:18-30 | the new row holds the given date, customer, amounts and rate, and profits derived from them |
| `Calculator.ConsistentProfits` | app.py:19-21 | in a derived row `profit_inr = profit_usd × rate`; `profit_usd = usd − inr/rate` for a positive rate and `= usd` otherwise |
| `Calculator.ProfitSign` | app.py:19-21 | with a positive rate there is a profit exactly when the dollars received are worth at least the rupees paid, and both profit columns share their sign |
| `Calculator.BreakEvenExample` | app.py:18-21 | 83000 ₹ for 1000 $ at 83 expects 1000 $ and makes zero profit in both currencies |
| `Calculator.ProfitExample` | app.py:18-21 | 80000 ₹ for 1000 $ at 83 expects 80000/83 $ and makes 3000/83 $, i.e. 3000 ₹ |
| `Formatting.FormatProfit` | app.py:41-48 | label "Profit" exactly when the profit is non-negative; the dollar amount is the profit's magnitude and never negative; the rupee amount is that dollar amount times the rate; label and amount give back the signed profit |
| `LedgerStore.RemoveAt` | app.py:86 | one row shorter; rows before the position unchanged, rows after it moved up by one |
| `LedgerStore.RemoveAtMultiset` | app.py:86 | a delete loses exactly the deleted row and keeps every other row |
| `LedgerStore.RemoveOnly` | app.py:86 | deleting the only row leaves an empty ledger |
| `LedgerStore.Ledger.constructor` | app.py:9-13 | with no saved table the ledger has no rows |
| `LedgerStore.Ledger.AddTransaction` | app.py:18-33 | the ledger gains exactly one row, the derived record, at the end; earlier rows are unchanged and in order; every row stays consistent |
| `LedgerStore.Ledger.DeleteAt` | app.py:86-87 | an existing position is removed (rows before it, then rows after it), losing exactly that row; a position with no row fails and leaves the ledger unchanged; every row stays consistent |
| `StringOrder.Insert` | app.py:108 | adding a customer name to a sorted list of distinct names keeps it sorted and distinct, with exactly the old names plus the new one |
| `Aggregator.OfCustomerMembers` | app.py:108 | a customer's group holds exactly the ledger rows with that name, and it is non-empty exactly for the customers in the ledger |
| `Aggregator.Summarize` | app.py:108-115 | a customer's summary row carries its name and counts at least one transaction |
| `Aggregator.SortedCustomers` | app.py:108 | the group keys are the ledger's distinct customer names, strictly sorted |
| `Aggregator.GroupByCustomer` | app.py:108-115 | summary rows sorted strictly by customer; a customer has a row exactly when it appears in the ledger; each row sums, averages and counts that customer's rows |
| `Aggregator.GroupRowPerCustomer` | app.py:108-115 | the summary has as many rows as there are distinct customers, and no customer twice |
| `Aggregator.Partition` | app.py:108-115 | over distinct keys covering every customer, per-customer totals add up to the column total and per-customer counts to the row count |
| `Aggregator.SummaryAddsUp` | app.py:108-132 | summing `txns` over the summary gives the ledger length; summing any summed column gives its overall total |
| `Aggregator.SingleTransactionSummary` | app.py:108-115 | a customer with one transaction gets a summary equal to that row's values, with `txns` 1 and mean rate equal to its rate |
| `Aggregator.SingleTransactionLedger` | app.py:108-115 | a one-row ledger summarises to exactly one row equal to that transaction |
| `Aggregator.AppendUpdatesOneCustomer` | app.py:22-33 | adding a transaction leaves every other customer's summary unchanged and adds one transaction and its amounts to its own customer's, whose mean rate becomes the old rate sum plus the new rate over the new count |
| `Aggregator.DeleteReducesTotal` | app.py:86 | deleting a row takes exactly its amount off each column total |
| `Aggregator.RowResultMatchesProfitInr` | app.py:78-81 | in the transaction list, a derived row with a non-negative rate shows the magnitude of its own `profit_inr` |
| `Aggregator.RowResult` | app.py:78-81 | a row's result stands for its own dollar profit: label "Profit" exactly when that profit is non-negative, a non-negative dollar amount, and its rupee value at the row's own rate |
| `Aggregator.LedgerRowResults` | app.py:78-81 | in a ledger whose rows were all derived by the calculator, each row with a non-negative rate shows the magnitude of its own `profit_inr` |
| `Aggregator.CustomerResult` | app.py:117 | a summary row's result stands for the summed dollar profit: label "Profit" exactly when it is non-negative, a non-negative dollar amount, and its rupee value at the customer's mean rate |
| `Aggregator.UniformRateResult` | app.py:108-117 | if all of a customer's rows share one non-negative rate, the summary's rupee result is the magnitude of the summed `profit_inr` |
| `Aggregator.MixedRateResult` | app.py:108-117 | with rows at rates 80 and 90, the summary shows 0 ₹ while the summed `profit_inr` is −100 |
| `Aggregator.OverallSummary` | app.py:130-133 | the average rate exists exactly when the dollar total is positive, and then times the dollar total it gives the rupee total |
| `Aggregator.ResultRate` | app.py:139 | the overall result's rate is the average when there is one and it is non-zero, and 1 otherwise |
| `Aggregator.OverallResult` | app.py:139 | the overall result stands for the total dollar profit, labelled "Profit" exactly when that total is non-negative, with a non-negative dollar amount; priced at 1 without a non-zero average, otherwise at total rupees over total dollars |
| `Aggregator.OverallMatchesSummary` | app.py:130-132 | the overall rupee, dollar and dollar-profit totals equal the sums of the customer summary's columns |

## Left out

- Streamlit UI: the page setup, sidebar menu, form widgets, rendering and the delete and cancel buttons (app.py:53-100, 118-139). They are presentation and session state. The next line explains why the delete branch never runs. The empty-table message is left out too; the model's grouping of an empty ledger is simply empty.
- Delete confirmation: the "Yes, delete" button (app.py:85) is created only inside the branch of the "Delete" button (app.py:83), and a Streamlit button is true only on the rerun its own click starts. Clicking "Yes" therefore starts a rerun in which the outer button is false, so the branch at app.py:86-89 never runs and the app as written removes no row. `Ledger.DeleteAt` models what app.py:86-87 would do if they ran.
- File I/O: `load_data`/`save_data`, the CSV files and the download buttons (app.py:9-16, 94-100, 121-127). The ledger is the in-memory `rows` sequence, and the write-then-reload round trip is not modelled.
- CSV parsing effects on grouping: after a reload, an empty customer name and names pandas reads as missing by default ("NA", "N/A", "null", "nan", "None" and the like) read back as NaN and `groupby` drops those rows from the customer summary, while the overall totals (app.py:130-132) still count them. A blank name is the default of the customer field (app.py:62). When every non-missing name in the file is numeric, the column reads back as numbers, sorts numerically, and names that parse to the same number ("007" and "7") merge into one group; a column that also holds a non-numeric name stays strings. The model keeps every name as a string, so every row is counted. `Aggregator.SummaryAddsUp` and `Aggregator.OverallMatchesSummary` therefore describe the app only for ledgers with no blank or missing-value names.
- Floating point: amounts and rates are exact reals. IEEE rounding in division, `sum` and `mean` is not modelled.
- String rendering: the `₹`/`$` formatting with thousands separators and two decimals in `money` and `usd` (app.py:35-39) is not modelled. Neither are the `pd.isnull` path and the blanket `except` of `format_profit` (app.py:42-44, 49-50), which return an empty string. `FormatProfit` models the label and the two amounts.
- Dates: `datetime.today()` as the form default (app.py:61). The date is a plain field, and `txns` counts rows (the `date` column is never empty here).
