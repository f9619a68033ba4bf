/**
 * The transaction calculator of the ledger (`add_transaction` in app.py):
 * from the rupees paid, the dollars received and the realized rate it derives
 * the dollars that were expected and the profit in both currencies.
 * Amounts and rates are exact reals.
 */
module Calculator {

  /** The calendar date a transaction is entered under. */
  datatype Date = Date(year: int, month: int, day: int)

  /** One ledger row, with the columns of the persisted table in their order. */
  datatype Record = Record(
    date: Date,
    customer: string,
    inrPaid: real,
    usdReceived: real,
    realizedRate: real,
    profitUsd: real,
    profitInr: real)

  /**
   * The dollars the rupees paid should have bought at the realized rate.
   * A rate that is not positive expects nothing, so nothing is divided by it.
   */
  function ExpectedUsd(inrPaid: real, realizedRate: real): (e: real)
    ensures realizedRate > 0.0 ==> e * realizedRate == inrPaid
    ensures realizedRate <= 0.0 ==> e == 0.0
  {
    if realizedRate > 0.0 then inrPaid / realizedRate else 0.0
  }

  /** Dollars received beyond what was expected; negative when short. */
  function ProfitUsd(inrPaid: real, usdReceived: real, realizedRate: real): (p: real)
    ensures realizedRate > 0.0 ==> p * realizedRate == usdReceived * realizedRate - inrPaid
    ensures realizedRate <= 0.0 ==> p == usdReceived
  {
    var e := ExpectedUsd(inrPaid, realizedRate);
    assert (usdReceived - e) * realizedRate == usdReceived * realizedRate - e * realizedRate;
    usdReceived - e
  }

  /** The dollar profit valued in rupees at the realized rate. */
  function ProfitInr(inrPaid: real, usdReceived: real, realizedRate: real): (q: real)
    ensures realizedRate > 0.0 ==> q == usdReceived * realizedRate - inrPaid
    ensures realizedRate <= 0.0 ==> q == usdReceived * realizedRate
    ensures realizedRate == 0.0 ==> q == 0.0
  {
    ProfitUsd(inrPaid, usdReceived, realizedRate) * realizedRate
  }

  /** A row whose two profit columns are the ones derived from its inputs. */
  predicate Consistent(r: Record)
  {
    && r.profitUsd == ProfitUsd(r.inrPaid, r.usdReceived, r.realizedRate)
    && r.profitInr == ProfitInr(r.inrPaid, r.usdReceived, r.realizedRate)
  }

  /** The row `add_transaction` builds from the form's values. */
  function NewRecord(date: Date, customer: string, inrPaid: real, usdReceived: real, realizedRate: real): (r: Record)
    ensures r.date == date && r.customer == customer
    ensures r.inrPaid == inrPaid && r.usdReceived == usdReceived && r.realizedRate == realizedRate
    ensures Consistent(r)
  {
    Record(date, customer, inrPaid, usdReceived, realizedRate,
           ProfitUsd(inrPaid, usdReceived, realizedRate),
           ProfitInr(inrPaid, usdReceived, realizedRate))
  }

  /**
   * In every row, whatever its rate, the rupee profit is the dollar profit
   * times the rate; with a positive rate the dollar profit is what was received
   * less the rupees paid converted at that rate.
   */
  lemma ConsistentProfits(r: Record)
    requires Consistent(r)
    ensures r.profitInr == r.profitUsd * r.realizedRate
    ensures r.realizedRate > 0.0 ==> r.profitUsd == r.usdReceived - r.inrPaid / r.realizedRate
    ensures r.realizedRate <= 0.0 ==> r.profitUsd == r.usdReceived
  {
  }

  /**
   * With a positive rate a row shows a profit exactly when the dollars received
   * are worth at least the rupees paid, and both profit columns agree in sign.
   */
  lemma ProfitSign(inrPaid: real, usdReceived: real, realizedRate: real)
    requires realizedRate > 0.0
    ensures ProfitUsd(inrPaid, usdReceived, realizedRate) >= 0.0 <==> usdReceived * realizedRate >= inrPaid
    ensures ProfitInr(inrPaid, usdReceived, realizedRate) >= 0.0 <==> ProfitUsd(inrPaid, usdReceived, realizedRate) >= 0.0
  {
    var p := ProfitUsd(inrPaid, usdReceived, realizedRate);
    if p >= 0.0 {
      assert p * realizedRate >= 0.0;
    } else {
      assert p * realizedRate < 0.0;
    }
  }

  /** 83000 rupees for 1000 dollars at 83: the break-even case. */
  lemma BreakEvenExample(date: Date, customer: string)
    ensures var r := NewRecord(date, customer, 83000.0, 1000.0, 83.0);
            ExpectedUsd(83000.0, 83.0) == 1000.0 && r.profitUsd == 0.0 && r.profitInr == 0.0
  {
  }

  /** 80000 rupees for 1000 dollars at 83: 80000/83 dollars expected, a 3000-rupee profit. */
  lemma ProfitExample(date: Date, customer: string)
    ensures var r := NewRecord(date, customer, 80000.0, 1000.0, 83.0);
            ExpectedUsd(80000.0, 83.0) == 80000.0 / 83.0
            && r.profitUsd == 3000.0 / 83.0 && r.profitInr == 3000.0
  {
  }
}
