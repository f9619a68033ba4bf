/**
 * The choice `format_profit` makes for a profit figure (app.py): which label
 * it shows and which dollar and rupee amounts it prints beside it. The text
 * rendering itself (currency signs, separators, two decimals) is not modelled.
 */
module Formatting {

  datatype Label = Profit | ToCollect

  /** What the "Result" cell shows: a label, a dollar amount and its rupee value. */
  datatype Shown = Shown(outcome: Label, usd: real, inr: real)

  /** The signed profit a shown result stands for. */
  function Signed(s: Shown): real
  {
    if s.outcome == Profit then s.usd else -s.usd
  }

  /**
   * A non-negative profit is shown as "Profit", a negative one as "To Collect"
   * with its magnitude; the rupee figure is the shown dollar amount at `rate`.
   */
  function FormatProfit(profitUsd: real, rate: real): (s: Shown)
    ensures s.outcome == Profit <==> profitUsd >= 0.0
    ensures s.usd >= 0.0
    ensures s.usd == profitUsd || s.usd == -profitUsd
    ensures s.inr == s.usd * rate
    ensures Signed(s) == profitUsd
  {
    if profitUsd >= 0.0 then Shown(Profit, profitUsd, profitUsd * rate)
    else Shown(ToCollect, -profitUsd, -profitUsd * rate)
  }
}
