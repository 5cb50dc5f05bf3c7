/** The value, profit and weight arithmetic of `services/portfolio_sync.py`. */
module Portfolio {
  import opened Basics
  import opened Rounding

  datatype Holding = Holding(quantity: int, averagePrice: real, lastPrice: real, weightPct: real) {
    function CurrentValue(): real { lastPrice * quantity as real }

    function InvestedValue(): real { averagePrice * quantity as real }

    function Pnl(): real { CurrentValue() - InvestedValue() }
  }

  function ValueOf(): Holding -> real { (h: Holding) => h.CurrentValue() }

  function InvestedIn(): Holding -> real { (h: Holding) => h.InvestedValue() }

  function PnlOf(): Holding -> real { (h: Holding) => h.Pnl() }

  function WeightOf(): Holding -> real { (h: Holding) => h.weightPct }

  /** `quantize(Decimal("0.0001"))` of the share in percent, half to even. */
  function Weight(value: real, total: real): real
  {
    if total > 0.0 then QuantizeHalfEven(Share(value, total), 10000.0) else 0.0
  }

  /** `value` in percent of `total`. */
  function Share(value: real, total: real): (s: real)
    requires total > 0.0
    ensures s * total == 100.0 * value
  {
    ShareUndone(value, total);
    value / total * 100.0
  }

  lemma ShareUndone(value: real, total: real)
    requires total > 0.0
    ensures (value / total * 100.0) * total == 100.0 * value
  {
    var q := value / total;
    assert q * total == value;
    assert (q * 100.0) * total == 100.0 * (q * total);
  }

  function Weighted(hs: seq<Holding>): (ws: seq<Holding>)
    ensures |ws| == |hs|
    ensures forall i | 0 <= i < |hs| :: ws[i] == hs[i].(weightPct := Weight(hs[i].CurrentValue(), Sum(hs, ValueOf())))
  {
    var total := Sum(hs, ValueOf());
    seq(|hs|, i requires 0 <= i < |hs| => hs[i].(weightPct := Weight(hs[i].CurrentValue(), total)))
  }

  /** `sum(...)` over the holdings. */
  method Total(holdings: array<Holding>, f: Holding -> real) returns (total: real)
    ensures total == Sum(holdings[..], f)
  {
    total := 0.0;
    for n := 0 to holdings.Length
      invariant total == Sum(holdings[..n], f)
    {
      assert holdings[..n + 1] == holdings[..n] + [holdings[n]];
      SumAppend(holdings[..n], holdings[n], f);
      total := total + f(holdings[n]);
    }
    assert holdings[..holdings.Length] == holdings[..];
  }

  /** `_calculate_portfolio_weights`: writes the weight of every holding in place. */
  method CalculateWeights(holdings: array<Holding>)
    modifies holdings
    ensures holdings[..] == Weighted(old(holdings[..]))
  {
    var total := Total(holdings, ValueOf());
    ghost var before := holdings[..];
    for n := 0 to holdings.Length
      invariant forall i | 0 <= i < n :: holdings[i] == Weighted(before)[i]
      invariant forall i | n <= i < holdings.Length :: holdings[i] == before[i]
    {
      holdings[n] := holdings[n].(weightPct := Weight(holdings[n].CurrentValue(), total));
    }
  }

  // ---------------------------------------------------------------- totals

  lemma {:induction false} SumOfShares(hs: seq<Holding>, total: real)
    requires total > 0.0
    ensures Sum(hs, ShareOf(total)) == Share(Sum(hs, ValueOf()), total)
  {
    if hs != [] {
      var init, last := hs[..|hs| - 1], hs[|hs| - 1];
      SumOfShares(init, total);
      ShareAdds(Sum(init, ValueOf()), last.CurrentValue(), total);
    }
  }

  lemma ShareAdds(a: real, b: real, total: real)
    requires total > 0.0
    ensures Share(a, total) + Share(b, total) == Share(a + b, total)
  {
  }

  function ShareOf(total: real): Holding -> real
  {
    (h: Holding) => if total > 0.0 then Share(h.CurrentValue(), total) else 0.0
  }

  lemma WholeShare(total: real)
    requires total > 0.0
    ensures Share(total, total) == 100.0
  {
    var q := total / total;
    assert q * total == total;
  }

  lemma WeightError(value: real, total: real)
    requires total > 0.0
    ensures -0.00005 <= Weight(value, total) - Share(value, total) <= 0.00005
  {
    QuantizeErrors(Share(value, total), 10000.0);
  }

  lemma {:induction false} SumError(ws: seq<Holding>, hs: seq<Holding>, total: real)
    requires total > 0.0 && |ws| == |hs|
    requires forall i | 0 <= i < |hs| :: ws[i].weightPct == Weight(hs[i].CurrentValue(), total)
    ensures -0.00005 * |hs| as real <= Sum(ws, WeightOf()) - Sum(hs, ShareOf(total)) <= 0.00005 * |hs| as real
  {
    if hs != [] {
      var n := |hs| - 1;
      SumError(ws[..n], hs[..n], total);
      WeightError(hs[n].CurrentValue(), total);
    }
  }

  /** The weights add up to one hundred percent within half a unit of the last place per holding. */
  lemma WeightsSumToHundred(hs: seq<Holding>)
    requires Sum(hs, ValueOf()) > 0.0
    ensures -0.00005 * |hs| as real <= Sum(Weighted(hs), WeightOf()) - 100.0 <= 0.00005 * |hs| as real
  {
    var total := Sum(hs, ValueOf());
    SumError(Weighted(hs), hs, total);
    SumOfShares(hs, total);
    WholeShare(total);
  }

  lemma {:induction false} PartWithinTotal(hs: seq<Holding>, i: nat)
    requires i < |hs| && forall h | h in hs :: h.CurrentValue() >= 0.0
    ensures 0.0 <= hs[i].CurrentValue() <= Sum(hs, ValueOf())
  {
    var init, last := hs[..|hs| - 1], hs[|hs| - 1];
    assert forall h | h in init :: h in hs;
    assert last in hs && hs[i] in hs;
    if i < |init| {
      PartWithinTotal(init, i);
    } else if init != [] {
      PartWithinTotal(init, 0);
    }
  }

  /** Weights follow the values: a holding worth at least as much never weighs less. */
  lemma WeightsFollowValues(hs: seq<Holding>, i: nat, j: nat)
    requires i < |hs| && j < |hs| && hs[i].CurrentValue() <= hs[j].CurrentValue()
    ensures Weighted(hs)[i].weightPct <= Weighted(hs)[j].weightPct
  {
    var total := Sum(hs, ValueOf());
    if total > 0.0 {
      DivMonotone(hs[i].CurrentValue(), hs[j].CurrentValue(), total);
      QuantizeHalfEvenMonotone(Share(hs[i].CurrentValue(), total), Share(hs[j].CurrentValue(), total), 10000.0);
    }
  }

  /** With non-negative values every weight is a percentage. */
  lemma WeightsArePercentages(hs: seq<Holding>, i: nat)
    requires i < |hs| && forall h | h in hs :: h.CurrentValue() >= 0.0
    ensures 0.0 <= Weighted(hs)[i].weightPct <= 100.0
  {
    var total := Sum(hs, ValueOf());
    PartWithinTotal(hs, i);
    if total > 0.0 {
      var v := hs[i].CurrentValue();
      DivMonotone(0.0, v, total);
      DivMonotone(v, total, total);
      WholeShare(total);
      var share := Share(v, total);
      QuantizeHalfEvenMonotone(0.0, share, 10000.0);
      QuantizeHalfEvenMonotone(share, 100.0, 10000.0);
      assert QuantizeHalfEven(0.0, 10000.0) == 0.0;
      assert QuantizeHalfEven(100.0, 10000.0) == 100.0;
    }
  }

  /** Profit and loss add up: the holdings' sum to the total value minus the total invested. */
  lemma {:induction false} PnlAddsUp(hs: seq<Holding>)
    ensures Sum(hs, PnlOf()) == Sum(hs, ValueOf()) - Sum(hs, InvestedIn())
  {
    if hs != [] {
      PnlAddsUp(hs[..|hs| - 1]);
    }
  }

  /** A holding's profit is its quantity times the gain per share. */
  lemma PnlIsGainPerShare(h: Holding)
    ensures h.Pnl() == (h.lastPrice - h.averagePrice) * h.quantity as real
    ensures h.Pnl() == h.CurrentValue() - h.averagePrice * h.quantity as real
  {
  }

  /**
   * With a positive total a weight is the holding's share of it in percent, to half a unit of the
   * fourth decimal; else it is zero.
   */
  lemma WeightMeans(hs: seq<Holding>, i: nat)
    requires i < |hs|
    ensures var total, w := Sum(hs, ValueOf()), Weighted(hs)[i];
            && w == hs[i].(weightPct := w.weightPct)
            && (total <= 0.0 ==> w.weightPct == 0.0)
            && (total > 0.0 ==>
                  && -0.00005 <= w.weightPct - Share(hs[i].CurrentValue(), total) <= 0.00005
                  && hs[i].CurrentValue() == hs[i].lastPrice * hs[i].quantity as real)
  {
    var total, value := Sum(hs, ValueOf()), hs[i].CurrentValue();
    if total > 0.0 {
      WeightError(value, total);
    }
  }

  /** At an exact tie of the fourth decimal the weight goes to the even neighbour. */
  lemma WeightTieEven(value: real, total: real, n: int)
    requires total > 0.0 && value / total * 100.0 * 10000.0 == n as real + 0.5
    ensures Weight(value, total) == (if n % 2 == 0 then n else n + 1) as real / 10000.0
  {
    TieBreaks(n);
  }
}
