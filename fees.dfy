/**
 * The basis-point fee model (backend/engine/fees.py): a fee of `feeBps`
 * basis points is charged on the notional of each side of a trade.
 */
module Fees {

  const BasisPointsPerUnit: real := 10000.0

  datatype FeeModel = FeeModel(feeBps: real)
  {
    /** The fee per side as a fraction of notional; negative settings count as zero. */
    function Rate(): (r: real)
      ensures r >= 0.0
      ensures feeBps >= 0.0 ==> r * BasisPointsPerUnit == feeBps
      ensures feeBps <= 0.0 ==> r == 0.0
    {
      (if feeBps > 0.0 then feeBps else 0.0) / BasisPointsPerUnit
    }

    /** The fee for one side.  Python's NaN guard has no counterpart: a
        `real` is never NaN. */
    function FeeForNotional(notional: real): (fee: real)
      ensures fee >= 0.0
      ensures notional <= 0.0 ==> fee == 0.0
      ensures notional > 0.0 ==> fee == notional * Rate()
    {
      if notional <= 0.0 then 0.0 else notional * Rate()
    }

    function RoundTripFees(buyNotional: real, sellNotional: real): (total: real)
      ensures total == FeeForNotional(buyNotional) + FeeForNotional(sellNotional)
      ensures total >= 0.0
    {
      FeeForNotional(buyNotional) + FeeForNotional(sellNotional)
    }
  }

  lemma MulNonNegative(x: real, y: real)
    requires x >= 0.0 && (x > 0.0 ==> y >= 0.0)
    ensures x * y >= 0.0
  {
    if x > 0.0 && y > 0.0 {
      assert x * y > 0.0;
    }
  }

  /** With a rate of at most 100% a fee never exceeds the notional it is charged on. */
  lemma FeeAtMostNotional(m: FeeModel, notional: real)
    requires m.Rate() <= 1.0
    ensures m.FeeForNotional(notional) <= if notional > 0.0 then notional else 0.0
  {
    if notional > 0.0 {
      MulNonNegative(notional, 1.0 - m.Rate());
    }
  }

  /** Five basis points are 0.05% per side. */
  lemma FiveBasisPoints()
    ensures FeeModel(5.0).Rate() == 0.0005
    ensures FeeModel(5.0).FeeForNotional(10000.0) == 5.0
  {
  }

  /** A larger traded notional never costs a smaller fee. */
  lemma FeeMonotone(m: FeeModel, a: real, b: real)
    requires a <= b
    ensures m.FeeForNotional(a) <= m.FeeForNotional(b)
  {
    if a > 0.0 {
      MulNonNegative(b - a, m.Rate());
    }
  }

  /** A trade buying `q` units at a price `p > 0` costs `p * q` plus fees,
      which is exactly `q * p * (1 + rate)`: the denominator the execution
      engine divides an allocation by. */
  lemma CostOfPurchase(m: FeeModel, p: real, q: real)
    requires p > 0.0 && q > 0.0
    ensures p * q + m.FeeForNotional(p * q) == q * (p * (1.0 + m.Rate()))
  {
  }
}
