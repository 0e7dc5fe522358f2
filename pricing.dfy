/**
 * The tiered discount the transaction controller applies to a sale's
 * subtotal. Amounts are exact reals: the source's floating-point products
 * `$subtotal * 0.15` and `$subtotal * 0.10` are taken at their exact value.
 */
module Pricing {

  /** Subtotals strictly above this get 15 %. */
  const UpperThreshold: real := 1000000.0
  /** Subtotals strictly above this (and not above UpperThreshold) get 10 %. */
  const LowerThreshold: real := 500000.0
  const UpperRate: real := 0.15
  const LowerRate: real := 0.10

  /** The discount on a subtotal; only the highest applicable tier applies. */
  function Discount(subtotal: real): (d: real)
    ensures d == 0.0 <==> subtotal <= LowerThreshold
    ensures 0.0 <= subtotal ==> 0.0 <= d <= subtotal * UpperRate
    ensures LowerThreshold < subtotal ==> subtotal * LowerRate <= d
  {
    if subtotal > UpperThreshold then subtotal * UpperRate
    else if subtotal > LowerThreshold then subtotal * LowerRate
    else 0.0
  }

  /** What the customer pays: the subtotal less its discount. */
  function Total(subtotal: real): (t: real)
    ensures t + Discount(subtotal) == subtotal
    ensures 0.0 <= subtotal ==> subtotal * (1.0 - UpperRate) <= t <= subtotal
  {
    subtotal - Discount(subtotal)
  }

  /**
   * The three tiers, each in both directions: for a positive subtotal the
   * discount is 15 % exactly above one million, 10 % exactly in
   * (500,000, 1,000,000] and nothing exactly at or below 500,000.
   */
  lemma DiscountTiers(subtotal: real)
    requires 0.0 < subtotal
    ensures Discount(subtotal) == subtotal * UpperRate <==> subtotal > UpperThreshold
    ensures Discount(subtotal) == subtotal * LowerRate <==> LowerThreshold < subtotal <= UpperThreshold
    ensures Discount(subtotal) == 0.0 <==> subtotal <= LowerThreshold
  {
  }

  /** The tier boundaries are exclusive. */
  lemma TierBoundaries()
    ensures Discount(500000.0) == 0.0
    ensures Discount(500001.0) == 50000.1
    ensures Discount(1000000.0) == 100000.0
    ensures Discount(1000001.0) == 150000.15
  {
  }

  /** Totals are not monotone in the subtotal: crossing a tier can lower what is paid. */
  lemma TotalDropsAcrossTier()
    ensures Total(500001.0) < Total(500000.0)
    ensures Total(1000001.0) < Total(1000000.0)
  {
  }
}
