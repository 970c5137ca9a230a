/**
 * Amounts of money and coin values, in half-ringgit units (one unit is RM0.5).
 * The machine accepts two coins, RM0.5 and RM1, which are 1 and 2 units.
 */
module Money {

  /**
   * A number as the machine receives it, after `float(...)` has parsed it: either
   * a whole number of half units (0.5, 1, 2.0, -1.5, ...) or any other value
   * (0.75, nan, inf, ...). Of all these, only `OnGrid(1)` (0.5) and
   * `OnGrid(2)` (1) are accepted coins.
   */
  datatype Value = OnGrid(halves: int) | OffGrid

  /** A coin value in half units: RM0.5 or RM1. */
  predicate IsCoinHalves(h: int) {
    h == 1 || h == 2
  }

  /**
   * The coin test `value in [0.5, 1]`: read back in ringgit, a value passes
   * exactly when it is 0.5 or 1.0; 0.75, 2, nan and the like fail.
   */
  predicate IsCoin(v: Value)
    ensures IsCoin(v) <==> v.OnGrid? && (v.halves as real) / 2.0 in {0.5, 1.0}
  {
    v == OnGrid(1) || v == OnGrid(2)
  }

  /**
   * The change breakdown `{1.0: ones, 0.5: halves}`: how many RM1 coins and how
   * many RM0.5 coins are handed back.
   */
  datatype Change = Change(ones: int, halves: nat)

  /** The money a breakdown is worth, in half units. */
  function Worth(c: Change): int {
    2 * c.ones + c.halves
  }

  /**
   * Python's `int(x)` for an amount of `amount` half units: truncation toward
   * zero, so the whole ringgit have the amount's sign and fall short of it by
   * less than one ringgit.
   */
  function WholeRinggit(amount: int): (r: int)
    ensures amount >= 0 ==> r >= 0 && 2 * r <= amount < 2 * r + 2
    ensures amount < 0 ==> r <= 0 && 2 * r - 2 < amount <= 2 * r
  {
    if amount >= 0 then amount / 2 else -((-amount) / 2)
  }

  /**
   * `calculate_change`: as many RM1 coins as the whole ringgit in the amount,
   * then one RM0.5 coin if at least half a ringgit remains.
   * For a non-negative amount the breakdown is exact and uses at most one
   * RM0.5 coin; for a negative one (which the machine never passes) there are
   * no RM0.5 coins and the RM1 count is the truncated amount.
   */
  function CalculateChange(amount: int): (c: Change)
    ensures amount >= 0 ==> c.ones == amount / 2 && c.halves <= 1 && Worth(c) == amount
    ensures amount < 0 ==> c.halves == 0 && c.ones <= 0 && amount <= 2 * c.ones <= amount + 1
  {
    var ones := WholeRinggit(amount);
    var remaining := amount - 2 * ones;
    Change(ones, if remaining >= 1 then 1 else 0)
  }

  /**
   * The greedy breakdown is the only exact one with at most one RM0.5 coin:
   * computing the change of what such a breakdown is worth gives it back.
   */
  lemma ChangeOfWorth(c: Change)
    requires c.ones >= 0 && c.halves <= 1
    ensures CalculateChange(Worth(c)) == c
  {
  }
}
