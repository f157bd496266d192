/** Bounds of integers and reals. */
module Numbers {
  function Max(a: int, b: int): int { if a >= b then a else b }

  function Min(a: int, b: int): int { if a <= b then a else b }

  function RealMax(a: real, b: real): real { if a >= b then a else b }

  function RealMin(a: real, b: real): real { if a <= b then a else b }

  function Clamp(x: real, low: real, high: real): real { if x < low then low else if x > high then high else x }

  // ---- products of reals ----

  /** A product under a name, so that what is linear about it can be shown by itself. */
  function Times(x: real, k: real): real { x * k }

  lemma TimesDifference(x: real, y: real, k: real)
    ensures Times(y - x, k) == Times(y, k) - Times(x, k)
  {
  }

  lemma TimesSign(x: real, k: real)
    requires 0.0 <= k
    ensures 0.0 <= x ==> 0.0 <= Times(x, k)
    ensures 0.0 < x && 0.0 < k ==> 0.0 < Times(x, k)
  {
  }

  lemma TimesOrder(x: real, y: real, k: real)
    requires x <= y && 0.0 <= k
    ensures Times(x, k) <= Times(y, k)
    ensures x < y && 0.0 < k ==> Times(x, k) < Times(y, k)
  {
    hide Times;
    TimesSign(y - x, k);
    TimesDifference(x, y, k);
  }

  lemma TimesSwapped(x: real, k: real)
    ensures Times(x, k) == Times(k, x)
  {
  }

  lemma TimesUnits(x: real)
    ensures Times(0.0, x) == 0.0 && Times(1.0, x) == x
  {
  }

  lemma TimesNegated(x: real, k: real)
    ensures Times(-x, k) == -Times(x, k)
  {
  }

  lemma TimesNext(x: real, k: real)
    ensures Times(x + 1.0, k) == Times(x, k) + k
  {
  }

  lemma TimesQuotient(x: real, k: real)
    requires k != 0.0
    ensures Times(x / k, k) == x
  {
  }

  lemma TimesAssociates(x: real, y: real, z: real)
    ensures Times(Times(x, y), z) == Times(x, Times(y, z))
  {
  }

  lemma TimesSum(x: real, y: real, k: real)
    ensures Times(x, k) + Times(y, k) == Times(x + y, k)
  {
  }

  /** A share of an amount is no more than the amount. */
  lemma TimesShare(amount: real, ratio: real)
    requires 0.0 <= ratio <= 1.0
    ensures 0.0 <= amount ==> 0.0 <= Times(amount, ratio) <= amount
    ensures amount <= 0.0 ==> amount <= Times(amount, ratio) <= 0.0
  {
    hide Times;
    var size := if 0.0 <= amount then amount else -amount;
    TimesOrder(0.0, ratio, size);
    TimesOrder(ratio, 1.0, size);
    TimesUnits(size);
    TimesSwapped(ratio, size);
    TimesNegated(amount, ratio);
  }
}
