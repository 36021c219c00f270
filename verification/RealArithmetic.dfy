/** Multiplication and division of reals under names, so that their laws can be applied to given
    products. */
module RealArithmetic {

  function Times(x: real, y: real): real {
    x * y
  }

  function Over(d: real, m: real): real
    requires m != 0.0
  {
    d / m
  }

  lemma TimesCommutes(x: real, y: real)
    ensures Times(x, y) == Times(y, x)
  {
  }

  lemma Distribute(k: real, x: real, y: real)
    ensures Times(k, x + y) == Times(k, x) + Times(k, y)
  {
  }

  lemma TimesIsPositive(x: real, y: real)
    requires x > 0.0 && y > 0.0
    ensures Times(x, y) > 0.0
  {
  }

  lemma TimesIsNotZero(x: real, y: real)
    requires x != 0.0 && y != 0.0
    ensures Times(x, y) != 0.0
  {
  }

  lemma TimesZero(x: real, y: real)
    requires y == 0.0
    ensures Times(x, y) == 0.0
  {
  }

  lemma TimesOrder(x: real, y: real, k: real)
    requires x <= y && k >= 0.0
    ensures Times(x, k) <= Times(y, k)
  {
    TimesOfGap(x, y, k);
    TimesIsNotNegative(y - x, k);
  }

  lemma TimesOfGap(x: real, y: real, k: real)
    ensures Times(y - x, k) == Times(y, k) - Times(x, k)
  {
  }

  lemma TimesIsNotNegative(x: real, k: real)
    requires x >= 0.0 && k >= 0.0
    ensures Times(x, k) >= 0.0
  {
  }

  lemma OverUndone(x: real, y: real)
    requires y != 0.0
    ensures Times(Over(x, y), y) == x
  {
  }

  function Max(x: real, y: real): real {
    if x >= y then x else y
  }

  function Min(x: real, y: real): real {
    if x <= y then x else y
  }
}
