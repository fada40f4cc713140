/** Maximum, minimum and the product facts the other modules use.  `Times` and
    `Ratio` are plain multiplication and division; their users hide them and
    reason by the lemmas, so that no larger proof meets a product of variables. */
module Reals {

  function MaxR(a: real, b: real): real { if a < b then b else a }
  function MinR(a: real, b: real): real { if b < a then b else a }

  function Times(x: real, y: real): real { x * y }

  function Ratio(x: real, y: real): real
    requires y != 0.0
  {
    x / y
  }

  lemma TimesConstants(u: real)
    ensures Times(0.0, u) == 0.0 && Times(0.5, u) == u / 2.0 && Times(1.0, u) == u
  {}

  lemma SumTimes(a: real, b: real, u: real)
    ensures Times(a + b, u) == Times(a, u) + Times(b, u)
  {}

  lemma DifferenceTimes(a: real, b: real, u: real)
    ensures Times(a - b, u) == Times(a, u) - Times(b, u)
  {}

  lemma TimesAdds(a: real, x: real, y: real)
    ensures Times(a, x + y) == Times(a, x) + Times(a, y)
    ensures Times(a, x - y) == Times(a, x) - Times(a, y)
  {}

  lemma TimesAssociative(x: real, y: real, z: real)
    ensures Times(x, Times(y, z)) == Times(Times(x, y), z)
  {}

  lemma TimesSymmetric(x: real, y: real)
    ensures Times(x, y) == Times(y, x)
  {}

  lemma TimesSign(x: real, y: real)
    ensures x >= 0.0 && y >= 0.0 ==> Times(x, y) >= 0.0
    ensures x > 0.0 && y > 0.0 ==> Times(x, y) > 0.0
  {}

  lemma TimesOrder(a: real, b: real, unit: real)
    requires unit > 0.0
    ensures a < b <==> Times(a, unit) < Times(b, unit)
    ensures a == b <==> Times(a, unit) == Times(b, unit)
  {
    hide Times;
    DifferenceTimes(b, a, unit);
    DifferenceTimes(a, b, unit);
    TimesSign(b - a, unit);
    TimesSign(a - b, unit);
  }

  lemma RatioTimes(x: real, unit: real)
    requires unit != 0.0
    ensures Times(Ratio(x, unit), unit) == x
  {}

  lemma TimesRatio(q: real, unit: real)
    requires unit != 0.0
    ensures Ratio(Times(q, unit), unit) == q
  {}

  lemma RatioOrder(x: real, y: real, unit: real)
    requires unit > 0.0
    ensures x < y <==> Ratio(x, unit) < Ratio(y, unit)
  {
    hide Times, Ratio;
    RatioTimes(x, unit);
    RatioTimes(y, unit);
    TimesOrder(Ratio(x, unit), Ratio(y, unit), unit);
  }

  lemma RatioSign(x: real, unit: real)
    requires unit > 0.0
    ensures x > 0.0 <==> Ratio(x, unit) > 0.0
    ensures x < 0.0 <==> Ratio(x, unit) < 0.0
  {
    hide Times, Ratio;
    RatioTimes(x, unit);
    TimesConstants(unit);
    TimesOrder(0.0, Ratio(x, unit), unit);
    TimesOrder(Ratio(x, unit), 0.0, unit);
  }

  /** Adding the unit adds one to the quotient. */
  lemma RatioNext(x: real, unit: real)
    requires unit != 0.0
    ensures Ratio(x + unit, unit) == Ratio(x, unit) + 1.0
  {
    hide Times, Ratio;
    var q := Ratio(x, unit);
    RatioTimes(x, unit);
    SumTimes(q, 1.0, unit);
    TimesConstants(unit);
    TimesRatio(q + 1.0, unit);
  }
}
