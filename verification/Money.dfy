/** Decimal amounts and the ledger rounding.

    Amounts are exact reals: the source's 28-digit limit is not modelled. */
module Money {

  function Abs(x: real): real {
    if x < 0.0 then -x else x
  }

  function Max(x: real, y: real): real {
    if x < y then y else x
  }

  function Min(x: real, y: real): real {
    if x < y then x else y
  }

  /** The nearest whole sen, halves away from zero. */
  function Sen(d: real): int {
    if d >= 0.0 then (d * 100.0 + 0.5).Floor else -((-d * 100.0 + 0.5).Floor)
  }

  function Rupiah(sen: int): real {
    sen as real / 100.0
  }

  /** Two decimal places, half away from zero. */
  function Round(d: real): real {
    Rupiah(Sen(d))
  }

  /** What "nearest sen, half away from zero" means, without computing it. */
  ghost predicate IsNearestSen(d: real, sen: int) {
    && Abs(sen as real - d * 100.0) <= 0.5
    && (Abs(sen as real - d * 100.0) == 0.5 ==> Abs(sen as real) > Abs(d * 100.0))
  }

  /** The rounding is exactly that: it picks the nearest sen and nothing else qualifies. */
  lemma RoundIsNearest(d: real, sen: int)
    ensures IsNearestSen(d, sen) <==> sen == Sen(d)
  {
  }

  lemma RoundKeepsOrder(a: real, b: real)
    requires a <= b
    ensures Sen(a) <= Sen(b)
    ensures Round(a) <= Round(b)
  {
  }

  lemma RoundWithinHalfSen(d: real)
    ensures Abs(Round(d) - d) <= 0.005
    ensures d >= 0.0 ==> Round(d) >= 0.0
  {
  }

  /** Rounding leaves a whole number of sen alone. */
  lemma RoundOfSen(sen: int)
    ensures Sen(Rupiah(sen)) == sen
    ensures Round(Rupiah(sen)) == Rupiah(sen)
  {
  }

  /** So rounding a sum of rounded amounts changes nothing. */
  lemma RoundOfSum(a: real, b: real, c: real)
    ensures Round(Round(a) + Round(b) + Round(c)) == Round(a) + Round(b) + Round(c)
  {
    var n := Sen(a) + Sen(b) + Sen(c);
    assert Round(a) + Round(b) + Round(c) == Rupiah(n);
    RoundOfSen(n);
  }

  lemma ProductKeepsOrder(a: real, b: real, c: real, d: real)
    requires 0.0 <= a <= b && 0.0 <= c <= d
    ensures 0.0 <= a * c <= b * d
  {
  }
}
