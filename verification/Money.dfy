/** Amounts are integers in millionths of a dollar, the scale of the Numeric(14, 6) columns;
    the Redis counters hold cents. */
module Money {

  const MICROS_PER_CENT := 10000

  /** Rounds half away from zero, as ROUND_HALF_UP does. */
  function UsdToCents(micros: int): int {
    if micros >= 0 then (micros + MICROS_PER_CENT / 2) / MICROS_PER_CENT
    else -((-micros + MICROS_PER_CENT / 2) / MICROS_PER_CENT)
  }

  function CentsToUsd(cents: int): int {
    cents * MICROS_PER_CENT
  }

  /** An amount after a round trip through cents. */
  function Rounded(micros: int): int {
    CentsToUsd(UsdToCents(micros))
  }

  predicate WholeCents(micros: int) {
    micros % MICROS_PER_CENT == 0
  }

  /** The result is the nearest cent, a tie goes away from zero, and signs mirror. */
  lemma RoundingIsNearest(micros: int)
    ensures -MICROS_PER_CENT <= 2 * (Rounded(micros) - micros) <= MICROS_PER_CENT
    ensures 2 * (micros % MICROS_PER_CENT) == MICROS_PER_CENT && micros > 0 ==> Rounded(micros) > micros
    ensures UsdToCents(-micros) == -UsdToCents(micros)
  {
  }

  lemma RoundingKeepsWholeCents(micros: int)
    ensures WholeCents(micros) <==> Rounded(micros) == micros
  {
  }

  lemma RoundingIsMonotone(a: int, b: int)
    requires a <= b
    ensures UsdToCents(a) <= UsdToCents(b)
  {
  }
}
