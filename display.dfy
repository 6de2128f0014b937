/** What a result page shows, reduced to its decisions: the status line, the position
    line and the optional capital block. Text, language and number formatting are not
    modelled. */
module Display {
  import opened Wrappers
  import opened Engine

  /** The position line: no bet, the "100%+" warning, or the fraction itself. */
  datatype Position = NoBet | FullKellyOrMore | Fraction(value: real)

  /** The capital block: the three Kelly stakes, or the advice not to bet. */
  datatype Stakes = Amounts(full: real, half: real, quarter: real) | NoBetAdvice

  /** The input lines at the top of a page. */
  datatype Inputs =
    | FixedInputs(odds: real, netOdds: real, winRate: real)
    | MarketInputs(marketPrice: real, yourProbability: real, impliedOdds: real)

  /** A whole result page. `capitalBlock` is `None` when no capital was supplied. */
  datatype Report = Report(inputs: Inputs, result: KellyResult, position: Position, capitalBlock: Option<Stakes>)

  /** Classification of the optimal fraction for the position line. */
  function Classify(fraction: real): (p: Position)
    ensures p.NoBet? <==> fraction <= 0.0
    ensures p.FullKellyOrMore? <==> fraction > 1.0
    ensures p.Fraction? ==> 0.0 < p.value <= 1.0 && p.value == fraction
  {
    if fraction <= 0.0 then NoBet
    else if fraction > 1.0 then FullKellyOrMore
    else Fraction(fraction)
  }

  /** Stakes for a capital: full, half and quarter Kelly when the fraction is positive,
      otherwise no amounts at all. */
  function StakesFor(capital: real, fraction: real): (s: Stakes)
    ensures s.Amounts? <==> fraction > 0.0
    ensures s.Amounts? ==> s.full == capital * fraction && s.full == 2.0 * s.half && s.half == 2.0 * s.quarter
    ensures s.Amounts? && capital > 0.0 ==> 0.0 < s.quarter < s.half < s.full
  {
    if fraction > 0.0 then
      assert capital > 0.0 ==> capital * fraction > 0.0;
      Amounts(capital * fraction, capital * fraction * 0.5, capital * fraction * 0.25)
    else NoBetAdvice
  }

  /** The capital block: present only when a capital was supplied. */
  function CapitalBlock(capital: Option<real>, fraction: real): (b: Option<Stakes>)
    ensures b.Some? <==> capital.Some?
    ensures b.Some? ==> (b.value.Amounts? <==> fraction > 0.0)
    ensures b.Some? ==> b.value == StakesFor(capital.value, fraction)
  {
    match capital
    case None => None
    case Some(c) => Some(StakesFor(c, fraction))
  }

  /** The page for one result: the position line follows the fraction and shows it when
      it lies in (0, 1], and the capital block appears exactly when a capital was supplied,
      holding the stakes for that capital. */
  function MakeReport(inputs: Inputs, result: KellyResult, capital: Option<real>): (rep: Report)
    ensures rep.inputs == inputs && rep.result == result
    ensures rep.position.NoBet? <==> result.optimalFraction <= 0.0
    ensures rep.position.FullKellyOrMore? <==> result.optimalFraction > 1.0
    ensures rep.capitalBlock.Some? <==> capital.Some?
    ensures rep.capitalBlock.Some? ==> (rep.capitalBlock.value.Amounts? <==> result.optimalFraction > 0.0)
    ensures rep.position.Fraction? ==> rep.position.value == result.optimalFraction
    ensures rep.capitalBlock.Some? ==> rep.capitalBlock.value == StakesFor(capital.value, result.optimalFraction)
  {
    Report(inputs, result, Classify(result.optimalFraction), CapitalBlock(capital, result.optimalFraction))
  }

  /** When the fraction is at most 1, the full-Kelly stake never exceeds the capital. */
  lemma StakeWithinCapital(capital: real, fraction: real)
    requires capital > 0.0 && 0.0 < fraction <= 1.0
    ensures StakesFor(capital, fraction).full <= capital
  {
    assert capital * (1.0 - fraction) >= 0.0;
  }
}
