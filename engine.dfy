/** The Kelly engine: fixed-odds Kelly and prediction-market Kelly.
    Arithmetic is exact over `real`; the source's f64 rounding is not modelled. */
module Engine {

  /** The record both engine functions return. Nothing here bounds it: the fraction
      may be negative or larger than one. */
  datatype KellyResult = KellyResult(optimalFraction: real, positiveEv: bool, expectedValue: real)

  /** Fixed-odds Kelly for decimal `odds` (net odds b = odds - 1) and win rate `winRate`.
      The only demand is that b is not zero, so that (b*p - q)/b is defined. */
  function KellyCriterion(odds: real, winRate: real): (r: KellyResult)
    requires odds != 1.0
    ensures r.positiveEv <==> r.expectedValue > 0.0
    ensures r.expectedValue == winRate * odds - 1.0
    ensures r.optimalFraction * (odds - 1.0) == r.expectedValue
  {
    var b := odds - 1.0;
    var p := winRate;
    var q := 1.0 - p;
    var optimalFraction := (b * p - q) / b;
    var expectedValue := p * b - q;
    KellyResult(optimalFraction, expectedValue > 0.0, expectedValue)
  }

  /** Net odds implied by a market price m: a contract bought at m pays 1, so the
      profit per unit staked is (1 - m)/m. */
  function NetOdds(marketPrice: real): (b: real)
    requires marketPrice != 0.0
    ensures b == 1.0 / marketPrice - 1.0
    ensures b == 0.0 <==> marketPrice == 1.0
  {
    (1.0 - marketPrice) / marketPrice
  }

  /** The odds displayed next to a market price. */
  function ImpliedOdds(marketPrice: real): (o: real)
    requires marketPrice != 0.0
    ensures o * marketPrice == 1.0
    ensures o == NetOdds(marketPrice) + 1.0
  {
    1.0 / marketPrice
  }

  /** Prediction-market Kelly: the Kelly formula with the net odds the price implies
      and the user's own probability. Defined when the price is neither 0 (no odds)
      nor 1 (net odds zero). */
  function KellyPolymarket(marketPrice: real, yourProbability: real): (r: KellyResult)
    requires marketPrice != 0.0 && marketPrice != 1.0
    ensures r.positiveEv <==> r.expectedValue > 0.0
    ensures r.expectedValue * marketPrice == yourProbability - marketPrice
    ensures r.optimalFraction * (1.0 - marketPrice) == yourProbability - marketPrice
  {
    var pMarket := marketPrice;
    var pYour := yourProbability;
    var b := NetOdds(pMarket);
    var q := 1.0 - pYour;
    var optimalFraction := (b * pYour - q) / b;
    var expectedValue := pYour * b - q;
    MarketIdentities(pMarket, pYour, b);
    KellyResult(optimalFraction, expectedValue > 0.0, expectedValue)
  }

  /** The algebra behind KellyPolymarket's contract. */
  lemma MarketIdentities(m: real, p: real, b: real)
    requires m != 0.0 && m != 1.0 && b == (1.0 - m) / m
    ensures b != 0.0
    ensures (p * b - (1.0 - p)) * m == p - m
    ensures (b * p - (1.0 - p)) / b * (1.0 - m) == p - m
  {
    assert b * m == 1.0 - m;
    var f := (b * p - (1.0 - p)) / b;
    assert f * b == b * p - (1.0 - p);
    calc {
      f * (1.0 - m);
      f * (b * m);
      (f * b) * m;
      (b * p - (1.0 - p)) * m;
      p * (b * m) - (1.0 - p) * m;
      p * (1.0 - m) - (1.0 - p) * m;
      p - m;
    }
  }

  // ---------------------------------------------------------------------------
  // Properties of the fixed-odds engine

  /** With odds above 1 the fraction is EV divided by the net odds, so the fraction
      and EV have the same sign, and a positive-EV verdict means a positive stake. */
  lemma FractionSignFollowsEv(odds: real, winRate: real)
    requires odds > 1.0
    ensures var r := KellyCriterion(odds, winRate);
      && r.optimalFraction == r.expectedValue / (odds - 1.0)
      && (r.optimalFraction > 0.0 <==> r.expectedValue > 0.0)
      && (r.optimalFraction == 0.0 <==> r.expectedValue == 0.0)
      && (r.optimalFraction < 0.0 <==> r.expectedValue < 0.0)
      && (r.positiveEv <==> r.optimalFraction > 0.0)
  {
    var r := KellyCriterion(odds, winRate);
    var b := odds - 1.0;
    SignOfProduct(r.optimalFraction, b, r.expectedValue);
  }

  /** x * b == e with b > 0 forces x and e to share their sign. */
  lemma SignOfProduct(x: real, b: real, e: real)
    requires b > 0.0 && x * b == e
    ensures x == e / b
    ensures x > 0.0 <==> e > 0.0
    ensures x == 0.0 <==> e == 0.0
    ensures x < 0.0 <==> e < 0.0
  {
    if x > 0.0 {
      assert x * b > 0.0;
    } else if x < 0.0 {
      assert (-x) * b > 0.0;
    }
  }

  /** Break-even: at win rate 1/odds the bet is fair, and that is the only such win rate. */
  lemma BreakEven(odds: real, winRate: real)
    requires odds > 1.0
    ensures var r := KellyCriterion(odds, winRate);
      (winRate == 1.0 / odds) <==> (r.expectedValue == 0.0 && r.optimalFraction == 0.0 && !r.positiveEv)
  {
    var r := KellyCriterion(odds, winRate);
    FractionSignFollowsEv(odds, winRate);
    if winRate == 1.0 / odds {
      assert winRate * odds == 1.0;
    }
    if r.expectedValue == 0.0 {
      assert winRate * odds == 1.0;
      assert winRate == 1.0 / odds;
    }
  }

  /** The fraction is p - q/b; for a win rate in [0, 1] it therefore never exceeds the
      win rate, and so never exceeds 1, although it may be far below 0. */
  lemma FractionAtMostWinRate(odds: real, winRate: real)
    requires odds > 1.0 && 0.0 <= winRate <= 1.0
    ensures var r := KellyCriterion(odds, winRate);
      && r.optimalFraction == winRate - (1.0 - winRate) / (odds - 1.0)
      && r.optimalFraction <= winRate <= 1.0
  {
    var r := KellyCriterion(odds, winRate);
    var b := odds - 1.0;
    var t := (1.0 - winRate) / b;
    assert t * b == 1.0 - winRate;
    assert (winRate - t) * b == r.expectedValue;
    SignOfProduct(r.optimalFraction - (winRate - t), b, 0.0);
    SignOfProduct(t, b, 1.0 - winRate);
  }

  /** The "(0-1)" reading of the fraction is only an upper bound: odds 1.5 with win rate
      0.1 gives EV -0.85 and fraction -1.7. */
  lemma FractionCanBeNegative()
    ensures KellyCriterion(1.5, 0.1) == KellyResult(-1.7, false, -0.85)
  {
  }

  /** Odds 2.0 (even money): win rate 0.6 gives fraction and EV 0.2, win rate 0.5 is the
      break-even point. */
  lemma EvenMoneyExamples()
    ensures KellyCriterion(2.0, 0.6) == KellyResult(0.2, true, 0.2)
    ensures KellyCriterion(2.0, 0.5) == KellyResult(0.0, false, 0.0)
  {
  }

  // ---------------------------------------------------------------------------
  // Properties of the market engine

  /** Market mode is fixed-odds mode at odds 1/price, field by field. */
  lemma MarketIsFixedOddsAtImpliedOdds(marketPrice: real, yourProbability: real)
    requires marketPrice != 0.0 && marketPrice != 1.0
    ensures ImpliedOdds(marketPrice) != 1.0
    ensures KellyPolymarket(marketPrice, yourProbability)
         == KellyCriterion(ImpliedOdds(marketPrice), yourProbability)
  {
    var b := NetOdds(marketPrice);
    assert ImpliedOdds(marketPrice) - 1.0 == b;
  }

  /** For a price strictly between 0 and 1, EV is (p - m)/m and the fraction is
      (p - m)/(1 - m): the bet has positive EV exactly when your probability exceeds the
      price, and exactly then is the suggested stake positive. */
  lemma MarketEdge(marketPrice: real, yourProbability: real)
    requires 0.0 < marketPrice < 1.0
    ensures var r := KellyPolymarket(marketPrice, yourProbability);
      && r.expectedValue == (yourProbability - marketPrice) / marketPrice
      && r.optimalFraction == (yourProbability - marketPrice) / (1.0 - marketPrice)
      && (r.positiveEv <==> yourProbability > marketPrice)
      && (r.positiveEv <==> r.optimalFraction > 0.0)
      && (r.expectedValue == 0.0 <==> yourProbability == marketPrice)
  {
    var r := KellyPolymarket(marketPrice, yourProbability);
    var d := yourProbability - marketPrice;
    SignOfProduct(r.expectedValue, marketPrice, d);
    SignOfProduct(r.optimalFraction, 1.0 - marketPrice, d);
  }

  /** A market bet sized for a probability in [0, 1] never exceeds that probability. */
  lemma MarketFractionAtMostProbability(marketPrice: real, yourProbability: real)
    requires 0.0 < marketPrice < 1.0 && 0.0 <= yourProbability <= 1.0
    ensures KellyPolymarket(marketPrice, yourProbability).optimalFraction <= yourProbability <= 1.0
  {
    var r := KellyPolymarket(marketPrice, yourProbability);
    var m := marketPrice;
    var p := yourProbability;
    // (p - m) - p * (1 - m) = -m * (1 - p) <= 0
    assert (r.optimalFraction - p) * (1.0 - m) == -(m * (1.0 - p));
    assert m * (1.0 - p) >= 0.0;
    SignOfProduct(r.optimalFraction - p, 1.0 - m, -(m * (1.0 - p)));
  }

  /** Market price 0.60 with probability 0.75: EV 0.25, fraction 0.375, implied odds 5/3. */
  lemma MarketExample()
    ensures KellyPolymarket(0.6, 0.75) == KellyResult(0.375, true, 0.25)
    ensures ImpliedOdds(0.6) == 5.0 / 3.0
  {
    MarketEdge(0.6, 0.75);
  }
}
