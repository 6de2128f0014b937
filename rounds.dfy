/** One round of each interactive mode, as a decision on the lines the user typed, and
    the one-shot command-line paths. The prompt loop itself is not modelled: a `Retry`
    is the loop starting over, a `Stop` is the loop ending. */
module Rounds {
  import opened Wrappers
  import opened Engine
  import opened Acceptance
  import opened Display

  /** How one round of a prompt loop ends. */
  datatype Round = Stop | Retry(reason: Reason) | Show(report: Report)

  /** The page for fixed odds. It shows the net odds odds - 1; with odds above 1 its
      status line and position line agree. */
  function FixedOddsReport(odds: real, winRate: real, capital: Option<real>): (rep: Report)
    requires odds != 1.0
    ensures rep.inputs == FixedInputs(odds, odds - 1.0, winRate)
    ensures rep.result == KellyCriterion(odds, winRate)
    ensures rep.result.expectedValue == winRate * odds - 1.0
    ensures rep.capitalBlock.Some? <==> capital.Some?
    ensures rep.capitalBlock.Some? ==> rep.capitalBlock.value == StakesFor(capital.value, rep.result.optimalFraction)
    ensures rep.position.NoBet? <==> rep.result.optimalFraction <= 0.0
    ensures rep.position.FullKellyOrMore? <==> rep.result.optimalFraction > 1.0
    ensures rep.position.Fraction? ==> rep.position.value == rep.result.optimalFraction
    ensures odds > 1.0 ==> (rep.position.NoBet? <==> !rep.result.positiveEv)
  {
    var rep := MakeReport(FixedInputs(odds, odds - 1.0, winRate), KellyCriterion(odds, winRate), capital);
    if odds > 1.0 then FractionSignFollowsEv(odds, winRate); rep else rep
  }

  /** The page for a market price. It shows the implied odds 1/m and the fixed-odds
      result at those odds; for a price in (0, 1) it shows "no bet" exactly when your
      probability does not exceed the price. */
  function MarketReport(marketPrice: real, yourProbability: real, capital: Option<real>): (rep: Report)
    requires marketPrice != 0.0 && marketPrice != 1.0
    ensures rep.inputs.MarketInputs? && rep.inputs.impliedOdds * marketPrice == 1.0
    ensures rep.inputs.marketPrice == marketPrice && rep.inputs.yourProbability == yourProbability
    ensures rep.capitalBlock.Some? <==> capital.Some?
    ensures rep.capitalBlock.Some? ==> rep.capitalBlock.value == StakesFor(capital.value, rep.result.optimalFraction)
    ensures rep.result == KellyCriterion(rep.inputs.impliedOdds, yourProbability)
    ensures rep.position.NoBet? <==> rep.result.optimalFraction <= 0.0
    ensures rep.position.FullKellyOrMore? <==> rep.result.optimalFraction > 1.0
    ensures rep.position.Fraction? ==> rep.position.value == rep.result.optimalFraction
    ensures 0.0 < marketPrice < 1.0 ==> (rep.position.NoBet? <==> yourProbability <= marketPrice)
  {
    MarketIsFixedOddsAtImpliedOdds(marketPrice, yourProbability);
    var rep := MakeReport(MarketInputs(marketPrice, yourProbability, ImpliedOdds(marketPrice)),
                          KellyPolymarket(marketPrice, yourProbability), capital);
    if 0.0 < marketPrice < 1.0 then MarketEdge(marketPrice, yourProbability); rep else rep
  }

  /** One round of the fixed-odds prompt loop. A line after a refused one is never read,
      so it does not affect the outcome: the retry names the field that was refused. */
  function FixedOddsRound(oddsLine: Entry, winRateLine: Entry, capitalLine: Entry): (rd: Round)
    ensures rd.Stop? <==> oddsLine.QuitWord?
    ensures rd.Retry? ==> rd.reason in {InvalidInput, OddsTooLow, WinRateOutOfRange}
    ensures AcceptOdds(oddsLine).Reject? ==> rd == Retry(AcceptOdds(oddsLine).reason)
    ensures AcceptOdds(oddsLine).Accept? && AcceptWinRate(winRateLine).Reject? ==>
              rd == Retry(AcceptWinRate(winRateLine).reason)
    ensures rd.Show? ==> rd.report.inputs.FixedInputs? && rd.report.inputs.odds > 1.0
                         && 0.0 <= rd.report.inputs.winRate <= 1.0
  {
    match AcceptOdds(oddsLine)
    case Quit => Stop
    case Reject(why) => Retry(why)
    case Accept(odds) =>
      var w := AcceptWinRate(winRateLine);
      if w.Reject? then Retry(w.reason)
      else Show(FixedOddsReport(odds, w.value, AcceptCapital(capitalLine).Amount()))
  }

  /** One round of the market prompt loop, with the corrected price guard
      `AcceptPriceStrict`, which excludes 100. As in the fixed-odds loop, a retry names
      the field that was refused, and later lines are not read. */
  function MarketRound(priceLine: Entry, probabilityLine: Entry, capitalLine: Entry): (rd: Round)
    ensures rd.Stop? <==> priceLine.QuitWord?
    ensures rd.Retry? ==> rd.reason in {InvalidInput, PriceOutOfRange, ProbabilityOutOfRange}
    ensures AcceptPriceStrict(priceLine).Reject? ==> rd == Retry(AcceptPriceStrict(priceLine).reason)
    ensures AcceptPriceStrict(priceLine).Accept? && AcceptProbability(probabilityLine).Reject? ==>
              rd == Retry(AcceptProbability(probabilityLine).reason)
    ensures rd.Show? ==> rd.report.inputs.MarketInputs? && 0.0 < rd.report.inputs.marketPrice < 1.0
                         && 0.0 <= rd.report.inputs.yourProbability <= 1.0
  {
    match AcceptPriceStrict(priceLine)
    case Quit => Stop
    case Reject(why) => Retry(why)
    case Accept(price) =>
      var p := AcceptProbability(probabilityLine);
      if p.Reject? then Retry(p.reason)
      else Show(MarketReport(price, p.value, AcceptCapital(capitalLine).Amount()))
  }

  // ---------------------------------------------------------------------------
  // The fixed-odds round

  /** A round ends the session only on the quit word at the odds prompt; every refusal
      is a retry, and a round that is neither shows the page for the accepted values. */
  lemma FixedRoundOutcomes(oddsLine: Entry, winRateLine: Entry, capitalLine: Entry)
    ensures var rd := FixedOddsRound(oddsLine, winRateLine, capitalLine);
      && (rd.Stop? <==> oddsLine.QuitWord?)
      && (rd.Retry? <==> !oddsLine.QuitWord? && (AcceptOdds(oddsLine).Reject? || AcceptWinRate(winRateLine).Reject?))
      && (rd.Show? <==> AcceptOdds(oddsLine).Accept? && AcceptWinRate(winRateLine).Accept?)
      && (rd.Show? ==> rd.report == FixedOddsReport(AcceptOdds(oddsLine).value, AcceptWinRate(winRateLine).value,
                                                   AcceptCapital(capitalLine).Amount()))
  {
  }

  /** In both loops the capital line never decides whether a round retries, stops or
      shows a page, nor what result and position line the page shows. */
  lemma CapitalNeverRejects(firstLine: Entry, secondLine: Entry, capitalLine: Entry)
    ensures var rd := FixedOddsRound(firstLine, secondLine, capitalLine);
      var bare := FixedOddsRound(firstLine, secondLine, Blank);
      && (rd.Stop? <==> bare.Stop?) && (rd.Retry? <==> bare.Retry?) && (rd.Retry? ==> rd == bare)
      && (rd.Show? ==> rd.report.result == bare.report.result && rd.report.position == bare.report.position)
    ensures var rd := MarketRound(firstLine, secondLine, capitalLine);
      var bare := MarketRound(firstLine, secondLine, Blank);
      && (rd.Stop? <==> bare.Stop?) && (rd.Retry? <==> bare.Retry?) && (rd.Retry? ==> rd == bare)
      && (rd.Show? ==> rd.report.result == bare.report.result && rd.report.position == bare.report.position)
  {
  }

  /** On every page of the fixed-odds loop (shown exactly when both guards accept, by
      `FixedRoundOutcomes`) the position line is never "100%+", the
      status line and the position line agree (positive EV exactly when a stake is
      suggested), and a full-Kelly stake never exceeds the capital. */
  lemma FixedPageConsistent(oddsLine: Entry, winRateLine: Entry, capitalLine: Entry)
    requires AcceptOdds(oddsLine).Accept? && AcceptWinRate(winRateLine).Accept?
    ensures FixedOddsRound(oddsLine, winRateLine, capitalLine).Show?
    ensures var rep := FixedOddsRound(oddsLine, winRateLine, capitalLine).report;
      && !rep.position.FullKellyOrMore?
      && (rep.position.NoBet? <==> !rep.result.positiveEv)
      && (rep.capitalBlock.Some? && rep.capitalBlock.value.Amounts? ==>
            rep.capitalBlock.value.full <= AcceptCapital(capitalLine).amount)
  {
    var odds := AcceptOdds(oddsLine).value;
    var w := AcceptWinRate(winRateLine).value;
    FractionAtMostWinRate(odds, w);
    FractionSignFollowsEv(odds, w);
    var f := KellyCriterion(odds, w).optimalFraction;
    var c := AcceptCapital(capitalLine);
    if c.Given? && f > 0.0 {
      StakeWithinCapital(c.amount, f);
    }
  }

  // ---------------------------------------------------------------------------
  // The market round

  /** A market round ends the session only on the quit word at the price prompt, and
      shows a page exactly when both the price and the probability are accepted: the page
      for those values and the capital line's capital. */
  lemma MarketRoundOutcomes(priceLine: Entry, probabilityLine: Entry, capitalLine: Entry)
    ensures var rd := MarketRound(priceLine, probabilityLine, capitalLine);
      && (rd.Stop? <==> priceLine.QuitWord?)
      && (rd.Retry? <==> !priceLine.QuitWord? && (AcceptPriceStrict(priceLine).Reject? || AcceptProbability(probabilityLine).Reject?))
      && (rd.Show? <==> AcceptPriceStrict(priceLine).Accept? && AcceptProbability(probabilityLine).Accept?)
      && (rd.Show? ==> rd.report == MarketReport(AcceptPriceStrict(priceLine).value, AcceptProbability(probabilityLine).value,
                                                AcceptCapital(capitalLine).Amount()))
  {
  }

  /** Every page of the market loop (shown exactly when both guards accept, by
      `MarketRoundOutcomes`) shows the fixed-odds result at the implied odds,
      positive EV exactly when your probability is above the price, "no bet" exactly
      when it is not, and never the "100%+" line. */
  lemma MarketPageConsistent(priceLine: Entry, probabilityLine: Entry, capitalLine: Entry)
    requires AcceptPriceStrict(priceLine).Accept? && AcceptProbability(probabilityLine).Accept?
    ensures MarketRound(priceLine, probabilityLine, capitalLine).Show?
    ensures var rep := MarketRound(priceLine, probabilityLine, capitalLine).report;
      var m := AcceptPriceStrict(priceLine).value;
      var p := AcceptProbability(probabilityLine).value;
      && rep.result == KellyCriterion(1.0 / m, p)
      && (rep.result.positiveEv <==> p > m)
      && (rep.position.NoBet? <==> p <= m)
      && !rep.position.FullKellyOrMore?
  {
    var m := AcceptPriceStrict(priceLine).value;
    var p := AcceptProbability(probabilityLine).value;
    MarketIsFixedOddsAtImpliedOdds(m, p);
    MarketEdge(m, p);
    MarketFractionAtMostProbability(m, p);
  }

  // ---------------------------------------------------------------------------
  // The price guard as written

  /** The written price guard accepts the entry 100 as the price 1, a price at which the
      implied net odds are zero, so the market engine's division by them is undefined;
      every other accepted price lies strictly between 0 and 1. */
  lemma PriceGuardAdmitsZeroNetOdds(priceLine: Entry)
    ensures AcceptPrice(Text(Some(100.0))) == Accept(1.0) && NetOdds(1.0) == 0.0
    ensures AcceptPrice(priceLine).Accept? ==>
      (0.0 < AcceptPrice(priceLine).value < 1.0 <==> priceLine != Text(Some(100.0)))
  {
    StrictPriceDiffersOnlyAtHundred(priceLine);
  }

  // ---------------------------------------------------------------------------
  // The one-shot command line

  /** `kelly <odds> <win_rate> [capital]` once the arguments have parsed: no range check
      at all, the win rate only divided by 100, the capital taken as given. */
  function CliFixed(odds: real, winRatePercent: real, capital: Option<real>): (rep: Report)
    requires odds != 1.0
    ensures rep.inputs == FixedInputs(odds, odds - 1.0, winRatePercent / 100.0)
    ensures rep.result == KellyCriterion(odds, winRatePercent / 100.0)
    ensures rep.result.expectedValue == winRatePercent / 100.0 * odds - 1.0
    ensures rep.position.NoBet? <==> rep.result.optimalFraction <= 0.0
    ensures rep.position.FullKellyOrMore? <==> rep.result.optimalFraction > 1.0
    ensures rep.position.Fraction? ==> rep.position.value == rep.result.optimalFraction
    ensures rep.capitalBlock.Some? <==> capital.Some?
    ensures rep.capitalBlock.Some? ==> rep.capitalBlock.value == StakesFor(capital.value, rep.result.optimalFraction)
  {
    FixedOddsReport(odds, winRatePercent / 100.0, capital)
  }

  /** What lines 551-553 compute once two values have parsed: no range check, both
      percentages only divided by 100, and no capital. (The dispatch in `main` takes the
      program path as the first of those values; that dispatch is not modelled.) */
  function CliMarket(pricePercent: real, probabilityPercent: real): (rep: Report)
    requires pricePercent != 0.0 && pricePercent != 100.0
    ensures rep.inputs == MarketInputs(pricePercent / 100.0, probabilityPercent / 100.0, 100.0 / pricePercent)
    ensures rep.result == KellyCriterion(100.0 / pricePercent, probabilityPercent / 100.0)
    ensures rep.result.expectedValue * pricePercent == probabilityPercent - pricePercent
    ensures rep.position.NoBet? <==> rep.result.optimalFraction <= 0.0
    ensures rep.position.FullKellyOrMore? <==> rep.result.optimalFraction > 1.0
    ensures rep.position.Fraction? ==> rep.position.value == rep.result.optimalFraction
    ensures rep.capitalBlock.None?
  {
    MarketReport(pricePercent / 100.0, probabilityPercent / 100.0, None)
  }

  /** The command line reaches pages the prompt loop never shows: odds 3 with win rate
      150 gives the "100%+" line, and odds 0.5 with win rate 10 shows "100%+" beside a
      negative-EV status; the prompt loop refuses both inputs. */
  lemma CliSkipsRangeChecks()
    ensures CliFixed(3.0, 150.0, None).position == FullKellyOrMore
    ensures FixedOddsRound(Text(Some(3.0)), Text(Some(150.0)), Blank) == Retry(WinRateOutOfRange)
    ensures var rep := CliFixed(0.5, 10.0, None);
      rep.position == FullKellyOrMore && !rep.result.positiveEv
    ensures FixedOddsRound(Text(Some(0.5)), Text(Some(10.0)), Blank) == Retry(OddsTooLow)
  {
    assert KellyCriterion(3.0, 1.5).optimalFraction == 1.75;
    assert KellyCriterion(0.5, 0.1).optimalFraction == 1.9;
  }
}
