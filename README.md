# Kelly criterion calculator: a Dafny model

This project models the core of a small Kelly-criterion calculator. The calculator works in two modes:

- **Fixed odds.** Decimal odds give net odds b = odds − 1. With win rate p and q = 1 − p, the optimal fraction is (b·p − q)/b and the expected value is p·b − q.
- **Prediction market.** A contract price m between 0 and 1 gives net odds (1 − m)/m. The same formula is then applied to the user's own probability.

Around the engine are the guards of the interactive prompt loops and the classification on the result page:

- Each guard accepts, rejects (the round starts over) or quits.
- The page shows "no bet", "100%+" or the fraction, plus optional full, half and quarter stakes for a capital.

All arithmetic is over Dafny's exact `real`. The source's formulas use only + − × ÷, so every property is an identity over the rationals.

Modules:

- `Wrappers` (`acceptance.dfy`): the `Option` datatype, imported by `Acceptance`, `Display` and `Rounds`.
- `Engine` (`engine.dfy`): `KellyResult`, fixed-odds and market Kelly, and their algebra.
- `Acceptance` (`acceptance.dfy`): one typed line (`Entry`: the quit word, an empty line, or other text with the outcome of parsing it as a number), and the per-field guards returning `Accept(value)`, `Reject(reason)` or `Quit`.
- `Display` (`display.dfy`): the position line and the capital block.
- `Rounds` (`rounds.dfy`): one round of each prompt loop, and the one-shot command-line paths.

For market price 0.60 and probability 0.75, src/main.rs:53-56 compute the fraction 0.375, which is (p − m)/(1 − m) (`Engine.MarketExample`).

## Model

| member | source | states |
|---|---|---|
| Engine.KellyCriterion | src/main.rs:29-42 | positive_ev is exactly EV > 0, strictly; EV equals p·odds − 1; fraction × net odds equals EV; defined for every odds except 1 |
| Engine.NetOdds | src/main.rs:53 | the net odds a price implies are 1/m − 1, and they are zero exactly at price 1 |
| Engine.ImpliedOdds | src/main.rs:215 | the displayed implied odds are the reciprocal of the price, that is the net odds plus one |
| Engine.KellyPolymarket | src/main.rs:49-64 | positive_ev is exactly EV > 0; EV·m = p − m; fraction·(1 − m) = p − m; defined for every price except 0 and 1 |
| Engine.MarketIdentities | src/main.rs:53-57 | for a price other than 0 and 1, the net odds are non-zero and the market formulas reduce to p − m |
| Engine.FractionSignFollowsEv | src/main.rs:30-39 | for odds > 1 the fraction is EV divided by the net odds; it is positive, zero or negative exactly when EV is; positive_ev holds exactly when the fraction is positive |
| Engine.BreakEven | src/main.rs:30-35 | for odds > 1, EV and the fraction are both zero, and positive_ev is false, exactly when the win rate is 1/odds |
| Engine.FractionAtMostWinRate | src/main.rs:29-35 | for odds > 1 and a win rate in [0, 1], the fraction equals p − q/b, so it never exceeds p and never exceeds 1 |
| Engine.FractionCanBeNegative | src/main.rs:16-17 | the "(0-1)" reading is only an upper bound: odds 1.5 with win rate 0.1 yields fraction −1.7 and EV −0.85 |
| Engine.EvenMoneyExamples | src/main.rs:29-42 | at odds 2.0, win rate 0.6 yields fraction and EV 0.2, and win rate 0.5 breaks even |
| Engine.MarketIsFixedOddsAtImpliedOdds | src/main.rs:49-64 | for a price other than 0 and 1, market Kelly equals fixed-odds Kelly at odds 1/price, field by field |
| Engine.MarketEdge | src/main.rs:53-61 | for 0 < m < 1: EV = (p − m)/m; fraction = (p − m)/(1 − m); positive_ev holds exactly when p > m, and exactly when the fraction is positive; EV is zero exactly when p = m |
| Engine.MarketFractionAtMostProbability | src/main.rs:53-56 | for 0 < m < 1 and p in [0, 1], the market fraction never exceeds p, hence never exceeds 1 |
| Engine.MarketExample | src/main.rs:49-64 | price 0.6 with probability 0.75 yields EV 0.25 and fraction 0.375; the implied odds are 5/3 |
| Acceptance.AcceptOdds | src/main.rs:320-335 | the quit word quits; odds are accepted, unchanged, exactly when the line parses to a number > 1; a non-number is InvalidInput and any other number OddsTooLow |
| Acceptance.AcceptWinRate | src/main.rs:343-355 | never quits; accepted exactly when the number lies in [0, 100], then stored as n/100 in [0, 1]; a non-number is InvalidInput, any other number WinRateOutOfRange |
| Acceptance.AcceptPrice | src/main.rs:413-428 | as written: the quit word quits; accepted exactly when 0 < n ≤ 100, then stored as n/100 in (0, 1]; a non-number is InvalidInput, any other number PriceOutOfRange |
| Acceptance.AcceptPriceStrict | src/main.rs:418-428 | corrected price guard: accepted exactly when 0 < n < 100, so the stored price lies strictly between 0 and 1 |
| Acceptance.StrictPriceDiffersOnlyAtHundred | src/main.rs:419 | the written and the corrected price guards disagree only on the entry 100, which the first accepts as price 1 |
| Acceptance.AcceptProbability | src/main.rs:436-446 | never quits; accepted exactly when the number lies in [0, 100], then stored as n/100; a non-number is InvalidInput, any other number ProbabilityOutOfRange |
| Acceptance.AcceptCapital | src/main.rs:363-373 | an empty line means no capital; a number > 0 is the capital; anything else is skipped with a warning; a capital, when present, is always positive |
| Display.Classify | src/main.rs:137-143 | "no bet" exactly when the fraction is ≤ 0; "100%+" exactly when it is > 1; otherwise the fraction itself, which lies in (0, 1] |
| Display.StakesFor | src/main.rs:148-154 | amounts exist exactly when the fraction is positive; full is capital × fraction, full is twice half and half twice quarter; for a positive capital, 0 < quarter < half < full |
| Display.CapitalBlock | src/main.rs:146-156 | the capital block appears exactly when a capital was supplied, and it holds amounts exactly when the fraction is positive |
| Display.StakeWithinCapital | src/main.rs:149 | for a fraction in (0, 1], the full-Kelly stake never exceeds the capital |
| Display.MakeReport | src/main.rs:111-197 | the decisions of a result page, and equally of `print_result_polymarket` (src/main.rs:200-286): the result is shown unchanged; "no bet" exactly when the fraction is ≤ 0, "100%+" exactly when it is > 1, otherwise the fraction itself; a capital block exactly when a capital was supplied, holding full, half and quarter stakes of that capital at that fraction |
| Rounds.FixedOddsReport | src/main.rs:111-197 | the fixed-odds page shows the odds and net odds odds − 1, the fixed-odds Kelly result (EV = p·odds − 1), and the stakes for the supplied capital exactly when one was supplied; for odds > 1 its status line and position line agree; the position line is "no bet" exactly when the fraction is ≤ 0, "100%+" exactly when it is > 1, and otherwise the fraction itself |
| Rounds.MarketReport | src/main.rs:200-286 | the market page shows the price and probability given, implied odds 1/m, the fixed-odds result at those odds, and the stakes for the supplied capital exactly when one was supplied; for 0 < m < 1 it shows "no bet" exactly when p ≤ m; the position line is "no bet" exactly when the fraction is ≤ 0, "100%+" exactly when it is > 1, and otherwise the fraction itself |
| Rounds.FixedOddsRound | src/main.rs:314-377 | one iteration of the fixed-odds loop: it stops exactly on the quit word at the odds prompt; refused odds give a retry with the odds guard's reason, and accepted odds with a refused win rate a retry with the win-rate guard's reason, whatever the later lines hold; a page is shown only for odds > 1 and a win rate in [0, 1] |
| Rounds.MarketRound | src/main.rs:407-468 | one iteration of the market loop, using the corrected guard `AcceptPriceStrict` in place of line 419: it stops exactly on the quit word at the price prompt; a refused price gives a retry with the price guard's reason, and an accepted price with a refused probability a retry with the probability guard's reason, whatever the later lines hold; a page is shown only for a price in (0, 1) and a probability in [0, 1] |
| Rounds.FixedRoundOutcomes | src/main.rs:320-376 | a fixed-odds round stops only on the quit word at the odds prompt; it retries exactly when the odds or the win rate are refused; otherwise it shows the page for the accepted odds, win rate and capital |
| Rounds.CapitalNeverRejects | src/main.rs:363-375 | in both loops (the market loop's capital rule is src/main.rs:454-464) the capital line never changes whether a round stops, retries or shows a page, nor the result and position line shown |
| Rounds.FixedPageConsistent | src/main.rs:131-154 | every page of the fixed-odds loop avoids "100%+"; its status line and position line agree (no bet exactly when EV is not positive); its full stake is at most the capital |
| Rounds.MarketRoundOutcomes | src/main.rs:413-464 | of the corrected market round (`Rounds.MarketRound`, price guard 0 < n < 100): it stops only on the quit word at the price prompt; it retries exactly when the price or the probability is refused; it shows a page exactly when both are accepted, and that page is the market page for the accepted price, probability and the capital line's capital. The source's round with entry 100 shows a page instead of retrying |
| Rounds.MarketPageConsistent | src/main.rs:466-467 | every page of the corrected market round shows fixed-odds Kelly at odds 1/m; positive EV exactly when p > m; "no bet" exactly when p ≤ m; never "100%+". In the source, entry 100 leads to a page with EV −q and "no bet", or "NaN%" when the probability is also 100 |
| Rounds.PriceGuardAdmitsZeroNetOdds | src/main.rs:418-428 | the written guard accepts 100 as price 1, where the net odds are zero; every other price it accepts lies strictly between 0 and 1 |
| Rounds.CliFixed | src/main.rs:584-594 | the one-shot fixed-odds path divides the win rate by 100 and checks no range: the page shows the odds, net odds and win rate n/100, the fixed-odds Kelly result for them (EV = (n/100)·odds − 1) for any odds except 1; the position line is "no bet" exactly when the fraction is ≤ 0, "100%+" exactly when it is > 1, and otherwise the fraction itself; the capital, unchecked and possibly negative, is taken as given, and the stakes are computed for it |
| Rounds.CliMarket | src/main.rs:551-553 | what the one-shot market arm computes once two values have parsed: both percentages divided by 100, no range check, no capital; the page shows price P/100, probability Q/100, implied odds 100/P and the fixed-odds Kelly result at those odds (EV·P = Q − P); the position line is "no bet" exactly when the fraction is ≤ 0, "100%+" exactly when it is > 1, and otherwise the fraction itself |
| Rounds.CliSkipsRangeChecks | src/main.rs:584-588 | the command line shows pages the prompt loop refuses: odds 3 with win rate 150 gives "100%+", and odds 0.5 with win rate 10 gives "100%+" beside a negative-EV status |

## Findings

| source | as written | input that shows it | evidently intended | confidence | as-written member | corrected member |
|---|---|---|---|---|---|---|
| src/main.rs:419 | the market-price guard accepts 0 < n ≤ 100, so price 100 becomes market_price 1.0; line 53 then gives b = 0, and line 56 divides by it | price 100 (any probability): the fraction is −q/0 in f64, so −∞, or NaN when the probability is also 100 | reject 100 as well (0 < n < 100), since a contract already priced at 1 has no payout to size | medium (not executed) | Rounds.PriceGuardAdmitsZeroNetOdds | Acceptance.AcceptPriceStrict |

`Rounds.MarketRound` uses the corrected guard. `Rounds.MarketPageConsistent` proves that every page it shows is well defined and consistent.

## Left out

- Terminal I/O (prompts, `read_line`, `flush`, printing) and the `loop`/`continue`/`break` plumbing. One round of each loop is a function of the lines typed. A `Retry` is the loop starting over and a `Stop` is the loop ending.
- Text-to-number parsing (`str::parse::<f64>`), trimming and lower-casing. Their outcome is the `Entry` value: the quit word, an empty line, or other text with `Some(n)` or `None`.
- f64 behaviour: rounding, NaN and infinities (for example a NaN parsed from "NaN", which fails every guard), and `{:.2}` formatting (`format_pct`). The engine functions require the divisor to be non-zero instead.
- Rounds.MarketRound: uses the corrected price guard, so it does not model the source's round at price 100, where f64 yields an infinite or NaN fraction (see Findings). `Acceptance.AcceptPrice` models the written guard.
- Bilingual message tables, titles and usage text. These are presentation strings only. The reason codes stand in for the messages.
- `main`'s argument-count dispatch and the `expect` panics on arguments that do not parse. The one-shot paths are modelled only after parsing succeeds (`Rounds.CliFixed`, `Rounds.CliMarket`).
- Rounds.CliMarket: models only what lines 551-553 compute from two parsed values. The market dispatch in `main` is off by one. `pm_args` (src/main.rs:544-546) still holds the program path, so:
  - `kelly -p` has length 1 and falls to the invalid-arguments arm, so `interactive_polymarket` is never reached;
  - `kelly -p 60 75` takes the three-value arm and panics parsing the program path as the price;
  - `kelly -p 60` panics the same way at line 551.
  The dispatch itself is not modelled.
- Idempotence of the engine. Every member is a Dafny function, so equal inputs give equal results by construction.
