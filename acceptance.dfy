/** The optional-value wrapper the rest of the model uses. */
module Wrappers {
  datatype Option<+T> = None | Some(value: T)
}

/** The per-field acceptance rules of the two interactive modes. Each rule looks at one
    line the user typed, already reduced to what matters about it (see `Entry`), and
    decides whether to accept it, reject it (the prompt loop then starts the round
    again) or quit. */
module Acceptance {
  import opened Wrappers

  /** One line of user input, as the prompt loop sees it after trimming:
      - `QuitWord`: the text is "q" in either case;
      - `Blank`: the text is empty;
      - `Text(parsed)`: anything else, with the outcome of parsing it as a number
        (`None` when it is not a number). Neither "q" nor the empty text parses. */
  datatype Entry = QuitWord | Blank | Text(parsed: Option<real>)

  /** Why a field was refused. `InvalidInput` is the parse failure, distinct from the
      range failures, which carry the field they belong to. */
  datatype Reason = InvalidInput | OddsTooLow | WinRateOutOfRange | PriceOutOfRange | ProbabilityOutOfRange

  /** The decision on one field. */
  datatype Decision<T> = Accept(value: T) | Reject(reason: Reason) | Quit

  /** The line parsed as a number. */
  predicate IsNumber(e: Entry) {
    e.Text? && e.parsed.Some?
  }

  /** The number the line parsed to. */
  function NumberOf(e: Entry): real
    requires IsNumber(e)
  {
    e.parsed.value
  }

  /** Decimal odds. The quit word ends the session; a number above 1 is accepted as is. */
  function AcceptOdds(e: Entry): (d: Decision<real>)
    ensures d.Quit? <==> e.QuitWord?
    ensures d.Accept? <==> IsNumber(e) && NumberOf(e) > 1.0
    ensures d.Accept? ==> d.value > 1.0 && d.value == NumberOf(e)
    ensures d == Reject(InvalidInput) <==> (!IsNumber(e) && !e.QuitWord?)
    ensures d.Reject? ==> d.reason in {InvalidInput, OddsTooLow}
  {
    match e
    case QuitWord => Quit
    case Blank => Reject(InvalidInput)
    case Text(None) => Reject(InvalidInput)
    case Text(Some(n)) => if n > 1.0 then Accept(n) else Reject(OddsTooLow)
  }

  /** Win rate as a percentage 0..100, stored as a probability. */
  function AcceptWinRate(e: Entry): (d: Decision<real>)
    ensures !d.Quit?
    ensures d.Accept? <==> IsNumber(e) && 0.0 <= NumberOf(e) <= 100.0
    ensures d.Accept? ==> 0.0 <= d.value <= 1.0 && d.value * 100.0 == NumberOf(e)
    ensures d == Reject(InvalidInput) <==> !IsNumber(e)
    ensures d.Reject? ==> d.reason in {InvalidInput, WinRateOutOfRange}
  {
    match e
    case QuitWord => Reject(InvalidInput)
    case Blank => Reject(InvalidInput)
    case Text(None) => Reject(InvalidInput)
    case Text(Some(n)) => if 0.0 <= n <= 100.0 then Accept(n / 100.0) else Reject(WinRateOutOfRange)
  }

  /** Market price in cents, as written: 0 < n <= 100, stored as n / 100. The upper end
      admits the price 1, at which the implied net odds are zero (see
      `Rounds.PriceGuardAdmitsZeroNetOdds`). */
  function AcceptPrice(e: Entry): (d: Decision<real>)
    ensures d.Quit? <==> e.QuitWord?
    ensures d.Accept? <==> IsNumber(e) && 0.0 < NumberOf(e) <= 100.0
    ensures d.Accept? ==> 0.0 < d.value <= 1.0 && d.value * 100.0 == NumberOf(e)
    ensures d == Reject(InvalidInput) <==> (!IsNumber(e) && !e.QuitWord?)
    ensures d.Reject? ==> d.reason in {InvalidInput, PriceOutOfRange}
  {
    match e
    case QuitWord => Quit
    case Blank => Reject(InvalidInput)
    case Text(None) => Reject(InvalidInput)
    case Text(Some(n)) => if 0.0 < n <= 100.0 then Accept(n / 100.0) else Reject(PriceOutOfRange)
  }

  /** Market price with the upper end excluded: 0 < n < 100. This is the guard the
      market engine needs, and the one the market round of this model uses. */
  function AcceptPriceStrict(e: Entry): (d: Decision<real>)
    ensures d.Quit? <==> e.QuitWord?
    ensures d.Accept? <==> IsNumber(e) && 0.0 < NumberOf(e) < 100.0
    ensures d.Accept? ==> 0.0 < d.value < 1.0 && d.value * 100.0 == NumberOf(e)
    ensures d == Reject(InvalidInput) <==> (!IsNumber(e) && !e.QuitWord?)
    ensures d.Reject? ==> d.reason in {InvalidInput, PriceOutOfRange}
  {
    match e
    case QuitWord => Quit
    case Blank => Reject(InvalidInput)
    case Text(None) => Reject(InvalidInput)
    case Text(Some(n)) => if 0.0 < n < 100.0 then Accept(n / 100.0) else Reject(PriceOutOfRange)
  }

  /** The strict price guard differs from the written one at the single input 100. */
  lemma StrictPriceDiffersOnlyAtHundred(e: Entry)
    ensures AcceptPriceStrict(e) != AcceptPrice(e) <==> e == Text(Some(100.0))
    ensures e == Text(Some(100.0)) ==> AcceptPrice(e) == Accept(1.0) && AcceptPriceStrict(e) == Reject(PriceOutOfRange)
  {
  }

  /** Your probability as a percentage 0..100, stored as a probability. */
  function AcceptProbability(e: Entry): (d: Decision<real>)
    ensures !d.Quit?
    ensures d.Accept? <==> IsNumber(e) && 0.0 <= NumberOf(e) <= 100.0
    ensures d.Accept? ==> 0.0 <= d.value <= 1.0 && d.value * 100.0 == NumberOf(e)
    ensures d == Reject(InvalidInput) <==> !IsNumber(e)
    ensures d.Reject? ==> d.reason in {InvalidInput, ProbabilityOutOfRange}
  {
    match e
    case QuitWord => Reject(InvalidInput)
    case Blank => Reject(InvalidInput)
    case Text(None) => Reject(InvalidInput)
    case Text(Some(n)) => if 0.0 <= n <= 100.0 then Accept(n / 100.0) else Reject(ProbabilityOutOfRange)
  }

  /** What became of the optional capital line: left empty, given, or refused with a
      warning and then ignored. */
  datatype CapitalDecision = Absent | Given(amount: real) | Skipped {
    /** The capital the calculation goes on with. */
    function Amount(): Option<real> {
      if Given? then Some(amount) else None
    }
  }

  /** The capital rule never stops the round: an empty line means no capital, a
      positive number is the capital, and anything else is skipped with a warning. */
  function AcceptCapital(e: Entry): (d: CapitalDecision)
    ensures d.Absent? <==> e.Blank?
    ensures d.Given? <==> IsNumber(e) && NumberOf(e) > 0.0
    ensures d.Given? ==> d.amount > 0.0 && d.amount == NumberOf(e)
    ensures d.Amount().Some? ==> d.Amount().value > 0.0
  {
    match e
    case Blank => Absent
    case QuitWord => Skipped
    case Text(None) => Skipped
    case Text(Some(n)) => if n > 0.0 then Given(n) else Skipped
  }
}
