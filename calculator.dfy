/**
  The decision rules of the console calculator: the currency and direction
  menus, the two conversion formulas, and what one pass of the calculator
  loop does with the three answers it reads.

  The Python code does not catch a currency missing from the table (a
  KeyError) nor a zero rate in a division (a ZeroDivisionError); both end
  the program and are modelled here as the error of a Result.
*/
module Calculator {
  import opened Wrappers
  import opened Fetcher

  datatype Currency = USD | EUR | RUB

  datatype Direction = TengeToForeign | ForeignToTenge

  /** The two amounts one conversion offers: the result the program labels buy (`result_buy`) and the one it labels sell (`result_sell`). */
  datatype Conversion = Conversion(viaBuy: real, viaSell: real)

  /** Why a conversion ends the program: the code is not in the table, or a rate used as a divisor is zero. */
  datatype ConvertError = MissingCurrency(code: string) | DivisionByZero

  /** The key under which the fetcher stores a currency. */
  function Code(c: Currency): string {
    match c
    case USD => "USD"
    case EUR => "EUR"
    case RUB => "RUB"
  }

  /** The menu answer that selects a currency. */
  function CurrencyKey(c: Currency): string {
    match c
    case USD => "1"
    case EUR => "2"
    case RUB => "3"
  }

  /** The currency menu: "1", "2" and "3" select USD, EUR and RUB; every other answer selects nothing. */
  function ChooseCurrency(answer: string): Option<Currency> {
    if answer == "1" then Some(USD)
    else if answer == "2" then Some(EUR)
    else if answer == "3" then Some(RUB)
    else None
  }

  /** The menu answer that selects a direction. */
  function DirectionKey(d: Direction): string {
    match d
    case TengeToForeign => "1"
    case ForeignToTenge => "2"
  }

  /** The direction menu: "1" is tenge to foreign, "2" foreign to tenge; every other answer selects nothing. */
  function ChooseDirection(answer: string): Option<Direction> {
    if answer == "1" then Some(TengeToForeign)
    else if answer == "2" then Some(ForeignToTenge)
    else None
  }

  /** Every menu currency is stored under a tracked code, and distinct currencies under distinct codes. */
  lemma CodesAreTracked(c: Currency, c': Currency)
    ensures IsTracked(Code(c))
    ensures Code(c) == Code(c') ==> c == c'
  {
    assert Code(c) in TrackedCodes;
  }

  /** The currency menu selects a currency exactly by its own key. */
  lemma ChooseCurrencyMatchesKey(answer: string, c: Currency)
    ensures ChooseCurrency(answer) == Some(c) <==> answer == CurrencyKey(c)
  {
  }

  /** The currency menu accepts exactly the answers "1", "2" and "3". */
  lemma ChooseCurrencyAccepts(answer: string)
    ensures ChooseCurrency(answer).Some? <==> answer in ["1", "2", "3"]
  {
  }

  /** The direction menu selects a direction exactly by its own key. */
  lemma ChooseDirectionMatchesKey(answer: string, d: Direction)
    ensures ChooseDirection(answer) == Some(d) <==> answer == DirectionKey(d)
  {
  }

  /** The direction menu accepts exactly the answers "1" and "2". */
  lemma ChooseDirectionAccepts(answer: string)
    ensures ChooseDirection(answer).Some? <==> answer in ["1", "2"]
  {
  }

  /**
    The two results of a conversion at one rate. Tenge to foreign divides the
    amount by the buy rate and by the sell rate, the buy division first;
    foreign to tenge multiplies, and there the result labelled "buy" is taken
    with the sell rate and the one labelled "sell" with the buy rate.
  */
  function ConvertAt(rate: Rate, d: Direction, amount: real): Result<Conversion, ConvertError> {
    match d
    case TengeToForeign =>
      if rate.buy == 0.0 || rate.sell == 0.0 then Err(DivisionByZero)
      else Ok(Conversion(amount / rate.buy, amount / rate.sell))
    case ForeignToTenge =>
      Ok(Conversion(amount * rate.sell, amount * rate.buy))
  }

  /** The conversion the calculator performs: the table lookup comes before any arithmetic. */
  function Convert(rates: RateTable, c: Currency, d: Direction, amount: real): Result<Conversion, ConvertError> {
    if Code(c) !in rates then Err(MissingCurrency(Code(c))) else ConvertAt(rates[Code(c)], d, amount)
  }

  /** The errors of a conversion: a missing code in either direction, a zero rate only when dividing. */
  lemma ConvertFailsExactly(rates: RateTable, c: Currency, d: Direction, amount: real)
    ensures Convert(rates, c, d, amount) == Err(MissingCurrency(Code(c))) <==> Code(c) !in rates
    ensures Convert(rates, c, d, amount) == Err(DivisionByZero)
        <==> Code(c) in rates && d == TengeToForeign && (rates[Code(c)].buy == 0.0 || rates[Code(c)].sell == 0.0)
    ensures Convert(rates, c, d, amount).Ok?
        <==> Code(c) in rates && (d == TengeToForeign ==> rates[Code(c)].buy != 0.0 && rates[Code(c)].sell != 0.0)
  {
  }

  /**
    Tenge to foreign gives the foreign amounts that, priced at the buy and at
    the sell rate respectively, cost exactly the tenge amount.
  */
  lemma TengeToForeignPricesBack(rate: Rate, amount: real)
    requires ConvertAt(rate, TengeToForeign, amount).Ok?
    ensures ConvertAt(rate, TengeToForeign, amount).value.viaBuy * rate.buy == amount
    ensures ConvertAt(rate, TengeToForeign, amount).value.viaSell * rate.sell == amount
  {
  }

  /**
    Converting tenge to foreign and the result back to tenge returns the
    starting amount when the same rate field is used both ways: the buy
    result of the first conversion comes back as the sell result of the
    second, and the sell result as the buy result, because of the
    cross-wiring of the foreign-to-tenge formulas.
  */
  lemma TengeRoundTrip(rate: Rate, amount: real)
    requires ConvertAt(rate, TengeToForeign, amount).Ok?
    ensures var there := ConvertAt(rate, TengeToForeign, amount).value;
      && ConvertAt(rate, ForeignToTenge, there.viaBuy).value.viaSell == amount
      && ConvertAt(rate, ForeignToTenge, there.viaSell).value.viaBuy == amount
  {
    TengeToForeignPricesBack(rate, amount);
  }

  /** The round trip the other way: foreign to tenge, then back with the opposite field label. */
  lemma ForeignRoundTrip(rate: Rate, amount: real)
    requires rate.buy != 0.0 && rate.sell != 0.0
    ensures var there := ConvertAt(rate, ForeignToTenge, amount).value;
      && ConvertAt(rate, TengeToForeign, there.viaBuy).Ok?
      && ConvertAt(rate, TengeToForeign, there.viaBuy).value.viaSell == amount
      && ConvertAt(rate, TengeToForeign, there.viaSell).value.viaBuy == amount
  {
  }

  /** With buy 450 and sell 455, 10 units of foreign currency give 4550 tenge as the "buy" result and 4500 as the "sell" result. */
  lemma ForeignToTengeExample()
    ensures Convert(map["USD" := Rate(450.0, 455.0)], USD, ForeignToTenge, 10.0) == Ok(Conversion(4550.0, 4500.0))
  {
  }

  /** What one pass of the calculator loop ends in. */
  datatype PassOutcome =
    | Restart                  // an answer was rejected: the loop starts over
    | Crashed(error: ConvertError)
    | Converted(currency: Currency, direction: Direction, amount: real, result: Conversion)

  /**
    One pass of the calculator loop on the currency answer, the direction
    answer and the amount text, with `parse` standing for float(). The
    amount text is parsed as typed: no comma normalisation is applied to it.
  */
  function CalculatorPass(rates: RateTable, currencyAnswer: string, directionAnswer: string, amountText: string,
                          parse: string -> Option<real>): PassOutcome
  {
    match ChooseCurrency(currencyAnswer)
    case None => Restart
    case Some(c) =>
      match ChooseDirection(directionAnswer)
      case None => Restart
      case Some(d) =>
        match parse(amountText)
        case None => Restart
        case Some(amount) =>
          match Convert(rates, c, d, amount)
          case Err(e) => Crashed(e)
          case Ok(result) => Converted(c, d, amount, result)
  }

  /** A pass starts over exactly when a menu answer is rejected or the amount does not parse. */
  lemma PassRestartsExactly(rates: RateTable, currencyAnswer: string, directionAnswer: string, amountText: string,
                            parse: string -> Option<real>)
    ensures CalculatorPass(rates, currencyAnswer, directionAnswer, amountText, parse) == Restart
        <==> currencyAnswer !in ["1", "2", "3"] || directionAnswer !in ["1", "2"] || parse(amountText).None?
  {
    ChooseCurrencyAccepts(currencyAnswer);
    ChooseDirectionAccepts(directionAnswer);
  }

  /** A pass that converts used the currency and the direction whose keys were typed, and the conversion formulas. */
  lemma PassConvertsByKeys(rates: RateTable, currencyAnswer: string, directionAnswer: string, amountText: string,
                           parse: string -> Option<real>)
    requires CalculatorPass(rates, currencyAnswer, directionAnswer, amountText, parse).Converted?
    ensures var p := CalculatorPass(rates, currencyAnswer, directionAnswer, amountText, parse);
      && currencyAnswer == CurrencyKey(p.currency)
      && directionAnswer == DirectionKey(p.direction)
      && parse(amountText) == Some(p.amount)
      && Convert(rates, p.currency, p.direction, p.amount) == Ok(p.result)
  {
    var p := CalculatorPass(rates, currencyAnswer, directionAnswer, amountText, parse);
    ChooseCurrencyMatchesKey(currencyAnswer, p.currency);
    ChooseDirectionMatchesKey(directionAnswer, p.direction);
  }

  /** With valid answers and a parsable amount, a pass crashes exactly when the conversion fails. */
  lemma PassCrashesExactly(rates: RateTable, c: Currency, d: Direction, amountText: string, parse: string -> Option<real>)
    requires parse(amountText).Some?
    ensures CalculatorPass(rates, CurrencyKey(c), DirectionKey(d), amountText, parse).Crashed?
        <==> Convert(rates, c, d, parse(amountText).value).Err?
  {
  }
}
