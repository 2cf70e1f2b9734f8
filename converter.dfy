/** The currency converter widget: a guarded convert that records the rate
    and the converted amount, and a swap that exchanges the two currencies
    and, when a conversion is shown, the two amounts. The amount field is
    taken as the number it parses to; an empty field counts as 0, which the
    guard rejects alike. */
module Converter {
  import opened Optional
  import Currency

  /** The widget's state fields. */
  datatype ConverterState = ConverterState(
    amount: real,
    fromCurrency: string,
    toCurrency: string,
    convertedAmount: real,
    exchangeRate: real)

  /** What `onConversionComplete` receives. */
  datatype ConversionResult = ConversionResult(
    amount: real,
    fromCurrency: string,
    toCurrency: string,
    convertedAmount: real)

  /** `handleConvert`: a non-positive amount is refused with no change and
      no report; otherwise the rate and the converted amount are recorded
      and reported. */
  function ConvertStep(s: ConverterState): (ConverterState, Option<ConversionResult>)
  {
    if s.amount <= 0.0 then (s, None)
    else
      var rate := Currency.GetExchangeRate(s.fromCurrency, s.toCurrency);
      var converted := Currency.ConvertCurrency(s.amount, s.fromCurrency, s.toCurrency);
      (s.(convertedAmount := converted, exchangeRate := rate),
       Some(ConversionResult(s.amount, s.fromCurrency, s.toCurrency, converted)))
  }

  /** `handleSwapCurrencies`: the currencies trade places; the amounts trade
      places only while a positive converted amount is shown. */
  function SwapStep(s: ConverterState): ConverterState
  {
    var swapped := s.(fromCurrency := s.toCurrency, toCurrency := s.fromCurrency);
    if s.convertedAmount > 0.0 then
      swapped.(amount := s.convertedAmount, convertedAmount := s.amount)
    else swapped
  }

  /** The guard: convert reports nothing, and changes nothing, exactly when
      the amount is not positive. */
  lemma ConvertGuard(s: ConverterState)
    ensures ConvertStep(s).1 == None <==> s.amount <= 0.0
    ensures s.amount <= 0.0 ==> ConvertStep(s).0 == s
  {
  }

  /** A successful convert stores the looked-up rate and the amount scaled by
      it, touches no other field, and reports exactly what it stored. */
  lemma {:induction false} ConvertSuccess(s: ConverterState)
    requires s.amount > 0.0
    ensures ConvertStep(s).0.exchangeRate == Currency.GetExchangeRate(s.fromCurrency, s.toCurrency)
    ensures ConvertStep(s).0.convertedAmount == s.amount * Currency.GetExchangeRate(s.fromCurrency, s.toCurrency)
    ensures ConvertStep(s).0.convertedAmount > 0.0
    ensures ConvertStep(s).0 == s.(convertedAmount := ConvertStep(s).0.convertedAmount,
                                   exchangeRate := ConvertStep(s).0.exchangeRate)
    ensures ConvertStep(s).1
            == Some(ConversionResult(s.amount, s.fromCurrency, s.toCurrency, ConvertStep(s).0.convertedAmount))
  {
    var rate := Currency.GetExchangeRate(s.fromCurrency, s.toCurrency);
    Currency.ConvertIsScaling(s.amount, s.fromCurrency, s.toCurrency);
    Currency.RatesArePositive(s.fromCurrency, s.toCurrency);
    PositiveProduct(s.amount, rate);
  }

  lemma PositiveProduct(a: real, b: real)
    requires a > 0.0 && b > 0.0
    ensures a * b > 0.0
  {
  }

  /** Converting again without changing the inputs changes nothing. */
  lemma ConvertIdempotent(s: ConverterState)
    ensures ConvertStep(ConvertStep(s).0).0 == ConvertStep(s).0
  {
  }

  /** Swap exchanges the currencies, exchanges the amounts exactly when a
      positive conversion is shown, and keeps the displayed rate. */
  lemma SwapExchanges(s: ConverterState)
    ensures var t := SwapStep(s);
            && t.fromCurrency == s.toCurrency && t.toCurrency == s.fromCurrency
            && t.exchangeRate == s.exchangeRate
            && (s.convertedAmount > 0.0 ==> t.amount == s.convertedAmount && t.convertedAmount == s.amount)
            && (s.convertedAmount <= 0.0 ==> t.amount == s.amount && t.convertedAmount == s.convertedAmount)
  {
  }

  /** Swapping twice restores the currency pair always, and the whole state
      exactly when the amounts were not exchanged one way only (a positive
      conversion of a non-positive amount is exchanged once and then kept). */
  lemma SwapTwice(s: ConverterState)
    ensures SwapStep(SwapStep(s)).fromCurrency == s.fromCurrency
    ensures SwapStep(SwapStep(s)).toCurrency == s.toCurrency
    ensures SwapStep(SwapStep(s)) == s <==> (s.convertedAmount <= 0.0 || s.amount > 0.0)
  {
    if s.convertedAmount > 0.0 && s.amount <= 0.0 {
      assert SwapStep(SwapStep(s)).amount == s.convertedAmount != s.amount;
    }
  }

  /** Convert, swap, convert from BDT to USD and back: the amount comes back
      as 1.001 times itself, as the two table directions are not
      reciprocal. */
  lemma {:induction false} RoundTripDrift(a: real, t: ConverterState, back: ConverterState)
    requires a > 0.0
    requires t == ConvertStep(ConverterState(a, "BDT", "USD", 0.0, 0.0)).0
    requires back == ConvertStep(SwapStep(t)).0
    ensures back.fromCurrency == "USD" && back.toCurrency == "BDT"
    ensures back.amount == a * 0.0091
    ensures back.convertedAmount == a * 1.001
  {
    Currency.MockRates();
    ConvertSuccess(ConverterState(a, "BDT", "USD", 0.0, 0.0));
    var u := SwapStep(t);
    assert u == ConverterState(a * 0.0091, "USD", "BDT", a, 0.0091);
    ConvertSuccess(u);
  }

  /** The widget, with its state fields updated in place. */
  class CurrencyConverter {
    var amount: real
    var fromCurrency: string
    var toCurrency: string
    var convertedAmount: real
    var exchangeRate: real

    function State(): ConverterState
      reads this
    {
      ConverterState(amount, fromCurrency, toCurrency, convertedAmount, exchangeRate)
    }

    /** The initial state: the given defaults, nothing converted yet. */
    constructor(defaultAmount: real, defaultFromCurrency: string, defaultToCurrency: string)
      ensures State() == ConverterState(defaultAmount, defaultFromCurrency, defaultToCurrency, 0.0, 0.0)
    {
      amount := defaultAmount;
      fromCurrency := defaultFromCurrency;
      toCurrency := defaultToCurrency;
      convertedAmount := 0.0;
      exchangeRate := 0.0;
    }

    /** The default widget: 0 BDT to USD. */
    constructor Default()
      ensures State() == ConverterState(0.0, "BDT", "USD", 0.0, 0.0)
    {
      amount := 0.0;
      fromCurrency := "BDT";
      toCurrency := "USD";
      convertedAmount := 0.0;
      exchangeRate := 0.0;
    }

    /** The amount input. */
    method SetAmount(a: real)
      modifies this`amount
      ensures State() == old(State()).(amount := a)
    {
      amount := a;
    }

    /** `handleConvert`; the report is what `onConversionComplete` gets. */
    method Convert() returns (report: Option<ConversionResult>)
      modifies this`convertedAmount, this`exchangeRate
      ensures (State(), report) == ConvertStep(old(State()))
    {
      if amount <= 0.0 {
        return None;
      }
      var rate := Currency.GetExchangeRate(fromCurrency, toCurrency);
      var converted := Currency.ConvertCurrency(amount, fromCurrency, toCurrency);
      exchangeRate := rate;
      convertedAmount := converted;
      report := Some(ConversionResult(amount, fromCurrency, toCurrency, converted));
    }

    /** `handleSwapCurrencies`: both new values are taken from the old state,
        as React state updates within one handler are. */
    method Swap()
      modifies this`amount, this`fromCurrency, this`toCurrency, this`convertedAmount
      ensures State() == SwapStep(old(State()))
    {
      var oldFrom, oldAmount := fromCurrency, amount;
      fromCurrency := toCurrency;
      toCurrency := oldFrom;
      if convertedAmount > 0.0 {
        amount := convertedAmount;
        convertedAmount := oldAmount;
      }
    }
  }
}
