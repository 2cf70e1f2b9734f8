/** The currency utility: a fixed registry of five currencies, formatting
    and parsing of amounts, a directional exchange-rate table and the
    conversion built on it. Formatting takes an amount as a whole number of
    minor units (hundredths for every registered currency), so the rounding
    of fractional amounts stays outside the model. */
module Currency {
  import opened Optional
  import Text
  import Numbers
  import Seqs

  /** Display and formatting settings of one currency. */
  datatype CurrencyConfig = CurrencyConfig(
    code: string,
    symbol: string,
    name: string,
    decimalPlaces: nat,
    thousandsSeparator: char,
    decimalSeparator: char)

  /** The registry, keyed by currency code. */
  const SupportedCurrencies: map<string, CurrencyConfig> := map[
    "BDT" := CurrencyConfig("BDT", "৳", "Bangladesh Taka", 2, ',', '.'),
    "INR" := CurrencyConfig("INR", "₹", "Indian Rupee", 2, ',', '.'),
    "USD" := CurrencyConfig("USD", "$", "US Dollar", 2, ',', '.'),
    "EUR" := CurrencyConfig("EUR", "€", "Euro", 2, ',', '.'),
    "GBP" := CurrencyConfig("GBP", "£", "British Pound", 2, ',', '.')
  ]

  /** `getDefaultCurrency`. */
  function GetDefaultCurrency(): string
  {
    "BDT"
  }

  /** `isValidCurrency`: the code is a key of the registry. */
  predicate IsValidCurrency(code: string)
  {
    code in SupportedCurrencies
  }

  /** Exactly the five registered codes are valid. */
  lemma ValidCurrencies(code: string)
    ensures IsValidCurrency(code) <==> code in {"BDT", "INR", "USD", "EUR", "GBP"}
    ensures IsValidCurrency(GetDefaultCurrency())
  {
  }

  /** The configuration `formatCurrency` and `parseCurrency` use: the
      registered one, or BDT's for a code not in the registry. */
  function ConfigFor(code: string): CurrencyConfig
  {
    if code in SupportedCurrencies then SupportedCurrencies[code] else SupportedCurrencies["BDT"]
  }

  /** `getCurrencySymbol`: the registered symbol, or "৳" when the code is
      unknown (or its symbol empty). */
  function GetCurrencySymbol(code: string): string
  {
    if code in SupportedCurrencies && SupportedCurrencies[code].symbol != "" then
      SupportedCurrencies[code].symbol
    else "৳"
  }

  /** Properties every registered configuration has, on which the
      format/parse round trip rests. */
  predicate WellFormed(c: CurrencyConfig)
  {
    && c.symbol != []
    && c.decimalPlaces >= 1
    && c.thousandsSeparator == ','
    && c.decimalSeparator == '.'
  }

  /** Every code, registered or not, is served by a well-formed
      configuration with two decimal places, and the symbol accessor agrees
      with the configuration the formatter uses. */
  lemma {:induction false} ConfigForIsWellFormed(code: string)
    ensures WellFormed(ConfigFor(code)) && ConfigFor(code).decimalPlaces == 2
    ensures GetCurrencySymbol(code) == ConfigFor(code).symbol
  {
    assert code in SupportedCurrencies ==> code in {"BDT", "INR", "USD", "EUR", "GBP"};
  }

  // ---------------------------------------------------------------------
  // Formatting

  /** Digits with a "," inserted before every group of three, counted from
      the right, as the "en-BD" locale groups an integer part. */
  function GroupThousands(d: string): string
  {
    if |d| <= 3 then d else GroupThousands(d[..|d| - 3]) + "," + d[|d| - 3..]
  }

  /** Removing the separators undoes the grouping. */
  lemma {:induction false} UngroupThousands(d: string)
    requires ',' !in d
    ensures Text.RemoveAll(GroupThousands(d), ',') == d
  {
    if |d| <= 3 {
      Text.RemoveAllAbsent(d, ',');
    } else {
      var hi, lo := d[..|d| - 3], d[|d| - 3..];
      assert d == hi + lo;
      assert ',' !in hi && ',' !in lo by {
        assert forall x :: x in hi || x in lo ==> x in d;
      }
      var g := GroupThousands(hi);
      assert GroupThousands(d) == g + "," + lo;
      UngroupThousands(hi);
      Text.RemoveAllAppend(g + ",", lo, ',');
      Text.RemoveAllAppend(g, ",", ',');
      Text.RemoveAllAbsent(lo, ',');
      assert Text.RemoveAll(",", ',') == [];
      assert Text.RemoveAll(GroupThousands(d), ',') == hi + [] + lo;
    }
  }

  /** A "," stands exactly at the positions a multiple of four from the
      end of `r`, and every other character is a digit. */
  predicate GroupedEvery3(r: string)
  {
    forall i :: 0 <= i < |r| ==>
      (r[i] == ',' <==> (|r| - i) % 4 == 0) && (r[i] != ',' ==> Numbers.IsDigit(r[i]))
  }

  /** Where the separators go: one "," per full group of three below the
      first, at every fourth position from the end, digits elsewhere, and a
      digit in front. So every group after the first has three digits and
      the first has one to three. */
  lemma GroupingLayout(d: string)
    requires Numbers.AllDigits(d) && |d| >= 1
    ensures var r := GroupThousands(d);
            && |r| == |d| + (|d| - 1) / 3
            && r[0] != ','
            && GroupedEvery3(r)
  {
    GroupedLength(d);
    GroupedStartsWithDigit(d);
    GroupedPositions(d);
  }

  lemma {:induction false} GroupedLength(d: string)
    requires |d| >= 1
    ensures |GroupThousands(d)| == |d| + (|d| - 1) / 3
  {
    if |d| > 3 {
      GroupedLength(d[..|d| - 3]);
    }
  }

  lemma {:induction false} GroupedPositions(d: string)
    requires Numbers.AllDigits(d)
    ensures GroupedEvery3(GroupThousands(d))
  {
    if |d| > 3 {
      var hi, lo := d[..|d| - 3], d[|d| - 3..];
      GroupedPositions(hi);
      var g := GroupThousands(hi);
      AppendGroup(g, lo);
    }
  }

  /** One more group of three digits behind a comma keeps the layout. */
  lemma AppendGroup(g: string, lo: string)
    requires GroupedEvery3(g) && |lo| == 3 && Numbers.AllDigits(lo)
    ensures GroupedEvery3(g + "," + lo)
  {
    var r := g + "," + lo;
    forall i | 0 <= i < |r|
      ensures (r[i] == ',' <==> (|r| - i) % 4 == 0) && (r[i] != ',' ==> Numbers.IsDigit(r[i]))
    {
      if i < |g| {
        assert r[i] == g[i];
        assert (|g| - i + 4) % 4 == (|g| - i) % 4;
      } else if i > |g| {
        assert r[i] == lo[i - |g| - 1];
      }
    }
  }

  /** The digits of the integer part of `m / 10^k`. */
  function WholeDigits(m: nat, k: nat): (d: string)
    ensures d != [] && Numbers.AllDigits(d)
    ensures Numbers.DigitsValue(d) == m / Numbers.Pow10(k)
  {
    Numbers.DivFacts(m, Numbers.Pow10(k));
    Numbers.NatToString(m / Numbers.Pow10(k))
  }

  /** The k fraction digits of `m / 10^k`, zero-padded on the left. */
  function FractionDigits(m: nat, k: nat): (p: string)
    ensures |p| == k && Numbers.AllDigits(p)
    ensures Numbers.DigitsValue(p) == m % Numbers.Pow10(k)
  {
    Numbers.DivFacts(m, Numbers.Pow10(k));
    Numbers.PadDigits(m % Numbers.Pow10(k), k)
  }

  /** `n.toLocaleString("en-BD", {minimumFractionDigits: dp,
      maximumFractionDigits: dp})` for the amount `units / 10^dp`: a minus
      sign for a negative amount, the grouped integer part and, when dp is
      positive, "." and exactly dp fraction digits. */
  function FormatMinorUnits(units: int, decimalPlaces: nat): string
  {
    var m: nat := if units < 0 then -units else units;
    Numbers.SignText(units < 0)
      + GroupThousands(WholeDigits(m, decimalPlaces))
      + (if decimalPlaces == 0 then "" else "." + FractionDigits(m, decimalPlaces))
  }

  /** `formatCurrency(amount, code)` for `amount = units / 10^dp`: the
      configured symbol immediately followed by the formatted amount. */
  function FormatCurrency(units: int, code: string): string
  {
    var c := ConfigFor(code);
    c.symbol + FormatMinorUnits(units, c.decimalPlaces)
  }

  /** The layout of a formatted amount: the symbol, then "-" exactly when the
      amount is negative, and "." followed by two digits at the end. */
  lemma {:induction false} FormatLayout(units: int, code: string)
    ensures var out := FormatCurrency(units, code);
            var sym := GetCurrencySymbol(code);
            && sym <= out
            && |out| >= |sym| + 4
            && (out[|sym|] == '-' <==> units < 0)
            && out[|out| - 3] == '.'
            && Numbers.IsDigit(out[|out| - 2]) && Numbers.IsDigit(out[|out| - 1])
  {
    ConfigForIsWellFormed(code);
    var c := ConfigFor(code);
    var m: nat := if units < 0 then -units else units;
    var g := GroupThousands(Numbers.NatToString(m / 100));
    GroupedStartsWithDigit(Numbers.NatToString(m / 100));
    var p := Numbers.PadDigits(m % 100, 2);
    var out := FormatCurrency(units, code);
    assert out == c.symbol + (Numbers.SignText(units < 0) + g + ("." + p));
    assert Numbers.IsDigit(p[0]) && Numbers.IsDigit(p[1]);
  }

  /** Grouping keeps a leading digit in front. */
  lemma {:induction false} GroupedStartsWithDigit(d: string)
    requires d != [] && Numbers.IsDigit(d[0])
    ensures GroupThousands(d) != [] && GroupThousands(d)[0] == d[0]
  {
    if |d| > 3 {
      GroupedStartsWithDigit(d[..|d| - 3]);
    }
  }

  // ---------------------------------------------------------------------
  // Parsing

  /** The text `parseCurrency` hands to parseFloat: the first occurrence of
      the symbol removed, every thousands separator removed, the first
      decimal separator replaced by ".", then trimmed. */
  function CleanCurrencyText(text: string, c: CurrencyConfig): string
  {
    var noSymbol := Text.ReplaceFirst(text, c.symbol, "");
    var noGroups := Text.RemoveAll(noSymbol, c.thousandsSeparator);
    Text.Trim(Text.ReplaceFirst(noGroups, [c.decimalSeparator], "."))
  }

  /** `parseCurrency(text, code)`: the number at the front of the cleaned
      text, or 0 when there is none. */
  function ParseCurrency(text: string, code: string): real
  {
    match Numbers.ParseFloat(CleanCurrencyText(text, ConfigFor(code)))
    case None => 0.0
    case Some(v) => v
  }

  /** Text without a digit parses as 0, since cleaning adds no digit. */
  lemma NoDigitParsesAsZero(text: string, code: string)
    requires forall ch :: ch in text ==> !Numbers.IsDigit(ch)
    ensures ParseCurrency(text, code) == 0.0
  {
    var c := ConfigFor(code);
    var noSymbol := Text.ReplaceFirst(text, c.symbol, "");
    Text.ReplaceFirstChars(text, c.symbol, "");
    var noGroups := Text.RemoveAll(noSymbol, c.thousandsSeparator);
    var dotted := Text.ReplaceFirst(noGroups, [c.decimalSeparator], ".");
    Text.ReplaceFirstChars(noGroups, [c.decimalSeparator], ".");
    Text.TrimChars(dotted);
    Numbers.NoDigitIsNaN(Text.Trim(dotted));
  }

  /** Words and a bare symbol are not amounts. */
  lemma NonNumericExamples()
    ensures ParseCurrency("abc", "BDT") == 0.0
    ensures ParseCurrency("৳", "BDT") == 0.0
  {
    NoDigitParsesAsZero("abc", "BDT");
    NoDigitParsesAsZero("৳", "BDT");
  }

  /** Only the leading symbol is removed: whatever follows it, a second
      symbol included, keeps everything but its thousands separators, and a
      "." stays a ".". */
  lemma CleanRemovesLeadingSymbol(c: CurrencyConfig, rest: string)
    requires WellFormed(c)
    ensures CleanCurrencyText(c.symbol + rest, c) == Text.Trim(Text.RemoveAll(rest, ','))
  {
    Text.ReplaceFirstAtFront(c.symbol, rest, "");
    assert "" + rest == rest;
    Text.ReplaceFirstSelf(Text.RemoveAll(rest, ','), ".");
  }

  /** Removing the thousands separators from a formatted amount leaves the
      sign, the integer digits, "." and the fraction digits. */
  lemma {:induction false} UngroupFormatted(neg: bool, d: string, p: string)
    requires Numbers.AllDigits(d) && Numbers.AllDigits(p)
    ensures Text.RemoveAll(Numbers.SignText(neg) + GroupThousands(d) + ("." + p), ',')
            == Numbers.SignText(neg) + (d + "." + p)
  {
    var sign := Numbers.SignText(neg);
    NoCommaInFraction(p);
    assert ',' !in sign;
    UngroupThousands(d);
    RemoveAllAround(sign, GroupThousands(d), d, "." + p, ',');
    assert d + "." + p == d + ("." + p);
  }

  /** Removing a separator that only the middle part holds touches only that part. */
  lemma RemoveAllAround(a: string, b: string, b': string, c: string, ch: char)
    requires ch !in a && ch !in c && Text.RemoveAll(b, ch) == b'
    ensures Text.RemoveAll(a + b + c, ch) == a + (b' + c)
  {
    calc {
      Text.RemoveAll(a + b + c, ch);
      { Text.RemoveAllAppend(a + b, c, ch); }
      Text.RemoveAll(a + b, ch) + Text.RemoveAll(c, ch);
      { Text.RemoveAllAppend(a, b, ch); }
      Text.RemoveAll(a, ch) + b' + Text.RemoveAll(c, ch);
      { Text.RemoveAllAbsent(a, ch); Text.RemoveAllAbsent(c, ch); }
      a + b' + c;
      a + (b' + c);
    }
  }

  lemma NoCommaInDigits(d: string)
    requires Numbers.AllDigits(d)
    ensures ',' !in d
  {
    assert forall i :: 0 <= i < |d| ==> Numbers.IsDigit(d[i]);
  }

  lemma NoCommaInFraction(p: string)
    requires Numbers.AllDigits(p)
    ensures ',' !in "." + p
  {
    NoCommaInDigits(p);
    assert forall i :: 0 <= i < |"." + p| ==> ("." + p)[i] == '.' || ("." + p)[i] in p;
  }

  /** A bare formatted number has nothing for `trim` to remove. */
  lemma {:induction false} BareNumberTrimmed(neg: bool, d: string, p: string)
    requires d != [] && p != [] && Numbers.IsDigit(d[0]) && Numbers.IsDigit(p[|p| - 1])
    ensures Text.Trim(Numbers.SignText(neg) + (d + "." + p)) == Numbers.SignText(neg) + (d + "." + p)
  {
    var x := Numbers.SignText(neg) + (d + "." + p);
    assert x[0] == '-' || x[0] == d[0];
    assert x[|x| - 1] == p[|p| - 1];
    Text.TrimNoop(x);
  }

  /** The cleaning step sends a formatted amount to its bare digits. */
  lemma {:induction false} CleanFormatted(neg: bool, c: CurrencyConfig, d: string, p: string, body: string)
    requires WellFormed(c)
    requires Numbers.AllDigits(d) && Numbers.AllDigits(p) && d != [] && p != []
    requires body == Numbers.SignText(neg) + GroupThousands(d) + ("." + p)
    ensures CleanCurrencyText(c.symbol + body, c) == Numbers.SignText(neg) + (d + "." + p)
  {
    var x := Numbers.SignText(neg) + (d + "." + p);
    var s1 := Text.ReplaceFirst(c.symbol + body, c.symbol, "");
    Text.ReplaceFirstAtFront(c.symbol, body, "");
    assert s1 == body;
    var s2 := Text.RemoveAll(s1, c.thousandsSeparator);
    UngroupFormatted(neg, d, p);
    assert s2 == x;
    var s3 := Text.ReplaceFirst(s2, [c.decimalSeparator], ".");
    Text.ReplaceFirstSelf(x, ".");
    assert s3 == x;
    BareNumberTrimmed(neg, d, p);
  }

  /** The integer part and the fraction digits rebuild the amount. */
  lemma {:induction false} SplitMinorUnits(m: nat, k: nat)
    ensures (m / Numbers.Pow10(k)) as real + Numbers.Shift((m % Numbers.Pow10(k)) as real, -(k as int))
            == Numbers.Shift(m as real, -(k as int))
  {
    var scale := Numbers.Pow10(k);
    Numbers.DivFacts(m, scale);
    var q, r := m / scale, m % scale;
    Numbers.ShiftRight(m as real, k);
    Numbers.ShiftRight(r as real, k);
    Recombine(m, q, r, scale);
  }

  lemma Recombine(m: nat, q: nat, r: nat, s: nat)
    requires s >= 1 && m == q * s + r
    ensures q as real + r as real / s as real == m as real / s as real
  {
    Numbers.CastProduct(q, s);
    DivideSum(q as real, r as real, s as real);
  }

  lemma DivideSum(q: real, r: real, s: real)
    requires s > 0.0
    ensures q + r / s == (q * s + r) / s
  {
  }

  /** Shifting commutes with negation. */
  lemma {:induction false} ShiftNegate(x: real, e: int)
    ensures Numbers.Shift(-x, e) == -Numbers.Shift(x, e)
    decreases if e >= 0 then e else -e
  {
    if e > 0 {
      ShiftNegate(x, e - 1);
    } else if e < 0 {
      ShiftNegate(x, e + 1);
    }
  }

  /** Parsing undoes formatting for any well-formed configuration. */
  lemma {:induction false} ParseFormattedAmount(units: int, c: CurrencyConfig)
    requires WellFormed(c)
    ensures Numbers.ParseFloat(CleanCurrencyText(c.symbol + FormatMinorUnits(units, c.decimalPlaces), c))
            == Some(Numbers.Shift(units as real, -(c.decimalPlaces as int)))
  {
    var k := c.decimalPlaces;
    var m: nat := if units < 0 then -units else units;
    var d, p := WholeDigits(m, k), FractionDigits(m, k);
    var body := FormatMinorUnits(units, k);
    assert body == Numbers.SignText(units < 0) + GroupThousands(d) + ("." + p);
    CleanFormatted(units < 0, c, d, p, body);
    ParseBareAmount(units, m, k, d, p);
  }

  /** The bare digits of a formatted amount parse as the amount. */
  lemma {:induction false} ParseBareAmount(units: int, m: nat, k: nat, d: string, p: string)
    requires m == if units < 0 then -units else units
    requires d == WholeDigits(m, k) && p == FractionDigits(m, k)
    ensures Numbers.ParseFloat(Numbers.SignText(units < 0) + (d + "." + p))
            == Some(Numbers.Shift(units as real, -(k as int)))
  {
    var v := Numbers.DigitsValue(d) as real + Numbers.Shift(Numbers.DigitsValue(p) as real, 0 - |p|);
    Numbers.ParseFixedPoint(units < 0, d + "." + p, d, p, v);
    FormattedDigitsValue(m, k, d, p);
    SignedShift(units, m, k, v);
  }

  /** The value of the integer and fraction digits is `m / 10^k`. */
  lemma {:induction false} FormattedDigitsValue(m: nat, k: nat, d: string, p: string)
    requires d == WholeDigits(m, k) && p == FractionDigits(m, k)
    ensures Numbers.DigitsValue(d) as real + Numbers.Shift(Numbers.DigitsValue(p) as real, 0 - |p|)
            == Numbers.Shift(m as real, -(k as int))
  {
    SplitMinorUnits(m, k);
  }

  /** Restoring the sign of a shifted magnitude. */
  lemma {:induction false} SignedShift(units: int, m: nat, k: nat, v: real)
    requires m == if units < 0 then -units else units
    requires v == Numbers.Shift(m as real, -(k as int))
    ensures (if units < 0 then -v else v) == Numbers.Shift(units as real, -(k as int))
  {
    if units < 0 {
      ShiftNegate(m as real, -(k as int));
      assert units as real == -(m as real);
    }
  }

  /** Round trip: parsing a formatted amount in the same currency gives the
      amount back, for every code (unknown codes use BDT on both sides) and
      every amount, negative ones included. */
  lemma {:induction false} ParseFormatRoundTrip(units: int, code: string)
    ensures ParseCurrency(FormatCurrency(units, code), code)
            == Numbers.Shift(units as real, -(ConfigFor(code).decimalPlaces as int))
  {
    ConfigForIsWellFormed(code);
    ParseFormattedAmount(units, ConfigFor(code));
  }

  /** The round trip stated with division: the parsed value is the number
      of hundredths divided by 100. */
  lemma ParseFormatHundredths(units: int, code: string)
    ensures ParseCurrency(FormatCurrency(units, code), code) == units as real / 100.0
  {
    ParseFormatRoundTrip(units, code);
    ConfigForIsWellFormed(code);
    Numbers.ShiftRight(units as real, 2);
  }

  // ---------------------------------------------------------------------
  // Exchange rates and conversion

  /** One directional entry of the rate table. */
  datatype ExchangeRate = ExchangeRate(from: string, to: string, rate: real)

  /** The mock rate table; (A, B) and (B, A) are separate entries. */
  const MockExchangeRates: seq<ExchangeRate> := [
    ExchangeRate("BDT", "USD", 0.0091),
    ExchangeRate("BDT", "EUR", 0.0084),
    ExchangeRate("BDT", "GBP", 0.0072),
    ExchangeRate("BDT", "INR", 0.76),
    ExchangeRate("USD", "BDT", 110.0),
    ExchangeRate("EUR", "BDT", 119.0),
    ExchangeRate("GBP", "BDT", 138.0),
    ExchangeRate("INR", "BDT", 1.32)
  ]

  predicate Matches(r: ExchangeRate, from: string, to: string)
  {
    r.from == from && r.to == to
  }

  /** The test `rates.find` applies: `r => r.from === from && r.to === to`. */
  function PairTest(from: string, to: string): ExchangeRate -> bool
  {
    (r: ExchangeRate) => Matches(r, from, to)
  }

  /** The rate lookup over a table: the first matching entry's rate, or 1
      when no entry matches (or the matching rate is 0, which `|| 1` also
      replaces). */
  function RateIn(rates: seq<ExchangeRate>, from: string, to: string): real
  {
    var i := Seqs.FirstIndex(rates, PairTest(from, to));
    if i < 0 || rates[i].rate == 0.0 then 1.0 else rates[i].rate
  }

  /** `getExchangeRate(from, to)` over the mock table. */
  function GetExchangeRate(from: string, to: string): real
  {
    RateIn(MockExchangeRates, from, to)
  }

  /** `convertCurrency(amount, from, to)`: the amount itself for the same
      code (no lookup), otherwise the amount times the looked-up rate.
      Negative amounts are converted like any other. */
  function ConvertCurrency(amount: real, from: string, to: string): real
  {
    if from == to then amount else amount * GetExchangeRate(from, to)
  }

  ghost predicate DistinctPairs(rates: seq<ExchangeRate>)
  {
    forall i, j :: 0 <= i < j < |rates| ==> !Matches(rates[j], rates[i].from, rates[i].to)
  }

  /** In a table whose pairs are distinct, looking up an entry's own pair
      returns its stored rate (when non-zero), whatever its position. */
  lemma {:induction false} LookupFindsEntry(rates: seq<ExchangeRate>, k: nat)
    requires DistinctPairs(rates) && k < |rates| && rates[k].rate != 0.0
    ensures RateIn(rates, rates[k].from, rates[k].to) == rates[k].rate
  {
    var i := Seqs.FirstIndex(rates, PairTest(rates[k].from, rates[k].to));
    assert PairTest(rates[k].from, rates[k].to)(rates[k]);
    assert i != -1;
  }

  /** A pair the table does not hold gets the neutral rate 1. */
  lemma {:induction false} LookupMissingIsOne(rates: seq<ExchangeRate>, from: string, to: string)
    requires forall i :: 0 <= i < |rates| ==> !Matches(rates[i], from, to)
    ensures RateIn(rates, from, to) == 1.0
  {
    var i := Seqs.FirstIndex(rates, PairTest(from, to));
    assert forall j :: 0 <= j < |rates| ==> !PairTest(from, to)(rates[j]);
  }

  lemma MockTableDistinct()
    ensures DistinctPairs(MockExchangeRates)
  {
  }

  /** Every rate the lookup returns is positive. */
  lemma {:induction false} RatesArePositive(from: string, to: string)
    ensures GetExchangeRate(from, to) > 0.0
  {
    var i := Seqs.FirstIndex(MockExchangeRates, PairTest(from, to));
    if i >= 0 {
      assert MockExchangeRates[i].rate > 0.0;
    }
  }

  /** The stored directional rates, and the neutral rate for pairs the table
      lacks: a self-pair and a pair between two non-BDT currencies. */
  lemma {:induction false} MockRates()
    ensures GetExchangeRate("BDT", "USD") == 0.0091
    ensures GetExchangeRate("USD", "BDT") == 110.0
    ensures GetExchangeRate("BDT", "USD") * GetExchangeRate("USD", "BDT") == 1.001
    ensures GetExchangeRate("BDT", "BDT") == 1.0
    ensures GetExchangeRate("USD", "EUR") == 1.0
  {
    MockStoredRates();
    MockMissingRates();
  }

  /** A self-pair and a pair between two non-BDT currencies are not listed. */
  lemma MockMissingRates()
    ensures GetExchangeRate("BDT", "BDT") == 1.0
    ensures GetExchangeRate("USD", "EUR") == 1.0
  {
    var t := MockExchangeRates;
    assert forall j :: 0 <= j < |t| ==> !Matches(t[j], "BDT", "BDT") && !Matches(t[j], "USD", "EUR");
    LookupMissingIsOne(t, "BDT", "BDT");
    LookupMissingIsOne(t, "USD", "EUR");
  }

  /** The two BDT/USD entries are the first matches for their pairs. */
  lemma MockStoredRates()
    ensures GetExchangeRate("BDT", "USD") == 0.0091
    ensures GetExchangeRate("USD", "BDT") == 110.0
  {
    var t := MockExchangeRates;
    assert PairTest("BDT", "USD")(t[0]);
    assert forall j :: 0 <= j < 4 ==> !PairTest("USD", "BDT")(t[j]);
    assert PairTest("USD", "BDT")(t[4]);
  }

  /** The table holds no self-pair, so the short cut for equal codes agrees
      with the lookup: conversion is always a multiplication by the rate. */
  lemma {:induction false} ConvertIsScaling(amount: real, from: string, to: string)
    ensures ConvertCurrency(amount, from, to) == amount * GetExchangeRate(from, to)
    ensures from == to ==> ConvertCurrency(amount, from, to) == amount
  {
    if from == to {
      LookupMissingIsOne(MockExchangeRates, from, to);
    }
  }

  /** 100 BDT is 0.91 USD; converting back gives 100.1 BDT, not 100. */
  lemma {:induction false} ConvertExamples()
    ensures ConvertCurrency(100.0, "BDT", "USD") == 0.91
    ensures ConvertCurrency(ConvertCurrency(100.0, "BDT", "USD"), "USD", "BDT") == 100.1
  {
    MockRates();
  }

  /** Zero in the default currency. */
  lemma FormatZero()
    ensures FormatCurrency(0, "BDT") == "৳0.00"
  {
    var c := ConfigFor("BDT");
    assert c == SupportedCurrencies["BDT"];
    assert c.symbol == "৳" && c.decimalPlaces == 2;
    FormatMinorZero();
    assert FormatCurrency(0, "BDT") == "৳" + "0.00";
  }

  lemma FormatMinorZero()
    ensures FormatMinorUnits(0, 2) == "0.00"
  {
    ZeroDigits();
    assert GroupThousands("0") == "0";
  }

  lemma ZeroDigits()
    ensures WholeDigits(0, 2) == "0" && FractionDigits(0, 2) == "00"
  {
    assert Numbers.Pow10(2) == 100;
    assert Numbers.NatToString(0) == "0";
  }

  /** An amount above a thousand gets a grouping separator. */
  lemma FormatThousands()
    ensures FormatCurrency(123450, "USD") == "$1,234.50"
  {
    assert ConfigFor("USD") == CurrencyConfig("USD", "$", "US Dollar", 2, ',', '.');
    FormatMinorThousands();
  }

  lemma FormatMinorThousands()
    ensures FormatMinorUnits(123450, 2) == "1,234.50"
  {
    ThousandsDigits();
    assert "1234"[..1] == "1" && "1234"[1..] == "234";
    assert GroupThousands("1234") == "1,234";
  }

  lemma ThousandsDigits()
    ensures WholeDigits(123450, 2) == "1234" && FractionDigits(123450, 2) == "50"
  {
    assert Numbers.Pow10(2) == 100;
    assert Numbers.NatToString(1) == "1";
    assert Numbers.NatToString(12) == "12";
    assert Numbers.NatToString(123) == "123";
  }

  /** An unregistered code behaves as the default currency everywhere. */
  lemma UnknownCodeFallsBack(code: string, units: int, text: string)
    requires !IsValidCurrency(code)
    ensures ConfigFor(code) == ConfigFor(GetDefaultCurrency())
    ensures FormatCurrency(units, code) == FormatCurrency(units, GetDefaultCurrency())
    ensures ParseCurrency(text, code) == ParseCurrency(text, GetDefaultCurrency())
    ensures GetCurrencySymbol(code) == "৳"
  {
  }
}
