/**
 * The domain records of the money calculator (package `architecture.model`):
 * currencies, amounts of money, exchange rates, rate series and chart descriptions.
 */
module Model {

  /** The exceptions the modelled code can throw, grouped by cause. */
  datatype Failure =
    | NullPointer        // a null reference was dereferenced (missing JSON key, empty selection, unknown command)
    | IllegalArgument    // IllegalArgumentException: an index out of a selector's range, a null buffer
    | IllegalThreadState // Thread.start on a thread that was already started
    | Malformed          // Gson refused the shape of a JSON element (not an object, not a string, not a number)
    | Remote             // the HTTP fetch failed or its body was not JSON (wrapped in RuntimeException)
    | StackOverflow      // a command that re-dispatches to itself without end
    | DateTime           // DateTimeException: a day of the year the year does not have

  /** A currency: its ISO code and its display name. */
  datatype Currency = Currency(code: string, name: string)

  /** What a Java `equals(Object)` can be handed: a currency, some other object, or null. */
  datatype JavaObject = OfCurrency(currency: Currency) | OtherObject | Null

  /** `Currency.equals`: the other object is a currency with the same code; the name plays no part. */
  predicate Equals(c: Currency, obj: JavaObject)
  {
    obj.OfCurrency? && c.code == obj.currency.code
  }

  /** `Currency.toString`: the code, a hyphen, then the name. */
  function ToString(c: Currency): (s: string)
    ensures |s| == |c.code| + 1 + |c.name|
    ensures s[..|c.code|] == c.code && s[|c.code|] == '-' && s[|c.code| + 1..] == c.name
  {
    c.code + "-" + c.name
  }

  /** Two currencies with the same code are equal whatever their names. */
  lemma EqualsIgnoresName(code: string, name1: string, name2: string)
    ensures Equals(Currency(code, name1), OfCurrency(Currency(code, name2)))
  {
  }

  /** Equality holds exactly when the codes agree. */
  lemma EqualsIffSameCode(a: Currency, b: Currency)
    ensures Equals(a, OfCurrency(b)) <==> a.code == b.code
  {
  }

  /** Nothing that is not a currency, null included, is equal to a currency. */
  lemma EqualsOnlyCurrencies(c: Currency, obj: JavaObject)
    requires !obj.OfCurrency?
    ensures !Equals(c, obj)
  {
  }

  /** `equals` restricted to currencies is an equivalence relation. */
  lemma EqualsIsEquivalence(a: Currency, b: Currency, c: Currency)
    ensures Equals(a, OfCurrency(a))
    ensures Equals(a, OfCurrency(b)) ==> Equals(b, OfCurrency(a))
    ensures Equals(a, OfCurrency(b)) && Equals(b, OfCurrency(c)) ==> Equals(a, OfCurrency(c))
  {
  }

  /** Equal currencies with different names print differently: `toString` sees the name, `equals` does not. */
  lemma ToStringSeesName(a: Currency, b: Currency)
    requires Equals(a, OfCurrency(b)) && a.name != b.name
    ensures ToString(a) != ToString(b)
  {
  }

  /** An amount of a currency. The amount is a Java double, modelled as a real number. */
  datatype Money = Money(amount: real, currency: Currency)

  /** The rate converting one unit of `from` into `to`, with the provider's timestamp text. */
  datatype ExchangeRate = ExchangeRate(from: Currency, to: Currency, date: string, rate: real)

  /** Rates from `from` to `to` by date key; a key has one rate (a Java HashMap). */
  datatype ExchangeRateTimeSeries = ExchangeRateTimeSeries(from: Currency, to: Currency, rates: map<string, real>)

  /** A chart description: title and axis labels, no data. */
  datatype TimeSeriesChart = TimeSeriesChart(title: string, xAxisLabel: string, yAxisLabel: string)
}
