/**
 * The Frankfurter loaders: the request URLs they build and how they turn the parsed response
 * into currencies, a latest rate, or a series of daily rates.
 */
module Frankfurter {
  import opened Wrappers
  import opened Model
  import opened JsonValues
  import opened Calendar
  import opened Text

  /**
   * One request to the rates service: the HTTP GET of a URL followed by Gson's parse of the body.
   * A failed fetch, a status other than 200 or unreadable text is `Err(Remote)`: the fetcher wraps
   * every such problem in a RuntimeException.
   */
  type Api = string -> Result<Json, Failure>

  const Host := "https://api.frankfurter.dev/v1/"
  const CurrenciesUrl := Host + "currencies"
  const LatestPrefix := Host + "latest?symbols="

  /** `fromJson(json, JsonObject.class)`: the members of the top-level object; any other kind of value, `null` included, is a syntax error. */
  function TopObject(j: Json): (r: Result<seq<(string, Json)>, Failure>)
    ensures r.Ok? <==> j.JObject?
    ensures !j.JObject? ==> r == Err(Malformed)
  {
    match j
    case JObject(ms) => Ok(ms)
    case _ => Err(Malformed)
  }

  /** The member `key` of an object element, None for an absent key or a non-object. */
  function Member(j: Json, key: string): Option<Json>
  {
    if j.JObject? then Get(j.members, key) else None
  }

  // ---------------------------------------------------------------- currencies

  /** One symbol of the currencies response: the key is the code, the value's text the name. */
  function CurrencyOf(m: (string, Json)): (r: Result<Currency, Failure>)
    ensures r.Ok? <==> AsString(m.1).Ok?
    ensures r.Ok? ==> r.value == Currency(m.0, AsString(m.1).value)
  {
    match AsString(m.1)
    case Ok(name) => Ok(Currency(m.0, name))
    case Err(e) => Err(e)
  }

  /** The list `toList` builds from the symbols in order, or the first failure among them. */
  function CurrenciesFrom(ms: seq<(string, Json)>): Result<seq<Currency>, Failure>
  {
    if ms == [] then Ok([])
    else match CurrenciesFrom(ms[..|ms| - 1])
      case Err(e) => Err(e)
      case Ok(cs) =>
        match CurrencyOf(ms[|ms| - 1])
        case Err(e) => Err(e)
        case Ok(c) => Ok(cs + [c])
  }

  /** What `load()` returns for a parsed response, the exception it raises as an Err. */
  function CurrenciesOf(j: Json): Result<seq<Currency>, Failure>
  {
    match TopObject(j)
    case Err(e) => Err(e)
    case Ok(ms) => CurrenciesFrom(ms)
  }

  /** The list succeeds exactly when every value has a text, and then holds one currency per symbol, in order. */
  lemma {:induction false} CurrenciesFromContents(ms: seq<(string, Json)>)
    ensures CurrenciesFrom(ms).Ok? <==> forall i :: 0 <= i < |ms| ==> AsString(ms[i].1).Ok?
    ensures CurrenciesFrom(ms).Ok? ==>
      |CurrenciesFrom(ms).value| == |ms| &&
      forall i :: 0 <= i < |ms| ==> CurrenciesFrom(ms).value[i] == Currency(ms[i].0, AsString(ms[i].1).value)
    decreases |ms|
  {
    if ms != [] {
      var init := ms[..|ms| - 1];
      CurrenciesFromContents(init);
      assert forall i :: 0 <= i < |init| ==> init[i] == ms[i];
    }
  }

  /** Symbols of an object are distinct, so no two loaded currencies are equal. */
  lemma CurrenciesDistinct(ms: seq<(string, Json)>)
    requires DistinctKeys(ms) && CurrenciesFrom(ms).Ok?
    ensures forall i, k :: 0 <= i < k < |CurrenciesFrom(ms).value| ==>
      !Equals(CurrenciesFrom(ms).value[i], OfCurrency(CurrenciesFrom(ms).value[k]))
  {
    CurrenciesFromContents(ms);
  }

  /** A failure at some symbol is the failure of the whole list: a prefix that failed decides. */
  lemma {:induction false} CurrenciesFromPrefixErr(ms: seq<(string, Json)>, n: nat)
    requires n <= |ms| && CurrenciesFrom(ms[..n]).Err?
    ensures CurrenciesFrom(ms) == CurrenciesFrom(ms[..n])
    decreases |ms| - n
  {
    if n < |ms| {
      assert ms[..n + 1][..n] == ms[..n];
      CurrenciesFromPrefixErr(ms, n + 1);
    } else {
      assert ms[..n] == ms;
    }
  }

  /** `toList(json)`: walks the symbols in order, adding one currency per symbol. */
  method ToList(j: Json) returns (r: Result<seq<Currency>, Failure>)
    ensures r == CurrenciesOf(j)
  {
    var top := TopObject(j);
    if top.Err? {
      return Err(top.error);
    }
    var symbols := top.value;
    var list: seq<Currency> := [];
    var i := 0;
    while i < |symbols|
      invariant 0 <= i <= |symbols|
      invariant CurrenciesFrom(symbols[..i]) == Ok(list)
    {
      assert symbols[..i + 1][..i] == symbols[..i];
      var c := CurrencyOf(symbols[i]);
      if c.Err? {
        CurrenciesFromPrefixErr(symbols, i + 1);
        return Err(c.error);
      }
      list := list + [c.value];
      i := i + 1;
    }
    assert symbols[..i] == symbols;
    r := Ok(list);
  }

  /**
   * `load()`: one request to the currencies URL, then `toList`. Nothing is caught: a failed
   * request or an unreadable symbol is raised to the caller rather than giving an empty list.
   */
  method LoadCurrencies(api: Api) returns (r: Result<seq<Currency>, Failure>)
    ensures api(CurrenciesUrl).Err? ==> r == Err(api(CurrenciesUrl).error)
    ensures api(CurrenciesUrl).Ok? ==> r == CurrenciesOf(api(CurrenciesUrl).value)
  {
    var response := api(CurrenciesUrl);
    if response.Err? {
      return Err(response.error);
    }
    r := ToList(response.value);
  }

  /** The loaded list is empty only when the response is an empty object, and a failure never looks like an empty list. */
  lemma EmptyOnlyFromEmptyObject(j: Json)
    ensures CurrenciesOf(j) == Ok([]) <==> j == JObject([])
  {
    if j.JObject? {
      CurrenciesFromContents(j.members);
    }
  }

  // ---------------------------------------------------------------- the latest rate

  /** The URL of the latest rate: the target code as symbol, the source code as base. */
  function LatestUrl(from: Currency, to: Currency): string
  {
    LatestPrefix + to.code + "&base=" + from.code
  }

  /** When the target code has no ampersand, the URL gives back both codes. */
  lemma LatestUrlRoundTrip(from: Currency, to: Currency)
    requires '&' !in to.code
    ensures LatestUrl(from, to)[..|LatestPrefix|] == LatestPrefix
    ensures SplitAt(LatestUrl(from, to)[|LatestPrefix|..], '&') == Some((to.code, "base=" + from.code))
  {
    var url := LatestUrl(from, to);
    assert url[|LatestPrefix|..] == to.code + ['&'] + ("base=" + from.code);
    SplitAtJoin(to.code, "base=" + from.code, '&');
  }

  /** Different pairs (target codes without ampersands) ask for different URLs. */
  lemma LatestUrlIdentifiesPair(a: Currency, b: Currency, c: Currency, d: Currency)
    requires '&' !in b.code && '&' !in d.code
    requires LatestUrl(a, b) == LatestUrl(c, d)
    ensures a.code == c.code && b.code == d.code
  {
    LatestUrlRoundTrip(a, b);
    LatestUrlRoundTrip(c, d);
    assert ("base=" + a.code)[5..] == a.code && ("base=" + c.code)[5..] == c.code;
  }

  /**
   * `toExchangeRate(from, to, json)`: the date is read first (the JSON text of the "date" member,
   * a missing member being a null reference), then `rates[to.code]` as a number.
   */
  function ToExchangeRate(from: Currency, to: Currency, j: Json): (r: Result<ExchangeRate, Failure>)
    ensures r.Ok? <==>
              (j.JObject? && Member(j, "date").Some? && Member(j, "rates").Some?
               && Member(Member(j, "rates").value, to.code).Some?
               && AsDouble(Member(Member(j, "rates").value, to.code).value).Ok?)
    ensures r.Ok? ==>
              (r.value.from == from && r.value.to == to
               && r.value.date == Serialize(Member(j, "date").value)
               && r.value.rate == AsDouble(Member(Member(j, "rates").value, to.code).value).value)
    ensures j.JObject? && Member(j, "rates").None? ==> r == Err(NullPointer)
    ensures (j.JObject? && Member(j, "rates").Some? && Member(j, "rates").value.JObject?
             && Member(Member(j, "rates").value, to.code).None?) ==> r == Err(NullPointer)
  {
    match TopObject(j)
    case Err(e) => Err(e)
    case Ok(ms) =>
      match Get(ms, "date")
      case None => Err(NullPointer)
      case Some(d) =>
        var date := Serialize(d);
        match Get(ms, "rates")
        case None => Err(NullPointer)
        case Some(rates) =>
          match AsObject(rates)
          case Err(e) => Err(e)
          case Ok(rm) =>
            match Get(rm, to.code)
            case None => Err(NullPointer)
            case Some(v) =>
              match AsDouble(v)
              case Err(e) => Err(e)
              case Ok(x) => Ok(ExchangeRate(from, to, date, x))
  }

  /**
   * `load(from, to)`: one request to the latest-rate URL, then `toExchangeRate`. The null return
   * for an IOException never happens, since the fetcher raises RuntimeException instead.
   */
  function LoadRate(api: Api, from: Currency, to: Currency): (r: Result<ExchangeRate, Failure>)
    ensures api(LatestUrl(from, to)).Err? ==> r == Err(api(LatestUrl(from, to)).error)
    ensures api(LatestUrl(from, to)).Ok? ==> r == ToExchangeRate(from, to, api(LatestUrl(from, to)).value)
  {
    match api(LatestUrl(from, to))
    case Err(e) => Err(e)
    case Ok(j) => ToExchangeRate(from, to, j)
  }

  /** The members of the service's usual latest-rate answer are found under their keys. */
  lemma LatestMembers(amount: Json, base: Json, date: Json, rates: Json)
    ensures var ms := [("amount", amount), ("base", base), ("date", date), ("rates", rates)];
      Get(ms, "date") == Some(date) && Get(ms, "rates") == Some(rates)
  {
    var ms := [("amount", amount), ("base", base), ("date", date), ("rates", rates)];
    assert "amount"[0] == 'a' && "base"[0] == 'b' && "date"[0] == 'd' && "rates"[0] == 'r';
    assert ms[1..][1..][1..] == [("rates", rates)];
    assert ms[1..][1..] == [("date", date), ("rates", rates)];
    assert Get(ms[1..][1..], "date") == Some(date);
    assert Get(ms[1..], "date") == Some(date);
    assert Get(ms[1..][1..][1..], "rates") == Some(rates);
    assert Get(ms[1..][1..], "rates") == Some(rates);
    assert Get(ms[1..], "rates") == Some(rates);
  }

  /**
   * The service's usual answer: the rate is the number under the target code, and the date,
   * an ISO date string, is stored with its quote characters around it.
   */
  lemma TypicalLatestResponse(from: Currency, to: Currency, amount: Json, base: Json, day: string, rate: real, text: string)
    requires forall i :: 0 <= i < |day| ==> Plain(day[i])
    ensures ToExchangeRate(from, to,
      JObject([("amount", amount), ("base", base), ("date", JString(day)), ("rates", JObject([(to.code, JNumber(rate, text))]))]))
      == Ok(ExchangeRate(from, to, "\"" + day + "\"", rate))
  {
    var rates := JObject([(to.code, JNumber(rate, text))]);
    var ms := [("amount", amount), ("base", base), ("date", JString(day)), ("rates", rates)];
    LatestMembers(amount, base, JString(day), rates);
    EscapePlain(day);
    assert TopObject(JObject(ms)) == Ok(ms);
    assert AsObject(rates) == Ok(rates.members);
    assert Get(rates.members, to.code) == Some(JNumber(rate, text));
    assert AsDouble(JNumber(rate, text)) == Ok(rate);
  }

  // ---------------------------------------------------------------- the time series

  /** `ofYearDay(year - 1, dayOfMonth)`: the first day requested for the series. */
  function StartDay(today: Date): (d: Date)
    requires Valid(today) && today.year >= 1
    ensures Valid(d) && d == Date(today.year - 1, 1, today.day)
  {
    OfYearDayInJanuary(today.year - 1, today.day);
    OfYearDay(today.year - 1, today.day).value
  }

  /** The start day is the same day of last year only in January; in any other month it is a January date. */
  lemma StartDayIsYearAgoOnlyInJanuary(today: Date)
    requires Valid(today) && today.year >= 1
    ensures StartDay(today) == Date(today.year - 1, today.month, today.day) <==> today.month == 1
    ensures Before(StartDay(today), today)
  {
  }

  /** The URL of the series: from the start day on, the target code as symbol, the source code as base. */
  function SeriesUrl(start: Date, from: Currency, to: Currency): string
    requires Valid(start)
  {
    Host + Format(start) + "..?symbols=" + to.code + "&base=" + from.code
  }

  lemma SeriesUrlParts(start: Date, from: Currency, to: Currency)
    requires Valid(start)
    ensures SeriesUrl(start, from, to)[|Host|..|Host| + 10] == Format(start)
    ensures SeriesUrl(start, from, to)[|Host| + 21..] == to.code + ['&'] + ("base=" + from.code)
  {
    var day, query := Format(start), to.code + ['&'] + ("base=" + from.code);
    var rest := "..?symbols=" + query;
    assert SeriesUrl(start, from, to) == Host + day + rest;
    MiddleOf(Host, day, rest);
    SuffixOf(Host + day, rest);
    SuffixOf("..?symbols=", query);
    assert (Host + day + rest)[|Host| + 21..] == rest[11..];
  }

  /** The series URL names the start day and, when the target code has no ampersand, both codes. */
  lemma SeriesUrlIdentifies(s1: Date, a: Currency, b: Currency, s2: Date, c: Currency, d: Currency)
    requires Valid(s1) && Valid(s2) && '&' !in b.code && '&' !in d.code
    requires SeriesUrl(s1, a, b) == SeriesUrl(s2, c, d)
    ensures s1 == s2 && a.code == c.code && b.code == d.code
  {
    SeriesUrlParts(s1, a, b);
    SeriesUrlParts(s2, c, d);
    FormatOrder(s1, s2);
    SplitAtJoin(b.code, "base=" + a.code, '&');
    SplitAtJoin(d.code, "base=" + c.code, '&');
    assert ("base=" + a.code)[5..] == a.code && ("base=" + c.code)[5..] == c.code;
  }

  /** One day of the series: the entry's object, and in it the number under the target code. */
  function EntryRate(entry: Json, code: string): (r: Result<real, Failure>)
    ensures r.Ok? <==> Member(entry, code).Some? && AsDouble(Member(entry, code).value).Ok?
    ensures r.Ok? ==> r.value == AsDouble(Member(entry, code).value).value
  {
    match AsObject(entry)
    case Err(e) => Err(e)
    case Ok(vm) =>
      match Get(vm, code)
      case None => Err(NullPointer)
      case Some(v) => AsDouble(v)
  }

  /** The map `toTimeSeries` fills from the days in order, or the first failure among them. */
  function SeriesRatesOf(ms: seq<(string, Json)>, code: string): Result<map<string, real>, Failure>
  {
    if ms == [] then Ok(map[])
    else match SeriesRatesOf(ms[..|ms| - 1], code)
      case Err(e) => Err(e)
      case Ok(m) =>
        match EntryRate(ms[|ms| - 1].1, code)
        case Err(e) => Err(e)
        case Ok(v) => Ok(m[ms[|ms| - 1].0 := v])
  }

  /** The series succeeds exactly when every day has a rate for the code: one missing rate fails the whole call. */
  lemma {:induction false} SeriesRatesOk(ms: seq<(string, Json)>, code: string)
    ensures SeriesRatesOf(ms, code).Ok? <==> forall i :: 0 <= i < |ms| ==> EntryRate(ms[i].1, code).Ok?
    decreases |ms|
  {
    if ms != [] {
      var init := ms[..|ms| - 1];
      SeriesRatesOk(init, code);
      assert forall i :: 0 <= i < |init| ==> init[i] == ms[i];
    }
  }

  /** The days of a series are exactly the keys of the "rates" object. */
  lemma {:induction false} SeriesRatesKeys(ms: seq<(string, Json)>, code: string)
    requires SeriesRatesOf(ms, code).Ok?
    ensures SeriesRatesOf(ms, code).value.Keys == set i | 0 <= i < |ms| :: ms[i].0
    decreases |ms|
  {
    if ms != [] {
      var init := ms[..|ms| - 1];
      SeriesRatesKeys(init, code);
      var keys := set i | 0 <= i < |ms| :: ms[i].0;
      var initKeys := set i | 0 <= i < |init| :: init[i].0;
      assert keys == initKeys + {ms[|ms| - 1].0} by {
        forall x | x in keys ensures x in initKeys + {ms[|ms| - 1].0} {
          var i :| 0 <= i < |ms| && ms[i].0 == x;
          if i < |init| {
            assert init[i].0 == x;
          }
        }
        forall x | x in initKeys ensures x in keys {
          var i :| 0 <= i < |init| && init[i].0 == x;
          assert ms[i].0 == x;
        }
      }
    }
  }

  /** With distinct keys, each day of the series holds the rate of that day's entry. */
  lemma {:induction false} SeriesRatesValues(ms: seq<(string, Json)>, code: string)
    requires SeriesRatesOf(ms, code).Ok? && DistinctKeys(ms)
    ensures forall i :: 0 <= i < |ms| ==>
      ms[i].0 in SeriesRatesOf(ms, code).value && EntryRate(ms[i].1, code).Ok? && SeriesRatesOf(ms, code).value[ms[i].0] == EntryRate(ms[i].1, code).value
    decreases |ms|
  {
    if ms != [] {
      var init := ms[..|ms| - 1];
      assert DistinctKeys(init);
      SeriesRatesValues(init, code);
      SeriesRatesOk(ms, code);
      assert forall i :: 0 <= i < |init| ==> init[i] == ms[i];
    }
  }

  lemma {:induction false} SeriesRatesPrefixErr(ms: seq<(string, Json)>, code: string, n: nat)
    requires n <= |ms| && SeriesRatesOf(ms[..n], code).Err?
    ensures SeriesRatesOf(ms, code) == SeriesRatesOf(ms[..n], code)
    decreases |ms| - n
  {
    if n < |ms| {
      assert ms[..n + 1][..n] == ms[..n];
      SeriesRatesPrefixErr(ms, code, n + 1);
    } else {
      assert ms[..n] == ms;
    }
  }

  /** `getAsJsonObject("rates")` on the parsed response: absent is a null reference, a non-object a failed cast. */
  function RatesMembers(j: Json): (r: Result<seq<(string, Json)>, Failure>)
    ensures r.Ok? <==> Member(j, "rates").Some? && Member(j, "rates").value.JObject?
    ensures r.Ok? ==> r.value == Member(j, "rates").value.members
  {
    match TopObject(j)
    case Err(e) => Err(e)
    case Ok(ms) =>
      match Get(ms, "rates")
      case None => Err(NullPointer)
      case Some(rates) => if rates.JObject? then Ok(rates.members) else Err(Malformed)
  }

  /** What `toTimeSeries(base, other, json)` returns, the exception it raises as an Err. */
  function SeriesOf(base: Currency, other: Currency, j: Json): Result<ExchangeRateTimeSeries, Failure>
  {
    match RatesMembers(j)
    case Err(e) => Err(e)
    case Ok(rm) =>
      match SeriesRatesOf(rm, other.code)
      case Err(e) => Err(e)
      case Ok(m) => Ok(ExchangeRateTimeSeries(base, other, m))
  }

  /** `toTimeSeries(base, other, json)`: walks the days of "rates" in order, putting each day's rate. */
  method ToTimeSeries(base: Currency, other: Currency, j: Json) returns (r: Result<ExchangeRateTimeSeries, Failure>)
    ensures r == SeriesOf(base, other, j)
  {
    var entries := RatesMembers(j);
    if entries.Err? {
      return Err(entries.error);
    }
    var days := entries.value;
    var rates: map<string, real> := map[];
    var i := 0;
    while i < |days|
      invariant 0 <= i <= |days|
      invariant SeriesRatesOf(days[..i], other.code) == Ok(rates)
    {
      assert days[..i + 1][..i] == days[..i];
      var rateValue := EntryRate(days[i].1, other.code);
      if rateValue.Err? {
        SeriesRatesPrefixErr(days, other.code, i + 1);
        return Err(rateValue.error);
      }
      rates := rates[days[i].0 := rateValue.value];
      i := i + 1;
    }
    assert days[..i] == days;
    r := Ok(ExchangeRateTimeSeries(base, other, rates));
  }

  /** What `loadStatistic(from, to)` returns on a given day. */
  function StatisticOf(api: Api, today: Date, from: Currency, to: Currency): (r: Result<ExchangeRateTimeSeries, Failure>)
    requires Valid(today) && today.year >= 1
    ensures r.Ok? ==> r.value.from == from && r.value.to == to
  {
    match api(SeriesUrl(StartDay(today), from, to))
    case Err(e) => Err(e)
    case Ok(j) => SeriesOf(from, to, j)
  }

  /** `loadStatistic(from, to)`: one request for the series from the start day, then `toTimeSeries`. */
  method LoadStatistic(api: Api, today: Date, from: Currency, to: Currency) returns (r: Result<ExchangeRateTimeSeries, Failure>)
    requires Valid(today) && today.year >= 1
    ensures r == StatisticOf(api, today, from, to)
    ensures r.Ok? ==> r.value.from == from && r.value.to == to
  {
    var startDay := StartDay(today);
    var url := SeriesUrl(startDay, from, to);
    var response := api(url);
    if response.Err? {
      return Err(response.error);
    }
    r := ToTimeSeries(from, to, response.value);
  }
}
