/**
 * The commands (package `architecture.control`) and the frame's buttons that dispatch them.
 * Each command's effect is first stated as a value (the calls it makes, the failure it raises,
 * what it puts on screen); the methods that run it on the frame are proved against that value.
 */
module Control {
  import opened Wrappers
  import opened Model
  import opened Calendar
  import opened Animation
  import ChartLoading
  import Frankfurter
  import opened Swing

  const InvalidDataMessage := "Please, insert valid data"
  const ErrorTitle := "Error"

  /** The target currency as the argument `Currency.equals` receives: null when nothing is selected. */
  function TargetObject(target: Option<Currency>): (o: JavaObject)
    ensures o == Null <==> target.None?
  {
    if target.Some? then OfCurrency(target.value) else Null
  }

  // ---------------------------------------------------------------- exchange money

  /**
   * One run of the exchange command: the collaborator calls in order, how it ends, and what it
   * put on screen (the chart with its series, and the source and result money).
   */
  datatype ExchangeRun = ExchangeRun(
    events: seq<Event>,
    outcome: Outcome<Failure>,
    chart: Option<(TimeSeriesChart, ExchangeRateTimeSeries)>,
    money: Option<(Money, Money)>)

  /** The converted amount: the source amount times the rate. */
  function Converted(amount: real, rate: ExchangeRate): real
  {
    amount * rate.rate
  }

  /** The guard of `execute`: the currencies differ (by code) and the amount is not negative. */
  predicate Accepts(from: Currency, target: Option<Currency>, amount: real)
  {
    !Equals(from, TargetObject(target)) && amount >= 0.0
  }

  /** What the command's `ExchangeRateLoader` returns for a pair of currencies. */
  type RateLoader = (Currency, Currency) -> Result<ExchangeRate, Failure>

  /** What the command's `StatisticLoader` returns for a pair of currencies. */
  type SeriesLoader = (Currency, Currency) -> Result<ExchangeRateTimeSeries, Failure>

  /** The Frankfurter rate loader over a given web service. */
  function FrankfurterRates(api: Frankfurter.Api): RateLoader
  {
    (from: Currency, to: Currency) => Frankfurter.LoadRate(api, from, to)
  }

  /** The Frankfurter time-series loader over a given web service, on a given day. */
  function FrankfurterSeries(api: Frankfurter.Api, today: Date): SeriesLoader
    requires Valid(today) && today.year >= 1
  {
    (from: Currency, to: Currency) => Frankfurter.StatisticOf(api, today, from, to)
  }

  /** The Frankfurter loaders answer for the pair they were asked about. */
  lemma FrankfurterPairs(api: Frankfurter.Api, today: Date, from: Currency, to: Currency)
    requires Valid(today) && today.year >= 1
    ensures FrankfurterRates(api)(from, to).Ok? ==>
      FrankfurterRates(api)(from, to).value.from == from && FrankfurterRates(api)(from, to).value.to == to
    ensures FrankfurterSeries(api, today)(from, to).Ok? ==>
      FrankfurterSeries(api, today)(from, to).value.from == from && FrankfurterSeries(api, today)(from, to).value.to == to
  {
  }

  /**
   * `ExchangeMoneyCommand.execute()` given what the two dialogs hand over and the two loaders.
   * A null source currency fails at `equals`; a null target passes the guard and then fails
   * inside the rate loader, which dereferences it to build its request; a failing loader ends
   * the run with its failure, before anything is shown.
   */
  function Exchange(entered: Entered, target: Option<Currency>, rates: RateLoader, statistics: SeriesLoader): (run: ExchangeRun)
    ensures |run.events| >= 2 && run.events[..2] == [ReadMoney, ReadCurrency]
    ensures run.chart.Some? <==> run.money.Some?
    ensures run.money.Some? ==> run.outcome == Pass
  {
    var dialogs := [ReadMoney, ReadCurrency];
    if entered.currency.None? then ExchangeRun(dialogs, Fail(NullPointer), None, None)
    else
      var from := entered.currency.value;
      if !Accepts(from, target, entered.amount) then
        ExchangeRun(dialogs + [ErrorShown(InvalidDataMessage, ErrorTitle)], Pass, None, None)
      else
        var loading := dialogs + [RateLoaded(from, target)];
        if target.None? then ExchangeRun(loading, Fail(NullPointer), None, None)
        else
          var to := target.value;
          match rates(from, to)
          case Err(e) => ExchangeRun(loading, Fail(e), None, None)
          case Ok(rate) =>
            var result := Money(Converted(entered.amount, rate), to);
            var chart := ChartLoading.Load(from, to);
            var fetched := loading + [ChartLoaded(from, to), StatisticLoaded(from, to)];
            match statistics(from, to)
            case Err(e) => ExchangeRun(fetched, Fail(e), None, None)
            case Ok(series) =>
              var source := Money(entered.amount, from);
              ExchangeRun(fetched + [ChartShown(chart, series), MoneyShown(source, result)], Pass,
                Some((chart, series)), Some((source, result)))
  }

  /** Calls of a given kind in a run. */
  function RateLoads(events: seq<Event>): (n: nat)
    ensures n <= |events|
  {
    if events == [] then 0 else RateLoads(events[..|events| - 1]) + (if events[|events| - 1].RateLoaded? then 1 else 0)
  }

  /** Whether a run reached the loaders. */
  predicate Proceeded(run: ExchangeRun)
  {
    exists k :: 0 <= k < |run.events| && run.events[k].RateLoaded?
  }

  /**
   * The command goes on to the loaders exactly when the source currency is set, its code differs
   * from the target's (or there is no target) and the amount is not negative. Otherwise it shows
   * the one error dialog and nothing else: no loader call, nothing on screen, no failure.
   */
  lemma ExchangeProceedsIff(entered: Entered, target: Option<Currency>, rates: RateLoader, statistics: SeriesLoader)
    ensures var run := Exchange(entered, target, rates, statistics);
      (Proceeded(run) <==> entered.currency.Some? && Accepts(entered.currency.value, target, entered.amount))
      && (entered.currency.Some? && !Accepts(entered.currency.value, target, entered.amount) ==>
            run == ExchangeRun([ReadMoney, ReadCurrency, ErrorShown(InvalidDataMessage, ErrorTitle)], Pass, None, None))
  {
    var run := Exchange(entered, target, rates, statistics);
    if entered.currency.Some? && Accepts(entered.currency.value, target, entered.amount) {
      assert run.events[2].RateLoaded?;
    } else {
      assert forall k :: 0 <= k < |run.events| ==> !run.events[k].RateLoaded?;
    }
  }

  /** With a target whose code is the source's, the command refuses whatever the amount and the currency names. */
  lemma SameCodeIsRefused(entered: Entered, target: Currency, rates: RateLoader, statistics: SeriesLoader)
    requires entered.currency.Some? && entered.currency.value.code == target.code
    ensures Exchange(entered, Some(target), rates, statistics).events == [ReadMoney, ReadCurrency, ErrorShown(InvalidDataMessage, ErrorTitle)]
  {
  }

  /** An amount that did not parse reads as 0 and so is never the reason for a refusal. */
  lemma UnparsedAmountIsAccepted(parseDouble: string -> Option<real>, text: string, from: Currency, target: Option<Currency>)
    requires parseDouble(text).None?
    ensures Accepts(from, target, ToDouble(parseDouble, text)) <==> !Equals(from, TargetObject(target))
  {
    UnparsedAmountIsZero(parseDouble, text);
  }

  /**
   * A run that went on reads both dialogs first, then loads the rate once with (source, target)
   * in that order; a run that ends normally then loads the chart and the series once each for the
   * same pair, shows the chart, and only then shows the money.
   */
  lemma ExchangeCallOrder(entered: Entered, target: Option<Currency>, rates: RateLoader, statistics: SeriesLoader)
    ensures var run := Exchange(entered, target, rates, statistics);
      (Proceeded(run) ==> RateLoads(run.events) == 1 && run.events[2] == RateLoaded(entered.currency.value, target))
      && (run.money.Some? ==>
            var from, to := entered.currency.value, target.value;
            run.events == [ReadMoney, ReadCurrency, RateLoaded(from, target), ChartLoaded(from, to),
                           StatisticLoaded(from, to), ChartShown(run.chart.value.0, run.chart.value.1),
                           MoneyShown(run.money.value.0, run.money.value.1)])
  {
    var run := Exchange(entered, target, rates, statistics);
    if Proceeded(run) {
      var e := run.events;
      assert e[..3] == [ReadMoney, ReadCurrency, RateLoaded(entered.currency.value, target)];
      assert RateLoads(e[..3]) == 1 by {
        assert e[..3][..2] == [ReadMoney, ReadCurrency];
        assert e[..3][..2][..1] == [ReadMoney];
        assert [ReadMoney][..0] == [];
      }
      RateLoadsAfter(e, 3);
    }
  }

  /** No rate load after position `k` leaves the count of the first `k` calls. */
  lemma {:induction false} RateLoadsAfter(e: seq<Event>, k: nat)
    requires k <= |e| && forall m :: k <= m < |e| ==> !e[m].RateLoaded?
    ensures RateLoads(e) == RateLoads(e[..k])
    decreases |e| - k
  {
    if k < |e| {
      var w := e[..|e| - 1];
      assert w[..k] == e[..k];
      RateLoadsAfter(w, k);
    } else {
      assert e[..k] == e;
    }
  }

  /**
   * What a successful run shows: the source money as entered, and the result in the target
   * currency worth amount times the loaded rate; the series and the chart are for the same pair.
   */
  lemma ExchangeResult(entered: Entered, target: Option<Currency>, rates: RateLoader, statistics: SeriesLoader)
    ensures var run := Exchange(entered, target, rates, statistics);
      run.money.Some? ==>
        var from, to := entered.currency.value, target.value;
        rates(from, to).Ok?
        && run.money.value.0 == Money(entered.amount, from)
        && run.money.value.1 == Money(entered.amount * rates(from, to).value.rate, to)
        && run.chart.value.0 == ChartLoading.Load(from, to)
        && statistics(from, to) == Ok(run.chart.value.1)
  {
  }

  /** The run in full when both loaders answer: seven calls, the chart, and the source and result money. */
  lemma ExchangeCompletes(entered: Entered, target: Option<Currency>, rates: RateLoader, statistics: SeriesLoader)
    requires entered.currency.Some? && target.Some? && Accepts(entered.currency.value, target, entered.amount)
    requires rates(entered.currency.value, target.value).Ok? && statistics(entered.currency.value, target.value).Ok?
    ensures Exchange(entered, target, rates, statistics).outcome == Pass
    ensures Exchange(entered, target, rates, statistics).chart
            == Some((ChartLoading.Load(entered.currency.value, target.value), statistics(entered.currency.value, target.value).value))
    ensures Exchange(entered, target, rates, statistics).money
            == Some((Money(entered.amount, entered.currency.value),
                     Money(Converted(entered.amount, rates(entered.currency.value, target.value).value), target.value)))
    ensures var run := Exchange(entered, target, rates, statistics);
      var from, to := entered.currency.value, target.value;
      run.events == [ReadMoney, ReadCurrency, RateLoaded(from, target), ChartLoaded(from, to), StatisticLoaded(from, to),
                     ChartShown(run.chart.value.0, run.chart.value.1), MoneyShown(run.money.value.0, run.money.value.1)]
  {
  }

  /**
   * How a run fails: a null source at the guard, a null target or any loader failure after it.
   * A refused run never fails.
   */
  lemma ExchangeFailures(entered: Entered, target: Option<Currency>, rates: RateLoader, statistics: SeriesLoader)
    ensures var run := Exchange(entered, target, rates, statistics);
      (entered.currency.None? ==> run.outcome == Fail(NullPointer))
      && (entered.currency.Some? && target.None? && entered.amount >= 0.0 ==> run.outcome == Fail(NullPointer))
      && (entered.currency.Some? && target.Some? && Accepts(entered.currency.value, target, entered.amount) ==>
            (run.outcome.Fail? <==>
              rates(entered.currency.value, target.value).Err?
              || statistics(entered.currency.value, target.value).Err?))
  {
  }

  /** What the frame's displays hold after a run: what it showed, and untouched where it showed nothing. */
  twostate predicate Displays(frame: MainFrame, run: ExchangeRun, clock: Clock)
    requires ValidClock(clock)
    reads frame, frame.moneyDisplay, frame.contentDisplay, frame.contentDisplay.worker, frame.contentDisplay.series
  {
    (run.money.Some? ==>
      frame.moneyDisplay.fromText == frame.moneyDisplay.formatAmount(run.money.value.0.amount) + " " + run.money.value.0.currency.code + " ="
      && frame.moneyDisplay.resultText == frame.moneyDisplay.formatAmount(run.money.value.1.amount) + " " + run.money.value.1.currency.code
      && frame.moneyDisplay.timestampText == LastUpdateLabel(LastUpdateDate(clock)))
    && (run.money.None? ==> unchanged(frame.moneyDisplay))
    && (run.chart.Some? ==>
      var worker := frame.contentDisplay.worker;
      frame.contentDisplay.content == ChartPanel(run.chart.value.0)
      && worker != null && fresh(worker) && fresh(frame.contentDisplay.series)
      && frame.contentDisplay.series.points == map[]
      && worker.rates == Some(run.chart.value.1) && worker.started && !worker.interrupted && worker.appended == [])
    && (run.chart.None? ==> unchanged(frame.contentDisplay))
  }

  /** The last two calls of a run that ends normally: the chart goes to the centre, then the money to the display. */
  method ShowExchange(frame: MainFrame, chart: TimeSeriesChart, series: ExchangeRateTimeSeries, source: Money, result: Money,
                      ghost run: ExchangeRun, clock: Clock)
    requires frame.Ready() && ValidClock(clock)
    requires run.chart == Some((chart, series)) && run.money == Some((source, result))
    modifies frame.moneyDisplay, frame.contentDisplay
    ensures frame.Ready() && Displays(frame, run, clock)
  {
    frame.contentDisplay.ShowChart(chart, series);
    frame.moneyDisplay.Show(source, result, clock);
  }

  /** `ExchangeMoneyCommand.execute()` on the frame's own dialogs and displays. */
  method ExecuteExchangeMoney(frame: MainFrame, rates: RateLoader, statistics: SeriesLoader, clock: Clock) returns (outcome: Outcome<Failure>)
    requires frame.Ready() && ValidClock(clock)
    modifies frame, frame.moneyDisplay, frame.contentDisplay
    ensures frame.Ready() && frame.commands == old(frame.commands)
    ensures var run := Exchange(old(frame.moneyDialog.Get()), old(frame.currencyDialog.Get()), rates, statistics);
      frame.log == old(frame.log) + run.events && outcome == run.outcome && Displays(frame, run, clock)
  {
    var entered := frame.moneyDialog.Get();
    var target := frame.currencyDialog.Get();
    ghost var run := Exchange(entered, target, rates, statistics);
    // the calls are collected in order and added to the frame's record once the run ends
    ghost var events := [ReadMoney, ReadCurrency];
    if entered.currency.None? {
      frame.log := frame.log + events;
      assert run.chart.None? && Displays(frame, run, clock);
      return Fail(NullPointer);
    }
    var from := entered.currency.value;
    if !Equals(from, TargetObject(target)) && entered.amount >= 0.0 {
      events := events + [RateLoaded(from, target)];
      if target.None? {
        frame.log := frame.log + events;
        assert run.chart.None? && Displays(frame, run, clock);
        return Fail(NullPointer);
      }
      var to := target.value;
      var rate := rates(from, to);
      if rate.Err? {
        frame.log := frame.log + events;
        assert run.chart.None? && Displays(frame, run, clock);
        return Fail(rate.error);
      }
      var result := Money(Converted(entered.amount, rate.value), to);
      var chart := ChartLoading.Load(from, to);
      events := events + [ChartLoaded(from, to), StatisticLoaded(from, to)];
      var series := statistics(from, to);
      if series.Err? {
        frame.log := frame.log + events;
        assert run.chart.None? && Displays(frame, run, clock);
        return Fail(series.error);
      }
      ExchangeCompletes(entered, target, rates, statistics);
      assert run.chart == Some((chart, series.value)) && run.money == Some((Money(entered.amount, from), result));
      events := events + [ChartShown(chart, series.value), MoneyShown(Money(entered.amount, from), result)];
      ShowExchange(frame, chart, series.value, Money(entered.amount, from), result, run, clock);
      frame.log := frame.log + events;
      outcome := Pass;
    } else {
      frame.log := frame.log + events + [ErrorShown(InvalidDataMessage, ErrorTitle)];
      assert run.chart.None? && Displays(frame, run, clock);
      outcome := Pass;
    }
  }

  // ---------------------------------------------------------------- show info

  /** `ShowReadMeCommand.execute()`: the info pane replaces the content; a running animation is left alone. */
  method ExecuteShowReadMe(frame: MainFrame) returns (outcome: Outcome<Failure>)
    requires frame.Ready()
    modifies frame, frame.contentDisplay
    ensures frame.Ready() && frame.commands == old(frame.commands) && outcome == Pass
    ensures frame.log == old(frame.log) + [InfoShown]
    ensures frame.contentDisplay.content == InfoPane
    ensures frame.contentDisplay.worker == old(frame.contentDisplay.worker)
    ensures frame.contentDisplay.series == old(frame.contentDisplay.series)
    ensures unchanged(frame.moneyDisplay)
  {
    frame.contentDisplay.ShowInfo();
    frame.log := frame.log + [InfoShown];
    outcome := Pass;
  }

  // ---------------------------------------------------------------- swap

  /** The two selections after the index exchange, and whether `set` refused an index. */
  datatype Swapped = Swapped(outcome: Outcome<Failure>, source: Option<Currency>, target: Option<Currency>)

  /**
   * Lines 55-57 of `SwapCurrenciesCommand.execute()`: the source selector is set to the target's
   * index, then the target selector to the source's former index.
   */
  function SwapSelections(sourceItems: seq<Currency>, source: Option<Currency>,
                          targetItems: seq<Currency>, target: Option<Currency>): (s: Swapped)
    ensures s.outcome.Fail? ==> s.outcome.error == IllegalArgument
  {
    var i := SelectedIndexOf(sourceItems, source);
    var j := SelectedIndexOf(targetItems, target);
    match Select(sourceItems, source, j)
    case Err(e) => Swapped(Fail(e), source, target)
    case Ok(s) =>
      match Select(targetItems, target, i)
      case Err(e) => Swapped(Fail(e), s, target)
      case Ok(t) => Swapped(Pass, s, t)
  }

  /** A selection that is one of the items. */
  predicate Selectable(items: seq<Currency>, selection: Option<Currency>)
  {
    selection.Some? ==> selection.value in items
  }

  /**
   * Over lists with distinct codes, the swap succeeds when each index fits the other list, and
   * then the source's index is the target's former one and the target's the source's former one.
   */
  lemma SwapExchangesIndices(sourceItems: seq<Currency>, source: Option<Currency>,
                             targetItems: seq<Currency>, target: Option<Currency>)
    requires DistinctCodes(sourceItems) && DistinctCodes(targetItems)
    requires Selectable(sourceItems, source) && Selectable(targetItems, target)
    ensures var i, j := SelectedIndexOf(sourceItems, source), SelectedIndexOf(targetItems, target);
      var s := SwapSelections(sourceItems, source, targetItems, target);
      (s.outcome.Pass? <==> j < |sourceItems| && i < |targetItems|)
      && (s.outcome.Pass? ==> SelectedIndexOf(sourceItems, s.source) == j && SelectedIndexOf(targetItems, s.target) == i)
  {
    var i, j := SelectedIndexOf(sourceItems, source), SelectedIndexOf(targetItems, target);
    if 0 <= j < |sourceItems| {
      SelectThenIndex(sourceItems, source, j);
    }
    if 0 <= i < |targetItems| {
      SelectThenIndex(targetItems, target, i);
    }
  }

  /** When both indices are already equal the swap changes nothing. */
  lemma SwapEqualIndices(sourceItems: seq<Currency>, source: Option<Currency>,
                         targetItems: seq<Currency>, target: Option<Currency>)
    requires Selectable(sourceItems, source) && Selectable(targetItems, target)
    requires SelectedIndexOf(sourceItems, source) == SelectedIndexOf(targetItems, target)
    ensures SwapSelections(sourceItems, source, targetItems, target) == Swapped(Pass, source, target)
  {
    var i := SelectedIndexOf(sourceItems, source);
    if i >= 0 {
      assert source.value.code == sourceItems[i].code && target.value.code == targetItems[i].code;
      assert Select(sourceItems, source, i) == Ok(source);
      assert Select(targetItems, target, i) == Ok(target);
    } else {
      assert source.None? && target.None?;
    }
  }

  /** Over lists with distinct codes, swapping twice restores both selections. */
  lemma SwapTwiceRestores(sourceItems: seq<Currency>, source: Option<Currency>,
                          targetItems: seq<Currency>, target: Option<Currency>)
    requires DistinctCodes(sourceItems) && DistinctCodes(targetItems)
    requires Selectable(sourceItems, source) && Selectable(targetItems, target)
    requires SwapSelections(sourceItems, source, targetItems, target).outcome.Pass?
    ensures var s := SwapSelections(sourceItems, source, targetItems, target);
      SwapSelections(sourceItems, s.source, targetItems, s.target) == Swapped(Pass, source, target)
  {
    var s := SwapSelections(sourceItems, source, targetItems, target);
    SwapExchangesIndices(sourceItems, source, targetItems, target);
    assert Selectable(sourceItems, s.source) && Selectable(targetItems, s.target);
    SwapExchangesIndices(sourceItems, s.source, targetItems, s.target);
    var t := SwapSelections(sourceItems, s.source, targetItems, s.target);
    SameIndexSameSelection(sourceItems, t.source, source);
    SameIndexSameSelection(targetItems, t.target, target);
  }

  /** Over distinct codes, a selection among the items is determined by its index. */
  lemma SameIndexSameSelection(items: seq<Currency>, a: Option<Currency>, b: Option<Currency>)
    requires DistinctCodes(items) && Selectable(items, a) && Selectable(items, b)
    requires SelectedIndexOf(items, a) == SelectedIndexOf(items, b)
    ensures a == b
  {
    if a.Some? && b.Some? {
      var i :| 0 <= i < |items| && items[i] == a.value;
      var j :| 0 <= j < |items| && items[j] == b.value;
      IndexOfDistinct(items, i);
      IndexOfDistinct(items, j);
    }
  }

  /** When both selectors list the same distinct currencies, the swap exchanges the selected currencies. */
  lemma SwapOverOneList(items: seq<Currency>, source: Currency, target: Currency)
    requires DistinctCodes(items) && source in items && target in items
    ensures SwapSelections(items, Some(source), items, Some(target)) == Swapped(Pass, Some(target), Some(source))
  {
    IndexSwapOverOneList(items, source, target);
  }

  /** Set the source selector to the target's index, then the target selector to the source's former index. */
  method SwapIndices(frame: MainFrame) returns (outcome: Outcome<Failure>)
    requires frame.Ready()
    modifies frame.moneyDialog.fromDialog, frame.currencyDialog
    ensures frame.Ready()
    ensures frame.moneyDialog.fromDialog.items == old(frame.moneyDialog.fromDialog.items)
    ensures frame.currencyDialog.items == old(frame.currencyDialog.items)
    ensures SwapSelections(old(frame.moneyDialog.fromDialog.items), old(frame.moneyDialog.fromDialog.selection),
                           old(frame.currencyDialog.items), old(frame.currencyDialog.selection))
            == Swapped(outcome, frame.moneyDialog.fromDialog.selection, frame.currencyDialog.selection)
  {
    var i := frame.moneyDialog.GetSelectedIndex();
    var j := frame.currencyDialog.GetSelectedIndex();
    outcome := frame.moneyDialog.Set(j);
    if outcome.Fail? {
      return;
    }
    outcome := frame.currencyDialog.Set(i);
  }

  /**
   * What `SwapCurrenciesCommand.execute()` leaves behind: the selections the index exchange
   * gives, then the effect of the command bound to "exchange money" at that moment. A missing
   * binding dereferences null; a binding to the swap command itself recurses until the stack
   * overflows.
   */
  twostate predicate SwapEffect(frame: MainFrame, rates: RateLoader, statistics: SeriesLoader, clock: Clock, new outcome: Outcome<Failure>)
    requires old(frame.Ready()) && frame.Ready() && ValidClock(clock)
    reads frame, frame.moneyDialog, frame.moneyDialog.fromDialog, frame.currencyDialog
    reads frame.moneyDisplay, frame.contentDisplay, frame.contentDisplay.worker, frame.contentDisplay.series
  {
    var s := SwapSelections(old(frame.moneyDialog.fromDialog.items), old(frame.moneyDialog.fromDialog.selection),
                            old(frame.currencyDialog.items), old(frame.currencyDialog.selection));
    frame.moneyDialog.fromDialog.selection == s.source && frame.currencyDialog.selection == s.target
    && frame.moneyDialog.fromDialog.items == old(frame.moneyDialog.fromDialog.items)
    && frame.currencyDialog.items == old(frame.currencyDialog.items)
    && (s.outcome.Fail? ==> outcome == s.outcome && frame.log == old(frame.log)
                            && unchanged(frame.moneyDisplay) && unchanged(frame.contentDisplay))
    && (s.outcome.Pass? && frame.GetCommand(ExchangeName).None? ==>
          outcome == Fail(NullPointer) && frame.log == old(frame.log)
          && unchanged(frame.moneyDisplay) && unchanged(frame.contentDisplay))
    && (s.outcome.Pass? && frame.GetCommand(ExchangeName) == Some(ExchangeMoney) ==>
          var run := Exchange(frame.moneyDialog.Get(), frame.currencyDialog.Get(), rates, statistics);
          frame.log == old(frame.log) + run.events && outcome == run.outcome && Displays(frame, run, clock))
    && (s.outcome.Pass? && frame.GetCommand(ExchangeName) == Some(ShowReadMe) ==>
          outcome == Pass && frame.log == old(frame.log) + [InfoShown] && frame.contentDisplay.content == InfoPane
          && frame.contentDisplay.worker == old(frame.contentDisplay.worker)
          && frame.contentDisplay.series == old(frame.contentDisplay.series)
          && unchanged(frame.moneyDisplay))
    && (s.outcome.Pass? && frame.GetCommand(ExchangeName) == Some(SwapCurrencies) ==>
          outcome == Fail(StackOverflow) && frame.log == old(frame.log)
          && unchanged(frame.moneyDisplay) && unchanged(frame.contentDisplay))
  }

  /** `SwapCurrenciesCommand.execute()` on the frame: the swap, then the command bound to "exchange money". */
  method ExecuteSwap(frame: MainFrame, rates: RateLoader, statistics: SeriesLoader, clock: Clock) returns (outcome: Outcome<Failure>)
    requires frame.Ready() && ValidClock(clock)
    modifies frame, frame.moneyDialog.fromDialog, frame.currencyDialog, frame.moneyDisplay, frame.contentDisplay
    ensures frame.Ready() && frame.commands == old(frame.commands)
    ensures SwapEffect(frame, rates, statistics, clock, outcome)
  {
    outcome := SwapIndices(frame);
    if outcome.Fail? {
      return;
    }
    var command := frame.GetCommand(ExchangeName);
    if command.None? {
      return Fail(NullPointer);
    }
    match command.value
    case ExchangeMoney =>
      outcome := ExecuteExchangeMoney(frame, rates, statistics, clock);
    case ShowReadMe =>
      outcome := ExecuteShowReadMe(frame);
    case SwapCurrencies =>
      outcome := Fail(StackOverflow);
  }

  // ---------------------------------------------------------------- the buttons

  /** The three buttons of the main frame. */
  datatype Button = CalculateButton | SwapButton | InfoButton

  /** The command name each button dispatches. */
  function ButtonName(b: Button): (name: string)
    ensures name in {ExchangeName, SwapName, InfoName}
  {
    match b
    case CalculateButton => ExchangeName
    case SwapButton => SwapName
    case InfoButton => InfoName
  }

  /** Different buttons dispatch different names. */
  lemma ButtonNamesDistinct(a: Button, b: Button)
    ensures ButtonName(a) == ButtonName(b) <==> a == b
  {
  }

  /** A click: the command bound to the button's name runs; an unbound name dereferences null and changes nothing. */
  method Press(frame: MainFrame, button: Button, rates: RateLoader, statistics: SeriesLoader, clock: Clock) returns (outcome: Outcome<Failure>)
    requires frame.Ready() && ValidClock(clock)
    modifies frame, frame.moneyDialog.fromDialog, frame.currencyDialog, frame.moneyDisplay, frame.contentDisplay
    ensures frame.Ready() && frame.commands == old(frame.commands)
    ensures frame.GetCommand(ButtonName(button)).None? ==>
      outcome == Fail(NullPointer) && frame.log == old(frame.log)
      && unchanged(frame.moneyDialog.fromDialog) && unchanged(frame.currencyDialog)
      && unchanged(frame.moneyDisplay) && unchanged(frame.contentDisplay)
    ensures frame.GetCommand(ButtonName(button)) == Some(ExchangeMoney) ==>
      unchanged(frame.moneyDialog.fromDialog) && unchanged(frame.currencyDialog)
      && var run := Exchange(frame.moneyDialog.Get(), frame.currencyDialog.Get(), rates, statistics);
         frame.log == old(frame.log) + run.events && outcome == run.outcome && Displays(frame, run, clock)
    ensures frame.GetCommand(ButtonName(button)) == Some(ShowReadMe) ==>
      outcome == Pass && frame.log == old(frame.log) + [InfoShown] && frame.contentDisplay.content == InfoPane
      && frame.contentDisplay.worker == old(frame.contentDisplay.worker)
      && frame.contentDisplay.series == old(frame.contentDisplay.series)
      && unchanged(frame.moneyDialog.fromDialog) && unchanged(frame.currencyDialog) && unchanged(frame.moneyDisplay)
    ensures frame.GetCommand(ButtonName(button)) == Some(SwapCurrencies) ==>
      SwapEffect(frame, rates, statistics, clock, outcome)
  {
    var command := frame.GetCommand(ButtonName(button));
    if command.None? {
      return Fail(NullPointer);
    }
    match command.value
    case ExchangeMoney =>
      outcome := ExecuteExchangeMoney(frame, rates, statistics, clock);
    case ShowReadMe =>
      outcome := ExecuteShowReadMe(frame);
    case SwapCurrencies =>
      outcome := ExecuteSwap(frame, rates, statistics, clock);
  }
}
