# MoneyCalculator, modelled in Dafny

MoneyCalculator is a Swing desktop currency converter. The user types an amount, picks a source
currency and a target currency, and presses **Calculate**. The program then:

- fetches the latest rate from the Frankfurter web service;
- shows "amount CODE =" above the converted amount;
- shows a "Last update" line giving the date of the rates on display (the reference rates are
  published at 16:00);
- loads a year of daily rates for the pair and animates them into a chart, one day at a time, on a
  worker thread.

A **Swap** button exchanges the selected positions of the two currency selectors and recalculates.
An **Info** button shows a help pane. Each button looks up a command by name in the main frame's
registry.

This project models that core and proves what each part promises:

- **`Model`**: the data records. `Currency.equals` compares codes only.
- **`Lexicographic`**: the string order the worker's sorted map uses.
- **`Calendar`**: the dates and times the program reads and prints.
- **`Text`**: splitting a text at a separator.
- **`ChartLoading`**: the chart descriptor.
- **`JsonValues`**: a parsed JSON value and how it prints.
- **`Frankfurter`**: the three web-service loaders.
- **`Animation`**: the chart buffer, the animation worker and the centre panel.
- **`Swing`**: the currency selectors, the amount dialog, the result display and the main frame's registry.
- **`Control`**: the three commands and the buttons.

Java exceptions are `Failure` values and a null reference is `None`. The web service, together
with the JSON parser, is a function from URL to parsed JSON or failure. The two clock reads are one
`Clock` value. A ghost `log` on the main frame records, in order, the calls the commands make on
their collaborators.

The exchange command is stated as a value, `Control.Exchange`: the calls made, how the run
ends, and what it shows. It takes the rate loader and the series loader as functions, as the
command takes them as interfaces. `Control.FrankfurterRates` and `Control.FrankfurterSeries`
are the Frankfurter instances. The methods that run a command on the frame are proved against
these values.

Where the code and its own documentation disagree, the model follows the code:

- The currency loader's comment promises an empty list on error. The code has no handler, so a
  failed fetch or an ill-typed value is a failure (`Frankfurter.LoadCurrencies`).
- The rate loader's comment promises `null` on error. Only an `IOException` is caught, and the
  fetcher wraps every failure in a `RuntimeException`. So `Frankfurter.LoadRate` has no null
  result, and a failure propagates.
- The series loader's comment speaks of "the previous year". Its start day is
  `LocalDate.ofYearDay(year - 1, dayOfMonth)`, which is a day of January of last year. It is one year
  back only when today is in January (`Frankfurter.StartDayIsYearAgoOnlyInJanuary`).
- The rate's date is `toString()` of the JSON element. A string date therefore keeps its quote
  characters (`Frankfurter.TypicalLatestResponse`).
- `doAnimation`'s comment says a running animation is interrupted first. `showChart` creates the new
  worker before `doAnimation` looks, so the worker checked is always the new, unstarted one. A
  previous worker is never interrupted, and it keeps writing to its own detached buffer
  (`Animation.CenterContentDisplay.ShowChart`).
- `App.java` does not match the constructors it calls, so no start-up sequence is taken from it.
  The model covers any frame whose dialogs are defined, with a registry of the three commands,
  each bound to this frame's own dialogs and displays.

## Model

| member | source | states |
|---|---|---|
| Model.ToString | src/main/java/software/ulpgc/money/architecture/model/Currency.java:22-23 | the text is the code, one hyphen, then the name |
| Model.EqualsIffSameCode | src/main/java/software/ulpgc/money/architecture/model/Currency.java:33-40 | a currency equals another currency exactly when their codes are equal |
| Model.EqualsIgnoresName | src/main/java/software/ulpgc/money/architecture/model/Currency.java:36 | currencies with the same code and different names are equal |
| Model.EqualsOnlyCurrencies | src/main/java/software/ulpgc/money/architecture/model/Currency.java:35-38 | nothing that is not a currency, null included, is equal to a currency |
| Model.EqualsIsEquivalence | src/main/java/software/ulpgc/money/architecture/model/Currency.java:33-40 | the equality is reflexive, symmetric and transitive |
| Model.ToStringSeesName | src/main/java/software/ulpgc/money/architecture/model/Currency.java:22-40 | two equal currencies with different names still print differently |
| Lexicographic.LessIrreflexive | src/main/java/software/ulpgc/money/jfree/AnimationThread.java:59 | no key sorts before itself |
| Lexicographic.LessTransitive | src/main/java/software/ulpgc/money/jfree/AnimationThread.java:59 | the key order is transitive |
| Lexicographic.LessTotal | src/main/java/software/ulpgc/money/jfree/AnimationThread.java:59 | of two different keys one sorts first |
| Lexicographic.LessAsymmetric | src/main/java/software/ulpgc/money/jfree/AnimationThread.java:59 | two keys never sort before each other |
| Lexicographic.LessAppend | src/main/java/software/ulpgc/money/jfree/AnimationThread.java:59 | with equal-length heads, order is decided by the heads, then by the tails |
| Lexicographic.Insert | src/main/java/software/ulpgc/money/jfree/AnimationThread.java:59 | adding a key to a strictly ascending list keeps it ascending, and the list then holds exactly the old keys and the new one |
| Lexicographic.SortedUnique | src/main/java/software/ulpgc/money/jfree/AnimationThread.java:59-60 | two strictly ascending lists with the same keys are the same list, so the key set fixes the visiting order |
| Lexicographic.SortedKeys | src/main/java/software/ulpgc/money/jfree/AnimationThread.java:59 | the sorted view of a key set is strictly ascending and holds exactly those keys |
| Calendar.DaysInMonth | src/main/java/software/ulpgc/money/frankfurter/FrankfurterTimeSeriesLoader.java:53 | a month has 28 to 31 days, and February has 29 exactly in a leap year |
| Calendar.Format | src/main/java/software/ulpgc/money/frankfurter/FrankfurterTimeSeriesLoader.java:53 | `LocalDate.toString`: ten characters, with hyphens at positions 4 and 7 |
| Calendar.PadValue | src/main/java/software/ulpgc/money/frankfurter/FrankfurterTimeSeriesLoader.java:53 | each zero-padded field of the printed date reads back as the number it stands for |
| Calendar.FormatOrder | src/main/java/software/ulpgc/money/jfree/AnimationThread.java:58-59 | formatted dates sort as text exactly when the dates are in chronological order, and different dates format differently |
| Calendar.PrevDay | src/main/java/software/ulpgc/money/swing/SwingMoneyDisplay.java:109 | `minusDays(1)` is a valid date, before the given one |
| Calendar.PrevDayAdjacent | src/main/java/software/ulpgc/money/swing/SwingMoneyDisplay.java:109 | no date lies strictly between a day and the day before it |
| Calendar.DayOfYearInjective | src/main/java/software/ulpgc/money/frankfurter/FrankfurterTimeSeriesLoader.java:53 | two dates of one year with the same day number are the same date |
| Calendar.OfYearDay | src/main/java/software/ulpgc/money/frankfurter/FrankfurterTimeSeriesLoader.java:53 | `ofYearDay` succeeds exactly for day numbers 1 to the year's length, giving the date with that day number in that year, and otherwise raises a date-time exception |
| Calendar.OfYearDayInJanuary | src/main/java/software/ulpgc/money/frankfurter/FrankfurterTimeSeriesLoader.java:53 | day numbers 1 to 31 are the days of January |
| Calendar.BeforeCutoff | src/main/java/software/ulpgc/money/swing/SwingMoneyDisplay.java:108 | a time is before 16:00 exactly when its hour is below 16 |
| Calendar.FormatTime | src/main/java/software/ulpgc/money/swing/SwingMoneyDisplay.java:123 | `LocalTime.toString` has a colon at position 2, and is five characters long exactly when seconds and nanoseconds are zero |
| Calendar.CutoffText | src/main/java/software/ulpgc/money/swing/SwingMoneyDisplay.java:123 | 16:00 prints as "16:00" |
| ChartLoading.Load | src/main/java/software/ulpgc/money/architecture/io/TimeSeriesChartLoader.java:24-30 | the axes are "Date" and "Rate", and the title is as long as the two codes and one separator |
| ChartLoading.LoadSeesOnlyCodes | src/main/java/software/ulpgc/money/architecture/io/TimeSeriesChartLoader.java:26-28 | currencies with the same codes give the same chart |
| ChartLoading.TitleRoundTrip | src/main/java/software/ulpgc/money/architecture/io/TimeSeriesChartLoader.java:26 | when the source code has no slash, splitting the title at its first slash gives back the source and target codes |
| ChartLoading.TitleIdentifiesPair | src/main/java/software/ulpgc/money/architecture/io/TimeSeriesChartLoader.java:26 | when the source codes have no slash, equal titles mean equal code pairs |
| JsonValues.Get | src/main/java/software/ulpgc/money/frankfurter/FrankfurterExchangeRateLoader.java:70 | a member lookup is absent exactly when no member has the key; otherwise it is a value bound to the key, and the only one when keys are distinct |
| JsonValues.UnescapeEscape | src/main/java/software/ulpgc/money/frankfurter/FrankfurterExchangeRateLoader.java:81 | undoing the JSON escapes of a string gives the string back |
| JsonValues.SerializeStringRoundTrip | src/main/java/software/ulpgc/money/frankfurter/FrankfurterExchangeRateLoader.java:81 | a serialised string is quoted, and its inside unescapes to the original |
| JsonValues.EscapePlain | src/main/java/software/ulpgc/money/frankfurter/FrankfurterExchangeRateLoader.java:81 | a string of plain characters serialises as itself between quotes |
| Frankfurter.TopObject | src/main/java/software/ulpgc/money/frankfurter/FrankfurterCurrencyLoader.java:66 | the body must be an object; anything that is not an object, a JSON null included, is malformed |
| Frankfurter.CurrencyOf | src/main/java/software/ulpgc/money/frankfurter/FrankfurterCurrencyLoader.java:68 | a symbol gives the currency whose code is the key and whose name is its text value, and fails when the value is not text |
| Frankfurter.CurrenciesFromContents | src/main/java/software/ulpgc/money/frankfurter/FrankfurterCurrencyLoader.java:67-68 | the list succeeds exactly when every value is text; then it has one currency per symbol, in the object's order |
| Frankfurter.CurrenciesDistinct | src/main/java/software/ulpgc/money/frankfurter/FrankfurterCurrencyLoader.java:67 | with distinct symbols, no two loaded currencies are equal |
| Frankfurter.CurrenciesFromPrefixErr | src/main/java/software/ulpgc/money/frankfurter/FrankfurterCurrencyLoader.java:67-68 | the first symbol that fails decides the failure of the whole list, so no partial list is returned |
| Frankfurter.ToList | src/main/java/software/ulpgc/money/frankfurter/FrankfurterCurrencyLoader.java:64-70 | the loop over the symbols builds exactly the specified currency list, or its failure |
| Frankfurter.LoadCurrencies | src/main/java/software/ulpgc/money/frankfurter/FrankfurterCurrencyLoader.java:49-52 | the result is the currency list read from the service's answer for the currencies URL; a fetch failure propagates, with no empty-list fallback |
| Frankfurter.EmptyOnlyFromEmptyObject | src/main/java/software/ulpgc/money/frankfurter/FrankfurterCurrencyLoader.java:65-67 | the list is empty exactly when the body is the empty object |
| Frankfurter.LatestUrlRoundTrip | src/main/java/software/ulpgc/money/frankfurter/FrankfurterExchangeRateLoader.java:39 | the latest-rate URL starts with the fixed prefix; when the target code has no '&', the rest splits at the first '&' into the target code and "base=" plus the source code |
| Frankfurter.LatestUrlIdentifiesPair | src/main/java/software/ulpgc/money/frankfurter/FrankfurterExchangeRateLoader.java:39 | when the target codes have no '&', equal URLs mean equal code pairs |
| Frankfurter.ToExchangeRate | src/main/java/software/ulpgc/money/frankfurter/FrankfurterExchangeRateLoader.java:56-82 | a rate is made exactly when there are a date and a numeric `rates[to.code]`; it carries the given pair, the printed date and that number; a missing "rates" or target code dereferences null |
| Frankfurter.LoadRate | src/main/java/software/ulpgc/money/frankfurter/FrankfurterExchangeRateLoader.java:38-45 | fetches the latest-rate URL for the pair; a fetch failure propagates, and there is no null result |
| Frankfurter.TypicalLatestResponse | src/main/java/software/ulpgc/money/frankfurter/FrankfurterExchangeRateLoader.java:80-82 | for a typical response the rate's date is the day between quote characters |
| Frankfurter.StartDay | src/main/java/software/ulpgc/money/frankfurter/FrankfurterTimeSeriesLoader.java:53 | the start day is in January of last year, on today's day of the month |
| Frankfurter.StartDayIsYearAgoOnlyInJanuary | src/main/java/software/ulpgc/money/frankfurter/FrankfurterTimeSeriesLoader.java:53 | the start day is today one year back exactly when today is in January; it is always before today |
| Frankfurter.SeriesUrlParts | src/main/java/software/ulpgc/money/frankfurter/FrankfurterTimeSeriesLoader.java:54 | the series URL carries the formatted start day after the host, and the target code, '&' and "base=" plus the source code at its end |
| Frankfurter.SeriesUrlIdentifies | src/main/java/software/ulpgc/money/frankfurter/FrankfurterTimeSeriesLoader.java:54 | when the target codes have no '&', equal series URLs mean equal start days and code pairs |
| Frankfurter.EntryRate | src/main/java/software/ulpgc/money/frankfurter/FrankfurterTimeSeriesLoader.java:74-75 | a day's rate is its number under the target code, and fails when that is missing or not a number |
| Frankfurter.RatesMembers | src/main/java/software/ulpgc/money/frankfurter/FrankfurterTimeSeriesLoader.java:71 | the days are the members of the "rates" object, and fail when it is missing |
| Frankfurter.SeriesRatesOk | src/main/java/software/ulpgc/money/frankfurter/FrankfurterTimeSeriesLoader.java:72-77 | the series succeeds exactly when every day has a rate for the target code |
| Frankfurter.SeriesRatesKeys | src/main/java/software/ulpgc/money/frankfurter/FrankfurterTimeSeriesLoader.java:72-76 | the series' days are exactly the keys of "rates" |
| Frankfurter.SeriesRatesValues | src/main/java/software/ulpgc/money/frankfurter/FrankfurterTimeSeriesLoader.java:75-76 | each day's value is that day's rate for the target code |
| Frankfurter.SeriesRatesPrefixErr | src/main/java/software/ulpgc/money/frankfurter/FrankfurterTimeSeriesLoader.java:75 | one day without the target code fails the whole call, so no partial series is returned |
| Frankfurter.ToTimeSeries | src/main/java/software/ulpgc/money/frankfurter/FrankfurterTimeSeriesLoader.java:68-79 | the loop filling the map builds exactly the specified series, or its failure |
| Frankfurter.StatisticOf | src/main/java/software/ulpgc/money/frankfurter/FrankfurterTimeSeriesLoader.java:52-56 | a series that loads is for the pair asked about |
| Frankfurter.LoadStatistic | src/main/java/software/ulpgc/money/frankfurter/FrankfurterTimeSeriesLoader.java:52-56 | the result is the series for the given pair read from the service's answer for the series URL of the computed start day |
| Animation.TimeSeriesBuffer.constructor | src/main/java/software/ulpgc/money/jfree/CenterContentDisplay.java:95 | a new buffer is empty |
| Animation.TimeSeriesBuffer.Clear | src/main/java/software/ulpgc/money/jfree/CenterContentDisplay.java:81 | clearing empties the buffer |
| Animation.TimeSeriesBuffer.AddOrUpdate | src/main/java/software/ulpgc/money/jfree/AnimationThread.java:65 | one value per day: an existing day is updated and adds no point |
| Animation.SortKeys | src/main/java/software/ulpgc/money/jfree/AnimationThread.java:59 | the keys come out strictly ascending, each key exactly once |
| Animation.Entries | src/main/java/software/ulpgc/money/jfree/AnimationThread.java:59-60 | the entries pair each key, in the given order, with its rate |
| Animation.ReplayPrefix | src/main/java/software/ulpgc/money/jfree/AnimationThread.java:61-71 | appending the first k sorted entries leaves exactly those k days with their rates |
| Animation.ReplayAll | src/main/java/software/ulpgc/money/jfree/AnimationThread.java:60-72 | appending all sorted entries to an empty buffer reproduces the series' map |
| Animation.SortedEntriesDistinct | src/main/java/software/ulpgc/money/jfree/AnimationThread.java:60 | each day is visited at most once |
| Animation.SortedEntriesChronological | src/main/java/software/ulpgc/money/jfree/AnimationThread.java:58-60 | for dates written yyyy-MM-dd the visiting order is chronological |
| Animation.FirstCancel | src/main/java/software/ulpgc/money/jfree/AnimationThread.java:61-70 | the worker goes on up to the first entry at which it finds itself interrupted, and no further |
| Animation.UncancelledRunAppendsAll | src/main/java/software/ulpgc/money/jfree/AnimationThread.java:60-72 | without cancellation every entry is appended |
| Animation.CancelledRunStops | src/main/java/software/ulpgc/money/jfree/AnimationThread.java:61-63 | nothing from the cancellation point on is appended |
| Animation.AnimationThread.constructor | src/main/java/software/ulpgc/money/jfree/AnimationThread.java:34-39 | a new worker holds the buffer, no series, and has not started |
| Animation.AnimationThread.Create | src/main/java/software/ulpgc/money/jfree/AnimationThread.java:34-39 | a null buffer is refused with an illegal-argument failure; otherwise a new worker on that buffer |
| Animation.AnimationThread.SetRates | src/main/java/software/ulpgc/money/jfree/AnimationThread.java:47-49 | replaces the series and changes nothing else |
| Animation.AnimationThread.Interrupt | src/main/java/software/ulpgc/money/jfree/CenterContentDisplay.java:79 | sets the interrupt flag and nothing else |
| Animation.AnimationThread.Start | src/main/java/software/ulpgc/money/jfree/CenterContentDisplay.java:83 | a second start fails with an illegal-thread-state failure |
| Animation.AnimationThread.Run | src/main/java/software/ulpgc/money/jfree/AnimationThread.java:57-73 | without a series it dereferences null and appends nothing; otherwise it appends a prefix of the sorted entries, ended by the first cancellation, to its own buffer |
| Animation.CenterContentDisplay.constructor | src/main/java/software/ulpgc/money/jfree/CenterContentDisplay.java:37-40 | a new panel is blank, with no buffer and no worker |
| Animation.CenterContentDisplay.CreateChartPanel | src/main/java/software/ulpgc/money/jfree/CenterContentDisplay.java:94-99 | installs a fresh empty buffer and a fresh, unstarted worker bound to it |
| Animation.CenterContentDisplay.DoAnimation | src/main/java/software/ulpgc/money/jfree/CenterContentDisplay.java:77-84 | interrupts the worker only if alive, clears the buffer, gives the worker the series, and starts it once |
| Animation.CenterContentDisplay.ShowChart | src/main/java/software/ulpgc/money/jfree/CenterContentDisplay.java:51-56 | the chart is shown, and a new started worker feeds a new empty buffer with the series; the previous worker and buffer are left untouched |
| Animation.CenterContentDisplay.ShowInfo | src/main/java/software/ulpgc/money/jfree/CenterContentDisplay.java:64-68 | the info pane replaces the content; buffer and worker stay, so an animation goes on off-screen |
| Swing.IndexOfCode | src/main/java/software/ulpgc/money/swing/SwingCurrencyDialog.java:101-103 | the selected index is the first position holding a currency equal to the selection, and -1 when there is none |
| Swing.IndexOfDistinct | src/main/java/software/ulpgc/money/swing/SwingCurrencyDialog.java:101-103 | with distinct codes, an item is found at its own position |
| Swing.Select | src/main/java/software/ulpgc/money/swing/SwingCurrencyDialog.java:90-92 | `setSelectedIndex`: -1 clears the selection; an index outside the items fails with an illegal argument; otherwise the selection gets that item's code, and stays among the items |
| Swing.SelectThenIndex | src/main/java/software/ulpgc/money/swing/SwingCurrencyDialog.java:90-103 | after selecting a valid index, the selected index is the first position with that code, so the index itself when codes are distinct |
| Swing.SelectIdempotent | src/main/java/software/ulpgc/money/swing/SwingCurrencyDialog.java:91 | selecting an index twice is selecting it once |
| Swing.IndexSwapOverOneList | src/main/java/software/ulpgc/money/architecture/control/SwapCurrenciesCommand.java:55-57 | when both selectors list the same distinct currencies, exchanging indices exchanges the currencies |
| Swing.IndexSwapOverTwoLists | src/main/java/software/ulpgc/money/architecture/control/SwapCurrenciesCommand.java:56-57 | over two different lists, exchanging indices need not exchange the currencies: EUR stays selected |
| Swing.CurrencyDialog.constructor | src/main/java/software/ulpgc/money/swing/SwingCurrencyDialog.java:40-43 | a new dialog has no selector yet |
| Swing.CurrencyDialog.Define | src/main/java/software/ulpgc/money/swing/SwingCurrencyDialog.java:53-70 | a new selector holds exactly the currencies in order, with the first one selected; returns the same dialog |
| Swing.CurrencyDialog.GetSelectedIndex | src/main/java/software/ulpgc/money/swing/SwingCurrencyDialog.java:101-103 | an index within the items, -1 exactly when nothing is selected |
| Swing.CurrencyDialog.Get | src/main/java/software/ulpgc/money/swing/SwingCurrencyDialog.java:79-81 | the item at the selected index, equal to the selection, and the selection itself when codes are distinct; null when nothing is selected |
| Swing.CurrencyDialog.Set | src/main/java/software/ulpgc/money/swing/SwingCurrencyDialog.java:90-92 | only the selection changes, as `setSelectedIndex` decides; for a valid index and distinct codes the selected index is then that index |
| Swing.UnparsedAmountIsZero | src/main/java/software/ulpgc/money/swing/SwingMoneyDialog.java:130-136 | text that does not parse reads as 0, so it is never negative |
| Swing.MoneyDialog.constructor | src/main/java/software/ulpgc/money/swing/SwingMoneyDialog.java:42-45 | a new dialog has no source selector yet |
| Swing.MoneyDialog.Define | src/main/java/software/ulpgc/money/swing/SwingMoneyDialog.java:59-96 | an empty amount field and a fresh source selector over the currencies in order; returns this dialog |
| Swing.MoneyDialog.Get | src/main/java/software/ulpgc/money/swing/SwingMoneyDialog.java:118-120 | the amount is the parsed number, or 0 when the text does not parse, with the source selector's currency; reading changes nothing |
| Swing.MoneyDialog.Set | src/main/java/software/ulpgc/money/swing/SwingMoneyDialog.java:105-107 | only the source selector's selection changes, as `set` decides there |
| Swing.MoneyDialog.GetSelectedIndex | src/main/java/software/ulpgc/money/swing/SwingMoneyDialog.java:145-147 | the source selector's index |
| Swing.LastUpdateDate | src/main/java/software/ulpgc/money/swing/SwingMoneyDisplay.java:106-114 | before 16:00 the rates on show are yesterday's; from 16:00 on they are today's |
| Swing.LastUpdateIsLatestPublication | src/main/java/software/ulpgc/money/swing/SwingMoneyDisplay.java:108-112 | the date shown is never after today, and when it is not today it is the day just before |
| Swing.LastUpdateLabel | src/main/java/software/ulpgc/money/swing/SwingMoneyDisplay.java:122-124 | the timestamp line is 30 characters long |
| Swing.LastUpdateLabelShape | src/main/java/software/ulpgc/money/swing/SwingMoneyDisplay.java:123 | the line reads "Last update: " plus the date plus ", 16:00", always the fixed 16:00, and different dates give different lines |
| Swing.MoneyDisplay.constructor | src/main/java/software/ulpgc/money/swing/SwingMoneyDisplay.java:70-72 | the three labels start empty |
| Swing.MoneyDisplay.Show | src/main/java/software/ulpgc/money/swing/SwingMoneyDisplay.java:94-98 | the source label is the formatted amount, a space, the code and " ="; the result label is the formatted amount, a space and the code; the timestamp is the last-update line for the clock, recomputed on every call |
| Swing.MainFrame.constructor | src/main/java/software/ulpgc/money/swing/SwingMainFrame.java:62-74 | the registry is empty and the views are new |
| Swing.MainFrame.PutCommand | src/main/java/software/ulpgc/money/swing/SwingMainFrame.java:94 | the name is bound to the command, replacing an earlier binding, and every other name keeps its binding |
| Swing.MainFrame.GetCommand | src/main/java/software/ulpgc/money/swing/SwingMainFrame.java:103 | the bound command, and null for an unbound name, without changing the registry |
| Control.TargetObject | src/main/java/software/ulpgc/money/architecture/control/ExchangeMoneyCommand.java:85-87 | the target reaches `equals` as null exactly when nothing is selected |
| Control.Exchange | src/main/java/software/ulpgc/money/architecture/control/ExchangeMoneyCommand.java:83-97 | every run reads both dialogs first; the chart and the money are shown together or not at all, and only by a run that ends normally |
| Control.ExchangeProceedsIff | src/main/java/software/ulpgc/money/architecture/control/ExchangeMoneyCommand.java:87-95 | the loaders are reached exactly when the source is set, the codes differ and the amount is not negative; otherwise exactly one error dialog, "Please, insert valid data" titled "Error", and nothing else |
| Control.SameCodeIsRefused | src/main/java/software/ulpgc/money/architecture/control/ExchangeMoneyCommand.java:87 | a target with the source's code is refused whatever the amount |
| Control.UnparsedAmountIsAccepted | src/main/java/software/ulpgc/money/architecture/control/ExchangeMoneyCommand.java:87 | an amount that did not parse never causes a refusal |
| Control.ExchangeCallOrder | src/main/java/software/ulpgc/money/architecture/control/ExchangeMoneyCommand.java:84-91 | the dialogs are read before any loader; the rate is loaded exactly once, for (source, target) in that order; then chart, then series, then chart shown, then money shown |
| Control.ExchangeResult | src/main/java/software/ulpgc/money/architecture/control/ExchangeMoneyCommand.java:89-91 | the display gets the source money unchanged and the result in the target currency worth amount times rate; the chart and series are for the pair |
| Control.ExchangeCompletes | src/main/java/software/ulpgc/money/architecture/control/ExchangeMoneyCommand.java:88-91 | when both loaders answer, the run is the seven calls, ends normally, and shows the chart and both sums |
| Control.ExchangeFailures | src/main/java/software/ulpgc/money/architecture/control/ExchangeMoneyCommand.java:84-90 | a null source fails at the guard and a null target in the rate loader; an accepted pair fails exactly when a loader fails |
| Control.FrankfurterPairs | src/main/java/software/ulpgc/money/frankfurter/FrankfurterExchangeRateLoader.java:58 | the Frankfurter loaders answer for the pair asked about |
| Control.ExecuteExchangeMoney | src/main/java/software/ulpgc/money/architecture/control/ExchangeMoneyCommand.java:83-97 | the frame records exactly the run's calls and ends as the run does; the money display shows both sums and the last-update line, the centre shows the chart fed by a new started worker over a new empty buffer, and each is untouched when the run shows nothing there |
| Control.ShowExchange | src/main/java/software/ulpgc/money/architecture/control/ExchangeMoneyCommand.java:90-91 | the centre shows the chart fed by a new started worker over a new empty buffer, and the money display shows both sums and the last-update line |
| Control.ExecuteShowReadMe | src/main/java/software/ulpgc/money/architecture/control/ShowReadMeCommand.java:42-44 | the info pane is shown; the worker and buffer fields and the money display are untouched |
| Control.SwapSelections | src/main/java/software/ulpgc/money/architecture/control/SwapCurrenciesCommand.java:55-57 | a refused index is an illegal-argument failure |
| Control.SwapExchangesIndices | src/main/java/software/ulpgc/money/architecture/control/SwapCurrenciesCommand.java:55-57 | over distinct codes, the swap succeeds exactly when each index fits the other list, and then the source index is the target's former one and vice versa |
| Control.SwapEqualIndices | src/main/java/software/ulpgc/money/architecture/control/SwapCurrenciesCommand.java:55-57 | when both indices are equal the selections are unchanged |
| Control.SwapTwiceRestores | src/main/java/software/ulpgc/money/architecture/control/SwapCurrenciesCommand.java:55-57 | over distinct codes, swapping twice restores both selections |
| Control.SwapOverOneList | src/main/java/software/ulpgc/money/architecture/control/SwapCurrenciesCommand.java:55-57 | over one list of distinct currencies, the swap exchanges the selected currencies |
| Control.SwapIndices | src/main/java/software/ulpgc/money/architecture/control/SwapCurrenciesCommand.java:55-57 | the selectors end as the swap specifies, with their items unchanged |
| Control.ExecuteSwap | src/main/java/software/ulpgc/money/architecture/control/SwapCurrenciesCommand.java:54-59 | the swap finishes first, leaving both selectors' item lists as they were; then "exchange money" is looked up and runs once with its full effect; a missing binding dereferences null, and a binding to the swap itself overflows the stack, in both cases with no call logged and both displays untouched |
| Control.ButtonName | src/main/java/software/ulpgc/money/swing/SwingMainFrame.java:152-167 | each button dispatches "exchange money", "swap" or "show info" |
| Control.ButtonNamesDistinct | src/main/java/software/ulpgc/money/swing/SwingMainFrame.java:152-167 | different buttons dispatch different names |
| Control.Press | src/main/java/software/ulpgc/money/swing/SwingMainFrame.java:152-167 | the command bound to the button's name runs with its full effect: the exchange run with its calls, outcome and displays; the info pane with the money display untouched; or the swap with both new selections followed by the command bound to "exchange money"; an unbound name dereferences null and changes nothing |

## Left out

- HTTP fetching and Gson parsing are foreign code. The web service is a function from URL to parsed JSON or failure, so nothing about bytes or network errors is modelled.
- Floating point: amounts and rates are mathematical reals. `amount * rate` has no rounding, and `Double.parseDouble` and `Double.toString` are function parameters. NaN and infinities are not modelled.
- Gson's `getAsDouble` on a JSON string parses the string; the model treats a string where a number is expected as malformed.
- JSON objects are member lists. Properties about a unique value per key assume distinct keys, as Gson keeps the last of duplicate keys.
- Threads: `invokeLater`, the 8 ms sleep and interrupt delivery. Appends are sequential. An interrupt is an oracle consulted before each append; an interrupt during the sleep ends the loop the same way. The worker runs when a caller runs it, not concurrently.
- `Day.parseDay` in the buffer update: days are keyed by their text.
- The clock: `LocalDate.now` and `LocalTime.now` are one `Clock` snapshot. Two separate reads that straddle midnight are not modelled.
- Dates are limited to years 0 to 9999, the range where `LocalDate.toString` prints four digits.
- `Calendar.PrevDay`, `Frankfurter.StartDay`: defined only for a today from year 1 on, so the year before stays in range.
- Strings are sequences of characters. UTF-16 surrogate pairs and `\u` escapes of characters above U+FFFF are not distinguished.
- `Control.ExecuteSwap`: when "exchange money" is bound to the swap command itself, Java recurses until the stack overflows. The model stops after one swap and reports the overflow; the selections after an unknown number of swaps are not modelled.
- Layout, colours, icons, `SwingReadMeDialog`, `ErrorMessageDialogFactory` and `JFreeChartAdapter` are presentation. The error dialog is a logged call.
- `App.java`'s start-up wiring is not part of this model.
- The command registry holds one of the three commands of this program, each acting on the frame's own dialogs and displays. `putCommand` accepts any `Command` implementation with any collaborators, and such other commands are not modelled.
- The web service is one function for all three loaders, and it says nothing about how many requests a load makes. In Java the rate loader always calls the static `APIDeserializer.loadJsonWith`, while the currency and series loaders use the `APIService` they were given. The model does not tell these two fetchers apart.
- `Currency.hashCode` is not overridden with `equals`; only equality is modelled.
- Calling a dialog before `define` dereferences a null field in Java. The model requires the dialogs to be defined first.
- The amount field's text is set by `Swing.MoneyDialog.EnterAmount`, standing for the user typing.
