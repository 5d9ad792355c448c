/**
 * The Swing views (package `swing`): the currency selectors, the amount dialog, the result
 * display with its "last update" line, and the main frame's registry of named commands.
 * Layout, colours and icons are not modelled; what is kept is the state each view holds.
 */
module Swing {
  import opened Wrappers
  import opened Model
  import opened Calendar
  import opened Animation
  import opened Text

  // ---------------------------------------------------------------- selector semantics

  /** No two items share a code, as for the currencies the loader returns. */
  predicate DistinctCodes(items: seq<Currency>)
  {
    forall a, b :: 0 <= a < b < |items| ==> items[a].code != items[b].code
  }

  /** The first position whose item equals `c` (by code), -1 when there is none: how a combo box finds its selected index. */
  function IndexOfCode(items: seq<Currency>, c: Currency): (i: int)
    ensures -1 <= i < |items|
    ensures i == -1 <==> forall j :: 0 <= j < |items| ==> items[j].code != c.code
    ensures i >= 0 ==> Equals(items[i], OfCurrency(c)) && forall j :: 0 <= j < i ==> items[j].code != c.code
  {
    if items == [] then -1
    else if Equals(items[0], OfCurrency(c)) then 0
    else
      var k := IndexOfCode(items[1..], c);
      assert forall j :: 1 <= j < |items| ==> items[j] == items[1..][j - 1];
      if k == -1 then -1 else k + 1
  }

  /** With distinct codes, the item at a position is found at that position. */
  lemma IndexOfDistinct(items: seq<Currency>, i: int)
    requires DistinctCodes(items) && 0 <= i < |items|
    ensures IndexOfCode(items, items[i]) == i
  {
  }

  /** `getSelectedIndex()`: the position of the selected item, -1 when nothing is selected. */
  function SelectedIndexOf(items: seq<Currency>, selection: Option<Currency>): int
  {
    if selection.None? then -1 else IndexOfCode(items, selection.value)
  }

  /**
   * The selection after `setSelectedIndex(index)`: -1 clears it; an index outside the items is
   * refused with IllegalArgumentException; a selection already equal to the item stays; otherwise
   * the first item equal to it is selected.
   */
  function Select(items: seq<Currency>, selection: Option<Currency>, index: int): (r: Result<Option<Currency>, Failure>)
    ensures r.Err? <==> index < -1 || index >= |items|
    ensures r.Err? ==> r.error == IllegalArgument
    ensures index == -1 ==> r == Ok(None)
    ensures 0 <= index < |items| ==> r.Ok? && r.value.Some? && r.value.value.code == items[index].code
    ensures r.Ok? && r.value.Some? && (selection.Some? ==> selection.value in items) ==> r.value.value in items
  {
    if index == -1 then Ok(None)
    else if index < -1 || index >= |items| then Err(IllegalArgument)
    else if selection.Some? && Equals(selection.value, OfCurrency(items[index])) then Ok(selection)
    else Ok(Some(items[IndexOfCode(items, items[index])]))
  }

  /** After selecting a valid index the selected index is the first position with that item's code, which is the index itself when codes are distinct. */
  lemma SelectThenIndex(items: seq<Currency>, selection: Option<Currency>, index: int)
    requires 0 <= index < |items|
    ensures SelectedIndexOf(items, Select(items, selection, index).value) == IndexOfCode(items, items[index])
    ensures DistinctCodes(items) ==> SelectedIndexOf(items, Select(items, selection, index).value) == index
  {
    var s := Select(items, selection, index).value.value;
    var k := IndexOfCode(items, items[index]);
    assert s.code == items[index].code;
    assert IndexOfCode(items, s) == k by {
      var m := IndexOfCode(items, s);
      assert k >= 0 && m >= 0;
      assert !(m < k) && !(k < m);
    }
  }

  /** Selecting the same index twice is the same as selecting it once. */
  lemma SelectIdempotent(items: seq<Currency>, selection: Option<Currency>, index: int)
    requires Select(items, selection, index).Ok?
    ensures Select(items, Select(items, selection, index).value, index) == Select(items, selection, index)
  {
  }

  /**
   * When both selectors list the same distinct currencies, exchanging the selected indices
   * exchanges the selected currencies.
   */
  lemma IndexSwapOverOneList(items: seq<Currency>, a: Currency, b: Currency)
    requires DistinctCodes(items) && a in items && b in items
    ensures Select(items, Some(a), SelectedIndexOf(items, Some(b))) == Ok(Some(b))
    ensures Select(items, Some(b), SelectedIndexOf(items, Some(a))) == Ok(Some(a))
  {
    var i :| 0 <= i < |items| && items[i] == a;
    var j :| 0 <= j < |items| && items[j] == b;
    IndexOfDistinct(items, i);
    IndexOfDistinct(items, j);
  }

  /** Over two different lists, exchanging indices need not exchange currencies: here the source keeps EUR. */
  lemma IndexSwapOverTwoLists()
    ensures var eur, usd, gbp := Currency("EUR", "Euro"), Currency("USD", "US Dollar"), Currency("GBP", "Pound");
      var from, to := [eur, usd], [usd, gbp];
      SelectedIndexOf(to, Some(usd)) == 0 && Select(from, Some(eur), 0) == Ok(Some(eur))
  {
  }

  // ---------------------------------------------------------------- the currency selector

  /** `SwingCurrencyDialog`: a combo box of currencies and its selection. */
  class CurrencyDialog {
    var defined: bool
    var items: seq<Currency>
    var selection: Option<Currency>

    /** Defined, and whatever is selected is one of the items. */
    ghost predicate Valid()
      reads this
    {
      defined && (selection.Some? ==> selection.value in items)
    }

    constructor ()
      ensures !defined && items == [] && selection == None
    {
      defined := false;
      items := [];
      selection := None;
    }

    /**
     * `define(currencies)`: a new combo box gets the currencies added one by one; the first one
     * added becomes the selection. Returns this dialog.
     */
    method Define(currencies: seq<Currency>) returns (self: CurrencyDialog)
      modifies this
      ensures self == this && Valid() && items == currencies
      ensures selection == (if currencies == [] then None else Some(currencies[0]))
    {
      items := [];
      selection := None;
      defined := true;
      var i := 0;
      while i < |currencies|
        invariant 0 <= i <= |currencies| && defined
        invariant items == currencies[..i]
        invariant selection == (if i == 0 then None else Some(currencies[0]))
      {
        items := items + [currencies[i]];
        if |items| == 1 && selection.None? {
          selection := Some(currencies[i]);
        }
        i := i + 1;
      }
      self := this;
    }

    /** `getSelectedIndex()`. */
    function GetSelectedIndex(): (i: int)
      reads this
      requires Valid()
      ensures -1 <= i < |items|
      ensures i == -1 <==> selection.None?
    {
      SelectedIndexOf(items, selection)
    }

    /** `get()`: the item at the selected index; null (None) when nothing is selected. */
    function Get(): (c: Option<Currency>)
      reads this
      requires Valid()
      ensures c.None? <==> selection.None?
      ensures c.Some? ==> c.value in items && Equals(c.value, OfCurrency(selection.value))
      ensures c.Some? && DistinctCodes(items) ==> c == selection
    {
      var i := GetSelectedIndex();
      if i >= 0 then Some(items[i]) else None
    }

    /** `set(index)`: `setSelectedIndex(index)`; the items stay as they are. */
    method Set(index: int) returns (outcome: Outcome<Failure>)
      requires Valid()
      modifies this
      ensures Valid() && items == old(items)
      ensures outcome.Fail? <==> Select(items, old(selection), index).Err?
      ensures outcome.Fail? ==> outcome.error == IllegalArgument && selection == old(selection)
      ensures outcome.Pass? ==> selection == Select(items, old(selection), index).value
      ensures 0 <= index < |items| && DistinctCodes(items) ==> GetSelectedIndex() == index
    {
      var r := Select(items, selection, index);
      if r.Err? {
        return Fail(r.error);
      }
      if 0 <= index < |items| {
        SelectThenIndex(items, selection, index);
      }
      selection := r.value;
      outcome := Pass;
    }
  }

  // ---------------------------------------------------------------- the amount dialog

  /** `toDouble(text)`: the parsed number, or 0 when the text does not parse. */
  function ToDouble(parseDouble: string -> Option<real>, text: string): real
  {
    match parseDouble(text)
    case Some(v) => v
    case None => 0.0
  }

  /** Text that does not parse reads as 0, so it is never a negative amount. */
  lemma UnparsedAmountIsZero(parseDouble: string -> Option<real>, text: string)
    requires parseDouble(text).None?
    ensures ToDouble(parseDouble, text) == 0.0 && !(ToDouble(parseDouble, text) < 0.0)
  {
  }

  /** What `SwingMoneyDialog.get()` hands over: the amount read, and the source currency or null. */
  datatype Entered = Entered(amount: real, currency: Option<Currency>)

  /** `SwingMoneyDialog`: the amount text field and the source currency selector. */
  class MoneyDialog {
    /** `Double.parseDouble`, None where it throws NumberFormatException. */
    const parseDouble: string -> Option<real>
    var amountText: string
    var fromDialog: CurrencyDialog?

    ghost predicate Valid()
      reads this, fromDialog
    {
      fromDialog != null && fromDialog.Valid()
    }

    constructor (parseDouble: string -> Option<real>)
      ensures this.parseDouble == parseDouble && amountText == "" && fromDialog == null
    {
      this.parseDouble := parseDouble;
      amountText := "";
      fromDialog := null;
    }

    /** `define(currencies)`: an empty amount field and a new source selector over the currencies. Returns this dialog. */
    method Define(currencies: seq<Currency>) returns (self: MoneyDialog)
      modifies this
      ensures self == this && Valid() && fresh(fromDialog) && amountText == ""
      ensures fromDialog.items == currencies
      ensures fromDialog.selection == (if currencies == [] then None else Some(currencies[0]))
    {
      amountText := "";
      var dialog := new CurrencyDialog();
      var _ := dialog.Define(currencies);
      fromDialog := dialog;
      self := this;
    }

    /** The user typing into the amount field. */
    method EnterAmount(text: string)
      modifies this
      ensures amountText == text && fromDialog == old(fromDialog)
    {
      amountText := text;
    }

    /** `get()`: the amount read from the text and the selected source currency; reading changes nothing. */
    function Get(): (e: Entered)
      reads this, fromDialog
      requires Valid()
      ensures parseDouble(amountText).Some? ==> e.amount == parseDouble(amountText).value
      ensures parseDouble(amountText).None? ==> e.amount == 0.0
      ensures e.currency == fromDialog.Get()
    {
      Entered(ToDouble(parseDouble, amountText), fromDialog.Get())
    }

    /** `set(index)`: delegated to the source selector; the amount text stays. */
    method Set(index: int) returns (outcome: Outcome<Failure>)
      requires Valid()
      modifies fromDialog
      ensures Valid() && fromDialog.items == old(fromDialog.items)
      ensures outcome.Fail? <==> Select(fromDialog.items, old(fromDialog.selection), index).Err?
      ensures outcome.Fail? ==> outcome.error == IllegalArgument && fromDialog.selection == old(fromDialog.selection)
      ensures outcome.Pass? ==> fromDialog.selection == Select(fromDialog.items, old(fromDialog.selection), index).value
      ensures 0 <= index < |fromDialog.items| && DistinctCodes(fromDialog.items) ==> GetSelectedIndex() == index
    {
      outcome := fromDialog.Set(index);
    }

    /** `getSelectedIndex()`: that of the source selector. */
    function GetSelectedIndex(): (i: int)
      reads this, fromDialog
      requires Valid()
      ensures -1 <= i < |fromDialog.items|
    {
      fromDialog.GetSelectedIndex()
    }
  }

  // ---------------------------------------------------------------- the result display

  /**
   * The date of the rates on show: the reference rates are published at 16:00, so before that
   * hour the latest ones are yesterday's, from that hour on today's.
   */
  function LastUpdateDate(clock: Clock): (d: Date)
    requires ValidClock(clock)
    ensures Valid(d)
    ensures clock.now.hour < 16 ==> d == PrevDay(clock.today)
    ensures clock.now.hour >= 16 ==> d == clock.today
  {
    BeforeCutoff(clock.now);
    if TimeBefore(clock.now, Cutoff) then PrevDay(clock.today) else clock.today
  }

  /** The date shown is today or the day just before, never later than today. */
  lemma LastUpdateIsLatestPublication(clock: Clock, e: Date)
    requires ValidClock(clock) && Valid(e)
    ensures !Before(clock.today, LastUpdateDate(clock))
    ensures LastUpdateDate(clock) != clock.today ==> !(Before(LastUpdateDate(clock), e) && Before(e, clock.today))
  {
    if clock.now.hour < 16 {
      PrevDayAdjacent(clock.today, e);
    }
  }

  /** `setLastUpdate(date)`: the timestamp line. */
  function LastUpdateLabel(d: Date): (s: string)
    requires Valid(d)
    ensures |s| == 30
  {
    CutoffText();
    "Last update: " + Format(d) + ", " + FormatTime(Cutoff)
  }

  /** The line reads "Last update: yyyy-MM-dd, 16:00", and different dates give different lines. */
  lemma LastUpdateLabelShape(a: Date, b: Date)
    requires Valid(a) && Valid(b)
    ensures LastUpdateLabel(a) == "Last update: " + Format(a) + ", 16:00"
    ensures LastUpdateLabel(a) == LastUpdateLabel(b) <==> a == b
  {
    CutoffText();
    FormatOrder(a, b);
    var fa, fb := Format(a), Format(b);
    MiddleOf("Last update: ", fa, ", 16:00");
    MiddleOf("Last update: ", fb, ", 16:00");
  }

  /** `SwingMoneyDisplay`: the three labels of the result panel. */
  class MoneyDisplay {
    /** `Double.toString`, used where an amount is joined to text. */
    const formatAmount: real -> string
    var fromText: string
    var resultText: string
    var timestampText: string

    constructor (formatAmount: real -> string)
      ensures this.formatAmount == formatAmount && fromText == "" && resultText == "" && timestampText == ""
    {
      this.formatAmount := formatAmount;
      fromText, resultText, timestampText := "", "", "";
    }

    /** `show(from, to)`: "amount CODE =" above "amount CODE", then the last-update line for the clock's reading. */
    method Show(from: Money, to: Money, clock: Clock)
      requires ValidClock(clock)
      modifies this
      ensures fromText == formatAmount(from.amount) + " " + from.currency.code + " ="
      ensures resultText == formatAmount(to.amount) + " " + to.currency.code
      ensures timestampText == LastUpdateLabel(LastUpdateDate(clock))
    {
      fromText := formatAmount(from.amount) + " " + from.currency.code + " =";
      resultText := formatAmount(to.amount) + " " + to.currency.code;
      var date := if TimeBefore(clock.now, Cutoff) then PrevDay(clock.today) else clock.today;
      timestampText := LastUpdateLabel(date);
    }
  }

  // ---------------------------------------------------------------- the main frame

  /** The three commands the application registers, each bound to the frame's own views. */
  datatype Command = ExchangeMoney | SwapCurrencies | ShowReadMe

  /** A call the commands make on a collaborator, in the order they make them. */
  datatype Event =
    | ReadMoney                                        // moneyDialog.get()
    | ReadCurrency                                     // currencyDialog.get()
    | RateLoaded(base: Currency, target: Option<Currency>) // exchangeRateLoader.load(from, to)
    | ChartLoaded(from: Currency, to: Currency)        // chartLoader.load(from, to)
    | StatisticLoaded(from: Currency, to: Currency)    // statisticLoader.loadStatistic(from, to)
    | ChartShown(chart: TimeSeriesChart, series: ExchangeRateTimeSeries)
    | MoneyShown(source: Money, result: Money)
    | ErrorShown(message: string, title: string)
    | InfoShown

  /** The names the three buttons dispatch. */
  const ExchangeName := "exchange money"
  const SwapName := "swap"
  const InfoName := "show info"

  /** `SwingMainFrame`: the command registry and the views the commands work on. */
  class MainFrame {
    var commands: map<string, Command>
    const moneyDialog: MoneyDialog
    const currencyDialog: CurrencyDialog
    const moneyDisplay: MoneyDisplay
    const contentDisplay: CenterContentDisplay
    /** The collaborator calls made so far. */
    ghost var log: seq<Event>

    /** The views are defined and distinct, and the chart panel's worker feeds its buffer. */
    ghost predicate Ready()
      reads this, moneyDialog, moneyDialog.fromDialog, currencyDialog, contentDisplay, contentDisplay.worker
    {
      moneyDialog.Valid() && currencyDialog.Valid() && moneyDialog.fromDialog != currencyDialog
      && contentDisplay.Valid()
    }

    /** `new SwingMainFrame()`: an empty registry and new, not yet defined, views. */
    constructor (parseDouble: string -> Option<real>, formatAmount: real -> string)
      ensures commands == map[] && log == []
      ensures fresh(moneyDialog) && fresh(currencyDialog) && fresh(moneyDisplay) && fresh(contentDisplay)
      ensures moneyDialog.parseDouble == parseDouble && moneyDisplay.formatAmount == formatAmount
      ensures moneyDialog.fromDialog == null && !currencyDialog.defined
      ensures contentDisplay.Valid() && contentDisplay.content == Blank
    {
      commands := map[];
      moneyDialog := new MoneyDialog(parseDouble);
      currencyDialog := new CurrencyDialog();
      moneyDisplay := new MoneyDisplay(formatAmount);
      contentDisplay := new CenterContentDisplay();
      log := [];
    }

    /** `putCommand(name, command)`: binds the name, replacing an earlier binding; other names keep theirs. */
    method PutCommand(name: string, command: Command)
      modifies this
      ensures commands == old(commands)[name := command] && log == old(log)
      ensures GetCommand(name) == Some(command)
      ensures forall other :: other != name ==> GetCommand(other) == old(GetCommand(other))
    {
      commands := commands[name := command];
    }

    /** `getCommand(name)`: the bound command, null (None) for an unbound name. */
    function GetCommand(name: string): (c: Option<Command>)
      reads this
      ensures c.Some? <==> name in commands
      ensures c.Some? ==> c.value == commands[name]
    {
      if name in commands then Some(commands[name]) else None
    }
  }
}
