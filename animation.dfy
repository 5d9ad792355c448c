/**
 * The animated chart (package `jfree`): the buffer the chart draws, the worker thread that
 * replays a rate series into it day by day in key order, and the display panel that swaps in a
 * fresh buffer and worker for every chart it shows.
 */
module Animation {
  import opened Wrappers
  import opened Model
  import opened Lexicographic
  import opened Calendar

  /** JFreeChart's `TimeSeries`: at most one value per day. */
  class TimeSeriesBuffer {
    var points: map<string, real>

    /** `new TimeSeries("Data")`. */
    constructor ()
      ensures points == map[]
    {
      points := map[];
    }

    /** `clear()`. */
    method Clear()
      modifies this
      ensures points == map[]
    {
      points := map[];
    }

    /** `addOrUpdate(day, value)`: a new day adds a point, a known day has its value replaced. */
    method AddOrUpdate(day: string, value: real)
      modifies this
      ensures points == old(points)[day := value]
      ensures day in old(points) ==> points.Keys == old(points).Keys
    {
      points := points[day := value];
    }
  }

  /** `new TreeMap<>(rates)`: the keys, inserted one by one in the map's own (unspecified) order, end up in ascending order. */
  method SortKeys(keys: set<string>) returns (sorted: seq<string>)
    ensures StrictlySorted(sorted)
    ensures forall x :: x in sorted <==> x in keys
  {
    sorted := [];
    var rest := keys;
    while rest != {}
      invariant rest <= keys
      invariant StrictlySorted(sorted)
      invariant forall x :: x in sorted <==> x in keys - rest
      decreases rest
    {
      var k :| k in rest;
      sorted := Insert(sorted, k);
      rest := rest - {k};
    }
  }

  /** The entries of `rates` for the given keys, in that order. */
  function Entries(rates: map<string, real>, keys: seq<string>): (es: seq<(string, real)>)
    requires forall k :: k in keys ==> k in rates
    ensures |es| == |keys|
    ensures forall i :: 0 <= i < |keys| ==> es[i] == (keys[i], rates[keys[i]])
  {
    if keys == [] then [] else [(keys[0], rates[keys[0]])] + Entries(rates, keys[1..])
  }

  /** The entries of a `TreeMap` built from `rates`: every entry once, in ascending key order. */
  ghost function SortedEntries(rates: map<string, real>): seq<(string, real)>
  {
    Entries(rates, SortedKeys(rates.Keys))
  }

  /** The buffer after `addOrUpdate` of each entry in turn. */
  function Replay(points: map<string, real>, entries: seq<(string, real)>): map<string, real>
  {
    if entries == [] then points
    else Replay(points, entries[..|entries| - 1])[entries[|entries| - 1].0 := entries[|entries| - 1].1]
  }

  /** Replaying the first `k` entries over distinct keys into an empty buffer leaves exactly those days with their rates. */
  lemma {:induction false} ReplayPrefix(rates: map<string, real>, keys: seq<string>, k: nat)
    requires StrictlySorted(keys) && (forall x :: x in keys ==> x in rates) && k <= |keys|
    ensures Replay(map[], Entries(rates, keys)[..k]) == map x | x in keys[..k] :: rates[x]
  {
    if k > 0 {
      var es := Entries(rates, keys);
      ReplayPrefix(rates, keys, k - 1);
      assert es[..k][..k - 1] == es[..k - 1];
      assert keys[..k] == keys[..k - 1] + [keys[k - 1]];
    }
  }

  /** Without any cancellation the buffer ends up holding the whole series. */
  lemma ReplayAll(rates: map<string, real>)
    ensures Replay(map[], SortedEntries(rates)) == rates
  {
    var keys := SortedKeys(rates.Keys);
    ReplayPrefix(rates, keys, |keys|);
    assert Entries(rates, keys)[..|keys|] == Entries(rates, keys);
    assert keys[..|keys|] == keys;
  }

  /** Each day is appended at most once: the sorted entries have distinct days. */
  lemma SortedEntriesDistinct(rates: map<string, real>)
    ensures forall i, j :: 0 <= i < j < |SortedEntries(rates)| ==> SortedEntries(rates)[i].0 != SortedEntries(rates)[j].0
  {
    var keys := SortedKeys(rates.Keys);
    forall i, j | 0 <= i < j < |keys|
      ensures keys[i] != keys[j]
    {
      LessAsymmetric(keys[i], keys[j]);
    }
  }

  /** With ISO date keys, the worker visits the days in calendar order. */
  lemma SortedEntriesChronological(rates: map<string, real>, i: nat, j: nat, a: Date, b: Date)
    requires i < j < |SortedEntries(rates)| && Valid(a) && Valid(b)
    requires SortedEntries(rates)[i].0 == Format(a) && SortedEntries(rates)[j].0 == Format(b)
    ensures Before(a, b)
  {
    FormatOrder(a, b);
  }

  /**
   * The index of the first entry at which the worker finds itself interrupted, `n` when it never
   * does: `cancelled(j)` says an interrupt arrived before the `j`-th append.
   */
  function FirstCancel(cancelled: nat -> bool, i: nat, n: nat): (k: nat)
    requires i <= n
    ensures i <= k <= n
    ensures forall j :: i <= j < k ==> !cancelled(j)
    ensures k < n ==> cancelled(k)
    decreases n - i
  {
    if i == n || cancelled(i) then i else FirstCancel(cancelled, i + 1, n)
  }

  /** How many entries the worker appends: none when it was interrupted before running, else up to the first cancellation. */
  function Stop(interrupted: bool, cancelled: nat -> bool, n: nat): (k: nat)
    ensures k <= n
  {
    if interrupted then 0 else FirstCancel(cancelled, 0, n)
  }

  /** A worker that is neither interrupted nor cancelled appends every entry. */
  lemma UncancelledRunAppendsAll(cancelled: nat -> bool, n: nat)
    requires forall j :: !cancelled(j)
    ensures Stop(false, cancelled, n) == n
  {
  }

  /** Once cancelled, no entry from the cancellation point on is appended. */
  lemma CancelledRunStops(cancelled: nat -> bool, n: nat, j: nat)
    requires j < n && cancelled(j)
    ensures Stop(false, cancelled, n) <= j
  {
  }

  /** `AnimationThread`: a thread that appends the days of a rate series to one fixed buffer. */
  class AnimationThread {
    const buffer: TimeSeriesBuffer
    var rates: Option<ExchangeRateTimeSeries>
    var started: bool
    var finished: bool
    var interrupted: bool
    /** The `addOrUpdate` calls made so far, in order. */
    ghost var appended: seq<(string, real)>

    constructor (buffer: TimeSeriesBuffer)
      ensures this.buffer == buffer && rates == None
      ensures !started && !finished && !interrupted && appended == []
    {
      this.buffer := buffer;
      rates := None;
      started, finished, interrupted := false, false, false;
      appended := [];
    }

    /** `new AnimationThread(timeSeries)`: a null buffer is refused with IllegalArgumentException. */
    static method Create(buffer: TimeSeriesBuffer?) returns (r: Result<AnimationThread, Failure>)
      ensures buffer == null ==> r == Err(IllegalArgument)
      ensures buffer != null ==> r.Ok? && fresh(r.value) && r.value.buffer == buffer && r.value.rates == None
      ensures buffer != null ==> !r.value.started && !r.value.finished && !r.value.interrupted && r.value.appended == []
    {
      if buffer == null {
        return Err(IllegalArgument);
      }
      var t := new AnimationThread(buffer);
      r := Ok(t);
    }

    /** `setRates(newRates)`: replaces the series to animate and nothing else. */
    method SetRates(newRates: ExchangeRateTimeSeries)
      modifies this
      ensures rates == Some(newRates)
      ensures started == old(started) && finished == old(finished) && interrupted == old(interrupted)
      ensures appended == old(appended)
    {
      rates := Some(newRates);
    }

    /** `isAlive()`: started and not yet finished. */
    predicate IsAlive()
      reads this
    {
      started && !finished
    }

    /** `interrupt()`: raises the interrupt flag the worker polls. */
    method Interrupt()
      modifies this
      ensures interrupted
      ensures rates == old(rates) && started == old(started) && finished == old(finished) && appended == old(appended)
    {
      interrupted := true;
    }

    /** `start()`: a thread starts once; a second start throws IllegalThreadStateException. */
    method Start() returns (outcome: Outcome<Failure>)
      modifies this
      ensures outcome == (if old(started) then Fail(IllegalThreadState) else Pass)
      ensures started
      ensures rates == old(rates) && finished == old(finished) && interrupted == old(interrupted)
      ensures appended == old(appended)
    {
      if started {
        return Fail(IllegalThreadState);
      }
      started := true;
      outcome := Pass;
    }

    /**
     * `run()`: the body of the started thread. Without a series it dies on a null reference;
     * otherwise it appends the entries in ascending key order and stops before the first entry
     * at which it is interrupted, so what it appended is always a prefix of the sorted entries.
     */
    method Run(cancelled: nat -> bool) returns (outcome: Outcome<Failure>)
      requires started && !finished && appended == []
      modifies this, buffer
      ensures finished
      ensures rates == old(rates) && started == old(started) && interrupted == old(interrupted)
      ensures rates.None? ==> outcome == Fail(NullPointer) && appended == [] && buffer.points == old(buffer.points)
      ensures rates.Some? ==>
                outcome == Pass &&
                appended == SortedEntries(rates.value.rates)[..Stop(interrupted, cancelled, |SortedEntries(rates.value.rates)|)] &&
                buffer.points == Replay(old(buffer.points), appended)
    {
      if rates.None? {
        finished := true;
        return Fail(NullPointer);
      }
      ghost var before := buffer.points;
      var data := rates.value.rates;
      var sortedKeys := SortKeys(data.Keys);
      ghost var all := Entries(data, sortedKeys);
      ghost var stop := Stop(interrupted, cancelled, |all|);
      var i := 0;
      while i < |sortedKeys|
        invariant 0 <= i <= stop
        invariant appended == all[..i]
        invariant buffer.points == Replay(before, appended)
        invariant rates == old(rates) && started && !finished && interrupted == old(interrupted)
        decreases |sortedKeys| - i
      {
        if interrupted || cancelled(i) {
          break;
        }
        var day := sortedKeys[i];
        buffer.AddOrUpdate(day, data[day]);
        assert all[..i + 1] == all[..i] + [(day, data[day])];
        ghost var next := appended + [(day, data[day])];
        assert next[..|next| - 1] == appended;
        assert Replay(before, next) == Replay(before, appended)[day := data[day]];
        appended := next;
        i := i + 1;
      }
      assert i == stop;
      assert all == SortedEntries(data) by {
        SortedUnique(sortedKeys, SortedKeys(data.Keys));
      }
      finished := true;
      outcome := Pass;
    }
  }

  /** What the panel shows: nothing yet, a chart, or the read-me pane. */
  datatype Content = Blank | ChartPanel(chart: TimeSeriesChart) | InfoPane

  /** `CenterContentDisplay`: the panel, the buffer its chart draws and the worker feeding that buffer. */
  class CenterContentDisplay {
    var content: Content
    var series: TimeSeriesBuffer?
    var worker: AnimationThread?

    /** The worker, when there is one, feeds the displayed buffer. */
    ghost predicate Valid()
      reads this, worker
    {
      (series == null <==> worker == null) && (worker != null ==> worker.buffer == series)
    }

    constructor ()
      ensures Valid() && content == Blank && series == null && worker == null
    {
      content := Blank;
      series := null;
      worker := null;
    }

    /** `createChartPanel(chart)`: a fresh empty buffer and a fresh, unstarted worker bound to it. */
    method CreateChartPanel(chart: TimeSeriesChart) returns (panel: Content)
      modifies this
      ensures Valid() && panel == ChartPanel(chart) && content == old(content)
      ensures fresh(series) && fresh(worker) && series.points == map[]
      ensures worker.rates == None && !worker.started && !worker.finished && !worker.interrupted
      ensures worker.appended == []
    {
      var s := new TimeSeriesBuffer();
      var created := AnimationThread.Create(s);
      series := s;
      worker := created.value;
      panel := ChartPanel(chart);
    }

    /**
     * `doAnimation(rates)`: interrupts the current worker if it is alive, clears the buffer, hands
     * the worker the series and starts it.
     */
    method DoAnimation(rates: ExchangeRateTimeSeries) returns (outcome: Outcome<Failure>)
      requires Valid() && worker != null
      modifies worker, series
      ensures Valid() && content == old(content) && series == old(series) && worker == old(worker)
      ensures series.points == map[]
      ensures worker.interrupted == (old(worker.interrupted) || old(worker.IsAlive()))
      ensures worker.rates == Some(rates) && worker.started && worker.finished == old(worker.finished)
      ensures outcome == (if old(worker.started) then Fail(IllegalThreadState) else Pass)
      ensures worker.appended == old(worker.appended)
    {
      if worker.IsAlive() {
        worker.Interrupt();
      }
      series.Clear();
      worker.SetRates(rates);
      outcome := worker.Start();
    }

    /**
     * `showChart(chart, rates)`: shows the chart over a new buffer and starts a new worker on the
     * series. The alive check in `doAnimation` only ever sees that new worker, so a previous
     * worker is left running, untouched, on its own detached buffer.
     */
    method ShowChart(chart: TimeSeriesChart, rates: ExchangeRateTimeSeries)
      requires Valid()
      modifies this
      ensures Valid() && content == ChartPanel(chart)
      ensures fresh(series) && fresh(worker) && series.points == map[]
      ensures worker.rates == Some(rates) && worker.started && !worker.finished && !worker.interrupted
      ensures worker.appended == []
      ensures old(worker) != null ==> unchanged(old(worker)) && old(worker) != worker
      ensures old(series) != null ==> unchanged(old(series)) && old(series) != series
    {
      content := Blank;
      var panel := CreateChartPanel(chart);
      content := panel;
      var outcome := DoAnimation(rates);
      assert outcome == Pass;
    }

    /** `showInfo()`: shows the read-me pane; the buffer and the worker stay as they were. */
    method ShowInfo()
      modifies this
      ensures content == InfoPane && series == old(series) && worker == old(worker)
    {
      content := InfoPane;
    }
  }
}
