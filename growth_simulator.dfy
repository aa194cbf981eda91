/**
 * The buy-and-hold growth simulator behind the market time machine's chart.
 *
 * A run starts with 10000 units of capital split over tickers by an
 * allocation. Every tick appends one (timestamp, value) point to the chart,
 * where the value at step k is the step-0 purchase of each slice carried at
 * the price ratio p[k] / p[0], plus the unallocated cash at 0% growth. The
 * page's module-level variables (`currentStep`, `allocation`, `interval`,
 * `portfolioClean`, the chart's label and data arrays, the event-log panel)
 * are the fields of `Simulator`; the browser's `setInterval` timer is
 * replaced by explicit calls to `Step`, with the set of live timer handles
 * kept as state so that "at most one tick chain is live" can be stated.
 */
module GrowthSimulator {
  import opened Wrappers
  import opened Text

  /** The capital a run starts with. */
  const StartingCapital: real := 10000.0

  /** One entry of the `allocation` object: a ticker and the fraction of capital put in it. */
  datatype Slice = Slice(ticker: string, fraction: real)

  /** The `allocation` object, its keys in insertion order (the order `Object.keys` yields). */
  type Allocation = seq<Slice>

  datatype Event = Event(date: string, title: string, description: string)

  /** The era data fetched once at page load: `market_data.timestamps`, `market_data.prices`, `events`. */
  datatype Dataset = Dataset(timestamps: seq<string>, prices: map<string, seq<real>>, events: seq<Event>)

  /** One allocation slider: the ticker it controls and its integer percentage. */
  datatype Slider = Slider(ticker: string, percent: int)

  // ---------------------------------------------------------------------------
  // Valuation
  // ---------------------------------------------------------------------------

  /** `Object.values(allocation).reduce((a, b) => a + b, 0)`, summed from the left. */
  function FractionSum(a: Allocation): real
  {
    if a == [] then 0.0 else FractionSum(a[..|a| - 1]) + a[|a| - 1].fraction
  }

  /**
   * Every allocated ticker has a price series as long as the timestamps, with a
   * non-zero first price. The page does not check this: a missing ticker throws
   * and a zero start price divides by zero.
   */
  predicate PricesCover(ds: Dataset, a: Allocation)
  {
    forall i :: 0 <= i < |a| ==>
      && a[i].ticker in ds.prices
      && |ds.prices[a[i].ticker]| >= |ds.timestamps|
      && (|ds.timestamps| > 0 ==> ds.prices[a[i].ticker][0] != 0.0)
  }

  /** The value at step k of the cash bought into one slice at step 0. */
  function Position(ds: Dataset, s: Slice, k: nat): real
    requires s.ticker in ds.prices && k < |ds.prices[s.ticker]| && ds.prices[s.ticker][0] != 0.0
  {
    var series := ds.prices[s.ticker];
    StartingCapital * s.fraction * (series[k] / series[0])
  }

  /** The sum of the positions, accumulated in key order as the `forEach` does. */
  function PositionsValue(ds: Dataset, a: Allocation, k: nat): real
    requires PricesCover(ds, a) && k < |ds.timestamps|
  {
    if a == [] then 0.0
    else PositionsValue(ds, a[..|a| - 1], k) + Position(ds, a[|a| - 1], k)
  }

  /** The portfolio value the chart shows at step k. */
  function PortfolioValue(ds: Dataset, a: Allocation, k: nat): real
    requires PricesCover(ds, a) && k < |ds.timestamps|
  {
    if k == 0 then StartingCapital
    else PositionsValue(ds, a, k) + StartingCapital * (1.0 - FractionSum(a))
  }

  /** The reduce over the allocation's values, as a loop. */
  method SumFractions(a: Allocation) returns (total: real)
    ensures total == FractionSum(a)
  {
    total := 0.0;
    var i := 0;
    while i < |a|
      invariant 0 <= i <= |a|
      invariant total == FractionSum(a[..i])
    {
      assert a[..i + 1][..i] == a[..i];
      total := total + a[i].fraction;
      i := i + 1;
    }
    assert a[..|a|] == a;
  }

  /** The value computation of one tick, the `forEach` accumulating `currentValue`. */
  method ValueAt(ds: Dataset, a: Allocation, k: nat) returns (currentValue: real)
    requires PricesCover(ds, a) && k < |ds.timestamps|
    ensures currentValue == PortfolioValue(ds, a, k)
  {
    if k == 0 {
      currentValue := StartingCapital;
    } else {
      currentValue := 0.0;
      var i := 0;
      while i < |a|
        invariant 0 <= i <= |a|
        invariant PricesCover(ds, a[..i])
        invariant currentValue == PositionsValue(ds, a[..i], k)
      {
        assert a[..i + 1][..i] == a[..i];
        var series := ds.prices[a[i].ticker];
        var allocatedCash := StartingCapital * a[i].fraction;
        currentValue := currentValue + allocatedCash * (series[k] / series[0]);
        i := i + 1;
      }
      assert a[..|a|] == a;
      var allocatedPercent := SumFractions(a);
      currentValue := currentValue + StartingCapital * (1.0 - allocatedPercent);
    }
  }

  // ---------------------------------------------------------------------------
  // Events and the log panel
  // ---------------------------------------------------------------------------

  /** The first index whose key is `k`: `find`, or a keyed lookup in insertion order. */
  function FirstIndex<T>(s: seq<T>, key: T -> string, k: string): (r: Option<nat>)
    ensures r.Some? ==> r.value < |s| && key(s[r.value]) == k
    ensures r.Some? ==> forall j :: 0 <= j < r.value ==> key(s[j]) != k
    ensures r.None? ==> forall j :: 0 <= j < |s| ==> key(s[j]) != k
  {
    if s == [] then None
    else if key(s[0]) == k then Some(0)
    else
      match FirstIndex(s[1..], key, k)
      case None => None
      case Some(i) => Some(i + 1)
  }

  /** `events.find(e => e.date === date)`, as an index: the first event on that date. */
  function FirstEventOn(events: seq<Event>, date: string): (r: Option<nat>)
    ensures r.Some? ==> r.value < |events| && events[r.value].date == date
    ensures r.Some? ==> forall j :: 0 <= j < r.value ==> events[j].date != date
    ensures r.None? ==> forall j :: 0 <= j < |events| ==> events[j].date != date
  {
    FirstIndex(events, (e: Event) => e.date, date)
  }

  /** What `log(msg)` puts in the panel. */
  function Line(msg: string): string
  {
    "> " + msg
  }

  const OverAllocated: string := "ERROR: Allocation exceeds 100%"
  const Started: string := "Started simulation..."
  const Complete: string := "SIMULATION COMPLETE."

  function EventMessage(e: Event): string
  {
    "EVENT: [" + e.title + "] - " + e.description
  }

  /** The lines a tick at `date` adds to the panel: the first matching event's, if any. */
  function EventLines(events: seq<Event>, date: string): seq<string>
  {
    match FirstEventOn(events, date)
    case None => []
    case Some(i) => [Line(EventMessage(events[i]))]
  }

  // ---------------------------------------------------------------------------
  // Sliders
  // ---------------------------------------------------------------------------

  /** The first index holding `ticker`, if the allocation has that key. */
  function TickerIndex(a: Allocation, ticker: string): (r: Option<nat>)
    ensures r.Some? ==> r.value < |a| && a[r.value].ticker == ticker
    ensures r.Some? ==> forall j :: 0 <= j < r.value ==> a[j].ticker != ticker
    ensures r.None? ==> forall j :: 0 <= j < |a| ==> a[j].ticker != ticker
  {
    FirstIndex(a, (x: Slice) => x.ticker, ticker)
  }

  /** `allocation[ticker] = fraction`: overwrite the key in place, or add it at the end. */
  function Put(a: Allocation, ticker: string, fraction: real): Allocation
  {
    match TickerIndex(a, ticker)
    case Some(i) => a[i := Slice(ticker, fraction)]
    case None => a + [Slice(ticker, fraction)]
  }

  /** The allocation after every slider has been written, in document order. */
  function AssignAll(a: Allocation, sliders: seq<Slider>): Allocation
  {
    if sliders == [] then a
    else
      var last := sliders[|sliders| - 1];
      Put(AssignAll(a, sliders[..|sliders| - 1]), last.ticker, last.percent as real / 100.0)
  }

  /** The total the page displays: the sum of the sliders' integer percentages. */
  function PercentSum(sliders: seq<Slider>): int
  {
    if sliders == [] then 0
    else PercentSum(sliders[..|sliders| - 1]) + sliders[|sliders| - 1].percent
  }

  /** One slice per slider, in slider order. */
  function FromSliders(sliders: seq<Slider>): (a: Allocation)
    ensures |a| == |sliders|
    ensures forall i :: 0 <= i < |sliders| ==> a[i] == Slice(sliders[i].ticker, sliders[i].percent as real / 100.0)
  {
    seq(|sliders|, i requires 0 <= i < |sliders| => Slice(sliders[i].ticker, sliders[i].percent as real / 100.0))
  }

  predicate DistinctTickers(sliders: seq<Slider>)
  {
    forall i, j :: 0 <= i < j < |sliders| ==> sliders[i].ticker != sliders[j].ticker
  }

  /** `filterTickers`: which asset rows stay visible for a search query. */
  method FilterTickers(rows: seq<string>, query: string) returns (shown: seq<bool>)
    ensures |shown| == |rows|
    ensures forall i :: 0 <= i < |rows| ==> (shown[i] <==> Contains(rows[i], Upper(query)))
  {
    var q := Upper(query);
    shown := [];
    for i := 0 to |rows|
      invariant |shown| == i
      invariant forall j :: 0 <= j < i ==> (shown[j] <==> Contains(rows[j], q))
    {
      shown := shown + [Contains(rows[i], q)];
    }
  }

  // ---------------------------------------------------------------------------
  // The page state
  // ---------------------------------------------------------------------------

  class Simulator {
    var simulationData: Option<Dataset>
    var currentStep: nat
    var portfolioClean: real
    var allocation: Allocation
    /** The handle the last `setInterval` returned. */
    var interval: nat
    /** The handle the next `setInterval` will return. */
    var nextHandle: nat
    /** The handles of the timers still scheduled. */
    var activeTimers: set<nat>
    /** The chart's `labels` and `datasets[0].data`. */
    var labels: seq<string>
    var values: seq<real>
    /** The event-log panel, newest line first (`log` prepends). */
    var log: seq<string>

    ghost predicate Valid()
      reads this
    {
      && |labels| == currentStep
      && |values| == currentStep
      && activeTimers <= {interval}
      && interval < nextHandle
      && (simulationData.None? ==> currentStep == 0 && activeTimers == {})
      && (simulationData.Some? ==>
            currentStep <= |simulationData.value.timestamps|
            && labels == simulationData.value.timestamps[..currentStep])
    }

    /** The page before its data has arrived. */
    constructor ()
      ensures Valid()
      ensures simulationData.None? && currentStep == 0 && portfolioClean == StartingCapital
      ensures allocation == [] && labels == [] && values == [] && log == [] && activeTimers == {}
    {
      simulationData := None;
      currentStep := 0;
      portfolioClean := StartingCapital;
      allocation := [];
      interval := 0;
      nextHandle := 1;
      activeTimers := {};
      labels := [];
      values := [];
      log := [];
    }

    /** `init`: the fetched era data arrives and an empty chart is created. */
    method Init(ds: Dataset)
      requires Valid() && simulationData.None?
      modifies this
      ensures Valid()
      ensures simulationData == Some(ds) && labels == [] && values == []
      ensures currentStep == old(currentStep) && allocation == old(allocation) && log == old(log)
      ensures portfolioClean == old(portfolioClean) && activeTimers == old(activeTimers)
      ensures interval == old(interval) && nextHandle == old(nextHandle)
    {
      simulationData := Some(ds);
      labels := [];
      values := [];
    }

    /** `log(msg)`: the new line goes on top of the panel. */
    method Log(msg: string)
      modifies this`log
      ensures log == [Line(msg)] + old(log)
    {
      log := [Line(msg)] + log;
    }

    /** `updateAllocation`: writes every slider into the allocation and returns the displayed total and whether it is shown red. */
    method UpdateAllocation(sliders: seq<Slider>) returns (total: int, overLimit: bool)
      modifies this`allocation
      ensures allocation == AssignAll(old(allocation), sliders)
      ensures total == PercentSum(sliders)
      ensures overLimit <==> total > 100
    {
      total := 0;
      var i := 0;
      while i < |sliders|
        invariant 0 <= i <= |sliders|
        invariant allocation == AssignAll(old(allocation), sliders[..i])
        invariant total == PercentSum(sliders[..i])
      {
        assert sliders[..i + 1][..i] == sliders[..i];
        var s := sliders[i];
        allocation := Put(allocation, s.ticker, s.percent as real / 100.0);
        total := total + s.percent;
        i := i + 1;
      }
      assert sliders[..|sliders|] == sliders;
      overLimit := total > 100;
    }

    /** `startSimulation`: validate the allocation, reset the run, replace the timer. */
    method StartSimulation()
      requires Valid()
      modifies this
      ensures Valid()
      ensures simulationData == old(simulationData) && allocation == old(allocation)
      ensures old(simulationData).None? ==>
        && log == old(log) && labels == old(labels) && values == old(values)
        && currentStep == old(currentStep) && portfolioClean == old(portfolioClean)
        && interval == old(interval) && nextHandle == old(nextHandle) && activeTimers == old(activeTimers)
      ensures old(simulationData).Some? && FractionSum(allocation) > 1.0 ==>
        && log == [Line(OverAllocated)] + old(log)
        && labels == old(labels) && values == old(values)
        && currentStep == old(currentStep) && portfolioClean == old(portfolioClean)
        && interval == old(interval) && nextHandle == old(nextHandle) && activeTimers == old(activeTimers)
      ensures old(simulationData).Some? && FractionSum(allocation) <= 1.0 ==>
        && log == [Line(Started)] + old(log)
        && labels == [] && values == [] && currentStep == 0 && portfolioClean == StartingCapital
        && interval == old(nextHandle) && nextHandle == old(nextHandle) + 1
        && activeTimers == old(activeTimers) - {old(interval)} + {interval}
        && activeTimers == {interval}
    {
      if simulationData.None? {
        return;
      }
      var total := SumFractions(allocation);
      if total > 1.0 {
        Log(OverAllocated);
        return;
      }
      labels := [];
      values := [];
      currentStep := 0;
      portfolioClean := StartingCapital;
      activeTimers := activeTimers - {interval};      // clearInterval(interval)
      Log(Started);
      interval, nextHandle := nextHandle, nextHandle + 1;   // interval = setInterval(step, 500)
      activeTimers := activeTimers + {interval};
    }

    /** `step`: one tick of the run, called only by the interval timer while it runs. */
    method Step()
      requires Valid() && simulationData.Some? && PricesCover(simulationData.value, allocation)
      requires interval in activeTimers
      modifies this
      ensures Valid()
      ensures simulationData == old(simulationData) && allocation == old(allocation)
      ensures portfolioClean == old(portfolioClean) && interval == old(interval) && nextHandle == old(nextHandle)
      ensures var ts := simulationData.value.timestamps;
        old(currentStep) >= |ts| ==>
          && activeTimers == old(activeTimers) - {interval} && activeTimers == {}
          && log == [Line(Complete)] + old(log)
          && labels == old(labels) && values == old(values) && currentStep == old(currentStep)
      ensures var ds := simulationData.value;
        old(currentStep) < |ds.timestamps| ==>
          && currentStep == old(currentStep) + 1
          && labels == old(labels) + [ds.timestamps[old(currentStep)]]
          && values == old(values) + [PortfolioValue(ds, allocation, old(currentStep))]
          && log == EventLines(ds.events, ds.timestamps[old(currentStep)]) + old(log)
          && activeTimers == old(activeTimers)
    {
      var ds := simulationData.value;
      if currentStep >= |ds.timestamps| {
        activeTimers := activeTimers - {interval};      // clearInterval(interval)
        Log(Complete);
        return;
      }
      var timestamp := ds.timestamps[currentStep];
      var currentValue := ValueAt(ds, allocation, currentStep);
      labels := labels + [timestamp];
      values := values + [currentValue];
      var event := FirstEventOn(ds.events, timestamp);
      if event.Some? {
        Log(EventMessage(ds.events[event.value]));
      }
      currentStep := currentStep + 1;
    }
  }

  // ---------------------------------------------------------------------------
  // Properties of the valuation
  // ---------------------------------------------------------------------------

  /** Every allocated ticker's price at step k equals its price at step 0. */
  predicate FlatAt(ds: Dataset, a: Allocation, k: nat)
    requires PricesCover(ds, a) && k < |ds.timestamps|
  {
    forall i :: 0 <= i < |a| ==> ds.prices[a[i].ticker][k] == ds.prices[a[i].ticker][0]
  }

  /** With flat prices every position is worth exactly the cash put into it. */
  lemma {:induction false} FlatPositions(ds: Dataset, a: Allocation, k: nat)
    requires PricesCover(ds, a) && k < |ds.timestamps| && FlatAt(ds, a, k)
    ensures PositionsValue(ds, a, k) == StartingCapital * FractionSum(a)
  {
    if a != [] {
      var init := a[..|a| - 1];
      assert forall i :: 0 <= i < |init| ==> init[i] == a[i];
      FlatPositions(ds, init, k);
    }
  }

  /** No price movement, no value change: the run stays at the starting capital. */
  lemma FlatPricesKeepCapital(ds: Dataset, a: Allocation, k: nat)
    requires PricesCover(ds, a) && k < |ds.timestamps| && FlatAt(ds, a, k)
    ensures PortfolioValue(ds, a, k) == StartingCapital
  {
    if k > 0 {
      FlatPositions(ds, a, k);
    }
  }

  /** The worked example: everything in A, whose price goes from 100 to 110, gives 11000 at step 1. */
  lemma OneTickerTenPercent()
    ensures
      var ds := Dataset(["d0", "d1"], map["A" := [100.0, 110.0]], []);
      PricesCover(ds, [Slice("A", 1.0)]) && PortfolioValue(ds, [Slice("A", 1.0)], 1) == 11000.0
  {
    var ds := Dataset(["d0", "d1"], map["A" := [100.0, 110.0]], []);
    var a := [Slice("A", 1.0)];
    assert a[..0] == [];
    assert PositionsValue(ds, a, 1) == 11000.0;
  }

  /** Every allocated ticker has a positive start price and has not fallen below it at step k. */
  predicate NoLossAt(ds: Dataset, a: Allocation, k: nat)
    requires PricesCover(ds, a) && k < |ds.timestamps|
  {
    forall i :: 0 <= i < |a| ==>
      0.0 < ds.prices[a[i].ticker][0] <= ds.prices[a[i].ticker][k] && a[i].fraction >= 0.0
  }

  lemma {:induction false} PositionsAtLeastCost(ds: Dataset, a: Allocation, k: nat)
    requires PricesCover(ds, a) && k < |ds.timestamps| && NoLossAt(ds, a, k)
    ensures PositionsValue(ds, a, k) >= StartingCapital * FractionSum(a)
  {
    if a != [] {
      var init := a[..|a| - 1];
      assert forall i :: 0 <= i < |init| ==> init[i] == a[i];
      PositionsAtLeastCost(ds, init, k);
      var s := a[|a| - 1];
      var series := ds.prices[s.ticker];
      assert series[k] / series[0] >= 1.0;
      assert Position(ds, s, k) >= StartingCapital * s.fraction;
    }
  }

  /** When no held price has fallen, the portfolio is worth at least the starting capital (the page shows it green). */
  lemma NoLossKeepsCapital(ds: Dataset, a: Allocation, k: nat)
    requires PricesCover(ds, a) && k < |ds.timestamps| && NoLossAt(ds, a, k)
    ensures PortfolioValue(ds, a, k) >= StartingCapital
  {
    if k > 0 {
      PositionsAtLeastCost(ds, a, k);
    }
  }

  // ---------------------------------------------------------------------------
  // Properties of the sliders
  // ---------------------------------------------------------------------------

  lemma {:induction false} FromSlidersSum(sliders: seq<Slider>)
    ensures FractionSum(FromSliders(sliders)) == PercentSum(sliders) as real / 100.0
  {
    if sliders != [] {
      var init := sliders[..|sliders| - 1];
      assert FromSliders(sliders)[..|sliders| - 1] == FromSliders(init);
      FromSlidersSum(init);
    }
  }

  /** `a` and the sliders name the same tickers at every position both have. */
  predicate TickersAgree(a: Allocation, sliders: seq<Slider>)
  {
    forall i :: 0 <= i < |a| && i < |sliders| ==> a[i].ticker == sliders[i].ticker
  }

  /**
   * Writing the sliders over an allocation whose keys agree with the sliders'
   * tickers position by position (the empty allocation of page load, or the
   * allocation the same sliders produced before) overwrites the first
   * |sliders| slices in place and appends the rest.
   */
  lemma {:induction false} AssignAllInPlace(a: Allocation, sliders: seq<Slider>)
    requires DistinctTickers(sliders) && TickersAgree(a, sliders)
    ensures AssignAll(a, sliders) == FromSliders(sliders) + (if |sliders| <= |a| then a[|sliders|..] else [])
  {
    if sliders != [] {
      var n := |sliders| - 1;
      assert DistinctTickers(sliders[..n]) && TickersAgree(a, sliders[..n]);
      AssignAllInPlace(a, sliders[..n]);
      var prev := AssignAll(a, sliders[..n]);
      if n < |a| {
        OverwriteStep(a, sliders, prev);
      } else {
        assert prev == FromSliders(sliders[..n]) + [];
        AppendStep(sliders, prev);
      }
    }
  }

  /** The last slider's ticker keys position n of the allocation: writing it overwrites that slice. */
  lemma OverwriteStep(a: Allocation, sliders: seq<Slider>, prev: Allocation)
    requires sliders != [] && |sliders| - 1 < |a|
    requires DistinctTickers(sliders) && TickersAgree(a, sliders)
    requires prev == FromSliders(sliders[..|sliders| - 1]) + a[|sliders| - 1..]
    ensures var last := sliders[|sliders| - 1];
      Put(prev, last.ticker, last.percent as real / 100.0) == FromSliders(sliders) + a[|sliders|..]
  {
    var n := |sliders| - 1;
    var last := sliders[n];
    var f := last.percent as real / 100.0;
    FromSlidersSnoc(sliders);
    assert prev[n] == a[n];
    forall j | 0 <= j < n
      ensures prev[j].ticker != last.ticker
    {
      assert prev[j] == FromSliders(sliders[..n])[j];
    }
    PutExisting(prev, n, last.ticker, f);
    assert prev[n := Slice(last.ticker, f)] == FromSliders(sliders) + a[n + 1..];
  }

  /** The last slider's ticker is new: writing it appends its slice. */
  lemma AppendStep(sliders: seq<Slider>, prev: Allocation)
    requires sliders != [] && DistinctTickers(sliders)
    requires prev == FromSliders(sliders[..|sliders| - 1])
    ensures var last := sliders[|sliders| - 1];
      Put(prev, last.ticker, last.percent as real / 100.0) == FromSliders(sliders)
  {
    var n := |sliders| - 1;
    var last := sliders[n];
    FromSlidersSnoc(sliders);
    forall j | 0 <= j < |prev|
      ensures prev[j].ticker != last.ticker
    {
      assert prev[j] == FromSliders(sliders[..n])[j];
    }
    PutAbsent(prev, last.ticker, last.percent as real / 100.0);
  }

  lemma FromSlidersSnoc(sliders: seq<Slider>)
    requires sliders != []
    ensures var n := |sliders| - 1;
      FromSliders(sliders) == FromSliders(sliders[..n]) + [Slice(sliders[n].ticker, sliders[n].percent as real / 100.0)]
  {
  }

  /** Putting a key held at n, and nowhere before n, overwrites position n. */
  lemma PutExisting(a: Allocation, n: nat, ticker: string, fraction: real)
    requires n < |a| && a[n].ticker == ticker
    requires forall j :: 0 <= j < n ==> a[j].ticker != ticker
    ensures Put(a, ticker, fraction) == a[n := Slice(ticker, fraction)]
  {
    var idx := TickerIndex(a, ticker);
    assert idx.Some? && idx.value == n;
  }

  /** Putting a new key appends it. */
  lemma PutAbsent(a: Allocation, ticker: string, fraction: real)
    requires forall j :: 0 <= j < |a| ==> a[j].ticker != ticker
    ensures Put(a, ticker, fraction) == a + [Slice(ticker, fraction)]
  {
  }

  /**
   * The red total and the start check agree: with distinct slider tickers and
   * an allocation the sliders produced (or the empty one), `startSimulation`
   * refuses to start exactly when the displayed total exceeds 100.
   */
  lemma RejectsExactlyWhenTotalRed(a: Allocation, sliders: seq<Slider>)
    requires DistinctTickers(sliders) && TickersAgree(a, sliders) && |a| <= |sliders|
    ensures FractionSum(AssignAll(a, sliders)) > 1.0 <==> PercentSum(sliders) > 100
  {
    AssignAllInPlace(a, sliders);
    if |sliders| <= |a| {
      assert a[|sliders|..] == [];
    }
    assert AssignAll(a, sliders) == FromSliders(sliders);
    FromSlidersSum(sliders);
  }

  /** The search box ignores case: a query and its lower-cased form show the same rows. */
  lemma QueryIgnoresCase(query: string)
    ensures Upper(Lower(query)) == Upper(query)
  {
  }
}
