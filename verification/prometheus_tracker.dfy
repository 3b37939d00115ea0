/** The Prometheus tracker of the current generation
    (autometrics/src/tracker/prometheus.rs): it turns the label sets of
    labels.rs into positional label-value vectors and updates the global
    counter, histogram and gauges. The metrics library's registry is
    modelled as a class holding one map per metric family, from a
    label-value vector to the series' value; the histogram is modelled as
    the list of its observations. Time is given by the caller. */
module PrometheusTracker {
  import opened Wrappers
  import opened Objectives
  import opened Labels

  /** The values of one series, in the order of its family's keys. */
  type LabelValues = seq<string>

  /** The keys the counter family is registered with, in order. */
  const CounterKeys: seq<LabelKey> :=
    [FunctionKey, ModuleKey, ServiceNameKey, CallerFunctionKey, CallerModuleKey,
     ResultKey, OkKey, ErrorKey, ObjectiveNameKey, ObjectivePercentileKey]

  /** The keys the histogram family is registered with, in order. */
  const HistogramKeys: seq<LabelKey> :=
    [FunctionKey, ModuleKey, ServiceNameKey, ObjectiveNameKey, ObjectivePercentileKey, ObjectiveLatencyThresholdKey]

  /** The keys the concurrency gauge is registered with, in order. */
  const GaugeKeys: seq<LabelKey> := [FunctionKey, ModuleKey, ServiceNameKey]

  /** The keys the build-info gauge is registered with, in order. */
  const BuildInfoKeys: seq<LabelKey> := BuildInfoKeyOrder

  /** `counter_labels_to_prometheus_vec`: the counter labels as ten
      values, "" standing for an absent label. */
  function CounterLabelsToPrometheusVec(c: CounterLabels): (r: LabelValues)
    ensures |r| == |CounterKeys| == 10
    ensures r[5] in {OkValue, ErrorValue, ""}
  {
    [c.functionName, c.moduleName, c.serviceName, c.callerFunction, c.callerModule,
     match c.result
     case Some(LabelOk) => OkValue
     case Some(LabelError) => ErrorValue
     case None => "",
     c.ok.GetOr(""), c.error.GetOr(""), c.objectiveName.GetOr(""),
     if c.objectivePercentile.Some? then PercentileAsStr(c.objectivePercentile.value) else ""]
  }

  /** Position i of the counter's values holds the value of the i-th key
      the counter is registered with, as `CounterLabels::to_vec` gives it,
      and "" when that label is absent. */
  lemma CounterValuesFollowKeys(c: CounterLabels)
    ensures var r := CounterLabelsToPrometheusVec(c);
      forall i :: 0 <= i < 10 ==> r[i] == Lookup(CounterLabelsVec(c), CounterKeys[i]).GetOr("")
  {
    var res, pct := OptResultStr(c.result), OptPercentileStr(c.objectivePercentile);
    PushedCounterValues(c.functionName, c.moduleName, c.serviceName, c.callerFunction, c.callerModule,
                        res, c.ok, c.error, c.objectiveName, pct);
    var r := CounterLabelsToPrometheusVec(c);
    assert r[5] == res.GetOr("") && r[9] == pct.GetOr("");
  }

  /** The positional values follow the keys, for any rendered result and
      percentile. */
  lemma PushedCounterValues(fn: string, m: string, sn: string, cf: string, cm: string, res: Option<string>,
                            ok: Option<string>, error: Option<string>, name: Option<string>, pct: Option<string>)
    ensures var v := PushCounterOptionals([(FunctionKey, fn), (ModuleKey, m), (ServiceNameKey, sn),
                                           (CallerFunctionKey, cf), (CallerModuleKey, cm)], res, ok, error, name, pct);
      var r := [fn, m, sn, cf, cm, res.GetOr(""), ok.GetOr(""), error.GetOr(""), name.GetOr(""), pct.GetOr("")];
      forall i :: 0 <= i < 10 ==> r[i] == Lookup(v, CounterKeys[i]).GetOr("")
  {
    PushedCounterLookup(fn, m, sn, cf, cm, res, ok, error, name, pct);
  }

  /** The label values `finish` gives the histogram: function, module and
      service name, and "" for each absent objective label. */
  function HistogramLabelValues(h: HistogramLabels): (r: LabelValues)
    ensures |r| == |HistogramKeys| == 6
  {
    [h.functionName, h.moduleName, h.serviceName, h.objectiveName.GetOr(""),
     if h.objectivePercentile.Some? then PercentileAsStr(h.objectivePercentile.value) else "",
     if h.objectiveLatencyThreshold.Some? then LatencyAsStr(h.objectiveLatencyThreshold.value) else ""]
  }

  /** Position i of the histogram's values holds the value of the i-th key
      the histogram is registered with, as `HistogramLabels::to_vec` gives
      it, and "" when that label is absent. */
  lemma HistogramValuesFollowKeys(h: HistogramLabels)
    ensures var r := HistogramLabelValues(h);
      forall i :: 0 <= i < 6 ==> r[i] == Lookup(HistogramLabelsVec(h), HistogramKeys[i]).GetOr("")
  {
    HistogramLabelsVecLookup(h);
  }

  /** The label values `start` gives the concurrency gauge. */
  function GaugeLabelValues(g: GaugeLabels): (r: LabelValues)
    ensures |r| == |GaugeKeys| == 3
    ensures forall i :: 0 <= i < 3 ==> Lookup(GaugeToArray(g), GaugeKeys[i]) == Some(r[i])
  {
    [g.functionName, g.moduleName, g.serviceName]
  }

  /** The label values `set_build_info` gives the build-info gauge: the
      build-info labels in their order, except that the last position holds
      the specification target the library was built for rather than the
      labels' own version field. */
  function BuildInfoLabelValues(b: BuildInfoLabels, specTarget: string): (r: LabelValues)
    ensures |r| == |BuildInfoKeys| == 7
    ensures forall i :: 0 <= i < 6 ==> Lookup(BuildInfoToVec(b), BuildInfoKeys[i]) == Some(r[i])
    ensures r[6] == specTarget
  {
    BuildInfoToVecLookup(b);
    [b.commit, b.version, b.branch, b.serviceName, b.repoUrl, b.repoProvider, specTarget]
  }

  /** The value of a series; a series not yet created reads 0, as a new
      series starts at 0. */
  function Value(m: map<LabelValues, int>, k: LabelValues): int {
    if k in m then m[k] else 0
  }

  /** `with_label_values(k)` followed by adding `d`: the series exists
      afterwards, its value has moved by `d`, and every other series is
      untouched. */
  function Add(m: map<LabelValues, int>, k: LabelValues, d: int): (r: map<LabelValues, int>)
    ensures r.Keys == m.Keys + {k}
    ensures Value(r, k) == Value(m, k) + d
    ensures forall k' :: k' != k ==> Value(r, k') == Value(m, k')
  {
    m[k := Value(m, k) + d]
  }

  /** A change of the concurrency gauge: a tracker started, or finished,
      on the series `key`. */
  datatype GaugeEvent = Increment(key: LabelValues) | Decrement(key: LabelValues)

  function ApplyGaugeEvents(m: map<LabelValues, int>, events: seq<GaugeEvent>): map<LabelValues, int> {
    if events == [] then m
    else
      var e := events[|events| - 1];
      var before := ApplyGaugeEvents(m, events[..|events| - 1]);
      match e
      case Increment(k) => Add(before, k, 1)
      case Decrement(k) => Add(before, k, -1)
  }

  /** The number of trackers started on `key` and not yet finished. */
  function InFlight(events: seq<GaugeEvent>, key: LabelValues): int {
    if events == [] then 0
    else
      var e := events[|events| - 1];
      InFlight(events[..|events| - 1], key) + (if e.key != key then 0 else if e.Increment? then 1 else -1)
  }

  /** Whatever the interleaving of calls, each concurrency gauge has moved
      by the number of its calls in flight; so once every started call has
      finished, every gauge is back where it was. */
  lemma {:induction false} GaugeCountsCallsInFlight(m: map<LabelValues, int>, events: seq<GaugeEvent>, key: LabelValues)
    ensures Value(ApplyGaugeEvents(m, events), key) == Value(m, key) + InFlight(events, key)
  {
    if events != [] {
      GaugeCountsCallsInFlight(m, events[..|events| - 1], key);
    }
  }

  /** The state `start` keeps for `finish`: when it started, and the gauge
      series it incremented, if any. */
  datatype Tracker = Tracker(startTime: real, gauge: Option<LabelValues>)

  /** The counter series of a list of functions, in order. */
  function CounterSeries(functions: seq<CounterLabels>): (r: seq<LabelValues>)
    ensures |r| == |functions|
    ensures forall i :: 0 <= i < |functions| ==> r[i] == CounterLabelsToPrometheusVec(functions[i])
  {
    seq(|functions|, i requires 0 <= i < |functions| => CounterLabelsToPrometheusVec(functions[i]))
  }

  /** The `inc_by(0)` calls that `intitialize_metrics` makes, one per
      series. */
  function InitializedCounters(m: map<LabelValues, int>, series: seq<LabelValues>): map<LabelValues, int> {
    if series == [] then m
    else Add(InitializedCounters(m, series[..|series| - 1]), series[|series| - 1], 0)
  }

  /** Initialisation creates every series and changes no count. */
  lemma {:induction false} InitializedCountersMeaning(m: map<LabelValues, int>, series: seq<LabelValues>)
    ensures InitializedCounters(m, series).Keys == m.Keys + set k | k in series
    ensures forall k :: Value(InitializedCounters(m, series), k) == Value(m, k)
  {
    if series != [] {
      var init := series[..|series| - 1];
      InitializedCountersMeaning(m, init);
      assert series == init + [series[|series| - 1]];
      assert (set k | k in series) == (set k | k in init) + {series[|series| - 1]};
    }
  }

  /** The metric families of the registry. */
  class Registry {
    var counters: map<LabelValues, int>
    var gauges: map<LabelValues, int>
    var histogram: seq<(LabelValues, real)>
    var buildInfo: map<LabelValues, int>
    /** Whether the build-info gauge has been set (the `Once` guard). */
    var buildInfoSet: bool

    constructor ()
      ensures counters == map[] && gauges == map[] && histogram == [] && buildInfo == map[] && !buildInfoSet
    {
      counters := map[];
      gauges := map[];
      histogram := [];
      buildInfo := map[];
      buildInfoSet := false;
    }

    /** `start`: increment the concurrency gauge of the given labels, if
        any, and remember it. */
    method Start(gaugeLabels: Option<GaugeLabels>, now: real) returns (t: Tracker)
      modifies this
      ensures t.startTime == now
      ensures t.gauge == if gaugeLabels.Some? then Some(GaugeLabelValues(gaugeLabels.value)) else None
      ensures gauges == if t.gauge.Some? then Add(old(gauges), t.gauge.value, 1) else old(gauges)
      ensures counters == old(counters) && histogram == old(histogram)
      ensures buildInfo == old(buildInfo) && buildInfoSet == old(buildInfoSet)
    {
      var gauge: Option<LabelValues> := None;
      if gaugeLabels.Some? {
        var values := GaugeLabelValues(gaugeLabels.value);
        gauges := Add(gauges, values, 1);
        gauge := Some(values);
      }
      t := Tracker(now, gauge);
    }

    /** `finish`: count the call once, record its duration once, and
        decrement exactly the gauge `start` incremented. */
    method Finish(t: Tracker, counterLabels: CounterLabels, histogramLabels: HistogramLabels, now: real)
      modifies this
      ensures counters == Add(old(counters), CounterLabelsToPrometheusVec(counterLabels), 1)
      ensures histogram == old(histogram) + [(HistogramLabelValues(histogramLabels), now - t.startTime)]
      ensures gauges == if t.gauge.Some? then Add(old(gauges), t.gauge.value, -1) else old(gauges)
      ensures buildInfo == old(buildInfo) && buildInfoSet == old(buildInfoSet)
    {
      var duration := now - t.startTime;
      counters := Add(counters, CounterLabelsToPrometheusVec(counterLabels), 1);
      histogram := histogram + [(HistogramLabelValues(histogramLabels), duration)];
      if t.gauge.Some? {
        gauges := Add(gauges, t.gauge.value, -1);
      }
    }

    /** `set_build_info`: only the first call sets its series, to 1. */
    method SetBuildInfo(b: BuildInfoLabels, specTarget: string)
      modifies this
      ensures buildInfoSet
      ensures buildInfo == if old(buildInfoSet) then old(buildInfo) else old(buildInfo)[BuildInfoLabelValues(b, specTarget) := 1]
      ensures counters == old(counters) && gauges == old(gauges) && histogram == old(histogram)
    {
      if !buildInfoSet {
        buildInfo := buildInfo[BuildInfoLabelValues(b, specTarget) := 1];
        buildInfoSet := true;
      }
    }

    /** `intitialize_metrics`: add 0 to the counter series of every
        function. */
    method InitializeMetrics(functions: seq<CounterLabels>)
      modifies this
      ensures counters == InitializedCounters(old(counters), CounterSeries(functions))
      ensures gauges == old(gauges) && histogram == old(histogram)
      ensures buildInfo == old(buildInfo) && buildInfoSet == old(buildInfoSet)
    {
      for i := 0 to |functions|
        invariant counters == InitializedCounters(old(counters), CounterSeries(functions)[..i])
        invariant gauges == old(gauges) && histogram == old(histogram)
        invariant buildInfo == old(buildInfo) && buildInfoSet == old(buildInfoSet)
      {
        assert CounterSeries(functions)[..i + 1][..i] == CounterSeries(functions)[..i];
        counters := Add(counters, CounterLabelsToPrometheusVec(functions[i]), 0);
      }
      assert CounterSeries(functions)[..|functions|] == CounterSeries(functions);
    }
  }

  /** A call tracked from `start` to `finish` leaves every concurrency
      gauge as it was, and adds exactly one to exactly one counter series. */
  lemma StartFinishPair(gauges: map<LabelValues, int>, counters: map<LabelValues, int>,
                        g: GaugeLabels, c: CounterLabels)
    ensures var k := GaugeLabelValues(g);
      forall k' :: Value(Add(Add(gauges, k, 1), k, -1), k') == Value(gauges, k')
    ensures var after := Add(counters, CounterLabelsToPrometheusVec(c), 1);
      Value(after, CounterLabelsToPrometheusVec(c)) == Value(counters, CounterLabelsToPrometheusVec(c)) + 1 &&
      forall k' :: k' != CounterLabelsToPrometheusVec(c) ==> Value(after, k') == Value(counters, k')
  {
  }
}
