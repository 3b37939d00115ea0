/** The Prometheus tracker of the older generation
    (src/tracker/prometheus.rs): a counter keyed by function, module,
    caller, result, ok and error, a histogram and a concurrency gauge keyed
    by function and module. The registry is modelled as in the current
    generation's tracker, whose series arithmetic it shares; time is given
    by the caller. */
module LegacyPrometheusTracker {
  import opened Wrappers
  import opened LegacyLabels
  import PrometheusTracker

  type LabelValues = PrometheusTracker.LabelValues

  const CallerKey := "caller"

  /** The keys the counter family is registered with, in order. */
  const CounterKeys: seq<string> := [FunctionKey, ModuleKey, CallerKey, ResultKey, OkValue, ErrorValue]

  /** `counter_labels.iter().map(..).collect::<HashMap<_, _>>()`: later pairs
      overwrite earlier pairs with the same key. */
  function Collect(labels: seq<KeyValue>): map<string, string> {
    if labels == [] then map[]
    else Collect(labels[..|labels| - 1])[labels[|labels| - 1].0 := labels[|labels| - 1].1]
  }

  /** The collected map has exactly the keys of the pairs, and each key
      holds the value of its last pair. */
  lemma {:induction false} CollectLastWins(labels: seq<KeyValue>, k: string)
    ensures k in Collect(labels) <==> exists i :: 0 <= i < |labels| && labels[i].0 == k
    ensures k in Collect(labels) ==>
      exists i :: 0 <= i < |labels| && labels[i] == (k, Collect(labels)[k]) &&
        forall j :: i < j < |labels| ==> labels[j].0 != k
  {
    if labels != [] {
      var n := |labels| - 1;
      var init := labels[..n];
      CollectLastWins(init, k);
      assert forall i :: 0 <= i < n ==> init[i] == labels[i];
      if labels[n].0 != k && k in Collect(labels) {
        var i :| 0 <= i < n && init[i] == (k, Collect(init)[k]) && forall j :: i < j < n ==> init[j].0 != k;
        assert labels[i] == (k, Collect(labels)[k]);
      }
    }
  }

  /** The counter's label values: the collected value of each counter key,
      in the counter's key order, "" for a key with no pair. */
  function CounterValues(labels: seq<KeyValue>): (r: LabelValues)
    ensures |r| == |CounterKeys| == 6
  {
    var m := Collect(labels);
    seq(6, i requires 0 <= i < 6 => if CounterKeys[i] in m then m[CounterKeys[i]] else "")
  }

  /** Position i holds the value of the last pair keyed by the counter's
      i-th key, or "" when no pair has that key; pairs with other keys are
      ignored. */
  lemma CounterValuesMeaning(labels: seq<KeyValue>, i: nat)
    requires i < 6
    ensures var k := CounterKeys[i];
      ((forall j :: 0 <= j < |labels| ==> labels[j].0 != k) ==> CounterValues(labels)[i] == "") &&
      ((exists j :: 0 <= j < |labels| && labels[j].0 == k) ==>
        exists j :: 0 <= j < |labels| && labels[j] == (k, CounterValues(labels)[i]) &&
          forall j' :: j < j' < |labels| ==> labels[j'].0 != k)
  {
    CollectLastWins(labels, CounterKeys[i]);
  }

  /** The tracker: where it was started, when, and whether it incremented
      the concurrency gauge. */
  datatype Tracker = Tracker(moduleName: string, functionName: string, startTime: real, trackConcurrency: bool)

  /** `function()` and `module()`. */
  function TrackerFunction(t: Tracker): string { t.functionName }
  function TrackerModule(t: Tracker): string { t.moduleName }

  class Registry {
    var counters: map<LabelValues, int>
    var gauges: map<LabelValues, int>
    var histogram: seq<(LabelValues, real)>

    constructor ()
      ensures counters == map[] && gauges == map[] && histogram == []
    {
      counters := map[];
      gauges := map[];
      histogram := [];
    }

    /** `start`: increment the gauge of (function, module) if concurrency is
        tracked. The tracker's accessors return what was passed in. */
    method Start(functionName: string, moduleName: string, trackConcurrency: bool, now: real) returns (t: Tracker)
      modifies this
      ensures TrackerFunction(t) == functionName && TrackerModule(t) == moduleName
      ensures t.trackConcurrency == trackConcurrency && t.startTime == now
      ensures gauges == if trackConcurrency then PrometheusTracker.Add(old(gauges), [functionName, moduleName], 1) else old(gauges)
      ensures counters == old(counters) && histogram == old(histogram)
    {
      if trackConcurrency {
        gauges := PrometheusTracker.Add(gauges, [functionName, moduleName], 1);
      }
      t := Tracker(moduleName, functionName, now, trackConcurrency);
    }

    /** `finish`: count the call once under the reordered labels, record
        its duration under (function, module), and decrement the gauge
        `start` incremented. */
    method Finish(t: Tracker, counterLabels: seq<KeyValue>, now: real)
      modifies this
      ensures counters == PrometheusTracker.Add(old(counters), CounterValues(counterLabels), 1)
      ensures histogram == old(histogram) + [([t.functionName, t.moduleName], now - t.startTime)]
      ensures gauges == if t.trackConcurrency then PrometheusTracker.Add(old(gauges), [t.functionName, t.moduleName], -1) else old(gauges)
    {
      var duration := now - t.startTime;
      counters := PrometheusTracker.Add(counters, CounterValues(counterLabels), 1);
      histogram := histogram + [([t.functionName, t.moduleName], duration)];
      if t.trackConcurrency {
        gauges := PrometheusTracker.Add(gauges, [t.functionName, t.moduleName], -1);
      }
    }
  }

  /** A tracker started and finished leaves the gauge of every series as
      it was, with or without concurrency tracking. */
  lemma StartFinishLeavesGauges(gauges: map<LabelValues, int>, functionName: string, moduleName: string, trackConcurrency: bool)
    ensures var k: LabelValues := [functionName, moduleName];
      var started := if trackConcurrency then PrometheusTracker.Add(gauges, k, 1) else gauges;
      var finished := if trackConcurrency then PrometheusTracker.Add(started, k, -1) else started;
      forall k' :: PrometheusTracker.Value(finished, k') == PrometheusTracker.Value(gauges, k')
  {
  }
}
