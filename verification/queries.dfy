/** The query and link synthesiser of the attribute macro
    (macros/src/lib.rs): metric names, sanitising them into Prometheus
    names, the PromQL queries for request rate, error ratio, latency and
    concurrent calls, the Prometheus graph links that carry them, and the
    documentation block listing those links. The Prometheus base URL, read
    from the build environment by the macro, is a parameter here. */
module Queries {
  import opened Wrappers
  import opened Text
  import opened PercentEncoding

  const DefaultMetricBaseName := "function"
  const DefaultPrometheusUrl := "http://localhost:9090"

  // ---------------------------------------------------------------------
  // Metric names

  datatype MetricNames = MetricNames(counter: string, histogram: string, gauge: string)

  /** The three metric names derived from the optional `name` argument,
      which defaults to "function". */
  function NamesFor(name: Option<string>): (r: MetricNames)
    ensures var base := if name.Some? then name.value else DefaultMetricBaseName;
      StartsWith(r.counter, base) && StartsWith(r.histogram, base) && StartsWith(r.gauge, base) &&
      EndsWith(r.counter, ".calls.count") && EndsWith(r.histogram, ".calls.duration") &&
      EndsWith(r.gauge, ".calls.concurrent")
  {
    var base := name.GetOr(DefaultMetricBaseName);
    MetricNames(base + ".calls.count", base + ".calls.duration", base + ".calls.concurrent")
  }

  /** The three names are pairwise distinct, and distinct bases give
      distinct names. */
  lemma NamesDistinct(name: Option<string>, other: Option<string>)
    ensures var r := NamesFor(name);
      r.counter != r.histogram && r.histogram != r.gauge && r.counter != r.gauge
    ensures name.GetOr(DefaultMetricBaseName) != other.GetOr(DefaultMetricBaseName) ==>
      NamesFor(name).counter != NamesFor(other).counter
  {
    var base := name.GetOr(DefaultMetricBaseName);
    var r := NamesFor(name);
    assert |r.counter| != |r.histogram| && |r.histogram| != |r.gauge|;
    assert r.counter[|base|..] == ".calls.count" && r.gauge[|base|..] == ".calls.concurrent";
    var b2 := other.GetOr(DefaultMetricBaseName);
    if base != b2 && |base| == |b2| {
      assert NamesFor(name).counter[..|base|] == base;
      assert NamesFor(other).counter[..|b2|] == b2;
    }
  }

  /** `to_prometheus_string`: every character that is not an ASCII letter
      or digit becomes '_'. */
  function ToPrometheusString(s: string): (r: string)
    ensures |r| == |s|
    ensures forall i :: 0 <= i < |s| ==>
      (IsAsciiAlphanumeric(s[i]) ==> r[i] == s[i]) && (!IsAsciiAlphanumeric(s[i]) ==> r[i] == '_')
  {
    if s == [] then [] else [if IsAsciiAlphanumeric(s[0]) then s[0] else '_'] + ToPrometheusString(s[1..])
  }

  /** A sanitised name is a valid Prometheus name body: letters, digits and
      underscores only; sanitising it again changes nothing. */
  lemma ToPrometheusStringNormal(s: string)
    ensures var r := ToPrometheusString(s);
      (forall i :: 0 <= i < |r| ==> IsAsciiAlphanumeric(r[i]) || r[i] == '_') &&
      ToPrometheusString(r) == r
  {
    var r := ToPrometheusString(s);
    var rr := ToPrometheusString(r);
    assert forall i :: 0 <= i < |r| ==> rr[i] == r[i];
  }

  // ---------------------------------------------------------------------
  // Queries

  /** The label matcher `metric{key="value"}`; the value is inserted
      verbatim, without escaping. */
  function Selector(metric: string, key: string, value: string): string {
    metric + "{" + key + "=\"" + value + "\"}"
  }

  /** `request_rate_query`: the five-minute rate of the counter under the
      matcher, summed per function and module. */
  function RequestRateQuery(counterName: string, labelKey: string, labelValue: string): string {
    "sum by (function, module) (rate(" + Selector(counterName, labelKey, labelValue) + "[5m]))"
  }

  /** `error_ratio_query` */
  function ErrorRatioQuery(counterName: string, labelKey: string, labelValue: string): string {
    var requestRate := RequestRateQuery(counterName, labelKey, labelValue);
    "sum by (function, module) (rate(" + counterName + "{" + labelKey + "=\"" + labelValue + "\",result=\"err\"}[5m])) /\n"
      + requestRate
  }

  /** The bucket rate under the matcher, grouped by `le`, function and
      module. */
  function LatencyRate(bucketName: string, labelKey: string, labelValue: string): string {
    "sum by (le, function, module) (rate(" + Selector(bucketName, labelKey, labelValue) + "[5m]))"
  }

  /** `latency_query`: the 99th and the 95th percentile of the same bucket
      rate. */
  function LatencyQuery(bucketName: string, labelKey: string, labelValue: string): string {
    var latency := LatencyRate(bucketName, labelKey, labelValue);
    "histogram_quantile(0.99, " + latency + ") or\nhistogram_quantile(0.95, " + latency + ")"
  }

  /** `concurrent_calls_query`: the gauge under the matcher, summed per
      function and module. */
  function ConcurrentCallsQuery(gaugeName: string, labelKey: string, labelValue: string): string {
    "sum by (function, module) " + Selector(gaugeName, labelKey, labelValue)
  }

  /** The request-rate query is the five-minute rate of exactly the series
      under its matcher, summed per function and module: the matcher sits
      at a fixed offset, so it is recovered from the query. */
  lemma RequestRateSelects(counterName: string, labelKey: string, labelValue: string)
    ensures var q := RequestRateQuery(counterName, labelKey, labelValue);
      var sel := Selector(counterName, labelKey, labelValue);
      q == "sum by (function, module) (rate(" + sel + "[5m]))" &&
      |q| == |sel| + 38 && q[32..32 + |sel|] == sel && Contains(q, sel)
  {
    var sel := Selector(counterName, labelKey, labelValue);
    var q := RequestRateQuery(counterName, labelKey, labelValue);
    assert q[32..32 + |sel|] == sel;
    ContainsInfix("sum by (function, module) (rate(", sel, "[5m]))");
  }

  /** The latency query takes the 99th and the 95th percentile of one and
      the same bucket rate: the two quantile arguments are the same text,
      a rate of the bucket series under the matcher grouped by `le`,
      function and module. */
  lemma LatencyQueryShape(bucketName: string, labelKey: string, labelValue: string)
    ensures var x := LatencyRate(bucketName, labelKey, labelValue);
      var q := LatencyQuery(bucketName, labelKey, labelValue);
      var sel := Selector(bucketName, labelKey, labelValue);
      q == "histogram_quantile(0.99, " + x + ") or\nhistogram_quantile(0.95, " + x + ")" &&
      |q| == 2 * |x| + 56 && q[25..25 + |x|] == x && q[|q| - 1 - |x|..|q| - 1] == x &&
      StartsWith(x, "sum by (le, function, module) (rate(") && EndsWith(x, "[5m]))") &&
      Contains(x, sel) && Contains(q, sel)
  {
    var x := LatencyRate(bucketName, labelKey, labelValue);
    var sel := Selector(bucketName, labelKey, labelValue);
    Wrapped("sum by (le, function, module) (rate(", sel, "[5m]))");
    QuantilesShareArgument(x);
    ContainsTransitive(LatencyQuery(bucketName, labelKey, labelValue), x, sel);
  }

  /** A text between a prefix and a suffix: where it sits, and that it
      occurs. */
  lemma Wrapped(head: string, body: string, tail: string)
    ensures var s := head + body + tail;
      StartsWith(s, head) && EndsWith(s, tail) && s[|head|..|head| + |body|] == body && Contains(s, body)
  {
    var s := head + body + tail;
    assert s[..|head|] == head;
    assert s[|s| - |tail|..] == tail;
    assert s[|head|..|head| + |body|] == body;
    ContainsInfix(head, body, tail);
  }

  /** The two quantiles of the latency query share the argument `x`. */
  lemma QuantilesShareArgument(x: string)
    ensures var q := "histogram_quantile(0.99, " + x + ") or\nhistogram_quantile(0.95, " + x + ")";
      |q| == 2 * |x| + 56 && q[25..25 + |x|] == x && q[|q| - 1 - |x|..|q| - 1] == x && Contains(q, x)
  {
    var first, rest := "histogram_quantile(0.99, ", ") or\nhistogram_quantile(0.95, " + x + ")";
    var q := first + x + rest;
    assert q == "histogram_quantile(0.99, " + x + ") or\nhistogram_quantile(0.95, " + x + ")";
    Wrapped(first, x, rest);
    var second := first + x + ") or\nhistogram_quantile(0.95, ";
    assert q == second + x + ")";
    Wrapped(second, x, ")");
  }

  /** The concurrent-calls query sums the gauge under the matcher as it
      stands, with no rate and no range: the matcher is the whole query
      after the grouping clause. */
  lemma ConcurrentCallsSelects(gaugeName: string, labelKey: string, labelValue: string)
    ensures var q := ConcurrentCallsQuery(gaugeName, labelKey, labelValue);
      var sel := Selector(gaugeName, labelKey, labelValue);
      StartsWith(q, "sum by (function, module) ") && q[26..] == sel && EndsWith(q, sel) && Contains(q, sel)
  {
    var q := ConcurrentCallsQuery(gaugeName, labelKey, labelValue);
    var sel := Selector(gaugeName, labelKey, labelValue);
    assert q[26..] == sel;
    ContainsInfix("sum by (function, module) ", sel, "");
    assert "sum by (function, module) " + sel + "" == q;
  }

  /** The error ratio divides the rate of erroring calls by the request
      rate: its numerator is the request-rate query whose matcher also
      requires `result="err"` (which, since the value is inserted verbatim,
      is the request-rate query of the value extended by that matcher), and
      its denominator is exactly the request-rate query. */
  lemma ErrorRatioIsRatio(counterName: string, labelKey: string, labelValue: string)
    ensures ErrorRatioQuery(counterName, labelKey, labelValue) ==
      RequestRateQuery(counterName, labelKey, labelValue + "\",result=\"err") + " /\n" +
      RequestRateQuery(counterName, labelKey, labelValue)
    ensures EndsWith(ErrorRatioQuery(counterName, labelKey, labelValue), RequestRateQuery(counterName, labelKey, labelValue))
  {
  }

  // ---------------------------------------------------------------------
  // Links

  /** The graph link that `make_prometheus_url` builds. */
  function PrometheusUrl(url: string, query: string, comment: string): string {
    var base := if EndsWith(url, "/") then url else url + "/";
    base + "graph?g0.expr=" + PercentEncodeText("# " + comment + "\n\n" + query) + "&g0.tab=0"
  }

  /** `make_prometheus_url`: append a '/' unless the URL already ends in
      one, then the encoded expression, then the graph-tab parameter. */
  method MakePrometheusUrl(url: string, query: string, comment: string) returns (r: string)
    ensures r == PrometheusUrl(url, query, comment)
  {
    r := url;
    var commentAndQuery := "# " + comment + "\n\n" + query;
    var encoded := PercentEncodeText(commentAndQuery);
    if !EndsWith(r, "/") {
      r := r + ['/'];
    }
    r := r + "graph?g0.expr=";
    r := r + encoded;
    r := r + "&g0.tab=0";
  }

  /** The link starts with the base URL, has exactly one '/' added when the
      URL lacks a trailing one and none otherwise, carries the expression
      parameter in the NON_ALPHANUMERIC encoding, from which the comment
      and query are recovered exactly, and ends with "&g0.tab=0". */
  lemma PrometheusUrlParts(url: string, query: string, comment: string)
    ensures var r := PrometheusUrl(url, query, comment);
      var n := if EndsWith(url, "/") then |url| else |url| + 1;
      var e := r[n + 14..|r| - 9];
      n + 23 <= |r| &&
      r[..|url|] == url && r[n - 1] == '/' &&
      r[n..n + 14] == "graph?g0.expr=" &&
      EndsWith(r, "&g0.tab=0") &&
      WellEncoded(e) &&
      match PercentDecode(e)
      case Some(bs) => Utf8Decode(bs) == Some("# " + comment + "\n\n" + query)
      case None => false
  {
    var base := if EndsWith(url, "/") then url else url + "/";
    var e := PercentEncodeText("# " + comment + "\n\n" + query);
    var r := PrometheusUrl(url, query, comment);
    var head := base + "graph?g0.expr=";
    var n := |base|;
    assert base[..|url|] == url && base[n - 1] == '/';
    assert head[..n] == base && head[n..] == "graph?g0.expr=";
    Wrapped(head, e, "&g0.tab=0");
    assert r[..|head|] == head;
    assert r[..|url|] == head[..|url|];
    assert r[n..n + 14] == head[n..];
    assert r[n - 1] == head[n - 1];
    PercentEncodeAlphabet(Utf8Encode("# " + comment + "\n\n" + query));
    PercentEncodeTextRoundTrip("# " + comment + "\n\n" + query);
  }

  // ---------------------------------------------------------------------
  // Documentation

  /** The six queries the documentation links to. */
  datatype DocQueries = DocQueries(
    requestRate: string, calleeRequestRate: string,
    errorRatio: string, calleeErrorRatio: string,
    latency: string, concurrentCalls: string)

  /** The query selection of `create_metrics_docs`: the function's own
      queries match label `function`, the callee queries match `caller`,
      all on the sanitised metric names, the latency on the sanitised
      histogram name followed by "_bucket". */
  function MetricsDocQueries(counterName: string, histogramName: string, gaugeName: string,
                             functionName: string): (r: DocQueries)
    ensures var c := ToPrometheusString(counterName);
      Contains(r.requestRate, Selector(c, "function", functionName)) &&
      Contains(r.calleeRequestRate, Selector(c, "caller", functionName)) &&
      EndsWith(r.errorRatio, RequestRateQuery(c, "function", functionName)) &&
      EndsWith(r.calleeErrorRatio, RequestRateQuery(c, "caller", functionName))
    ensures r.latency == LatencyQuery(ToPrometheusString(histogramName) + "_bucket", "function", functionName)
    ensures r.concurrentCalls == ConcurrentCallsQuery(ToPrometheusString(gaugeName), "function", functionName)
  {
    var counter := ToPrometheusString(counterName);
    var gauge := ToPrometheusString(gaugeName);
    var bucket := ToPrometheusString(histogramName) + "_bucket";
    RequestRateSelects(counter, "function", functionName);
    RequestRateSelects(counter, "caller", functionName);
    ErrorRatioIsRatio(counter, "function", functionName);
    ErrorRatioIsRatio(counter, "caller", functionName);
    DocQueries(
      RequestRateQuery(counter, "function", functionName),
      RequestRateQuery(counter, "caller", functionName),
      ErrorRatioQuery(counter, "function", functionName),
      ErrorRatioQuery(counter, "caller", functionName),
      LatencyQuery(bucket, "function", functionName),
      ConcurrentCallsQuery(gauge, "function", functionName))
  }

  /** The six links of the documentation, in the order they appear. */
  function MetricsDocLinks(prometheusUrl: string, q: DocQueries, functionName: string): seq<string> {
    [PrometheusUrl(prometheusUrl, q.requestRate,
       "Rate of calls to the `" + functionName + "` function per second, averaged over 5 minute windows"),
     PrometheusUrl(prometheusUrl, q.errorRatio,
       "Percentage of calls to the `" + functionName + "` function that return errors, averaged over 5 minute windows"),
     PrometheusUrl(prometheusUrl, q.latency,
       "95th and 99th percentile latencies for the `" + functionName + "` function"),
     PrometheusUrl(prometheusUrl, q.concurrentCalls,
       "Concurrent calls to the `" + functionName + "` function"),
     PrometheusUrl(prometheusUrl, q.calleeRequestRate,
       "Rate of calls to functions called by `" + functionName + "` per second, averaged over 5 minute windows"),
     PrometheusUrl(prometheusUrl, q.calleeErrorRatio,
       "Percentage of calls to functions called by `" + functionName + "` that return errors, averaged over 5 minute windows")]
  }

  /** The pieces of the Markdown section headed "Autometrics", with one
      bullet per link; the links sit at positions 3, 5, 7, 9, 13 and 15. */
  function DocParts(functionName: string, links: seq<string>): seq<string>
    requires |links| == 6
  {
    ["\n\n---\n\n## Autometrics\n\nView the live metrics for the `", functionName,
     "` function:\n- [Request Rate](", links[0],
     ")\n- [Error Ratio](", links[1],
     ")\n- [Latency (95th and 99th percentiles)](", links[2],
     ")\n- [Concurrent Calls](", links[3],
     ")\n\nOr, dig into the metrics of *functions called by* `", functionName,
     "`:\n- [Request Rate](", links[4],
     ")\n- [Error Ratio](", links[5],
     ")\n"]
  }

  /** `create_metrics_docs` */
  function CreateMetricsDocs(prometheusUrl: string, counterName: string, histogramName: string,
                             gaugeName: string, functionName: string): string {
    var q := MetricsDocQueries(counterName, histogramName, gaugeName, functionName);
    Concat(DocParts(functionName, MetricsDocLinks(prometheusUrl, q, functionName)))
  }

  /** Each link occurs in the text of the section. */
  lemma DocPartsContainLinks(functionName: string, links: seq<string>)
    requires |links| == 6
    ensures forall i :: 0 <= i < 6 ==> Contains(Concat(DocParts(functionName, links)), links[i])
  {
    var parts := DocParts(functionName, links);
    forall i | 0 <= i < 6
      ensures Contains(Concat(parts), links[i])
    {
      var k := if i < 4 then 2 * i + 3 else 2 * i + 5;
      assert parts[k] == links[i];
      ConcatContains(parts, k);
    }
  }

  /** Each of the six links appears in the documentation. */
  lemma CreateMetricsDocsLinks(prometheusUrl: string, counterName: string, histogramName: string,
                               gaugeName: string, functionName: string)
    ensures var q := MetricsDocQueries(counterName, histogramName, gaugeName, functionName);
      var links := MetricsDocLinks(prometheusUrl, q, functionName);
      var doc := CreateMetricsDocs(prometheusUrl, counterName, histogramName, gaugeName, functionName);
      forall i :: 0 <= i < 6 ==> Contains(doc, links[i])
  {
    var q := MetricsDocQueries(counterName, histogramName, gaugeName, functionName);
    DocPartsContainLinks(functionName, MetricsDocLinks(prometheusUrl, q, functionName));
  }
}
