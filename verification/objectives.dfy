/** Service-level objectives attached to instrumented functions
    (autometrics/src/objectives.rs). An objective is a plain value built by
    chaining `new`, `success_rate` and `latency`; its percentile and latency
    threshold are closed enumerations that render to fixed label strings. */
module Objectives {
  import opened Wrappers
  import opened Text

  /** The percentage of calls that must meet the objective. */
  datatype ObjectivePercentile = P90 | P95 | P99 | P99_9

  /** The latency threshold; each variant is named after its milliseconds. */
  datatype ObjectiveLatency =
    | Ms5 | Ms10 | Ms25 | Ms50 | Ms75 | Ms100 | Ms250
    | Ms500 | Ms750 | Ms1000 | Ms2500 | Ms5000 | Ms7500 | Ms10000

  datatype Objective = Objective(
    name: string,
    successRate: Option<ObjectivePercentile>,
    latency: Option<(ObjectiveLatency, ObjectivePercentile)>)

  /** `Objective::new`: a named objective with no target yet. */
  function New(name: string): (r: Objective)
    ensures r.name == name && r.successRate == None && r.latency == None
  {
    Objective(name, None, None)
  }

  /** `Objective::success_rate`: sets the success-rate target and nothing else. */
  function SuccessRate(o: Objective, percentile: ObjectivePercentile): (r: Objective)
    ensures r.successRate == Some(percentile)
    ensures r.name == o.name && r.latency == o.latency
  {
    o.(successRate := Some(percentile))
  }

  /** `Objective::latency`: sets the latency target and nothing else. */
  function Latency(o: Objective, threshold: ObjectiveLatency, percentile: ObjectivePercentile): (r: Objective)
    ensures r.latency == Some((threshold, percentile))
    ensures r.name == o.name && r.successRate == o.successRate
  {
    o.(latency := Some((threshold, percentile)))
  }

  /** Repeated builder calls overwrite: the last call wins. */
  lemma BuilderLastCallWins(o: Objective, p1: ObjectivePercentile, p2: ObjectivePercentile,
                            t1: ObjectiveLatency, q1: ObjectivePercentile,
                            t2: ObjectiveLatency, q2: ObjectivePercentile)
    ensures SuccessRate(SuccessRate(o, p1), p2) == SuccessRate(o, p2)
    ensures Latency(Latency(o, t1, q1), t2, q2) == Latency(o, t2, q2)
    ensures Latency(SuccessRate(o, p1), t1, q1) == SuccessRate(Latency(o, t1, q1), p1)
  {
  }

  const PercentileLabels: set<string> := {"90", "95", "99", "99.9"}

  /** `ObjectivePercentile::as_str`: the label value of a percentile. */
  function PercentileAsStr(p: ObjectivePercentile): (r: string)
    ensures r in PercentileLabels
  {
    match p
    case P90 => "90"
    case P95 => "95"
    case P99 => "99"
    case P99_9 => "99.9"
  }

  /** Reading a percentile label back. */
  function PercentileFromStr(s: string): (r: Option<ObjectivePercentile>)
    ensures r.None? <==> s !in PercentileLabels
  {
    if s == "90" then Some(P90)
    else if s == "95" then Some(P95)
    else if s == "99" then Some(P99)
    else if s == "99.9" then Some(P99_9)
    else None
  }

  /** Rendering a percentile and reading it back gives the percentile, so
      distinct percentiles never share a label value. */
  lemma PercentileRoundTrip(p: ObjectivePercentile)
    ensures PercentileFromStr(PercentileAsStr(p)) == Some(p)
  {
  }

  lemma PercentileAsStrInjective(p: ObjectivePercentile, q: ObjectivePercentile)
    requires PercentileAsStr(p) == PercentileAsStr(q)
    ensures p == q
  {
    PercentileRoundTrip(p);
    PercentileRoundTrip(q);
  }

  const LatencyLabels: set<string> :=
    {"0.005", "0.01", "0.025", "0.05", "0.075", "0.1", "0.25",
     "0.5", "0.75", "1", "2.5", "5", "7.5", "10"}

  /** `ObjectiveLatency::as_str`: the threshold in seconds, as a label value. */
  function LatencyAsStr(l: ObjectiveLatency): (r: string)
    ensures r in LatencyLabels
  {
    match l
    case Ms5 => "0.005"
    case Ms10 => "0.01"
    case Ms25 => "0.025"
    case Ms50 => "0.05"
    case Ms75 => "0.075"
    case Ms100 => "0.1"
    case Ms250 => "0.25"
    case Ms500 => "0.5"
    case Ms750 => "0.75"
    case Ms1000 => "1"
    case Ms2500 => "2.5"
    case Ms5000 => "5"
    case Ms7500 => "7.5"
    case Ms10000 => "10"
  }

  /** The number of milliseconds a latency variant is named after. */
  function Millis(l: ObjectiveLatency): nat {
    match l
    case Ms5 => 5
    case Ms10 => 10
    case Ms25 => 25
    case Ms50 => 50
    case Ms75 => 75
    case Ms100 => 100
    case Ms250 => 250
    case Ms500 => 500
    case Ms750 => 750
    case Ms1000 => 1000
    case Ms2500 => 2500
    case Ms5000 => 5000
    case Ms7500 => 7500
    case Ms10000 => 10000
  }

  /** Drop trailing '0' characters. */
  function TrimTrailingZeros(s: string): string {
    if s != [] && s[|s| - 1] == '0' then TrimTrailingZeros(s[..|s| - 1]) else s
  }

  /** Independent reference rendering: `ms` milliseconds written as a decimal
      number of seconds with no trailing zeros in the fraction and no
      decimal point for whole seconds. */
  function SecondsText(ms: nat): string {
    var whole := NatToString(ms / 1000);
    var frac := ms % 1000;
    if frac == 0 then whole
    else whole + "." + TrimTrailingZeros([DigitChar(frac / 100), DigitChar(frac / 10 % 10), DigitChar(frac % 10)])
  }

  /** Every latency label is the variant's milliseconds divided by 1000,
      written in seconds (so `Ms250` renders "0.25"). */
  lemma LatencyAsStrIsSeconds(l: ObjectiveLatency)
    ensures LatencyAsStr(l) == SecondsText(Millis(l))
  {
    if Millis(l) < 100 {
      ShortLatencyIsSeconds(l);
    } else if Millis(l) < 1000 {
      SubSecondLatencyIsSeconds(l);
    } else {
      LongLatencyIsSeconds(l);
    }
  }

  /** Helper: the thresholds below a tenth of a second. */
  lemma ShortLatencyIsSeconds(l: ObjectiveLatency)
    requires Millis(l) < 100
    ensures LatencyAsStr(l) == SecondsText(Millis(l))
  {
    match l
    case Ms5 => SubSecond(5, '0', '0', '5', "005");
    case Ms10 => SubSecond(10, '0', '1', '0', "01");
    case Ms25 => SubSecond(25, '0', '2', '5', "025");
    case Ms50 => SubSecond(50, '0', '5', '0', "05");
    case Ms75 => SubSecond(75, '0', '7', '5', "075");
  }

  /** Helper: the thresholds from a tenth of a second up to one second. */
  lemma SubSecondLatencyIsSeconds(l: ObjectiveLatency)
    requires 100 <= Millis(l) < 1000
    ensures LatencyAsStr(l) == SecondsText(Millis(l))
  {
    match l
    case Ms100 =>
      assert "100"[..2] == "10" && "10"[..1] == "1";
      SubSecond(100, '1', '0', '0', "1");
    case Ms250 => SubSecond(250, '2', '5', '0', "25");
    case Ms500 =>
      assert "500"[..2] == "50" && "50"[..1] == "5";
      SubSecond(500, '5', '0', '0', "5");
    case Ms750 => SubSecond(750, '7', '5', '0', "75");
  }

  /** Helper: the thresholds of a second or more. */
  lemma LongLatencyIsSeconds(l: ObjectiveLatency)
    requires 1000 <= Millis(l)
    ensures LatencyAsStr(l) == SecondsText(Millis(l))
  {
    match l
    case Ms1000 => assert SecondsText(1000) == NatToString(1);
    case Ms2500 => WithHalfSecond(2, 2500);
    case Ms5000 => assert SecondsText(5000) == NatToString(5);
    case Ms7500 => WithHalfSecond(7, 7500);
    case Ms10000 =>
      assert SecondsText(10000) == NatToString(10);
      assert NatToString(10) == NatToString(1) + [DigitChar(0)];
  }

  /** Helper: a threshold below one second with the given three fraction digits. */
  lemma SubSecond(ms: nat, d0: char, d1: char, d2: char, trimmed: string)
    requires 0 < ms < 1000
    requires d0 == DigitChar(ms / 100) && d1 == DigitChar(ms / 10 % 10) && d2 == DigitChar(ms % 10)
    requires TrimTrailingZeros([d0, d1, d2]) == trimmed
    ensures SecondsText(ms) == "0." + trimmed
  {
    assert ms / 1000 == 0 && ms % 1000 == ms;
    assert NatToString(0) == "0";
  }

  /** Helper: a whole number of seconds below ten plus half a second. */
  lemma WithHalfSecond(whole: nat, ms: nat)
    requires whole < 10 && ms == whole * 1000 + 500
    ensures SecondsText(ms) == [DigitChar(whole)] + ".5"
  {
    assert ms / 1000 == whole && ms % 1000 == 500;
    assert TrimTrailingZeros("500") == "5";
  }

  /** Reading a latency label back. */
  function LatencyFromStr(s: string): (r: Option<ObjectiveLatency>)
    ensures r.None? <==> s !in LatencyLabels
  {
    if s == "0.005" then Some(Ms5)
    else if s == "0.01" then Some(Ms10)
    else if s == "0.025" then Some(Ms25)
    else if s == "0.05" then Some(Ms50)
    else if s == "0.075" then Some(Ms75)
    else if s == "0.1" then Some(Ms100)
    else if s == "0.25" then Some(Ms250)
    else if s == "0.5" then Some(Ms500)
    else if s == "0.75" then Some(Ms750)
    else if s == "1" then Some(Ms1000)
    else if s == "2.5" then Some(Ms2500)
    else if s == "5" then Some(Ms5000)
    else if s == "7.5" then Some(Ms7500)
    else if s == "10" then Some(Ms10000)
    else None
  }

  /** Rendering a threshold and reading it back gives the threshold. */
  lemma LatencyRoundTrip(l: ObjectiveLatency)
    ensures LatencyFromStr(LatencyAsStr(l)) == Some(l)
  {
  }

  lemma LatencyAsStrInjective(l: ObjectiveLatency, m: ObjectiveLatency)
    requires LatencyAsStr(l) == LatencyAsStr(m)
    ensures l == m
  {
    LatencyRoundTrip(l);
    LatencyRoundTrip(m);
  }

  /** The example objective of the library's documentation. */
  lemma ApiObjectiveExample()
    ensures var o := Latency(SuccessRate(New("api"), P99_9), Ms250, P99);
      o == Objective("api", Some(P99_9), Some((Ms250, P99))) &&
      PercentileAsStr(o.successRate.value) == "99.9" &&
      LatencyAsStr(o.latency.value.0) == "0.25" &&
      PercentileAsStr(o.latency.value.1) == "99"
  {
  }
}
