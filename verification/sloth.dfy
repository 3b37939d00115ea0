/** The SLO definition file that the command-line tool writes for Sloth
    (autometrics-cli/src/sloth.rs): a YAML header followed by one
    success-rate entry per SLO number and objective, then one latency entry
    per SLO number and objective. Objectives are decimal numbers whose
    formatting is not modelled: each comes with its two renderings, the
    percentage itself and the percentage divided by 100. */
module Sloth {
  import opened Text

  /** An objective percentage as `Decimal::to_string` renders it
      (`percent`, e.g. "99.9") and as it renders the same value divided by
      100 (`fraction`, e.g. "0.999"). */
  datatype ObjectiveDecimal = ObjectiveDecimal(percent: string, fraction: string)

  datatype SloKind = SuccessRate | Latency

  const Header: string := "version: prometheus/v1\nservice: autometrics\nslos:\n"

  function KindName(kind: SloKind): string {
    match kind
    case SuccessRate => "success-rate"
    case Latency => "latency"
  }

  /** The entry name: kind, SLO number and the fraction with its '.'
      removed. */
  function EntryName(kind: SloKind, sloNumber: nat, objective: ObjectiveDecimal): (r: string)
    ensures StartsWith(r, KindName(kind) + "-" + NatToString(sloNumber) + "-")
    ensures '.' !in r[|KindName(kind) + "-" + NatToString(sloNumber) + "-"|..]
  {
    var prefix := KindName(kind) + "-" + NatToString(sloNumber) + "-";
    var r := prefix + RemoveChar(objective.fraction, '.');
    assert r[|prefix|..] == RemoveChar(objective.fraction, '.');
    r
  }

  /** The `labels` block: objective as a fraction and the SLO number. */
  function EntryLabels(sloNumber: nat, objective: ObjectiveDecimal): string {
    LabelsObjective + objective.fraction + LabelsSlo + NatToString(sloNumber) + "\n"
  }

  const LabelsObjective := "      objective: "
  const LabelsSlo := "\n      slo: "
  const AlertSeverities :=
    "      page_alert:\n        labels:\n          severity: page\n      ticket_alert:\n        labels:\n          severity: ticket\n"
  const CountSelectorStart := "sum(rate(function_calls_count{slo=\""
  const BucketSelectorStart := "rate(function_calls_duration_bucket{slo=\""
  const ObjectiveMatcher := "\",objective=\""
  const ResultErrorMatcher := ",result=\"error\""
  const WindowEnd := "}[{{.window}}]"

  /** The call-counter rate of one SLO, selecting the objective as a
      percentage, under the extra matchers `extra`. */
  function CallsCountRate(sloNumber: nat, objective: ObjectiveDecimal, extra: string): string {
    CountSelectorStart + NatToString(sloNumber) + ObjectiveMatcher + objective.percent + "\"" + extra + WindowEnd + "))"
  }

  /** The success-rate `error_query`: the counter rate narrowed to
      `result="error"`. */
  function SuccessErrorQuery(sloNumber: nat, objective: ObjectiveDecimal): string {
    CallsCountRate(sloNumber, objective, ResultErrorMatcher)
  }

  /** The success-rate `total_query`: the same counter rate without the
      result matcher. */
  function SuccessTotalQuery(sloNumber: nat, objective: ObjectiveDecimal): string {
    CallsCountRate(sloNumber, objective, "")
  }

  /** Both success-rate queries select the SLO number and the objective as
      a percentage; only the error query narrows to `result="error"`. */
  lemma SuccessQueriesSelect(sloNumber: nat, objective: ObjectiveDecimal)
    ensures var m := "slo=\"" + NatToString(sloNumber) + ObjectiveMatcher + objective.percent + "\"";
      Contains(SuccessErrorQuery(sloNumber, objective), m + ResultErrorMatcher) &&
      Contains(SuccessTotalQuery(sloNumber, objective), m)
  {
    var n := NatToString(sloNumber);
    var m := "slo=\"" + n + ObjectiveMatcher + objective.percent + "\"";
    var before := "sum(rate(function_calls_count{";
    assert CountSelectorStart == before + "slo=\"";
    assert SuccessErrorQuery(sloNumber, objective) == before + (m + ResultErrorMatcher) + (WindowEnd + "))");
    ContainsInfix(before, m + ResultErrorMatcher, WindowEnd + "))");
    assert SuccessTotalQuery(sloNumber, objective) == before + m + ("" + WindowEnd + "))");
    ContainsInfix(before, m, "" + WindowEnd + "))");
  }

  /** The rate of the latency buckets of one SLO, selecting the objective
      as a fraction. */
  function BucketRate(sloNumber: nat, objective: ObjectiveDecimal): string {
    BucketSelectorStart + NatToString(sloNumber) + ObjectiveMatcher + objective.fraction + "\"" + WindowEnd + ")"
  }

  /** The latency `total_query`. */
  function LatencyTotalQuery(sloNumber: nat, objective: ObjectiveDecimal): string {
    "sum(" + BucketRate(sloNumber, objective) + ")"
  }

  const ErrorQueryIndent := ">\n          "
  const MinusGoodStart := "\n          -\n          (sum(\n            label_join("
  const TargetLatencyJoin := ", \"autometrics_check_label_equality\", \"\", \"target_latency\")\n            and\n            label_join("
  const LeJoinEnd := ", \"autometrics_check_label_equality\", \"\", \"le\")\n          ))"

  /** The pieces of the latency `error_query`: all bucket events minus
      those in the bucket whose bound equals the target latency. */
  function LatencyErrorParts(sloNumber: nat, objective: ObjectiveDecimal): (r: seq<string>)
    ensures |r| == 9
  {
    var rate := BucketRate(sloNumber, objective);
    [ErrorQueryIndent, "sum(", rate, ")", MinusGoodStart, rate, TargetLatencyJoin, rate, LeJoinEnd]
  }

  function LatencyErrorQuery(sloNumber: nat, objective: ObjectiveDecimal): string {
    Concat(LatencyErrorParts(sloNumber, objective))
  }

  /** Both latency queries select the SLO number and the objective as a
      fraction (where the success-rate queries use the percentage). */
  lemma LatencyQueriesSelect(sloNumber: nat, objective: ObjectiveDecimal)
    ensures var m := "slo=\"" + NatToString(sloNumber) + ObjectiveMatcher + objective.fraction + "\"";
      Contains(LatencyErrorQuery(sloNumber, objective), m) &&
      Contains(LatencyTotalQuery(sloNumber, objective), m)
  {
    var m := "slo=\"" + NatToString(sloNumber) + ObjectiveMatcher + objective.fraction + "\"";
    var rate := BucketRate(sloNumber, objective);
    var before := "rate(function_calls_duration_bucket{";
    assert BucketSelectorStart == before + "slo=\"";
    assert rate == before + m + (WindowEnd + ")");
    ContainsInfix(before, m, WindowEnd + ")");
    ContainsInfix("sum(", rate, ")");
    ContainsTransitive(LatencyTotalQuery(sloNumber, objective), rate, m);
    ConcatContains(LatencyErrorParts(sloNumber, objective), 2);
    ContainsTransitive(LatencyErrorQuery(sloNumber, objective), rate, m);
  }

  const ObjectiveLine := "    objective: "
  const SuccessDescription := "\n    description: Common SLO based on function success rates\n    labels:\n"
  const LatencyDescription := "\n    description: Common SLO based on function latency\n    labels:\n"
  const ErrorQueryLine := "    sli:\n      events:\n        error_query: "
  const TotalQueryLine := "\n        total_query: "
  const SuccessAlertName := "\n    alerting:\n      name: High Error Rate SLO "
  const LatencyAlertName := "\n    alerting:\n      name: High Latency SLO "
  const AlertCategory := "%\n      labels:\n        category: success-rate\n"
  const NameLine := "  - name: "

  function ErrorQuery(kind: SloKind, sloNumber: nat, objective: ObjectiveDecimal): string {
    match kind
    case SuccessRate => SuccessErrorQuery(sloNumber, objective)
    case Latency => LatencyErrorQuery(sloNumber, objective)
  }

  function TotalQuery(kind: SloKind, sloNumber: nat, objective: ObjectiveDecimal): string {
    match kind
    case SuccessRate => SuccessTotalQuery(sloNumber, objective)
    case Latency => LatencyTotalQuery(sloNumber, objective)
  }

  /** Which entry to generate: its kind, SLO number and objective. */
  datatype SloEntry = SloEntry(kind: SloKind, sloNumber: nat, objective: ObjectiveDecimal)

  /** The pieces of one entry, in the order the template writes them. */
  function EntryParts(e: SloEntry): (r: seq<string>)
    ensures |r| == 17
  {
    var n := NatToString(e.sloNumber);
    var o := e.objective;
    [NameLine, EntryName(e.kind, e.sloNumber, o), "\n",
     ObjectiveLine, o.percent, if e.kind.SuccessRate? then SuccessDescription else LatencyDescription,
     EntryLabels(e.sloNumber, o),
     ErrorQueryLine, ErrorQuery(e.kind, e.sloNumber, o), TotalQueryLine, TotalQuery(e.kind, e.sloNumber, o),
     if e.kind.SuccessRate? then SuccessAlertName else LatencyAlertName, n, " - ", o.percent, AlertCategory,
     AlertSeverities]
  }

  /** `generate_success_rate_slo` and `generate_latency_slo`. */
  function Entry(e: SloEntry): string {
    Concat(EntryParts(e))
  }

  /** An entry starts with its name line. */
  lemma EntryStartsWithName(e: SloEntry)
    ensures StartsWith(Entry(e), NameLine + EntryName(e.kind, e.sloNumber, e.objective) + "\n")
  {
    var parts := EntryParts(e);
    ConcatStartsWith(parts, 3);
    ConcatOfThree(parts[..3]);
  }

  /** An entry carries the objective and SLO-number labels, the error and
      total queries of its kind, and both a page and a ticket alert. */
  lemma EntryHolds(e: SloEntry)
    ensures Contains(Entry(e), EntryLabels(e.sloNumber, e.objective))
    ensures Contains(Entry(e), ErrorQuery(e.kind, e.sloNumber, e.objective))
    ensures Contains(Entry(e), TotalQuery(e.kind, e.sloNumber, e.objective))
    ensures Contains(Entry(e), AlertSeverities)
  {
    var parts := EntryParts(e);
    ConcatContains(parts, 6);
    ConcatContains(parts, 8);
    ConcatContains(parts, 10);
    ConcatContains(parts, 16);
  }

  // ---------------------------------------------------------------------
  // The file

  /** The entries of one SLO number, one per objective, in input order. */
  function Row(kind: SloKind, sloNumber: nat, objectives: seq<ObjectiveDecimal>): (r: seq<SloEntry>)
    ensures |r| == |objectives|
    ensures forall i :: 0 <= i < |objectives| ==> r[i] == SloEntry(kind, sloNumber, objectives[i])
  {
    seq(|objectives|, i requires 0 <= i < |objectives| => SloEntry(kind, sloNumber, objectives[i]))
  }

  /** The entries of one kind for SLO numbers 1 up to `count`: the order of
      the two nested loops. */
  function Plan(kind: SloKind, count: nat, objectives: seq<ObjectiveDecimal>): seq<SloEntry> {
    if count == 0 then [] else Plan(kind, count - 1, objectives) + Row(kind, count, objectives)
  }

  /** The text of a list of entries, one after the other, each written by
      `generate`. */
  function Render(entries: seq<SloEntry>, generate: SloEntry -> string): string {
    if entries == [] then ""
    else Render(entries[..|entries| - 1], generate) + generate(entries[|entries| - 1])
  }

  lemma {:induction false} RenderAppend(a: seq<SloEntry>, b: seq<SloEntry>, generate: SloEntry -> string)
    ensures Render(a + b, generate) == Render(a, generate) + Render(b, generate)
    decreases |b|
  {
    if b == [] {
      assert a + b == a;
    } else {
      assert (a + b)[..|a + b| - 1] == a + b[..|b| - 1];
      RenderAppend(a, b[..|b| - 1], generate);
    }
  }

  /** Every entry's text occurs in the rendering. */
  lemma RenderContains(entries: seq<SloEntry>, generate: SloEntry -> string, j: nat)
    requires j < |entries|
    ensures Contains(Render(entries, generate), generate(entries[j]))
  {
    var a := entries[..j];
    var b := entries[j + 1..];
    assert entries == a + [entries[j]] + b;
    RenderAppend(a + [entries[j]], b, generate);
    RenderAppend(a, [entries[j]], generate);
    assert Render([entries[j]], generate) == Render([], generate) + generate(entries[j]);
    ContainsInfix(Render(a, generate), generate(entries[j]), Render(b, generate));
  }

  /** The whole file: header, success-rate entries, latency entries. */
  function SlothFile(numSlos: nat, objectives: seq<ObjectiveDecimal>): string {
    Header + Render(Plan(SuccessRate, numSlos, objectives), Entry) + Render(Plan(Latency, numSlos, objectives), Entry)
  }

  /** `generate_sloth_file`: the header, then the success-rate entries,
      then the latency entries. */
  method GenerateSlothFile(numSlos: nat, objectives: seq<ObjectiveDecimal>) returns (file: string)
    requires numSlos < 256
    ensures file == SlothFile(numSlos, objectives)
  {
    file := Header;
    file := AppendPlan(file, SuccessRate, numSlos, objectives, Entry);
    file := AppendPlan(file, Latency, numSlos, objectives, Entry);
  }

  /** The two nested loops of `generate_sloth_file` (SLO number outside,
      objective inside) for one kind of entry. */
  method AppendPlan(file: string, kind: SloKind, numSlos: nat, objectives: seq<ObjectiveDecimal>,
                    generate: SloEntry -> string) returns (r: string)
    ensures r == file + Render(Plan(kind, numSlos, objectives), generate)
  {
    r := file;
    var n := 1;
    while n <= numSlos
      invariant 1 <= n <= numSlos + 1
      invariant r == file + Render(Plan(kind, n - 1, objectives), generate)
    {
      r := AppendRow(r, kind, n, objectives, generate);
      PlanStep(file, kind, n, objectives, generate);
      n := n + 1;
    }
  }

  /** One pass of the outer loop appends the row of the next SLO number. */
  lemma PlanStep(file: string, kind: SloKind, n: nat, objectives: seq<ObjectiveDecimal>, generate: SloEntry -> string)
    requires 1 <= n
    ensures file + Render(Plan(kind, n, objectives), generate) ==
      file + Render(Plan(kind, n - 1, objectives), generate) + Render(Row(kind, n, objectives), generate)
  {
    var done, row := Plan(kind, n - 1, objectives), Row(kind, n, objectives);
    assert Plan(kind, n, objectives) == done + row;
    RenderAppend(done, row, generate);
  }

  /** The inner loop: push the entry of every objective for one SLO
      number. */
  method AppendRow(file: string, kind: SloKind, sloNumber: nat, objectives: seq<ObjectiveDecimal>,
                   generate: SloEntry -> string) returns (r: string)
    ensures r == file + Render(Row(kind, sloNumber, objectives), generate)
  {
    r := file;
    var i := 0;
    ghost var row := Row(kind, sloNumber, objectives);
    while i < |objectives|
      invariant 0 <= i <= |objectives|
      invariant r == file + Render(row[..i], generate)
    {
      r := r + generate(SloEntry(kind, sloNumber, objectives[i]));
      assert row[..i + 1][..i] == row[..i];
      i := i + 1;
    }
    assert row[..i] == row;
  }

  /** There are `count` × |objectives| entries of each kind, all of that
      kind. */
  lemma {:induction false} PlanSize(kind: SloKind, count: nat, objectives: seq<ObjectiveDecimal>)
    ensures |Plan(kind, count, objectives)| == count * |objectives|
    ensures forall j :: 0 <= j < |Plan(kind, count, objectives)| ==> Plan(kind, count, objectives)[j].kind == kind
  {
    if count > 0 {
      PlanSize(kind, count - 1, objectives);
      var prev := Plan(kind, count - 1, objectives);
      var row := Row(kind, count, objectives);
      assert (count - 1) * |objectives| + |objectives| == count * |objectives|;
      assert forall j :: |prev| <= j < |prev + row| ==> (prev + row)[j] == row[j - |prev|];
    }
  }

  /** The entry for SLO number `n` (from 1) and objective `i` sits at
      (n - 1) × |objectives| + i: numbers in the outer loop, objectives in
      input order in the inner one. */
  lemma {:induction false} PlanAt(kind: SloKind, count: nat, objectives: seq<ObjectiveDecimal>, n: nat, i: nat)
    requires 1 <= n <= count && i < |objectives|
    ensures (n - 1) * |objectives| + i < |Plan(kind, count, objectives)|
    ensures Plan(kind, count, objectives)[(n - 1) * |objectives| + i] == SloEntry(kind, n, objectives[i])
  {
    var L := |objectives|;
    var prev := Plan(kind, count - 1, objectives);
    PlanSize(kind, count - 1, objectives);
    PlanSize(kind, count, objectives);
    assert Plan(kind, count, objectives) == prev + Row(kind, count, objectives);
    if n < count {
      PlanAt(kind, count - 1, objectives, n, i);
    } else {
      assert (n - 1) * L + i == |prev| + i;
    }
  }

  /** The rendering of a plan holds the text of every entry of the plan. */
  lemma PlanContains(kind: SloKind, count: nat, objectives: seq<ObjectiveDecimal>, generate: SloEntry -> string,
                     n: nat, i: nat)
    requires 1 <= n <= count && i < |objectives|
    ensures Contains(Render(Plan(kind, count, objectives), generate), generate(SloEntry(kind, n, objectives[i])))
  {
    PlanAt(kind, count, objectives, n, i);
    RenderContains(Plan(kind, count, objectives), generate, (n - 1) * |objectives| + i);
  }

  /** A file laid out as the header, the rendered success-rate plan and
      the rendered latency plan holds the text of every entry for SLO
      numbers 1 to `numSlos` and every objective, of both kinds. */
  lemma PlanRendered(header: string, generate: SloEntry -> string, numSlos: nat, objectives: seq<ObjectiveDecimal>,
                     kind: SloKind, n: nat, i: nat)
    requires 1 <= n <= numSlos && i < |objectives|
    ensures Contains(header + Render(Plan(SuccessRate, numSlos, objectives), generate)
                     + Render(Plan(Latency, numSlos, objectives), generate),
                     generate(SloEntry(kind, n, objectives[i])))
  {
    var s := Render(Plan(SuccessRate, numSlos, objectives), generate);
    var l := Render(Plan(Latency, numSlos, objectives), generate);
    var text := generate(SloEntry(kind, n, objectives[i]));
    PlanContains(kind, numSlos, objectives, generate, n, i);
    if kind.SuccessRate? {
      ContainsWithin(header, s, l, text);
    } else {
      ContainsWithin(header + s, l, "", text);
      assert header + s + l + "" == header + s + l;
    }
  }

  /** The file starts with the header and holds the entry of every SLO
      number from 1 to `num_slos` and every objective, of both kinds; with
      no SLOs or no objectives it is just the header. */
  lemma SlothFileShape(numSlos: nat, objectives: seq<ObjectiveDecimal>)
    ensures StartsWith(SlothFile(numSlos, objectives), Header)
    ensures forall kind, n, i {:trigger Entry(SloEntry(kind, n, objectives[i]))} ::
      1 <= n <= numSlos && 0 <= i < |objectives| ==>
      Contains(SlothFile(numSlos, objectives), Entry(SloEntry(kind, n, objectives[i])))
    ensures numSlos == 0 || objectives == [] ==> SlothFile(numSlos, objectives) == Header
  {
    var rest := Render(Plan(SuccessRate, numSlos, objectives), Entry) + Render(Plan(Latency, numSlos, objectives), Entry);
    assert SlothFile(numSlos, objectives) == Header + rest;
    forall kind, n, i | 1 <= n <= numSlos && 0 <= i < |objectives| {
      PlanRendered(Header, Entry, numSlos, objectives, kind, n, i);
    }
    if numSlos == 0 || objectives == [] {
      PlanSize(SuccessRate, numSlos, objectives);
      PlanSize(Latency, numSlos, objectives);
    }
  }
}
