/** The tracing integration (autometrics/src/integrations/tracing.rs): the
    same layer as the exemplar module's, whose visitor implements only
    `record_debug`, so a string field reaches it through the default
    `record_str` and is stored as its `Debug` rendering, quoted; and an
    extractor that by default looks for `trace_id`. The labels, the visit,
    the span registry and the scope search are those of the exemplar
    module. */
module IntegrationsTracing {
  import opened Wrappers
  import opened ExemplarsTracing

  const TraceIdField := "trace_id"

  /** `AutometricsExemplarExtractor::default`. */
  function Default(): Extractor {
    Extractor([TraceIdField])
  }

  /** `AutometricsExemplarExtractor::from_field`. */
  function FromField(field: string): Extractor {
    Extractor([field])
  }

  /** The `Debug` rendering of a string: the string between double quotes
      (escaping of quotes, backslashes and control characters aside). */
  function DebugStr(s: string): string {
    "\"" + s + "\""
  }

  /** What this visitor stores for a value: always a `Debug` rendering. */
  function DebugRecorded(v: FieldValue): string {
    match v
    case StrValue(text) => DebugStr(text)
    case DebugValue(rendered) => rendered
  }

  /** `TraceLabelVisitor` with only `record_debug`. */
  class TraceLabelVisitor {
    const fields: seq<string>
    var labels: TraceLabels

    constructor (fields: seq<string>)
      ensures this.fields == fields && labels == map[]
    {
      this.fields := fields;
      labels := map[];
    }

    /** `record_debug`: store the rendering of an allowed field seen for
        the first time. */
    method RecordDebug(name: string, rendered: string)
      modifies this
      ensures labels == RecordStep(fields, old(labels), name, rendered)
    {
      if name in fields && name !in labels {
        labels := labels[name := rendered];
      }
    }
  }

  /** `on_new_span`: every value reaches `record_debug`. */
  method OnNewSpan(extractor: Extractor, values: seq<Field>, id: SpanId, store: SpanStore)
    requires store.Valid()
    modifies store
    ensures store.Valid() && store.spans == old(store.spans)
    ensures var labels := Visit(extractor.fields, map[], values, DebugRecorded);
      store.extensions == if labels != map[] && id in store.spans then old(store.extensions)[id := labels] else old(store.extensions)
  {
    var visitor := new TraceLabelVisitor(extractor.fields);
    for i := 0 to |values|
      invariant visitor.fields == extractor.fields
      invariant visitor.labels == Visit(extractor.fields, map[], values[..i], DebugRecorded)
      invariant store.spans == old(store.spans) && store.extensions == old(store.extensions)
    {
      assert values[..i + 1][..i] == values[..i];
      visitor.RecordDebug(values[i].0, DebugRecorded(values[i].1));
    }
    assert values[..|values|] == values;
    if visitor.labels != map[] && id in store.spans {
      store.extensions := store.extensions[id := visitor.labels];
    }
  }

  /** The default extractor and `from_field(f)` extract exactly one field:
      the labels of a span are empty when it has no field of that name,
      and otherwise map the name to its first value alone. */
  lemma SingleFieldExtractors(f: string, values: seq<Field>)
    ensures Default() == FromField(TraceIdField)
    ensures var labels := Visit(FromField(f).fields, map[], values, DebugRecorded);
      ((forall i :: 0 <= i < |values| ==> values[i].0 != f) ==> labels == map[]) &&
      (forall i :: 0 <= i < |values| && values[i].0 == f && (forall j :: 0 <= j < i ==> values[j].0 != f) ==>
        labels == map[f := DebugRecorded(values[i].1)])
  {
    var fields := FromField(f).fields;
    var labels := Visit(fields, map[], values, DebugRecorded);
    forall k ensures k in labels <==> k == f && exists i :: 0 <= i < |values| && values[i].0 == f {
      VisitMeaning(fields, map[], values, DebugRecorded, k);
    }
    forall i | 0 <= i < |values| && values[i].0 == f && (forall j :: 0 <= j < i ==> values[j].0 != f)
      ensures labels == map[f := DebugRecorded(values[i].1)]
    {
      VisitMeaning(fields, map[], values, DebugRecorded, f);
      var i' :| 0 <= i' < |values| && values[i'].0 == f && labels[f] == DebugRecorded(values[i'].1) &&
        forall j :: 0 <= j < i' ==> values[j].0 != f;
      assert i' == i;
      assert labels.Keys == {f};
    }
  }

  /** The two layers differ on string fields: this one stores a quoted
      rendering where the exemplar module's stores the string itself. */
  lemma StringFieldsDiffer(f: string, s: string)
    ensures Visit([f], map[], [(f, StrValue(s))], Recorded) == map[f := s]
    ensures Visit([f], map[], [(f, StrValue(s))], DebugRecorded) == map[f := DebugStr(s)]
    ensures map[f := s] != map[f := DebugStr(s)]
  {
    assert [(f, StrValue(s))][..0] == [];
    assert |DebugStr(s)| == |s| + 2;
  }
}
