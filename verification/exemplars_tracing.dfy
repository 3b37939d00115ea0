/** Exemplars from tracing spans (autometrics/src/exemplars/tracing.rs): a
    layer that, when a span is created, records the values of the allowed
    fields into a label map (the first value of a field wins) and attaches
    the map to the span when it is not empty; the exemplar of a metric is
    the map of the nearest span in the current scope that carries one.
    The span registry is modelled by the spans it knows and the label map
    each carries; the current scope (the current span, then its ancestors)
    is given by the caller. */
module ExemplarsTracing {
  import opened Wrappers

  /** The labels of one span: field name to recorded value. */
  type TraceLabels = map<string, string>

  /** A field value as the visitor receives it: a string slice goes to
      `record_str`; any other value goes to `record_debug` with its `Debug`
      rendering. */
  datatype FieldValue = StrValue(text: string) | DebugValue(rendered: string)

  /** A field of a new span: its name and its value. */
  type Field = (string, FieldValue)

  type SpanId = nat

  /** `AutometricsExemplarExtractor`: the field names to extract. */
  datatype Extractor = Extractor(fields: seq<string>)

  /** `AutometricsExemplarExtractor::from_fields`. */
  function FromFields(fields: seq<string>): Extractor {
    Extractor(fields)
  }

  /** What this visitor stores for a value: a string verbatim, any other
      value as its `Debug` rendering. */
  function Recorded(v: FieldValue): string {
    match v
    case StrValue(text) => text
    case DebugValue(rendered) => rendered
  }

  /** One `record_*` call: store the value under the field's name if the
      name is allowed and not yet present. */
  function RecordStep(fields: seq<string>, labels: TraceLabels, name: string, value: string): TraceLabels {
    if name in fields && name !in labels then labels[name := value] else labels
  }

  /** The labels after visiting `values` in order, starting from `start`,
      with `render` giving the stored text of each value. */
  function Visit(fields: seq<string>, start: TraceLabels, values: seq<Field>, render: FieldValue -> string): TraceLabels {
    if values == [] then start
    else
      var last := values[|values| - 1];
      RecordStep(fields, Visit(fields, start, values[..|values| - 1], render), last.0, render(last.1))
  }

  /** A visit keeps what was there, adds exactly the allowed names among the
      fields, and stores for each the value of its first field. */
  lemma {:induction false} VisitMeaning(fields: seq<string>, start: TraceLabels, values: seq<Field>, render: FieldValue -> string, k: string)
    ensures var r := Visit(fields, start, values, render);
      (k in r <==> k in start || (k in fields && exists i :: 0 <= i < |values| && values[i].0 == k)) &&
      (k in start ==> r[k] == start[k]) &&
      (k in r && k !in start ==>
        exists i :: 0 <= i < |values| && values[i].0 == k && r[k] == render(values[i].1) &&
          forall j :: 0 <= j < i ==> values[j].0 != k)
  {
    if values != [] {
      var n := |values| - 1;
      var init := values[..n];
      VisitMeaning(fields, start, init, render, k);
      assert forall i :: 0 <= i < n ==> init[i] == values[i];
      var before := Visit(fields, start, init, render);
      var r := Visit(fields, start, values, render);
      if k in r && k !in start {
        if k in before {
          var i :| 0 <= i < n && init[i].0 == k && before[k] == render(init[i].1) &&
            forall j :: 0 <= j < i ==> init[j].0 != k;
          assert values[i].0 == k && r[k] == render(values[i].1);
        } else {
          assert values[n].0 == k && r[k] == render(values[n].1);
          assert forall j :: 0 <= j < n ==> values[j].0 != k;
        }
      }
    }
  }

  lemma {:induction false} SubsetSize<T>(a: set<T>, b: set<T>)
    requires a <= b
    ensures |a| <= |b|
  {
    if a != {} {
      var x :| x in a;
      SubsetSize(a - {x}, b - {x});
    }
  }

  /** A visit from an empty map has only allowed names as keys, so at most
      as many labels as distinct allowed names. */
  lemma VisitBound(fields: seq<string>, values: seq<Field>, render: FieldValue -> string)
    ensures Visit(fields, map[], values, render).Keys <= set f | f in fields
    ensures |Visit(fields, map[], values, render)| <= |set f | f in fields|
  {
    var r := Visit(fields, map[], values, render);
    forall k | k in r ensures k in fields {
      VisitMeaning(fields, map[], values, render, k);
    }
    SubsetSize(r.Keys, set f | f in fields);
  }

  /** `TraceLabelVisitor`. */
  class TraceLabelVisitor {
    const fields: seq<string>
    var labels: TraceLabels

    /** `TraceLabelVisitor::new`: no labels yet. */
    constructor (fields: seq<string>)
      ensures this.fields == fields && labels == map[]
    {
      this.fields := fields;
      labels := map[];
    }

    /** `record_debug`: store the rendering of an allowed field seen for
        the first time. */
    method RecordDebug(name: string, rendered: string)
      modifies this
      ensures labels == RecordStep(fields, old(labels), name, rendered)
    {
      if name in fields && name !in labels {
        labels := labels[name := rendered];
      }
    }

    /** `record_str`: store the string of an allowed field seen for the
        first time, as it is. */
    method RecordStr(name: string, value: string)
      modifies this
      ensures labels == RecordStep(fields, old(labels), name, value)
    {
      if name in fields && name !in labels {
        labels := labels[name := value];
      }
    }
  }

  /** The spans the registry knows and the labels this layer attached to
      them. */
  class SpanStore {
    var spans: set<SpanId>
    var extensions: map<SpanId, TraceLabels>

    constructor ()
      ensures spans == {} && extensions == map[]
    {
      spans := {};
      extensions := map[];
    }

    /** Labels are attached only to known spans, and never empty. */
    predicate Valid()
      reads this
    {
      extensions.Keys <= spans && forall id :: id in extensions ==> extensions[id] != map[]
    }

    /** A span enters the registry. */
    method AddSpan(id: SpanId)
      requires Valid()
      modifies this
      ensures Valid() && spans == old(spans) + {id} && extensions == old(extensions)
    {
      spans := spans + {id};
    }
  }

  /** `on_new_span`: visit the span's fields and attach the labels to the
      span if any field matched and the registry knows the span. */
  method OnNewSpan(extractor: Extractor, values: seq<Field>, id: SpanId, store: SpanStore)
    requires store.Valid()
    modifies store
    ensures store.Valid() && store.spans == old(store.spans)
    ensures var labels := Visit(extractor.fields, map[], values, Recorded);
      store.extensions == if labels != map[] && id in store.spans then old(store.extensions)[id := labels] else old(store.extensions)
  {
    var visitor := new TraceLabelVisitor(extractor.fields);
    for i := 0 to |values|
      invariant visitor.fields == extractor.fields
      invariant visitor.labels == Visit(extractor.fields, map[], values[..i], Recorded)
      invariant store.spans == old(store.spans) && store.extensions == old(store.extensions)
    {
      assert values[..i + 1][..i] == values[..i];
      var (name, value) := values[i];
      match value
      case StrValue(text) => visitor.RecordStr(name, text);
      case DebugValue(rendered) => visitor.RecordDebug(name, rendered);
    }
    assert values[..|values|] == values;
    if visitor.labels != map[] && id in store.spans {
      store.extensions := store.extensions[id := visitor.labels];
    }
  }

  /** The `find_map` over the scope: the labels of the first span that
      carries some. */
  function FindExemplar(scope: seq<SpanId>, extensions: map<SpanId, TraceLabels>): (r: Option<TraceLabels>)
    ensures r.Some? <==> exists i :: 0 <= i < |scope| && scope[i] in extensions
    ensures r.Some? ==>
      exists i :: 0 <= i < |scope| && scope[i] in extensions && r.value == extensions[scope[i]] &&
        forall j :: 0 <= j < i ==> scope[j] !in extensions
  {
    if scope == [] then None
    else if scope[0] in extensions then Some(extensions[scope[0]])
    else
      var r := FindExemplar(scope[1..], extensions);
      assert forall i :: 1 <= i < |scope| ==> scope[i] == scope[1..][i - 1];
      r
  }

  /** `get_exemplar`: `scope` is the current span followed by its
      ancestors, or None when there is no current span in a registry. */
  function GetExemplar(scope: Option<seq<SpanId>>, extensions: map<SpanId, TraceLabels>): (r: Option<TraceLabels>)
    ensures scope.None? ==> r.None?
    ensures scope.Some? ==> r == FindExemplar(scope.value, extensions)
  {
    match scope
    case None => None
    case Some(s) => FindExemplar(s, extensions)
  }

  /** A span created with a matching field is its own exemplar, ahead of
      any ancestor's, and what it carries is the first value of each
      allowed field; a string field is kept as it is. */
  lemma NewSpanIsNearest(extractor: Extractor, values: seq<Field>, id: SpanId, ancestors: seq<SpanId>,
                         old_extensions: map<SpanId, TraceLabels>, spans: set<SpanId>, i: nat)
    requires id in spans
    requires i < |values| && values[i].0 in extractor.fields && values[i].1.StrValue?
    requires forall j :: 0 <= j < i ==> values[j].0 != values[i].0
    ensures var labels := Visit(extractor.fields, map[], values, Recorded);
      labels != map[] &&
      GetExemplar(Some([id] + ancestors), old_extensions[id := labels]) == Some(labels) &&
      values[i].0 in labels && labels[values[i].0] == values[i].1.text
  {
    var labels := Visit(extractor.fields, map[], values, Recorded);
    VisitMeaning(extractor.fields, map[], values, Recorded, values[i].0);
    var i' :| 0 <= i' < |values| && values[i'].0 == values[i].0 && labels[values[i].0] == Recorded(values[i'].1) &&
      forall j :: 0 <= j < i' ==> values[j].0 != values[i].0;
    assert i' == i;
  }
}
