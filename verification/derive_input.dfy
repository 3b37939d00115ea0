/** The input of the `ResultLabels` and `ErrorLabels` derive macros
    (autometrics-macros/src/result_labels.rs, error_labels.rs): an item
    with its variants and each variant's attributes, reduced to what the
    macros inspect. The code the macros emit is modelled as the table of
    clauses it consists of, and the function it defines as the evaluation
    of that table. */
module DeriveInput {
  import opened Wrappers

  /** The value on the right of `key = value`. */
  datatype LitValue = StrValue(text: string) | OtherValue

  /** An item of the list inside `#[path(...)]`. */
  datatype Nested = NameValue(key: seq<string>, value: LitValue) | OtherNested

  /** The three forms of an attribute: `#[path]`, `#[path(...)]` and
      `#[path = value]`. A `///` doc comment is `#[doc = "..."]`. */
  datatype Meta =
    | MetaPath(path: seq<string>)
    | MetaList(path: seq<string>, nested: seq<Nested>)
    | MetaNameValue(path: seq<string>, value: LitValue)

  /** An attribute as written. `metaParses` says whether the stricter
      attribute parser that error_labels.rs calls (`parse_meta`) accepts its
      tokens: that parser wants a literal after every `=` and meta items
      inside every list, and refuses, for instance, `#[x(a = b::c)]`. */
  datatype Attribute = Attribute(meta: Meta, metaParses: bool)

  datatype Variant = Variant(name: string, attrs: seq<Attribute>)

  datatype Data = Enum(variants: seq<Variant>) | Struct | Union

  datatype DeriveError =
    | NotAnEnum             // "... only works with 'Enum's."
    | UnsupportedAttribute  // "Only `label(result = \"RES\")` ... is supported"
    | UnsupportedKey        // "Only `result = \"RES\"` ... is supported"
    | NotStringLiteral      // "Only \"ok\" or \"error\", as string literals, ..."
    | UnacceptedValue       // "Only \"ok\" or \"error\" are accepted as result values"
    | UnparsableAttribute   // "could not parse the meta attribute: ..."

  const LabelPath: seq<string> := ["label"]
  const ResultPath: seq<string> := ["result"]
  const AcceptedLabels: set<string> := {"error", "ok"}

  /** The path an attribute is named by, whatever its form. */
  function PathOf(m: Meta): seq<string> {
    match m
    case MetaPath(p) => p
    case MetaList(p, _) => p
    case MetaNameValue(p, _) => p
  }

  /** The checks both macros make of the `key = value` pair inside
      `#[label(...)]`: the key is `result`, the value a string literal, and
      the string one of the accepted labels. */
  function PairVerdict(key: seq<string>, value: LitValue): (r: Result<string, DeriveError>)
    ensures r.Ok? <==> key == ResultPath && value.StrValue? && value.text in AcceptedLabels
    ensures r.Ok? ==> r.value == value.text
  {
    if key != ResultPath then Err(UnsupportedKey)
    else if !value.StrValue? then Err(NotStringLiteral)
    else if value.text !in AcceptedLabels then Err(UnacceptedValue)
    else Ok(value.text)
  }

  /** One clause of the generated function: `matches!(self, &E::V)` for
      the variant at position `variant`, giving `labelValue`. */
  datatype Clause = Clause(variant: nat, labelValue: string)

  /** The generated chain of clauses run on a value of the variant at
      position `variant`: the first clause for it decides. */
  function FirstMatch(clauses: seq<Clause>, variant: nat): Option<string> {
    if clauses == [] then None
    else if clauses[0].variant == variant then Some(clauses[0].labelValue)
    else FirstMatch(clauses[1..], variant)
  }

  /** `attrs.iter().find_map(verdict).transpose()`: the verdict of the
      first attribute the closure does not pass over, or no label. */
  function FindVerdict(attrs: seq<Attribute>, verdict: Attribute -> Option<Result<string, DeriveError>>): Result<Option<string>, DeriveError> {
    if attrs == [] then Ok(None)
    else match verdict(attrs[0])
      case None => FindVerdict(attrs[1..], verdict)
      case Some(Err(e)) => Err(e)
      case Some(Ok(s)) => Ok(Some(s))
  }

  /** The first attribute with a verdict decides; those before it are
      passed over and those after it are never looked at. */
  lemma {:induction false} FindVerdictFirst(attrs: seq<Attribute>, verdict: Attribute -> Option<Result<string, DeriveError>>, i: nat)
    requires i < |attrs| && verdict(attrs[i]).Some?
    requires forall j :: 0 <= j < i ==> verdict(attrs[j]).None?
    ensures FindVerdict(attrs, verdict) ==
      match verdict(attrs[i]).value
      case Ok(s) => Ok(Some(s))
      case Err(e) => Err(e)
  {
    if i > 0 {
      assert verdict(attrs[0]).None?;
      FindVerdictFirst(attrs[1..], verdict, i - 1);
    }
  }

  /** When every label a verdict accepts is "ok" or "error", so is the
      label the search finds. */
  lemma {:induction false} FindVerdictAccepted(attrs: seq<Attribute>, verdict: Attribute -> Option<Result<string, DeriveError>>)
    requires forall a :: verdict(a).Some? && verdict(a).value.Ok? ==> verdict(a).value.value in AcceptedLabels
    ensures FindVerdict(attrs, verdict).Ok? && FindVerdict(attrs, verdict).value.Some? ==>
      FindVerdict(attrs, verdict).value.value in AcceptedLabels
  {
    if attrs != [] && verdict(attrs[0]).None? {
      FindVerdictAccepted(attrs[1..], verdict);
    }
  }

  /** With no attribute to decide, there is no label. */
  lemma {:induction false} FindVerdictNone(attrs: seq<Attribute>, verdict: Attribute -> Option<Result<string, DeriveError>>)
    requires forall j :: 0 <= j < |attrs| ==> verdict(attrs[j]).None?
    ensures FindVerdict(attrs, verdict) == Ok(None)
  {
    if attrs != [] {
      assert verdict(attrs[0]).None?;
      FindVerdictNone(attrs[1..], verdict);
    }
  }

  /** `conditional_label_clauses`: one clause per labelled variant, in
      variant order, numbering variants from `from`; the first variant whose
      attributes are refused makes the whole expansion fail. */
  function Clauses(variants: seq<Variant>, from: nat, extract: seq<Attribute> -> Result<Option<string>, DeriveError>): Result<seq<Clause>, DeriveError> {
    if variants == [] then Ok([])
    else match extract(variants[0].attrs)
      case Err(e) => Err(e)
      case Ok(None) => Clauses(variants[1..], from + 1, extract)
      case Ok(Some(k)) =>
        match Clauses(variants[1..], from + 1, extract)
        case Err(e) => Err(e)
        case Ok(cs) => Ok([Clause(from, k)] + cs)
  }

  lemma {:induction false} FirstMatchAbsent(clauses: seq<Clause>, variant: nat)
    requires forall i :: 0 <= i < |clauses| ==> clauses[i].variant != variant
    ensures FirstMatch(clauses, variant) == None
  {
    if clauses != [] {
      FirstMatchAbsent(clauses[1..], variant);
    }
  }

  /** The clauses are built exactly when every variant's attributes are
      accepted; the first refused variant's error is the result otherwise;
      and the clause chain gives every variant the label of its own
      attributes. */
  lemma {:induction false} ClausesMeaning(variants: seq<Variant>, from: nat, extract: seq<Attribute> -> Result<Option<string>, DeriveError>)
    ensures Clauses(variants, from, extract).Ok? <==> forall v :: 0 <= v < |variants| ==> extract(variants[v].attrs).Ok?
    ensures Clauses(variants, from, extract).Err? ==>
      exists v :: 0 <= v < |variants| && extract(variants[v].attrs) == Err(Clauses(variants, from, extract).error) &&
        forall u :: 0 <= u < v ==> extract(variants[u].attrs).Ok?
    ensures Clauses(variants, from, extract).Ok? ==>
      var cs := Clauses(variants, from, extract).value;
      (forall i :: 0 <= i < |cs| ==> from <= cs[i].variant < from + |variants|) &&
      forall v :: 0 <= v < |variants| ==> FirstMatch(cs, from + v) == extract(variants[v].attrs).value
    decreases |variants|
  {
    if variants != [] {
      var rest := variants[1..];
      assert forall v :: 0 < v < |variants| ==> variants[v] == rest[v - 1];
      ClausesMeaning(rest, from + 1, extract);
      match extract(variants[0].attrs)
      case Err(e) =>
      case Ok(None) =>
        if Clauses(rest, from + 1, extract).Ok? {
          FirstMatchAbsent(Clauses(rest, from + 1, extract).value, from);
        } else {
          var v :| 0 <= v < |rest| && extract(rest[v].attrs) == Err(Clauses(rest, from + 1, extract).error) &&
            forall u :: 0 <= u < v ==> extract(rest[u].attrs).Ok?;
          assert extract(variants[v + 1].attrs) == Err(Clauses(variants, from, extract).error);
        }
      case Ok(Some(k)) =>
        if Clauses(rest, from + 1, extract).Ok? {
          var cs := Clauses(rest, from + 1, extract).value;
          forall v | 0 < v < |variants|
            ensures FirstMatch([Clause(from, k)] + cs, from + v) == extract(variants[v].attrs).value
          {
            assert ([Clause(from, k)] + cs)[1..] == cs;
            assert from + v == (from + 1) + (v - 1);
          }
        } else {
          var v :| 0 <= v < |rest| && extract(rest[v].attrs) == Err(Clauses(rest, from + 1, extract).error) &&
            forall u :: 0 <= u < v ==> extract(rest[u].attrs).Ok?;
          assert extract(variants[v + 1].attrs) == Err(Clauses(variants, from, extract).error);
        }
    }
  }
}
