/** The `ResultLabels` derive macro (autometrics-macros/src/result_labels.rs):
    each variant of an enum may carry `#[label(result = "ok")]` or
    `#[label(result = "error")]`, and the derived `__autometrics_get_labels`
    returns that label for a value of the variant, or none. */
module ResultLabelsDerive {
  import opened Wrappers
  import opened DeriveInput

  /** The attributes the macro stops at: those named `label`, whatever
      their form. */
  predicate IsLabelAttribute(a: Attribute) {
    PathOf(a.meta) == LabelPath
  }

  /** The closure given to `find_map` in `extract_label_attribute`: None
      for an attribute it passes over, otherwise the verdict. Only the list
      form holding exactly one `result = "ok"` or `result = "error"` pair
      is accepted. This macro reads the attribute with the lenient parser,
      so `metaParses` plays no part. */
  function AttributeVerdict(a: Attribute): (r: Option<Result<string, DeriveError>>)
    ensures r.Some? <==> IsLabelAttribute(a)
    ensures r.Some? && r.value.Ok? <==>
      a.meta.MetaList? && a.meta.path == LabelPath && |a.meta.nested| == 1 &&
      a.meta.nested[0].NameValue? && a.meta.nested[0].key == ResultPath &&
      a.meta.nested[0].value.StrValue? && a.meta.nested[0].value.text in AcceptedLabels
    ensures r.Some? && r.value.Ok? ==> r.value.value == a.meta.nested[0].value.text
  {
    match a.meta
    case MetaList(p, nested) =>
      if p != LabelPath then None
      else if |nested| != 1 || !nested[0].NameValue? then Some(Err(UnsupportedAttribute))
      else Some(PairVerdict(nested[0].key, nested[0].value))
    case MetaNameValue(p, _) => if p == LabelPath then Some(Err(UnsupportedAttribute)) else None
    case MetaPath(p) => if p == LabelPath then Some(Err(UnsupportedAttribute)) else None
  }

  /** `extract_label_attribute`. */
  function ExtractLabelAttribute(attrs: seq<Attribute>): Result<Option<string>, DeriveError> {
    FindVerdict(attrs, AttributeVerdict)
  }

  /** The first `label` attribute of a variant decides its label; other
      attributes are ignored; without one the variant has no label. Any
      label obtained is "ok" or "error". */
  lemma ExtractFirstLabel(attrs: seq<Attribute>, i: nat)
    requires i < |attrs| && IsLabelAttribute(attrs[i])
    requires forall j :: 0 <= j < i ==> !IsLabelAttribute(attrs[j])
    ensures ExtractLabelAttribute(attrs) ==
      match AttributeVerdict(attrs[i]).value
      case Ok(s) => Ok(Some(s))
      case Err(e) => Err(e)
    ensures ExtractLabelAttribute(attrs).Ok? && ExtractLabelAttribute(attrs).value.Some? ==>
      ExtractLabelAttribute(attrs).value.value in AcceptedLabels
  {
    FindVerdictFirst(attrs, AttributeVerdict, i);
  }

  lemma ExtractNoLabel(attrs: seq<Attribute>)
    requires forall j :: 0 <= j < |attrs| ==> !IsLabelAttribute(attrs[j])
    ensures ExtractLabelAttribute(attrs) == Ok(None)
  {
    FindVerdictNone(attrs, AttributeVerdict);
  }

  /** The forms that are refused, each with its message: `#[label]`,
      `#[label = ...]`, a key other than `result`, a value that is no string
      literal and a string other than "ok" and "error". */
  lemma RefusedForms(v: LitValue, key: seq<string>, s: string, b: bool)
    ensures AttributeVerdict(Attribute(MetaPath(LabelPath), b)) == Some(Err(UnsupportedAttribute))
    ensures AttributeVerdict(Attribute(MetaNameValue(LabelPath, v), b)) == Some(Err(UnsupportedAttribute))
    ensures key != ResultPath ==>
      AttributeVerdict(Attribute(MetaList(LabelPath, [NameValue(key, v)]), b)) == Some(Err(UnsupportedKey))
    ensures AttributeVerdict(Attribute(MetaList(LabelPath, [NameValue(ResultPath, OtherValue)]), b)) == Some(Err(NotStringLiteral))
    ensures s !in AcceptedLabels ==>
      AttributeVerdict(Attribute(MetaList(LabelPath, [NameValue(ResultPath, StrValue(s))]), b)) == Some(Err(UnacceptedValue))
    ensures AttributeVerdict(Attribute(MetaList(LabelPath, [NameValue(ResultPath, StrValue("ok")), OtherNested]), b)) == Some(Err(UnsupportedAttribute))
  {
  }

  /** `expand`: the clauses of the derived function, or the error. */
  function Expand(data: Data): Result<seq<Clause>, DeriveError> {
    if !data.Enum? then Err(NotAnEnum) else Clauses(data.variants, 0, ExtractLabelAttribute)
  }

  /** The derived `__autometrics_get_labels` on a value of the variant at
      position `variant`: `if false { None } else if ... else { None }`. */
  function GetLabels(clauses: seq<Clause>, variant: nat): Option<string> {
    FirstMatch(clauses, variant)
  }

  /** Only enums are accepted. The expansion succeeds exactly when every
      variant's attributes are accepted, so one bad variant fails it; the
      derived function then returns, for each variant, the label its
      attributes give ("ok" or "error"), or none. */
  lemma ExpandMeaning(data: Data)
    ensures !data.Enum? ==> Expand(data) == Err(NotAnEnum)
    ensures data.Enum? ==>
      (Expand(data).Ok? <==> forall v :: 0 <= v < |data.variants| ==> ExtractLabelAttribute(data.variants[v].attrs).Ok?)
    ensures data.Enum? && Expand(data).Ok? ==>
      forall v :: 0 <= v < |data.variants| ==>
        GetLabels(Expand(data).value, v) == ExtractLabelAttribute(data.variants[v].attrs).value
  {
    if data.Enum? {
      ClausesMeaning(data.variants, 0, ExtractLabelAttribute);
    }
  }
}
