/** The `ErrorLabels` derive macro (autometrics-macros/src/error_labels.rs):
    each variant of an error enum may carry `#[label(result = "ok")]` or
    `#[label(result = "error")]`, and the derived
    `__autometrics_get_error_label` returns that label for a value of the
    variant, and "error" for a variant without one. */
module ErrorLabelsDerive {
  import opened Wrappers
  import opened DeriveInput

  /** The label of an unlabelled variant (`ERROR_KEY`). */
  const DefaultLabel := "error"

  /** The closure given to `find_map` as written: an attribute the stricter
      parser refuses is an error; a list attribute not named `label` is
      passed over; a `label(...)` list is judged by its first item, which
      must be a `key = value` pair (later items are not looked at); and
      every attribute that is not a list is refused, whatever its name. */
  function AttributeVerdictAsWritten(a: Attribute): (r: Option<Result<string, DeriveError>>)
    ensures r.None? <==> a.metaParses && a.meta.MetaList? && a.meta.path != LabelPath
    ensures !a.meta.MetaList? ==> r.Some? && r.value.Err?
  {
    if !a.metaParses then Some(Err(UnparsableAttribute))
    else match a.meta
      case MetaList(p, nested) =>
        if p != LabelPath then None
        else if nested == [] || !nested[0].NameValue? then Some(Err(UnsupportedAttribute))
        else Some(PairVerdict(nested[0].key, nested[0].value))
      case _ => Some(Err(UnsupportedAttribute))
  }

  /** The closure as evidently intended: like the one above, except that an
      attribute that is not a list is refused only when it is named `label`
      (as the `ResultLabels` macro does), so that other attributes, doc
      comments among them, are passed over. */
  function AttributeVerdict(a: Attribute): (r: Option<Result<string, DeriveError>>)
    ensures r.None? <==> a.metaParses && PathOf(a.meta) != LabelPath
    ensures r.Some? && r.value.Ok? <==>
      a.metaParses && a.meta.MetaList? && a.meta.path == LabelPath && a.meta.nested != [] &&
      a.meta.nested[0].NameValue? && a.meta.nested[0].key == ResultPath &&
      a.meta.nested[0].value.StrValue? && a.meta.nested[0].value.text in AcceptedLabels
    ensures r.Some? && r.value.Ok? ==> r.value.value == a.meta.nested[0].value.text
  {
    if !a.metaParses then Some(Err(UnparsableAttribute))
    else match a.meta
      case MetaList(p, nested) =>
        if p != LabelPath then None
        else if nested == [] || !nested[0].NameValue? then Some(Err(UnsupportedAttribute))
        else Some(PairVerdict(nested[0].key, nested[0].value))
      case _ => if PathOf(a.meta) == LabelPath then Some(Err(UnsupportedAttribute)) else None
  }

  /** `extract_label_attribute` as written. */
  function ExtractLabelAttributeAsWritten(attrs: seq<Attribute>): Result<Option<string>, DeriveError> {
    FindVerdict(attrs, AttributeVerdictAsWritten)
  }

  /** `extract_label_attribute` as intended. */
  function ExtractLabelAttribute(attrs: seq<Attribute>): Result<Option<string>, DeriveError> {
    FindVerdict(attrs, AttributeVerdict)
  }

  /** `expand` as written: the clauses of the derived function, or the
      error. */
  function ExpandAsWritten(data: Data): Result<seq<Clause>, DeriveError> {
    if !data.Enum? then Err(NotAnEnum) else Clauses(data.variants, 0, ExtractLabelAttributeAsWritten)
  }

  /** `expand` as intended. */
  function Expand(data: Data): Result<seq<Clause>, DeriveError> {
    if !data.Enum? then Err(NotAnEnum) else Clauses(data.variants, 0, ExtractLabelAttribute)
  }

  /** The derived `__autometrics_get_error_label` on a value of the variant
      at position `variant`: the clauses return early, and "error" is
      returned when none matches. */
  function GetErrorLabel(clauses: seq<Clause>, variant: nat): string {
    FirstMatch(clauses, variant).GetOr(DefaultLabel)
  }

  /** A variant documented with a `///` comment, which is the attribute
      `#[doc = "..."]`, makes the expansion as written fail, although it
      carries no label; the intended expansion succeeds and labels the
      variant "error". */
  lemma DocCommentRejected(text: string)
    ensures var data := Enum([Variant("V", [Attribute(MetaNameValue(["doc"], StrValue(text)), true)])]);
      ExpandAsWritten(data) == Err(UnsupportedAttribute) &&
      Expand(data).Ok? && GetErrorLabel(Expand(data).value, 0) == "error"
  {
    var data := Enum([Variant("V", [Attribute(MetaNameValue(["doc"], StrValue(text)), true)])]);
    var attrs := data.variants[0].attrs;
    assert attrs[1..] == [];
    assert PathOf(attrs[0].meta)[0] != LabelPath[0];
    assert AttributeVerdict(attrs[0]) == None;
    assert FindVerdict(attrs, AttributeVerdict) == FindVerdict(attrs[1..], AttributeVerdict) == Ok(None);
    assert ExtractLabelAttributeAsWritten(attrs) == Err(UnsupportedAttribute);
    assert ExtractLabelAttribute(attrs) == Ok(None);
    assert data.variants[1..] == [];
    assert Clauses(data.variants, 0, ExtractLabelAttribute) == Clauses(data.variants[1..], 1, ExtractLabelAttribute) == Ok([]);
  }

  /** On variants whose attributes are all lists, or named `label`, the two
      extractions agree: the correction changes nothing else. */
  lemma {:induction false} AsWrittenAgrees(attrs: seq<Attribute>)
    requires forall j :: 0 <= j < |attrs| ==> attrs[j].meta.MetaList? || PathOf(attrs[j].meta) == LabelPath
    ensures ExtractLabelAttributeAsWritten(attrs) == ExtractLabelAttribute(attrs)
  {
    if attrs != [] {
      assert AttributeVerdictAsWritten(attrs[0]) == AttributeVerdict(attrs[0]);
      AsWrittenAgrees(attrs[1..]);
    }
  }

  /** The first attribute that is `label`-named or unparsable decides the
      label; attributes before it are passed over. */
  lemma ExtractFirstLabel(attrs: seq<Attribute>, i: nat)
    requires i < |attrs| && AttributeVerdict(attrs[i]).Some?
    requires forall j :: 0 <= j < i ==> attrs[j].metaParses && PathOf(attrs[j].meta) != LabelPath
    ensures ExtractLabelAttribute(attrs) ==
      match AttributeVerdict(attrs[i]).value
      case Ok(s) => Ok(Some(s))
      case Err(e) => Err(e)
  {
    FindVerdictFirst(attrs, AttributeVerdict, i);
  }

  /** The forms refused and accepted: `#[label]` and `#[label = ...]`, a
      key other than `result`, a value that is not a string literal, a
      string other than "ok" and "error" and an attribute the stricter
      parser refuses; extra items after the first pair are allowed. */
  lemma LabelForms(v: LitValue, key: seq<string>, s: string, m: Meta)
    ensures AttributeVerdict(Attribute(MetaPath(LabelPath), true)) == Some(Err(UnsupportedAttribute))
    ensures AttributeVerdict(Attribute(MetaNameValue(LabelPath, v), true)) == Some(Err(UnsupportedAttribute))
    ensures key != ResultPath ==>
      AttributeVerdict(Attribute(MetaList(LabelPath, [NameValue(key, v)]), true)) == Some(Err(UnsupportedKey))
    ensures AttributeVerdict(Attribute(MetaList(LabelPath, [NameValue(ResultPath, OtherValue)]), true)) == Some(Err(NotStringLiteral))
    ensures s !in AcceptedLabels ==>
      AttributeVerdict(Attribute(MetaList(LabelPath, [NameValue(ResultPath, StrValue(s))]), true)) == Some(Err(UnacceptedValue))
    ensures AttributeVerdict(Attribute(m, false)) == Some(Err(UnparsableAttribute))
    ensures AttributeVerdict(Attribute(MetaList(LabelPath, [NameValue(ResultPath, StrValue("ok")), OtherNested]), true)) == Some(Ok("ok"))
  {
  }

  /** Only enums are accepted; the expansion succeeds exactly when every
      variant's attributes are accepted; and the derived function returns,
      for every variant, the label its attributes give, "error" when they
      give none, and never anything but "ok" or "error". */
  lemma ExpandMeaning(data: Data)
    ensures !data.Enum? ==> Expand(data) == Err(NotAnEnum)
    ensures data.Enum? ==>
      (Expand(data).Ok? <==> forall v :: 0 <= v < |data.variants| ==> ExtractLabelAttribute(data.variants[v].attrs).Ok?)
    ensures data.Enum? && Expand(data).Ok? ==>
      forall v :: 0 <= v < |data.variants| ==>
        GetErrorLabel(Expand(data).value, v) == ExtractLabelAttribute(data.variants[v].attrs).value.GetOr(DefaultLabel) &&
        GetErrorLabel(Expand(data).value, v) in AcceptedLabels
  {
    if data.Enum? {
      ClausesMeaning(data.variants, 0, ExtractLabelAttribute);
      forall v | 0 <= v < |data.variants|
        ensures ExtractLabelAttribute(data.variants[v].attrs).Ok? && ExtractLabelAttribute(data.variants[v].attrs).value.Some? ==>
          ExtractLabelAttribute(data.variants[v].attrs).value.value in AcceptedLabels
      {
        FindVerdictAccepted(data.variants[v].attrs, AttributeVerdict);
      }
    }
  }
}
