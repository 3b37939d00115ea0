/** The result labels of the `metrics`-attribute generation
    (src/result_labels.rs): a `Result` gets one `result` label, "ok" or
    "err"; any other value gets none. */
module LegacyResultLabels {
  import opened Wrappers
  import opened LegacyLabels

  /** The value this generation gives the `result` label of an `Err`; the
      error-ratio query of macros/src/lib.rs selects the same value. */
  const ErrValue := "err"

  /** `__metrics_attributes_get_labels`, by the trait the value's type
      resolves to. */
  function ResultLabelsFor(v: ReturnValue): (r: seq<KeyValue>)
    ensures |r| <= 1
    ensures forall i :: 0 <= i < |r| ==> r[i].0 == "result"
    ensures r == [] <==> v.OtherValue?
  {
    match v
    case ResultValue(isOk, _) => if isOk then [("result", "ok")] else [("result", "err")]
    case OtherValue => []
  }

  /** The label tells `Ok` from `Err`: "ok" for the one, "err" (not
      "error") for the other, whatever the value holds. */
  lemma ResultLabelsDecide(isOk: bool, s: Option<string>)
    ensures FirstValue(ResultLabelsFor(ResultValue(isOk, s)), "result") == Some(if isOk then "ok" else ErrValue)
    ensures ResultLabelsFor(ResultValue(true, s)) != ResultLabelsFor(ResultValue(false, s))
  {
    var r := ResultLabelsFor(ResultValue(isOk, s));
    FirstValueAt(r, "result", 0);
    assert "ok"[0] != ErrValue[0];
  }
}
