/** The label scheme of the older generation (src/labels.rs): the
    function and module labels of every call, and for a function returning
    a `Result`, the `result` label and, when the returned value names
    itself as a static string, a label keyed by the result. Which of the
    two traits' methods a value resolves to is decided by the compiler from
    its type; here it is the `ReturnValue` constructor. */
module LegacyLabels {
  import opened Wrappers

  /** An OpenTelemetry key-value pair with a string value. */
  type KeyValue = (string, string)

  const FunctionKey := "function"
  const ModuleKey := "module"
  const ResultKey := "result"
  const OkValue := "ok"
  const ErrorValue := "error"

  /** The value of the first pair with key `k`, if any. */
  function FirstValue(labels: seq<KeyValue>, k: string): Option<string> {
    if labels == [] then None
    else if labels[0].0 == k then Some(labels[0].1)
    else FirstValue(labels[1..], k)
  }

  /** The first pair with key `k` gives its value. */
  lemma {:induction false} FirstValueAt(labels: seq<KeyValue>, k: string, i: nat)
    requires i < |labels| && labels[i].0 == k
    requires forall j :: 0 <= j < i ==> labels[j].0 != k
    ensures FirstValue(labels, k) == Some(labels[i].1)
  {
    if i > 0 {
      FirstValueAt(labels[1..], k, i - 1);
    }
  }

  /** A key no pair carries has no value. */
  lemma {:induction false} FirstValueAbsent(labels: seq<KeyValue>, k: string)
    requires forall j :: 0 <= j < |labels| ==> labels[j].0 != k
    ensures FirstValue(labels, k).None?
  {
    if labels != [] {
      FirstValueAbsent(labels[1..], k);
    }
  }

  /** A returned value as the label traits see it: a `Result` with its
      variant and, when the inner type converts into `&'static str`, that
      string; or any other value. */
  datatype ReturnValue = ResultValue(isOk: bool, staticStr: Option<string>) | OtherValue

  /** `create_labels`. */
  function CreateLabels(functionName: string, moduleName: string): (r: seq<KeyValue>)
    ensures |r| == 2 && r[0].0 == FunctionKey && r[1].0 == ModuleKey
    ensures FirstValue(r, FunctionKey) == Some(functionName) && FirstValue(r, ModuleKey) == Some(moduleName)
  {
    [(FunctionKey, functionName), (ModuleKey, moduleName)]
  }

  /** `GetLabelsFromResult::__autometrics_get_labels` for a `Result`:
      function, module and result, then the static string under the
      result's own key when there is one. */
  method ResultLabels(isOk: bool, staticStr: Option<string>, functionName: string, moduleName: string)
    returns (labels: seq<KeyValue>)
    ensures labels == ResultLabelsOf(isOk, staticStr, functionName, moduleName)
  {
    var result := if isOk then OkValue else ErrorValue;
    labels := [(FunctionKey, functionName), (ModuleKey, moduleName), (ResultKey, result)];
    if staticStr.Some? {
      labels := labels + [(result, staticStr.value)];
    }
  }

  /** The value of the `result` label. */
  function ResultValueOf(isOk: bool): string {
    if isOk then OkValue else ErrorValue
  }

  /** The labels `ResultLabels` builds. */
  function ResultLabelsOf(isOk: bool, staticStr: Option<string>, functionName: string, moduleName: string): seq<KeyValue> {
    var base := [(FunctionKey, functionName), (ModuleKey, moduleName), (ResultKey, ResultValueOf(isOk))];
    if staticStr.Some? then base + [(ResultValueOf(isOk), staticStr.value)] else base
  }

  /** The labels a call is recorded with: the `Result` method for a
      `Result`, and the default `GetLabels` method (`create_labels`)
      otherwise. */
  function LabelsFor(v: ReturnValue, functionName: string, moduleName: string): seq<KeyValue> {
    match v
    case ResultValue(isOk, staticStr) => ResultLabelsOf(isOk, staticStr, functionName, moduleName)
    case OtherValue => CreateLabels(functionName, moduleName)
  }

  /** The labels start with function and module, in that order; a `Result`
      adds `result`, "ok" for `Ok` and "error" for `Err`, and a fourth
      label exactly when the value has a static string, keyed by the result
      value; every label can be read back by its key. */
  lemma LabelsForShape(v: ReturnValue, functionName: string, moduleName: string)
    ensures var r := LabelsFor(v, functionName, moduleName);
      r[..2] == CreateLabels(functionName, moduleName) &&
      FirstValue(r, FunctionKey) == Some(functionName) && FirstValue(r, ModuleKey) == Some(moduleName) &&
      (v.OtherValue? ==> |r| == 2 && FirstValue(r, ResultKey).None?) &&
      (v.ResultValue? ==>
        |r| == (if v.staticStr.Some? then 4 else 3) &&
        r[2] == (ResultKey, if v.isOk then "ok" else "error") &&
        FirstValue(r, ResultKey) == Some(if v.isOk then "ok" else "error") &&
        (v.staticStr.Some? ==> r[3] == (r[2].1, v.staticStr.value) &&
                               FirstValue(r, r[2].1) == v.staticStr))
  {
    var r := LabelsFor(v, functionName, moduleName);
    assert r[0].0 == FunctionKey && r[1].0 == ModuleKey;
    FirstValueAt(r, FunctionKey, 0);
    FirstValueAt(r, ModuleKey, 1);
    if v.ResultValue? {
      assert r[2].0 == ResultKey;
      FirstValueAt(r, ResultKey, 2);
      if v.staticStr.Some? {
        var key := r[2].1;
        assert key == OkValue || key == ErrorValue;
        assert key[0] != FunctionKey[0] && key[0] != ModuleKey[0] && key[0] != ResultKey[0];
        FirstValueAt(r, key, 3);
      }
    } else {
      FirstValueAbsent(r, ResultKey);
    }
  }
}
