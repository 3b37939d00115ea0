/** The label scheme of the current generation (autometrics/src/labels.rs):
    the label sets of the build-info, counter, histogram and gauge metrics,
    and the decision table that turns a function's return value into the
    `result`, `ok` and `error` labels.

    The service name, which the library reads from its global settings, is a
    parameter of every constructor here. */
module Labels {
  import opened Wrappers
  import opened Text
  import opened Objectives

  /** The label keys of the constants module, declared in one order that
      all label sets of this module follow (see `Rank`). */
  datatype LabelKey =
    | CommitKey | VersionKey | BranchKey
    | FunctionKey | ModuleKey | ServiceNameKey | CallerFunctionKey | CallerModuleKey
    | ResultKey | OkKey | ErrorKey
    | ObjectiveNameKey | ObjectivePercentileKey | ObjectiveLatencyThresholdKey
    | RepoUrlKey | RepoProviderKey | AutometricsVersionKey

  /** The position of a key in the declaration order above. The build-info,
      counter, histogram and gauge label sets each list their keys in an
      order consistent with it. */
  function Rank(k: LabelKey): nat {
    match k
    case CommitKey => 0
    case VersionKey => 1
    case BranchKey => 2
    case FunctionKey => 3
    case ModuleKey => 4
    case ServiceNameKey => 5
    case CallerFunctionKey => 6
    case CallerModuleKey => 7
    case ResultKey => 8
    case OkKey => 9
    case ErrorKey => 10
    case ObjectiveNameKey => 11
    case ObjectivePercentileKey => 12
    case ObjectiveLatencyThresholdKey => 13
    case RepoUrlKey => 14
    case RepoProviderKey => 15
    case AutometricsVersionKey => 16
  }

  /** The text of a label key. */
  function KeyName(k: LabelKey): string {
    match k
    case FunctionKey => "function"
    case ModuleKey => "module"
    case CallerFunctionKey => "caller.function"
    case CallerModuleKey => "caller.module"
    case ResultKey => "result"
    case OkKey => OkValue
    case ErrorKey => ErrorValue
    case ObjectiveNameKey => "objective.name"
    case ObjectivePercentileKey => "objective.percentile"
    case ObjectiveLatencyThresholdKey => "objective.latency.threshold"
    case VersionKey => "version"
    case CommitKey => "commit"
    case BranchKey => "branch"
    case ServiceNameKey => "service.name"
    case RepoUrlKey => "repository.url"
    case RepoProviderKey => "repository.provider"
    case AutometricsVersionKey => "autometrics.version"
  }

  /** "ok" and "error" are used both as keys and as values of `result`. */
  const OkValue := "ok"
  const ErrorValue := "error"

  /** A label is a (key, value) pair. */
  type Label = (LabelKey, string)

  /** The version of the autometrics specification the labels follow. */
  const AutometricsVersion := "1.0.0"

  // ---------------------------------------------------------------------
  // Label lists: lookup, key order

  function Keys(ls: seq<Label>): (r: seq<LabelKey>)
    ensures |r| == |ls| && forall i :: 0 <= i < |ls| ==> r[i] == ls[i].0
  {
    if ls == [] then [] else [ls[0].0] + Keys(ls[1..])
  }

  /** The value of the first label with key `k`, if any. */
  function Lookup(ls: seq<Label>, k: LabelKey): Option<string> {
    if ls == [] then None
    else if ls[0].0 == k then Some(ls[0].1)
    else Lookup(ls[1..], k)
  }

  /** The keys of `ls` strictly increase in rank: each key appears at most
      once, and in the canonical order. */
  predicate Ordered(ls: seq<Label>) {
    forall i, j :: 0 <= i < j < |ls| ==> Rank(ls[i].0) < Rank(ls[j].0)
  }

  /** Labels whose neighbours are in order are in order throughout. */
  lemma {:induction false} OrderedByNeighbours(ls: seq<Label>)
    requires forall i :: 0 <= i < |ls| - 1 ==> Rank(ls[i].0) < Rank(ls[i + 1].0)
    ensures Ordered(ls)
  {
    if |ls| > 1 {
      var rest := ls[1..];
      forall i | 0 <= i < |rest| - 1 ensures Rank(rest[i].0) < Rank(rest[i + 1].0) {
        assert rest[i] == ls[i + 1] && rest[i + 1] == ls[i + 2];
      }
      OrderedByNeighbours(rest);
      forall i, j | 0 <= i < j < |ls| ensures Rank(ls[i].0) < Rank(ls[j].0) {
        if 0 < i {
          assert ls[i] == rest[i - 1] && ls[j] == rest[j - 1];
        } else if 1 < j {
          assert ls[1] == rest[0] && ls[j] == rest[j - 1];
        }
      }
    }
  }

  /** Every key of `ls` ranks below `k`. */
  predicate Below(ls: seq<Label>, k: LabelKey) {
    forall i :: 0 <= i < |ls| ==> Rank(ls[i].0) < Rank(k)
  }

  /** `Vec::push` of an optional label: the list grows by `(k, v)` when
      `value` is `Some(v)` and is unchanged otherwise. */
  function Push(ls: seq<Label>, k: LabelKey, value: Option<string>): seq<Label> {
    if value.Some? then ls + [(k, value.value)] else ls
  }

  /** Pushing a key that ranks above every key so far keeps the list
      ordered, and afterwards no key ranks above it. */
  lemma OrderedPush(ls: seq<Label>, k: LabelKey, value: Option<string>)
    requires Ordered(ls) && Below(ls, k)
    ensures Ordered(Push(ls, k, value))
    ensures forall i :: 0 <= i < |Push(ls, k, value)| ==> Rank(Push(ls, k, value)[i].0) <= Rank(k)
  {
  }

  /** Looking up in a concatenation looks in the first part first. */
  lemma {:induction false} LookupAppend(a: seq<Label>, b: seq<Label>, k: LabelKey)
    ensures Lookup(a + b, k) == if Lookup(a, k).Some? then Lookup(a, k) else Lookup(b, k)
  {
    if a != [] {
      assert (a + b)[1..] == a[1..] + b;
      LookupAppend(a[1..], b, k);
    } else {
      assert a + b == b;
    }
  }

  /** A key that no label carries is not found. */
  lemma {:induction false} LookupAbsent(ls: seq<Label>, k: LabelKey)
    requires forall i :: 0 <= i < |ls| ==> ls[i].0 != k
    ensures Lookup(ls, k).None?
  {
    if ls != [] {
      assert forall i :: 0 <= i < |ls[1..]| ==> ls[1..][i] == ls[i + 1];
      LookupAbsent(ls[1..], k);
    }
  }

  /** A push is invisible to lookups of other keys, and a lookup of the
      pushed key, when no earlier label has it, finds the pushed value. */
  lemma LookupPush(ls: seq<Label>, k: LabelKey, value: Option<string>)
    ensures forall key :: key != k ==> Lookup(Push(ls, k, value), key) == Lookup(ls, key)
    ensures Below(ls, k) ==> Lookup(Push(ls, k, value), k) == value
  {
    if value.Some? {
      forall key | key != k
        ensures Lookup(Push(ls, k, value), key) == Lookup(ls, key)
      {
        LookupAppend(ls, [(k, value.value)], key);
      }
      LookupAppend(ls, [(k, value.value)], k);
    }
    if Below(ls, k) {
      LookupAbsent(ls, k);
    }
  }

  /** A push is invisible to the lookup of another key. */
  lemma LookupPushOther(ls: seq<Label>, k: LabelKey, value: Option<string>, key: LabelKey)
    requires key != k
    ensures Lookup(Push(ls, k, value), key) == Lookup(ls, key)
  {
    if value.Some? {
      LookupAppend(ls, [(k, value.value)], key);
    }
  }

  /** Pushing a key that ranks above every key so far: the lookup of that
      key finds the pushed value, and every key still ranks below `above`
      when `k` does. */
  lemma LookupPushSame(ls: seq<Label>, k: LabelKey, value: Option<string>, above: LabelKey)
    requires Below(ls, k)
    ensures Lookup(Push(ls, k, value), k) == value
    ensures Below(ls, above) && Rank(k) < Rank(above) ==> Below(Push(ls, k, value), above)
  {
    LookupAbsent(ls, k);
    if value.Some? {
      LookupAppend(ls, [(k, value.value)], k);
    }
  }

  /** In an ordered list every label is found by its own key. */
  lemma {:induction false} LookupOrdered(ls: seq<Label>)
    requires Ordered(ls)
    ensures forall i :: 0 <= i < |ls| ==> Lookup(ls, ls[i].0) == Some(ls[i].1)
  {
    if ls != [] {
      LookupOrdered(ls[1..]);
      forall i | 0 < i < |ls|
        ensures Lookup(ls, ls[i].0) == Some(ls[i].1)
      {
        assert ls[1..][i - 1] == ls[i];
      }
    }
  }

  // ---------------------------------------------------------------------
  // ResultLabel

  /** The value of the `result` label. */
  datatype ResultLabel = LabelOk | LabelError

  /** `ResultLabel::as_str`. */
  function ResultLabelAsStr(r: ResultLabel): (s: string)
    ensures s == OkValue || s == ErrorValue
  {
    match r
    case LabelOk => OkValue
    case LabelError => ErrorValue
  }

  /** The reading of a `result` label value. */
  function ResultLabelFromStr(s: string): (r: Option<ResultLabel>)
    ensures r.None? <==> s != OkValue && s != ErrorValue
  {
    if s == OkValue then Some(LabelOk)
    else if s == ErrorValue then Some(LabelError)
    else None
  }

  /** `ResultLabel::as_str` maps Ok to "ok" and Error to "error", so reading
      it back recovers the variant. */
  lemma ResultLabelRoundTrip(r: ResultLabel)
    ensures ResultLabelFromStr(ResultLabelAsStr(r)) == Some(r)
    ensures ResultLabelAsStr(LabelOk) == "ok" && ResultLabelAsStr(LabelError) == "error"
  {
  }

  function OptResultStr(r: Option<ResultLabel>): Option<string> {
    if r.Some? then Some(ResultLabelAsStr(r.value)) else None
  }

  function OptPercentileStr(p: Option<ObjectivePercentile>): Option<string> {
    if p.Some? then Some(PercentileAsStr(p.value)) else None
  }

  function OptLatencyStr(l: Option<ObjectiveLatency>): Option<string> {
    if l.Some? then Some(LatencyAsStr(l.value)) else None
  }

  // ---------------------------------------------------------------------
  // BuildInfoLabels

  datatype BuildInfoLabels = BuildInfoLabels(
    branch: string,
    commit: string,
    version: string,
    serviceName: string,
    repoUrl: string,
    repoProvider: string,
    autometricsVersion: string)

  /** `determinate_repo_provider_from_url`: the hosting provider named in
      the URL, compared without regard to case. */
  function RepoProviderFromUrl(url: string): (r: string)
    ensures r in {"github", "gitlab", "bitbucket", ""}
    ensures r == "github" <==> Contains(Lower(url), "github.com")
    ensures r == "gitlab" <==> !Contains(Lower(url), "github.com") && Contains(Lower(url), "gitlab.com")
    ensures r == "bitbucket" <==>
      !Contains(Lower(url), "github.com") && !Contains(Lower(url), "gitlab.com") && Contains(Lower(url), "bitbucket.org")
  {
    var lowered := Lower(url);
    if Contains(lowered, "github.com") then "github"
    else if Contains(lowered, "gitlab.com") then "gitlab"
    else if Contains(lowered, "bitbucket.org") then "bitbucket"
    else ""
  }

  /** Lower-casing distributes over concatenation. */
  lemma {:induction false} LowerAppend(a: string, b: string)
    ensures Lower(a + b) == Lower(a) + Lower(b)
  {
    if a != [] {
      assert (a + b)[1..] == a[1..] + b;
      LowerAppend(a[1..], b);
    } else {
      assert a + b == b;
    }
  }

  /** The case of ASCII letters does not matter to the provider inference. */
  lemma RepoProviderIgnoresCase(url: string)
    ensures RepoProviderFromUrl(Upper(url)) == RepoProviderFromUrl(url)
  {
    LowerOfUpper(url);
  }

  /** A URL that mentions a GitHub host in any case (e.g. "GitHub.com")
      is a GitHub URL, whatever else it contains. */
  lemma RepoProviderGithub(a: string, host: string, b: string)
    requires Lower(host) == "github.com"
    ensures RepoProviderFromUrl(a + host + b) == "github"
  {
    LowerAppend(a + host, b);
    LowerAppend(a, host);
    ContainsInfix(Lower(a), "github.com", Lower(b));
  }

  /** `BuildInfoLabels::new`: the given provider is kept unless it is empty,
      in which case it is inferred from the repository URL. */
  function NewBuildInfoLabels(version: string, commit: string, branch: string, serviceName: string,
                              repoUrl: string, repoProvider: string): (r: BuildInfoLabels)
    ensures r.version == version && r.commit == commit && r.branch == branch
    ensures r.serviceName == serviceName && r.repoUrl == repoUrl
    ensures repoProvider != "" ==> r.repoProvider == repoProvider
    ensures repoProvider == "" ==> r.repoProvider == RepoProviderFromUrl(repoUrl)
    ensures r.autometricsVersion == "1.0.0"
  {
    var provider := if repoProvider == "" then RepoProviderFromUrl(repoUrl) else repoProvider;
    BuildInfoLabels(branch, commit, version, serviceName, repoUrl, provider, AutometricsVersion)
  }

  const BuildInfoKeyOrder: seq<LabelKey> :=
    [CommitKey, VersionKey, BranchKey, ServiceNameKey, RepoUrlKey, RepoProviderKey, AutometricsVersionKey]

  /** `BuildInfoLabels::to_vec`. */
  function BuildInfoToVec(b: BuildInfoLabels): (r: seq<Label>)
  {
    [(CommitKey, b.commit), (VersionKey, b.version), (BranchKey, b.branch),
     (ServiceNameKey, b.serviceName), (RepoUrlKey, b.repoUrl),
     (RepoProviderKey, b.repoProvider), (AutometricsVersionKey, b.autometricsVersion)]
  }

  /** The build-info vector has exactly seven labels, one per key in the
      fixed order. */
  lemma BuildInfoToVecOrder(b: BuildInfoLabels)
    ensures var v := BuildInfoToVec(b);
      Keys(v) == BuildInfoKeyOrder && Ordered(v)
  {
    var v := BuildInfoToVec(b);
    var ks := Keys(v);
    assert ks[0] == CommitKey && ks[1] == VersionKey && ks[2] == BranchKey && ks[3] == ServiceNameKey;
    assert ks[4] == RepoUrlKey && ks[5] == RepoProviderKey && ks[6] == AutometricsVersionKey;
    assert ks == BuildInfoKeyOrder;
    OrderedByNeighbours(v);
  }

  /** Each build-info key finds its field again (so the specification
      version of a value built by `NewBuildInfoLabels` reads "1.0.0"). */
  lemma BuildInfoToVecLookup(b: BuildInfoLabels)
    ensures var v := BuildInfoToVec(b);
      Lookup(v, CommitKey) == Some(b.commit) && Lookup(v, VersionKey) == Some(b.version) &&
      Lookup(v, BranchKey) == Some(b.branch) && Lookup(v, ServiceNameKey) == Some(b.serviceName) &&
      Lookup(v, RepoUrlKey) == Some(b.repoUrl) && Lookup(v, RepoProviderKey) == Some(b.repoProvider) &&
      Lookup(v, AutometricsVersionKey) == Some(b.autometricsVersion)
  {
    var v := BuildInfoToVec(b);
    assert Ordered(v);
    LookupOrdered(v);
    assert v[0].0 == CommitKey && v[1].0 == VersionKey && v[2].0 == BranchKey && v[3].0 == ServiceNameKey;
    assert v[4].0 == RepoUrlKey && v[5].0 == RepoProviderKey && v[6].0 == AutometricsVersionKey;
  }

  // ---------------------------------------------------------------------
  // CounterLabels

  datatype CounterLabels = CounterLabels(
    functionName: string,
    moduleName: string,
    serviceName: string,
    callerFunction: string,
    callerModule: string,
    result: Option<ResultLabel>,
    ok: Option<string>,
    error: Option<string>,
    objectiveName: Option<string>,
    objectivePercentile: Option<ObjectivePercentile>)

  /** The result key chosen for a call and the static name of the returned
      value's variant, if it has one (`ResultAndReturnTypeLabels`). */
  type ResultAndReturnTypeLabels = (string, Option<string>)

  /** `CounterLabels::new`. */
  function NewCounterLabels(functionName: string, moduleName: string, serviceName: string,
                            callerFunction: string, callerModule: string,
                            result: Option<ResultAndReturnTypeLabels>,
                            objective: Option<Objective>): (r: CounterLabels)
    ensures r.functionName == functionName && r.moduleName == moduleName && r.serviceName == serviceName
    ensures r.callerFunction == callerFunction && r.callerModule == callerModule
    // the objective labels are set together, and only for a success-rate objective
    ensures r.objectiveName.Some? <==> objective.Some? && objective.value.successRate.Some?
    ensures r.objectivePercentile.Some? <==> r.objectiveName.Some?
    ensures r.objectiveName.Some? ==>
      r.objectiveName.value == objective.value.name &&
      r.objectivePercentile.value == objective.value.successRate.value
    // the result key decides between the ok and the error label
    ensures r.result == Some(LabelOk) <==> result.Some? && result.value.0 == OkValue
    ensures r.result == Some(LabelError) <==> result.Some? && result.value.0 == ErrorValue
    ensures r.result == Some(LabelOk) ==> r.ok == result.value.1 && r.error.None?
    ensures r.result == Some(LabelError) ==> r.error == result.value.1 && r.ok.None?
    ensures r.result.None? ==> r.ok.None? && r.error.None?
  {
    var (objectiveName, objectivePercentile) :=
      if objective.Some? && objective.value.successRate.Some?
      then (Some(objective.value.name), Some(objective.value.successRate.value))
      else (None, None);
    var (res, ok, error) :=
      if result.None? then (None, None, None)
      else if result.value.0 == OkValue then (Some(LabelOk), result.value.1, None)
      else if result.value.0 == ErrorValue then (Some(LabelError), None, result.value.1)
      else (None, None, None);
    CounterLabels(functionName, moduleName, serviceName, callerFunction, callerModule,
                  res, ok, error, objectiveName, objectivePercentile)
  }

  /** The counter never carries both an `ok` and an `error` label. */
  lemma CounterOkErrorExclusive(functionName: string, moduleName: string, serviceName: string,
                                callerFunction: string, callerModule: string,
                                result: Option<ResultAndReturnTypeLabels>, objective: Option<Objective>)
    ensures var c := NewCounterLabels(functionName, moduleName, serviceName, callerFunction, callerModule, result, objective);
      !(c.ok.Some? && c.error.Some?)
  {
  }

  /** The five labels every counter series carries. */
  function CounterFixedLabels(c: CounterLabels): seq<Label> {
    [(FunctionKey, c.functionName), (ModuleKey, c.moduleName), (ServiceNameKey, c.serviceName),
     (CallerFunctionKey, c.callerFunction), (CallerModuleKey, c.callerModule)]
  }

  /** The optional part of `CounterLabels::to_vec`: push result, ok, error,
      objective.name and objective.percentile, each only when present. */
  function PushCounterOptionals(ls: seq<Label>, result: Option<string>, ok: Option<string>, error: Option<string>,
                                objectiveName: Option<string>, objectivePercentile: Option<string>): seq<Label> {
    var v1 := Push(ls, ResultKey, result);
    var v2 := Push(v1, OkKey, ok);
    var v3 := Push(v2, ErrorKey, error);
    var v4 := Push(v3, ObjectiveNameKey, objectiveName);
    Push(v4, ObjectivePercentileKey, objectivePercentile)
  }

  /** The labels `CounterLabels::to_vec` produces: the five fixed labels,
      then each optional label that is present, in declaration order. */
  function CounterLabelsVec(c: CounterLabels): seq<Label> {
    PushCounterOptionals(CounterFixedLabels(c), OptResultStr(c.result), c.ok, c.error,
                         c.objectiveName, OptPercentileStr(c.objectivePercentile))
  }

  /** `CounterLabels::to_vec`: start from the five fixed labels and push the
      optional ones that are present. */
  method CounterToVec(c: CounterLabels) returns (labels: seq<Label>)
    ensures labels == CounterLabelsVec(c)
  {
    labels := [(FunctionKey, c.functionName), (ModuleKey, c.moduleName), (ServiceNameKey, c.serviceName),
               (CallerFunctionKey, c.callerFunction), (CallerModuleKey, c.callerModule)];
    if c.result.Some? {
      labels := labels + [(ResultKey, ResultLabelAsStr(c.result.value))];
    }
    if c.ok.Some? {
      labels := labels + [(OkKey, c.ok.value)];
    }
    if c.error.Some? {
      labels := labels + [(ErrorKey, c.error.value)];
    }
    if c.objectiveName.Some? {
      labels := labels + [(ObjectiveNameKey, c.objectiveName.value)];
    }
    if c.objectivePercentile.Some? {
      labels := labels + [(ObjectivePercentileKey, PercentileAsStr(c.objectivePercentile.value))];
    }
  }

  /** Pushing the optional counter labels after keys that rank below
      `result` keeps the list ordered, and no key ends up above
      objective.percentile. */
  lemma OrderedCounterOptionals(ls: seq<Label>, result: Option<string>, ok: Option<string>, error: Option<string>,
                                objectiveName: Option<string>, objectivePercentile: Option<string>)
    requires Ordered(ls) && Below(ls, ResultKey)
    ensures var v := PushCounterOptionals(ls, result, ok, error, objectiveName, objectivePercentile);
      Ordered(v) && forall i :: 0 <= i < |v| ==> Rank(v[i].0) <= Rank(ObjectivePercentileKey)
  {
    var v1 := Push(ls, ResultKey, result);
    var v2 := Push(v1, OkKey, ok);
    var v3 := Push(v2, ErrorKey, error);
    var v4 := Push(v3, ObjectiveNameKey, objectiveName);
    OrderedPush(ls, ResultKey, result);
    OrderedPush(v1, OkKey, ok);
    OrderedPush(v2, ErrorKey, error);
    OrderedPush(v3, ObjectiveNameKey, objectiveName);
    OrderedPush(v4, ObjectivePercentileKey, objectivePercentile);
  }

  /** Pushing the optional labels keeps the labels already there and adds
      at most five. */
  lemma CounterOptionalsExtend(ls: seq<Label>, result: Option<string>, ok: Option<string>, error: Option<string>,
                               objectiveName: Option<string>, objectivePercentile: Option<string>)
    ensures var v := PushCounterOptionals(ls, result, ok, error, objectiveName, objectivePercentile);
      |ls| <= |v| <= |ls| + 5 && forall i :: 0 <= i < |ls| ==> v[i] == ls[i]
  {
  }

  /** After the optional labels are pushed onto keys ranked below `result`,
      each optional key is found with exactly the pushed value. */
  lemma LookupCounterOptionals(ls: seq<Label>, result: Option<string>, ok: Option<string>, error: Option<string>,
                               objectiveName: Option<string>, objectivePercentile: Option<string>)
    requires Below(ls, ResultKey)
    ensures var v := PushCounterOptionals(ls, result, ok, error, objectiveName, objectivePercentile);
      Lookup(v, ResultKey) == result && Lookup(v, OkKey) == ok && Lookup(v, ErrorKey) == error &&
      Lookup(v, ObjectiveNameKey) == objectiveName && Lookup(v, ObjectivePercentileKey) == objectivePercentile
  {
    var v1 := Push(ls, ResultKey, result);
    var v2 := Push(v1, OkKey, ok);
    var v3 := Push(v2, ErrorKey, error);
    var v4 := Push(v3, ObjectiveNameKey, objectiveName);
    LookupPush(ls, ResultKey, result);
    LookupPush(v1, OkKey, ok);
    LookupPush(v2, ErrorKey, error);
    LookupPush(v3, ObjectiveNameKey, objectiveName);
    LookupPush(v4, ObjectivePercentileKey, objectivePercentile);
  }

  /** Pushing the optional labels does not change the lookup of any key
      ranked below `result`. */
  lemma LookupBelowCounterOptionals(ls: seq<Label>, result: Option<string>, ok: Option<string>, error: Option<string>,
                                    objectiveName: Option<string>, objectivePercentile: Option<string>, k: LabelKey)
    requires Rank(k) < Rank(ResultKey)
    ensures Lookup(PushCounterOptionals(ls, result, ok, error, objectiveName, objectivePercentile), k) == Lookup(ls, k)
  {
    var v1 := Push(ls, ResultKey, result);
    var v2 := Push(v1, OkKey, ok);
    var v3 := Push(v2, ErrorKey, error);
    var v4 := Push(v3, ObjectiveNameKey, objectiveName);
    LookupPush(ls, ResultKey, result);
    LookupPush(v1, OkKey, ok);
    LookupPush(v2, ErrorKey, error);
    LookupPush(v3, ObjectiveNameKey, objectiveName);
    LookupPush(v4, ObjectivePercentileKey, objectivePercentile);
  }

  /** The counter's keys are those ranked from function to
      objective.percentile. */
  predicate IsCounterKey(k: LabelKey) {
    Rank(FunctionKey) <= Rank(k) <= Rank(ObjectivePercentileKey)
  }

  /** The counter vector starts with function, module, service.name,
      caller.function and caller.module and has between 5 and 10 labels. */
  lemma CounterLabelsVecPrefix(c: CounterLabels)
    ensures var v := CounterLabelsVec(c);
      5 <= |v| <= 10 && v[..5] == CounterFixedLabels(c)
  {
    var f := CounterFixedLabels(c);
    CounterOptionalsExtend(f, OptResultStr(c.result), c.ok, c.error, c.objectiveName, OptPercentileStr(c.objectivePercentile));
    assert CounterLabelsVec(c)[..5] == f;
  }

  /** The counter vector uses only counter keys, and its keys follow the
      declaration order (so each appears at most once). */
  lemma CounterLabelsVecOrder(c: CounterLabels)
    ensures var v := CounterLabelsVec(c);
      (forall i :: 0 <= i < |v| ==> IsCounterKey(v[i].0)) && Ordered(v)
  {
    var f := CounterFixedLabels(c);
    assert Ordered(f);
    OrderedCounterOptionals(f, OptResultStr(c.result), c.ok, c.error, c.objectiveName, OptPercentileStr(c.objectivePercentile));
    CounterOptionalsExtend(f, OptResultStr(c.result), c.ok, c.error, c.objectiveName, OptPercentileStr(c.objectivePercentile));
    assert CounterLabelsVec(c)[0].0 == FunctionKey;
  }

  /** Every field of the counter labels can be read back from the vector by
      its key; an absent optional field has no label at all. */
  lemma CounterLabelsVecLookup(c: CounterLabels)
    ensures var v := CounterLabelsVec(c);
      Lookup(v, FunctionKey) == Some(c.functionName) &&
      Lookup(v, ModuleKey) == Some(c.moduleName) &&
      Lookup(v, ServiceNameKey) == Some(c.serviceName) &&
      Lookup(v, CallerFunctionKey) == Some(c.callerFunction) &&
      Lookup(v, CallerModuleKey) == Some(c.callerModule) &&
      Lookup(v, ResultKey) == OptResultStr(c.result) &&
      Lookup(v, OkKey) == c.ok &&
      Lookup(v, ErrorKey) == c.error &&
      Lookup(v, ObjectiveNameKey) == c.objectiveName &&
      Lookup(v, ObjectivePercentileKey) == OptPercentileStr(c.objectivePercentile)
  {
    PushedCounterLookup(c.functionName, c.moduleName, c.serviceName, c.callerFunction, c.callerModule,
                        OptResultStr(c.result), c.ok, c.error, c.objectiveName, OptPercentileStr(c.objectivePercentile));
  }

  /** The lookups of the counter vector, for any rendered result and
      percentile. */
  lemma PushedCounterLookup(fn: string, m: string, sn: string, cf: string, cm: string, r: Option<string>,
                            ok: Option<string>, error: Option<string>, name: Option<string>, p: Option<string>)
    ensures var v := PushCounterOptionals([(FunctionKey, fn), (ModuleKey, m), (ServiceNameKey, sn),
                                           (CallerFunctionKey, cf), (CallerModuleKey, cm)], r, ok, error, name, p);
      Lookup(v, FunctionKey) == Some(fn) && Lookup(v, ModuleKey) == Some(m) &&
      Lookup(v, ServiceNameKey) == Some(sn) && Lookup(v, CallerFunctionKey) == Some(cf) &&
      Lookup(v, CallerModuleKey) == Some(cm) && Lookup(v, ResultKey) == r && Lookup(v, OkKey) == ok &&
      Lookup(v, ErrorKey) == error && Lookup(v, ObjectiveNameKey) == name && Lookup(v, ObjectivePercentileKey) == p
  {
    var f := [(FunctionKey, fn), (ModuleKey, m), (ServiceNameKey, sn), (CallerFunctionKey, cf), (CallerModuleKey, cm)];
    OrderedByNeighbours(f);
    LookupOrdered(f);
    assert f[0].0 == FunctionKey && f[1].0 == ModuleKey && f[2].0 == ServiceNameKey;
    assert f[3].0 == CallerFunctionKey && f[4].0 == CallerModuleKey;
    LookupCounterOptionals(f, r, ok, error, name, p);
    LookupBelowCounterOptionals(f, r, ok, error, name, p, FunctionKey);
    LookupBelowCounterOptionals(f, r, ok, error, name, p, ModuleKey);
    LookupBelowCounterOptionals(f, r, ok, error, name, p, ServiceNameKey);
    LookupBelowCounterOptionals(f, r, ok, error, name, p, CallerFunctionKey);
    LookupBelowCounterOptionals(f, r, ok, error, name, p, CallerModuleKey);
  }

  // ---------------------------------------------------------------------
  // HistogramLabels

  datatype HistogramLabels = HistogramLabels(
    functionName: string,
    moduleName: string,
    serviceName: string,
    objectiveName: Option<string>,
    objectivePercentile: Option<ObjectivePercentile>,
    objectiveLatencyThreshold: Option<ObjectiveLatency>)

  /** `HistogramLabels::new`: the three objective labels are set together,
      and only for an objective with a latency target. */
  function NewHistogramLabels(functionName: string, moduleName: string, serviceName: string,
                              objective: Option<Objective>): (r: HistogramLabels)
    ensures r.functionName == functionName && r.moduleName == moduleName && r.serviceName == serviceName
    ensures r.objectiveName.Some? <==> objective.Some? && objective.value.latency.Some?
    ensures r.objectivePercentile.Some? <==> r.objectiveName.Some?
    ensures r.objectiveLatencyThreshold.Some? <==> r.objectiveName.Some?
    ensures r.objectiveName.Some? ==>
      r.objectiveName.value == objective.value.name &&
      r.objectiveLatencyThreshold.value == objective.value.latency.value.0 &&
      r.objectivePercentile.value == objective.value.latency.value.1
  {
    if objective.Some? && objective.value.latency.Some? then
      var (latency, percentile) := objective.value.latency.value;
      HistogramLabels(functionName, moduleName, serviceName, Some(objective.value.name), Some(percentile), Some(latency))
    else
      HistogramLabels(functionName, moduleName, serviceName, None, None, None)
  }

  /** The labels `HistogramLabels::to_vec` produces: function, module and
      service name, then the present objective labels. */
  function HistogramLabelsVec(h: HistogramLabels): seq<Label> {
    var v0 := [(FunctionKey, h.functionName), (ModuleKey, h.moduleName), (ServiceNameKey, h.serviceName)];
    var v1 := Push(v0, ObjectiveNameKey, h.objectiveName);
    var v2 := Push(v1, ObjectivePercentileKey, OptPercentileStr(h.objectivePercentile));
    Push(v2, ObjectiveLatencyThresholdKey, OptLatencyStr(h.objectiveLatencyThreshold))
  }

  /** `HistogramLabels::to_vec`: three fixed labels, then the present
      objective labels. */
  method HistogramToVec(h: HistogramLabels) returns (labels: seq<Label>)
    ensures labels == HistogramLabelsVec(h)
  {
    labels := [(FunctionKey, h.functionName), (ModuleKey, h.moduleName), (ServiceNameKey, h.serviceName)];
    if h.objectiveName.Some? {
      labels := labels + [(ObjectiveNameKey, h.objectiveName.value)];
    }
    if h.objectivePercentile.Some? {
      labels := labels + [(ObjectivePercentileKey, PercentileAsStr(h.objectivePercentile.value))];
    }
    if h.objectiveLatencyThreshold.Some? {
      labels := labels + [(ObjectiveLatencyThresholdKey, LatencyAsStr(h.objectiveLatencyThreshold.value))];
    }
  }

  /** A histogram built by `new` has either 3 labels, or 6 when the
      objective has a latency target, in declaration order; it never
      carries a result, ok, error or caller label; and its threshold and
      percentile labels render the objective's latency target. */
  lemma HistogramLabelsVecShape(functionName: string, moduleName: string, serviceName: string, objective: Option<Objective>)
    ensures var v := HistogramLabelsVec(NewHistogramLabels(functionName, moduleName, serviceName, objective));
      (|v| == 3 || |v| == 6) &&
      (|v| == 6 <==> objective.Some? && objective.value.latency.Some?) &&
      Ordered(v) &&
      (forall i :: 0 <= i < |v| ==>
        v[i].0 !in {ResultKey, OkKey, ErrorKey, CallerFunctionKey, CallerModuleKey}) &&
      (|v| == 6 ==>
        v[5] == (ObjectiveLatencyThresholdKey, LatencyAsStr(objective.value.latency.value.0)) &&
        v[4] == (ObjectivePercentileKey, PercentileAsStr(objective.value.latency.value.1)) &&
        v[3] == (ObjectiveNameKey, objective.value.name))
  {
    var h := NewHistogramLabels(functionName, moduleName, serviceName, objective);
    PushedHistogramShape(functionName, moduleName, serviceName, h.objectiveName,
                         OptPercentileStr(h.objectivePercentile), OptLatencyStr(h.objectiveLatencyThreshold));
  }

  /** The shape of the histogram vector, for any rendered objective values
      that are present together. */
  lemma PushedHistogramShape(f: string, m: string, sn: string, name: Option<string>, p: Option<string>, t: Option<string>)
    requires p.Some? == name.Some? && t.Some? == name.Some?
    ensures var v0 := [(FunctionKey, f), (ModuleKey, m), (ServiceNameKey, sn)];
      var v := Push(Push(Push(v0, ObjectiveNameKey, name), ObjectivePercentileKey, p), ObjectiveLatencyThresholdKey, t);
      (|v| == 3 || |v| == 6) && (|v| == 6 <==> name.Some?) && Ordered(v) &&
      (forall i :: 0 <= i < |v| ==> v[i].0 !in {ResultKey, OkKey, ErrorKey, CallerFunctionKey, CallerModuleKey}) &&
      (|v| == 6 ==> v[3] == (ObjectiveNameKey, name.value) && v[4] == (ObjectivePercentileKey, p.value) &&
                    v[5] == (ObjectiveLatencyThresholdKey, t.value))
  {
    var v0 := [(FunctionKey, f), (ModuleKey, m), (ServiceNameKey, sn)];
    var v := Push(Push(Push(v0, ObjectiveNameKey, name), ObjectivePercentileKey, p), ObjectiveLatencyThresholdKey, t);
    assert forall i :: 0 <= i < |v| ==> v[i].0 in {FunctionKey, ModuleKey, ServiceNameKey, ObjectiveNameKey,
                                                    ObjectivePercentileKey, ObjectiveLatencyThresholdKey};
  }

  /** Every field of the histogram labels can be read back from the vector
      by its key; an absent objective field has no label at all. */
  lemma HistogramLabelsVecLookup(h: HistogramLabels)
    ensures var v := HistogramLabelsVec(h);
      Lookup(v, FunctionKey) == Some(h.functionName) &&
      Lookup(v, ModuleKey) == Some(h.moduleName) &&
      Lookup(v, ServiceNameKey) == Some(h.serviceName) &&
      Lookup(v, ObjectiveNameKey) == h.objectiveName &&
      Lookup(v, ObjectivePercentileKey) == OptPercentileStr(h.objectivePercentile) &&
      Lookup(v, ObjectiveLatencyThresholdKey) == OptLatencyStr(h.objectiveLatencyThreshold)
  {
    PushedHistogramLookup(h.functionName, h.moduleName, h.serviceName, h.objectiveName,
                          OptPercentileStr(h.objectivePercentile), OptLatencyStr(h.objectiveLatencyThreshold));
  }

  /** The lookups of the histogram vector, for any rendered objective
      values. */
  lemma PushedHistogramLookup(f: string, m: string, sn: string, name: Option<string>, p: Option<string>, t: Option<string>)
    ensures var v0 := [(FunctionKey, f), (ModuleKey, m), (ServiceNameKey, sn)];
      var v := Push(Push(Push(v0, ObjectiveNameKey, name), ObjectivePercentileKey, p), ObjectiveLatencyThresholdKey, t);
      Lookup(v, FunctionKey) == Some(f) && Lookup(v, ModuleKey) == Some(m) && Lookup(v, ServiceNameKey) == Some(sn) &&
      Lookup(v, ObjectiveNameKey) == name && Lookup(v, ObjectivePercentileKey) == p &&
      Lookup(v, ObjectiveLatencyThresholdKey) == t
  {
    var v0 := [(FunctionKey, f), (ModuleKey, m), (ServiceNameKey, sn)];
    var v1 := Push(v0, ObjectiveNameKey, name);
    var v2 := Push(v1, ObjectivePercentileKey, p);
    assert Ordered(v0);
    LookupOrdered(v0);
    assert v0[0].0 == FunctionKey && v0[1].0 == ModuleKey && v0[2].0 == ServiceNameKey;
    HistogramFixedLookup(v0, name, p, t, FunctionKey);
    HistogramFixedLookup(v0, name, p, t, ModuleKey);
    HistogramFixedLookup(v0, name, p, t, ServiceNameKey);
    LookupPushSame(v0, ObjectiveNameKey, name, ObjectivePercentileKey);
    LookupPushOther(v1, ObjectivePercentileKey, p, ObjectiveNameKey);
    LookupPushOther(v2, ObjectiveLatencyThresholdKey, t, ObjectiveNameKey);
    LookupPushSame(v1, ObjectivePercentileKey, p, ObjectiveLatencyThresholdKey);
    LookupPushOther(v2, ObjectiveLatencyThresholdKey, t, ObjectivePercentileKey);
    LookupPushSame(v2, ObjectiveLatencyThresholdKey, t, ObjectiveLatencyThresholdKey);
  }

  /** The objective pushes leave the lookup of a fixed key unchanged. */
  lemma HistogramFixedLookup(v0: seq<Label>, name: Option<string>, p: Option<string>, t: Option<string>, key: LabelKey)
    requires Rank(key) < Rank(ObjectiveNameKey)
    ensures Lookup(Push(Push(Push(v0, ObjectiveNameKey, name), ObjectivePercentileKey, p), ObjectiveLatencyThresholdKey, t), key) ==
      Lookup(v0, key)
  {
    var v1 := Push(v0, ObjectiveNameKey, name);
    var v2 := Push(v1, ObjectivePercentileKey, p);
    LookupPushOther(v2, ObjectiveLatencyThresholdKey, t, key);
    LookupPushOther(v1, ObjectivePercentileKey, p, key);
    LookupPushOther(v0, ObjectiveNameKey, name, key);
  }

  // ---------------------------------------------------------------------
  // GaugeLabels

  datatype GaugeLabels = GaugeLabels(functionName: string, moduleName: string, serviceName: string)

  /** `GaugeLabels::to_array`: exactly function, module and service name. */
  function GaugeToArray(g: GaugeLabels): (r: seq<Label>)
    ensures Keys(r) == [FunctionKey, ModuleKey, ServiceNameKey]
    ensures Lookup(r, FunctionKey) == Some(g.functionName)
    ensures Lookup(r, ModuleKey) == Some(g.moduleName)
    ensures Lookup(r, ServiceNameKey) == Some(g.serviceName)
  {
    var r := [(FunctionKey, g.functionName), (ModuleKey, g.moduleName), (ServiceNameKey, g.serviceName)];
    assert Ordered(r);
    LookupOrdered(r);
    assert r[2].0 == ServiceNameKey;
    r
  }

  // ---------------------------------------------------------------------
  // get_result_labels_for_value

  /** What the label dispatch can observe of one value: the label its
      `GetLabels` implementation returns (meaningful only when its type
      implements the trait) and the static name of its variant, if its type
      converts into one. */
  datatype Payload = Payload(override: Option<string>, staticStr: Option<string>)

  /** A returned value, described by the type facts the dispatch resolves on:
      whether it is a `Result`, and which of its types implement `GetLabels`. */
  datatype ReturnValue =
    | ResultValue(okImplementsGetLabels: bool, errImplementsGetLabels: bool, isOk: bool, inner: Payload)
    | PlainValue(implementsGetLabels: bool, payload: Payload)

  /** `get_result_labels_for_value!`: the first of the six specialisation
      arms whose bounds the value's type meets. */
  function GetResultLabelsForValue(v: ReturnValue): (r: Option<ResultAndReturnTypeLabels>)
    // a Result always yields labels; each side depends only on its own type
    ensures v.ResultValue? ==> r.Some? && r.value.1 == v.inner.staticStr
    ensures v.ResultValue? && v.isOk ==>
      r.value.0 == (if v.okImplementsGetLabels then v.inner.override.GetOr(OkValue) else OkValue)
    ensures v.ResultValue? && !v.isOk ==>
      r.value.0 == (if v.errImplementsGetLabels then v.inner.override.GetOr(ErrorValue) else ErrorValue)
    // anything else yields labels only through its own GetLabels
    ensures v.PlainValue? ==>
      (r.Some? <==> v.implementsGetLabels && v.payload.override.Some?) &&
      (r.Some? ==> r.value == (v.payload.override.value, v.payload.staticStr))
  {
    match v
    case ResultValue(okImpl, errImpl, isOk, p) =>
      if okImpl && errImpl then
        if isOk then Some((p.override.GetOr(OkValue), p.staticStr))
        else Some((p.override.GetOr(ErrorValue), p.staticStr))
      else if errImpl then
        if isOk then Some((OkValue, p.staticStr))
        else Some((p.override.GetOr(ErrorValue), p.staticStr))
      else if okImpl then
        if isOk then Some((p.override.GetOr(OkValue), p.staticStr))
        else Some((ErrorValue, p.staticStr))
      else
        if isOk then Some((OkValue, p.staticStr))
        else Some((ErrorValue, p.staticStr))
    case PlainValue(impl, p) =>
      if impl then (if p.override.Some? then Some((p.override.value, p.staticStr)) else None)
      else None
  }

  /** Without an override a Result is labelled by its variant: Ok counts as
      "ok", Err as "error", and the static name of the value goes to the ok
      or error label of the counter. */
  lemma ResultWithoutOverrideLabels(okImpl: bool, errImpl: bool, isOk: bool, staticStr: Option<string>,
                                    functionName: string, moduleName: string, serviceName: string,
                                    callerFunction: string, callerModule: string, objective: Option<Objective>)
    ensures var r := GetResultLabelsForValue(ResultValue(okImpl, errImpl, isOk, Payload(None, staticStr)));
      var c := NewCounterLabels(functionName, moduleName, serviceName, callerFunction, callerModule, r, objective);
      (isOk ==> c.result == Some(LabelOk) && c.ok == staticStr && c.error.None?) &&
      (!isOk ==> c.result == Some(LabelError) && c.error == staticStr && c.ok.None?)
  {
  }

  /** An override that names neither "ok" nor "error" leaves the counter
      without a result label at all. */
  lemma UnknownOverrideDropsResult(v: ReturnValue, functionName: string, moduleName: string, serviceName: string,
                                   callerFunction: string, callerModule: string, objective: Option<Objective>)
    requires var r := GetResultLabelsForValue(v); r.Some? && r.value.0 != OkValue && r.value.0 != ErrorValue
    ensures var c := NewCounterLabels(functionName, moduleName, serviceName, callerFunction, callerModule,
                                      GetResultLabelsForValue(v), objective);
      c.result.None? && c.ok.None? && c.error.None?
  {
  }
}
