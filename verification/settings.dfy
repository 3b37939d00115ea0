/** The global settings (autometrics/src/settings.rs): a cell that is
    either empty or holds the settings, set once by the builder's
    `try_init` or filled with the defaults by the first `get_settings`.
    The cell is modelled as a class over an optional value; what the
    process-wide `OnceCell` adds for threads is not modelled. Bucket bounds
    are exact reals. */
module Settings {
  import opened Wrappers

  datatype AutometricsSettings = AutometricsSettings(histogramBuckets: seq<real>)

  datatype AlreadyInitializedError = AlreadyInitializedError

  /** The latency buckets recommended by the OpenTelemetry specification,
      in seconds. */
  const DefaultBuckets: seq<real> :=
    [0.005, 0.01, 0.025, 0.05, 0.075, 0.1, 0.25, 0.5, 0.75, 1.0, 2.5, 5.0, 7.5, 10.0]

  /** `AutometricsSettings::default`. */
  function DefaultSettings(): AutometricsSettings {
    AutometricsSettings(DefaultBuckets)
  }

  predicate StrictlyIncreasing(s: seq<real>) {
    forall i, j :: 0 <= i < j < |s| ==> s[i] < s[j]
  }

  /** A list whose neighbours increase increases throughout. */
  lemma {:induction false} NeighboursIncreasing(s: seq<real>)
    requires forall i :: 0 <= i < |s| - 1 ==> s[i] < s[i + 1]
    ensures StrictlyIncreasing(s)
  {
    if |s| > 1 {
      var rest := s[1..];
      assert forall i :: 0 <= i < |rest| - 1 ==> rest[i] < rest[i + 1] by {
        forall i | 0 <= i < |rest| - 1 ensures rest[i] < rest[i + 1] {
          assert rest[i] == s[i + 1] && rest[i + 1] == s[i + 2];
        }
      }
      NeighboursIncreasing(rest);
      forall i, j | 0 <= i < j < |s| ensures s[i] < s[j] {
        if 0 < i {
          assert s[i] == rest[i - 1] && s[j] == rest[j - 1];
        } else if 1 < j {
          assert s[1] == rest[0] && s[j] == rest[j - 1];
        }
      }
    }
  }

  /** The default settings hold 14 buckets, from 5 ms to 10 s, in strictly
      increasing order. */
  lemma DefaultBucketsIncreasing()
    ensures |DefaultSettings().histogramBuckets| == 14
    ensures StrictlyIncreasing(DefaultSettings().histogramBuckets)
    ensures DefaultSettings().histogramBuckets[0] == 0.005 && DefaultSettings().histogramBuckets[13] == 10.0
  {
    NeighboursIncreasing(DefaultBuckets);
  }

  /** `AutometricsSettingsBuilder`: the settings to install. */
  datatype SettingsBuilder = SettingsBuilder(histogramBuckets: seq<real>)

  /** `AutometricsSettingsBuilder::new` as written: no buckets at all. */
  function NewBuilderAsWritten(): SettingsBuilder {
    SettingsBuilder([])
  }

  /** `AutometricsSettingsBuilder::new` as its documentation describes it:
      a builder whose buckets are not set installs the default buckets. */
  function NewBuilder(): SettingsBuilder {
    SettingsBuilder(DefaultBuckets)
  }

  /** `histogram_buckets`: replace the buckets. */
  function WithHistogramBuckets(b: SettingsBuilder, buckets: seq<real>): (r: SettingsBuilder)
    ensures r.histogramBuckets == buckets
  {
    b.(histogramBuckets := buckets)
  }

  /** The settings `try_init` installs from a builder. */
  function SettingsOf(b: SettingsBuilder): AutometricsSettings {
    AutometricsSettings(b.histogramBuckets)
  }

  /** A builder installs the buckets last given to it; one never given any
      installs, as written, an empty bucket list instead of the defaults its
      documentation promises. */
  lemma BuilderBuckets(b: SettingsBuilder, x: seq<real>, y: seq<real>)
    ensures SettingsOf(WithHistogramBuckets(WithHistogramBuckets(b, x), y)).histogramBuckets == y
    ensures SettingsOf(NewBuilderAsWritten()).histogramBuckets == []
    ensures SettingsOf(NewBuilderAsWritten()) != DefaultSettings()
  {
    assert DefaultSettings().histogramBuckets[0] == 0.005;
  }

  /** The corrected builder, never given buckets, installs exactly the
      default settings: 14 strictly increasing buckets; given buckets, it
      installs those. */
  lemma NewBuilderInstallsDefaults(y: seq<real>)
    ensures SettingsOf(NewBuilder()) == DefaultSettings()
    ensures |SettingsOf(NewBuilder()).histogramBuckets| == 14
    ensures StrictlyIncreasing(SettingsOf(NewBuilder()).histogramBuckets)
    ensures SettingsOf(WithHistogramBuckets(NewBuilder(), y)).histogramBuckets == y
  {
    DefaultBucketsIncreasing();
  }

  /** `get_settings` on the cell: the stored settings, after storing the
      defaults if the cell was empty. */
  function GetSettingsStep(cell: Option<AutometricsSettings>): (r: (Option<AutometricsSettings>, AutometricsSettings))
    ensures r.0 == Some(r.1)
    ensures cell.Some? ==> r.0 == cell
    ensures cell.None? ==> r.1 == DefaultSettings()
  {
    match cell
    case Some(s) => (cell, s)
    case None => (Some(DefaultSettings()), DefaultSettings())
  }

  /** `try_init` on the cell: `OnceCell::set`, which succeeds only on an
      empty cell. */
  function TryInitStep(cell: Option<AutometricsSettings>, b: SettingsBuilder): (r: (Option<AutometricsSettings>, Result<(), AlreadyInitializedError>))
    ensures r.1.Ok? <==> cell.None?
    ensures r.1.Ok? ==> r.0 == Some(SettingsOf(b))
    ensures r.1.Err? ==> r.0 == cell && r.1.error == AlreadyInitializedError
  {
    if cell.None? then (Some(SettingsOf(b)), Ok(())) else (cell, Err(AlreadyInitializedError))
  }

  /** The settings are set at most once: after a successful `try_init`,
      and after any `get_settings`, `try_init` fails and changes nothing;
      `get_settings` then returns what `try_init` stored, or the defaults. */
  lemma SetOnce(cell: Option<AutometricsSettings>, b: SettingsBuilder, b2: SettingsBuilder)
    ensures var afterGet := GetSettingsStep(cell).0;
      TryInitStep(afterGet, b).1.Err? && TryInitStep(afterGet, b).0 == afterGet
    ensures TryInitStep(cell, b).1.Ok? ==>
      var afterInit := TryInitStep(cell, b).0;
      TryInitStep(afterInit, b2).1.Err? && GetSettingsStep(afterInit).1 == SettingsOf(b)
    ensures GetSettingsStep(GetSettingsStep(None).0).1 == DefaultSettings()
  {
  }

  /** The global settings cell. */
  class SettingsCell {
    var value: Option<AutometricsSettings>

    constructor ()
      ensures value.None?
    {
      value := None;
    }

    /** `get_settings`. */
    method GetSettings() returns (s: AutometricsSettings)
      modifies this
      ensures (value, s) == GetSettingsStep(old(value))
    {
      if value.None? {
        value := Some(DefaultSettings());
      }
      s := value.value;
    }

    /** `AutometricsSettingsBuilder::try_init`. */
    method TryInit(b: SettingsBuilder) returns (r: Result<(), AlreadyInitializedError>)
      modifies this
      ensures (value, r) == TryInitStep(old(value), b)
    {
      if value.Some? {
        return Err(AlreadyInitializedError);
      }
      value := Some(SettingsOf(b));
      r := Ok(());
    }

    /** `AutometricsSettingsBuilder::init`: `try_init` that panics on an
        error, so its callers must call it on an empty cell. */
    method Init(b: SettingsBuilder)
      requires value.None?
      modifies this
      ensures value == Some(SettingsOf(b))
    {
      var r := TryInit(b);
    }
  }

  /** `init` can be called exactly when `try_init` would succeed. */
  lemma InitPanicsIffTryInitFails(cell: Option<AutometricsSettings>, b: SettingsBuilder)
    ensures TryInitStep(cell, b).1.Err? <==> !cell.None?
  {
  }
}
