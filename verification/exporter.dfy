/** The Prometheus exporter helpers (autometrics/src/prometheus_exporter.rs):
    a global cell that is filled once with the exporter, lazily by
    `encode_to_string` or explicitly by `try_init`, and the HTTP response
    built from the encoded metrics. Building the metrics backend and
    encoding the registry are calls into other libraries: their outcomes
    are parameters. The build is modelled as a debug build, in which a
    fresh initialisation also creates the counters of every instrumented
    function. */
module PrometheusExporter {
  import opened Wrappers
  import Settings
  import Labels
  import PrometheusTracker

  /** `GlobalPrometheus`: the exporter, holding the settings it was built
      with. */
  datatype GlobalPrometheus = GlobalPrometheus(settings: Settings.AutometricsSettings)

  datatype ExporterInitializationError =
    | AlreadyInitialized
    | BackendError(message: string)  // the backend's own build error

  datatype EncodingError =
    | EncodeFailure(message: string)  // the registry encoder's error
    | Initialization(cause: ExporterInitializationError)

  /** The settings cell and the exporter cell together. */
  datatype ExporterState = ExporterState(settings: Option<Settings.AutometricsSettings>, global: Option<GlobalPrometheus>)

  /** `initialize_prometheus_exporter`: read the settings (filling their
      cell with the defaults if it is empty) and build the backend, whose
      failure, if any, is `backendError`. */
  function InitializeStep(settings: Option<Settings.AutometricsSettings>, backendError: Option<string>)
    : (r: (Option<Settings.AutometricsSettings>, Result<GlobalPrometheus, ExporterInitializationError>))
    ensures r.0 == Settings.GetSettingsStep(settings).0
    ensures r.1.Ok? <==> backendError.None?
    ensures r.1.Ok? ==> r.1.value.settings == Settings.GetSettingsStep(settings).1
  {
    var (next, s) := Settings.GetSettingsStep(settings);
    if backendError.Some? then (next, Err(BackendError(backendError.value))) else (next, Ok(GlobalPrometheus(s)))
  }

  /** `try_init`: run the initialisation only on an empty cell; a cell
      already filled gives `AlreadyInitialized`. */
  function TryInitStep(state: ExporterState, backendError: Option<string>)
    : (r: (ExporterState, Result<(), ExporterInitializationError>))
    ensures state.global.Some? ==> r == (state, Err(AlreadyInitialized))
    ensures state.global.None? && backendError.Some? ==>
      r.1 == Err(BackendError(backendError.value)) && r.0.global.None?
    ensures state.global.None? && backendError.None? ==>
      r.1 == Ok(()) && r.0.settings.Some? && r.0.global == Some(GlobalPrometheus(r.0.settings.value))
  {
    if state.global.Some? then (state, Err(AlreadyInitialized))
    else
      var (settings, built) := InitializeStep(state.settings, backendError);
      match built
      case Err(e) => (ExporterState(settings, None), Err(e))
      case Ok(g) => (ExporterState(settings, Some(g)), Ok(()))
  }

  /** `encode_to_string`: initialise the cell if it is empty, then encode
      with the exporter, `encode` standing for `encode_metrics`. */
  function EncodeStep(state: ExporterState, backendError: Option<string>, encode: GlobalPrometheus -> Result<string, string>)
    : (r: (ExporterState, Result<string, EncodingError>))
    ensures state.global.Some? ==> r.0 == state
    ensures r.0.global.Some? <==> state.global.Some? || backendError.None?
    ensures r.1.Ok? ==> r.0.global.Some? && encode(r.0.global.value) == Ok(r.1.value)
  {
    var (next, g) :=
      if state.global.Some? then (state, Ok(state.global.value))
      else
        var (settings, built) := InitializeStep(state.settings, backendError);
        (ExporterState(settings, if built.Ok? then Some(built.value) else None), built);
    match g
    case Err(e) => (next, Err(Initialization(e)))
    case Ok(exporter) =>
      match encode(exporter)
      case Err(m) => (next, Err(EncodeFailure(m)))
      case Ok(text) => (next, Ok(text))
  }

  /** The exporter is initialised at most once: a second `try_init`, or one
      after `encode_to_string` has filled the cell, gives
      `AlreadyInitialized` and changes nothing; a failed initialisation
      leaves the cell empty, so a later one may succeed. */
  lemma InitialisedOnce(state: ExporterState, e1: Option<string>, e2: Option<string>, encode: GlobalPrometheus -> Result<string, string>)
    ensures var after := TryInitStep(state, e1).0;
      after.global.Some? ==> TryInitStep(after, e2) == (after, Err(AlreadyInitialized))
    ensures var after := EncodeStep(state, e1, encode).0;
      after.global.Some? ==> TryInitStep(after, e2) == (after, Err(AlreadyInitialized))
    ensures state.global.None? && e1.Some? ==>
      TryInitStep(state, e1).0.global.None? && TryInitStep(TryInitStep(state, e1).0, None).1.Ok?
  {
  }

  /** Initialising the exporter fills the settings cell, so a later
      `AutometricsSettingsBuilder::try_init` fails and the exporter keeps
      the defaults. */
  lemma ExporterFixesSettings(e: Option<string>, b: Settings.SettingsBuilder)
    ensures var after := TryInitStep(ExporterState(None, None), e).0;
      after.settings == Some(Settings.DefaultSettings()) &&
      Settings.TryInitStep(after.settings, b).1.Err?
  {
  }

  /** An HTTP response: status, headers and body. */
  datatype Response = Response(status: nat, headers: seq<(string, string)>, body: string)

  /** The content type: the Prometheus text format, or OpenMetrics when
      exemplars are enabled. */
  function ContentType(exemplars: bool): string {
    if exemplars then "application/openmetrics-text; version=1.0.0; charset=utf-8"
    else "text/plain; version=0.0.4"
  }

  /** The response `encode_http_response` builds from the result of
      `encode_to_string`; `debug` stands for the `{:?}` rendering of an
      error. */
  function ResponseFor(encoded: Result<string, EncodingError>, exemplars: bool, debug: EncodingError -> string): (r: Response)
    ensures r.status == 200 <==> encoded.Ok?
    ensures r.status == 200 || r.status == 500
    ensures encoded.Ok? ==> r.body == encoded.value && r.headers == [("content-type", ContentType(exemplars))]
    ensures encoded.Err? ==> r.body == debug(encoded.error) && r.headers == []
  {
    match encoded
    case Ok(metrics) => Response(200, [("content-type", ContentType(exemplars))], metrics)
    case Err(e) => Response(500, [], debug(e))
  }

  /** The exporter cell, beside the settings cell and the registry whose
      counters a fresh initialisation creates. */
  class Exporter {
    var global: Option<GlobalPrometheus>
    const settings: Settings.SettingsCell
    const registry: PrometheusTracker.Registry
    /** The counters of the instrumented functions (`FUNCTION_DESCRIPTIONS`). */
    const functions: seq<Labels.CounterLabels>

    constructor (settings: Settings.SettingsCell, registry: PrometheusTracker.Registry, functions: seq<Labels.CounterLabels>)
      ensures global.None? && this.settings == settings && this.registry == registry && this.functions == functions
    {
      global := None;
      this.settings := settings;
      this.registry := registry;
      this.functions := functions;
    }

    function State(): ExporterState
      reads this, settings
    {
      ExporterState(settings.value, global)
    }

    /** `initialize_prometheus_exporter`. */
    method Initialize(backendError: Option<string>) returns (r: Result<GlobalPrometheus, ExporterInitializationError>)
      modifies settings
      ensures (settings.value, r) == InitializeStep(old(settings.value), backendError)
    {
      var s := settings.GetSettings();
      if backendError.Some? {
        return Err(BackendError(backendError.value));
      }
      r := Ok(GlobalPrometheus(s));
    }

    /** `try_init`: fill the cell through `get_or_try_init`, noting whether
        this call ran the initialisation; only a fresh initialisation
        succeeds, and it creates the counters of every function. */
    method TryInit(backendError: Option<string>) returns (r: Result<(), ExporterInitializationError>)
      modifies this, settings, registry
      ensures (State(), r) == TryInitStep(old(State()), backendError)
      ensures registry.counters ==
        if r.Ok? then PrometheusTracker.InitializedCounters(old(registry.counters), PrometheusTracker.CounterSeries(functions))
        else old(registry.counters)
      ensures registry.gauges == old(registry.gauges) && registry.histogram == old(registry.histogram)
      ensures registry.buildInfo == old(registry.buildInfo) && registry.buildInfoSet == old(registry.buildInfoSet)
    {
      var newlyInitialized := false;
      if global.None? {
        newlyInitialized := true;
        var built := Initialize(backendError);
        if built.Err? {
          return Err(built.error);
        }
        global := Some(built.value);
      }
      if !newlyInitialized {
        return Err(AlreadyInitialized);
      }
      registry.InitializeMetrics(functions);
      r := Ok(());
    }

    /** `init`: `try_init` that panics on an error, so its callers must call
        it on an empty cell with a backend that builds. */
    method Init(backendError: Option<string>)
      requires global.None? && backendError.None?
      modifies this, settings, registry
      ensures State() == TryInitStep(old(State()), backendError).0
      ensures registry.counters ==
        PrometheusTracker.InitializedCounters(old(registry.counters), PrometheusTracker.CounterSeries(functions))
      ensures registry.gauges == old(registry.gauges) && registry.histogram == old(registry.histogram)
      ensures registry.buildInfo == old(registry.buildInfo) && registry.buildInfoSet == old(registry.buildInfoSet)
    {
      var r := TryInit(backendError);
    }

    /** `encode_to_string`. */
    method EncodeToString(backendError: Option<string>, encode: GlobalPrometheus -> Result<string, string>)
      returns (r: Result<string, EncodingError>)
      modifies this, settings
      ensures (State(), r) == EncodeStep(old(State()), backendError, encode)
    {
      if global.None? {
        var built := Initialize(backendError);
        if built.Err? {
          return Err(Initialization(built.error));
        }
        global := Some(built.value);
      }
      var encoded := encode(global.value);
      if encoded.Err? {
        return Err(EncodeFailure(encoded.error));
      }
      r := Ok(encoded.value);
    }

    /** `encode_http_response`. */
    method EncodeHttpResponse(backendError: Option<string>, encode: GlobalPrometheus -> Result<string, string>,
                              exemplars: bool, debug: EncodingError -> string)
      returns (response: Response)
      modifies this, settings
      ensures State() == EncodeStep(old(State()), backendError, encode).0
      ensures response == ResponseFor(EncodeStep(old(State()), backendError, encode).1, exemplars, debug)
    {
      var encoded := EncodeToString(backendError, encode);
      response := ResponseFor(encoded, exemplars, debug);
    }
  }

  /** `init` can be called exactly when `try_init` would succeed. */
  lemma InitPanicsIffTryInitFails(state: ExporterState, backendError: Option<string>)
    ensures TryInitStep(state, backendError).1.Ok? <==> state.global.None? && backendError.None?
  {
  }
}
