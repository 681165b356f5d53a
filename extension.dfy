/**
 * The bundle's container extension (src/DependencyInjection/PhpsedCacheExtension.php):
 * `load` turns the first raw configuration into container parameters, and
 * refuses to boot when caching is enabled without a provider.
 */
module Extension {

  const ALIAS := "phpsed.cache"
  const EXTENSION := "phpsed_cache"
  const ENABLED_PARAMETER := ALIAS + ".enabled"
  const PROVIDERS_PARAMETER := ALIAS + ".providers"
  const NO_PROVIDER_MESSAGE := "At least one provider must be configured to use Phpsed\\Cache\\Annotation\\Cache annotation"

  /** A configuration or parameter value, as PHP holds it. */
  datatype Value = Null | Bool(b: bool) | Int(i: int) | Str(s: string) | List(items: seq<Value>)

  /** One raw configuration array, as the host framework passes it to `load`. */
  type Config = map<string, Value>

  /** PHP's conversion of a value to boolean. */
  predicate Truthy(v: Value): (truthy: bool)
    ensures !truthy <==> v in {Null, Bool(false), Int(0), Str(""), Str("0"), List([])}
  {
    match v
    case Null => false
    case Bool(b) => b
    case Int(i) => i != 0
    case Str(s) => s != "" && s != "0"
    case List(items) => items != []
  }

  /**
   * What the configuration tree (src/DependencyInjection/Configuration.php)
   * accepts: only the keys `enabled` and `providers`; a boolean `enabled`
   * (the node `canBeEnabled` adds), or `null`, which its normalisation turns
   * into `true`; a list of providers, or `null` or `true`, which the array
   * node reads as an empty list. The raw values stay what `load` reads.
   */
  predicate ValidConfig(config: Config): (valid: bool)
    ensures valid ==> config.Keys <= {"enabled", "providers"}
    ensures valid ==> forall key :: key in config ==> !config[key].Int? && !config[key].Str?
    ensures valid && "providers" in config ==> config["providers"] != Bool(false)
  {
    && (forall key :: key in config ==> key == "enabled" || key == "providers")
    && ("enabled" in config ==> config["enabled"].Bool? || config["enabled"] == Null)
    && ("providers" in config ==> config["providers"].List? || config["providers"] in {Null, Bool(true)})
  }

  /** `processConfiguration` checks every configuration it is given. */
  predicate AllValid(configs: seq<Config>): (valid: bool)
    ensures valid <==> forall config :: config in configs ==> ValidConfig(config)
  {
    forall i :: 0 <= i < |configs| ==> ValidConfig(configs[i])
  }

  /** `$configs[0][$name]`, `null` when there is no first configuration or no such key. */
  function Setting(configs: seq<Config>, name: string): (v: Value)
    ensures |configs| > 0 && name in configs[0] ==> v == configs[0][name]
    ensures |configs| == 0 || name !in configs[0] ==> v == Null
  {
    if |configs| > 0 && name in configs[0] then configs[0][name] else Null
  }

  /** `$configs[0]['enabled'] ?? false`. */
  function EnabledSetting(configs: seq<Config>): (v: Value)
    ensures v != Null
    ensures AllValid(configs) ==> v.Bool?
  {
    var v := Setting(configs, "enabled");
    if v == Null then Bool(false) else v
  }

  /** `getAlias`: the extension's configuration key. */
  function GetAlias(): (alias: string)
    ensures alias == "phpsed_cache" && alias != ALIAS
  {
    EXTENSION
  }

  /**
   * How `load` ends: normally, with the exception `processConfiguration`
   * throws for a configuration the tree refuses, or with the
   * InvalidArgumentException for a missing provider.
   */
  datatype LoadOutcome = Loaded | InvalidConfiguration | InvalidArgument(message: string)

  /**
   * The outcome of `load` and the parameter table it leaves behind. A
   * configuration the tree refuses stops `load` before anything is written.
   * Otherwise the enabled parameter is always written, before any error;
   * the providers parameter only when the providers setting is truthy.
   */
  function LoadEffect(configs: seq<Config>, parameters: map<string, Value>): (r: (LoadOutcome, map<string, Value>))
    ensures r.0.InvalidConfiguration? <==> !AllValid(configs)
    ensures r.0.InvalidConfiguration? ==> r.1 == parameters
    ensures AllValid(configs) ==>
              r.1 == if Truthy(Setting(configs, "providers"))
                     then parameters[ENABLED_PARAMETER := EnabledSetting(configs)][PROVIDERS_PARAMETER := Setting(configs, "providers")]
                     else parameters[ENABLED_PARAMETER := EnabledSetting(configs)]
    ensures r.0.InvalidArgument? <==>
              AllValid(configs) && !Truthy(Setting(configs, "providers")) && EnabledSetting(configs) == Bool(true)
    ensures r.0.InvalidArgument? ==> r.0.message == NO_PROVIDER_MESSAGE
  {
    if !AllValid(configs) then (InvalidConfiguration, parameters)
    else
      var enabled := EnabledSetting(configs);
      var afterEnabled := parameters[ENABLED_PARAMETER := enabled];
      var providers := Setting(configs, "providers");
      if Truthy(providers) then (Loaded, afterEnabled[PROVIDERS_PARAMETER := providers])
      else if enabled == Bool(true) then (InvalidArgument(NO_PROVIDER_MESSAGE), afterEnabled)
      else (Loaded, afterEnabled)
  }

  /** The container's parameter table, which `load` writes into. */
  class ContainerBuilder {
    var parameters: map<string, Value>

    constructor(parameters: map<string, Value>)
      ensures this.parameters == parameters
    {
      this.parameters := parameters;
    }

    method SetParameter(name: string, value: Value)
      modifies this
      ensures parameters == old(parameters)[name := value]
    {
      parameters := parameters[name := value];
    }
  }

  /**
   * `load`: writes the enabled parameter, then the providers parameter or,
   * with caching strictly enabled and no provider, fails.
   */
  method Load(configs: seq<Config>, container: ContainerBuilder) returns (outcome: LoadOutcome)
    modifies container
    ensures (outcome, container.parameters) == LoadEffect(configs, old(container.parameters))
  {
    if !AllValid(configs) {
      return InvalidConfiguration;
    }
    var enabled := Setting(configs, "enabled");
    if enabled == Null {
      enabled := Bool(false);
    }
    container.SetParameter(ENABLED_PARAMETER, enabled);
    var providers := Setting(configs, "providers");
    if Truthy(providers) {
      container.SetParameter(PROVIDERS_PARAMETER, providers);
    } else if enabled == Bool(true) {
      return InvalidArgument(NO_PROVIDER_MESSAGE);
    }
    outcome := Loaded;
  }

  /**
   * Once every configuration passes the tree, only the first is read: the
   * others cannot change what `load` does.
   */
  lemma OnlyFirstConfigRead(configs: seq<Config>, others: seq<Config>, parameters: map<string, Value>)
    requires |configs| > 0 && |others| > 0 && configs[0] == others[0]
    requires AllValid(configs) && AllValid(others)
    ensures LoadEffect(configs, parameters) == LoadEffect(others, parameters)
  {
  }

  /** In the failing case the enabled parameter is already set, to `true`. */
  lemma EnabledWrittenBeforeFailure(configs: seq<Config>, parameters: map<string, Value>)
    requires LoadEffect(configs, parameters).0.InvalidArgument?
    ensures ENABLED_PARAMETER in LoadEffect(configs, parameters).1
    ensures LoadEffect(configs, parameters).1[ENABLED_PARAMETER] == Bool(true)
    ensures LoadEffect(configs, parameters).1 == parameters[ENABLED_PARAMETER := Bool(true)]
  {
  }

  /**
   * A configuration that names no providers and does not enable caching
   * loads with caching off and no providers parameter. The listener's
   * constructor reads that parameter, so the first kernel event then fails
   * in the container; that exception is not part of this model.
   */
  lemma DisabledWithoutProvidersLoads(config: Config, parameters: map<string, Value>)
    requires ValidConfig(config) && "enabled" !in config && "providers" !in config
    requires PROVIDERS_PARAMETER !in parameters
    ensures var r := LoadEffect([config], parameters);
            r.0 == Loaded && PROVIDERS_PARAMETER !in r.1 && r.1[ENABLED_PARAMETER] == Bool(false)
  {
    assert ENABLED_PARAMETER != PROVIDERS_PARAMETER;
  }

  /**
   * The shorthands the tree accepts reach `load` raw: `providers: true` is
   * written as the providers parameter, while a `null` for either setting
   * counts as absent.
   */
  lemma ShorthandsReachLoad(parameters: map<string, Value>)
    ensures LoadEffect([map["providers" := Bool(true)]], parameters)
            == (Loaded, parameters[ENABLED_PARAMETER := Bool(false)][PROVIDERS_PARAMETER := Bool(true)])
    ensures LoadEffect([map["enabled" := Null, "providers" := Null]], parameters)
            == (Loaded, parameters[ENABLED_PARAMETER := Bool(false)])
    ensures LoadEffect([map["enabled" := Bool(true), "providers" := Null]], parameters)
            == (InvalidArgument(NO_PROVIDER_MESSAGE), parameters[ENABLED_PARAMETER := Bool(true)])
  {
    var shorthand: Config := map["providers" := Bool(true)];
    var nulls: Config := map["enabled" := Null, "providers" := Null];
    var enabledOnly: Config := map["enabled" := Bool(true), "providers" := Null];
    assert [shorthand][0] == shorthand && ValidConfig(shorthand);
    assert [nulls][0] == nulls && ValidConfig(nulls);
    assert [enabledOnly][0] == enabledOnly && ValidConfig(enabledOnly);
  }

  /**
   * A later configuration the tree refuses makes `load` fail before it
   * writes anything, whatever the first configuration says.
   */
  lemma LaterConfigCanFail(first: Config, later: Config, parameters: map<string, Value>)
    requires !ValidConfig(later)
    ensures LoadEffect([first, later], parameters) == (InvalidConfiguration, parameters)
  {
    assert [first, later][1] == later;
  }

  /** A non-boolean, non-null `enabled`, such as the string `yes`, is refused before anything is written. */
  lemma NonBooleanEnabledRefused(config: Config, parameters: map<string, Value>)
    requires "enabled" in config && !config["enabled"].Bool? && config["enabled"] != Null
    ensures LoadEffect([config], parameters) == (InvalidConfiguration, parameters)
  {
    assert [config][0] == config;
  }
}
