/**
 * BlueDBProperties: the connection and format settings read from a
 * configuration array, and the process-wide instance behind `init` and
 * `instance`.
 */
module Configuration {
  import opened Wrappers
  import opened Metadata

  const HOST := "host"
  const DB := "db"
  const USER := "user"
  const PASS := "pass"
  const NAMESPACE_ENTITIES := "namespace_entities"
  const FORMAT_DATE := "format_date"
  const FORMAT_TIME := "format_time"
  const FORMAT_DATETIME := "format_datetime"
  const INCLUDE_MANYTOONE := "includeManyToOne"
  const INCLUDE_ONETOMANY := "includeOneToMany"
  const INCLUDE_MANYTOMANY := "includeManyToMany"

  /** The keys a configuration must give, in the order they are checked. */
  const Mandatory: seq<string> := [HOST, DB, USER, PASS]

  /** A configuration array. */
  type Config = map<string, Value>

  /** PHP's boolval: false exactly for the loosely null values and the string "0". */
  function BoolVal(v: Value): (b: bool)
    ensures !b <==> LooseNull(v) || v == Str("0")
  {
    match v
    case Null => false
    case Str(s) => Truthy(s)
    case Num(n) => n != 0
    case Flag(x) => x
    case Opaque(_) => true
    case Obj(_) => true
    case Objs(items) => items != []
  }

  /** The exception thrown for a mandatory key the configuration lacks. */
  function MissingMessage(key: string): string
  {
    "The configuration file has to specify a '" + key + "' value."
  }

  /** The error for the first of `keys` the configuration lacks, if any. */
  function FirstMissing(config: Config, keys: seq<string>): (err: Option<string>)
    ensures err.None? <==> forall i :: 0 <= i < |keys| ==> keys[i] in config
    ensures err.Some? ==> exists i :: 0 <= i < |keys| && keys[i] !in config && err.value == MissingMessage(keys[i]) &&
                                      forall j :: 0 <= j < i ==> keys[j] in config
  {
    if keys == [] then None
    else if keys[0] !in config then Some(MissingMessage(keys[0]))
    else
      var rest := FirstMissing(config, keys[1..]);
      if rest.None? then None
      else
        assert exists i :: 0 <= i < |keys| - 1 && keys[1..][i] !in config && rest.value == MissingMessage(keys[1..][i]) &&
                           forall j :: 0 <= j < i ==> keys[1..][j] in config;
        rest
  }

  /** Every setting of a BlueDBProperties object. */
  datatype Settings = Settings(
    host: Value, databaseName: Value, username: Value, password: Value,
    namespaceEntities: Value, formatDate: Value, formatTime: Value, formatDateTime: Value,
    includeManyToOne: bool, includeOneToMany: bool, includeManyToMany: bool)

  /** The property initialisers: the connection settings unset, the formats and flags at their defaults. */
  const Defaults := Settings(Null, Null, Null, Null, Str(""), Str("Y-m-d"), Str("H:i:s"), Str("Y-m-d H:i:s"), true, true, true)

  /** An optional setting: the configured value when the key is there, else the value it already has. */
  function Optional(config: Config, key: string, default: Value): Value
  {
    if key in config then config[key] else default
  }

  /** An optional flag: boolval of the configured value when the key is there, else the value it already has. */
  function OptionalFlag(config: Config, key: string, default: bool): bool
  {
    if key in config then BoolVal(config[key]) else default
  }

  /** The settings built from a configuration that has every mandatory key. */
  function Configured(config: Config): Settings
    requires forall k :: k in Mandatory ==> k in config
  {
    Settings(
      config[HOST], config[DB], config[USER], config[PASS],
      Optional(config, NAMESPACE_ENTITIES, Defaults.namespaceEntities),
      Optional(config, FORMAT_DATE, Defaults.formatDate),
      Optional(config, FORMAT_TIME, Defaults.formatTime),
      Optional(config, FORMAT_DATETIME, Defaults.formatDateTime),
      OptionalFlag(config, INCLUDE_MANYTOONE, Defaults.includeManyToOne),
      OptionalFlag(config, INCLUDE_ONETOMANY, Defaults.includeOneToMany),
      OptionalFlag(config, INCLUDE_MANYTOMANY, Defaults.includeManyToMany))
  }

  /**
   * The settings the constructor builds from a configuration: an error
   * naming the first mandatory key that is missing, otherwise the four
   * connection values as given and every optional key overriding its
   * default.
   */
  function SettingsOf(config: Config): (r: Result<Settings>)
    ensures r.Err? <==> exists k :: k in Mandatory && k !in config
    ensures r.Err? ==> r == Err(FirstMissing(config, Mandatory).value)
    ensures r.Ok? ==> && r.value.host == config[HOST] && r.value.databaseName == config[DB]
                      && r.value.username == config[USER] && r.value.password == config[PASS]
  {
    var missing := FirstMissing(config, Mandatory);
    if missing.Some? then Err(missing.value)
    else
      assert Mandatory[0] in config && Mandatory[1] in config && Mandatory[2] in config && Mandatory[3] in config;
      Ok(Configured(config))
  }

  /** An optional key that is absent leaves its default; a present one overrides it (flags through boolval). */
  lemma OptionalSettings(config: Config)
    requires SettingsOf(config).Ok?
    ensures var s := SettingsOf(config).value;
      && (NAMESPACE_ENTITIES !in config ==> s.namespaceEntities == Str(""))
      && (NAMESPACE_ENTITIES in config ==> s.namespaceEntities == config[NAMESPACE_ENTITIES])
      && (FORMAT_DATE !in config ==> s.formatDate == Str("Y-m-d"))
      && (FORMAT_DATE in config ==> s.formatDate == config[FORMAT_DATE])
      && (FORMAT_TIME !in config ==> s.formatTime == Str("H:i:s"))
      && (FORMAT_TIME in config ==> s.formatTime == config[FORMAT_TIME])
      && (FORMAT_DATETIME !in config ==> s.formatDateTime == Str("Y-m-d H:i:s"))
      && (FORMAT_DATETIME in config ==> s.formatDateTime == config[FORMAT_DATETIME])
      && (INCLUDE_MANYTOONE !in config ==> s.includeManyToOne)
      && (INCLUDE_MANYTOONE in config ==> s.includeManyToOne == BoolVal(config[INCLUDE_MANYTOONE]))
      && (INCLUDE_ONETOMANY !in config ==> s.includeOneToMany)
      && (INCLUDE_ONETOMANY in config ==> s.includeOneToMany == BoolVal(config[INCLUDE_ONETOMANY]))
      && (INCLUDE_MANYTOMANY !in config ==> s.includeManyToMany)
      && (INCLUDE_MANYTOMANY in config ==> s.includeManyToMany == BoolVal(config[INCLUDE_MANYTOMANY]))
  {
  }

  /** A configuration giving only the four mandatory keys yields exactly the defaults around them. */
  lemma MinimalConfig(host: Value, db: Value, user: Value, pass: Value)
    ensures SettingsOf(map[HOST := host, DB := db, USER := user, PASS := pass]) ==
            Ok(Defaults.(host := host, databaseName := db, username := user, password := pass))
  {
    var config := map[HOST := host, DB := db, USER := user, PASS := pass];
    assert FirstMissing(config, Mandatory).None?;
  }

  /** The constructor's loop over the mandatory keys: the error for the first one missing. */
  method CheckMandatory(config: Config) returns (err: Option<string>)
    ensures err == FirstMissing(config, Mandatory)
  {
    var i := 0;
    while i < |Mandatory|
      invariant 0 <= i <= |Mandatory|
      invariant forall j :: 0 <= j < i ==> Mandatory[j] in config
      invariant FirstMissing(config, Mandatory) == FirstMissing(config, Mandatory[i..])
    {
      assert Mandatory[i..][1..] == Mandatory[i + 1..];
      if Mandatory[i] !in config {
        return Some(MissingMessage(Mandatory[i]));
      }
      i := i + 1;
    }
    return None;
  }

  /** One BlueDBProperties object. */
  class Properties {
    var host: Value
    var databaseName: Value
    var username: Value
    var password: Value
    var namespaceEntities: Value
    var formatDate: Value
    var formatTime: Value
    var formatDateTime: Value
    var includeManyToOne: bool
    var includeOneToMany: bool
    var includeManyToMany: bool

    function Current(): Settings
      reads this
    {
      Settings(host, databaseName, username, password, namespaceEntities, formatDate, formatTime, formatDateTime,
               includeManyToOne, includeOneToMany, includeManyToMany)
    }

    /** The object as its property initialisers leave it. */
    constructor ()
      ensures Current() == Defaults
    {
      host, databaseName, username, password := Null, Null, Null, Null;
      namespaceEntities, formatDate, formatTime, formatDateTime := Str(""), Str("Y-m-d"), Str("H:i:s"), Str("Y-m-d H:i:s");
      includeManyToOne, includeOneToMany, includeManyToMany := true, true, true;
    }

    /** The four connection settings, copied as given. */
    method AssignConnection(config: Config)
      requires HOST in config && DB in config && USER in config && PASS in config
      modifies this
      ensures Current() == old(Current()).(host := config[HOST], databaseName := config[DB],
                                           username := config[USER], password := config[PASS])
    {
      host := config[HOST];
      databaseName := config[DB];
      username := config[USER];
      password := config[PASS];
    }

    /** The namespace and the three formats, each overridden when its key is there. */
    method AssignFormats(config: Config)
      modifies this
      ensures Current() == old(Current()).(
        namespaceEntities := Optional(config, NAMESPACE_ENTITIES, old(namespaceEntities)),
        formatDate := Optional(config, FORMAT_DATE, old(formatDate)),
        formatTime := Optional(config, FORMAT_TIME, old(formatTime)),
        formatDateTime := Optional(config, FORMAT_DATETIME, old(formatDateTime)))
    {
      namespaceEntities := Optional(config, NAMESPACE_ENTITIES, namespaceEntities);
      formatDate := Optional(config, FORMAT_DATE, formatDate);
      formatTime := Optional(config, FORMAT_TIME, formatTime);
      formatDateTime := Optional(config, FORMAT_DATETIME, formatDateTime);
    }

    /** The three include flags, each overridden by boolval of its value when its key is there. */
    method AssignFlags(config: Config)
      modifies this
      ensures Current() == old(Current()).(
        includeManyToOne := OptionalFlag(config, INCLUDE_MANYTOONE, old(includeManyToOne)),
        includeOneToMany := OptionalFlag(config, INCLUDE_ONETOMANY, old(includeOneToMany)),
        includeManyToMany := OptionalFlag(config, INCLUDE_MANYTOMANY, old(includeManyToMany)))
    {
      includeManyToOne := OptionalFlag(config, INCLUDE_MANYTOONE, includeManyToOne);
      includeOneToMany := OptionalFlag(config, INCLUDE_ONETOMANY, includeOneToMany);
      includeManyToMany := OptionalFlag(config, INCLUDE_MANYTOMANY, includeManyToMany);
    }

    /**
     * The constructor body: the loop over the mandatory keys, which stops at
     * the first missing one before anything is assigned, then the
     * assignments.
     */
    method Configure(config: Config) returns (err: Option<string>)
      requires Current() == Defaults
      modifies this
      ensures err.Some? <==> SettingsOf(config).Err?
      ensures err.Some? ==> Err(err.value) == SettingsOf(config) && Current() == old(Current())
      ensures err.None? ==> Current() == SettingsOf(config).value
    {
      err := CheckMandatory(config);
      if err.Some? {
        return;
      }
      assert Mandatory[0] in config && Mandatory[1] in config && Mandatory[2] in config && Mandatory[3] in config;
      assert SettingsOf(config) == Ok(Configured(config));
      AssignConnection(config);
      AssignFormats(config);
      AssignFlags(config);
    }
  }

  /** The static `$instance` of BlueDBProperties. */
  class Instance {
    var instance: Properties?

    /** Before `init`, there is no instance. */
    constructor ()
      ensures instance == null
    {
      instance := null;
    }

    /**
     * init: a new object built from the configuration becomes the instance;
     * when the constructor throws, the instance stays as it was.
     */
    method Init(config: Config) returns (err: Option<string>)
      modifies this
      ensures err.Some? <==> SettingsOf(config).Err?
      ensures err.Some? ==> instance == old(instance)
      ensures err.None? ==> instance != null && fresh(instance) && instance.Current() == SettingsOf(config).value
    {
      var p := new Properties();
      err := p.Configure(config);
      if err.None? {
        instance := p;
      }
    }

    /** instance: the object `init` stored, or the error when `init` never succeeded. */
    method Get() returns (r: Result<Properties>)
      ensures instance == null ==> r == Err("The BlueDBProperties instance was not initialized.")
      ensures instance != null ==> r == Ok(instance)
    {
      if instance == null {
        return Err("The BlueDBProperties instance was not initialized.");
      }
      return Ok(instance);
    }
  }
}
