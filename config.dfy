/** The server's configuration loader (apps/server/src/config/config.ts).

    The parsed YAML document is a record whose sections and fields may each be
    missing, exactly as `yaml.load` may leave them; the loader's result is that
    same record with at most the `vm` section filled in. The environment is a
    map of variable names to their text, with the one numeric override
    (`POSTGRES_PORT`) given already parsed. The file system is a map from a
    path to the document parsed from it: a path that is not a key does not
    exist. */
module Config {
  import opened Wrappers

  datatype PostgresParams = PostgresParams(
    host: string, port: int, database: string, user: string, password: string)

  datatype ServerSection = ServerSection(port: Option<int>, host: Option<string>)

  datatype DatabaseSection = DatabaseSection(
    dbType: Option<string>, path: Option<string>, postgres: Option<PostgresParams>)

  datatype SecuritySection = SecuritySection(privateKeysPath: Option<string>)

  datatype VmSection = VmSection(tryWithSudo: Option<bool>)

  datatype OpsimateConfig = OpsimateConfig(
    server: Option<ServerSection>,
    database: Option<DatabaseSection>,
    security: Option<SecuritySection>,
    vm: Option<VmSection>)

  /** `vars` holds the process environment; `postgresPort` is
      `parseInt(POSTGRES_PORT)` when that variable is set and non-empty. */
  datatype Env = Env(vars: map<string, string>, postgresPort: Option<int>)

  /** JavaScript truthiness of an optional string: absent and "" are falsy. */
  predicate Present(s: Option<string>) {
    s.Some? && s.value != ""
  }

  /** JavaScript truthiness of an optional number: absent and 0 are falsy. */
  predicate PresentNumber(n: Option<int>) {
    n.Some? && n.value != 0
  }

  /** `process.env[name] || default` */
  function EnvOr(env: Env, name: string, default: string): string {
    if name in env.vars && env.vars[name] != "" then env.vars[name] else default
  }

  /** `process.env.VM_TRY_WITH_SUDO !== 'false'` */
  predicate TryWithSudo(env: Env) {
    !("VM_TRY_WITH_SUDO" in env.vars && env.vars["VM_TRY_WITH_SUDO"] == "false")
  }

  /** `database.type || 'sqlite'`: a missing or empty type reads as sqlite. */
  function EffectiveType(t: Option<string>): (r: string)
    ensures r != ""
    ensures Present(t) ==> r == t.value
    ensures !Present(t) ==> r == "sqlite"
  {
    if Present(t) then t.value else "sqlite"
  }

  function TypeOf(c: OpsimateConfig): string {
    EffectiveType(if c.database.Some? then c.database.value.dbType else None)
  }

  const DEFAULT_SERVER_PORT := 3001
  const DEFAULT_SERVER_HOST := "localhost"
  const DEFAULT_PRIVATE_KEYS_PATH := "../../data/private-keys"
  const DEFAULT_DATABASE_PATH := "../../data/database/opsimate.db"

  function DefaultPostgres(env: Env): PostgresParams {
    PostgresParams(
      EnvOr(env, "POSTGRES_HOST", "localhost"),
      env.postgresPort.GetOr(5432),
      EnvOr(env, "POSTGRES_DB", "opsimate"),
      EnvOr(env, "POSTGRES_USER", "opsimate"),
      EnvOr(env, "POSTGRES_PASSWORD", "opsimate_password"))
  }

  /** The configuration used when no file is found: built from constants and
      environment overrides, with exactly one backend's parameters set. */
  function DefaultConfig(env: Env): (c: OpsimateConfig)
    ensures c.server == Some(ServerSection(Some(DEFAULT_SERVER_PORT), Some(DEFAULT_SERVER_HOST)))
    ensures c.security == Some(SecuritySection(Some(DEFAULT_PRIVATE_KEYS_PATH)))
    ensures c.vm == Some(VmSection(Some(TryWithSudo(env))))
    ensures c.database.Some? && c.database.value.dbType == Some(EnvOr(env, "DATABASE_TYPE", "sqlite"))
    ensures c.database.value.postgres.Some? <==> EnvOr(env, "DATABASE_TYPE", "sqlite") == "postgres"
    ensures c.database.value.path.Some? <==> c.database.value.postgres.None?
    ensures c.database.value.postgres.Some? ==> c.database.value.postgres.value == DefaultPostgres(env)
    ensures c.database.value.path.Some? ==>
      c.database.value.path.value == EnvOr(env, "DATABASE_PATH", DEFAULT_DATABASE_PATH)
  {
    var dbType := EnvOr(env, "DATABASE_TYPE", "sqlite");
    var base := OpsimateConfig(
      Some(ServerSection(Some(DEFAULT_SERVER_PORT), Some(DEFAULT_SERVER_HOST))),
      Some(DatabaseSection(Some(dbType), None, None)),
      Some(SecuritySection(Some(DEFAULT_PRIVATE_KEYS_PATH))),
      Some(VmSection(Some(TryWithSudo(env)))));
    if dbType == "postgres" then
      base.(database := Some(base.database.value.(postgres := Some(DefaultPostgres(env)))))
    else
      base.(database := Some(base.database.value.(path := Some(EnvOr(env, "DATABASE_PATH", DEFAULT_DATABASE_PATH)))))
  }

  /** The required-field check applied to a configuration file, with
      JavaScript falsiness: port 0 and empty strings count as missing. */
  predicate HasRequiredFields(c: OpsimateConfig) {
    var t := TypeOf(c);
    && c.server.Some? && PresentNumber(c.server.value.port)
    && !(t == "sqlite" && !(c.database.Some? && Present(c.database.value.path)))
    && !(t == "postgres" && !(c.database.Some? && c.database.value.postgres.Some?))
    && c.security.Some? && Present(c.security.value.privateKeysPath)
  }

  /** Fills in the `vm` section when the file has none. */
  function WithVmDefault(c: OpsimateConfig, env: Env): (r: OpsimateConfig)
    ensures r.vm.Some?
    ensures c.vm.Some? ==> r == c
    ensures c.vm.None? ==> r.vm.value.tryWithSudo == Some(TryWithSudo(env))
    ensures r.(vm := c.vm) == c
  {
    if c.vm.None? then c.(vm := Some(VmSection(Some(TryWithSudo(env))))) else c
  }

  /** `process.env.CONFIG_FILE || null` */
  function ConfigPath(env: Env): Option<string> {
    if "CONFIG_FILE" in env.vars && env.vars["CONFIG_FILE"] != "" then Some(env.vars["CONFIG_FILE"]) else None
  }

  /** What a first, uncached `loadConfig` produces: the defaults when there is
      no file, an error naming the file when it lacks a required field, and
      otherwise the file's content with the `vm` default applied. */
  function Resolve(env: Env, disk: map<string, OpsimateConfig>): (r: Result<OpsimateConfig, string>)
    ensures (ConfigPath(env).None? || ConfigPath(env).value !in disk) ==> r == Ok(DefaultConfig(env))
    ensures r.Err? <==>
      ConfigPath(env).Some? && ConfigPath(env).value in disk && !HasRequiredFields(disk[ConfigPath(env).value])
    ensures r.Err? ==> r.error == "Invalid config file: " + ConfigPath(env).value
    ensures r.Ok? && ConfigPath(env).Some? && ConfigPath(env).value in disk ==>
      r.value.(vm := disk[ConfigPath(env).value].vm) == disk[ConfigPath(env).value]
    ensures r.Ok? && ConfigPath(env).Some? && ConfigPath(env).value in disk ==>
      r.value == WithVmDefault(disk[ConfigPath(env).value], env)
    ensures r.Ok? ==> HasRequiredFields(r.value) && r.value.database.Some? && r.value.vm.Some?
  {
    var path := ConfigPath(env);
    if path.None? || path.value !in disk then
      DefaultConfigHasRequiredFields(env);
      Ok(DefaultConfig(env))
    else if !HasRequiredFields(disk[path.value]) then
      Err("Invalid config file: " + path.value)
    else
      Ok(WithVmDefault(disk[path.value], env))
  }

  /** The defaults satisfy the same requirements a file must meet. */
  lemma DefaultConfigHasRequiredFields(env: Env)
    ensures HasRequiredFields(DefaultConfig(env))
  {
    var c := DefaultConfig(env);
    var t := EnvOr(env, "DATABASE_TYPE", "sqlite");
    assert TypeOf(c) == t;
    if t != "postgres" {
      assert "../../data/database/opsimate.db" != "";
      assert Present(c.database.value.path);
    }
    assert DEFAULT_PRIVATE_KEYS_PATH != "";
  }

  /** Each rejection case, decided by falsiness: a zero port, an empty sqlite
      path, a postgres type without its block, an empty key path. */
  lemma RejectionCases(c: OpsimateConfig)
    ensures c.server.Some? && c.server.value.port == Some(0) ==> !HasRequiredFields(c)
    ensures TypeOf(c) == "sqlite" && c.database.Some? && c.database.value.path == Some("") ==> !HasRequiredFields(c)
    ensures c.database.Some? && c.database.value.dbType == Some("postgres") && c.database.value.postgres.None? ==>
      !HasRequiredFields(c)
    ensures c.security.Some? && c.security.value.privateKeysPath == Some("") ==> !HasRequiredFields(c)
    ensures c.database.None? ==> !HasRequiredFields(c)
  {
  }

  /** The process-wide configuration cache. */
  class ConfigLoader {
    var cached: Option<OpsimateConfig>

    /** A cached configuration is one the loader could have produced. */
    ghost predicate Valid()
      reads this
    {
      cached.Some? ==>
        HasRequiredFields(cached.value) && cached.value.database.Some? && cached.value.vm.Some?
    }

    constructor ()
      ensures Valid() && cached == None
    {
      cached := None;
    }

    /** Returns the cached value when there is one, without looking at the
        environment or the disk; otherwise resolves, caching only a success. */
    method LoadConfig(env: Env, disk: map<string, OpsimateConfig>) returns (r: Result<OpsimateConfig, string>)
      requires Valid()
      modifies this
      ensures Valid()
      ensures old(cached).Some? ==> r == Ok(old(cached).value) && cached == old(cached)
      ensures old(cached).None? ==> r == Resolve(env, disk)
      ensures old(cached).None? ==> cached == (if r.Ok? then Some(r.value) else None)
    {
      if cached.Some? {
        return Ok(cached.value);
      }
      var path := ConfigPath(env);
      if path.None? || path.value !in disk {
        var defaultConfig := DefaultConfig(env);
        DefaultConfigHasRequiredFields(env);
        cached := Some(defaultConfig);
        return Ok(defaultConfig);
      }
      var config := disk[path.value];
      if !HasRequiredFields(config) {
        return Err("Invalid config file: " + path.value);
      }
      if config.vm.None? {
        config := config.(vm := Some(VmSection(Some(TryWithSudo(env)))));
      }
      cached := Some(config);
      r := Ok(config);
    }

    method GetServerConfig(env: Env, disk: map<string, OpsimateConfig>) returns (r: Result<ServerSection, string>)
      requires Valid()
      modifies this
      ensures Valid()
      ensures cached.Some? <==> r.Ok?
      ensures r.Ok? ==> cached.value.server == Some(r.value)
      ensures old(cached).Some? ==> cached == old(cached)
      ensures old(cached).None? ==>
        cached == (if Resolve(env, disk).Ok? then Some(Resolve(env, disk).value) else None)
      ensures r.Err? ==> old(cached).None? && Resolve(env, disk).Err? && r.error == Resolve(env, disk).error
    {
      var loaded := LoadConfig(env, disk);
      if loaded.Err? {
        return Err(loaded.error);
      }
      r := Ok(loaded.value.server.value);
    }

    method GetDatabaseConfig(env: Env, disk: map<string, OpsimateConfig>) returns (r: Result<DatabaseSection, string>)
      requires Valid()
      modifies this
      ensures Valid()
      ensures cached.Some? <==> r.Ok?
      ensures r.Ok? ==> cached.value.database == Some(r.value)
      ensures old(cached).Some? ==> cached == old(cached)
      ensures old(cached).None? ==>
        cached == (if Resolve(env, disk).Ok? then Some(Resolve(env, disk).value) else None)
      ensures r.Err? ==> old(cached).None? && Resolve(env, disk).Err? && r.error == Resolve(env, disk).error
    {
      var loaded := LoadConfig(env, disk);
      if loaded.Err? {
        return Err(loaded.error);
      }
      r := Ok(loaded.value.database.value);
    }

    method GetSecurityConfig(env: Env, disk: map<string, OpsimateConfig>) returns (r: Result<SecuritySection, string>)
      requires Valid()
      modifies this
      ensures Valid()
      ensures cached.Some? <==> r.Ok?
      ensures r.Ok? ==> cached.value.security == Some(r.value)
      ensures old(cached).Some? ==> cached == old(cached)
      ensures old(cached).None? ==>
        cached == (if Resolve(env, disk).Ok? then Some(Resolve(env, disk).value) else None)
      ensures r.Err? ==> old(cached).None? && Resolve(env, disk).Err? && r.error == Resolve(env, disk).error
    {
      var loaded := LoadConfig(env, disk);
      if loaded.Err? {
        return Err(loaded.error);
      }
      r := Ok(loaded.value.security.value);
    }

    method GetVmConfig(env: Env, disk: map<string, OpsimateConfig>) returns (r: Result<VmSection, string>)
      requires Valid()
      modifies this
      ensures Valid()
      ensures cached.Some? <==> r.Ok?
      ensures r.Ok? ==> cached.value.vm == Some(r.value)
      ensures old(cached).Some? ==> cached == old(cached)
      ensures old(cached).None? ==>
        cached == (if Resolve(env, disk).Ok? then Some(Resolve(env, disk).value) else None)
      ensures r.Err? ==> old(cached).None? && Resolve(env, disk).Err? && r.error == Resolve(env, disk).error
    {
      var loaded := LoadConfig(env, disk);
      if loaded.Err? {
        return Err(loaded.error);
      }
      r := Ok(loaded.value.vm.value);
    }
  }
}
