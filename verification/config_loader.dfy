/**
 * `ConfigLoader`: the configuration as a parsed YAML document, the one-pass
 * `${VAR}` substitution over nested mappings, and the section getters as
 * functions of the loaded configuration. Reading and parsing the file, and
 * the process environment, are inputs.
 */
module ConfigLoader {
  import opened Wrappers
  import PySlice

  /** A YAML value as `yaml.safe_load` builds it (mapping keys are strings here). */
  datatype Yaml =
    | YNull
    | YBool(b: bool)
    | YInt(i: int)
    | YFloat(literal: string)   // the text `str()` gives for the parsed float, not the YAML spelling
    | YStr(s: string)
    | YList(items: seq<Yaml>)
    | YMap(entries: map<string, Yaml>)

  /** Python truthiness; every float counts as true (floats are not interpreted). */
  predicate Truthy(y: Yaml) {
    match y
    case YNull => false
    case YBool(b) => b
    case YInt(i) => i != 0
    case YFloat(_) => true
    case YStr(s) => s != ""
    case YList(items) => items != []
    case YMap(entries) => entries != map[]
  }

  /** `type(y).__name__` */
  function TypeName(y: Yaml): string {
    match y
    case YNull => "NoneType"
    case YBool(_) => "bool"
    case YInt(_) => "int"
    case YFloat(_) => "float"
    case YStr(_) => "str"
    case YList(_) => "list"
    case YMap(_) => "dict"
  }

  /** `v.startswith('${') and v.endswith('}')` */
  predicate IsReference(v: string) {
    |v| >= 2 && v[..2] == "${" && v[|v| - 1] == '}'
  }

  /** `v[2:-1]`: the variable a reference names. */
  function VarName(v: string): (r: string)
    requires IsReference(v)
    ensures |v| == |r| + 3 && v == "${" + r + "}"
  {
    var r := PySlice.Between(v, 2, -1);
    assert r == v[2..|v| - 1];
    assert v == v[..2] + v[2..|v| - 1] + [v[|v| - 1]];
    r
  }

  /** Some string reached through nested mappings (not lists) is a reference. */
  predicate HasReference(y: Yaml) {
    match y
    case YStr(s) => IsReference(s)
    case YMap(m) => exists k :: k in m && HasReference(m[k])
    case _ => false
  }

  /**
   * What `_replace_env_vars` leaves in one entry: a mapping is processed
   * recursively; a reference string becomes the named variable's value,
   * when the variable is set, and stays as it is otherwise; lists and other
   * scalars are untouched.
   */
  function Substitute(y: Yaml, env: map<string, string>): (r: Yaml)
    ensures y.YMap? <==> r.YMap?
    ensures y.YMap? ==> r.entries.Keys == y.entries.Keys
    ensures y.YStr? && IsReference(y.s) && VarName(y.s) in env ==> r == YStr(env[VarName(y.s)])
    ensures !y.YMap? && !(y.YStr? && IsReference(y.s) && VarName(y.s) in env) ==> r == y
  {
    match y
    case YMap(m) => YMap(map k | k in m :: Substitute(m[k], env))
    case YStr(s) => if IsReference(s) && VarName(s) in env then YStr(env[VarName(s)]) else y
    case _ => y
  }

  /** `_replace_env_vars(config)`: the same keys, each value substituted. */
  function ReplaceEnvVars(config: map<string, Yaml>, env: map<string, string>): (r: map<string, Yaml>)
    ensures r.Keys == config.Keys
    ensures forall k :: k in r ==> r[k] == Substitute(config[k], env)
  {
    map k | k in config :: Substitute(config[k], env)
  }

  /** A document with no reference in it comes back unchanged. */
  lemma {:induction false} NoReferenceUnchanged(y: Yaml, env: map<string, string>)
    requires !HasReference(y)
    ensures Substitute(y, env) == y
  {
    match y
    case YMap(m) =>
      forall k | k in m ensures Substitute(m[k], env) == m[k] {
        NoReferenceUnchanged(m[k], env);
      }
      assert Substitute(y, env).entries == m;
    case _ =>
  }

  /** No environment value is itself a reference. */
  predicate PlainEnvironment(env: map<string, string>) {
    forall v :: v in env.Values ==> !IsReference(v)
  }

  /**
   * A second pass changes nothing when no environment value is itself a
   * reference: substitution is a single pass, not a fixpoint.
   */
  lemma {:induction false} SubstituteIdempotent(y: Yaml, env: map<string, string>)
    requires PlainEnvironment(env)
    ensures Substitute(Substitute(y, env), env) == Substitute(y, env)
  {
    match y
    case YMap(m) =>
      var once := Substitute(y, env).entries;
      forall k | k in m ensures Substitute(once[k], env) == once[k] {
        SubstituteIdempotent(m[k], env);
      }
      assert Substitute(Substitute(y, env), env).entries == once;
    case YStr(s) =>
      if IsReference(s) && VarName(s) in env {
        assert env[VarName(s)] in env.Values;
      }
    case _ =>
  }

  /**
   * A reference whose variable holds another reference is replaced by that
   * text verbatim, so a reference survives the pass.
   */
  lemma SinglePass(y: Yaml, env: map<string, string>)
    requires y.YStr? && IsReference(y.s) && VarName(y.s) in env
    requires IsReference(env[VarName(y.s)])
    ensures Substitute(y, env) == YStr(env[VarName(y.s)])
    ensures HasReference(Substitute(y, env))
  {
  }

  /** Every reference reached through nested mappings names a set variable. */
  predicate RefsBound(y: Yaml, env: map<string, string>) {
    match y
    case YStr(s) => IsReference(s) ==> VarName(s) in env
    case YMap(m) => forall k :: k in m ==> RefsBound(m[k], env)
    case _ => true
  }

  /**
   * With a plain environment, the substituted document is free of
   * references exactly when every reference in it names a set variable.
   */
  lemma {:induction false} SubstituteResolves(y: Yaml, env: map<string, string>)
    requires PlainEnvironment(env)
    ensures !HasReference(Substitute(y, env)) <==> RefsBound(y, env)
  {
    match y
    case YMap(m) =>
      var once := Substitute(y, env).entries;
      forall k | k in m ensures !HasReference(once[k]) <==> RefsBound(m[k], env) {
        SubstituteResolves(m[k], env);
      }
      if !RefsBound(y, env) {
        var k :| k in m && !RefsBound(m[k], env);
        assert k in once && HasReference(once[k]);
      }
    case YStr(s) =>
      if IsReference(s) && VarName(s) in env {
        assert env[VarName(s)] in env.Values;
      }
    case _ =>
  }

  /** What opening and parsing the configuration file gave. */
  datatype ConfigFile =
    | FileMissing            // FileNotFoundError
    | ParseError(e: string)  // yaml.YAMLError
    | Parsed(doc: Yaml)      // what yaml.safe_load returned

  /**
   * `load_config`: a parsed mapping with its variables substituted; every
   * failure, including a document that is not a mapping (whose missing
   * `.items()` the catch-all handler absorbs), gives `{}`.
   */
  function LoadConfig(file: ConfigFile, env: map<string, string>): (r: map<string, Yaml>)
    ensures file.Parsed? && file.doc.YMap? ==> r == ReplaceEnvVars(file.doc.entries, env)
    ensures !(file.Parsed? && file.doc.YMap?) ==> r == map[]
  {
    match file
    case Parsed(YMap(m)) => ReplaceEnvVars(m, env)
    case _ => map[]
  }

  /** `config.get(key, default)` */
  function Section(config: map<string, Yaml>, key: string, default: Yaml): (r: Yaml)
    ensures key in config ==> r == config[key]
    ensures key !in config ==> r == default
  {
    if key in config then config[key] else default
  }

  /**
   * `get_service_config`: `config.get('services', {}).get(name, {})`; a
   * `services` value that is not a mapping has no `.get` and raises.
   */
  function GetServiceConfig(config: map<string, Yaml>, name: string): (r: Result<Yaml>)
    ensures r.Failure? <==> "services" in config && !config["services"].YMap?
    ensures r.Failure? ==> r.error == MissingAttribute(TypeName(config["services"]), "get")
    ensures r.Success? && "services" in config && name in config["services"].entries ==>
      r.value == config["services"].entries[name]
    ensures r.Success? && ("services" !in config || name !in config["services"].entries) ==>
      r.value == YMap(map[])
  {
    match Section(config, "services", YMap(map[]))
    case YMap(services) => Success(Section(services, name, YMap(map[])))
    case other => Failure(MissingAttribute(TypeName(other), "get"))
  }

  const ApiDefault := YMap(map["host" := YStr("127.0.0.1"), "port" := YInt(5000)])
  const ConsoleDefault := YMap(map["enabled" := YBool(true)])
  const LoggingDefault := YMap(map["level" := YStr("INFO"), "file" := YStr("llmserver.log")])

  /** `get_api_config` */
  function ApiConfig(config: map<string, Yaml>): (r: Yaml)
    ensures "api" !in config ==>
      (r.YMap? && r.entries.Keys == {"host", "port"}
       && r.entries["host"] == YStr("127.0.0.1") && r.entries["port"] == YInt(5000))
    ensures "api" in config ==> r == config["api"]
  {
    Section(config, "api", ApiDefault)
  }

  /** `get_console_config` */
  function ConsoleConfig(config: map<string, Yaml>): (r: Yaml)
    ensures "console" !in config ==> r.YMap? && r.entries.Keys == {"enabled"} && r.entries["enabled"] == YBool(true)
    ensures "console" in config ==> r == config["console"]
  {
    Section(config, "console", ConsoleDefault)
  }

  /** `get_logging_config` */
  function LoggingConfig(config: map<string, Yaml>): (r: Yaml)
    ensures "logging" !in config ==>
      (r.YMap? && r.entries.Keys == {"level", "file"}
       && r.entries["level"] == YStr("INFO") && r.entries["file"] == YStr("llmserver.log"))
    ensures "logging" in config ==> r == config["logging"]
  {
    Section(config, "logging", LoggingDefault)
  }

  /** `get_plugin_config` */
  function PluginConfig(config: map<string, Yaml>): (r: Yaml)
    ensures "plugins" !in config ==> r == YMap(map[])
    ensures "plugins" in config ==> r == config["plugins"]
  {
    Section(config, "plugins", YMap(map[]))
  }

  /** A missing or unreadable file leaves every getter on its default. */
  lemma MissingFileDefaults(file: ConfigFile, env: map<string, string>, name: string)
    requires !(file.Parsed? && file.doc.YMap?)
    ensures GetServiceConfig(LoadConfig(file, env), name) == Success(YMap(map[]))
    ensures ApiConfig(LoadConfig(file, env)) == ApiDefault
    ensures ConsoleConfig(LoadConfig(file, env)) == ConsoleDefault
    ensures LoggingConfig(LoadConfig(file, env)) == LoggingDefault
  {
  }
}
