/**
 * `ManagerInstance`: the module-level wiring. The service-client registry is
 * built from the loaded configuration and the environment; clients are looked
 * up by service name; `send_prompt` looks the context up, then its client,
 * and delegates to the manager.
 */
module ManagerInstance {
  import opened Wrappers
  import opened ConfigLoader
  import opened BaseClient
  import opened ServiceClients
  import CM = ConversationManager
  import Groq = GroqClient
  import Cerebras = CerebrasClient
  import Ollama = OllamaClient

  /** The configuration each constructed client receives. */
  datatype ClientSpec =
    | GroqSpec(apiKey: Yaml)
    | OllamaSpec(host: Yaml, port: Yaml)
    | CerebrasSpec(apiKey: Yaml)

  /**
   * `os.getenv(var) or section.get('api_key')`: a set, non-empty variable
   * wins without touching the section; otherwise the section must be a
   * mapping, and a missing key reads as `None`.
   */
  function ApiKey(section: Yaml, envVar: string, env: map<string, string>): (r: Result<Yaml>)
    ensures envVar in env && env[envVar] != "" ==> r == Success(YStr(env[envVar]))
    ensures !(envVar in env && env[envVar] != "") ==>
      match section
      case YMap(m) => r == Success(if "api_key" in m then m["api_key"] else YNull)
      case _ => r == Failure(MissingAttribute(TypeName(section), "get"))
  {
    if envVar in env && env[envVar] != "" then Success(YStr(env[envVar]))
    else match section
      case YMap(m) => Success(if "api_key" in m then m["api_key"] else YNull)
      case _ => Failure(MissingAttribute(TypeName(section), "get"))
  }

  /**
   * The Groq and Cerebras setup blocks: a key is sought only when the
   * service's section is truthy, and the client is made only when the key
   * found is truthy. `Success(None)` means the service is not registered.
   */
  function KeyFor(config: map<string, Yaml>, env: map<string, string>, service: string, envVar: string): (r: Result<Option<Yaml>>)
    ensures GetServiceConfig(config, service).Failure? ==> r == Failure(GetServiceConfig(config, service).error)
    ensures GetServiceConfig(config, service).Success? ==>
      var section := GetServiceConfig(config, service).value;
      && (!Truthy(section) ==> r == Success(None))
      && (Truthy(section) && ApiKey(section, envVar, env).Failure? ==> r == Failure(ApiKey(section, envVar, env).error))
      && (Truthy(section) && ApiKey(section, envVar, env).Success? ==>
            r == Success(if Truthy(ApiKey(section, envVar, env).value) then Some(ApiKey(section, envVar, env).value) else None))
    ensures r.Success? && r.value.Some? ==> Truthy(r.value.value)
  {
    match GetServiceConfig(config, service)
    case Failure(e) => Failure(e)
    case Success(section) =>
      if !Truthy(section) then Success(None)
      else match ApiKey(section, envVar, env)
        case Failure(e) => Failure(e)
        case Success(key) => Success(if Truthy(key) then Some(key) else None)
  }

  const DefaultOllamaHost := YStr("http://localhost")
  const DefaultOllamaPort := YInt(11434)

  /** The Ollama setup block: registered whenever its section is truthy. */
  function OllamaFor(config: map<string, Yaml>): (r: Result<Option<ClientSpec>>)
    ensures GetServiceConfig(config, "ollama").Failure? ==> r == Failure(GetServiceConfig(config, "ollama").error)
    ensures GetServiceConfig(config, "ollama").Success? ==>
      var section := GetServiceConfig(config, "ollama").value;
      && (!Truthy(section) ==> r == Success(None))
      && (Truthy(section) && !section.YMap? ==> r == Failure(MissingAttribute(TypeName(section), "get")))
      && (Truthy(section) && section.YMap? ==>
            r == Success(Some(OllamaSpec(Section(section.entries, "host", DefaultOllamaHost),
                                         Section(section.entries, "port", DefaultOllamaPort)))))
  {
    match GetServiceConfig(config, "ollama")
    case Failure(e) => Failure(e)
    case Success(section) =>
      if !Truthy(section) then Success(None)
      else match section
        case YMap(m) => Success(Some(OllamaSpec(Section(m, "host", DefaultOllamaHost), Section(m, "port", DefaultOllamaPort))))
        case _ => Failure(MissingAttribute(TypeName(section), "get"))
  }

  /**
   * `service_clients` after the three setup blocks (lines 36-64), or the
   * exception that aborts the module's import. The blocks run in the order
   * groq, ollama, cerebras, so the first failing one decides the error.
   */
  function BuildRegistry(config: map<string, Yaml>, env: map<string, string>): (r: Result<map<string, ClientSpec>>)
    ensures r.Success? <==>
      KeyFor(config, env, "groq", "GROQ_API_KEY").Success? && OllamaFor(config).Success?
      && KeyFor(config, env, "cerebras", "CEREBRAS_API_KEY").Success?
    ensures KeyFor(config, env, "groq", "GROQ_API_KEY").Failure? ==>
      r.Failure? && r.error == KeyFor(config, env, "groq", "GROQ_API_KEY").error
    ensures KeyFor(config, env, "groq", "GROQ_API_KEY").Success? && OllamaFor(config).Failure? ==>
      r.Failure? && r.error == OllamaFor(config).error
    ensures KeyFor(config, env, "groq", "GROQ_API_KEY").Success? && OllamaFor(config).Success?
            && KeyFor(config, env, "cerebras", "CEREBRAS_API_KEY").Failure? ==>
      r.Failure? && r.error == KeyFor(config, env, "cerebras", "CEREBRAS_API_KEY").error
    ensures r.Success? ==> r.value.Keys <= {"groq", "ollama", "cerebras"}
    ensures r.Success? ==>
      var groq := KeyFor(config, env, "groq", "GROQ_API_KEY").value;
      && ("groq" in r.value <==> groq.Some?)
      && ("groq" in r.value ==> r.value["groq"] == GroqSpec(groq.value))
    ensures r.Success? ==>
      var ollama := OllamaFor(config).value;
      && ("ollama" in r.value <==> ollama.Some?)
      && ("ollama" in r.value ==> r.value["ollama"] == ollama.value)
    ensures r.Success? ==>
      var cerebras := KeyFor(config, env, "cerebras", "CEREBRAS_API_KEY").value;
      && ("cerebras" in r.value <==> cerebras.Some?)
      && ("cerebras" in r.value ==> r.value["cerebras"] == CerebrasSpec(cerebras.value))
  {
    match KeyFor(config, env, "groq", "GROQ_API_KEY")
    case Failure(e) => Failure(e)
    case Success(groq) =>
      var r1 := if groq.Some? then map["groq" := GroqSpec(groq.value)] else map[];
      match OllamaFor(config)
      case Failure(e) => Failure(e)
      case Success(ollama) =>
        var r2 := if ollama.Some? then r1["ollama" := ollama.value] else r1;
        match KeyFor(config, env, "cerebras", "CEREBRAS_API_KEY")
        case Failure(e) => Failure(e)
        case Success(cerebras) =>
          Success(if cerebras.Some? then r2["cerebras" := CerebrasSpec(cerebras.value)] else r2)
  }

  /** Without a configuration file nothing is registered. */
  lemma NoConfigNoClients(env: map<string, string>)
    ensures BuildRegistry(map[], env) == Success(map[])
  {
  }

  /**
   * A key in the environment registers Groq even when its section has no
   * `api_key`, provided the section is present and truthy.
   */
  lemma EnvironmentKeyRegistersGroq(config: map<string, Yaml>, env: map<string, string>)
    requires "services" in config && config["services"].YMap?
    requires "groq" in config["services"].entries && Truthy(config["services"].entries["groq"])
    requires "GROQ_API_KEY" in env && env["GROQ_API_KEY"] != ""
    requires BuildRegistry(config, env).Success?
    ensures BuildRegistry(config, env).value["groq"] == GroqSpec(YStr(env["GROQ_API_KEY"]))
  {
  }

  /**
   * `str(v)` for the scalar values a host or port can be; containers are not
   * rendered. An integer is written in decimal with a leading `-` when
   * negative; a float gives the text `str()` prints for it, which is what
   * `YFloat` carries.
   */
  function Render(y: Yaml): (r: Option<string>)
    ensures r.Some? <==> !y.YList? && !y.YMap?
    ensures y.YStr? ==> r == Some(y.s)
    ensures y.YNull? ==> r == Some("None")
    ensures y.YBool? ==> r == Some(if y.b then "True" else "False")
    ensures y.YInt? && y.i >= 0 ==> r.Some? && IsNumeral(r.value) && Value(r.value) == y.i
    ensures y.YInt? && y.i < 0 ==>
      && r.Some? && |r.value| >= 2 && r.value[0] == '-'
      && IsNumeral(r.value[1..]) && Value(r.value[1..]) == -y.i
    ensures y.YFloat? ==> r == Some(y.literal)
  {
    match y
    case YNull => Some("None")
    case YBool(b) => Some(if b then "True" else "False")
    case YInt(i) =>
      if i < 0 then
        var d := Decimal(-i);
        assert ("-" + d)[1..] == d;
        Some("-" + d)
      else Some(Decimal(i))
    case YFloat(lit) => Some(lit)
    case YStr(s) => Some(s)
    case _ => None
  }

  predicate IsDigit(c: char) { '0' <= c <= '9' }

  /** The character of a decimal digit. */
  function Digit(d: nat): (c: char)
    requires d < 10
    ensures IsDigit(c) && c as int - '0' as int == d
  {
    ('0' as int + d) as char
  }

  /** The number a string of decimal digits denotes. */
  function Value(s: string): nat
    requires forall i :: 0 <= i < |s| ==> IsDigit(s[i])
  {
    if s == [] then 0
    else
      assert IsDigit(s[|s| - 1]);
      Value(s[..|s| - 1]) * 10 + (s[|s| - 1] as int - '0' as int)
  }

  /** A decimal numeral as `str` writes one: digits only, no leading zero. */
  predicate IsNumeral(s: string) {
    && |s| >= 1
    && (forall i :: 0 <= i < |s| ==> IsDigit(s[i]))
    && (s[0] == '0' ==> s == "0")
  }

  /** `str(n)` for a non-negative integer: the numeral whose value is `n`. */
  function Decimal(n: nat): (r: string)
    ensures IsNumeral(r) && Value(r) == n
    decreases n
  {
    if n < 10 then [Digit(n)]
    else
      var r := Decimal(n / 10) + [Digit(n % 10)];
      assert r[..|r| - 1] == Decimal(n / 10);
      r
  }

  /** Every numeral is what `str` writes for the number it denotes. */
  lemma {:induction false} DecimalOfValue(s: string)
    requires IsNumeral(s)
    ensures Decimal(Value(s)) == s
    decreases |s|
  {
    var init := s[..|s| - 1];
    if |s| == 1 {
      assert Value(s) == Value(init) * 10 + (s[0] as int - '0' as int);
    } else {
      assert init[0] == s[0];
      assert IsNumeral(init);
      DecimalOfValue(init);
      var d := s[|s| - 1] as int - '0' as int;
      assert Value(s) == Value(init) * 10 + d;
      assert init[0] != '0';
      PositiveNumeral(init);
      DivMod10(Value(init), d);
      assert Value(s) / 10 == Value(init) && Value(s) % 10 == d;
      assert Digit(d) == s[|s| - 1];
      assert s == init + [s[|s| - 1]];
    }
  }

  /** Appending a digit `d` to `q` in decimal is undone by `/ 10` and `% 10`. */
  lemma DivMod10(q: nat, d: nat)
    requires d < 10
    ensures (q * 10 + d) / 10 == q && (q * 10 + d) % 10 == d
  {
  }

  /** A numeral other than `0` denotes a positive number. */
  lemma {:induction false} PositiveNumeral(s: string)
    requires IsNumeral(s) && s != "0"
    ensures Value(s) >= 1
    decreases |s|
  {
    var init := s[..|s| - 1];
    if |s| == 1 {
      assert init == [];
    } else {
      assert init[0] == s[0];
      assert init != "0";
      PositiveNumeral(init);
    }
  }

  /** The address the Ollama SDK is given, when host and port are scalars. */
  function OllamaUrl(host: Yaml, port: Yaml): (r: Option<string>)
    ensures r.Some? <==> Render(host).Some? && Render(port).Some?
    ensures r.Some? ==> r.value == Ollama.BaseUrl(Render(host), Render(port))
  {
    if Render(host).Some? && Render(port).Some? then Some(Ollama.BaseUrl(Render(host), Render(port))) else None
  }

  /** An Ollama section without `host` or `port` is registered with the defaults. */
  lemma DefaultOllamaSpec(config: map<string, Yaml>)
    requires "services" in config && config["services"].YMap?
    requires "ollama" in config["services"].entries
    requires config["services"].entries["ollama"].YMap?
    requires config["services"].entries["ollama"].entries != map[]
    requires "host" !in config["services"].entries["ollama"].entries
    requires "port" !in config["services"].entries["ollama"].entries
    ensures OllamaFor(config) == Success(Some(OllamaSpec(DefaultOllamaHost, DefaultOllamaPort)))
  {
  }

  lemma DefaultPortText()
    ensures Render(DefaultOllamaPort) == Some("11434")
  {
    assert Decimal(1) == "1";
    assert Decimal(11) == "11";
    assert Decimal(114) == "114";
    assert Decimal(1143) == "1143";
    assert Decimal(11434) == "11434";
  }

  /** The client's address for the default host and port text. */
  lemma DefaultBaseUrl()
    ensures Ollama.BaseUrl(Some("http://localhost"), Some("11434")) == "http://http://localhost:11434"
  {
    var u := Ollama.BaseUrl(Some("http://localhost"), Some("11434"));
    assert u == "http://" + "http://localhost" + ":" + "11434";
    assert |u| == 29;
    assert forall i :: 0 <= i < 29 ==> u[i] == "http://http://localhost:11434"[i];
  }

  /**
   * The default host `http://localhost` already carries a scheme, and the
   * client adds its own: the address the SDK is given carries it twice.
   */
  lemma DefaultOllamaUrl()
    ensures OllamaUrl(DefaultOllamaHost, DefaultOllamaPort) == Some("http://http://localhost:11434")
  {
    DefaultPortText();
    DefaultBaseUrl();
    assert Render(DefaultOllamaHost) == Some("http://localhost");
  }

  /** The SDK behaviour behind each kind of client, as a function of its configuration. */
  datatype Sdks = Sdks(
    groq: Yaml -> Groq.Api,
    cerebras: Yaml -> Cerebras.Api,
    ollama: (Yaml, Yaml) -> Ollama.Api,
    listing: (Yaml, Yaml) -> Ollama.Listing)

  /** Constructing the client a spec describes. */
  function Connect(spec: ClientSpec, sdks: Sdks): (a: Adapter)
    ensures spec.GroqSpec? <==> a.GroqAdapter?
    ensures spec.OllamaSpec? <==> a.OllamaAdapter?
    ensures spec.GroqSpec? ==> a == GroqAdapter(sdks.groq(spec.apiKey))
    ensures spec.CerebrasSpec? ==> a == CerebrasAdapter(sdks.cerebras(spec.apiKey))
    ensures spec.OllamaSpec? ==> a == OllamaAdapter(sdks.ollama(spec.host, spec.port), sdks.listing(spec.host, spec.port))
  {
    match spec
    case GroqSpec(k) => GroqAdapter(sdks.groq(k))
    case CerebrasSpec(k) => CerebrasAdapter(sdks.cerebras(k))
    case OllamaSpec(h, p) => OllamaAdapter(sdks.ollama(h, p), sdks.listing(h, p))
  }

  type Registry = map<string, Adapter>

  /** The registry of constructed clients. */
  function Clients(config: map<string, Yaml>, env: map<string, string>, sdks: Sdks): (r: Result<Registry>)
    ensures r.Success? <==> BuildRegistry(config, env).Success?
    ensures r.Failure? ==> r.error == BuildRegistry(config, env).error
    ensures r.Success? ==> r.value.Keys == BuildRegistry(config, env).value.Keys
    ensures r.Success? ==> forall s :: s in r.value ==> r.value[s] == Connect(BuildRegistry(config, env).value[s], sdks)
  {
    match BuildRegistry(config, env)
    case Failure(e) => Failure(e)
    case Success(specs) => Success(map s | s in specs :: Connect(specs[s], sdks))
  }

  function NoClient(service: string): string {
    "No client available for service: " + service
  }

  /** `get_service_client`: the registered client, or a `ValueError` naming the service. */
  function GetServiceClient(registry: Registry, service: string): (r: Result<Adapter>)
    ensures r.Success? <==> service in registry
    ensures r.Success? ==> r.value == registry[service]
    ensures r.Failure? ==> r.error == NoClient(service)
  {
    if service in registry then Success(registry[service]) else Failure(NoClient(service))
  }

  /** What the wrapper's caller receives: the manager's answer, or the propagated `ValueError`. */
  datatype Delivery =
    | Delivered(outcome: CM.Outcome<CM.PromptStatus>)
    | NotRegistered(message: string)

  /**
   * `send_prompt`: a missing context is answered before the registry is
   * consulted; otherwise the context's service must be registered, and the
   * manager does the rest with that client.
   */
  function SendPrompt(m: CM.Manager, registry: Registry, name: string, prompt: string): (r: Delivery)
    ensures CM.GetContext(m, name).None? ==> r == Delivered(CM.Outcome(m, CM.Unanswered(CM.DoesNotExist(name))))
    ensures CM.GetContext(m, name).Some? ==>
      var service := CM.GetContext(m, name).value.service;
      && (service !in registry ==> r == NotRegistered(NoClient(service)))
      && (service in registry ==> r == Delivered(CM.SendPrompt(m, name, prompt, AsClient(registry[service]))))
  {
    match CM.GetContext(m, name)
    case None => Delivered(CM.Outcome(m, CM.Unanswered(CM.DoesNotExist(name))))
    case Some(c) =>
      match GetServiceClient(registry, c.service)
      case Failure(e) => NotRegistered(e)
      case Success(a) => Delivered(CM.SendPrompt(m, name, prompt, AsClient(a)))
  }

  /** A missing context is answered the same way whatever is registered. */
  lemma MissingContextIgnoresRegistry(m: CM.Manager, r1: Registry, r2: Registry, name: string, prompt: string)
    requires CM.GetContext(m, name).None?
    ensures SendPrompt(m, r1, name, prompt) == SendPrompt(m, r2, name, prompt)
  {
  }

  /**
   * A prompt for a context served by Ollama is never answered: the awaited
   * synchronous result raises, and the user message stays in the history
   * without being saved.
   */
  lemma OllamaPromptFaults(m: CM.Manager, registry: Registry, name: string, prompt: string)
    requires CM.GetContext(m, name).Some?
    requires CM.GetContext(m, name).value.service in registry
    requires registry[CM.GetContext(m, name).value.service].OllamaAdapter?
    ensures SendPrompt(m, registry, name, prompt).Delivered?
    ensures SendPrompt(m, registry, name, prompt).outcome.status.PromptFaulted?
    ensures SendPrompt(m, registry, name, prompt).outcome.status.errorType == "TypeError"
    ensures SendPrompt(m, registry, name, prompt).outcome.next.store == m.store
    ensures SendPrompt(m, registry, name, prompt).outcome.next.contexts.items[name].history
      == m.contexts.items[name].history + [ConversationContext.Message("user", prompt)]
  {
    var c := CM.GetContext(m, name).value;
    var client := AsClient(registry[c.service]);
    var asked := ConversationContext.AddMessage(c, "user", prompt);
    assert client(asked).Raised? && client(asked).errorType == "TypeError";
  }
}
