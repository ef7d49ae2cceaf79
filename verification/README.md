# LLM server core, modelled in Dafny

This project models the core of a small multi-provider chat server. The server keeps named
conversation contexts. Each context is bound to one of three generation providers: Groq,
Cerebras or Ollama. A turn-based text adventure can be layered on top of a context. The model
covers:

- **Conversation contexts and their manager** (`ConversationContext`, `ConversationManager`):
  create, list with a 50-character preview, delete, get, send a prompt, copy with truncation,
  save and reload. The manager is an insertion-ordered map from name to context. Persistence
  is the key-to-record map a storage backend holds, and the generator is a client function.
- **Game state and engine** (`GameState`, `GameEngine`, `JsonRecovery`): the append-only turn
  history with its rollback, the start, turn and end transitions, and the rule that recovers a
  JSON object from a provider's text.
- **Provider adapters** (`BaseClient`, `GroqClient`, `CerebrasClient`, `OllamaClient`,
  `ServiceClients`):
  - message projection;
  - default parameters;
  - request construction from the settings object;
  - stream folding and errors returned as prefixed text;
  - the model catalogs and `get_model_info` rules.

  SDK calls are parameters that return abstract replies: content, a sequence of chunk deltas,
  and an optional interrupting exception.
- **Wiring** (`ConfigLoader`, `ManagerInstance`, `PluginManager`):
  - `${VAR}` substitution over the YAML configuration, and the section getters;
  - the service-client registry that the configuration and the environment decide;
  - `get_service_client` and the `send_prompt` wrapper;
  - the plugin filename filter, registration, lookup and execution.

Python semantics the code relies on are modelled explicitly. `PyDict` is a dict that keeps
insertion order. `PySlice` normalises negative and out-of-range slice bounds. Truthiness is
modelled where the code tests it. Exceptions are modelled as tagged results carrying the text
Python would produce.

Collaborators outside the core are parameters:
- `game_settings.get_default_settings`;
- `json.loads`;
- the SDKs;
- the storage listing;
- the configuration file's parse result;
- the process environment (a map);
- the plugin importer.

### Where the code departs from its intended design (the model follows the code)

- `rollback(steps)` is defined for every integer.
  - `steps == 0` empties the history and then raises `IndexError` from `history[-1]`.
  - A negative `steps` keeps a prefix (`history[:-steps]`).
  - Only `steps >= len(history)` raises "Cannot rollback that many steps" with no change.

  See `GameState.Rollback`.
- `copy_context(src, dst, N)` builds `[h[0]] + h[-N:]`.
  - The last `N` entries can include `h[0]`, which then appears twice. The intended rule is "the
    last N non-system entries".
  - `N = 0` keeps the whole history plus a second copy of `h[0]`, so "at most N+1 entries"
    holds only for `N >= 1`.
  - An empty source history raises `IndexError` before anything is stored.
- The engine's `_generate_response` calls `conversation_manager.get_service_client`, which
  `ConversationManager` does not define. As shipped, no `start_game` or `process_turn` changes
  any game. An unknown context (`start_game`) or a context without a game (`process_turn`)
  still fails first with its `ValueError`. Past those checks, both fail with the
  `AttributeError` for the missing method (`GameEngine.ShippedEngineIsInert`). The engine is
  therefore modelled with the method as a parameter (`GameEngine.Resolver`): either missing,
  or a lookup. It also ignores the prompt it builds, so the client only ever sees the context.
- The JSON fallback tests `end != -1` with `end = rfind('}') + 1`. That test never fails, so
  only a missing `{` reports "No JSON object found in response". A missing `}` decodes an
  empty slice.
- `OllamaClient.generate_response` is synchronous, but `send_prompt` awaits it. Awaiting the
  returned `str` raises `TypeError`, so a prompt sent to an Ollama-bound context always faults.
  The user message stays appended and is not saved (`ManagerInstance.OllamaPromptFaults`).
- The default Ollama host in the registry is `http://localhost`, and the client prefixes
  another `http://`. The address becomes `http://http://localhost:11434`
  (`ManagerInstance.DefaultOllamaUrl`).
- `process_turn` on a game whose context was deleted fails on `None.service` when the lookup
  method exists (`GameEngine.DeletedContextTurn`). The method is looked up before the context
  is read, so the shipped engine reports the missing method instead.
- Ollama's stream loop concatenates every chunk's content without a filter. A `None` content
  raises `TypeError`, and the exception comes back as error text. That chunk is reached before
  any later interruption of the stream, so the `TypeError` text wins.

## Model

| member | source | states |
|---|---|---|
| ConversationContext.AddMessage | conversation_manager.py:21-22 | the history grows by exactly the `{role, content}` message; earlier entries and all other fields are unchanged |
| ConversationContext.ToRecord | conversation_manager.py:24-32 | the record carries the identity fields, the settings' attribute map (or the dict itself) and the full history |
| ConversationContext.FromRecord | conversation_manager.py:34-46 | loading fails exactly when the overlay raises; otherwise identity fields come from the record, settings are the service defaults overlaid with the stored map, and a missing history loads as empty |
| ConversationContext.RoundTrip | conversation_manager.py:24-46 | save-then-load keeps name, service, model, prompt and history; the settings keys are defaults plus stored keys, and every stored value survives |
| ConversationContext.RoundTripExact | conversation_manager.py:24-46 | a context whose settings already hold every default attribute is reloaded equal to itself |
| ConversationContext.ReloadIdempotent | conversation_manager.py:34-46 | saving a reloaded context and reloading it again gives the same context |
| Settings.Stored | conversation_manager.py:30 | `__dict__` of a settings object, or the dict itself |
| Settings.Truthy | services/groq_client.py:26 | Python truthiness of a settings value, as the adapters test `stream` and `use_tools` |
| Settings.Attr | services/groq_client.py:21-24 | attribute read succeeds exactly on an object holding the key; a dict always raises "'dict' object has no attribute" |
| Settings.ReadAll | services/groq_client.py:21-24 | all keys read left to right succeed exactly when each read does; otherwise the error is the first failing read's |
| Settings.Overlay | conversation_manager.py:36-38 | `setattr` per stored key: stored keys override and add attributes and other defaults stay; on a dict base any stored key makes the load fail |
| ConversationManager.Save | conversation_manager.py:65-71 | without a backend nothing is stored; with one, exactly the context's key is written with its `to_dict` record |
| ConversationManager.Open | conversation_manager.py:49-63 | the manager starts valid and keeps the backend; it is empty without a backend or when `load_all` raises, and otherwise holds what loading the listing into an empty dict gives |
| ConversationManager.OpenHoldsListed | conversation_manager.py:49-60 | when every listed record loads, the opened manager holds exactly the listed names |
| ConversationManager.LoadRecords | conversation_manager.py:56-60 | `from_dict` of each record in turn, filed under its name; the first raising record ends the loop |
| ConversationManager.LoadValid | conversation_manager.py:54-60 | loading keeps every context filed under its own name, and the order stays consistent with the keys |
| ConversationManager.LoadedNames | conversation_manager.py:58-60 | when every record loads, the loaded names are the names already present plus exactly the listed names |
| ConversationManager.LaterRecordWins | conversation_manager.py:58-60 | among records sharing a name, the last listed one is kept |
| ConversationManager.KeptAfter | conversation_manager.py:58-60 | a loaded context that no later record names survives the rest of the load |
| ConversationManager.LoadStopsAtFailure | conversation_manager.py:56-63 | the first record that raises ends the load; records before it stay loaded |
| ConversationManager.CreateContext | conversation_manager.py:73-85 | a taken name is refused with no change; a fresh name adds exactly that key at the end, with history `[system prompt]`, the given or default settings, and a save |
| ConversationManager.Preview | conversation_manager.py:98 | a prompt of at most 50 characters is shown as is; a longer one as its first 50 characters plus `...` |
| ConversationManager.PreviewIsPrompt | conversation_manager.py:98 | the preview equals the prompt exactly when the prompt is at most 50 long, or is 53 long and ends in `...` |
| ConversationManager.ListContexts | conversation_manager.py:89-101 | one summary per context in insertion order, with the previewed prompt |
| ConversationManager.DeleteContext | conversation_manager.py:105-112 | a present name is removed from memory and storage, the other contexts keep their values and their order, and nothing else changes; an absent name is refused with no change |
| ConversationManager.GetContext | conversation_manager.py:116-117 | the context filed under the name, or `None` exactly when there is none |
| ConversationManager.SendPrompt | conversation_manager.py:119-135 | a missing context is refused with no change; otherwise the user message is appended before the client runs; a non-empty reply is appended and saved; an empty or missing reply or a raised error keeps the user message unsaved |
| ConversationManager.CopyHistory | conversation_manager.py:154-155 | without a limit the history is copied; with a limit, an empty history raises |
| ConversationManager.CopyKeepsFirstAndLast | conversation_manager.py:154-155 | with `N >= 1` the copy is the source's first entry followed by its last `min(N, len)` entries |
| ConversationManager.CopyZeroKeepsAll | conversation_manager.py:154-155 | with `N = 0` the copy is the whole history behind a second copy of its first entry |
| ConversationManager.CopyContext | conversation_manager.py:137-161 | refused if the source is absent or the destination is taken; otherwise only the new key is added, with the source's configuration and copied history, and saved; the source is unchanged |
| ConversationManager.CreateThenDelete | conversation_manager.py:73-112 | creating a fresh context and then deleting it restores the context map exactly, order included |
| ConversationManager.DeleteTwice | conversation_manager.py:105-112 | after a delete the name is gone, and a second delete is refused without change |
| ConversationManager.CreateThenSend | conversation_manager.py:73-133 | create then an answered send leaves history system, user, assistant, and the stored record matches |
| GameState.New | game/state.py:2-5 | a new game is valid, with the seed as its only history entry and as the current state |
| GameState.Update | game/state.py:7-9 | the new state is appended and current; earlier entries are unchanged and validity is restored |
| GameState.GetCurrentState | game/state.py:11-12 | for a valid game, the last history entry |
| GameState.GetHistory | game/state.py:14-15 | the history itself; for a valid game it is non-empty and ends in the current state |
| GameState.Rollback | game/state.py:17-22 | `1 <= k < len` keeps the prefix of length `len-k` with its last entry current; `k >= len` raises with no change; `k = 0` empties and raises; a negative `k` keeps a prefix; validity is kept for `k != 0` |
| GameState.RollbackUndoesUpdate | game/state.py:7-20 | a one-step rollback after an update restores the earlier state |
| GameState.RollbackUndoesUpdates | game/state.py:7-20 | rolling back `k` steps after `k` updates restores the state before them |
| GameState.UpdateAllHistory | game/state.py:7-9 | successive updates append their states in order |
| JsonRecovery.Find | game/engine.py:71 | the first index of the character, or -1 exactly when it is absent |
| JsonRecovery.RFind | game/engine.py:72 | the last index of the character, or -1 exactly when it is absent |
| JsonRecovery.Recover | game/engine.py:67-79 | strict decode first; on failure, a text without `{` gives "No JSON object found"; otherwise the first-`{`-to-last-`}` slice is decoded, or "Could not parse" |
| JsonRecovery.RecoverEmbedded | game/engine.py:71-75 | an object surrounded by brace-free chatter is recovered exactly |
| JsonRecovery.RecoverWithoutClosingBrace | game/engine.py:71-77 | with `{` but no `}` the candidate is empty and parsing fails |
| GameEngine.GenerateTurn | game/engine.py:62-82 | a missing lookup method fails first; then a deleted context fails on `None.service`; then a failed lookup, a raising client or a `None` text fails with that error; otherwise the text goes through JSON recovery |
| GameEngine.StartGame | game/engine.py:16-36 | an unknown context is an error with no change; a success installs a fresh game seeded with the result and leaves other games untouched; a failure changes nothing |
| GameEngine.ProcessTurn | game/engine.py:38-60 | without a game it is an error and no game is created; otherwise the generation runs on whatever `get_context` gives; a success appends the result to that game only; a failure leaves every game as it was |
| GameEngine.EndGame | game/engine.py:84-89 | removes exactly that game if present, the others keeping their values and order; otherwise does nothing |
| GameEngine.GetGameState | game/engine.py:91-96 | the current state exactly when a game exists, else "No active game for this context" |
| GameEngine.ListActiveGames | game/engine.py:98-99 | exactly the names with a game, each once |
| GameEngine.StartListsGame | game/engine.py:29-30 | a game started for a new context is listed after the others; restarting one keeps its place |
| GameEngine.TurnIgnoresAction | game/engine.py:38-56 | the action text never changes what a turn does |
| GameEngine.ShippedEngineIsInert | game/engine.py:16-65 | with the shipped manager, neither start nor turn changes the games; past the context and game checks both report the missing `get_service_client` |
| GameEngine.DeletedContextTurn | game/engine.py:43-64 | with a working lookup, a turn for a game whose context was deleted fails on `None.service` with no change |
| GameEngine.StartThenEnd | game/engine.py:16-89 | a started game is reported by `get_game_state`, and `end_game` removes only it |
| GameEngine.TurnThenRollback | game/engine.py:53-55 | a successful turn is undone by a one-step rollback of its game |
| BaseClient.PrepareMessages | services/base_client.py:68-75 | one `{role, content}` per history entry, same length and order |
| BaseClient.PrepareAfterAdd | services/base_client.py:68-75 | adding a message to the context adds its projection at the end of the request |
| BaseClient.ValidateResponse | services/base_client.py:43-52 | the default hook is the identity |
| BaseClient.DefaultParams | services/base_client.py:54-66 | exactly the five keys, with max_tokens 150 and the float defaults |
| BaseClient.ErrorText | services/base_client.py:84 | the text is the prefix followed by the error |
| BaseClient.HandleError | services/base_client.py:77-86 | "An error occurred: " followed by the error text, returned |
| BaseClient.JoinDeltas | services/groq_client.py:26-34 | the in-order concatenation of the non-empty deltas |
| BaseClient.DrainDeltas | services/groq_client.py:26-34 | the streaming loop computes the concatenation of the non-empty deltas |
| BaseClient.JoinDeltasAppend | services/groq_client.py:26-34 | draining a stream in two parts gives the two texts in order |
| BaseClient.JoinDeltasSkipsEmpty | services/groq_client.py:29-31 | a `None` or empty delta anywhere leaves the text unchanged |
| BaseClient.ConcatContents | services/ollama_client.py:32-39 | the unfiltered concatenation raises exactly when some chunk content is `None` |
| BaseClient.ConcatMatchesJoin | services/ollama_client.py:32-39 | without `None` contents, the unfiltered and filtered folds agree |
| BaseClient.ShapeReply | services/groq_client.py:26-36 | streaming gives the drained deltas, or the interrupting error; otherwise the first choice's content |
| GroqClient.BuildRequest | services/groq_client.py:18-25 | the request uses the projected history, the model and the four settings attributes, and fails with the first missing attribute's error |
| GroqClient.HandleError | services/groq_client.py:61-64 | "Groq API Error: " followed by the error text |
| GroqClient.GenerateResponse | services/groq_client.py:16-38 | drained stream, or first content; every exception is returned as Groq error text |
| GroqClient.ListModels | services/groq_client.py:40-51 | the fixed catalog: eight distinct ids, first and last as listed |
| GroqClient.GetModelInfo | services/groq_client.py:53-59 | info for any name with created "N/A", never an error marker |
| CerebrasClient.Tools | services/cerebras_client.py:25 | `tools` is read and passed only when `use_tools` is truthy; otherwise `None` |
| CerebrasClient.BuildRequest | services/cerebras_client.py:18-26 | succeeds exactly when the five attributes read and, under a truthy `use_tools`, `tools` does too; a missing `tools` fails with its attribute error; the request carries the projected history, model, temperature, max_tokens, top_p and stream from settings, and tools exactly when `use_tools` is truthy |
| CerebrasClient.HandleError | services/cerebras_client.py:60-63 | "Cerebras API Error: " followed by the error text |
| CerebrasClient.GenerateResponse | services/cerebras_client.py:16-39 | drained stream, or first content; every exception is returned as Cerebras error text |
| CerebrasClient.ListModels | services/cerebras_client.py:41-46 | exactly the two catalog models |
| CerebrasClient.GetModelInfo | services/cerebras_client.py:48-58 | an error marker "Unknown model" exactly for names outside the catalog |
| OllamaClient.BaseUrl | services/ollama_client.py:13-15 | `http://` then the host (default localhost), `:`, the port (default 11434) |
| OllamaClient.BuildRequest | services/ollama_client.py:20-31 | the request carries model, projected history, the stream flag and exactly the five option keys from settings |
| OllamaClient.HandleError | services/ollama_client.py:76-79 | "Ollama API Error: " followed by the error text |
| OllamaClient.GenerateResponse | services/ollama_client.py:18-43 | stream: unfiltered concatenation; a `None` content is returned as the `TypeError` text even when the stream is interrupted later, and an interruption after clean chunks as its own error text; non-stream: the message content |
| OllamaClient.Names | services/ollama_client.py:49 | a name is listed exactly when some dict entry carries it |
| OllamaClient.NamesAppend | services/ollama_client.py:49 | the names of two runs of entries are the two name lists in order |
| OllamaClient.ListModels | services/ollama_client.py:45-57 | filtered names from a list or a dict's `models`; `[]` for any other shape or an exception |
| OllamaClient.Search | services/ollama_client.py:63-71 | a match preceded only by other dicts is found, and whatever is found is such a first match; a non-dict entry before any match raises on `.get`; "Model not found" exactly when every entry is a dict without that name |
| OllamaClient.GetModelInfo | services/ollama_client.py:59-74 | searches a list or `models`; another shape or an exception becomes an error marker; always for the asked name |
| ServiceClients.GenerateResponse | services/base_client.py:14-22 | each adapter's `generate_response` |
| ServiceClients.ListModels | services/base_client.py:24-31 | each adapter's `list_models` |
| ServiceClients.GetModelInfo | services/base_client.py:33-41 | answers for the asked name; Groq never errs; Cerebras errs exactly off-catalog |
| ServiceClients.AsClient | conversation_manager.py:127 | awaiting Groq or Cerebras yields their text; awaiting Ollama's synchronous result always raises `TypeError` |
| ConfigLoader.VarName | config/config_loader.py:29-30 | the reference is `${` + name + `}` |
| ConfigLoader.Truthy | manager_instance.py:40-58 | Python truthiness of a YAML value, as the setup blocks test sections and keys |
| ConfigLoader.Substitute | config/config_loader.py:24-32 | mappings keep their keys; a reference to a set variable becomes its value; anything else is unchanged |
| ConfigLoader.ReplaceEnvVars | config/config_loader.py:24-32 | the key set is kept and every value is substituted |
| ConfigLoader.NoReferenceUnchanged | config/config_loader.py:26-32 | a document without references is returned unchanged |
| ConfigLoader.SubstituteIdempotent | config/config_loader.py:29-31 | a second pass changes nothing when no variable's value is itself a reference |
| ConfigLoader.SinglePass | config/config_loader.py:29-31 | a reference whose variable holds another reference is replaced by that text verbatim, so a reference survives |
| ConfigLoader.SubstituteResolves | config/config_loader.py:26-31 | with no variable holding a reference, the result is reference-free exactly when every reference names a set variable |
| ConfigLoader.LoadConfig | config/config_loader.py:7-22 | a parsed mapping is substituted; a missing, unparsable or non-mapping document gives `{}` |
| ConfigLoader.Section | config/config_loader.py:37-57 | `config.get(key, default)` |
| ConfigLoader.GetServiceConfig | config/config_loader.py:34-37 | the named section, `{}` when `services` or the name is absent, and an error exactly when `services` is not a mapping |
| ConfigLoader.ApiConfig | config/config_loader.py:39-42 | the `api` section, else host 127.0.0.1 and port 5000 |
| ConfigLoader.ConsoleConfig | config/config_loader.py:44-47 | the `console` section, else enabled True |
| ConfigLoader.LoggingConfig | config/config_loader.py:49-52 | the `logging` section, else level INFO and file llmserver.log |
| ConfigLoader.PluginConfig | config/config_loader.py:54-57 | the `plugins` section, else `{}` |
| ConfigLoader.MissingFileDefaults | config/config_loader.py:13-52 | without a usable file every getter returns its default |
| ManagerInstance.ApiKey | manager_instance.py:41 | a non-empty environment key wins without reading the section; otherwise the section's `api_key` (or `None`); a non-mapping section raises |
| ManagerInstance.KeyFor | manager_instance.py:38-46 | a key is sought only for a truthy section, and returned only when truthy |
| ManagerInstance.OllamaFor | manager_instance.py:48-54 | Ollama is registered exactly when its section is truthy, with host and port defaults `http://localhost` and 11434 |
| ManagerInstance.BuildRegistry | manager_instance.py:36-64 | each service is registered exactly when its block decides so; no other key; the blocks run groq, ollama, cerebras and the first failing one gives the error |
| ManagerInstance.NoConfigNoClients | manager_instance.py:36-64 | an empty configuration registers nothing |
| ManagerInstance.EnvironmentKeyRegistersGroq | manager_instance.py:39-43 | an environment key registers Groq for a truthy section without `api_key` |
| ManagerInstance.Render | services/ollama_client.py:15 | `str` of a scalar: a string as itself, `None`, `True`/`False`, an integer as its decimal numeral with `-` when negative, a float as the `str()` text it carries |
| ManagerInstance.Decimal | services/ollama_client.py:15 | `str` of a non-negative integer: digits only, no leading zero, denoting exactly that number |
| ManagerInstance.DecimalOfValue | services/ollama_client.py:15 | every numeral is what `str` writes for the number it denotes |
| ManagerInstance.PositiveNumeral | services/ollama_client.py:15 | a numeral other than `0` denotes a positive number |
| ManagerInstance.OllamaUrl | services/ollama_client.py:15 | the address the constructor builds from the configured host and port |
| ManagerInstance.DefaultOllamaSpec | manager_instance.py:49-53 | a section without host and port registers the defaults |
| ManagerInstance.DefaultBaseUrl | services/ollama_client.py:15 | the client builds `http://http://localhost:11434` from host `http://localhost` and port text `11434` |
| ManagerInstance.DefaultOllamaUrl | manager_instance.py:51 | the default host yields `http://http://localhost:11434` |
| ManagerInstance.Connect | manager_instance.py:43-61 | each spec constructs the matching adapter over its SDK |
| ManagerInstance.Clients | manager_instance.py:36-64 | the registry of constructed clients has exactly the registered services |
| ManagerInstance.GetServiceClient | manager_instance.py:81-85 | the registered client, or "No client available for service" exactly when unregistered |
| ManagerInstance.SendPrompt | manager_instance.py:87-93 | a missing context is refused without consulting the registry; an unregistered service raises; otherwise the manager's `send_prompt` with that client |
| ManagerInstance.MissingContextIgnoresRegistry | manager_instance.py:87-90 | a missing context is answered identically whatever is registered |
| ManagerInstance.OllamaPromptFaults | manager_instance.py:92-93 | an Ollama-bound prompt faults with `TypeError`, keeps the user message and stores nothing |
| PluginManager.IsCandidate | plugins/plugin_manager.py:16 | a file is a candidate when it ends in `.py` and does not start with `__` |
| PluginManager.CandidateFile | plugins/plugin_manager.py:16-17 | every module name not starting `__` has a candidate file whose name gives it back |
| PluginManager.NonCandidates | plugins/plugin_manager.py:16 | the files refused are exactly those without `.py` and the dunder files |
| PluginManager.PluginName | plugins/plugin_manager.py:16-17 | the candidate file is the name followed by `.py` |
| PluginManager.LoadStep | plugins/plugin_manager.py:15-26 | a candidate whose module loads is registered under its name; anything else is skipped |
| PluginManager.LoadedKeys | plugins/plugin_manager.py:14-26 | a name is registered exactly when some candidate file names it and its module loads |
| PluginManager.LoadedValue | plugins/plugin_manager.py:19-22 | the registered value is what the module's `register_plugin` returned |
| PluginManager.LoadPlugins | plugins/plugin_manager.py:14-26 | the loop builds exactly the registry of loadable candidates |
| PluginManager.GetPlugin | plugins/plugin_manager.py:28-29 | `None` for an unregistered name, else the registered value |
| PluginManager.ExecutePlugin | plugins/plugin_manager.py:31-41 | `None` for an unknown plugin or a raising `execute`, else its result |
| PluginManager.ListPlugins | plugins/plugin_manager.py:43-44 | every registered name exactly once |
| PluginManager.RegistrationOrder | plugins/plugin_manager.py:18-22 | a file registering a new plugin lists it last; a plugin registered again keeps its place |
| PluginManager.FailureDoesNotStopOthers | plugins/plugin_manager.py:18-26 | a failing import and non-candidates are skipped while the good plugin is registered |
| PyDict.Put | conversation_manager.py:83 | dict assignment: a new key goes last, a present key keeps its place, and others are unchanged |
| PyDict.Without | conversation_manager.py:108 | the order with the key dropped: exactly the other keys, still without repeats |
| PyDict.WithoutSplice | conversation_manager.py:108 | in an order without repeats, dropping a key cuts out its one occurrence and keeps everything before and after it in place |
| PyDict.Remove | conversation_manager.py:108 | `del`: the key leaves both map and order, the others keep their values, and the order is the old one with that key cut out |
| PyDict.PutRemoveFresh | conversation_manager.py:83-108 | inserting a fresh key and deleting it restores the dict |
| PySlice.Bound | conversation_manager.py:155 | a slice bound in range is itself, a negative one counts from the end, and one outside is clamped to the ends |
| PySlice.From | conversation_manager.py:155 | `s[i:]` under Python's bound rules |
| PySlice.Upto | plugins/plugin_manager.py:17 | `s[:j]` under Python's bound rules |
| PySlice.Between | config/config_loader.py:30 | `s[i:j]` under Python's bound rules, empty when the start is at or past the stop |
| PySlice.LastN | conversation_manager.py:155 | `h[-n:]` for `n >= 1` is the last `min(n, len)` entries |
| PySlice.MinusZero | conversation_manager.py:155 | `h[-0:]` is the whole sequence |

## Left out

- TinyDB storage, reading and parsing the YAML file, JSON decoding, the provider SDKs and the
  network, `os.listdir` and `importlib`: these are I/O or foreign libraries. Each is a
  parameter: the backend's record map and `load_all` listing, the `ConfigFile` parse result,
  `decode`, `Api` functions and listings, the file list, and the importer.
- Printing of streamed chunks and all logging (`utils/logger.py`).
- The report format of `utils/error_handler.py`: a fault keeps only the exception type, its
  message and the context string passed to the handler.
- asyncio scheduling between the HTTP and console front ends: every operation is one atomic
  step. The front ends themselves are out of scope: routes, handlers and consoles.
- The connection checks after the registry is built (manager_instance.py:66-72 and 95-103).
  They only log.
- `game_settings.get_default_settings` is not part of this model. It is a parameter of the
  service name, and it is assumed not to raise.
- Float parameters are opaque literals, and truthiness counts every float as true, even `0.0`.
- ManagerInstance.Render: Python's float formatting is not modelled. A YAML float is carried as
  the text `str()` prints for it (`0.10` is carried as `0.1`, `.inf` as `inf`), and `Render`
  returns that text; turning the YAML spelling into that text is left to the parser input.
- Truthiness of user objects: the storage backend counts as present when given, a plugin
  counts as present unless `None`, and a registered client is always truthy.
- `CerebrasClient` awaits the synchronous Cerebras SDK. That `await` raises inside the
  method's `try`, so the reply is Cerebras error text. The model leaves this to the `Api`
  parameter: an `Api` that always fails yields exactly that behaviour.
- Malformed SDK chunks (a missing `choices[0]` or `message` key) are not separate cases. They
  enter as the `Api` failing or as the stream's interrupting exception.
- ConversationManager.Save: does not model a backend write that raises. The source logs and
  swallows it, and the in-memory change stands.
- ConversationManager.DeleteContext: does not model a backend delete that raises, which would
  surface through the error handler after the in-memory removal.
- ConversationManager.CreateContext: does not model an exception from
  `get_default_settings`, which is not part of this model.
- `get_service_config` and the other getters reload the file on every call. The model passes
  one loaded configuration, which assumes the file does not change between calls.
- YAML mapping keys are strings, and `str()` of a list or mapping host or port is not
  rendered (`ManagerInstance.OllamaUrl` gives `None` there).
- OllamaClient.Search: listing entries are dicts of string fields. An entry whose `name` is
  not a string is not modelled.
- `ServiceClient.__init__`, `__str__` and `__repr__` only store and display the
  configuration. That the abstract base cannot be instantiated holds by construction: an
  `Adapter` is always one of the three concrete clients.
- PluginManager.ExecutePlugin: the call's `*args, **kwargs` are one abstract argument value,
  and the plugin's `execute` is the `run` parameter.
- GroqClient.GetModelInfo: its ensures does not pin the description text.
- GroqClient.ListModels: the contract pins the count, distinctness and the first and last ids;
  the six ids between them are not stated id by id.
- ConfigLoader.ReplaceEnvVars: YAML anchors and aliases are not modelled. The document is a
  tree, while `yaml.safe_load` shares one dict for every alias of an anchored mapping and
  `_replace_env_vars` updates that dict in place. An aliased mapping is therefore substituted
  once per occurrence in the source, so a variable whose value is itself a reference can be
  expanded twice there but only once in the model.
