/**
 * `ServiceClients`: the three adapters behind the `ServiceClient` interface
 * (`generate_response`, `list_models`, `get_model_info`), and what a caller
 * that awaits `generate_response` receives from each.
 */
module ServiceClients {
  import opened Wrappers
  import opened ConversationContext
  import opened BaseClient
  import Groq = GroqClient
  import Cerebras = CerebrasClient
  import Ollama = OllamaClient

  /** A constructed adapter with the SDK behaviour it talks to. */
  datatype Adapter =
    | GroqAdapter(groq: Groq.Api)
    | CerebrasAdapter(cerebras: Cerebras.Api)
    | OllamaAdapter(ollama: Ollama.Api, listing: Ollama.Listing)

  /** The value `generate_response` produces (before any `await`). */
  function GenerateResponse(a: Adapter, c: Context): (r: Option<string>)
    ensures a.GroqAdapter? ==> r == Groq.GenerateResponse(c, a.groq)
    ensures a.CerebrasAdapter? ==> r == Cerebras.GenerateResponse(c, a.cerebras)
    ensures a.OllamaAdapter? ==> r == Ollama.GenerateResponse(c, a.ollama)
  {
    match a
    case GroqAdapter(api) => Groq.GenerateResponse(c, api)
    case CerebrasAdapter(api) => Cerebras.GenerateResponse(c, api)
    case OllamaAdapter(api, _) => Ollama.GenerateResponse(c, api)
  }

  function ListModels(a: Adapter): (r: seq<string>)
    ensures a.GroqAdapter? ==> r == Groq.ListModels()
    ensures a.CerebrasAdapter? ==> r == Cerebras.ListModels()
    ensures a.OllamaAdapter? ==> r == Ollama.ListModels(a.listing)
  {
    match a
    case GroqAdapter(_) => Groq.ListModels()
    case CerebrasAdapter(_) => Cerebras.ListModels()
    case OllamaAdapter(_, listing) => Ollama.ListModels(listing)
  }

  /** Every adapter answers for the name it was asked about. */
  function GetModelInfo(a: Adapter, name: string): (r: ModelInfo)
    ensures r.name == name
    ensures a.GroqAdapter? ==> r.Info?
    ensures a.CerebrasAdapter? ==> (r.Info? <==> name in Cerebras.ListModels())
    ensures a.OllamaAdapter? ==> r == Ollama.GetModelInfo(a.listing, name)
  {
    match a
    case GroqAdapter(_) => Groq.GetModelInfo(name)
    case CerebrasAdapter(_) => Cerebras.GetModelInfo(name)
    case OllamaAdapter(_, listing) => Ollama.GetModelInfo(listing, name)
  }

  /** The message of the `TypeError` raised by awaiting a plain value. */
  function NotAwaitable(typeName: string): string {
    "object " + typeName + " can't be used in 'await' expression"
  }

  /**
   * `await adapter.generate_response(context)`: the Groq and Cerebras
   * coroutines deliver their text; Ollama's method is synchronous, so the
   * `await` is applied to its `str` (or `None`) result and raises.
   */
  function AsClient(a: Adapter): (client: Context -> Generated)
    ensures forall c :: a.OllamaAdapter? ==> client(c).Raised? && client(c).errorType == "TypeError"
    ensures forall c :: !a.OllamaAdapter? ==> client(c) == Returned(GenerateResponse(a, c))
  {
    match a
    case OllamaAdapter(api, _) =>
      (c: Context) =>
        Raised("TypeError", NotAwaitable(if Ollama.GenerateResponse(c, api).Some? then "str" else "NoneType"))
    case _ => (c: Context) => Returned(GenerateResponse(a, c))
  }
}
