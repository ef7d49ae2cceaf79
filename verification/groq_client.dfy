/** `GroqClient`: the Groq adapter, with the SDK call as a parameter. */
module GroqClient {
  import opened Wrappers
  import opened Settings
  import opened ConversationContext
  import opened BaseClient

  /** The keyword arguments of `chat.completions.create`. */
  datatype Request = Request(
    messages: seq<ChatMessage>,
    model: string,
    temperature: Param,
    maxTokens: Param,
    topP: Param,
    stream: Param)

  type Api = Request -> Result<SdkReply>

  /** The settings attributes the request reads, in evaluation order. */
  const RequestAttributes := ["temperature", "max_tokens", "top_p", "stream"]

  /** The request for a context; reading a missing settings attribute raises. */
  function BuildRequest(c: Context): (r: Result<Request>)
    ensures r.Success? <==> ReadAll(c.settings, RequestAttributes).Success?
    ensures r.Failure? ==> r == Failure(ReadAll(c.settings, RequestAttributes).error)
    ensures r.Success? ==>
      && r.value.messages == PrepareMessages(c) && r.value.model == c.model
      && c.settings.Attrs?
      && (forall k :: k in RequestAttributes ==> k in c.settings.fields)
      && r.value.temperature == c.settings.fields["temperature"]
      && r.value.maxTokens == c.settings.fields["max_tokens"]
      && r.value.topP == c.settings.fields["top_p"]
      && r.value.stream == c.settings.fields["stream"]
  {
    match ReadAll(c.settings, RequestAttributes)
    case Failure(e) => Failure(e)
    case Success(ps) =>
      assert Attr(c.settings, RequestAttributes[0]) == Success(ps[0]);
      assert Attr(c.settings, RequestAttributes[1]) == Success(ps[1]);
      assert Attr(c.settings, RequestAttributes[2]) == Success(ps[2]);
      assert Attr(c.settings, RequestAttributes[3]) == Success(ps[3]);
      Success(Request(PrepareMessages(c), c.model, ps[0], ps[1], ps[2], ps[3]))
  }

  const ErrorPrefix := "Groq API Error: "

  /** `handle_error`: the exception as returned text. */
  function HandleError(error: string): (r: string)
    ensures |r| == |ErrorPrefix| + |error|
    ensures r[..|ErrorPrefix|] == ErrorPrefix && r[|ErrorPrefix|..] == error
  {
    ErrorText(ErrorPrefix, error)
  }

  /**
   * `generate_response`: the drained stream or the first choice's content;
   * every exception, from reading settings to iterating the stream, comes
   * back as `"Groq API Error: ..."` text. The context is a value and stays
   * as it was.
   */
  function GenerateResponse(c: Context, api: Api): (r: Option<string>)
    ensures BuildRequest(c).Failure? ==> r == Some(HandleError(BuildRequest(c).error))
    ensures BuildRequest(c).Success? ==>
      var q := BuildRequest(c).value;
      match api(q)
      case Failure(e) => r == Some(HandleError(e))
      case Success(reply) =>
        && (Truthy(q.stream) && reply.interruptedBy.None? ==> r == Some(JoinDeltas(reply.chunks)))
        && (Truthy(q.stream) && reply.interruptedBy.Some? ==> r == Some(HandleError(reply.interruptedBy.value)))
        && (!Truthy(q.stream) ==> r == reply.content)
  {
    match BuildRequest(c)
    case Failure(e) => Some(HandleError(e))
    case Success(q) =>
      match api(q)
      case Failure(e) => Some(HandleError(e))
      case Success(reply) =>
        match ShapeReply(reply, Truthy(q.stream))
        case Failure(e) => Some(HandleError(e))
        case Success(text) => text
  }

  /** `list_models`: the fixed catalog, eight distinct ids in the listed order. */
  function ListModels(): (r: seq<string>)
    ensures |r| == 8
    ensures forall i, j :: 0 <= i < j < |r| ==> r[i] != r[j]
    ensures r[0] == "llama3-groq-70b-8192-tool-use-preview" && r[7] == "llama3-8b-8192"
  {
    ["llama3-groq-70b-8192-tool-use-preview",
     "llama3-groq-8b-8192-tool-use-preview",
     "llama-3.1-70b-versatile",
     "llama-3.1-8b-instant",
     "llama-3.2-1b-preview",
     "llama-3.2-3b-preview",
     "llama3-70b-8192",
     "llama3-8b-8192"]
  }

  /** `get_model_info`: basic info for any name, never an error marker. */
  function GetModelInfo(name: string): (r: ModelInfo)
    ensures r.Info? && r.name == name && r.created == "N/A"
  {
    Info(name, "N/A", "A Groq language model")
  }
}
