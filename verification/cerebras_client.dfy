/** `CerebrasClient`: the Cerebras adapter, with the SDK call as a parameter. */
module CerebrasClient {
  import opened Wrappers
  import opened Settings
  import opened ConversationContext
  import opened BaseClient

  /** The keyword arguments of `chat.completions.create`; `tools` is `None` unless enabled. */
  datatype Request = Request(
    messages: seq<ChatMessage>,
    model: string,
    temperature: Param,
    maxTokens: Param,
    topP: Param,
    stream: Param,
    tools: Option<Param>)

  type Api = Request -> Result<SdkReply>

  /** The settings attributes read before the tools toggle, in evaluation order. */
  const RequestAttributes := ["temperature", "max_tokens", "top_p", "stream", "use_tools"]

  /** `tools=settings.tools if settings.use_tools else None` */
  function Tools(s: Settings, useTools: Param): (r: Result<Option<Param>>)
    ensures !Truthy(useTools) ==> r == Success(None)
    ensures Truthy(useTools) ==> r.Success? == Attr(s, "tools").Success?
    ensures Truthy(useTools) && r.Success? ==> r.value == Some(Attr(s, "tools").value)
  {
    if Truthy(useTools) then
      match Attr(s, "tools")
      case Failure(e) => Failure(e)
      case Success(t) => Success(Some(t))
    else Success(None)
  }

  /** The request for a context; reading a missing settings attribute raises. */
  function BuildRequest(c: Context): (r: Result<Request>)
    ensures r.Success? <==>
      && ReadAll(c.settings, RequestAttributes).Success?
      && (Truthy(ReadAll(c.settings, RequestAttributes).value[4]) ==> Attr(c.settings, "tools").Success?)
    ensures ReadAll(c.settings, RequestAttributes).Failure? ==> r == Failure(ReadAll(c.settings, RequestAttributes).error)
    ensures ReadAll(c.settings, RequestAttributes).Success? && c.settings.Attrs? && "tools" !in c.settings.fields
            && Truthy(ReadAll(c.settings, RequestAttributes).value[4]) ==>
      r == Failure(MissingAttribute(c.settings.className, "tools"))
    ensures r.Success? ==>
      && r.value.messages == PrepareMessages(c) && r.value.model == c.model
      && c.settings.Attrs?
      && (forall k :: k in RequestAttributes ==> k in c.settings.fields)
      && r.value.temperature == c.settings.fields["temperature"]
      && r.value.maxTokens == c.settings.fields["max_tokens"]
      && r.value.topP == c.settings.fields["top_p"]
      && r.value.stream == c.settings.fields["stream"]
      && (r.value.tools.Some? <==> Truthy(c.settings.fields["use_tools"]))
      && (r.value.tools.Some? ==> "tools" in c.settings.fields && r.value.tools.value == c.settings.fields["tools"])
  {
    match ReadAll(c.settings, RequestAttributes)
    case Failure(e) => Failure(e)
    case Success(ps) =>
      assert Attr(c.settings, RequestAttributes[0]) == Success(ps[0]);
      assert Attr(c.settings, RequestAttributes[1]) == Success(ps[1]);
      assert Attr(c.settings, RequestAttributes[2]) == Success(ps[2]);
      assert Attr(c.settings, RequestAttributes[3]) == Success(ps[3]);
      assert Attr(c.settings, RequestAttributes[4]) == Success(ps[4]);
      match Tools(c.settings, ps[4])
      case Failure(e) => Failure(e)
      case Success(tools) => Success(Request(PrepareMessages(c), c.model, ps[0], ps[1], ps[2], ps[3], tools))
  }

  const ErrorPrefix := "Cerebras API Error: "

  /** `handle_error`: the exception as returned text. */
  function HandleError(error: string): (r: string)
    ensures |r| == |ErrorPrefix| + |error|
    ensures r[..|ErrorPrefix|] == ErrorPrefix && r[|ErrorPrefix|..] == error
  {
    ErrorText(ErrorPrefix, error)
  }

  /**
   * `generate_response`: the drained stream or the first choice's content;
   * every exception comes back as `"Cerebras API Error: ..."` text.
   */
  function GenerateResponse(c: Context, api: Api): (r: Option<string>)
    ensures BuildRequest(c).Failure? ==> r == Some(HandleError(BuildRequest(c).error))
    ensures BuildRequest(c).Success? ==>
      var q := BuildRequest(c).value;
      match api(q)
      case Failure(e) => r == Some(HandleError(e))
      case Success(reply) =>
        && (Truthy(q.stream) && reply.interruptedBy.None? ==> r == Some(JoinDeltas(reply.chunks)))
        && (Truthy(q.stream) && reply.interruptedBy.Some? ==> r == Some(HandleError(reply.interruptedBy.value)))
        && (!Truthy(q.stream) ==> r == reply.content)
  {
    match BuildRequest(c)
    case Failure(e) => Some(HandleError(e))
    case Success(q) =>
      match api(q)
      case Failure(e) => Some(HandleError(e))
      case Success(reply) =>
        match ShapeReply(reply, Truthy(q.stream))
        case Failure(e) => Some(HandleError(e))
        case Success(text) => text
  }

  /** `list_models`: the fixed two-model catalog. */
  function ListModels(): (r: seq<string>)
    ensures |r| == 2 && r[0] != r[1]
    ensures "llama3.1-8b" in r && "llama3.1-70b" in r
  {
    ["llama3.1-8b", "llama3.1-70b"]
  }

  /** `get_model_info`: info exactly for the catalog's models, an `Unknown model` marker otherwise. */
  function GetModelInfo(name: string): (r: ModelInfo)
    ensures r.name == name
    ensures r.InfoError? <==> name !in ListModels()
    ensures r.InfoError? ==> r.error == "Unknown model"
    ensures r.Info? ==> r.created == "N/A"
  {
    if name in ListModels() then Info(name, "N/A", "Cerebras " + name + " model")
    else InfoError(name, "Unknown model")
  }
}
