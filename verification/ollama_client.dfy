/**
 * `OllamaClient`: the Ollama adapter. The SDK's `chat` call and the value
 * its `list()` returns are parameters.
 */
module OllamaClient {
  import opened Wrappers
  import opened Settings
  import opened ConversationContext
  import opened BaseClient

  /**
   * The address the constructor gives the SDK: the configured host (default
   * `localhost`) and port (default 11434), always behind an added `http://`.
   */
  function BaseUrl(host: Option<string>, port: Option<string>): (r: string)
    ensures |r| == 8 + |host.GetOr("localhost")| + |port.GetOr("11434")|
    ensures r[..7] == "http://"
    ensures host.Some? ==> r[7..7 + |host.value|] == host.value
    ensures host.None? ==> r[7..16] == "localhost"
    ensures port.Some? ==> r[|r| - |port.value|..] == port.value
    ensures port.None? ==> r[|r| - 6..] == ":11434"
    ensures r[7 + |host.GetOr("localhost")|] == ':'
    ensures r[8 + |host.GetOr("localhost")|..] == port.GetOr("11434")
  {
    "http://" + host.GetOr("localhost") + ":" + port.GetOr("11434")
  }

  /** The arguments of `client.chat`. */
  datatype Request = Request(model: string, messages: seq<ChatMessage>, stream: Param, options: map<string, Param>)

  type Api = Request -> Result<SdkReply>

  /** The settings attributes the request reads, in evaluation order. */
  const RequestAttributes := ["stream", "num_predict", "temperature", "top_k", "top_p", "repeat_penalty"]

  /** The request for a context; reading a missing settings attribute raises. */
  function BuildRequest(c: Context): (r: Result<Request>)
    ensures r.Success? <==> ReadAll(c.settings, RequestAttributes).Success?
    ensures r.Failure? ==> r == Failure(ReadAll(c.settings, RequestAttributes).error)
    ensures r.Success? ==>
      && r.value.messages == PrepareMessages(c) && r.value.model == c.model
      && c.settings.Attrs?
      && (forall k :: k in RequestAttributes ==> k in c.settings.fields)
      && r.value.stream == c.settings.fields["stream"]
      && r.value.options.Keys == {"num_predict", "temperature", "top_k", "top_p", "repeat_penalty"}
      && (forall k :: k in r.value.options ==> r.value.options[k] == c.settings.fields[k])
  {
    match ReadAll(c.settings, RequestAttributes)
    case Failure(e) => Failure(e)
    case Success(ps) =>
      assert Attr(c.settings, RequestAttributes[0]) == Success(ps[0]);
      assert Attr(c.settings, RequestAttributes[1]) == Success(ps[1]);
      assert Attr(c.settings, RequestAttributes[2]) == Success(ps[2]);
      assert Attr(c.settings, RequestAttributes[3]) == Success(ps[3]);
      assert Attr(c.settings, RequestAttributes[4]) == Success(ps[4]);
      assert Attr(c.settings, RequestAttributes[5]) == Success(ps[5]);
      var options := map["num_predict" := ps[1], "temperature" := ps[2], "top_k" := ps[3],
                          "top_p" := ps[4], "repeat_penalty" := ps[5]];
      Success(Request(c.model, PrepareMessages(c), ps[0], options))
  }

  const ErrorPrefix := "Ollama API Error: "

  /** `handle_error`: the exception as returned text. */
  function HandleError(error: string): (r: string)
    ensures |r| == |ErrorPrefix| + |error|
    ensures r[..|ErrorPrefix|] == ErrorPrefix && r[|ErrorPrefix|..] == error
  {
    ErrorText(ErrorPrefix, error)
  }

  /**
   * `generate_response`: streaming concatenates every chunk's content with
   * no filter (a `None` content raises), otherwise the message content;
   * every exception comes back as `"Ollama API Error: ..."` text. A `None`
   * among the chunks that arrived raises before an interruption of the
   * stream after them can.
   */
  function GenerateResponse(c: Context, api: Api): (r: Option<string>)
    ensures BuildRequest(c).Failure? ==> r == Some(HandleError(BuildRequest(c).error))
    ensures BuildRequest(c).Success? ==>
      var q := BuildRequest(c).value;
      match api(q)
      case Failure(e) => r == Some(HandleError(e))
      case Success(reply) =>
        && (!Truthy(q.stream) ==> r == reply.content)
        && (Truthy(q.stream) ==>
              match ConcatContents(reply.chunks)
              case None => r == Some(HandleError(ConcatNoneError))
              case Some(t) =>
                && (reply.interruptedBy.Some? ==> r == Some(HandleError(reply.interruptedBy.value)))
                && (reply.interruptedBy.None? ==> r == Some(t)))
  {
    match BuildRequest(c)
    case Failure(e) => Some(HandleError(e))
    case Success(q) =>
      match api(q)
      case Failure(e) => Some(HandleError(e))
      case Success(reply) =>
        if !Truthy(q.stream) then reply.content
        else
          // the chunks that arrived are folded before the stream can raise
          match ConcatContents(reply.chunks)
          case None => Some(HandleError(ConcatNoneError))
          case Some(t) =>
            if reply.interruptedBy.Some? then Some(HandleError(reply.interruptedBy.value)) else Some(t)
  }

  /** One element of a model listing: a dict of string fields, or some other value. */
  datatype Listed = ModelEntry(fields: map<string, string>) | NotADict(typeName: string)

  /** What `client.list()` gave. */
  datatype Listing =
    | AsList(items: seq<Listed>)
    | AsDict(models: Option<seq<Listed>>)   // `None` when the dict has no `'models'` key
    | Unexpected(typeName: string)          // neither a list nor a dict
    | ListFailed(error: string)             // `list()` raised

  predicate HasName(l: Listed) {
    l.ModelEntry? && "name" in l.fields
  }

  /** `[m['name'] for m in items if isinstance(m, dict) and 'name' in m]` */
  function Names(items: seq<Listed>): (r: seq<string>)
    ensures |r| <= |items|
    ensures forall n :: n in r <==> exists i :: 0 <= i < |items| && HasName(items[i]) && items[i].fields["name"] == n
  {
    if items == [] then []
    else
      var rest := Names(items[1..]);
      assert forall i :: 0 < i < |items| ==> items[1..][i - 1] == items[i];
      if HasName(items[0]) then [items[0].fields["name"]] + rest else rest
  }

  /** Listing two runs of entries names the first run's models, then the second's. */
  lemma {:induction false} NamesAppend(a: seq<Listed>, b: seq<Listed>)
    ensures Names(a + b) == Names(a) + Names(b)
  {
    if a == [] {
      assert a + b == b;
    } else {
      assert (a + b)[0] == a[0];
      assert (a + b)[1..] == a[1..] + b;
      NamesAppend(a[1..], b);
      if HasName(a[0]) {
        assert Names(a + b) == [a[0].fields["name"]] + Names(a[1..] + b);
      } else {
        assert Names(a + b) == Names(a[1..] + b);
      }
    }
  }

  /**
   * `list_models`: the names of the dict entries that have one, from a list
   * or from a dict's `'models'`; any other shape, or an exception, gives `[]`.
   */
  function ListModels(listing: Listing): (r: seq<string>)
    ensures listing.AsList? ==> r == Names(listing.items)
    ensures listing.AsDict? && listing.models.Some? ==> r == Names(listing.models.value)
    ensures listing.AsDict? && listing.models.None? ==> r == []
    ensures listing.Unexpected? || listing.ListFailed? ==> r == []
  {
    match listing
    case AsList(items) => Names(items)
    case AsDict(Some(items)) => Names(items)
    case AsDict(None) => []
    case Unexpected(_) => []
    case ListFailed(_) => []
  }

  const ModelNotFound := "Model not found"

  function InfoFor(fields: map<string, string>): ModelInfo
    requires "name" in fields
  {
    Info(fields["name"], if "modified_at" in fields then fields["modified_at"] else "N/A",
         "An Ollama language model: " + fields["name"])
  }

  /** The entry is a dict naming the model sought. */
  predicate Matches(l: Listed, name: string) {
    HasName(l) && l.fields["name"] == name
  }

  /** The loop passes over the entry: a dict that names another model or none. */
  predicate Skipped(l: Listed, name: string) {
    l.ModelEntry? && !Matches(l, name)
  }

  /** The loop passed over every entry before position `i`. */
  predicate PassedBefore(items: seq<Listed>, name: string, i: int)
    requires 0 <= i <= |items|
  {
    forall j :: 0 <= j < i ==> Skipped(items[j], name)
  }

  /** Past a skipped first entry, the loop over `items` is the loop over the rest. */
  lemma PassedShift(items: seq<Listed>, name: string)
    requires |items| > 0 && Skipped(items[0], name)
    ensures forall i :: 1 <= i <= |items| ==> (PassedBefore(items, name, i) <==> PassedBefore(items[1..], name, i - 1))
  {
    forall i | 1 <= i <= |items|
      ensures PassedBefore(items, name, i) <==> PassedBefore(items[1..], name, i - 1)
    {
      assert forall j :: 0 <= j < i - 1 ==> items[1..][j] == items[j + 1];
      if PassedBefore(items[1..], name, i - 1) {
        forall j | 0 <= j < i ensures Skipped(items[j], name) {
          if j > 0 { assert items[j] == items[1..][j - 1]; }
        }
      }
    }
  }

  /** An entry the loop stops at blocks every later position. */
  lemma StopsAtFirst(items: seq<Listed>, name: string)
    requires |items| > 0 && !Skipped(items[0], name)
    ensures forall i :: 0 < i <= |items| ==> !PassedBefore(items, name, i)
  {
  }

  /**
   * The loop of `get_model_info` over a list of entries: the first entry
   * named `name` wins; a non-dict entry met before it raises on `.get`.
   */
  function Search(items: seq<Listed>, name: string): (r: ModelInfo)
    ensures r.name == name
    ensures r.Info? ==>
      (exists i :: 0 <= i < |items| && Matches(items[i], name) && r == InfoFor(items[i].fields)
        && PassedBefore(items, name, i))
    ensures r == InfoError(name, ModelNotFound) <==> PassedBefore(items, name, |items|)
    ensures (exists i :: 0 <= i < |items| && Matches(items[i], name) && PassedBefore(items, name, i)) ==> r.Info?
    ensures forall i :: (0 <= i < |items| && items[i].NotADict? && PassedBefore(items, name, i)
      ==> r == InfoError(name, MissingAttribute(items[i].typeName, "get")))
  {
    if items == [] then InfoError(name, ModelNotFound)
    else match items[0]
      case NotADict(t) =>
        assert MissingAttribute(t, "get") != ModelNotFound by {
          assert MissingAttribute(t, "get")[0] == '\'';
        }
        StopsAtFirst(items, name);
        InfoError(name, MissingAttribute(t, "get"))
      case ModelEntry(f) =>
        if "name" in f && f["name"] == name then
          assert Matches(items[0], name) && PassedBefore(items, name, 0);
          StopsAtFirst(items, name);
          InfoFor(f)
        else
          var rest := items[1..];
          var r := Search(rest, name);
          assert Skipped(items[0], name);
          PassedShift(items, name);
          assert forall i :: 0 <= i < |rest| ==> rest[i] == items[i + 1];
          if r.Info? then
            var i :| 0 <= i < |rest| && Matches(rest[i], name) && r == InfoFor(rest[i].fields)
              && PassedBefore(rest, name, i);
            assert Matches(items[i + 1], name) && PassedBefore(items, name, i + 1);
            r
          else
            r
  }

  /**
   * `get_model_info`: search a list, or a dict's `'models'` (absent means
   * none); any other shape raises on `.get`, and that exception, like one
   * from `list()` itself, becomes the error marker.
   */
  function GetModelInfo(listing: Listing, name: string): (r: ModelInfo)
    ensures r.name == name
    ensures listing.AsList? ==> r == Search(listing.items, name)
    ensures listing.AsDict? ==> r == Search(listing.models.GetOr([]), name)
    ensures listing.Unexpected? ==> r == InfoError(name, MissingAttribute(listing.typeName, "get"))
    ensures listing.ListFailed? ==> r == InfoError(name, listing.error)
  {
    match listing
    case AsList(items) => Search(items, name)
    case AsDict(models) => Search(models.GetOr([]), name)
    case Unexpected(t) => InfoError(name, MissingAttribute(t, "get"))
    case ListFailed(e) => InfoError(name, e)
  }
}
