/**
 * The behaviour every provider adapter shares (`ServiceClient`): projecting
 * the history into request messages, the default parameter bundle, the
 * pass-through response hook, turning an exception into returned text, and
 * draining a streamed completion into one string. SDK responses are abstract
 * values: what reading the first choice's content gives, the sequence of
 * chunk deltas iterating the stream gives, and the exception (if any) that
 * interrupts the iteration.
 */
module BaseClient {
  import opened Wrappers
  import opened Settings
  import opened ConversationContext

  /** `{"role": ..., "content": ...}` as sent to a provider. */
  datatype ChatMessage = ChatMessage(role: string, content: string)

  function Project(e: Entry): ChatMessage {
    ChatMessage(e.role, e.content)
  }

  /** `prepare_messages`: one message per history entry, in order, extra keys dropped. */
  function PrepareMessages(c: Context): (r: seq<ChatMessage>)
    ensures |r| == |c.history|
    ensures forall i :: 0 <= i < |r| ==>
      r[i].role == c.history[i].role && r[i].content == c.history[i].content
  {
    seq(|c.history|, i requires 0 <= i < |c.history| => Project(c.history[i]))
  }

  /** Appending a message to the context appends its projection to the request. */
  lemma PrepareAfterAdd(c: Context, role: string, content: string)
    ensures PrepareMessages(AddMessage(c, role, content)) ==
            PrepareMessages(c) + [ChatMessage(role, content)]
  {
    var a := AddMessage(c, role, content);
    assert forall i :: 0 <= i < |c.history| ==> a.history[i] == c.history[i];
  }

  /** `validate_response`: the default hook returns the response unchanged. */
  function ValidateResponse(response: string): (r: string)
    ensures r == response
  {
    response
  }

  /** `get_default_params`; float values are carried as their literals. */
  function DefaultParams(): (r: map<string, Param>)
    ensures r.Keys == {"temperature", "max_tokens", "top_p", "frequency_penalty", "presence_penalty"}
    ensures r["max_tokens"] == PInt(150)
    ensures r["temperature"] == PFloat("0.7") && r["top_p"] == PFloat("1.0")
    ensures r["frequency_penalty"] == PFloat("0.0") && r["presence_penalty"] == PFloat("0.0")
  {
    map["temperature" := PFloat("0.7"), "max_tokens" := PInt(150), "top_p" := PFloat("1.0"),
        "frequency_penalty" := PFloat("0.0"), "presence_penalty" := PFloat("0.0")]
  }

  /** An exception's text behind a provider-specific prefix, returned instead of raised. */
  function ErrorText(prefix: string, error: string): (r: string)
    ensures |r| == |prefix| + |error|
    ensures r[..|prefix|] == prefix && r[|prefix|..] == error
  {
    prefix + error
  }

  const BasePrefix := "An error occurred: "

  /** `handle_error` of the base class. */
  function HandleError(error: string): (r: string)
    ensures |r| == |BasePrefix| + |error|
    ensures r[..|BasePrefix|] == BasePrefix && r[|BasePrefix|..] == error
  {
    ErrorText(BasePrefix, error)
  }

  /** What awaiting a client's `generate_response` gives its caller. */
  datatype Generated =
    | Returned(text: Option<string>)               // a `str`, or `None` from a reply without content
    | Raised(errorType: string, message: string)   // the call raised

  /** A provider's completion call as seen through its SDK. */
  datatype SdkReply = SdkReply(
    content: Option<string>,          // `choices[0].message.content` (or `['message']['content']`)
    chunks: seq<Option<string>>,      // the delta content of each streamed chunk, in order
    interruptedBy: Option<string>)    // an exception raised while iterating the stream

  /** A delta's contribution to the streamed text: `None` and `""` add nothing. */
  function Piece(d: Option<string>): string {
    match d
    case Some(s) => s
    case None => ""
  }

  /** The in-order concatenation of the non-empty deltas. */
  function JoinDeltas(chunks: seq<Option<string>>): string {
    if chunks == [] then ""
    else JoinDeltas(chunks[..|chunks| - 1]) + Piece(chunks[|chunks| - 1])
  }

  /**
   * The loop `for chunk in stream: if content: text += content` of the
   * Groq and Cerebras adapters computes `JoinDeltas`.
   */
  method DrainDeltas(chunks: seq<Option<string>>) returns (text: string)
    ensures text == JoinDeltas(chunks)
  {
    text := "";
    var i := 0;
    while i < |chunks|
      invariant 0 <= i <= |chunks|
      invariant text == JoinDeltas(chunks[..i])
    {
      var d := chunks[i];
      assert chunks[..i + 1][..i] == chunks[..i];
      if d.Some? && d.value != "" {
        text := text + d.value;
      }
      i := i + 1;
    }
    assert chunks[..|chunks|] == chunks;
  }

  /** Draining a stream in two parts gives the two texts one after the other. */
  lemma {:induction false} JoinDeltasAppend(a: seq<Option<string>>, b: seq<Option<string>>)
    ensures JoinDeltas(a + b) == JoinDeltas(a) + JoinDeltas(b)
    decreases |b|
  {
    if b == [] {
      assert a + b == a;
    } else {
      var b', last := b[..|b| - 1], b[|b| - 1];
      assert (a + b)[..|a + b| - 1] == a + b';
      assert (a + b)[|a + b| - 1] == last;
      assert JoinDeltas(a + b) == JoinDeltas(a + b') + Piece(last);
      assert JoinDeltas(b) == JoinDeltas(b') + Piece(last);
      JoinDeltasAppend(a, b');
    }
  }

  /** A `None` or empty delta anywhere in the stream leaves the text unchanged. */
  lemma JoinDeltasSkipsEmpty(a: seq<Option<string>>, d: Option<string>, b: seq<Option<string>>)
    requires d.None? || d.value == ""
    ensures JoinDeltas(a + [d] + b) == JoinDeltas(a + b)
  {
    JoinDeltasAppend(a + [d], b);
    JoinDeltasAppend(a, b);
    assert (a + [d])[..|a + [d]| - 1] == a;
  }

  /**
   * The Ollama loop `text += chunk['message']['content']` without a filter:
   * a `None` content raises `TypeError` (`None` result here).
   */
  function ConcatContents(chunks: seq<Option<string>>): (r: Option<string>)
    ensures r.None? <==> exists i :: 0 <= i < |chunks| && chunks[i].None?
  {
    if chunks == [] then Some("")
    else match (ConcatContents(chunks[..|chunks| - 1]), chunks[|chunks| - 1])
      case (Some(t), Some(s)) =>
        assert forall i :: 0 <= i < |chunks| - 1 ==> chunks[..|chunks| - 1][i] == chunks[i];
        Some(t + s)
      case (None, _) =>
        None
      case (_, None) => None
  }

  /** When no content is `None`, the unfiltered concatenation equals the filtered one. */
  lemma {:induction false} ConcatMatchesJoin(chunks: seq<Option<string>>)
    requires forall i :: 0 <= i < |chunks| ==> chunks[i].Some?
    ensures ConcatContents(chunks) == Some(JoinDeltas(chunks))
    decreases |chunks|
  {
    if chunks != [] {
      var init := chunks[..|chunks| - 1];
      assert forall i :: 0 <= i < |init| ==> init[i] == chunks[i];
      ConcatMatchesJoin(init);
    }
  }

  /** `TypeError` text of `str += None`. */
  const ConcatNoneError := "can only concatenate str (not \"NoneType\") to str"

  /**
   * The Groq and Cerebras result shaping: streaming drains the non-empty
   * deltas, otherwise the first choice's content; an exception during the
   * iteration discards the partial text and surfaces as `Failure`.
   */
  function ShapeReply(reply: SdkReply, streaming: bool): (r: Result<Option<string>>)
    ensures streaming && reply.interruptedBy.None? ==> r == Success(Some(JoinDeltas(reply.chunks)))
    ensures streaming && reply.interruptedBy.Some? ==> r == Failure(reply.interruptedBy.value)
    ensures !streaming ==> r == Success(reply.content)
  {
    if streaming then
      match reply.interruptedBy
      case Some(e) => Failure(e)
      case None => Success(Some(JoinDeltas(reply.chunks)))
    else Success(reply.content)
  }

  /** `get_model_info` results: the info fields, or a name with an error marker. */
  datatype ModelInfo =
    | Info(name: string, created: string, description: string)
    | InfoError(name: string, error: string)
}
