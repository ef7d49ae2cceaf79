/**
 * How the game engine turns a provider's text into a turn result: a strict
 * decode of the whole text, and failing that a decode of the text from its
 * first `{` to its last `}`. The JSON decoder itself is a parameter.
 */
module JsonRecovery {
  import opened Wrappers
  import PySlice

  datatype Json =
    | JNull
    | JBool(b: bool)
    | JNum(n: int)
    | JStr(s: string)
    | JArr(items: seq<Json>)
    | JObj(fields: map<string, Json>)

  /** `s.find(c)`: the first index of `c`, or -1. */
  function Find(s: string, c: char): (r: int)
    ensures -1 <= r < |s|
    ensures r == -1 <==> c !in s
    ensures r >= 0 ==> s[r] == c && c !in s[..r]
  {
    if s == [] then -1
    else if s[0] == c then 0
    else
      var k := Find(s[1..], c);
      if k == -1 then -1
      else
        assert s[..k + 1] == [s[0]] + s[1..][..k];
        k + 1
  }

  /** `s.rfind(c)`: the last index of `c`, or -1. */
  function RFind(s: string, c: char): (r: int)
    ensures -1 <= r < |s|
    ensures r == -1 <==> c !in s
    ensures r >= 0 ==> s[r] == c && c !in s[r + 1..]
  {
    if s == [] then -1
    else if s[|s| - 1] == c then |s| - 1
    else
      var init := s[..|s| - 1];
      var k := RFind(init, c);
      assert s == init + [s[|s| - 1]];
      assert k >= 0 ==> s[k + 1..] == init[k + 1..] + [s[|s| - 1]];
      k
  }

  const NoObjectFound := "No JSON object found in response"
  const CouldNotParse := "Could not parse response as JSON"

  /** `response[start:end]` with `start = find('{')` and `end = rfind('}') + 1`. */
  function Candidate(response: string): string {
    PySlice.Between(response, Find(response, '{'), RFind(response, '}') + 1)
  }

  /**
   * The parse step of `_generate_response`. The test `end != -1` never
   * fails (`end` is `rfind + 1 >= 0`), so only a missing `{` gives "No JSON
   * object found"; a missing `}` yields an empty or reversed slice that the
   * decoder is handed anyway.
   */
  function Recover(response: string, decode: string -> Option<Json>): (r: Result<Json>)
    ensures decode(response).Some? ==> r == Success(decode(response).value)
    ensures decode(response).None? && '{' !in response ==> r == Failure(NoObjectFound)
    ensures decode(response).None? && '{' in response ==>
      match decode(Candidate(response))
      case Some(j) => r == Success(j)
      case None => r == Failure(CouldNotParse)
  {
    match decode(response)
    case Some(j) => Success(j)
    case None =>
      var start := Find(response, '{');
      var end := RFind(response, '}') + 1;
      if start != -1 && end != -1 then
        match decode(PySlice.Between(response, start, end))
        case Some(j) => Success(j)
        case None => Failure(CouldNotParse)
      else Failure(NoObjectFound)
  }

  /**
   * An object embedded in chatter: when the text before it has no `{` and
   * the text after it no `}`, the fallback decodes exactly the object.
   */
  lemma RecoverEmbedded(pre: string, body: string, post: string, decode: string -> Option<Json>)
    requires |body| >= 2 && body[0] == '{' && body[|body| - 1] == '}'
    requires '{' !in pre && '}' !in post
    requires decode(pre + body + post).None?
    ensures Candidate(pre + body + post) == body
    ensures Recover(pre + body + post, decode) ==
      match decode(body) case Some(j) => Success(j) case None => Failure(CouldNotParse)
  {
    var s := pre + body + post;
    assert s[|pre|] == '{';
    var start := Find(s, '{');
    assert start == |pre|;
    var last := |pre| + |body| - 1;
    assert s[last] == '}';
    var stop := RFind(s, '}');
    assert stop == last;
    assert s[|pre|..last + 1] == body;
  }

  /** With no `}` at all the fallback decodes the empty text, which a JSON decoder rejects. */
  lemma RecoverWithoutClosingBrace(response: string, decode: string -> Option<Json>)
    requires '{' in response && '}' !in response
    requires decode(response).None? && decode("").None?
    ensures Candidate(response) == ""
    ensures Recover(response, decode) == Failure(CouldNotParse)
  {
  }
}
