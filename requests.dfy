/**
 * HTTP requests as records: the method, URL, headers and JSON body a client
 * builds before handing the request to the network layer. How the request is
 * sent, and what comes back on the wire, is not part of this model.
 */
module Requests {
  import opened Wrappers
  import opened Strings
  import opened WritingStyles

  datatype HttpMethod = Get | Post

  datatype Header = Header(field: string, value: string)

  /** The JSON values the clients serialise; objects are unordered, like Swift dictionaries. */
  datatype Json =
    | JString(text: string)
    | JInt(number: int)
    | JReal(amount: real)
    | JArray(items: seq<Json>)
    | JObject(fields: map<string, Json>)

  /** A `URLRequest`: `body` is `None` when no `httpBody` is set. */
  datatype Request = Request(httpMethod: HttpMethod, url: string, headers: seq<Header>, body: Option<Json>)

  /** The value of the first header named `field`, if the request carries one. */
  function HeaderValue(headers: seq<Header>, field: string): Option<string> {
    if headers == [] then None
    else if headers[0].field == field then Some(headers[0].value)
    else HeaderValue(headers[1..], field)
  }

  /** `HeaderValue` finds the first header with the name, and `None` exactly when there is none. */
  lemma {:induction false} HeaderValueFirst(headers: seq<Header>, field: string)
    ensures HeaderValue(headers, field).None? <==> forall i | 0 <= i < |headers| :: headers[i].field != field
    ensures HeaderValue(headers, field).Some? ==> exists i | 0 <= i < |headers| ::
      headers[i] == Header(field, HeaderValue(headers, field).value)
      && forall j | 0 <= j < i :: headers[j].field != field
  {
    if headers != [] && headers[0].field != field {
      HeaderValueFirst(headers[1..], field);
      var r := HeaderValue(headers[1..], field);
      if r.Some? {
        var i :| 0 <= i < |headers[1..]| && headers[1..][i] == Header(field, r.value)
          && forall j | 0 <= j < i :: headers[1..][j].field != field;
        assert headers[i + 1] == Header(field, r.value);
      } else {
        forall i | 0 <= i < |headers| ensures headers[i].field != field {
          if i > 0 {
            assert headers[i] == headers[1..][i - 1];
          }
        }
      }
    } else if headers != [] {
      assert headers[0] == Header(field, headers[0].value);
    }
  }

  /** The single message both chat providers send: the style's prompt with the text right after it. */
  function ChatContent(style: WritingStyle, text: string): (content: string)
    ensures StartsWith(content, style.Prompt())
    ensures |content| == |style.Prompt()| + |text|
  {
    style.Prompt() + text
  }

  /** Recovers the user's text from a message content built for `style`. */
  function TextOf(style: WritingStyle, content: string): (r: Option<string>)
    ensures r.Some? ==> ChatContent(style, r.value) == content
  {
    var prompt := style.Prompt();
    if StartsWith(content, prompt) then
      assert prompt + content[|prompt|..] == content;
      Some(content[|prompt|..])
    else None
  }

  /** A chat message's text is recovered exactly from its content; empty text sends the prompt alone. */
  lemma TextOfChatContent(style: WritingStyle, text: string)
    ensures TextOf(style, ChatContent(style, text)) == Some(text)
    ensures text == [] ==> ChatContent(style, text) == style.Prompt()
  {
    var content := ChatContent(style, text);
    assert content[|style.Prompt()|..] == text;
  }

  /**
   * The JSON body both chat providers post: `model`, a `messages` array holding one
   * message with role "user", and `max_tokens`.
   */
  function ChatBody(model: string, content: string, maxTokens: int): Json {
    JObject(map[
      "model" := JString(model),
      "messages" := JArray([JObject(map["role" := JString("user"), "content" := JString(content)])]),
      "max_tokens" := JInt(maxTokens)
    ])
  }

  /**
   * Reads a chat body back: its model, the content of its only message when that
   * message has role "user", and its token limit.
   */
  function ChatFields(body: Json): Option<(string, string, int)> {
    if body.JObject? && "model" in body.fields && body.fields["model"].JString?
      && "messages" in body.fields && body.fields["messages"].JArray?
      && |body.fields["messages"].items| == 1
      && body.fields["messages"].items[0].JObject?
      && "role" in body.fields["messages"].items[0].fields
      && body.fields["messages"].items[0].fields["role"] == JString("user")
      && "content" in body.fields["messages"].items[0].fields
      && body.fields["messages"].items[0].fields["content"].JString?
      && "max_tokens" in body.fields && body.fields["max_tokens"].JInt?
    then
      Some((body.fields["model"].text,
            body.fields["messages"].items[0].fields["content"].text,
            body.fields["max_tokens"].number))
    else None
  }

  /** A chat body carries exactly one user message, and reading it back gives what was put in. */
  lemma ChatBodyRoundTrip(model: string, content: string, maxTokens: int)
    ensures ChatFields(ChatBody(model, content, maxTokens)) == Some((model, content, maxTokens))
    ensures |ChatBody(model, content, maxTokens).fields["messages"].items| == 1
  {
  }
}
