/**
 * The Anthropic messages client (`AnthropicAPI`): the request it builds for a
 * text and a writing style, and the text it returns from the decoded reply.
 */
module Anthropic {
  import opened Wrappers
  import opened WritingStyles
  import opened Requests

  const BaseURL: string := "https://api.anthropic.com/v1"
  const Model: string := "claude-3-sonnet-20240229"
  const MaxTokens: int := 1024
  /** The value sent in the `anthropic-version` header, name included, as the client has it. */
  const VersionHeaderValue: string := "anthropic-version: 2023-06-01"

  datatype AnthropicAPI = AnthropicAPI(apiKey: string) {
    /**
     * The request `improveText` posts to the messages endpoint. The key goes in
     * `x-api-key` with a "Bearer " prefix; the body has the same shape as the
     * OpenAI client's, with Anthropic's model.
     */
    function ImproveTextRequest(text: string, style: WritingStyle): (r: Request)
      ensures r.httpMethod == Post && r.url == BaseURL + "/messages"
      ensures HeaderValue(r.headers, "Content-Type") == Some("application/json")
      ensures HeaderValue(r.headers, "anthropic-version") == Some(VersionHeaderValue)
      ensures HeaderValue(r.headers, "x-api-key") == Some("Bearer " + apiKey)
      ensures r.body.Some? && ChatFields(r.body.value) == Some((Model, ChatContent(style, text), MaxTokens))
    {
      var headers := [Header("Content-Type", "application/json"),
                      Header("anthropic-version", VersionHeaderValue),
                      Header("x-api-key", "Bearer " + apiKey)];
      assert headers[1..][1..] == [Header("x-api-key", "Bearer " + apiKey)];
      assert HeaderValue(headers[1..], "x-api-key") == HeaderValue(headers[1..][1..], "x-api-key");
      Request(Post, BaseURL + "/messages", headers, Some(ChatBody(Model, ChatContent(style, text), MaxTokens)))
    }
  }

  /** The decoded reply: a single `content` string. */
  datatype AnthropicResponse = AnthropicResponse(content: string)

  /** `response.content`, returned unchanged. */
  function ImprovedText(response: AnthropicResponse): string {
    response.content
  }

  /** The user's text can be read back from the request, so nothing else is added to it. */
  lemma ImproveTextRequestCarriesText(api: AnthropicAPI, text: string, style: WritingStyle)
    ensures var r := api.ImproveTextRequest(text, style);
      r.body.Some? && ChatFields(r.body.value).Some?
      && TextOf(style, ChatFields(r.body.value).value.1) == Some(text)
  {
    TextOfChatContent(style, text);
  }
}
