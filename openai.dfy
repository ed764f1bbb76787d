/**
 * The OpenAI chat client (`OpenAIAPI`): the request it builds for a text and a
 * writing style, and how it reads the improved text out of the decoded reply.
 */
module OpenAI {
  import opened Wrappers
  import opened WritingStyles
  import opened Requests

  const BaseURL: string := "https://api.openai.com/v1"
  const Model: string := "gpt-4-turbo-preview"
  const MaxTokens: int := 1024

  datatype OpenAIAPI = OpenAIAPI(apiKey: string) {
    /** `isConfigured`: a key has been entered. */
    predicate IsConfigured() {
      apiKey != []
    }

    /**
     * The request `improveText` posts to the chat-completions endpoint: a bearer
     * token, a JSON body naming the model, one user message made of the style's
     * prompt and the text, and a token limit.
     */
    function ImproveTextRequest(text: string, style: WritingStyle): (r: Request)
      ensures r.httpMethod == Post && r.url == BaseURL + "/chat/completions"
      ensures HeaderValue(r.headers, "Content-Type") == Some("application/json")
      ensures HeaderValue(r.headers, "Authorization") == Some("Bearer " + apiKey)
      ensures r.body.Some? && ChatFields(r.body.value) == Some((Model, ChatContent(style, text), MaxTokens))
    {
      Request(Post, BaseURL + "/chat/completions",
              [Header("Content-Type", "application/json"), Header("Authorization", "Bearer " + apiKey)],
              Some(ChatBody(Model, ChatContent(style, text), MaxTokens)))
    }
  }

  datatype Message = Message(content: string)
  datatype Choice = Choice(message: Message)
  /** The decoded reply: only the choices' message contents are read. */
  datatype OpenAIResponse = OpenAIResponse(choices: seq<Choice>)

  /** `choices.first?.message.content ?? ""`. */
  function ImprovedText(response: OpenAIResponse): string {
    if response.choices == [] then "" else response.choices[0].message.content
  }

  /** Only the first choice counts: choices after it never change the result. */
  lemma ImprovedTextIgnoresLaterChoices(first: Choice, rest: seq<Choice>, others: seq<Choice>)
    ensures ImprovedText(OpenAIResponse([first] + rest)) == ImprovedText(OpenAIResponse([first] + others))
  {
  }

  /** The user's text can be read back from the request, so nothing else is added to it. */
  lemma ImproveTextRequestCarriesText(api: OpenAIAPI, text: string, style: WritingStyle)
    ensures var r := api.ImproveTextRequest(text, style);
      r.body.Some? && ChatFields(r.body.value).Some?
      && TextOf(style, ChatFields(r.body.value).value.1) == Some(text)
  {
    TextOfChatContent(style, text);
  }
}
