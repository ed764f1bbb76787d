/**
 * The ElevenLabs text-to-speech client (`ElevenLabsAPI`): the voice settings it
 * keeps and updates in place, and the requests it builds to list voices and to
 * synthesise speech with those settings.
 */
module ElevenLabs {
  import opened Wrappers
  import opened Strings
  import opened Requests

  const BaseURL: string := "https://api.elevenlabs.io/v1"
  /** The default voice ("Rachel"). */
  const DefaultVoiceID: string := "21m00Tcm4TlvDq8ikWAM"
  const DefaultStability: real := 0.5
  const DefaultSimilarityBoost: real := 0.75
  const SpeechModel: string := "eleven_monolingual_v1"

  /** The path before and after the voice id in the synthesis endpoint. */
  const SpeechPrefix: string := BaseURL + "/text-to-speech/"
  const SpeechSuffix: string := "/stream"

  /** The synthesis endpoint for a voice. */
  function SpeechURL(voiceID: string): string {
    SpeechPrefix + voiceID + SpeechSuffix
  }

  /** Reads the voice id back out of a synthesis endpoint. */
  function VoiceOfSpeechURL(url: string): (r: Option<string>)
    ensures r.Some? ==> SpeechURL(r.value) == url
  {
    if StartsWith(url, SpeechPrefix) && EndsWith(url, SpeechSuffix)
       && |SpeechPrefix| + |SpeechSuffix| <= |url|
    then
      var voice := url[|SpeechPrefix|..|url| - |SpeechSuffix|];
      assert url == url[..|SpeechPrefix|] + voice + url[|url| - |SpeechSuffix|..];
      Some(voice)
    else None
  }

  /** The synthesis endpoint names exactly the voice it was built for. */
  lemma SpeechURLRoundTrip(voiceID: string)
    ensures VoiceOfSpeechURL(SpeechURL(voiceID)) == Some(voiceID)
  {
    var url := SpeechURL(voiceID);
    assert url[..|SpeechPrefix|] == SpeechPrefix;
    assert url[|url| - |SpeechSuffix|..] == SpeechSuffix;
    assert url[|SpeechPrefix|..|url| - |SpeechSuffix|] == voiceID;
  }

  /** The JSON body of a synthesis request. */
  function SpeechBody(text: string, stability: real, similarityBoost: real): Json {
    JObject(map[
      "text" := JString(text),
      "model_id" := JString(SpeechModel),
      "voice_settings" := JObject(map["stability" := JReal(stability), "similarity_boost" := JReal(similarityBoost)])
    ])
  }

  /** Reads a synthesis body back: text, model, stability and similarity boost. */
  function SpeechFields(body: Json): Option<(string, string, real, real)> {
    if body.JObject? && "text" in body.fields && body.fields["text"].JString?
      && "model_id" in body.fields && body.fields["model_id"].JString?
      && "voice_settings" in body.fields && body.fields["voice_settings"].JObject?
      && "stability" in body.fields["voice_settings"].fields
      && body.fields["voice_settings"].fields["stability"].JReal?
      && "similarity_boost" in body.fields["voice_settings"].fields
      && body.fields["voice_settings"].fields["similarity_boost"].JReal?
    then
      Some((body.fields["text"].text, body.fields["model_id"].text,
            body.fields["voice_settings"].fields["stability"].amount,
            body.fields["voice_settings"].fields["similarity_boost"].amount))
    else None
  }

  class ElevenLabsAPI {
    const apiKey: string
    var selectedVoiceID: string
    var stability: real
    var similarityBoost: real

    /** `init(apiKey:voiceID:stability:similarityBoost:)`: every argument is stored as given. */
    constructor(apiKey: string, voiceID: string, stability: real, similarityBoost: real)
      ensures this.apiKey == apiKey && selectedVoiceID == voiceID
      ensures this.stability == stability && this.similarityBoost == similarityBoost
    {
      this.apiKey := apiKey;
      selectedVoiceID := voiceID;
      this.stability := stability;
      this.similarityBoost := similarityBoost;
    }

    /** `init(apiKey:)` with the default voice and settings. */
    constructor WithDefaults(apiKey: string)
      ensures this.apiKey == apiKey && selectedVoiceID == DefaultVoiceID
      ensures stability == DefaultStability && similarityBoost == DefaultSimilarityBoost
    {
      this.apiKey := apiKey;
      selectedVoiceID := DefaultVoiceID;
      stability := DefaultStability;
      similarityBoost := DefaultSimilarityBoost;
    }

    /** `updateSettings`: the three settings are replaced; the key is a constant and stays. */
    method UpdateSettings(voiceID: string, stability: real, similarityBoost: real)
      modifies this
      ensures selectedVoiceID == voiceID
      ensures this.stability == stability && this.similarityBoost == similarityBoost
    {
      selectedVoiceID := voiceID;
      this.stability := stability;
      this.similarityBoost := similarityBoost;
    }

    /** The request `getVoices` sends: a GET of the voice list with the raw key and no body. */
    function VoicesRequest(): (r: Request)
      ensures r.httpMethod == Get && r.url == BaseURL + "/voices" && r.body.None?
      ensures HeaderValue(r.headers, "xi-api-key") == Some(apiKey)
      ensures HeaderValue(r.headers, "Authorization").None?
    {
      Request(Get, BaseURL + "/voices", [Header("xi-api-key", apiKey)], None)
    }

    /**
     * The request `synthesizeSpeech` posts: the current voice in the endpoint, the
     * raw key, and a body with the text, the model and the current voice settings.
     */
    function SpeechRequest(text: string): (r: Request)
      reads this
      ensures r.httpMethod == Post
      ensures VoiceOfSpeechURL(r.url) == Some(selectedVoiceID)
      ensures HeaderValue(r.headers, "Content-Type") == Some("application/json")
      ensures HeaderValue(r.headers, "xi-api-key") == Some(apiKey)
      ensures HeaderValue(r.headers, "Authorization").None?
      ensures r.body.Some? && SpeechFields(r.body.value) == Some((text, SpeechModel, stability, similarityBoost))
    {
      SpeechURLRoundTrip(selectedVoiceID);
      var headers := [Header("Content-Type", "application/json"), Header("xi-api-key", apiKey)];
      HeaderValueFirst(headers, "Authorization");
      Request(Post, SpeechURL(selectedVoiceID), headers, Some(SpeechBody(text, stability, similarityBoost)))
    }
  }

  /** A voice as the voice list decodes it. */
  datatype Voice = Voice(voiceID: string, name: string, previewURL: Option<string>, category: Option<string>) {
    /** `id` (for `Identifiable`): the voice's `voice_id`. */
    function Id(): string {
      voiceID
    }
  }

  /** A client set to a listed voice's `id` synthesises speech with exactly that voice. */
  lemma VoiceIdSelectsVoice(api: ElevenLabsAPI, v: Voice, text: string)
    requires api.selectedVoiceID == v.Id()
    ensures VoiceOfSpeechURL(api.SpeechRequest(text).url) == Some(v.voiceID)
  {
  }

  datatype VoicesResponse = VoicesResponse(voices: seq<Voice>)
}
