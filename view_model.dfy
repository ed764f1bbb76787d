/**
 * The session state of the main window (`ContentViewModel`): the text being
 * edited, the loading flag, the last error, the selected provider and style, the
 * voice settings and the provider clients. Each asynchronous provider call is
 * replaced by its outcome, passed in as a parameter.
 */
module ViewModel {
  import opened Wrappers
  import opened Strings
  import opened WritingStyles
  import opened Requests
  import OpenAI
  import Anthropic
  import opened ElevenLabs

  /** `AIServiceType`. */
  datatype AIServiceType = AnthropicService | OpenAIService

  /** What an awaited provider call produced: a value, or an error and its description. */
  datatype Outcome<T> = Success(value: T) | Failure(description: string)

  const NoTextToImprove: string := "Please enter some text to improve"
  const ImproveFailurePrefix: string := "Failed to improve text: "
  const AnthropicKeyMissing: string := "Anthropic API key not configured"
  const OpenAIKeyMissing: string := "OpenAI API key not configured"
  const NoTextToSpeak: string := "No text to speak"
  const SpeechNotConfigured: string := "ElevenLabs API not configured"
  const SpeechFailurePrefix: string := "Failed to synthesize speech: "
  const InvalidKeyPrefix: string := "Invalid ElevenLabs API key: "

  /** The view model's fields at one moment. */
  datatype Session = Session(
    inputText: string,
    isRecording: bool,
    isLoading: bool,
    selectedService: AIServiceType,
    selectedStyle: WritingStyle,
    errorMessage: Option<string>,
    selectedVoiceID: string,
    stability: real,
    similarityBoost: real,
    anthropicAPI: Anthropic.AnthropicAPI,
    openAIAPI: OpenAI.OpenAIAPI,
    elevenLabsAPI: ElevenLabsAPI?)

  /** The error thrown before any provider is called when the selected provider has no key. */
  function MissingKey(s: Session): Option<string> {
    match s.selectedService
    case AnthropicService => if s.anthropicAPI.apiKey == [] then Some(AnthropicKeyMissing) else None
    case OpenAIService => if s.openAIAPI.apiKey == [] then Some(OpenAIKeyMissing) else None
  }

  /** The request `improveText` hands to the selected provider, if it gets that far. */
  function ImproveRequest(s: Session): Option<Request> {
    if s.inputText == [] || MissingKey(s).Some? then None
    else
      match s.selectedService
      case AnthropicService => Some(s.anthropicAPI.ImproveTextRequest(s.inputText, s.selectedStyle))
      case OpenAIService => Some(s.openAIAPI.ImproveTextRequest(s.inputText, s.selectedStyle))
  }

  /** Neither the loading flag nor the error has a say in which request is sent. */
  lemma ImproveRequestIgnoresStatus(s: Session, loading: bool, error: Option<string>)
    ensures ImproveRequest(s.(isLoading := loading, errorMessage := error)) == ImproveRequest(s)
    ensures MissingKey(s.(isLoading := loading, errorMessage := error)) == MissingKey(s)
  {
  }

  /** The selected provider's key counts as missing exactly when its client is not configured. */
  lemma MissingKeyIffUnconfigured(s: Session)
    ensures s.selectedService == OpenAIService ==> (MissingKey(s).None? <==> s.openAIAPI.IsConfigured())
    ensures s.selectedService == AnthropicService ==> (MissingKey(s).None? <==> s.anthropicAPI.apiKey != [])
  {
  }

  /** The fields after `improveText`, when the provider (if called) produced `outcome`. */
  function AfterImprove(s: Session, outcome: Outcome<string>): Session {
    if s.inputText == [] then s.(errorMessage := Some(NoTextToImprove))
    else if MissingKey(s).Some? then
      s.(isLoading := false, errorMessage := Some(ImproveFailurePrefix + MissingKey(s).value))
    else
      match outcome
      case Success(text) => s.(isLoading := false, errorMessage := None, inputText := text)
      case Failure(description) => s.(isLoading := false, errorMessage := Some(ImproveFailurePrefix + description))
  }

  /** The request `speakText` hands to the ElevenLabs client, if it gets that far. */
  function SpeakRequest(s: Session): Option<Request>
    reads s.elevenLabsAPI
  {
    if s.inputText == [] || s.elevenLabsAPI == null then None
    else Some(s.elevenLabsAPI.SpeechRequest(s.inputText))
  }

  /** The fields after `speakText`, when synthesis and playback (if attempted) produced `outcome`. */
  function AfterSpeak(s: Session, outcome: Outcome<string>): Session {
    if s.inputText == [] then s.(errorMessage := Some(NoTextToSpeak))
    else if s.elevenLabsAPI == null then s.(errorMessage := Some(SpeechNotConfigured))
    else
      match outcome
      case Success(_) => s.(isLoading := false, errorMessage := None)
      case Failure(description) => s.(isLoading := false, errorMessage := Some(SpeechFailurePrefix + description))
  }

  class ContentViewModel {
    var inputText: string
    var isRecording: bool
    var isLoading: bool
    var selectedService: AIServiceType
    var selectedStyle: WritingStyle
    var errorMessage: Option<string>
    var selectedVoiceID: string
    var stability: real
    var similarityBoost: real
    var anthropicAPI: Anthropic.AnthropicAPI
    var openAIAPI: OpenAI.OpenAIAPI
    var elevenLabsAPI: ElevenLabsAPI?

    function Snapshot(): Session
      reads this
    {
      Session(inputText, isRecording, isLoading, selectedService, selectedStyle, errorMessage,
              selectedVoiceID, stability, similarityBoost, anthropicAPI, openAIAPI, elevenLabsAPI)
    }

    /** `init`: empty text, nothing loading, Anthropic and the professional style, default voice, no keys. */
    constructor()
      ensures inputText == "" && !isRecording && !isLoading && errorMessage.None?
      ensures selectedService == AnthropicService && selectedStyle == Professional
      ensures selectedVoiceID == DefaultVoiceID
      ensures stability == DefaultStability && similarityBoost == DefaultSimilarityBoost
      ensures anthropicAPI.apiKey == "" && openAIAPI.apiKey == ""
      ensures elevenLabsAPI == null
    {
      inputText := "";
      isRecording := false;
      isLoading := false;
      selectedService := AnthropicService;
      selectedStyle := Professional;
      errorMessage := None;
      selectedVoiceID := DefaultVoiceID;
      stability := DefaultStability;
      similarityBoost := DefaultSimilarityBoost;
      anthropicAPI := Anthropic.AnthropicAPI("");
      openAIAPI := OpenAI.OpenAIAPI("");
      elevenLabsAPI := null;
    }

    /** `updateAPIKeys`: both chat clients are replaced and the error is cleared. */
    method UpdateAPIKeys(anthropic: string, openAI: string)
      modifies this
      ensures Snapshot() == old(Snapshot()).(anthropicAPI := Anthropic.AnthropicAPI(anthropic),
                                             openAIAPI := OpenAI.OpenAIAPI(openAI),
                                             errorMessage := None)
    {
      anthropicAPI := Anthropic.AnthropicAPI(anthropic);
      openAIAPI := OpenAI.OpenAIAPI(openAI);
      errorMessage := None;
    }

    /**
     * `updateElevenLabsKey`: a new client carrying the key and the current voice,
     * stability and similarity boost is installed, and the error is cleared.
     */
    method UpdateElevenLabsKey(key: string)
      modifies this
      ensures elevenLabsAPI != null && fresh(elevenLabsAPI)
      ensures elevenLabsAPI.apiKey == key && elevenLabsAPI.selectedVoiceID == selectedVoiceID
      ensures elevenLabsAPI.stability == stability && elevenLabsAPI.similarityBoost == similarityBoost
      ensures Snapshot() == old(Snapshot()).(elevenLabsAPI := elevenLabsAPI, errorMessage := None)
    {
      elevenLabsAPI := new ElevenLabsAPI(key, selectedVoiceID, stability, similarityBoost);
      errorMessage := None;
    }

    /**
     * `validateElevenLabsKey`: asks for the voice list with a throw-away client
     * holding `key`. A failure is reported in `errorMessage`; success changes nothing.
     */
    method ValidateElevenLabsKey(key: string, outcome: Outcome<seq<Voice>>) returns (valid: bool, sent: Request)
      modifies this
      ensures sent.httpMethod == Get && sent.url == ElevenLabs.BaseURL + "/voices"
      ensures HeaderValue(sent.headers, "xi-api-key") == Some(key)
      ensures valid <==> outcome.Success?
      ensures Snapshot() == if outcome.Success? then old(Snapshot())
        else old(Snapshot()).(errorMessage := Some(InvalidKeyPrefix + outcome.description))
    {
      var api := new ElevenLabsAPI.WithDefaults(key);
      sent := api.VoicesRequest();
      match outcome
      case Success(_) =>
        valid := true;
      case Failure(description) =>
        errorMessage := Some(InvalidKeyPrefix + description);
        valid := false;
    }

    /**
     * `improveText`. With empty text only the error is set. Otherwise loading is
     * switched on and the error cleared; a missing key for the selected provider
     * fails before any call; the provider's text replaces `inputText`, or its error
     * is reported; loading is switched off.
     */
    method ImproveText(outcome: Outcome<string>) returns (sent: Option<Request>)
      modifies this
      ensures sent == ImproveRequest(old(Snapshot()))
      ensures Snapshot() == AfterImprove(old(Snapshot()), outcome)
    {
      ghost var before := Snapshot();
      if inputText == [] {
        errorMessage := Some(NoTextToImprove);
        return None;
      }
      isLoading := true;
      errorMessage := None;
      ImproveRequestIgnoresStatus(before, true, None);
      assert Snapshot() == before.(isLoading := true, errorMessage := None);
      var result;
      sent, result := CallSelectedProvider(outcome);
      match result {
        case Success(text) =>
          inputText := text;
        case Failure(description) =>
          errorMessage := Some(ImproveFailurePrefix + description);
      }
      isLoading := false;
    }

    /**
     * The `switch` over the selected provider in `improveText`: the key guard of the
     * selected provider, then its call. Yields the request sent (if any) and what
     * the `do` block ends with.
     */
    method CallSelectedProvider(outcome: Outcome<string>) returns (sent: Option<Request>, result: Outcome<string>)
      requires inputText != []
      ensures sent == ImproveRequest(Snapshot())
      ensures result == if MissingKey(Snapshot()).Some? then Failure(MissingKey(Snapshot()).value) else outcome
    {
      match selectedService {
        case AnthropicService =>
          if anthropicAPI.apiKey == [] {
            result := Failure(AnthropicKeyMissing);
            sent := None;
          } else {
            sent := Some(anthropicAPI.ImproveTextRequest(inputText, selectedStyle));
            result := outcome;
          }
        case OpenAIService =>
          if openAIAPI.apiKey == [] {
            result := Failure(OpenAIKeyMissing);
            sent := None;
          } else {
            sent := Some(openAIAPI.ImproveTextRequest(inputText, selectedStyle));
            result := outcome;
          }
      }
    }

    /**
     * `speakText`. Empty text and a missing client only set the error. Otherwise
     * loading is switched on and the error cleared, the text is sent for
     * synthesis, a failure is reported, and loading is switched off.
     */
    method SpeakText(outcome: Outcome<string>) returns (sent: Option<Request>)
      modifies this
      ensures sent == SpeakRequest(old(Snapshot()))
      ensures Snapshot() == AfterSpeak(old(Snapshot()), outcome)
    {
      if inputText == [] {
        errorMessage := Some(NoTextToSpeak);
        return None;
      }
      if elevenLabsAPI == null {
        errorMessage := Some(SpeechNotConfigured);
        return None;
      }
      isLoading := true;
      errorMessage := None;
      sent := Some(elevenLabsAPI.SpeechRequest(inputText));
      match outcome {
        case Success(_) =>
        case Failure(description) =>
          errorMessage := Some(SpeechFailurePrefix + description);
      }
      isLoading := false;
    }

    /** `updateVoiceSettings`: copies the voice, stability and similarity boost into the client, if any. */
    method UpdateVoiceSettings()
      modifies elevenLabsAPI
      ensures elevenLabsAPI != null ==>
        && elevenLabsAPI.selectedVoiceID == selectedVoiceID
        && elevenLabsAPI.stability == stability
        && elevenLabsAPI.similarityBoost == similarityBoost
    {
      if elevenLabsAPI != null {
        elevenLabsAPI.UpdateSettings(selectedVoiceID, stability, similarityBoost);
      }
    }
  }

  // ---------------------------------------------------------------------------
  // What improveText promises

  /** Empty text: only the error is set; no provider is called and loading is untouched. */
  lemma ImproveEmptyText(s: Session, outcome: Outcome<string>)
    requires s.inputText == []
    ensures AfterImprove(s, outcome) == s.(errorMessage := Some(NoTextToImprove))
    ensures ImproveRequest(s).None?
  {
  }

  /** A missing key for the selected provider: no call, text kept, the key error reported. */
  lemma ImproveMissingKey(s: Session, outcome: Outcome<string>)
    requires s.inputText != []
    requires s.selectedService == AnthropicService ==> s.anthropicAPI.apiKey == []
    requires s.selectedService == OpenAIService ==> s.openAIAPI.apiKey == []
    ensures ImproveRequest(s).None?
    ensures AfterImprove(s, outcome).inputText == s.inputText
    ensures AfterImprove(s, outcome).errorMessage == Some(ImproveFailurePrefix +
      (if s.selectedService == AnthropicService then AnthropicKeyMissing else OpenAIKeyMissing))
  {
  }

  /** Once the text is non-empty, loading always ends switched off; otherwise it is untouched. */
  lemma ImproveClearsLoading(s: Session, outcome: Outcome<string>)
    ensures AfterImprove(s, outcome).isLoading == (s.isLoading && s.inputText == [])
  {
  }

  /**
   * With text and a key, the selected provider alone is called with that text and
   * style: success replaces the text and clears the error; failure keeps the text
   * and reports an error starting with "Failed to improve text: ".
   */
  lemma ImproveProviderOutcome(s: Session, outcome: Outcome<string>)
    requires s.inputText != [] && MissingKey(s).None?
    ensures ImproveRequest(s).Some?
    ensures s.selectedService == AnthropicService ==>
      ImproveRequest(s).value.url == Anthropic.BaseURL + "/messages"
    ensures s.selectedService == OpenAIService ==>
      ImproveRequest(s).value.url == OpenAI.BaseURL + "/chat/completions"
    ensures outcome.Success? ==>
      AfterImprove(s, outcome).inputText == outcome.value && AfterImprove(s, outcome).errorMessage.None?
    ensures outcome.Failure? ==>
      && AfterImprove(s, outcome).inputText == s.inputText
      && AfterImprove(s, outcome).errorMessage.Some?
      && StartsWith(AfterImprove(s, outcome).errorMessage.value, ImproveFailurePrefix)
  {
    if outcome.Failure? {
      assert (ImproveFailurePrefix + outcome.description)[..|ImproveFailurePrefix|] == ImproveFailurePrefix;
    }
  }

  /**
   * Past the guards, the first OpenAI choice becomes the text; a reply without
   * choices reads as "" and so empties the text, with no error shown.
   */
  lemma OpenAIReplyBecomesText(s: Session, response: OpenAI.OpenAIResponse)
    requires s.inputText != [] && s.selectedService == OpenAIService && s.openAIAPI.apiKey != []
    ensures var after := AfterImprove(s, Success(OpenAI.ImprovedText(response)));
      && after.errorMessage.None? && !after.isLoading
      && (response.choices != [] ==> after.inputText == response.choices[0].message.content)
      && (response.choices == [] ==> after.inputText == [])
  {
  }

  /** Past the guards, the Anthropic reply's content becomes the text unchanged, with no error shown. */
  lemma AnthropicReplyBecomesText(s: Session, response: Anthropic.AnthropicResponse)
    requires s.inputText != [] && s.selectedService == AnthropicService && s.anthropicAPI.apiKey != []
    ensures var after := AfterImprove(s, Success(Anthropic.ImprovedText(response)));
      after.inputText == response.content && after.errorMessage.None? && !after.isLoading
  {
  }

  /** `improveText` changes nothing but the text, the loading flag and the error. */
  lemma ImproveTouchesOnlyItsFields(s: Session, outcome: Outcome<string>)
    ensures AfterImprove(s, outcome).(inputText := s.inputText, isLoading := s.isLoading,
                                      errorMessage := s.errorMessage) == s
  {
  }

  /** Whichever provider is selected, the message it receives carries the text exactly. */
  lemma ImproveSendsText(s: Session)
    requires ImproveRequest(s).Some?
    ensures ImproveRequest(s).value.body.Some?
    ensures ChatFields(ImproveRequest(s).value.body.value).Some?
    ensures TextOf(s.selectedStyle, ChatFields(ImproveRequest(s).value.body.value).value.1) == Some(s.inputText)
  {
    match s.selectedService
    case AnthropicService =>
      Anthropic.ImproveTextRequestCarriesText(s.anthropicAPI, s.inputText, s.selectedStyle);
    case OpenAIService =>
      OpenAI.ImproveTextRequestCarriesText(s.openAIAPI, s.inputText, s.selectedStyle);
  }

  // ---------------------------------------------------------------------------
  // What speakText promises

  /** Empty text or no client: only the error is set, and nothing is sent. */
  lemma SpeakGuards(s: Session, outcome: Outcome<string>)
    requires s.inputText == [] || s.elevenLabsAPI == null
    ensures SpeakRequest(s).None?
    ensures AfterSpeak(s, outcome) == s.(errorMessage :=
      Some(if s.inputText == [] then NoTextToSpeak else SpeechNotConfigured))
  {
  }

  /**
   * With text and a client, the text goes to the client's current voice; loading
   * ends switched off and a failure is reported with its prefix.
   */
  lemma SpeakAttempt(s: Session, outcome: Outcome<string>)
    requires s.inputText != [] && s.elevenLabsAPI != null
    ensures SpeakRequest(s).Some?
    ensures SpeechFields(SpeakRequest(s).value.body.value).Some?
    ensures SpeechFields(SpeakRequest(s).value.body.value).value.0 == s.inputText
    ensures VoiceOfSpeechURL(SpeakRequest(s).value.url) == Some(s.elevenLabsAPI.selectedVoiceID)
    ensures !AfterSpeak(s, outcome).isLoading
    ensures AfterSpeak(s, outcome).inputText == s.inputText
    ensures AfterSpeak(s, outcome).errorMessage ==
      if outcome.Success? then None else Some(SpeechFailurePrefix + outcome.description)
  {
  }

  /** Loading is untouched by the guards and switched off after any synthesis attempt. */
  lemma SpeakClearsLoading(s: Session, outcome: Outcome<string>)
    ensures AfterSpeak(s, outcome).isLoading ==
      (s.isLoading && (s.inputText == [] || s.elevenLabsAPI == null))
  {
  }
}
