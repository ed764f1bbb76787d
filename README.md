# MacAITextImprover core, modelled in Dafny

MacAITextImprover is a macOS app. It sends the user's text to an AI provider
(Anthropic or OpenAI) with an instruction chosen by writing style, writes the
improved text back into the editor, and can read the text aloud through
ElevenLabs. At start-up it checks GitHub for a newer release. Its UI test suite
has a baseline reporter that compares the recorded UI baselines of two runs.

This project models the parts of that code that can be stated exactly, and
proves what they promise:

- `writing_style.dfy` (`WritingStyles`): the eight styles, their raw names and
  their prompts. Each prompt is built from a shared opening, the style's
  instruction words and ": ".
- `update_checker.dfy` (`Updates`): Swift's `Int(_:)` on a version component, and
  `compareVersions`, which drops non-numeric components, pads with zeros and
  compares lexicographically. It also holds `checkForUpdates` as a class method
  over the published fields, the GitHub request and the choice of asset.
- `requests.dfy` (`Requests`): HTTP requests as records (method, URL, headers,
  JSON body), plus the chat payload the two chat providers share.
- `openai.dfy`, `anthropic.dfy` (`OpenAI`, `Anthropic`): the request each chat
  client builds, and how it reads the reply.
- `elevenlabs.dfy` (`ElevenLabs`): the speech client as a class with mutable
  voice settings, and its voice-list and synthesis requests.
- `view_model.dfy` (`ViewModel`): `ContentViewModel` as a class. Each awaited
  provider call is replaced by its outcome, passed in as a parameter. Each
  state-changing method is proved against a function of the old state
  (`AfterImprove`, `AfterSpeak`), and lemmas state what those functions promise.
- `baseline_report.dfy` (`BaselineReport`): the counting loops of
  `generateReport`, `compareValues`, `categorizeChange` and the three diff
  generators. Baseline values reach the reporter as `Any`; here they are a
  tagged datatype.
- `ordering.dfy` (`Ordering`): the sort order of strings and the sorted listing
  of a set. `strings.dfy` (`Strings`): substring search, lower-casing,
  `replacingOccurrences` and `split`. `wrappers.dfy`: `Option`.

A few facts about the code that shape the model:

- `isLoading` is only a flag; `improveText` and `speakText` do not check it.
- The improved text replaces `inputText`. There is no separate output field.
- In `improveText` the key check comes after `isLoading` is set and the error is
  cleared.
- A missing key is reported through the same catch path as any provider error,
  so the message is "Failed to improve text: " followed by the key message.

## Model

| member | source | states |
|---|---|---|
| WritingStyles.FromRawValue | Sources/MacAITextImprover/WritingStyle.swift:3-11 | `WritingStyle(rawValue:)` yields a style only when the style's raw name is exactly the input |
| WritingStyles.AllCasesEnumerates | Sources/MacAITextImprover/WritingStyle.swift:3-11 | `allCases` has eight entries; every style is in it; no style appears twice |
| WritingStyles.RawValuesAreDocumented | Tests/MacAITextImproverTests/Features/WritingStyleTests.swift:9-35 | in `allCases` order, the raw names are exactly the eight documented style names |
| WritingStyles.RawValueRoundTrip | Sources/MacAITextImprover/WritingStyle.swift:3-11 | every raw name maps back to its own style, so no two styles share a raw name |
| WritingStyles.PromptShape | Sources/MacAITextImprover/WritingStyle.swift:13-32 | every prompt starts with "Please improve the following text to " and ends with ": ", and has a non-empty instruction between them |
| WritingStyles.PromptsDistinct | Sources/MacAITextImprover/WritingStyle.swift:15-31 | different styles have different prompts |
| WritingStyles.PromptMentionsKeywords | Tests/MacAITextImproverTests/Features/WritingStyleTests.swift:51-70 | each style's lower-cased prompt contains every keyword listed for that style |
| Requests.ChatContent | Sources/MacAITextImprover/OpenAIAPI.swift:28-33 | the message content starts with the style's prompt, and its length is the prompt's plus the text's |
| Requests.TextOf | Sources/MacAITextImprover/OpenAIAPI.swift:28-33 | any text recovered from a content rebuilds exactly that content |
| Requests.TextOfChatContent | AnthropicAPI.swift:25-30 | the text is recovered exactly from `style.prompt + text`; empty text sends the prompt alone |
| Requests.ChatBodyRoundTrip | Sources/MacAITextImprover/OpenAIAPI.swift:26-35 | the payload holds exactly one message with role "user", and model, content and token limit read back as given |
| OpenAI.OpenAIAPI.ImproveTextRequest | Sources/MacAITextImprover/OpenAIAPI.swift:15-35 | POST to baseURL + "/chat/completions"; JSON content type; Authorization "Bearer " + key; model "gpt-4-turbo-preview", content prompt + text, max_tokens 1024 |
| OpenAI.ImprovedTextIgnoresLaterChoices | Sources/MacAITextImprover/OpenAIAPI.swift:42 | choices after the first never change the result |
| OpenAI.ImproveTextRequestCarriesText | Sources/MacAITextImprover/OpenAIAPI.swift:26-35 | the user's text reads back unchanged from the request body |
| ViewModel.MissingKeyIffUnconfigured | Sources/MacAITextImprover/OpenAIAPI.swift:7-9 | the selected provider's key counts as missing exactly when its client is not configured (empty key) |
| Anthropic.AnthropicAPI.ImproveTextRequest | AnthropicAPI.swift:11-32 | POST to baseURL + "/messages"; JSON content type; `anthropic-version` header with the literal value "anthropic-version: 2023-06-01"; `x-api-key` "Bearer " + key; model "claude-3-sonnet-20240229", content prompt + text, max_tokens 1024 |
| Anthropic.ImproveTextRequestCarriesText | AnthropicAPI.swift:23-32 | the user's text reads back unchanged from the request body |
| ElevenLabs.VoiceOfSpeechURL | Sources/MacAITextImprover/ElevenLabsAPI.swift:37 | a voice id read out of a URL rebuilds exactly that synthesis endpoint |
| ElevenLabs.SpeechURLRoundTrip | Sources/MacAITextImprover/ElevenLabsAPI.swift:37 | the synthesis endpoint baseURL + "/text-to-speech/" + voice + "/stream" names exactly the voice it was built for |
| ElevenLabs.ElevenLabsAPI.constructor | Sources/MacAITextImprover/ElevenLabsAPI.swift:11-18 | key, voice, stability and similarity boost are stored as given |
| ElevenLabs.ElevenLabsAPI.WithDefaults | Sources/MacAITextImprover/ElevenLabsAPI.swift:11-18 | the defaults are voice "21m00Tcm4TlvDq8ikWAM", stability 0.5 and similarity boost 0.75 |
| ElevenLabs.ElevenLabsAPI.UpdateSettings | Sources/MacAITextImprover/ElevenLabsAPI.swift:20-24 | voice, stability and similarity boost are replaced; the key is a constant and does not change |
| ElevenLabs.ElevenLabsAPI.VoicesRequest | Sources/MacAITextImprover/ElevenLabsAPI.swift:26-29 | GET of baseURL + "/voices" with the raw key in `xi-api-key`, no Authorization header and no body |
| ElevenLabs.ElevenLabsAPI.SpeechRequest | Sources/MacAITextImprover/ElevenLabsAPI.swift:36-50 | POST to the current voice's endpoint with the raw key in `xi-api-key` and no Authorization header; the body holds the text, model "eleven_monolingual_v1" and the current stability and similarity boost |
| ElevenLabs.VoiceIdSelectsVoice | Sources/MacAITextImprover/ElevenLabsAPI.swift:71 | a client set to a listed voice's `id` synthesises at the endpoint of exactly that voice's `voice_id` |
| Updates.ParseInt | Sources/MacAITextImprover/UpdateChecker.swift:64 | `Int(_:)` succeeds only on a string that holds a digit, and only with a value in the 64-bit range |
| Updates.ParseIntShow | Sources/MacAITextImprover/UpdateChecker.swift:64 | every 64-bit integer written in decimal parses back to itself |
| Updates.ParseIntRejects | Sources/MacAITextImprover/UpdateChecker.swift:64 | a character that is neither a digit nor a leading sign makes the component unparsable |
| Updates.ParsedComponents | Sources/MacAITextImprover/UpdateChecker.swift:64-65 | `compactMap` keeps at most one number per piece |
| Updates.ParsedComponentsAppend | Sources/MacAITextImprover/UpdateChecker.swift:64-65 | the parsed components of joined piece lists are the joined parsed components |
| Updates.Pad | Sources/MacAITextImprover/UpdateChecker.swift:67-70 | the padded list has the requested length, keeps every component in place and is 0 beyond them |
| Updates.ComponentsGreaterIsFirstDifference | Sources/MacAITextImprover/UpdateChecker.swift:73-80 | after padding, "greater" holds exactly when the first differing component is larger |
| Updates.ComponentsGreaterIrreflexive | Sources/MacAITextImprover/UpdateChecker.swift:73-80 | equal versions are not greater than each other |
| Updates.ComponentsGreaterAsymmetric | Sources/MacAITextImprover/UpdateChecker.swift:73-79 | greater(a, b) excludes greater(b, a) |
| Updates.ComponentsGreaterTransitive | Sources/MacAITextImprover/UpdateChecker.swift:73-79 | greater(a, b) and greater(b, c) give greater(a, c) |
| Updates.FirstDifferenceTransitive | Sources/MacAITextImprover/UpdateChecker.swift:73-79 | the reference ordering (first differing component decides) is transitive |
| Updates.ComponentsGreaterTotal | Sources/MacAITextImprover/UpdateChecker.swift:73-80 | of two component lists, one is greater or they agree after padding |
| Updates.ComponentsGreaterRespectsPadding | Sources/MacAITextImprover/UpdateChecker.swift:67-70 | lists that agree after zero padding compare alike against any other list |
| Updates.IsGreaterStrictOrder | Sources/MacAITextImprover/UpdateChecker.swift:63-81 | `compareVersions` on strings is irreflexive, asymmetric and transitive |
| Updates.IsGreaterIgnoresTrailingZero | Sources/MacAITextImprover/UpdateChecker.swift:67-70 | appending ".0" to either version never changes the result |
| Updates.ZeroPaddingExample | Sources/MacAITextImprover/UpdateChecker.swift:67-70 | neither "1.1" nor "1.1.0" is greater than the other |
| Updates.NonNumericComponentDropped | Sources/MacAITextImprover/UpdateChecker.swift:64-65 | "1.beta.2" compares as [1, 2] |
| Updates.MajorVersionGreater | Sources/MacAITextImprover/UpdateChecker.swift:73-80 | "2.0.0" is greater than "1.0.0" |
| Updates.PatchVersionGreater | Sources/MacAITextImprover/UpdateChecker.swift:73-80 | "1.0.1" is greater than "1.0.0" |
| Updates.NumericNotTextual | Sources/MacAITextImprover/UpdateChecker.swift:64-80 | "1.10" is greater than "1.9", because components compare as numbers |
| Updates.NumericNotTextualConverse | Sources/MacAITextImprover/UpdateChecker.swift:64-80 | "1.9" is not greater than "1.10" |
| Updates.StripV | Sources/MacAITextImprover/UpdateChecker.swift:26 | one leading "v" is removed if present; otherwise the tag is kept whole |
| Updates.FirstAsset | Sources/MacAITextImprover/UpdateChecker.swift:40-42 | the result is the first asset with the name, and none exactly when no asset has it |
| Updates.DefaultVersionNotAnnounced | Sources/MacAITextImprover/UpdateChecker.swift:13 | with no bundle version the app runs as "1.0.0", so neither "v1.0.0" nor "1.0.0" counts as newer; with a bundle version, its own "v"-tag never counts as newer |
| Updates.UpdateChecker.constructor | Sources/MacAITextImprover/UpdateChecker.swift:4-19 | version, owner and repository are stored; no update is available; latest version, notes and download URL are nil |
| Updates.UpdateChecker.LatestReleaseRequest | Sources/MacAITextImprover/UpdateChecker.swift:50-57 | GET of "https://api.github.com/repos/" + owner + "/" + repo + "/releases/latest" with the GitHub v3 Accept header |
| Updates.UpdateChecker.CheckForUpdates | Sources/MacAITextImprover/UpdateChecker.swift:21-48 | a release is recorded (flag, version, notes, first matching asset's URL) only when its tag minus one leading "v" is greater than the current version; otherwise nothing changes; a recorded version is always newer |
| Updates.SameVersionNotAnnounced | Sources/MacAITextImprover/UpdateChecker.swift:26-27 | a release tagged with the running version, with or without "v", is never announced |
| ViewModel.ContentViewModel.constructor | Sources/MacAITextImprover/ContentViewModel.swift:7-30 | empty text, not recording, not loading, no error, Anthropic, professional style, the default voice, stability 0.5, similarity boost 0.75, empty provider keys, no speech client |
| ViewModel.ContentViewModel.UpdateAPIKeys | Sources/MacAITextImprover/ContentViewModel.swift:32-36 | both chat clients are replaced with the new keys and the error is cleared; nothing else changes |
| ViewModel.ContentViewModel.UpdateElevenLabsKey | Sources/MacAITextImprover/ContentViewModel.swift:38-46 | a new speech client holds the key and the current voice, stability and similarity boost; the error is cleared; nothing else changes |
| ViewModel.ContentViewModel.ValidateElevenLabsKey | Sources/MacAITextImprover/ContentViewModel.swift:48-57 | asks for the voice list with the given key; valid exactly when that succeeds; a failure sets "Invalid ElevenLabs API key: " + its description |
| ViewModel.ContentViewModel.ImproveText | Sources/MacAITextImprover/ContentViewModel.swift:153-190 | sends exactly `ImproveRequest` of the old state and leaves exactly `AfterImprove` of the old state and the outcome |
| ViewModel.ContentViewModel.CallSelectedProvider | Sources/MacAITextImprover/ContentViewModel.swift:165-181 | only the selected provider is asked; a missing key fails with its message before any request |
| ViewModel.ContentViewModel.SpeakText | Sources/MacAITextImprover/ContentViewModel.swift:192-221 | sends exactly `SpeakRequest` of the old state and leaves exactly `AfterSpeak` of the old state and the outcome |
| ViewModel.ContentViewModel.UpdateVoiceSettings | Sources/MacAITextImprover/ContentViewModel.swift:223-231 | with a client, its voice, stability and similarity boost become the view model's; without one, nothing can change |
| ViewModel.ImproveRequestIgnoresStatus | Sources/MacAITextImprover/ContentViewModel.swift:159-181 | setting the loading flag and clearing the error do not change which request is sent |
| ViewModel.ImproveEmptyText | Sources/MacAITextImprover/ContentViewModel.swift:153-157 | empty text sets "Please enter some text to improve" and nothing else, and no provider is asked |
| ViewModel.ImproveMissingKey | Sources/MacAITextImprover/ContentViewModel.swift:165-186 | with the selected key empty, no provider is asked, the text is kept and the error is "Failed to improve text: " + that provider's key message |
| ViewModel.ImproveClearsLoading | Sources/MacAITextImprover/ContentViewModel.swift:159-189 | past the empty-text guard loading always ends off; before it, loading is untouched |
| ViewModel.ImproveProviderOutcome | Sources/MacAITextImprover/ContentViewModel.swift:165-187 | with text and a key, the selected provider's endpoint is used; success writes the returned text and clears the error; failure keeps the text and reports "Failed to improve text: " + description |
| ViewModel.ImproveTouchesOnlyItsFields | Sources/MacAITextImprover/ContentViewModel.swift:153-190 | only the text, the loading flag and the error can change |
| ViewModel.OpenAIReplyBecomesText | Sources/MacAITextImprover/ContentViewModel.swift:175-183 | past the guards, the first OpenAI choice's content becomes `inputText` with no error; a reply without choices empties `inputText`, also with no error |
| ViewModel.AnthropicReplyBecomesText | Sources/MacAITextImprover/ContentViewModel.swift:166-183 | past the guards, the Anthropic reply's `content` becomes `inputText` unchanged, with no error |
| ViewModel.ImproveSendsText | Sources/MacAITextImprover/ContentViewModel.swift:172-180 | whichever provider is asked, its message carries the text exactly, after the selected style's prompt |
| ViewModel.SpeakGuards | Sources/MacAITextImprover/ContentViewModel.swift:193-201 | empty text gives "No text to speak", no client gives "ElevenLabs API not configured"; nothing is sent and nothing else changes |
| ViewModel.SpeakAttempt | Sources/MacAITextImprover/ContentViewModel.swift:203-220 | with text and a client, the text goes to the client's current voice; loading ends off; the text is kept; a failure is reported as "Failed to synthesize speech: " + description, and success clears the error |
| ViewModel.SpeakClearsLoading | Sources/MacAITextImprover/ContentViewModel.swift:192-221 | the guards leave loading untouched; any synthesis attempt ends with loading off |
| BaselineReport.SameIff | Tests/MacAITextImproverTests/UI/UIBaselineReporter.swift:128-141 | two values compare the same exactly when they are equal values of a supported kind, or both empty dictionaries; a value none of the four casts accepts differs even from itself |
| BaselineReport.SameSymmetric | Tests/MacAITextImproverTests/UI/UIBaselineReporter.swift:128-141 | the order of the arguments does not matter |
| BaselineReport.HierarchyMessage | Tests/MacAITextImproverTests/UI/UIBaselineReporter.swift:151 | the entry starts with "Structure changed in " and is strictly shorter than prefix + key when the key contains "Hierarchy" |
| BaselineReport.Categorize | Tests/MacAITextImproverTests/UI/UIBaselineReporter.swift:143-162 | at most one entry is added |
| BaselineReport.CategorizeFilesOnce | Tests/MacAITextImproverTests/UI/UIBaselineReporter.swift:150-161 | exactly one entry is appended when the change is filed, none otherwise, and every list keeps what it held |
| BaselineReport.HierarchyKeysFirst | Tests/MacAITextImproverTests/UI/UIBaselineReporter.swift:150-151 | a key containing "Hierarchy" is filed as a structure change whatever its values are |
| BaselineReport.SameKindFiledByKind | Tests/MacAITextImproverTests/UI/UIBaselineReporter.swift:152-160 | a change between two values of one kind is filed under that kind with both values |
| BaselineReport.UnfiledChanges | Tests/MacAITextImproverTests/UI/UIBaselineReporter.swift:150-161 | changed strings, changes between kinds and values that no cast accepts are filed nowhere |
| BaselineReport.EmptyMetricsBecomeLabels | Tests/MacAITextImproverTests/UI/UIBaselineReporter.swift:152-160 | an emptied metric map replaced by labels is filed as an accessibility change from empty labels |
| BaselineReport.Summarize | Tests/MacAITextImproverTests/UI/UIBaselineReporter.swift:24-58 | total is the number of current keys; added and removed are the sizes of the two key differences; changed is the number of shared keys that compare different; the change lists are exactly what categorizing every changed key once, in some order, produces (`FiledInSomeOrder`), so they hold as many entries as there are filed keys, each filed key has its entry, and every entry comes from a changed key with its cast values |
| BaselineReport.CompareCurrent | Tests/MacAITextImproverTests/UI/UIBaselineReporter.swift:35-51 | the loop over the current baselines counts as added exactly the keys missing from the previous run and as changed exactly the shared keys whose values compare different; it returns a listing of the changed keys, each once, and the change lists equal `FileAll` over that listing, the result of filing those keys one after another with `Categorize`; hence as many entries as filed keys, each filed key with its entry (the hierarchy message, or the key with both cast values in the list of its kind), and every entry from a changed key |
| BaselineReport.FileAllMeaning | Tests/MacAITextImproverTests/UI/UIBaselineReporter.swift:36-47 | categorizing each changed key once, in any order, gives as many entries as there are filed keys, an entry for every filed key, and only entries that come from a changed key with its cast values |
| BaselineReport.CountRemoved | Tests/MacAITextImproverTests/UI/UIBaselineReporter.swift:53-58 | the loop over the previous keys counts exactly the keys that are gone from the current run |
| BaselineReport.SummaryBounds | Tests/MacAITextImproverTests/UI/UIBaselineReporter.swift:36-51 | changed + added never exceeds total, and filed changes never exceed changed ones |
| BaselineReport.SummaryOfSameBaselines | Tests/MacAITextImproverTests/UI/UIBaselineReporter.swift:36-47 | comparing baselines with themselves finds changes only in values that none of the four casts accepts |
| BaselineReport.KeyLinesText | Tests/MacAITextImproverTests/UI/UIBaselineReporter.swift:172-181 | the text printed for one key: "+ " with the new value, "- " with the old one, both for a changed value, otherwise two spaces with the previous value or the fallback |
| BaselineReport.KeyedDiff | Tests/MacAITextImproverTests/UI/UIBaselineReporter.swift:164-185 | the loop's text is the rendering of the diff lines over the sorted union of keys |
| BaselineReport.GenerateLayoutDiff | Tests/MacAITextImproverTests/UI/UIBaselineReporter.swift:164-185 | the layout diff renders the map diff lines with fallback 0 |
| BaselineReport.GenerateAccessibilityDiff | Tests/MacAITextImproverTests/UI/UIBaselineReporter.swift:206-227 | the accessibility diff renders the map diff lines with fallback "" and values printed verbatim |
| BaselineReport.MapDiffMeaning | Tests/MacAITextImproverTests/UI/UIBaselineReporter.swift:206-227 | every line is true to the two maps; every new, dropped, changed and kept key gets its line or lines; lines come in key order, with removal before addition for a changed key |
| BaselineReport.MapDiffQuietIffEqual | Tests/MacAITextImproverTests/UI/UIBaselineReporter.swift:164-185 | all lines are unchanged lines exactly when the two maps are equal |
| BaselineReport.AppendMarked | Tests/MacAITextImproverTests/UI/UIBaselineReporter.swift:193-201 | each loop appends exactly the rendering of its states with its prefix |
| BaselineReport.GenerateStateDiff | Tests/MacAITextImproverTests/UI/UIBaselineReporter.swift:187-204 | the text renders removed states sorted, then added states sorted, then unchanged states sorted |
| BaselineReport.StateDiffTruthful | Tests/MacAITextImproverTests/UI/UIBaselineReporter.swift:189-191 | a "- " state is only before, a "+ " state only now, a "  " state in both |
| BaselineReport.StateDiffComplete | Tests/MacAITextImproverTests/UI/UIBaselineReporter.swift:189-201 | every state of either list has a line |
| BaselineReport.StateDiffOrdered | Tests/MacAITextImproverTests/UI/UIBaselineReporter.swift:193-201 | no state has two lines; removed come first, then added, then unchanged, each group in sort order |
| Ordering.SortedKeys | Tests/MacAITextImproverTests/UI/UIBaselineReporter.swift:166 | the loop's result is the sorted listing of the set |
| Ordering.SortedListsSet | Tests/MacAITextImproverTests/UI/UIBaselineReporter.swift:166 | the sorted listing holds every element of the set once, nothing else, in strictly increasing order |
| Strings.RemoveAllShrinks | Tests/MacAITextImproverTests/UI/UIBaselineReporter.swift:151 | removing "Hierarchy" never lengthens a key, and shortens one that contains it |
| Strings.RemoveAllAbsent | Tests/MacAITextImproverTests/UI/UIBaselineReporter.swift:151 | a key without the pattern is kept as it is |

## Left out

- Speech capture: `toggleRecording`, `startRecording`, `setupRecording` and `stopRecording` (Sources/MacAITextImprover/ContentViewModel.swift:59-151). These drive the audio engine and the speech recogniser, which are operating-system services.
- Audio playback and removal of the temporary audio file in `speakText` are left out; they are folded into the outcome parameter of `SpeakText`.
- Network and serialisation: no `URLSession` call, `JSONSerialization` or `JSONDecoder` is modelled. Requests are records, JSON objects are maps, and decoded replies are datatypes. A decoding failure is part of a failure outcome.
- The temporary `.mp3` written by `synthesizeSpeech` is left out; only its request is modelled.
- `URL(string:)` is taken to always succeed. Its `badURL` branches and the force unwraps are left out; the asset's download URL is kept as a string.
- Updates.UpdateChecker.CheckForUpdates: fetch and decode errors, which are only printed, appear as a `None` release. The hop to the main actor is not modelled.
- HTTP header names are compared exactly; `URLRequest`'s case-insensitive header lookup is left out.
- Anthropic.AnthropicAPI.ImproveTextRequest: the headers are modelled as the code writes them. The `x-api-key` value has a "Bearer " prefix, and the `anthropic-version` value repeats the header name. Whether the service accepts these is outside the model.
- BaselineReport.Summarize: Swift dictionary iteration order is unspecified. The loops take keys in an arbitrary order, so no order is stated for the entries within a change list.
- BaselineReport.CompareCurrent: as for `Summarize`, the order of the entries within a change list is not stated.
- ViewModel.ContentViewModel.ImproveText: the call is modelled as one atomic step, with the provider's outcome as a parameter. On the main actor, the `await` lets other work run while the provider is called. The model does not capture that interleaving: a second `improveText` or `speakText`, a recogniser edit of `inputText` or a change of `selectedService` during the call; the first call clearing `isLoading` while a second is still running; or `inputText = improvedText` overwriting edits made during the call.
- ViewModel.ContentViewModel.SpeakText: atomic in the same way. Calls that overlap across the synthesis `await`, and `isLoading` being cleared by whichever call finishes first, are not modelled.
- Baseline values are a tagged datatype, so each value has one kind. In Swift an empty array or dictionary of another element type (for example `[Int]()` or `[String: Int]()`) passes the `as? [String]` or `as? [String: CGFloat]` casts. Such values are not modelled; `Unsupported` stands only for values that none of the four casts accepts.
- The report text of `generateReport` (the markdown headings, the `Date()` stamp, the embedding of each diff in a code block) and its file write are left out. The counts, the change lists and the diff texts it embeds are modelled.
- BaselineReport.GenerateLayoutDiff: CGFloat values are reals, and their decimal rendering is a parameter `show`. Floating-point rounding and NaN (which differs from itself) are not modelled.
- Strings sort lexicographically by character. Swift's Unicode-aware `String` comparison (canonical equivalence) is not modelled.
- Substring search (`contains`), `replacingOccurrences(of:with:)`, `split(separator:)` (used on version strings) and `lowercased()` work character by character, and lower-casing maps only ASCII letters. Swift's grapheme-cluster matching, canonical equivalence and full Unicode case mapping are not modelled.
- `UIBaselineReporter.init` creates a directory on disk; it is left out.
- SwiftUI views, the app entry point, the 24-hour update timer and `UpdateNotificationView` hold no modelled logic.
- The older root-level `ContentViewModel.swift` and `AIService.swift` are an earlier revision and are not part of this model.
- Stability, similarity boost and layout metrics are stored, forwarded and compared for equality only; no arithmetic is done on them.
