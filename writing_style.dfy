/**
 * The catalogue of writing styles (`WritingStyle`): eight cases, each with the
 * raw name shown in the style picker and the instruction prompt prepended to the
 * user's text before it goes to a provider.
 */
module WritingStyles {
  import opened Wrappers
  import opened Strings

  datatype WritingStyle =
    | Professional
    | Academic
    | Casual
    | Creative
    | Technical
    | Persuasive
    | Concise
    | Storytelling
  {
    /** The enum's `rawValue`. */
    function RawValue(): string {
      match this
      case Professional => "Professional"
      case Academic => "Academic"
      case Casual => "Casual & Friendly"
      case Creative => "Creative & Playful"
      case Technical => "Technical"
      case Persuasive => "Persuasive"
      case Concise => "Concise & Clear"
      case Storytelling => "Storytelling"
    }

    /**
     * The style's `prompt`: the shared opening, the style's own instruction and the
     * closing ": ", after which the user's text follows directly.
     */
    function Prompt(): string {
      PromptOpening + Join(InstructionWords(), ' ') + PromptClosing
    }

    /**
     * The words of the style's instruction, in order; joined with single spaces they
     * spell the middle of the prompt exactly as the app has it.
     */
    function InstructionWords(): seq<string> {
      match this
      case Professional =>
        ["be", "more", "professional,", "polished,", "and", "business-appropriate",
         "while", "maintaining", "its", "core", "message"]
      case Academic =>
        ["meet", "academic", "writing", "standards", "with", "proper", "scholarly", "tone,",
         "clarity,", "and", "analytical", "depth", "while", "maintaining", "its", "core", "argument"]
      case Casual =>
        ["be", "more", "conversational,", "friendly,", "and", "engaging",
         "while", "keeping", "its", "main", "message"]
      case Creative =>
        ["be", "more", "creative,", "vibrant,", "and", "playful",
         "while", "preserving", "its", "essential", "meaning"]
      case Technical =>
        ["be", "more", "technically", "precise,", "detailed,", "and", "well-structured",
         "while", "maintaining", "its", "core", "information"]
      case Persuasive =>
        ["be", "more", "persuasive", "and", "compelling",
         "while", "keeping", "its", "main", "argument"]
      case Concise =>
        ["be", "more", "concise", "and", "clear",
         "while", "preserving", "its", "key", "points"]
      case Storytelling =>
        ["be", "more", "narrative", "and", "engaging,", "using", "storytelling", "techniques",
         "while", "maintaining", "its", "core", "message"]
    }
  }

  /** `WritingStyle.allCases`, in declaration order. */
  const AllCases: seq<WritingStyle> :=
    [Professional, Academic, Casual, Creative, Technical, Persuasive, Concise, Storytelling]

  /** The opening every prompt shares. */
  const PromptOpening: string := "Please improve the following text to "

  /** The closing every prompt shares; the user's text follows it directly. */
  const PromptClosing: string := ": "

  /** The synthesized `WritingStyle(rawValue:)`: the style whose raw name is `raw`, if any. */
  function FromRawValue(raw: string): (r: Option<WritingStyle>)
    ensures r.Some? ==> r.value.RawValue() == raw
  {
    if raw == "Professional" then Some(Professional)
    else if raw == "Academic" then Some(Academic)
    else if raw == "Casual & Friendly" then Some(Casual)
    else if raw == "Creative & Playful" then Some(Creative)
    else if raw == "Technical" then Some(Technical)
    else if raw == "Persuasive" then Some(Persuasive)
    else if raw == "Concise & Clear" then Some(Concise)
    else if raw == "Storytelling" then Some(Storytelling)
    else None
  }

  /** Every style is listed by `allCases` exactly once, and there are eight. */
  lemma AllCasesEnumerates(s: WritingStyle)
    ensures |AllCases| == 8
    ensures s in AllCases
    ensures forall i, j :: 0 <= i < j < |AllCases| ==> AllCases[i] != AllCases[j]
  {
  }

  /** The raw names, in `allCases` order, are the eight documented style names. */
  lemma RawValuesAreDocumented()
    ensures seq(|AllCases|, i requires 0 <= i < |AllCases| => AllCases[i].RawValue())
         == ["Professional", "Academic", "Casual & Friendly", "Creative & Playful",
             "Technical", "Persuasive", "Concise & Clear", "Storytelling"]
  {
  }

  /** Raw names round-trip through `WritingStyle(rawValue:)`, so no two styles share one. */
  lemma RawValueRoundTrip(s: WritingStyle, t: WritingStyle)
    ensures FromRawValue(s.RawValue()) == Some(s)
    ensures s.RawValue() == t.RawValue() ==> s == t
  {
  }

  /** Every prompt opens with the shared instruction and ends with ": "; none is empty. */
  lemma PromptShape(s: WritingStyle)
    ensures StartsWith(s.Prompt(), PromptOpening)
    ensures EndsWith(s.Prompt(), PromptClosing)
    ensures |s.Prompt()| > |PromptOpening| + |PromptClosing|
  {
    var words := s.InstructionWords();
    InstructionWordsArePieces(s);
    JoinNonEmpty(words, ' ');
    Framed(PromptOpening, Join(words, ' '), PromptClosing);
  }

  /** Distinct styles have distinct prompts. */
  lemma PromptsDistinct(s: WritingStyle, t: WritingStyle)
    ensures s != t ==> s.Prompt() != t.Prompt()
  {
    if s != t && s.Prompt() == t.Prompt() {
      var ms, mt := Join(s.InstructionWords(), ' '), Join(t.InstructionWords(), ' ');
      assert ms == s.Prompt()[|PromptOpening|..|s.Prompt()| - |PromptClosing|];
      assert mt == t.Prompt()[|PromptOpening|..|t.Prompt()| - |PromptClosing|];
      InstructionWordsArePieces(s);
      InstructionWordsArePieces(t);
      JoinInjective(s.InstructionWords(), t.InstructionWords(), ' ');
      assert false;
    }
  }

  /** The keywords each style's prompt is expected to mention. */
  function Keywords(s: WritingStyle): seq<string> {
    match s
    case Professional => ["professional", "business", "polished"]
    case Academic => ["academic", "scholarly", "argument"]
    case Casual => ["conversational", "friendly", "engaging"]
    case Creative => ["creative", "vibrant", "playful"]
    case Technical => ["technical", "precise", "structured"]
    case Persuasive => ["persuasive", "compelling", "argument"]
    case Concise => ["concise", "clear", "key points"]
    case Storytelling => ["narrative", "engaging", "story"]
  }

  /** A keyword found in one instruction word (ignoring case) is found in the lower-cased prompt. */
  lemma KeywordInWord(s: WritingStyle, k: nat, kw: string, i: nat)
    requires k < |s.InstructionWords()|
    requires OccursAt(Lower(s.InstructionWords()[k]), kw, i)
    ensures Contains(Lower(s.Prompt()), kw)
  {
    var ws := s.InstructionWords();
    ContainsAt(Lower(ws[k]), kw, i);
    JoinContainsPiece(ws, ' ', k);
    ContainsInfix(PromptOpening, Join(ws, ' '), PromptClosing);
    ContainsTransitive(s.Prompt(), Join(ws, ' '), ws[k]);
    LowerContains(s.Prompt(), ws[k]);
    ContainsTransitive(Lower(s.Prompt()), Lower(ws[k]), kw);
  }

  /** A keyword spanning two neighbouring instruction words is found in the lower-cased prompt. */
  lemma KeywordInPair(s: WritingStyle, k: nat, kw: string)
    requires k + 1 < |s.InstructionWords()|
    requires Lower(s.InstructionWords()[k] + " " + s.InstructionWords()[k + 1]) == kw
    ensures Contains(Lower(s.Prompt()), kw)
  {
    var ws := s.InstructionWords();
    var pair := ws[k] + " " + ws[k + 1];
    JoinContainsPair(ws, ' ', k);
    ContainsInfix(PromptOpening, Join(ws, ' '), PromptClosing);
    ContainsTransitive(s.Prompt(), Join(ws, ' '), pair);
    LowerContains(s.Prompt(), pair);
  }

  /** Every style's instruction words are non-empty and free of spaces. */
  lemma InstructionWordsArePieces(s: WritingStyle)
    ensures Pieces(s.InstructionWords(), ' ')
  {
    match s
    case Professional => ProfessionalPieces();
    case Academic => AcademicPieces();
    case Casual => CasualPieces();
    case Creative => CreativePieces();
    case Technical => TechnicalPieces();
    case Persuasive => PersuasivePieces();
    case Concise => ConcisePieces();
    case Storytelling => StorytellingPieces();
  }

  /** Every prompt mentions, case-insensitively, each keyword its style is known by. */
  lemma PromptMentionsKeywords(s: WritingStyle)
    ensures forall kw | kw in Keywords(s) :: Contains(Lower(s.Prompt()), kw)
  {
    match s
    case Professional => ProfessionalKeywords();
    case Academic => AcademicKeywords();
    case Casual => CasualKeywords();
    case Creative => CreativeKeywords();
    case Technical => TechnicalKeywords();
    case Persuasive => PersuasiveKeywords();
    case Concise => ConciseKeywords();
    case Storytelling => StorytellingKeywords();
  }

  lemma ProfessionalPieces()
    ensures Pieces(Professional.InstructionWords(), ' ')
  {
  }

  lemma ProfessionalKeywords()
    ensures forall kw | kw in Keywords(Professional) :: Contains(Lower(Professional.Prompt()), kw)
  {
    ProfessionalMentionsProfessional();
    ProfessionalMentionsBusiness();
    ProfessionalMentionsPolished();
  }

  lemma ProfessionalMentionsProfessional()
    ensures Contains(Lower(Professional.Prompt()), "professional")
  {
    KeywordInWord(Professional, 2, "professional", 0);
  }

  lemma ProfessionalMentionsBusiness()
    ensures Contains(Lower(Professional.Prompt()), "business")
  {
    KeywordInWord(Professional, 5, "business", 0);
  }

  lemma ProfessionalMentionsPolished()
    ensures Contains(Lower(Professional.Prompt()), "polished")
  {
    KeywordInWord(Professional, 3, "polished", 0);
  }

  lemma AcademicPieces()
    ensures Pieces(Academic.InstructionWords(), ' ')
  {
  }

  lemma AcademicKeywords()
    ensures forall kw | kw in Keywords(Academic) :: Contains(Lower(Academic.Prompt()), kw)
  {
    AcademicMentionsAcademic();
    AcademicMentionsScholarly();
    AcademicMentionsArgument();
  }

  lemma AcademicMentionsAcademic()
    ensures Contains(Lower(Academic.Prompt()), "academic")
  {
    KeywordInWord(Academic, 1, "academic", 0);
  }

  lemma AcademicMentionsScholarly()
    ensures Contains(Lower(Academic.Prompt()), "scholarly")
  {
    KeywordInWord(Academic, 6, "scholarly", 0);
  }

  lemma AcademicMentionsArgument()
    ensures Contains(Lower(Academic.Prompt()), "argument")
  {
    KeywordInWord(Academic, 16, "argument", 0);
  }

  lemma CasualPieces()
    ensures Pieces(Casual.InstructionWords(), ' ')
  {
  }

  lemma CasualKeywords()
    ensures forall kw | kw in Keywords(Casual) :: Contains(Lower(Casual.Prompt()), kw)
  {
    CasualMentionsConversational();
    CasualMentionsFriendly();
    CasualMentionsEngaging();
  }

  lemma CasualMentionsConversational()
    ensures Contains(Lower(Casual.Prompt()), "conversational")
  {
    KeywordInWord(Casual, 2, "conversational", 0);
  }

  lemma CasualMentionsFriendly()
    ensures Contains(Lower(Casual.Prompt()), "friendly")
  {
    KeywordInWord(Casual, 3, "friendly", 0);
  }

  lemma CasualMentionsEngaging()
    ensures Contains(Lower(Casual.Prompt()), "engaging")
  {
    KeywordInWord(Casual, 5, "engaging", 0);
  }

  lemma CreativePieces()
    ensures Pieces(Creative.InstructionWords(), ' ')
  {
  }

  lemma CreativeKeywords()
    ensures forall kw | kw in Keywords(Creative) :: Contains(Lower(Creative.Prompt()), kw)
  {
    CreativeMentionsCreative();
    CreativeMentionsVibrant();
    CreativeMentionsPlayful();
  }

  lemma CreativeMentionsCreative()
    ensures Contains(Lower(Creative.Prompt()), "creative")
  {
    KeywordInWord(Creative, 2, "creative", 0);
  }

  lemma CreativeMentionsVibrant()
    ensures Contains(Lower(Creative.Prompt()), "vibrant")
  {
    KeywordInWord(Creative, 3, "vibrant", 0);
  }

  lemma CreativeMentionsPlayful()
    ensures Contains(Lower(Creative.Prompt()), "playful")
  {
    KeywordInWord(Creative, 5, "playful", 0);
  }

  lemma TechnicalPieces()
    ensures Pieces(Technical.InstructionWords(), ' ')
  {
  }

  lemma TechnicalKeywords()
    ensures forall kw | kw in Keywords(Technical) :: Contains(Lower(Technical.Prompt()), kw)
  {
    TechnicalMentionsTechnical();
    TechnicalMentionsPrecise();
    TechnicalMentionsStructured();
  }

  lemma TechnicalMentionsTechnical()
    ensures Contains(Lower(Technical.Prompt()), "technical")
  {
    KeywordInWord(Technical, 2, "technical", 0);
  }

  lemma TechnicalMentionsPrecise()
    ensures Contains(Lower(Technical.Prompt()), "precise")
  {
    KeywordInWord(Technical, 3, "precise", 0);
  }

  lemma TechnicalMentionsStructured()
    ensures Contains(Lower(Technical.Prompt()), "structured")
  {
    KeywordInWord(Technical, 6, "structured", 5);
  }

  lemma PersuasivePieces()
    ensures Pieces(Persuasive.InstructionWords(), ' ')
  {
  }

  lemma PersuasiveKeywords()
    ensures forall kw | kw in Keywords(Persuasive) :: Contains(Lower(Persuasive.Prompt()), kw)
  {
    PersuasiveMentionsPersuasive();
    PersuasiveMentionsCompelling();
    PersuasiveMentionsArgument();
  }

  lemma PersuasiveMentionsPersuasive()
    ensures Contains(Lower(Persuasive.Prompt()), "persuasive")
  {
    KeywordInWord(Persuasive, 2, "persuasive", 0);
  }

  lemma PersuasiveMentionsCompelling()
    ensures Contains(Lower(Persuasive.Prompt()), "compelling")
  {
    KeywordInWord(Persuasive, 4, "compelling", 0);
  }

  lemma PersuasiveMentionsArgument()
    ensures Contains(Lower(Persuasive.Prompt()), "argument")
  {
    KeywordInWord(Persuasive, 9, "argument", 0);
  }

  lemma ConcisePieces()
    ensures Pieces(Concise.InstructionWords(), ' ')
  {
  }

  lemma ConciseKeywords()
    ensures forall kw | kw in Keywords(Concise) :: Contains(Lower(Concise.Prompt()), kw)
  {
    ConciseMentionsConcise();
    ConciseMentionsClear();
    ConciseMentionsKeyPoints();
  }

  lemma ConciseMentionsConcise()
    ensures Contains(Lower(Concise.Prompt()), "concise")
  {
    KeywordInWord(Concise, 2, "concise", 0);
  }

  lemma ConciseMentionsClear()
    ensures Contains(Lower(Concise.Prompt()), "clear")
  {
    KeywordInWord(Concise, 4, "clear", 0);
  }

  lemma ConciseMentionsKeyPoints()
    ensures Contains(Lower(Concise.Prompt()), "key points")
  {
    KeywordInPair(Concise, 8, "key points");
  }

  lemma StorytellingPieces()
    ensures Pieces(Storytelling.InstructionWords(), ' ')
  {
  }

  lemma StorytellingKeywords()
    ensures forall kw | kw in Keywords(Storytelling) :: Contains(Lower(Storytelling.Prompt()), kw)
  {
    StorytellingMentionsNarrative();
    StorytellingMentionsEngaging();
    StorytellingMentionsStory();
  }

  lemma StorytellingMentionsNarrative()
    ensures Contains(Lower(Storytelling.Prompt()), "narrative")
  {
    KeywordInWord(Storytelling, 2, "narrative", 0);
  }

  lemma StorytellingMentionsEngaging()
    ensures Contains(Lower(Storytelling.Prompt()), "engaging")
  {
    KeywordInWord(Storytelling, 4, "engaging", 0);
  }

  lemma StorytellingMentionsStory()
    ensures Contains(Lower(Storytelling.Prompt()), "story")
  {
    KeywordInWord(Storytelling, 6, "story", 0);
  }
}
