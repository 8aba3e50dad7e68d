/** What the plugin takes from its host platform: the exceptions it raises
    (by language-string key), values decoded from JSON, and the library
    routines whose behaviour the plugin does not define (HTML escaping, tag
    stripping, parameter cleaning, text formatting, JSON decoding), which the
    model receives as functions. */
module Moodle {
  import opened Wrappers

  /** The `moodle_exception` keys raised by the core. */
  datatype Error =
    | MissingParam
    | RateLimited
    | ChatRateLimited
    | ChatNoContent
    | InvalidJson
    | InvalidUrl
    | SsrfBlocked
    | ApiError(httpCode: int)
    | ApiInvalidResponse
      /** A `MUST_EXIST` lookup that found no row. */
    | RecordMissing

  /** Language-string keys stored or returned as messages. */
  const MaxRetriesMessage: string := "maxretries"
  const GenericFailureMessage: string := "contentgenerationfailed"
  const ChatClearedMessage: string := "chat_cleared"

  /** The characters of `s` that satisfy `keep`, in order. */
  function KeepChars(s: string, keep: char -> bool): (r: string)
    ensures |r| <= |s|
    ensures forall i :: 0 <= i < |r| ==> keep(r[i])
    decreases |s|
  {
    if s == [] then []
    else if keep(s[0]) then [s[0]] + KeepChars(s[1..], keep)
    else KeepChars(s[1..], keep)
  }

  /** Filtering distributes over concatenation. */
  lemma {:induction false} KeepCharsAppend(a: string, b: string, keep: char -> bool)
    ensures KeepChars(a + b, keep) == KeepChars(a, keep) + KeepChars(b, keep)
    decreases |a|
  {
    if a == [] {
      assert a + b == b;
    } else {
      assert (a + b)[0] == a[0];
      assert (a + b)[1..] == a[1..] + b;
      KeepCharsAppend(a[1..], b, keep);
    }
  }

  /** A string whose every character is kept is unchanged. */
  lemma {:induction false} KeepCharsAll(s: string, keep: char -> bool)
    requires forall i :: 0 <= i < |s| ==> keep(s[i])
    ensures KeepChars(s, keep) == s
    decreases |s|
  {
    if s != [] {
      assert keep(s[0]);
      forall i | 0 <= i < |s[1..]| ensures keep(s[1..][i]) { assert s[1..][i] == s[i + 1]; }
      KeepCharsAll(s[1..], keep);
      assert s == [s[0]] + s[1..];
    }
  }

  predicate AsciiLetter(c: char) {
    'a' <= c <= 'z' || 'A' <= c <= 'Z'
  }

  predicate AlphaExtChar(c: char) {
    AsciiLetter(c) || c == '_' || c == '-'
  }

  /** `clean_param($s, PARAM_ALPHA)`: only the letters a-z and A-Z are kept. */
  function AlphaOnly(s: string): (r: string)
    ensures forall i :: 0 <= i < |r| ==> AsciiLetter(r[i])
  {
    KeepChars(s, AsciiLetter)
  }

  /** `clean_param($s, PARAM_ALPHAEXT)`: letters, `_` and `-` are kept. */
  function AlphaExtOnly(s: string): (r: string)
    ensures forall i :: 0 <= i < |r| ==> AlphaExtChar(r[i])
  {
    KeepChars(s, AlphaExtChar)
  }

  /** A decoded JSON value; objects map member names to values. */
  datatype Json =
    | JNull
    | JBool(b: bool)
    | JNum(literal: string)
    | JStr(s: string)
    | JArr(items: seq<Json>)
    | JObj(members: map<string, Json>)

  /** A multiple-choice question of the quiz response. */
  datatype Question = Question(
    name: string,
    questiontext: string,
    correctAnswer: string,
    incorrectAnswers: seq<string>)

  /** The quiz response after `json_decode`: not JSON; decoded but falsy or
      without a `questions` member; or its questions. */
  datatype QuizDoc = QuizNotJson | QuizLacksQuestions | QuizQuestions(questions: seq<Question>)

  /** A slide of a presentation; `notes` is `None` when absent or null. */
  datatype Slide = Slide(title: string, content: string, notes: Option<string>)

  /** A stored presentation after `json_decode`; `title` is `None` when absent or null. */
  datatype PresentationDoc =
    | PresentationNotJson
    | PresentationLacksSlides
    | Presentation(title: Option<string>, slides: seq<Slide>)

  datatype Card = Card(front: string, back: string)

  /** A stored flashcard deck after `json_decode`; `topic` is `None` when absent or null. */
  datatype FlashcardsDoc =
    | FlashcardsNotJson
    | FlashcardsLacksCards
    | Flashcards(topic: Option<string>, cards: seq<Card>)

  /** Library routines of the platform, as functions. */
  datatype Services = Services(
    /** `s()`: HTML-escapes a string. */
    escape: string -> string,
    /** `strip_tags`. */
    stripTags: string -> string,
    /** `clean_param(..., PARAM_TEXT)`. */
    cleanText: string -> string,
    /** `format_text(..., FORMAT_PLAIN)`. */
    formatPlain: string -> string,
    decodeQuiz: string -> QuizDoc,
    decodePresentation: string -> PresentationDoc,
    decodeFlashcards: string -> FlashcardsDoc)
}
