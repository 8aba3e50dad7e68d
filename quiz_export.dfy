/** The worker's Moodle-XML quiz export: CDATA escaping of question texts and
    answers, the lines of the document, and the document text. */
module QuizExport {
  import opened Wrappers
  import opened Text
  import opened Moodle

  const Open: string := "<![CDATA["
  const Close: string := "]]>"
  /** What `$escape_cdata` puts in place of each `]]>`: it closes the section
      after `]]` and opens a new one that starts with `>`. */
  const CloseEscaped: string := "]]]]><![CDATA[>"
  /** `PHP_EOL` on the platforms Moodle runs the worker on. */
  const Eol: string := "\n"

  // ---------------------------------------------------------------------
  // CDATA escaping and its round trip.

  /** `$escape_cdata`. */
  function EscapeCdata(t: string): string {
    ReplaceAll(t, Close, CloseEscaped)
  }

  /** A CDATA section as the worker writes it. */
  function Section(t: string): string {
    Open + EscapeCdata(t) + Close
  }

  /** What an XML reader makes of a run of adjacent CDATA sections: each
      section ends at the first `]]>` after its opening, and the texts of
      the sections are concatenated; anything else is not such a run. */
  function ReadSections(s: string): Option<string>
    decreases |s|
  {
    if !StartsWith(s, Open) then None
    else
      var inner := s[|Open|..];
      match IndexOf(inner, Close)
      case None => None
      case Some(i) =>
        var rest := inner[i + |Close|..];
        if rest == [] then Some(inner[..i])
        else
          match ReadSections(rest)
          case None => None
          case Some(more) => Some(inner[..i] + more)
  }

  /** After a text without `]]>` and some `]` characters, the first `]]>`
      is the one that follows them. */
  lemma CloseFollows(u: string, x: string, q: string)
    requires !Contains(u, Close)
    requires forall i :: 0 <= i < |x| ==> x[i] == ']'
    ensures IndexOf(u + x + Close + q, Close) == Some(|u| + |x|)
  {
    var s := u + x + Close + q;
    assert s[|u| + |x|..|u| + |x| + |Close|] == Close;
    forall j | 0 <= j < |u| + |x|
      ensures !MatchAt(s, Close, j)
    {
      if j + |Close| <= |u| {
        assert s[j..j + |Close|] == u[j..j + |Close|];
        assert !MatchAt(u, Close, j);
      } else {
        assert s[j + 2] == ']';
        var w := s[j..j + |Close|];
        assert w[2] == s[j + 2];
        assert w != Close;
      }
    }
    IndexOfFirst(s, Close, |u| + |x|);
  }

  /** Reading a run whose first section holds `b`. */
  lemma ReadFirstSection(s: string, b: string, rest: string)
    requires s == Open + b + Close + rest
    requires IndexOf(b + Close + rest, Close) == Some(|b|)
    ensures rest == [] ==> ReadSections(s) == Some(b)
    ensures rest != [] && ReadSections(rest).None? ==> ReadSections(s).None?
    ensures rest != [] && ReadSections(rest).Some? ==> ReadSections(s) == Some(b + ReadSections(rest).value)
  {
    var inner := s[|Open|..];
    SectionParts(s, b, rest);
    assert inner[..|b|] == b;
    assert inner[|b| + |Close|..] == rest;
  }

  /** A section opens `s`, and what follows the opening is the body, the
      close and the rest. */
  lemma SectionParts(s: string, b: string, rest: string)
    requires s == Open + b + Close + rest
    ensures StartsWith(s, Open) && s[|Open|..] == b + Close + rest
  {
    assert s[..|Open|] == Open;
  }

  /** A text without `]]>` is written unchanged in one section. */
  lemma PlainRoundTrip(t: string)
    requires !Contains(t, Close)
    ensures ReadSections(Section(t)) == Some(t)
  {
    ReplaceAllAbsent(t, Close, CloseEscaped);
    CloseFollows(t, "", []);
    assert t + "" + Close + [] == t + Close + [];
    ReadFirstSection(Section(t), t, []);
  }

  /** A `>` at the start of a text is not part of a `]]>`. */
  lemma EscapeAfterGreater(v: string)
    ensures EscapeCdata(">" + v) == ">" + EscapeCdata(v)
  {
    assert (">" + v)[1..] == v;
  }

  /** Where `t` contains `]]>`, its sections are those of the text before
      it followed by `]]`, and then those of `>` and the text after it. */
  lemma EscapedSplit(t: string)
    requires Contains(t, Close)
    ensures var k := IndexOf(t, Close).value;
      Section(t) == Open + (t[..k] + "]]") + Close + Section(">" + t[k + |Close|..])
  {
    var k := IndexOf(t, Close).value;
    var u := t[..k];
    var v := t[k + |Close|..];
    ReplaceAllFirst(t, Close, CloseEscaped);
    EscapeAfterGreater(v);
    EscapedRegroup(u, EscapeCdata(v));
  }

  lemma EscapedRegroup(u: string, e: string)
    ensures Open + (u + CloseEscaped + e) + Close == Open + (u + "]]") + Close + (Open + (">" + e) + Close)
  {
    assert CloseEscaped == "]]" + Close + Open + ">";
  }

  /** The first `]]>` of the escaped text is the one after `t[..k] + "]]"`. */
  lemma EscapedFirstClose(t: string, rest: string)
    requires Contains(t, Close)
    ensures var k := IndexOf(t, Close).value;
      IndexOf(t[..k] + "]]" + Close + rest, Close) == Some(k + 2)
  {
    PrefixBeforeFirst(t, Close);
    var k := IndexOf(t, Close).value;
    CloseFollows(t[..k], "]]", rest);
  }

  /** `t` is the text before its first `]]>`, then `]]`, then `>` and the rest. */
  lemma SplitAtClose(t: string)
    requires Contains(t, Close)
    ensures var k := IndexOf(t, Close).value;
      t == t[..k] + "]]" + (">" + t[k + |Close|..])
  {
    var k := IndexOf(t, Close).value;
    assert t[k..k + |Close|] == Close;
    assert t == t[..k] + t[k..k + |Close|] + t[k + |Close|..];
  }

  /** Concatenating the texts of the sections written for `t` gives `t`
      back: the escaping can neither end a section early nor lose text. */
  lemma {:induction false} SectionRoundTrip(t: string)
    ensures ReadSections(Section(t)) == Some(t)
    decreases |t|
  {
    if !Contains(t, Close) {
      PlainRoundTrip(t);
    } else {
      var k := IndexOf(t, Close).value;
      var v := t[k + |Close|..];
      var rest := Section(">" + v);
      EscapedSplit(t);
      EscapedFirstClose(t, rest);
      SplitAtClose(t);
      assert rest != [];
      ReadFirstSection(Section(t), t[..k] + "]]", rest);
      SectionRoundTrip(">" + v);
    }
  }

  // ---------------------------------------------------------------------
  // The lines of the document.

  /** The kinds of line the worker writes; the ones holding text carry it
      as it is written (already escaped by `s()`) or, for CDATA lines, raw. */
  datatype Line =
    | XmlDeclaration
    | QuizOpen
    | CategoryOpen
    | CategoryPath(escapedPrompt: string)
    | QuestionClose
    | MultichoiceOpen
    | Name(escapedName: string)
    | QuestionText(text: string)
    | DefaultGrade
    | Penalty
    | Hidden
    | Single
    | ShuffleAnswers
    | AnswerNumbering
    | CorrectAnswerOpen
    | AnswerText(text: string)
    | CorrectFeedback
    | AnswerClose
    | WrongAnswerOpen
    | WrongFeedback

  /** The text of a line, without its line end. */
  function LineText(l: Line): string {
    match l
    case XmlDeclaration => "<?xml version=\"1.0\" encoding=\"UTF-8\"?>"
    case QuizOpen => "<quiz>"
    case CategoryOpen => "  <question type=\"category\">"
    case CategoryPath(p) => "    <category><text>$course$/Generated Quizzes/" + p + "</text></category>"
    case QuestionClose => "  </question>"
    case MultichoiceOpen => "  <question type=\"multichoice\">"
    case Name(n) => "    <name><text>" + n + "</text></name>"
    case QuestionText(t) => "    <questiontext format=\"html\"><text>" + Section(t) + "</text></questiontext>"
    case DefaultGrade => "    <defaultgrade>1.0000000</defaultgrade>"
    case Penalty => "    <penalty>0.3333333</penalty>"
    case Hidden => "    <hidden>0</hidden>"
    case Single => "    <single>true</single>"
    case ShuffleAnswers => "    <shuffleanswers>true</shuffleanswers>"
    case AnswerNumbering => "    <answernumbering>abc</answernumbering>"
    case CorrectAnswerOpen => "    <answer fraction=\"100\" format=\"html\">"
    case AnswerText(t) => "      <text>" + Section(t) + "</text>"
    case CorrectFeedback => "      <feedback format=\"html\"><text>Correct!</text></feedback>"
    case AnswerClose => "    </answer>"
    case WrongAnswerOpen => "    <answer fraction=\"0\" format=\"html\">"
    case WrongFeedback => "      <feedback format=\"html\"><text>Incorrect.</text></feedback>"
  }

  /** The XML declaration, the opening `<quiz>` and the category question. */
  function HeaderLines(esc: string -> string, prompt: string): seq<Line> {
    [XmlDeclaration, QuizOpen, CategoryOpen, CategoryPath(esc(prompt)), QuestionClose]
  }

  /** The opening of a question: its type, name and text. */
  function QuestionOpening(esc: string -> string, q: Question): seq<Line> {
    [MultichoiceOpen, Name(esc(q.name)), QuestionText(q.questiontext)]
  }

  /** The fixed grading and display settings of every question. */
  function Settings(): seq<Line> {
    [DefaultGrade, Penalty, Hidden, Single, ShuffleAnswers, AnswerNumbering]
  }

  /** The lines of the correct answer. */
  function CorrectAnswer(good: string): seq<Line> {
    [CorrectAnswerOpen, AnswerText(good), CorrectFeedback, AnswerClose]
  }

  /** The lines of a question up to and including its correct answer. */
  function QuestionHead(esc: string -> string, q: Question): seq<Line> {
    QuestionOpening(esc, q) + Settings() + CorrectAnswer(q.correctAnswer)
  }

  /** The lines of one incorrect answer. */
  function WrongAnswer(bad: string): seq<Line> {
    [WrongAnswerOpen, AnswerText(bad), WrongFeedback, AnswerClose]
  }

  function WrongAnswers(bads: seq<string>): seq<Line> {
    if bads == [] then []
    else WrongAnswers(bads[..|bads| - 1]) + WrongAnswer(bads[|bads| - 1])
  }

  function QuestionLines(esc: string -> string, q: Question): seq<Line> {
    QuestionHead(esc, q) + WrongAnswers(q.incorrectAnswers) + [QuestionClose]
  }

  function QuestionsLines(esc: string -> string, qs: seq<Question>): seq<Line> {
    if qs == [] then []
    else QuestionsLines(esc, qs[..|qs| - 1]) + QuestionLines(esc, qs[|qs| - 1])
  }

  /** Every line of the document but the closing `</quiz>`. */
  function QuizLines(esc: string -> string, prompt: string, qs: seq<Question>): seq<Line> {
    HeaderLines(esc, prompt) + QuestionsLines(esc, qs)
  }

  /** Lines, each followed by `PHP_EOL`. */
  function Render(lines: seq<Line>): string {
    if lines == [] then "" else LineText(lines[0]) + Eol + Render(lines[1..])
  }

  lemma {:induction false} RenderAppend(a: seq<Line>, b: seq<Line>)
    ensures Render(a + b) == Render(a) + Render(b)
    decreases |a|
  {
    if a == [] {
      assert a + b == b;
    } else {
      assert (a + b)[0] == a[0];
      assert (a + b)[1..] == a[1..] + b;
      RenderAppend(a[1..], b);
    }
  }

  /** The document the worker stores: the lines, then `</quiz>` with no
      line end after it. */
  function QuizXml(esc: string -> string, prompt: string, qs: seq<Question>): string {
    Render(QuizLines(esc, prompt, qs)) + "</quiz>"
  }

  lemma QuestionsLinesSnoc(esc: string -> string, qs: seq<Question>, i: nat)
    requires i < |qs|
    ensures QuestionsLines(esc, qs[..i + 1]) == QuestionsLines(esc, qs[..i]) + QuestionLines(esc, qs[i])
  {
    assert qs[..i + 1][..i] == qs[..i];
  }

  lemma WrongAnswersSnoc(bads: seq<string>, j: nat)
    requires j < |bads|
    ensures WrongAnswers(bads[..j + 1]) == WrongAnswers(bads[..j]) + WrongAnswer(bads[j])
  {
    assert bads[..j + 1][..j] == bads[..j];
  }

  /** Rendering `a + b + c` renders `a + b`, then `c`. */
  lemma RenderSnoc(a: seq<Line>, b: seq<Line>, c: seq<Line>)
    ensures Render(a + b + c) == Render(a + b) + Render(c)
  {
    RenderAppend(a + b, c);
  }

  /** The blocks of the incorrect answers, one after the other. */
  method RenderWrongAnswers(bads: seq<string>) returns (out: string)
    ensures out == Render(WrongAnswers(bads))
  {
    out := "";
    var j := 0;
    assert bads[..0] == [];
    while j < |bads|
      invariant 0 <= j <= |bads|
      invariant out == Render(WrongAnswers(bads[..j]))
    {
      WrongAnswersSnoc(bads, j);
      RenderAppend(WrongAnswers(bads[..j]), WrongAnswer(bads[j]));
      out := out + Render(WrongAnswer(bads[j]));
      j := j + 1;
    }
    assert bads[..|bads|] == bads;
  }

  /** The lines of one question: its head, its incorrect answers, its end. */
  method RenderQuestion(esc: string -> string, q: Question) returns (out: string)
    ensures out == Render(QuestionLines(esc, q))
  {
    var head := QuestionHead(esc, q);
    var answers := RenderWrongAnswers(q.incorrectAnswers);
    out := Render(head) + answers + LineText(QuestionClose) + Eol;
    RenderSnoc(head, WrongAnswers(q.incorrectAnswers), [QuestionClose]);
    RenderAppend(head, WrongAnswers(q.incorrectAnswers));
    assert Render([QuestionClose]) == LineText(QuestionClose) + Eol;
  }

  /** The blocks of the questions, one after the other. */
  method RenderQuestions(esc: string -> string, qs: seq<Question>) returns (out: string)
    ensures out == Render(QuestionsLines(esc, qs))
  {
    out := "";
    var i := 0;
    assert qs[..0] == [];
    while i < |qs|
      invariant 0 <= i <= |qs|
      invariant out == Render(QuestionsLines(esc, qs[..i]))
    {
      var block := RenderQuestion(esc, qs[i]);
      QuestionsLinesSnoc(esc, qs, i);
      RenderAppend(QuestionsLines(esc, qs[..i]), QuestionLines(esc, qs[i]));
      out := out + block;
      i := i + 1;
    }
    assert qs[..|qs|] == qs;
  }

  /** The XML construction of the worker's quiz branch: the header, then
      for each question its head, one block per incorrect answer and its
      closing line; then `</quiz>`. */
  method BuildQuizXml(esc: string -> string, prompt: string, qs: seq<Question>) returns (xml: string)
    ensures xml == QuizXml(esc, prompt, qs)
  {
    var header := HeaderLines(esc, prompt);
    var questions := RenderQuestions(esc, qs);
    RenderAppend(header, QuestionsLines(esc, qs));
    xml := Render(header) + questions + "</quiz>";
  }

  // ---------------------------------------------------------------------
  // Counting lines.

  /** How many of `lines` are `l`. */
  function Count(lines: seq<Line>, l: Line): nat {
    if lines == [] then 0 else (if lines[0] == l then 1 else 0) + Count(lines[1..], l)
  }

  lemma {:induction false} CountAppend(a: seq<Line>, b: seq<Line>, l: Line)
    ensures Count(a + b, l) == Count(a, l) + Count(b, l)
    decreases |a|
  {
    if a == [] {
      assert a + b == b;
    } else {
      assert (a + b)[1..] == a[1..] + b;
      CountAppend(a[1..], b, l);
    }
  }

  /** A line that does not occur is counted zero times. */
  lemma {:induction false} CountAbsent(lines: seq<Line>, l: Line)
    requires l !in lines
    ensures Count(lines, l) == 0
    decreases |lines|
  {
    if lines != [] {
      assert lines[0] != l;
      CountAbsent(lines[1..], l);
    }
  }

  /** A line that occurs only first is counted once. */
  lemma CountOnlyFirst(lines: seq<Line>, l: Line)
    requires lines != [] && lines[0] == l && l !in lines[1..]
    ensures Count(lines, l) == 1
  {
    CountAbsent(lines[1..], l);
  }

  /** All incorrect answers of the questions together. */
  function TotalIncorrect(qs: seq<Question>): nat {
    if qs == [] then 0 else TotalIncorrect(qs[..|qs| - 1]) + |qs[|qs| - 1].incorrectAnswers|
  }

  lemma {:induction false} WrongAnswersCount(bads: seq<string>)
    ensures Count(WrongAnswers(bads), MultichoiceOpen) == 0
    ensures Count(WrongAnswers(bads), CorrectAnswerOpen) == 0
    ensures Count(WrongAnswers(bads), WrongAnswerOpen) == |bads|
    decreases |bads|
  {
    if bads != [] {
      var init := bads[..|bads| - 1];
      WrongAnswersCount(init);
      var w := WrongAnswer(bads[|bads| - 1]);
      WrongAnswerCounts(bads[|bads| - 1]);
      CountAppend(WrongAnswers(init), w, MultichoiceOpen);
      CountAppend(WrongAnswers(init), w, CorrectAnswerOpen);
      CountAppend(WrongAnswers(init), w, WrongAnswerOpen);
    }
  }

  /** The counts of a line in a question's head are the counts in its
      opening, its settings and its correct answer. */
  lemma HeadCountParts(esc: string -> string, q: Question, l: Line)
    ensures Count(QuestionHead(esc, q), l)
         == Count(QuestionOpening(esc, q), l) + Count(Settings(), l) + Count(CorrectAnswer(q.correctAnswer), l)
  {
    CountAppend(QuestionOpening(esc, q), Settings(), l);
    CountAppend(QuestionOpening(esc, q) + Settings(), CorrectAnswer(q.correctAnswer), l);
  }

  lemma WrongAnswerCounts(bad: string)
    ensures Count(WrongAnswer(bad), MultichoiceOpen) == 0
    ensures Count(WrongAnswer(bad), CorrectAnswerOpen) == 0
    ensures Count(WrongAnswer(bad), WrongAnswerOpen) == 1
  {
    var w := WrongAnswer(bad);
    CountAbsent(w, MultichoiceOpen);
    CountAbsent(w, CorrectAnswerOpen);
    CountOnlyFirst(w, WrongAnswerOpen);
  }

  lemma OpeningCounts(esc: string -> string, q: Question)
    ensures Count(QuestionOpening(esc, q), MultichoiceOpen) == 1
    ensures Count(QuestionOpening(esc, q), CorrectAnswerOpen) == 0
    ensures Count(QuestionOpening(esc, q), WrongAnswerOpen) == 0
  {
    var o := QuestionOpening(esc, q);
    CountOnlyFirst(o, MultichoiceOpen);
    CountAbsent(o, CorrectAnswerOpen);
    CountAbsent(o, WrongAnswerOpen);
  }

  /** The settings hold no question or answer opening. */
  lemma SettingsCount(l: Line)
    requires l.MultichoiceOpen? || l.CorrectAnswerOpen? || l.WrongAnswerOpen?
    ensures Count(Settings(), l) == 0
  {
    CountAbsent(Settings(), l);
  }

  lemma CorrectAnswerCounts(good: string)
    ensures Count(CorrectAnswer(good), MultichoiceOpen) == 0
    ensures Count(CorrectAnswer(good), CorrectAnswerOpen) == 1
    ensures Count(CorrectAnswer(good), WrongAnswerOpen) == 0
  {
    var c := CorrectAnswer(good);
    CountAbsent(c, MultichoiceOpen);
    CountOnlyFirst(c, CorrectAnswerOpen);
    CountAbsent(c, WrongAnswerOpen);
  }

  /** A question's head opens one multichoice question and one correct
      answer, and no incorrect one. */
  lemma HeadCounts(esc: string -> string, q: Question)
    ensures Count(QuestionHead(esc, q), MultichoiceOpen) == 1
    ensures Count(QuestionHead(esc, q), CorrectAnswerOpen) == 1
    ensures Count(QuestionHead(esc, q), WrongAnswerOpen) == 0
  {
    OpeningCounts(esc, q);
    SettingsCount(MultichoiceOpen);
    SettingsCount(CorrectAnswerOpen);
    SettingsCount(WrongAnswerOpen);
    CorrectAnswerCounts(q.correctAnswer);
    HeadCountParts(esc, q, MultichoiceOpen);
    HeadCountParts(esc, q, CorrectAnswerOpen);
    HeadCountParts(esc, q, WrongAnswerOpen);
  }

  /** The counts of a line in a question's lines are the counts in its
      head, its incorrect answers and its closing line. */
  lemma CountQuestionParts(head: seq<Line>, bads: seq<Line>, l: Line)
    requires l != QuestionClose
    ensures Count(head + bads + [QuestionClose], l) == Count(head, l) + Count(bads, l)
  {
    CountAppend(head, bads, l);
    CountAppend(head + bads, [QuestionClose], l);
    CountAbsent([QuestionClose], l);
  }

  lemma QuestionCountOpen(esc: string -> string, q: Question)
    ensures Count(QuestionLines(esc, q), MultichoiceOpen) == 1
  {
    HeadCounts(esc, q);
    WrongAnswersCount(q.incorrectAnswers);
    CountQuestionParts(QuestionHead(esc, q), WrongAnswers(q.incorrectAnswers), MultichoiceOpen);
  }

  lemma QuestionCountCorrect(esc: string -> string, q: Question)
    ensures Count(QuestionLines(esc, q), CorrectAnswerOpen) == 1
  {
    HeadCounts(esc, q);
    WrongAnswersCount(q.incorrectAnswers);
    CountQuestionParts(QuestionHead(esc, q), WrongAnswers(q.incorrectAnswers), CorrectAnswerOpen);
  }

  lemma QuestionCountWrong(esc: string -> string, q: Question)
    ensures Count(QuestionLines(esc, q), WrongAnswerOpen) == |q.incorrectAnswers|
  {
    HeadCounts(esc, q);
    WrongAnswersCount(q.incorrectAnswers);
    CountQuestionParts(QuestionHead(esc, q), WrongAnswers(q.incorrectAnswers), WrongAnswerOpen);
  }

  /** Appending a question's lines adds one multichoice question, one
      correct answer and its incorrect answers. */
  lemma AppendQuestionCounts(esc: string -> string, a: seq<Line>, q: Question)
    ensures Count(a + QuestionLines(esc, q), MultichoiceOpen) == Count(a, MultichoiceOpen) + 1
    ensures Count(a + QuestionLines(esc, q), CorrectAnswerOpen) == Count(a, CorrectAnswerOpen) + 1
    ensures Count(a + QuestionLines(esc, q), WrongAnswerOpen)
         == Count(a, WrongAnswerOpen) + |q.incorrectAnswers|
  {
    var b := QuestionLines(esc, q);
    QuestionCountOpen(esc, q);
    QuestionCountCorrect(esc, q);
    QuestionCountWrong(esc, q);
    CountAppend(a, b, MultichoiceOpen);
    CountAppend(a, b, CorrectAnswerOpen);
    CountAppend(a, b, WrongAnswerOpen);
  }

  /** The lines before the last question's, and the last question's. */
  lemma QuizLinesSnoc(esc: string -> string, prompt: string, qs: seq<Question>)
    requires qs != []
    ensures QuizLines(esc, prompt, qs)
         == QuizLines(esc, prompt, qs[..|qs| - 1]) + QuestionLines(esc, qs[|qs| - 1])
  {
  }

  lemma HeaderCounts(esc: string -> string, prompt: string)
    ensures Count(HeaderLines(esc, prompt), MultichoiceOpen) == 0
    ensures Count(HeaderLines(esc, prompt), CorrectAnswerOpen) == 0
    ensures Count(HeaderLines(esc, prompt), WrongAnswerOpen) == 0
  {
    CountAbsent(HeaderLines(esc, prompt), MultichoiceOpen);
    CountAbsent(HeaderLines(esc, prompt), CorrectAnswerOpen);
    CountAbsent(HeaderLines(esc, prompt), WrongAnswerOpen);
  }

  /** One multichoice question per input question, one `fraction="100"`
      answer per question, and one `fraction="0"` answer per incorrect answer. */
  lemma {:induction false} QuizCounts(esc: string -> string, prompt: string, qs: seq<Question>)
    ensures Count(QuizLines(esc, prompt, qs), MultichoiceOpen) == |qs|
    ensures Count(QuizLines(esc, prompt, qs), CorrectAnswerOpen) == |qs|
    ensures Count(QuizLines(esc, prompt, qs), WrongAnswerOpen) == TotalIncorrect(qs)
    decreases |qs|
  {
    if qs == [] {
      assert QuizLines(esc, prompt, qs) == HeaderLines(esc, prompt);
      HeaderCounts(esc, prompt);
    } else {
      var init := qs[..|qs| - 1];
      QuizCounts(esc, prompt, init);
      QuizLinesSnoc(esc, prompt, qs);
      AppendQuestionCounts(esc, QuizLines(esc, prompt, init), qs[|qs| - 1]);
    }
  }

  /** The question text and correct answer lines carry their texts in CDATA
      sections that read back as the texts. */
  lemma QuestionTextsRecoverable(esc: string -> string, q: Question)
    ensures var lines := QuestionLines(esc, q);
      && lines[2] == QuestionText(q.questiontext)
      && lines[10] == AnswerText(q.correctAnswer)
      && ReadSections(Section(q.questiontext)) == Some(q.questiontext)
      && ReadSections(Section(q.correctAnswer)) == Some(q.correctAnswer)
  {
    SectionRoundTrip(q.questiontext);
    SectionRoundTrip(q.correctAnswer);
  }

  // ---------------------------------------------------------------------
  // The quiz branch of the worker.

  /** The quiz document for a decoded response; invalid JSON, a falsy value
      or a missing `questions` member is `invalidjson`. */
  function QuizContent(esc: string -> string, prompt: string, doc: QuizDoc): (r: Result<string, Error>)
    ensures r.Failure? <==> !doc.QuizQuestions?
    ensures r.Failure? ==> r.error == InvalidJson
    ensures r.Success? ==> r.value == QuizXml(esc, prompt, doc.questions)
  {
    match doc
    case QuizQuestions(qs) => Success(QuizXml(esc, prompt, qs))
    case _ => Failure(InvalidJson)
  }
}
