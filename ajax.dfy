/** The AJAX endpoint: one request runs one action against the tables, the
    rate-limit cache and the user's session, and every exception an action
    raises is reported with the generic failure message. */
module Ajax {
  import opened Wrappers
  import opened Text
  import opened Moodle
  import opened Store
  import opened Versions
  import opened GeminiClient
  import opened RateLimit
  import opened Worker

  /** The actions this model covers, and `Unknown` for any other name. */
  datatype Action = Generate | CheckStatus | Reset | Update | Chat | ChatClear | RestoreVersion | Unknown

  /** The action named by the cleaned `action` parameter, as the if/elseif
      chain compares it. The rubric, version list and grade actions are
      outside this model and map to `None`. */
  function ParseAction(name: string): (a: Option<Action>)
    ensures a == Some(Generate) <==> name == "generate"
    ensures a == Some(CheckStatus) <==> name == "check_status"
    ensures a == Some(Reset) <==> name == "reset"
    ensures a == Some(Update) <==> name == "update"
    ensures a == Some(Chat) <==> name == "chat"
    ensures a == Some(ChatClear) <==> name == "chat_clear"
    ensures a == Some(RestoreVersion) <==> name == "restore_version"
    ensures a == None <==> name in {"tools_rubric", "get_versions", "grade_completion"}
  {
    if name == "generate" then Some(Generate)
    else if name == "check_status" then Some(CheckStatus)
    else if name == "reset" then Some(Reset)
    else if name == "update" then Some(Update)
    else if name == "chat" then Some(Chat)
    else if name == "chat_clear" then Some(ChatClear)
    else if name == "restore_version" then Some(RestoreVersion)
    else if name in {"tools_rubric", "get_versions", "grade_completion"} then None
    else Some(Unknown)
  }

  /** A name of letters only is none of the names with `_`. */
  lemma LettersParse(name: string)
    requires forall i :: 0 <= i < |name| ==> AsciiLetter(name[i])
    ensures ParseAction(name).Some?
    ensures ParseAction(name) !in {Some(CheckStatus), Some(ChatClear), Some(RestoreVersion)}
  {
    assert !AsciiLetter('_');
    assert "check_status"[5] == '_' && "chat_clear"[4] == '_' && "restore_version"[7] == '_';
    assert "tools_rubric"[5] == '_' && "get_versions"[3] == '_' && "grade_completion"[5] == '_';
  }

  /** The action the written endpoint runs for the raw `action` parameter:
      `required_param('action', PARAM_ALPHA)` drops every character that
      is not a letter before the comparisons. */
  function ActionOf(raw: string): Action {
    LettersParse(AlphaOnly(raw));
    ParseAction(AlphaOnly(raw)).value
  }

  /** Whatever is sent, the written endpoint never runs `check_status`,
      `chat_clear` or `restore_version`. */
  lemma UnderscoredActionsUnreachable(raw: string)
    ensures ActionOf(raw) != CheckStatus && ActionOf(raw) != ChatClear && ActionOf(raw) != RestoreVersion
  {
    LettersParse(AlphaOnly(raw));
  }

  /** A name `a_b` of letters around one `_`, whose letters alone name no
      branch, runs nothing on the written endpoint. */
  lemma JoinedNameUnknown(name: string, a: string, b: string)
    requires name == a + "_" + b
    requires forall i :: 0 <= i < |a| ==> AsciiLetter(a[i])
    requires forall i :: 0 <= i < |b| ==> AsciiLetter(b[i])
    requires ParseAction(a + b) == Some(Unknown)
    ensures AlphaOnly(name) == a + b
    ensures ActionOf(name) == Unknown
  {
    KeepCharsAppend(a + "_", b, AsciiLetter);
    KeepCharsAppend(a, "_", AsciiLetter);
    KeepCharsAll(a, AsciiLetter);
    KeepCharsAll(b, AsciiLetter);
    assert KeepChars("_", AsciiLetter) == [];
  }

  /** The action the endpoint means to run: the name cleaned with
      PARAM_ALPHAEXT, which keeps `_`. */
  function IntendedActionOf(raw: string): Option<Action> {
    ParseAction(AlphaExtOnly(raw))
  }

  /** With that cleaning every name made of letters, `_` and `-` reaches its
      own branch. */
  lemma IntendedActionsReached(raw: string)
    requires forall i :: 0 <= i < |raw| ==> AlphaExtChar(raw[i])
    ensures IntendedActionOf(raw) == ParseAction(raw)
  {
    KeepCharsAll(raw, AlphaExtChar);
  }

  /** The underscored names the page scripts send, with the branch each is
      compared against. */
  const PageActions: map<string, Action> :=
    map["check_status" := CheckStatus, "chat_clear" := ChatClear, "restore_version" := RestoreVersion]

  /** Under PARAM_ALPHA each name the pages send loses its `_` and matches
      nothing: "check_status" arrives as "checkstatus". */
  lemma PageActionsUnknown(name: string)
    requires name in PageActions
    ensures ActionOf(name) == Unknown
  {
    if name == "check_status" {
      JoinedNameUnknown(name, "check", "status");
    } else if name == "chat_clear" {
      JoinedNameUnknown(name, "chat", "clear");
    } else {
      JoinedNameUnknown(name, "restore", "version");
    }
  }

  /** Under PARAM_ALPHAEXT each name the pages send reaches its branch. */
  lemma PageActionsReached(name: string)
    requires name in PageActions
    ensures IntendedActionOf(name) == Some(PageActions[name])
  {
    if name == "check_status" {
      IntendedActionsReached(name);
    } else if name == "chat_clear" {
      IntendedActionsReached(name);
    } else {
      IntendedActionsReached(name);
    }
  }

  datatype Request = Request(
    /** The `action` parameter as sent, before cleaning. */
    action: string,
    prompt: string,
    /** The `type` parameter as sent, before its PARAM_ALPHA cleaning. */
    typ: string,
    content: Option<string>,
    message: Option<string>,
    versionId: Option<int>)

  /** The result of `check_status`; the listed rows are given by id. */
  datatype Status = Status(pendingCount: nat, tasks: set<int>, hasNewlyCompleted: bool, errors: set<int>)

  /** The `data` member of the response. */
  datatype Data =
    | NoData
    | Queued(queueid: int)
    | StatusData(status: Status)
    | ChatData(response: string, historyCount: nat)

  /** What a completed action puts in `message` and `data`. */
  datatype Reply = Reply(message: string, data: Data)

  /** The JSON response. */
  datatype Response = Response(success: bool, message: string, data: Data)

  /** The catch-all: success fills in the action's reply; any exception
      leaves `success` false and the data null and reports the generic
      message instead of the exception's own. */
  function Respond(r: Result<Reply, Error>): (resp: Response)
    ensures resp.success <==> r.Success?
    ensures r.Success? ==> resp.message == r.value.message && resp.data == r.value.data
    ensures r.Failure? ==> resp == Response(false, GenericFailureMessage, NoData)
  {
    match r
    case Success(rp) => Response(true, rp.message, rp.data)
    case Failure(_) => Response(false, GenericFailureMessage, NoData)
  }

  /** Even the rate-limit rejections reach the user only as the generic
      failure, so the limit's own message is never shown. */
  lemma RateLimitsReportedGenerically()
    ensures Respond(Failure(RateLimited)) == Respond(Failure(ApiError(500)))
    ensures Respond(Failure(ChatRateLimited)).message == GenericFailureMessage
  {
  }

  const TaskQueuedMessage: string := "Task queued"
  const RestoredMessage: string := "Version restored successfully"

  // ---------------------------------------------------------------------
  // generate

  /** The queue row `generate` inserts and the adhoc task it queues. */
  function Enqueued(t: Tables, g: int, userid: int, typ: string, prompt: string, now: int): Tables {
    t.(queue := t.queue[t.nextQueueId := QueueRow(g, userid, typ, prompt, Pending, 0, None, now, now)],
       adhoc := t.adhoc + [AdhocTask(t.nextQueueId, None)],
       nextQueueId := t.nextQueueId + 1)
  }

  /** The tables after `generate`: unchanged unless the parameters are
      present and the limiter admits the request. */
  function Generated(t: Tables, entry: Option<Window>, g: int, userid: int, typ: string, prompt: string, now: int)
    : Tables
  {
    if PhpEmpty(prompt) || PhpEmpty(typ) || Decide(entry, now, GenerateLimit).None? then t
    else Enqueued(t, g, userid, typ, prompt, now)
  }

  /** `generate`: parameter check, generation limiter, then one pending row
      and one task for it. */
  method GenerateAction(db: Database, cache: RateCache, g: int, userid: int, prompt: string, typ: string, now: int)
    returns (r: Result<Reply, Error>)
    modifies db, cache
    ensures var entry := old(cache.Lookup(GenerateKey(userid)));
      && db.Snapshot() == Generated(old(db.Snapshot()), entry, g, userid, typ, prompt, now)
      && (PhpEmpty(prompt) || PhpEmpty(typ) ==> r == Failure(MissingParam) && cache.entries == old(cache.entries))
      && (!PhpEmpty(prompt) && !PhpEmpty(typ) && Decide(entry, now, GenerateLimit).None? ==>
            r == Failure(RateLimited) && cache.entries == old(cache.entries))
      && (!PhpEmpty(prompt) && !PhpEmpty(typ) && Decide(entry, now, GenerateLimit).Some? ==>
            && r == Success(Reply(TaskQueuedMessage, Queued(old(db.nextQueueId))))
            && cache.entries == old(cache.entries)[GenerateKey(userid) := Decide(entry, now, GenerateLimit).value])
  {
    if PhpEmpty(prompt) || PhpEmpty(typ) {
      return Failure(MissingParam);
    }
    var admitted := cache.Hit(GenerateKey(userid), now, GenerateLimit);
    if !admitted {
      return Failure(RateLimited);
    }
    var queueid := db.nextQueueId;
    db.queue := db.queue[queueid := QueueRow(g, userid, typ, prompt, Pending, 0, None, now, now)];
    db.nextQueueId := queueid + 1;
    db.adhoc := db.adhoc + [AdhocTask(queueid, None)];
    return Success(Reply(TaskQueuedMessage, Queued(queueid)));
  }

  /** A rejected `generate` (missing parameter or over the limit) creates
      no row and queues no task. */
  lemma RejectedGenerateChangesNothing(t: Tables, entry: Option<Window>, g: int, userid: int,
                                       typ: string, prompt: string, now: int)
    requires PhpEmpty(prompt) || PhpEmpty(typ) || Effective(entry, now).count >= GenerateLimit
    ensures Generated(t, entry, g, userid, typ, prompt, now) == t
  {
  }

  /** An admitted `generate` adds exactly one pending row with no retries,
      and exactly one task pointing at it, and keeps the invariant. */
  lemma EnqueueAddsOnePendingRow(t: Tables, g: int, userid: int, typ: string, prompt: string, now: int)
    requires TablesOk(t)
    ensures var t' := Enqueued(t, g, userid, typ, prompt, now);
      && TablesOk(t')
      && t.nextQueueId !in t.queue
      && t'.queue.Keys == t.queue.Keys + {t.nextQueueId}
      && t'.queue[t.nextQueueId].status == Pending && t'.queue[t.nextQueueId].retries == 0
      && (forall id :: id in t.queue ==> t'.queue[id] == t.queue[id])
      && t'.adhoc == t.adhoc + [AdhocTask(t.nextQueueId, None)]
      && t'.content == t.content && t'.files == t.files
  {
  }

  /** A string of ASCII letters only, as PARAM_ALPHA leaves it. */
  predicate Letters(s: string) {
    forall i :: 0 <= i < |s| ==> AsciiLetter(s[i])
  }

  /** `type` is read with PARAM_ALPHA, so a row `generate` adds always has
      a type of letters only. */
  lemma CleanedTypeStored(t: Tables, entry: Option<Window>, g: int, userid: int, raw: string,
                          prompt: string, now: int)
    ensures var t' := Generated(t, entry, g, userid, AlphaOnly(raw), prompt, now);
      forall id :: id in t'.queue && id !in t.queue ==> Letters(t'.queue[id].typ)
  {
  }

  /** The cleaning at work: `quiz_` is stored as `quiz`, and `__` is cleaned
      to nothing and rejected as a missing parameter. */
  lemma TypeCleaning(quiz: string, sep: string)
    requires quiz == "quiz" && sep == "_"
    ensures AlphaOnly(quiz + sep) == quiz
    ensures AlphaOnly(sep + sep) == "" && PhpEmpty(AlphaOnly(sep + sep))
  {
    KeepCharsAppend(quiz, sep, AsciiLetter);
    KeepCharsAll(quiz, AsciiLetter);
    KeepCharsAppend(sep, sep, AsciiLetter);
    assert KeepChars(sep, AsciiLetter) == [];
  }

  // ---------------------------------------------------------------------
  // check_status

  /** The three queries of `check_status` for instance `g` at time `now`. */
  function StatusReport(q: map<int, QueueRow>, g: int, now: int): (s: Status)
    ensures s.pendingCount == |s.tasks|
    ensures forall id :: id in s.tasks <==> id in q && q[id].geminiid == g && q[id].status in {Pending, Processing}
    ensures forall id :: id in s.errors <==>
      id in q && q[id].geminiid == g && q[id].status == Failed && q[id].timemodified > now - 60
    ensures s.hasNewlyCompleted <==>
      exists id :: id in q && q[id].geminiid == g && q[id].status == Done && q[id].timemodified > now - 60
  {
    var tasks := set id | id in q && q[id].geminiid == g && q[id].status in {Pending, Processing};
    var errors := set id | id in q && q[id].geminiid == g && q[id].status == Failed && q[id].timemodified > now - 60;
    var done := exists id :: id in q && q[id].geminiid == g && q[id].status == Done && q[id].timemodified > now - 60;
    Status(|tasks|, tasks, done, errors)
  }

  /** The worker never writes status 2 (a success deletes the row), so in
      any reachable table `has_newly_completed` is false. */
  lemma NeverNewlyCompleted(t: Tables, g: int, now: int)
    requires TablesOk(t)
    ensures !StatusReport(t.queue, g, now).hasNewlyCompleted
  {
    forall id | id in t.queue
      ensures t.queue[id].status != Done
    {
      assert RowOk(t.queue[id]);
    }
  }

  /** A pending or processing row is never also reported as an error. */
  lemma TasksAndErrorsDisjoint(q: map<int, QueueRow>, g: int, now: int)
    ensures StatusReport(q, g, now).tasks !! StatusReport(q, g, now).errors
  {
  }

  /** A freshly queued request shows up at once as a pending task. */
  lemma EnqueuedIsPending(t: Tables, g: int, userid: int, typ: string, prompt: string, now: int)
    requires TablesOk(t)
    ensures var s := StatusReport(t.queue, g, now);
      var s' := StatusReport(Enqueued(t, g, userid, typ, prompt, now).queue, g, now);
      && s'.tasks == s.tasks + {t.nextQueueId}
      && s'.pendingCount == s.pendingCount + 1
  {
    var s := StatusReport(t.queue, g, now);
    var s' := StatusReport(Enqueued(t, g, userid, typ, prompt, now).queue, g, now);
    assert s'.tasks == s.tasks + {t.nextQueueId};
    assert t.nextQueueId !in s.tasks;
  }

  /** A row the worker gives up on, at the retry ceiling or after its last
      failed attempt, is reported as an error in the following minute. */
  lemma GiveUpReported(t: Tables, queueid: int, cfg: Config, net: Net, svc: Services, now: int, later: int)
    requires queueid in t.queue
    requires now <= later < now + 60
    requires t.queue[queueid].retries >= MaxRetries ||
             (t.queue[queueid].retries == MaxRetries - 1 &&
              Attempt(t.instances, cfg, net, svc, t.queue[queueid]).Failure?)
    ensures queueid in StatusReport(Executed(t, queueid, cfg, net, svc, now).queue, t.queue[queueid].geminiid, later).errors
  {
  }

  /** A row claimed below the ceiling is reported as a pending task while
      its attempt runs. */
  lemma ClaimedReportedPending(t: Tables, queueid: int, now: int, later: int)
    requires queueid in t.queue && t.queue[queueid].retries < MaxRetries
    ensures var q := t.queue[queueid := ClaimedRow(t.queue[queueid], now)];
      queueid in StatusReport(q, t.queue[queueid].geminiid, later).tasks
  {
  }

  // ---------------------------------------------------------------------
  // reset, update, restore_version

  /** `reset`: the instance's content and queue rows and both file areas of
      its context are deleted. */
  function ResetTables(t: Tables, g: int): Tables
    requires g in t.instances
  {
    t.(content := map id | id in t.content && t.content[id].geminiid != g :: t.content[id],
       queue := map id | id in t.queue && t.queue[id].geminiid != g :: t.queue[id],
       files := AreasCleared(t.files, t.instances[g]))
  }

  /** After a reset the instance has no content, no queued work and no
      files, and every other instance's rows are as they were. */
  lemma ResetClearsInstance(t: Tables, g: int)
    requires TablesOk(t) && g in t.instances
    ensures var t' := ResetTables(t, g);
      && TablesOk(t')
      && InstanceIds(t'.content, g) == {}
      && (forall id :: id in t'.queue ==> t'.queue[id].geminiid != g)
      && (forall id :: id in t.content && t.content[id].geminiid != g ==> id in t'.content && t'.content[id] == t.content[id])
      && (forall id :: id in t.queue && t.queue[id].geminiid != g ==> id in t'.queue && t'.queue[id] == t.queue[id])
      && (forall k :: k in t'.files ==> k.contextid != t.instances[g])
  {
  }

  method ResetAction(db: Database, g: int) returns (r: Result<Reply, Error>)
    requires g in db.instances
    modifies db
    ensures db.Snapshot() == ResetTables(old(db.Snapshot()), g)
    ensures r == Success(Reply("", NoData))
  {
    var ctx := db.instances[g];
    db.content := map id | id in db.content && db.content[id].geminiid != g :: db.content[id];
    db.queue := map id | id in db.queue && db.queue[id].geminiid != g :: db.queue[id];
    db.files := AreasCleared(db.files, ctx);
    return Success(Reply("", NoData));
  }

  /** `update`: the current row's text replaced in place. */
  function Edited(c: map<int, ContentRow>, id: int, text: string, now: int): map<int, ContentRow>
    requires id in c
  {
    c[id := c[id].(content := text, timemodified := now)]
  }

  /** An edit is not a new version: the row keeps its number, its link and
      its current flag, and the table keeps its current rows. */
  lemma EditIsNotAVersion(c: map<int, ContentRow>, g: int, text: string, now: int)
    requires AtMostOneCurrent(c)
    requires CurrentIds(c, g) != {}
    ensures var id := CurrentOf(c, g).value;
      var c' := Edited(c, id, text, now);
      && c'.Keys == c.Keys
      && c'[id].content == text
      && c'[id].version == c[id].version && c'[id].parentId == c[id].parentId
      && AtMostOneCurrent(c')
      && (forall h :: CurrentIds(c', h) == CurrentIds(c, h))
  {
    var id := CurrentOf(c, g).value;
    var c' := Edited(c, id, text, now);
    forall h ensures CurrentIds(c', h) == CurrentIds(c, h) {
      assert forall x :: x in CurrentIds(c', h) <==> x in CurrentIds(c, h);
    }
  }

  method UpdateAction(db: Database, g: int, content: Option<string>, now: int) returns (r: Result<Reply, Error>)
    requires db.Valid()
    modifies db
    ensures content.None? ==> r == Failure(MissingParam) && db.Snapshot() == old(db.Snapshot())
    ensures content.Some? && CurrentOf(old(db.content), g).None? ==>
      r == Failure(RecordMissing) && db.Snapshot() == old(db.Snapshot())
    ensures content.Some? && CurrentOf(old(db.content), g).Some? ==>
      && r == Success(Reply("", NoData))
      && db.Snapshot() == old(db.Snapshot()).(content := Edited(old(db.content), CurrentOf(old(db.content), g).value,
                                                                content.value, now))
  {
    if content.None? {
      return Failure(MissingParam);
    }
    var cur := FindCurrent(db.content, g);
    if cur.None? {
      return Failure(RecordMissing);
    }
    var id := cur.value;
    db.content := db.content[id := db.content[id].(content := content.value, timemodified := now)];
    return Success(Reply("", NoData));
  }

  method RestoreAction(db: Database, g: int, versionId: Option<int>, now: int) returns (r: Result<Reply, Error>)
    modifies db
    ensures versionId.None? ==> r == Failure(MissingParam) && db.Snapshot() == old(db.Snapshot())
    ensures versionId.Some? && !(versionId.value in old(db.content) && old(db.content)[versionId.value].geminiid == g) ==>
      r == Failure(RecordMissing) && db.Snapshot() == old(db.Snapshot())
    ensures versionId.Some? && versionId.value in old(db.content) && old(db.content)[versionId.value].geminiid == g ==>
      && r == Success(Reply(RestoredMessage, NoData))
      && db.Snapshot() == old(db.Snapshot()).(content := Restored(old(db.content), g, versionId.value, now))
  {
    if versionId.None? {
      return Failure(MissingParam);
    }
    var v := versionId.value;
    if !(v in db.content && db.content[v].geminiid == g) {
      return Failure(RecordMissing);
    }
    var target := db.content[v];
    db.content := map id | id in db.content :: if db.content[id].geminiid == g then db.content[id].(isCurrent := false) else db.content[id];
    db.content := db.content[v := target.(isCurrent := true, timemodified := now)];
    return Success(Reply(RestoredMessage, NoData));
  }

  // ---------------------------------------------------------------------
  // chat

  const MessageLimit: nat := 1000
  const ContextLimit: nat := 8000
  const TruncationMarker: string := "\n...[content truncated]"
  const HistoryLimit: nat := 20

  /** The session key of a user's chat about an instance. */
  function SessionKey(g: int, userid: int): string {
    "gemini_chat_" + IntToString(g) + "_" + IntToString(userid)
  }

  /** `clean_param(trim($message), PARAM_TEXT)`. */
  function Cleaned(svc: Services, raw: string): string {
    svc.cleanText(Trim(raw, PhpWhitespace))
  }

  /** The message cut to its first 1000 characters. */
  function TruncateMessage(m: string): string {
    Prefix(m, MessageLimit)
  }

  lemma TruncateMessageBounds(m: string)
    ensures |TruncateMessage(m)| <= MessageLimit
    ensures StartsWith(m, TruncateMessage(m))
    ensures |m| <= MessageLimit ==> TruncateMessage(m) == m
  {
  }

  /** A context over 8000 characters is cut there and marked. */
  function TruncateContext(t: string): string {
    if |t| > ContextLimit then t[..ContextLimit] + TruncationMarker else t
  }

  lemma TruncateContextBounds(t: string)
    ensures |TruncateContext(t)| <= ContextLimit + |TruncationMarker|
    ensures |t| <= ContextLimit ==> TruncateContext(t) == t
    ensures |t| > ContextLimit ==>
      && StartsWith(TruncateContext(t), t[..ContextLimit])
      && EndsWith(TruncateContext(t), TruncationMarker)
  {
    if |t| > ContextLimit {
      var r := TruncateContext(t);
      assert r[..ContextLimit] == t[..ContextLimit];
      assert r[|r| - |TruncationMarker|..] == TruncationMarker;
    }
  }

  /** The history after an exchange: the question and the answer appended,
      then the last 20 entries kept. */
  function NextHistory(h: seq<Message>, question: string, answer: string): seq<Message> {
    LastN(h + [Message(User, Said(question)), Message(Assistant, Said(answer))], HistoryLimit)
  }

  lemma NextHistoryShape(h: seq<Message>, question: string, answer: string)
    ensures var h' := NextHistory(h, question, answer);
      && |h'| <= HistoryLimit
      && |h'| == (if |h| + 2 <= HistoryLimit then |h| + 2 else HistoryLimit)
      && h'[|h'| - 2] == Message(User, Said(question))
      && h'[|h'| - 1] == Message(Assistant, Said(answer))
      && (|h| + 2 <= HistoryLimit ==> h'[..|h|] == h)
  {
  }

  /** Once full, the history stays at 20 entries, dropping the oldest
      exchange each time. */
  lemma FullHistoryDropsOldest(h: seq<Message>, question: string, answer: string)
    requires |h| == HistoryLimit
    ensures NextHistory(h, question, answer) == h[2..] + [Message(User, Said(question)), Message(Assistant, Said(answer))]
  {
  }

  /** The first line of a slide: its number and title. */
  function SlideTitleLine(i: nat, s: Slide): string {
    "Slide " + NatToString(i + 1) + ": " + s.title + "\n"
  }

  /** The notes line, present only when the notes are not PHP-empty. */
  function NotesLine(s: Slide): string {
    if s.notes.Some? && !PhpEmpty(s.notes.value) then "Notes: " + s.notes.value + "\n" else ""
  }

  /** One slide of the presentation context. */
  function SlideText(svc: Services, i: nat, s: Slide): string {
    SlideTitleLine(i, s) + (svc.stripTags(s.content) + "\n") + NotesLine(s) + "\n"
  }

  /** The slides' text, slide by slide from the first. */
  function SlidesText(svc: Services, slides: seq<Slide>): string
    decreases |slides|
  {
    if slides == [] then ""
    else SlidesText(svc, slides[..|slides| - 1]) + SlideText(svc, |slides| - 1, slides[|slides| - 1])
  }

  function PresentationHeader(title: Option<string>): string {
    "Presentation: " + (if title.Some? then title.value else "Untitled") + "\n\n"
  }

  /** One card of the flashcards context. */
  function CardText(i: nat, c: Card): string {
    ("Card " + NatToString(i + 1) + ":\n") + ("Q: " + c.front + "\n") + ("A: " + c.back + "\n\n")
  }

  function CardsText(cards: seq<Card>): string
    decreases |cards|
  {
    if cards == [] then "" else CardsText(cards[..|cards| - 1]) + CardText(|cards| - 1, cards[|cards| - 1])
  }

  function FlashcardsHeader(topic: Option<string>): string {
    "Flashcards about: " + (if topic.Some? then topic.value else "Various topics") + "\n\n"
  }

  /** The context text for the current row, by its type; stored JSON that
      does not decode raises `invalidjson`. */
  function ContextFor(svc: Services, row: ContentRow): (r: Result<string, Error>)
    ensures r.Failure? ==> r.error == InvalidJson && row.typ in {PresentationType, FlashcardsType}
  {
    if row.typ == PresentationType then
      match svc.decodePresentation(row.content)
      case PresentationNotJson => Failure(InvalidJson)
      case PresentationLacksSlides => Success("")
      case Presentation(title, slides) => Success(PresentationHeader(title) + SlidesText(svc, slides))
    else if row.typ == FlashcardsType then
      match svc.decodeFlashcards(row.content)
      case FlashcardsNotJson => Failure(InvalidJson)
      case FlashcardsLacksCards => Success("")
      case Flashcards(topic, cards) => Success(FlashcardsHeader(topic) + CardsText(cards))
    else if row.typ == QuizType then Success("Quiz questions:\n" + svc.stripTags(row.content))
    else Success(svc.stripTags(row.content))
  }

  /** A slide's notes are shown exactly when they are present and not
      PHP-empty. */
  lemma NotesShownWhenPresent(svc: Services, i: nat, s: Slide)
    ensures var head := SlideTitleLine(i, s) + (svc.stripTags(s.content) + "\n");
      && (s.notes.None? || PhpEmpty(s.notes.value) ==> SlideText(svc, i, s) == head + "\n")
      && (s.notes.Some? && !PhpEmpty(s.notes.value) ==>
            SlideText(svc, i, s) == head + ("Notes: " + s.notes.value + "\n") + "\n")
  {
  }

  /** Adding a slide appends exactly its own text: earlier slides' text is
      never rewritten. */
  lemma SlidesTextSnoc(svc: Services, slides: seq<Slide>, s: Slide)
    ensures SlidesText(svc, slides + [s]) == SlidesText(svc, slides) + SlideText(svc, |slides|, s)
  {
    assert (slides + [s])[..|slides|] == slides;
  }

  lemma CardsTextSnoc(cards: seq<Card>, c: Card)
    ensures CardsText(cards + [c]) == CardsText(cards) + CardText(|cards|, c)
  {
    assert (cards + [c])[..|cards|] == cards;
  }

  /** The `.=` lines of one slide. */
  method AppendSlide(svc: Services, text: string, i: nat, s: Slide) returns (t: string)
    ensures t == text + SlideText(svc, i, s)
  {
    t := text + SlideTitleLine(i, s);
    t := t + (svc.stripTags(s.content) + "\n");
    if s.notes.Some? && !PhpEmpty(s.notes.value) {
      t := t + ("Notes: " + s.notes.value + "\n");
    }
    t := t + "\n";
  }

  /** The presentation context: the header, then the slides appended with
      `.=` one by one (collected here before the header is prefixed). */
  method BuildPresentationContext(svc: Services, title: Option<string>, slides: seq<Slide>) returns (text: string)
    ensures text == PresentationHeader(title) + SlidesText(svc, slides)
  {
    var body := "";
    var i := 0;
    while i < |slides|
      invariant 0 <= i <= |slides|
      invariant body == SlidesText(svc, slides[..i])
    {
      body := AppendSlide(svc, body, i, slides[i]);
      SlidesTextSnoc(svc, slides[..i], slides[i]);
      assert slides[..i + 1] == slides[..i] + [slides[i]];
      i := i + 1;
    }
    assert slides[..i] == slides;
    text := PresentationHeader(title) + body;
  }

  /** The `.=` lines of one card. */
  method AppendCard(text: string, i: nat, c: Card) returns (t: string)
    ensures t == text + CardText(i, c)
  {
    t := text + ("Card " + NatToString(i + 1) + ":\n");
    t := t + ("Q: " + c.front + "\n");
    t := t + ("A: " + c.back + "\n\n");
  }

  /** The flashcards context: the header, then the cards appended with
      `.=` one by one (collected here before the header is prefixed). */
  method BuildFlashcardsContext(topic: Option<string>, cards: seq<Card>) returns (text: string)
    ensures text == FlashcardsHeader(topic) + CardsText(cards)
  {
    var body := "";
    var i := 0;
    while i < |cards|
      invariant 0 <= i <= |cards|
      invariant body == CardsText(cards[..i])
    {
      body := AppendCard(body, i, cards[i]);
      CardsTextSnoc(cards[..i], cards[i]);
      assert cards[..i + 1] == cards[..i] + [cards[i]];
      i := i + 1;
    }
    assert cards[..i] == cards;
    text := FlashcardsHeader(topic) + body;
  }

  /** The `switch` on the current row's type. */
  method BuildContext(svc: Services, row: ContentRow) returns (r: Result<string, Error>)
    ensures r == ContextFor(svc, row)
  {
    if row.typ == PresentationType {
      var doc := svc.decodePresentation(row.content);
      if doc.PresentationNotJson? {
        return Failure(InvalidJson);
      }
      var text := "";
      if doc.Presentation? {
        text := BuildPresentationContext(svc, doc.title, doc.slides);
      }
      return Success(text);
    } else if row.typ == FlashcardsType {
      var doc := svc.decodeFlashcards(row.content);
      if doc.FlashcardsNotJson? {
        return Failure(InvalidJson);
      }
      var text := "";
      if doc.Flashcards? {
        text := BuildFlashcardsContext(doc.topic, doc.cards);
      }
      return Success(text);
    } else if row.typ == QuizType {
      return Success("Quiz questions:\n" + svc.stripTags(row.content));
    }
    return Success(svc.stripTags(row.content));
  }

  /** The answer of the model for the question about the current row, or
      the exception on the way: the context, the client, the completion. */
  function ChatAnswer(cfg: Config, net: Net, svc: Services, row: ContentRow, question: string, history: seq<Message>)
    : (r: Result<string, Error>)
  {
    match ContextFor(svc, row)
    case Failure(e) => Failure(e)
    case Success(context) =>
      match ClientFor(cfg, net)
      case Failure(e) => Failure(e)
      case Success(c) => CompletionResult(c, net, ChatList(TruncateContext(context), question, history), "text")
  }

  /** The context, truncated, and the completion for the question. */
  method ChatExchange(cfg: Config, net: Net, svc: Services, row: ContentRow, question: string, history: seq<Message>)
    returns (r: Result<string, Error>)
    ensures r == ChatAnswer(cfg, net, svc, row, question, history)
  {
    var context := BuildContext(svc, row);
    if context.Failure? {
      return Failure(context.error);
    }
    var text := context.value;
    if |text| > ContextLimit {
      text := text[..ContextLimit] + TruncationMarker;
    }
    var client := NewClient(cfg, net);
    if client.Failure? {
      return Failure(client.error);
    }
    r := ChatWithContent(client.value, net, text, question, history);
  }

  /** The checks `chat` makes before it writes anything, in order: a
      present, non-empty message; a current row; the chat limiter. */
  ghost function ChatRejection(c: map<int, ContentRow>, g: int, raw: Option<string>, svc: Services,
                               entry: Option<Window>, now: int): Option<Error>
  {
    if raw.None? || PhpEmpty(Cleaned(svc, raw.value)) then Some(MissingParam)
    else if CurrentOf(c, g).None? then Some(ChatNoContent)
    else if Decide(entry, now, ChatLimit).None? then Some(ChatRateLimited)
    else None
  }

  /** An empty message is rejected before the content or the limiter is
      looked at, and a missing content before the limiter counts it. */
  lemma ChatCheckOrder(c: map<int, ContentRow>, g: int, raw: Option<string>, svc: Services,
                       entry: Option<Window>, now: int)
    ensures raw.Some? && PhpEmpty(Cleaned(svc, raw.value)) ==> ChatRejection(c, g, raw, svc, entry, now) == Some(MissingParam)
    ensures raw.Some? && !PhpEmpty(Cleaned(svc, raw.value)) && CurrentIds(c, g) == {} ==>
      ChatRejection(c, g, raw, svc, entry, now) == Some(ChatNoContent)
  {
  }

  /** The stored history, or an empty one when the session has none yet. */
  function HistoryIn(chats: map<string, seq<Message>>, key: string): seq<Message> {
    if key in chats then chats[key] else []
  }

  /** The message as `chat` uses it: cleaned, rejected when missing or
      PHP-empty, then cut to 1000 characters. */
  method ChatQuestion(svc: Services, raw: Option<string>) returns (q: Option<string>)
    ensures q.None? <==> raw.None? || PhpEmpty(Cleaned(svc, raw.value))
    ensures q.Some? ==> q.value == TruncateMessage(Cleaned(svc, raw.value))
  {
    if raw.None? {
      return None;
    }
    var message := svc.cleanText(Trim(raw.value, PhpWhitespace));
    if PhpEmpty(message) {
      return None;
    }
    if |message| > MessageLimit {
      message := message[..MessageLimit];
    }
    return Some(message);
  }

  /** `if (!isset($SESSION->$key)) $SESSION->$key = [];` and the read. */
  method OpenHistory(session: Session, key: string) returns (h: seq<Message>)
    modifies session
    ensures h == HistoryIn(old(session.chats), key)
    ensures session.chats == old(session.chats)[key := h]
  {
    if key !in session.chats {
      session.chats := session.chats[key := []];
    }
    h := session.chats[key];
  }

  /** The history with the exchange appended and trimmed to 20 entries. */
  method RecordExchange(h: seq<Message>, question: string, answer: string) returns (h': seq<Message>)
    ensures h' == NextHistory(h, question, answer)
  {
    h' := h + [Message(User, Said(question))];
    h' := h' + [Message(Assistant, Said(answer))];
    if |h'| > HistoryLimit {
      h' := h'[|h'| - HistoryLimit..];
    }
  }

  /** The sessions and reply after `chat` got `answer` for `question`
      with the history stored under `key`: the entry exists either way; a
      failed answer fails with its error; an answer extends the history
      with the exchange, and the reply carries the formatted answer and the
      new history length. */
  ghost predicate Answered(before: map<string, seq<Message>>, after: map<string, seq<Message>>, key: string,
                           question: string, answer: Result<string, Error>, svc: Services, r: Result<Reply, Error>)
  {
    var h := HistoryIn(before, key);
    && (answer.Failure? ==> r == Failure(answer.error) && after == before[key := h])
    && (answer.Success? ==>
          && after == before[key := NextHistory(h, question, answer.value)]
          && r == Success(Reply("", ChatData(svc.formatPlain(answer.value),
                                             |NextHistory(h, question, answer.value)|))))
  }

  /** Opening the history first changes nothing of what the answer does. */
  lemma AnsweredAfterOpening(before: map<string, seq<Message>>, mid: map<string, seq<Message>>,
                             after: map<string, seq<Message>>, key: string, question: string,
                             answer: Result<string, Error>, svc: Services, r: Result<Reply, Error>)
    requires mid == before[key := HistoryIn(before, key)]
    requires Answered(mid, after, key, question, answer, svc, r)
    ensures Answered(before, after, key, question, answer, svc, r)
  {
    var h := HistoryIn(before, key);
    assert HistoryIn(mid, key) == h;
    UpdateAgain(before, key, h, h);
    if answer.Success? {
      UpdateAgain(before, key, h, NextHistory(h, question, answer.value));
    }
  }

  /** A second update of a key overrides the first. */
  lemma UpdateAgain(m: map<string, seq<Message>>, key: string, v: seq<Message>, w: seq<Message>)
    ensures m[key := v][key := w] == m[key := w]
  {
  }

  /** The part of `chat` after the limiter: open the history, ask, and
      record the exchange. */
  method ChatRespond(session: Session, key: string, row: ContentRow, question: string,
                     cfg: Config, net: Net, svc: Services)
    returns (r: Result<Reply, Error>)
    modifies session
    ensures Answered(old(session.chats), session.chats, key, question,
                     ChatAnswer(cfg, net, svc, row, question, HistoryIn(old(session.chats), key)), svc, r)
  {
    ghost var before := session.chats;
    var history := OpenHistory(session, key);
    ghost var mid := session.chats;
    var answer := ChatExchange(cfg, net, svc, row, question, history);
    r := RecordAnswer(session, key, question, answer, svc);
    AnsweredAfterOpening(before, mid, session.chats, key, question, answer, svc, r);
  }

  /** What `chat` does with the model's answer: a failure propagates, an
      answer is recorded in the session and returned formatted. */
  method RecordAnswer(session: Session, key: string, question: string, answer: Result<string, Error>, svc: Services)
    returns (r: Result<Reply, Error>)
    requires key in session.chats
    modifies session
    ensures Answered(old(session.chats), session.chats, key, question, answer, svc, r)
  {
    assert session.chats[key := session.chats[key]] == session.chats;
    if answer.Failure? {
      return Failure(answer.error);
    }
    var h' := RecordExchange(session.chats[key], question, answer.value);
    session.chats := session.chats[key := h'];
    return Success(Reply("", ChatData(svc.formatPlain(answer.value), |h'|)));
  }

  /** `chat`. Nothing is written when a check rejects the message. After
      the limiter admits it, its count is kept and the session entry exists
      even when the context, the client or the completion then throws; on
      success the history gains the exchange. */
  method ChatAction(db: Database, cache: RateCache, session: Session, g: int, userid: int, raw: Option<string>,
                    cfg: Config, net: Net, svc: Services, now: int)
    returns (r: Result<Reply, Error>)
    requires db.Valid()
    modifies cache, session
    ensures var rejection := ChatRejection(db.content, g, raw, svc, old(cache.Lookup(ChatKey(userid))), now);
      rejection.Some? ==>
        && r == Failure(rejection.value)
        && cache.entries == old(cache.entries)
        && session.chats == old(session.chats)
    ensures var entry := old(cache.Lookup(ChatKey(userid)));
      ChatRejection(db.content, g, raw, svc, entry, now).None? ==>
        var key := SessionKey(g, userid);
        var h := HistoryIn(old(session.chats), key);
        var question := TruncateMessage(Cleaned(svc, raw.value));
        var answer := ChatAnswer(cfg, net, svc, db.content[CurrentOf(db.content, g).value], question, h);
        && cache.entries == old(cache.entries)[ChatKey(userid) := Decide(entry, now, ChatLimit).value]
        && (answer.Failure? ==> r == Failure(answer.error) && session.chats == old(session.chats)[key := h])
        && (answer.Success? ==>
              && session.chats == old(session.chats)[key := NextHistory(h, question, answer.value)]
              && r == Success(Reply("", ChatData(svc.formatPlain(answer.value),
                                                 |NextHistory(h, question, answer.value)|))))
  {
    var question := ChatQuestion(svc, raw);
    if question.None? {
      return Failure(MissingParam);
    }
    var cur := FindCurrent(db.content, g);
    if cur.None? {
      return Failure(ChatNoContent);
    }
    var admitted := cache.Hit(ChatKey(userid), now, ChatLimit);
    if !admitted {
      return Failure(ChatRateLimited);
    }
    r := ChatRespond(session, SessionKey(g, userid), db.content[cur.value], question.value, cfg, net, svc);
  }

  /** `chat_clear`: the session's history for this instance and user is
      emptied. */
  method ChatClearAction(session: Session, g: int, userid: int) returns (r: Result<Reply, Error>)
    modifies session
    ensures session.chats == old(session.chats)[SessionKey(g, userid) := []]
    ensures r == Success(Reply(ChatClearedMessage, NoData))
  {
    session.chats := session.chats[SessionKey(g, userid) := []];
    return Success(Reply(ChatClearedMessage, NoData));
  }

  /** The user's chat histories, by session key. */
  class Session {
    var chats: map<string, seq<Message>>

    constructor ()
      ensures chats == map[]
    {
      chats := map[];
    }
  }

  // ---------------------------------------------------------------------
  // The request as a whole.

  /** The try block for a decoded action, then the catch-all. The instance
      lookup and the login, session key and capability checks come before the
      try block and are assumed to have passed. */
  method Dispatch(db: Database, cache: RateCache, session: Session, action: Action, req: Request,
                  g: int, userid: int, cfg: Config, net: Net, svc: Services, now: int)
    returns (resp: Response)
    requires db.Valid() && g in db.instances
    modifies db, cache, session
    ensures db.Valid()
    ensures action == Unknown ==>
      && resp == Response(false, "", NoData)
      && db.Snapshot() == old(db.Snapshot())
      && cache.entries == old(cache.entries) && session.chats == old(session.chats)
    ensures action != Unknown && !resp.success ==> resp == Response(false, GenericFailureMessage, NoData)
    ensures action == CheckStatus ==>
      && resp == Response(true, "", StatusData(StatusReport(old(db.queue), g, now)))
      && db.Snapshot() == old(db.Snapshot())
    ensures action == Generate ==>
      db.Snapshot() == Generated(old(db.Snapshot()), old(cache.Lookup(GenerateKey(userid))), g, userid,
                                 AlphaOnly(req.typ), req.prompt, now)
    ensures action == Generate ==> forall id :: id in db.queue && id !in old(db.queue) ==> Letters(db.queue[id].typ)
  {
    var r: Result<Reply, Error>;
    match action {
      case Generate =>
        ghost var t := db.Snapshot();
        ghost var entry := cache.Lookup(GenerateKey(userid));
        r := GenerateAction(db, cache, g, userid, req.prompt, AlphaOnly(req.typ), now);
        EnqueueAddsOnePendingRow(t, g, userid, AlphaOnly(req.typ), req.prompt, now);
        CleanedTypeStored(t, entry, g, userid, req.typ, req.prompt, now);
      case CheckStatus =>
        r := Success(Reply("", StatusData(StatusReport(db.queue, g, now))));
      case Reset =>
        ResetClearsInstance(db.Snapshot(), g);
        r := ResetAction(db, g);
      case Update =>
        ghost var c := db.content;
        if CurrentIds(c, g) != {} && req.content.Some? {
          EditIsNotAVersion(c, g, req.content.value, now);
        }
        r := UpdateAction(db, g, req.content, now);
      case Chat =>
        r := ChatAction(db, cache, session, g, userid, req.message, cfg, net, svc, now);
      case ChatClear =>
        r := ChatClearAction(session, g, userid);
      case RestoreVersion =>
        if req.versionId.Some? && req.versionId.value in db.content && db.content[req.versionId.value].geminiid == g {
          RestoreLeavesOnlyTarget(db.content, g, req.versionId.value, now);
        }
        r := RestoreAction(db, g, req.versionId, now);
      case Unknown =>
        return Response(false, "", NoData);
    }
    resp := Respond(r);
  }

  /** One request to the written endpoint. Whatever the name, the report,
      the chat clear and the restore are never run, and an unmatched name,
      such as each of the three the pages send, changes nothing. */
  method Handle(db: Database, cache: RateCache, session: Session, req: Request, g: int, userid: int,
                cfg: Config, net: Net, svc: Services, now: int)
    returns (resp: Response)
    requires db.Valid() && g in db.instances
    modifies db, cache, session
    ensures db.Valid()
    ensures ActionOf(req.action) == Unknown ==>
      && resp == Response(false, "", NoData)
      && db.Snapshot() == old(db.Snapshot())
      && cache.entries == old(cache.entries) && session.chats == old(session.chats)
    ensures ActionOf(req.action) != Unknown && !resp.success ==>
      resp == Response(false, GenericFailureMessage, NoData)
    ensures ActionOf(req.action) !in {CheckStatus, ChatClear, RestoreVersion}
    ensures req.action in PageActions ==>
      && resp == Response(false, "", NoData)
      && db.Snapshot() == old(db.Snapshot())
      && cache.entries == old(cache.entries) && session.chats == old(session.chats)
    ensures ActionOf(req.action) == Generate ==>
      db.Snapshot() == Generated(old(db.Snapshot()), old(cache.Lookup(GenerateKey(userid))), g, userid,
                                 AlphaOnly(req.typ), req.prompt, now)
    ensures forall id :: id in db.queue && id !in old(db.queue) && ActionOf(req.action) == Generate ==>
      Letters(db.queue[id].typ)
  {
    UnderscoredActionsUnreachable(req.action);
    if req.action in PageActions {
      PageActionsUnknown(req.action);
    }
    resp := Dispatch(db, cache, session, ActionOf(req.action), req, g, userid, cfg, net, svc, now);
  }

  /** One request to the endpoint as its pages mean it, with the name
      cleaned by PARAM_ALPHAEXT: `check_status` replies with the report and
      changes no table. */
  method HandleIntended(db: Database, cache: RateCache, session: Session, req: Request, g: int, userid: int,
                        cfg: Config, net: Net, svc: Services, now: int)
    returns (resp: Response)
    requires db.Valid() && g in db.instances
    requires IntendedActionOf(req.action).Some?
    modifies db, cache, session
    ensures db.Valid()
    ensures IntendedActionOf(req.action) == Some(Unknown) ==>
      && resp == Response(false, "", NoData)
      && db.Snapshot() == old(db.Snapshot())
      && cache.entries == old(cache.entries) && session.chats == old(session.chats)
    ensures IntendedActionOf(req.action) != Some(Unknown) && !resp.success ==>
      resp == Response(false, GenericFailureMessage, NoData)
    ensures IntendedActionOf(req.action) == Some(CheckStatus) ==>
      && resp == Response(true, "", StatusData(StatusReport(old(db.queue), g, now)))
      && db.Snapshot() == old(db.Snapshot())
    ensures IntendedActionOf(req.action) == Some(Generate) ==>
      db.Snapshot() == Generated(old(db.Snapshot()), old(cache.Lookup(GenerateKey(userid))), g, userid,
                                 AlphaOnly(req.typ), req.prompt, now)
    ensures forall id :: id in db.queue && id !in old(db.queue) && IntendedActionOf(req.action) == Some(Generate) ==>
      Letters(db.queue[id].typ)
  {
    resp := Dispatch(db, cache, session, IntendedActionOf(req.action).value, req, g, userid, cfg, net, svc, now);
  }
}
