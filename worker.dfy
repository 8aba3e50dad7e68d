/** The adhoc task `generate_content`: claims a queue row, generates the
    content of its type, commits it as a new version, prunes old versions,
    stores the audio or quiz file, and on any exception counts a retry and
    reschedules with exponential backoff. */
module Worker {
  import opened Wrappers
  import opened Text
  import opened Moodle
  import opened Store
  import opened Sets
  import opened Versions
  import opened GeminiClient
  import opened QuizExport

  // ---------------------------------------------------------------------
  // Backoff.

  /** PHP `pow(2, n)`; the retry counter it is applied to starts at 0 and
      only grows, so a negative exponent never reaches it and counts as 0. */
  function Pow2(n: int): (r: nat)
    ensures r >= 1
    decreases n
  {
    if n <= 0 then 1 else 2 * Pow2(n - 1)
  }

  /** The delay before the retry of a row that has now failed `retries`
      times: `pow(2, retries) * 60` seconds. */
  function BackoffSeconds(retries: int): nat {
    Pow2(retries) * 60
  }

  /** Each further failure doubles the delay. */
  lemma BackoffDoubles(r: nat)
    ensures BackoffSeconds(r + 1) == 2 * BackoffSeconds(r)
  {
  }

  /** The retries that are scheduled (after failures one to four) wait 2, 4,
      8 and 16 minutes. */
  lemma BackoffSchedule()
    ensures BackoffSeconds(1) == 120
    ensures BackoffSeconds(2) == 240
    ensures BackoffSeconds(3) == 480
    ensures BackoffSeconds(4) == 960
  {
    assert Pow2(1) == 2;
    assert Pow2(2) == 4;
    assert Pow2(3) == 8;
    assert Pow2(4) == 16;
  }

  /** The increment comes before the delay is computed, so no scheduled
      retry waits the single minute the code comment gives for the first. */
  lemma {:induction false} NoRetryAfterOneMinute(r: nat)
    requires r >= 1
    ensures BackoffSeconds(r) >= 120
  {
    if r > 1 {
      NoRetryAfterOneMinute(r - 1);
    }
  }

  // ---------------------------------------------------------------------
  // Generation: the body of the try block up to the commit.

  /** The generated content, and the MP3 data when speech succeeded. */
  datatype Generated = Generated(content: string, mp3: Option<string>)

  /** The messages of the audio branch: the script brief, then the prompt. */
  function AudioMessages(prompt: string): seq<Message> {
    [Message(System, Instructions(AudioScriptBrief)), Message(User, Said(prompt))]
  }

  function QuizRequest(prompt: string): seq<Message> {
    TopicMessages(QuizBrief, "Create a quiz about: ", prompt)
  }

  /** The `switch ($type)` of the worker with a constructed client. */
  function Generation(cfg: Config, net: Net, svc: Services, c: Client, typ: string, prompt: string)
    : (r: Result<Generated, Error>)
    ensures r.Success? && r.value.mp3.Some? ==> typ == AudioType
  {
    if typ == PresentationType then
      match CompletionResult(c, net, TopicMessages(PresentationBrief, "Create a presentation about: ", prompt), "json_object")
      case Failure(e) => Failure(e)
      case Success(s) => Success(Generated(s, None))
    else if typ == FlashcardsType then
      match CompletionResult(c, net, TopicMessages(FlashcardsBrief, "Create flashcards about: ", prompt), "json_object")
      case Failure(e) => Failure(e)
      case Success(s) => Success(Generated(s, None))
    else if typ == SummaryType then
      match CompletionResult(c, net, TopicMessages(SummaryBrief, "Summarize this topic: ", prompt), "text")
      case Failure(e) => Failure(e)
      case Success(s) => Success(Generated(s, None))
    else if typ == AudioType then
      match CompletionResult(c, net, AudioMessages(prompt), "text")
      case Failure(e) => Failure(e)
      case Success(script) =>
        match SpeechResult(cfg, c, net, script)
        case Failure(_) => Success(Generated(script, None))
        case Success(mp3) => Success(Generated(script, Some(mp3)))
    else if typ == QuizType then
      match CompletionResult(c, net, QuizRequest(prompt), "json_object")
      case Failure(e) => Failure(e)
      case Success(json) =>
        match QuizContent(svc.escape, prompt, svc.decodeQuiz(json))
        case Failure(e) => Failure(e)
        case Success(xml) => Success(Generated(xml, None))
    else Success(Generated("", None))
  }

  /** The whole generation attempt: the instance and its context must
      exist, and the client's constructor must accept the base URL. */
  function Attempt(instances: map<int, int>, cfg: Config, net: Net, svc: Services, row: QueueRow)
    : (r: Result<Generated, Error>)
    ensures r.Success? ==> row.geminiid in instances
    ensures row.geminiid in instances && ClientFor(cfg, net).Failure? ==> r == Failure(ClientFor(cfg, net).error)
  {
    if row.geminiid !in instances then Failure(RecordMissing)
    else
      match ClientFor(cfg, net)
      case Failure(e) => Failure(e)
      case Success(c) => Generation(cfg, net, svc, c, row.typ, row.prompt)
  }

  /** A failed speech request is swallowed: the script is still the content,
      only without audio. */
  lemma AudioSpeechFailureSwallowed(cfg: Config, net: Net, svc: Services, c: Client, prompt: string)
    requires CompletionResult(c, net, AudioMessages(prompt), "text").Success?
    requires SpeechResult(cfg, c, net, CompletionResult(c, net, AudioMessages(prompt), "text").value).Failure?
    ensures Generation(cfg, net, svc, c, AudioType, prompt)
         == Success(Generated(CompletionResult(c, net, AudioMessages(prompt), "text").value, None))
  {
  }

  /** A quiz response that is not JSON, or has no `questions`, fails the
      attempt with `invalidjson`. */
  lemma QuizWithoutQuestionsFails(cfg: Config, net: Net, svc: Services, c: Client, prompt: string)
    requires CompletionResult(c, net, QuizRequest(prompt), "json_object").Success?
    requires !svc.decodeQuiz(CompletionResult(c, net, QuizRequest(prompt), "json_object").value).QuizQuestions?
    ensures Generation(cfg, net, svc, c, QuizType, prompt) == Failure(InvalidJson)
  {
  }

  /** A type outside the five commits an empty content. */
  lemma UnknownTypeCommitsEmpty(cfg: Config, net: Net, svc: Services, c: Client, typ: string, prompt: string)
    requires typ !in {PresentationType, FlashcardsType, SummaryType, AudioType, QuizType}
    ensures Generation(cfg, net, svc, c, typ, prompt) == Success(Generated("", None))
  {
  }

  /** The client is built inside the try block, so a base URL the guard
      blocks counts as a failed attempt and is retried like any other. */
  lemma BlockedBaseUrlIsRetried(instances: map<int, int>, cfg: Config, net: Net, svc: Services, row: QueueRow)
    requires row.geminiid in instances
    requires UrlVerdict(net, NormalizeBase(cfg.baseurl)) == Fail(SsrfBlocked)
    ensures Attempt(instances, cfg, net, svc, row) == Failure(SsrfBlocked)
  {
  }

  /** Builds the generated content step by step, as the try block does. */
  method Generate(instances: map<int, int>, cfg: Config, net: Net, svc: Services, row: QueueRow)
    returns (r: Result<Generated, Error>)
    ensures r == Attempt(instances, cfg, net, svc, row)
  {
    if row.geminiid !in instances {
      return Failure(RecordMissing);
    }
    var client := NewClient(cfg, net);
    if client.Failure? {
      return Failure(client.error);
    }
    var c := client.value;
    var typ, prompt := row.typ, row.prompt;
    var content := "";
    var mp3: Option<string> := None;
    if typ == PresentationType {
      var s := CompletionResult(c, net, TopicMessages(PresentationBrief, "Create a presentation about: ", prompt), "json_object");
      if s.Failure? { return Failure(s.error); }
      content := s.value;
    } else if typ == FlashcardsType {
      var s := CompletionResult(c, net, TopicMessages(FlashcardsBrief, "Create flashcards about: ", prompt), "json_object");
      if s.Failure? { return Failure(s.error); }
      content := s.value;
    } else if typ == SummaryType {
      var s := CompletionResult(c, net, TopicMessages(SummaryBrief, "Summarize this topic: ", prompt), "text");
      if s.Failure? { return Failure(s.error); }
      content := s.value;
    } else if typ == AudioType {
      var s := CompletionResult(c, net, AudioMessages(prompt), "text");
      if s.Failure? { return Failure(s.error); }
      content := s.value;
      var speech := GenerateSpeech(cfg, c, net, content);
      if speech.Success? {
        mp3 := Some(speech.value);
      }
    } else if typ == QuizType {
      var s := CompletionResult(c, net, QuizRequest(prompt), "json_object");
      if s.Failure? { return Failure(s.error); }
      var doc := svc.decodeQuiz(s.value);
      if !doc.QuizQuestions? {
        return Failure(InvalidJson);
      }
      content := BuildQuizXml(svc.escape, prompt, doc.questions);
    }
    return Success(Generated(content, mp3));
  }

  // ---------------------------------------------------------------------
  // The state transitions.

  /** The row as the claim leaves it: failed with `maxretries` at the
      retry ceiling, processing otherwise. */
  function ClaimedRow(row: QueueRow, now: int): QueueRow {
    if row.retries >= MaxRetries then
      row.(status := Failed, errormessage := Some(MaxRetriesMessage), timemodified := now)
    else
      row.(status := Processing, timemodified := now)
  }

  /** The row after a failed attempt: one more retry, the generic message,
      failed at the ceiling and pending again below it. */
  function RetriedRow(row: QueueRow, now: int): QueueRow {
    var n := row.retries + 1;
    row.(retries := n, errormessage := Some(GenericFailureMessage), timemodified := now,
         status := if n >= MaxRetries then Failed else Pending)
  }

  /** The catch block: the row is written back with its retry counted; below
      the ceiling one retry task is queued, at it the user is notified. */
  function AfterFailure(t: Tables, queueid: int, now: int): Tables
    requires queueid in t.queue
  {
    var row := RetriedRow(t.queue[queueid], now);
    t.(queue := t.queue[queueid := row],
       adhoc := if row.retries >= MaxRetries then t.adhoc
                else t.adhoc + [AdhocTask(queueid, Some(now + BackoffSeconds(row.retries)))],
       outbox := if row.retries >= MaxRetries then t.outbox + [Notice(row.userid, GenerationFailed)]
                 else t.outbox)
  }

  /** The content table after the commit transaction: the new version
      inserted, then the victims of the prune step deleted. */
  ghost function CommittedContent(t: Tables, row: QueueRow, text: string, now: int): map<int, ContentRow> {
    Committed(t.content, CurrentOf(t.content, row.geminiid), t.nextContentId,
              row.geminiid, row.typ, text, row.prompt, now)
  }

  /** The files written for the new version: the MP3 for audio when speech
      succeeded, the XML document for a quiz. */
  function SavedFiles(f: map<FileKey, string>, ctx: int, typ: string, newId: int, gen: Generated)
    : map<FileKey, string>
  {
    if typ == AudioType && gen.mp3.Some? then f[FileKey(ctx, Audio, newId) := gen.mp3.value]
    else if typ == QuizType then f[FileKey(ctx, Quiz, newId) := gen.content]
    else f
  }

  /** A successful attempt: commit and prune, save the file, delete the
      queue row and notify the user. */
  ghost function AfterSuccess(t: Tables, queueid: int, row: QueueRow, gen: Generated, now: int): Tables
    requires row.geminiid in t.instances
  {
    var c1 := CommittedContent(t, row, gen.content, now);
    var victims := PruneVictims(c1, row.geminiid);
    var ctx := t.instances[row.geminiid];
    t.(content := Without(c1, victims),
       files := SavedFiles(FilesWithout(t.files, ctx, victims), ctx, row.typ, t.nextContentId, gen),
       queue := t.queue - {queueid},
       outbox := t.outbox + [Notice(row.userid, ContentReady)],
       nextContentId := t.nextContentId + 1)
  }

  /** `execute()` from start to end. */
  ghost function Executed(t: Tables, queueid: int, cfg: Config, net: Net, svc: Services, now: int): Tables {
    if queueid !in t.queue then t
    else
      var row := t.queue[queueid];
      var claimed := ClaimedRow(row, now);
      var t1 := t.(queue := t.queue[queueid := claimed]);
      if row.retries >= MaxRetries then t1
      else
        match Attempt(t.instances, cfg, net, svc, row)
        case Failure(_) => AfterFailure(t1, queueid, now)
        case Success(gen) => AfterSuccess(t1, queueid, claimed, gen, now)
  }

  // ---------------------------------------------------------------------
  // Properties of the transitions.

  /** A missing row: the task returns and changes nothing. */
  lemma MissingRowIgnored(t: Tables, queueid: int, cfg: Config, net: Net, svc: Services, now: int)
    requires queueid !in t.queue
    ensures Executed(t, queueid, cfg, net, svc, now) == t
  {
  }

  /** A row at the retry ceiling is marked failed with `maxretries`, and
      nothing is generated, committed, scheduled or sent. */
  lemma CeilingStopsWithoutGenerating(t: Tables, queueid: int, cfg: Config, net: Net, svc: Services, now: int)
    requires queueid in t.queue && t.queue[queueid].retries >= MaxRetries
    ensures var t' := Executed(t, queueid, cfg, net, svc, now);
      && t' == t.(queue := t'.queue)
      && t'.queue.Keys == t.queue.Keys
      && t'.queue[queueid] == t.queue[queueid].(status := Failed, errormessage := Some(MaxRetriesMessage),
                                               timemodified := now)
  {
  }

  /** A claimed row is processing before the attempt starts. */
  lemma ClaimMarksProcessing(row: QueueRow, now: int)
    requires row.retries < MaxRetries
    ensures ClaimedRow(row, now).status == Processing
    ensures ClaimedRow(row, now).retries == row.retries
  {
  }

  /** On failure the counter goes up by exactly one and the stored message
      is always the generic one; at the ceiling the row fails for good with
      no retry scheduled and the user notified; below it the row is pending
      again and exactly one retry is queued after the backoff. */
  lemma FailureCountsRetry(t: Tables, queueid: int, cfg: Config, net: Net, svc: Services, now: int)
    requires queueid in t.queue
    requires t.queue[queueid].retries < MaxRetries
    requires Attempt(t.instances, cfg, net, svc, t.queue[queueid]).Failure?
    ensures var row := t.queue[queueid];
      var t' := Executed(t, queueid, cfg, net, svc, now);
      var n := row.retries + 1;
      && t'.queue.Keys == t.queue.Keys
      && t'.queue[queueid].retries == n
      && t'.queue[queueid].errormessage == Some(GenericFailureMessage)
      && t'.content == t.content && t'.files == t.files
      && (n >= MaxRetries ==>
            && t'.queue[queueid].status == Failed
            && t'.adhoc == t.adhoc
            && t'.outbox == t.outbox + [Notice(row.userid, GenerationFailed)])
      && (n < MaxRetries ==>
            && t'.queue[queueid].status == Pending
            && t'.adhoc == t.adhoc + [AdhocTask(queueid, Some(now + Pow2(n) * 60))]
            && t'.outbox == t.outbox)
  {
  }

  /** On success the queue row is gone, the new version is the only current
      row of its instance, numbered one past the previous current row and
      linked to it, and the user is told the content is ready. */
  lemma SuccessCommitsVersion(t: Tables, queueid: int, cfg: Config, net: Net, svc: Services, now: int)
    requires TablesOk(t)
    requires queueid in t.queue
    requires t.queue[queueid].retries < MaxRetries
    requires Attempt(t.instances, cfg, net, svc, t.queue[queueid]).Success?
    ensures var row := t.queue[queueid];
      var t' := Executed(t, queueid, cfg, net, svc, now);
      var c1 := CommittedContent(t, row, Attempt(t.instances, cfg, net, svc, row).value.content, now);
      var cur := CurrentOf(t.content, row.geminiid);
      && queueid !in t'.queue
      && t'.outbox == t.outbox + [Notice(row.userid, ContentReady)]
      && t'.adhoc == t.adhoc
      && AtMostOneCurrent(c1)
      && CurrentIds(c1, row.geminiid) == {t.nextContentId}
      && c1[t.nextContentId].version == (if cur.Some? then t.content[cur.value].version + 1 else 1)
      && c1[t.nextContentId].parentId == cur
      && t'.content == Without(c1, PruneVictims(c1, row.geminiid))
  {
    var row := t.queue[queueid];
    var gen := Attempt(t.instances, cfg, net, svc, row).value;
    var claimed := ClaimedRow(row, now);
    var t1 := t.(queue := t.queue[queueid := claimed]);
    assert CommittedContent(t1, claimed, gen.content, now) == CommittedContent(t, row, gen.content, now);
    CommitLeavesOneCurrent(t.content, CurrentOf(t.content, row.geminiid), t.nextContentId,
                           row.geminiid, row.typ, gen.content, row.prompt, now);
  }

  /** A speech failure loses only the audio file: the script is committed
      and no MP3 is stored for the new version. */
  lemma AudioWithoutSpeechStoresNoFile(f: map<FileKey, string>, ctx: int, newId: int, script: string)
    requires FileKey(ctx, Audio, newId) !in f
    ensures FileKey(ctx, Audio, newId) !in SavedFiles(f, ctx, AudioType, newId, Generated(script, None))
    ensures SavedFiles(f, ctx, AudioType, newId, Generated(script, None)) == f
  {
  }

  /** The quiz document is stored as the quiz file of the new version. */
  lemma QuizFileStored(f: map<FileKey, string>, ctx: int, newId: int, gen: Generated)
    ensures SavedFiles(f, ctx, QuizType, newId, gen)[FileKey(ctx, Quiz, newId)] == gen.content
  {
  }

  /** Every run of the task keeps the invariant of the tables. */
  lemma ExecutedKeepsTablesOk(t: Tables, queueid: int, cfg: Config, net: Net, svc: Services, now: int)
    requires TablesOk(t)
    ensures TablesOk(Executed(t, queueid, cfg, net, svc, now))
  {
    if queueid in t.queue {
      var row := t.queue[queueid];
      var claimed := ClaimedRow(row, now);
      var t1 := t.(queue := t.queue[queueid := claimed]);
      ClaimKeepsTablesOk(t, queueid, now);
      if row.retries < MaxRetries {
        match Attempt(t.instances, cfg, net, svc, row)
        case Failure(_) =>
          FailureKeepsTablesOk(t1, queueid, now);
        case Success(gen) =>
          SuccessKeepsTablesOk(t1, queueid, claimed, gen, now);
      }
    }
  }

  lemma ClaimKeepsTablesOk(t: Tables, queueid: int, now: int)
    requires TablesOk(t) && queueid in t.queue
    ensures TablesOk(t.(queue := t.queue[queueid := ClaimedRow(t.queue[queueid], now)]))
  {
  }

  lemma FailureKeepsTablesOk(t: Tables, queueid: int, now: int)
    requires TablesOk(t) && queueid in t.queue && t.queue[queueid].retries < MaxRetries
    ensures TablesOk(AfterFailure(t, queueid, now))
  {
    assert RowOk(RetriedRow(t.queue[queueid], now));
  }

  lemma SuccessKeepsTablesOk(t: Tables, queueid: int, row: QueueRow, gen: Generated, now: int)
    requires TablesOk(t) && row.geminiid in t.instances
    ensures TablesOk(AfterSuccess(t, queueid, row, gen, now))
  {
    var c1 := CommittedContent(t, row, gen.content, now);
    CommitLeavesOneCurrent(t.content, CurrentOf(t.content, row.geminiid), t.nextContentId,
                           row.geminiid, row.typ, gen.content, row.prompt, now);
    WithoutKeepsOneCurrent(c1, PruneVictims(c1, row.geminiid));
  }

  // ---------------------------------------------------------------------
  // The task, step by step.

  /** The claim: read the row, stop at the retry ceiling, otherwise mark it
      processing. Returns the claimed row when the attempt goes ahead. */
  method Claim(db: Database, queueid: int, now: int) returns (claimed: Option<QueueRow>)
    modifies db
    ensures queueid !in old(db.queue) ==> claimed.None? && db.Snapshot() == old(db.Snapshot())
    ensures queueid in old(db.queue) ==>
      var row := old(db.queue)[queueid];
      && db.Snapshot() == old(db.Snapshot()).(queue := old(db.queue)[queueid := ClaimedRow(row, now)])
      && (claimed.Some? <==> row.retries < MaxRetries)
      && (claimed.Some? ==> claimed.value == ClaimedRow(row, now))
  {
    if queueid !in db.queue {
      return None;
    }
    var row := db.queue[queueid];
    if row.retries >= MaxRetries {
      row := row.(status := Failed, errormessage := Some(MaxRetriesMessage), timemodified := now);
      db.queue := db.queue[queueid := row];
      return None;
    }
    row := row.(status := Processing, timemodified := now);
    db.queue := db.queue[queueid := row];
    return Some(row);
  }

  /** The catch block. */
  method RecordFailure(db: Database, queueid: int, row: QueueRow, now: int)
    requires queueid in db.queue && db.queue[queueid] == row
    modifies db
    ensures db.Snapshot() == AfterFailure(old(db.Snapshot()), queueid, now)
  {
    var r := row.(retries := row.retries + 1);
    r := r.(errormessage := Some(GenericFailureMessage), timemodified := now);
    if r.retries >= MaxRetries {
      r := r.(status := Failed);
      db.queue := db.queue[queueid := r];
      db.outbox := db.outbox + [Notice(r.userid, GenerationFailed)];
    } else {
      var delay := Pow2(r.retries) * 60;
      r := r.(status := Pending);
      db.queue := db.queue[queueid := r];
      db.adhoc := db.adhoc + [AdhocTask(queueid, Some(now + delay))];
    }
  }

  /** The commit transaction: demote the current row and insert the new
      version after it. Returns the new row's id. */
  method Commit(db: Database, row: QueueRow, text: string, now: int) returns (newId: int)
    requires db.Valid()
    modifies db
    ensures newId == old(db.nextContentId)
    ensures db.Snapshot() == old(db.Snapshot()).(content := CommittedContent(old(db.Snapshot()), row, text, now),
                                                 nextContentId := newId + 1)
  {
    var g := row.geminiid;
    var cur := FindCurrent(db.content, g);
    var next := 1;
    if cur.Some? {
      next := db.content[cur.value].version + 1;
      db.content := db.content[cur.value := db.content[cur.value].(isCurrent := false)];
    }
    newId := db.nextContentId;
    db.content := db.content[newId := ContentRow(g, row.typ, text, row.prompt, next, cur, true, now, now)];
    db.nextContentId := newId + 1;
  }

  /** `delete_area_files` for one area of one item. */
  function AreaItemDeleted(f: map<FileKey, string>, ctx: int, area: Area, item: int): map<FileKey, string> {
    map k | k in f && !(k.contextid == ctx && k.area == area && k.itemid == item) :: f[k]
  }

  /** Deleting both areas of one more victim extends the deleted set by it. */
  lemma FilesStep(f: map<FileKey, string>, ctx: int, done: set<int>, v: int)
    ensures AreaItemDeleted(AreaItemDeleted(FilesWithout(f, ctx, done), ctx, Audio, v), ctx, Quiz, v)
         == FilesWithout(f, ctx, done + {v})
  {
  }

  lemma ContentStep(c: map<int, ContentRow>, done: set<int>, v: int)
    ensures (map id | id in Without(c, done) && id != v :: Without(c, done)[id]) == Without(c, done + {v})
  {
  }

  /** The prune step: delete each victim row and both of its file areas. */
  method Prune(db: Database, ctx: int, victims: set<int>)
    modifies db
    ensures db.Snapshot() == old(db.Snapshot()).(content := Without(old(db.content), victims),
                                                 files := FilesWithout(old(db.files), ctx, victims))
  {
    var c0, f0 := db.content, db.files;
    var content, files := c0, f0;
    var todo := victims;
    ghost var done: set<int> := {};
    assert content == Without(c0, done);
    assert files == FilesWithout(f0, ctx, done);
    while todo != {}
      invariant done == victims - todo && todo <= victims
      invariant content == Without(c0, done)
      invariant files == FilesWithout(f0, ctx, done)
      invariant unchanged(db)
      decreases |todo|
    {
      HasElement(todo);
      var v :| v in todo;
      FilesStep(f0, ctx, done, v);
      ContentStep(c0, done, v);
      files := AreaItemDeleted(files, ctx, Audio, v);
      files := AreaItemDeleted(files, ctx, Quiz, v);
      content := map id | id in content && id != v :: content[id];
      todo := todo - {v};
      done := done + {v};
    }
    assert done == victims;
    db.content, db.files := content, files;
  }

  /** The success path: commit, prune, save the file, delete the queue row
      and notify the user. */
  method RecordSuccess(db: Database, queueid: int, row: QueueRow, gen: Generated, now: int)
    requires db.Valid()
    requires row.geminiid in db.instances
    modifies db
    ensures db.Snapshot() == AfterSuccess(old(db.Snapshot()), queueid, row, gen, now)
  {
    var ctx := db.instances[row.geminiid];
    var newId := Commit(db, row, gen.content, now);
    var victims := PruneVictims(db.content, row.geminiid);
    Prune(db, ctx, victims);
    if row.typ == AudioType && gen.mp3.Some? {
      db.files := db.files[FileKey(ctx, Audio, newId) := gen.mp3.value];
    } else if row.typ == QuizType {
      db.files := db.files[FileKey(ctx, Quiz, newId) := gen.content];
    }
    db.queue := db.queue - {queueid};
    db.outbox := db.outbox + [Notice(row.userid, ContentReady)];
  }

  /** `execute()`: the tables end as `Executed` says and stay valid. */
  method Execute(db: Database, queueid: int, cfg: Config, net: Net, svc: Services, now: int)
    requires db.Valid()
    modifies db
    ensures db.Snapshot() == Executed(old(db.Snapshot()), queueid, cfg, net, svc, now)
    ensures db.Valid()
  {
    ghost var t := db.Snapshot();
    ExecutedKeepsTablesOk(t, queueid, cfg, net, svc, now);
    var claimed := Claim(db, queueid, now);
    if claimed.None? {
      return;
    }
    var row := claimed.value;
    assert db.Valid();
    assert Attempt(t.instances, cfg, net, svc, row) == Attempt(t.instances, cfg, net, svc, t.queue[queueid]);
    var r := Generate(db.instances, cfg, net, svc, row);
    if r.Failure? {
      RecordFailure(db, queueid, row, now);
    } else {
      RecordSuccess(db, queueid, row, r.value, now);
    }
  }
}
