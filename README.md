# moodle-mod-gemini: the asynchronous generation pipeline, in Dafny

This project models the core of the Moodle activity plugin `mod_gemini`,
which generates teaching content with a language model. A teacher's request
goes through the AJAX endpoint `ajax.php`. The endpoint checks a rate
limiter, inserts a `gemini_queue` row and queues the adhoc task
`generate_content`. The task claims the row, asks the model client
`gemini_client` for the content, and commits the result as a new version in
`gemini_content`. It then prunes old versions, stores the audio or quiz file
and deletes the queue row. A failed attempt is counted and retried with
exponential backoff, up to five times. The model also covers:

- the endpoint's status, reset, update, restore and chat actions;
- the SSRF guard of the client;
- the 30-day `cleanup_task`;
- two browser scripts: the flashcard viewer and the generation page.

The modules follow the source files:

| module | file | models |
|---|---|---|
| `Store` | (tables) | the tables as maps in one `Database` class, with the invariant `TablesOk`: statuses, the retry ceiling, at most one current row per instance |
| `Versions` | `classes/task/generate_content.php`, `ajax.php` | version commit, pruning as written and as intended, restore |
| `QuizExport` | `classes/task/generate_content.php` | `$escape_cdata` and the Moodle-XML construction |
| `GeminiClient` | `classes/service/gemini_client.php` | base-URL normalization, `validate_url`, request assembly and response extraction, chat messages, the TTS URL fallback |
| `Worker` | `classes/task/generate_content.php` | `execute()`: claim, generation, commit and prune, files, failure and backoff |
| `RateLimit` | `ajax.php` | the fixed-window limiters over the MUC cache |
| `Ajax` | `ajax.php` | each action and the catch-all error mapping |
| `Cleanup` | `classes/task/cleanup_task.php` | `execute()` |
| `Viewer` | `amd/build/viewer.min.js` | the flashcard index state machine and its navigation |
| `Generator` | `amd/build/generator.min.js` | the chip merge, enqueue guards, status-poll decision and poll timer |
| `Text`, `Moodle`, `Wrappers`, `Sets` | | string operations of PHP and JavaScript, the plugin's error keys and decoded JSON documents, Option/Result |

The collaborators the code cannot see are function-valued parameters:

- DNS, `parse_url`, the address parsing of `filter_var`, the HTTP
  transport and PHP's printing of decoded JSON numbers are a `Net` value.
  The private and reserved ranges `filter_var` rejects are written out
  (`GeminiClient.IsPublic`), as PHP's manual lists them.
- `s()`, `strip_tags`, `clean_param`, `format_text` and the JSON document
  decoders are a `Services` value.
- The clock is a `now` parameter. Every `time()` of one run reads the same
  value.

Each state-changing method is specified by a pure or ghost function of the
old tables, for example `db.Snapshot() == Executed(old(db.Snapshot()), ...)`.
The lemmas about those functions state what the source promises.

Several places where the code differs from its comments are modelled as
written, and the difference is proved as a lemma:

- The backoff comment promises a first wait of one minute, but the code's
  waits are 2, 4, 8 and 16 minutes (`Worker.NoRetryAfterOneMinute`).
- Pruning passes `10` as `limitfrom`. It therefore fires only at twenty
  rows, and then it deletes the ten newest rows, the new version among them
  (`Versions.PruneAsWritten`, `Versions.NewestRowPrunedAsWritten`). The
  comment's intent, keeping the ten newest, is `Versions.IntendedVictims`.
- `action` is cleaned with PARAM_ALPHA, which keeps letters only. The
  names `check_status`, `chat_clear` and `restore_version` that the pages
  send therefore arrive without their `_` and match no branch
  (`Ajax.UnderscoredActionsUnreachable`, `Ajax.PageActionsUnknown`). The
  intended endpoint, cleaning with PARAM_ALPHAEXT, is `Ajax.HandleIntended`.
- `has_newly_completed` can never be true, because no code writes status 2
  (`Ajax.NeverNewlyCompleted`).
- `validate_url` passes when a host has no candidate address at all
  (`GeminiClient.FailsOpenWithoutCandidates`).
- Every exception, the rate-limit ones included, is reported with the
  generic message (`Ajax.RateLimitsReportedGenerically`).
- A commit after a restore numbers the new row one past the restored row,
  which can repeat an existing version (`Versions.VersionReusedAfterRestore`).
  Numbering one past the instance's highest version would never repeat one
  (`Versions.FreshCommitNeverRepeats`).

The chip merge follows JavaScript to the letter. `String.prototype.replace`
expands `$$`, `$&`, `` $` `` and `$'` in the text it inserts, so text with
`$` is not always inserted verbatim (`Generator.DollarPairCollapses`).
`.length` counts UTF-16 code units, so three emoji are long enough to keep
(`Generator.AstralTextKept`).

## Model

| member | source | states |
|---|---|---|
| Store.FilesWithout | classes/task/generate_content.php:199-202 | a file survives exactly when it is outside the context or its item is not deleted; surviving files keep their contents |
| Store.AreasCleared | ajax.php:154-156 | exactly the files of other contexts survive, unchanged |
| Store.Database.constructor | ajax.php:107 | the model's initial state: the tables start empty, the id `insert_record` assigns next starts at 1, and the invariant holds |
| Versions.InstanceIds | classes/task/generate_content.php:180-181 | the ids of an instance's rows are rows of the table |
| Versions.CurrentIds | classes/task/generate_content.php:149-150 | the current ids of an instance are a subset of its rows |
| Versions.CurrentIdsAtMostOne | classes/task/generate_content.php:149-150 | under the invariant, an instance has at most one current row |
| Versions.CurrentOf | classes/task/generate_content.php:149-150 | the lookup returns the current row of the instance when there is one, and none otherwise |
| Versions.FindCurrent | ajax.php:161 | the row found is the one the lookup returns |
| Versions.CommitLeavesOneCurrent | classes/task/generate_content.php:149-174 | after the demote and insert, the new row is the only current row of its instance; its version is the previous current version plus 1, or 1 without one; its parent is the previous current row; the previous current row is only demoted; the table gains exactly the new id |
| Versions.Skipped | classes/task/generate_content.php:180-184 | the rows the listing skips belong to the instance |
| Versions.SkippedCount | classes/task/generate_content.php:180-184 | with `n` rows, `limitfrom` 10 returns `n - 10` rows, or none |
| Versions.PruneVictims | classes/task/generate_content.php:186-205 | the rows deleted as written belong to the instance |
| Versions.IntendedVictims | classes/task/generate_content.php:179 | the rows the comment means to delete belong to the instance |
| Versions.Without | classes/task/generate_content.php:199-205 | exactly the victims are deleted, and the remaining rows are unchanged |
| Versions.WithoutKeepsOneCurrent | classes/task/generate_content.php:199-205 | deleting rows keeps "at most one current row per instance" |
| Versions.PruneAsWritten | classes/task/generate_content.php:180-205 | below twenty rows nothing is deleted; from twenty rows on, the deleted rows are exactly the ten at the head of the listing |
| Versions.NewestRowPrunedAsWritten | classes/task/generate_content.php:180-205 | from twenty rows on, a row whose version is strictly the highest is deleted; without a restore that is the row just inserted |
| Versions.IntendedKeepsNewest | classes/task/generate_content.php:179 | the intended pruning keeps min(n, 10) rows, and every kept row precedes every deleted one in `version DESC` order |
| Versions.VersionReusedAfterRestore | classes/task/generate_content.php:153-155 | a concrete table in which a commit after restoring version 1 gives a second row with version 2 |
| Versions.MaxVersionIn | classes/task/generate_content.php:153-155 | bounds every version in the set |
| Versions.FreshVersion | classes/task/generate_content.php:153-155 | a number above every version of the instance, for contrast with the code's numbering |
| Versions.FreshCommitNeverRepeats | classes/task/generate_content.php:149-174 | a commit renumbered with that number gives its new row a version above every other row of the instance, so no version repeats |
| Versions.ClearedCurrent | ajax.php:356 | the bulk update keeps every row id |
| Versions.RestoreLeavesOnlyTarget | ajax.php:355-361 | after a restore, the target is the only current row of its instance; every id is kept; rows of other instances are unchanged |
| QuizExport.PlainRoundTrip | classes/task/generate_content.php:109-111 | a text without `]]>` is written in one section and read back unchanged |
| QuizExport.SectionRoundTrip | classes/task/generate_content.php:109-111 | for every text, reading the concatenated CDATA sections written for it returns the text |
| QuizExport.EscapeAfterGreater | classes/task/generate_content.php:110 | escaping distributes over a leading `>` |
| QuizExport.RenderAppend | classes/task/generate_content.php:113-139 | rendering lines is a homomorphism over concatenation |
| QuizExport.RenderWrongAnswers | classes/task/generate_content.php:131-136 | the inner loop produces the rendered incorrect-answer blocks |
| QuizExport.RenderQuestion | classes/task/generate_content.php:118-137 | one question's output is its rendered lines |
| QuizExport.BuildQuizXml | classes/task/generate_content.php:113-139 | the nested loops build exactly the specified document |
| QuizExport.WrongAnswersCount | classes/task/generate_content.php:131-136 | each incorrect answer gives one `fraction="0"` answer, and no other question or answer |
| QuizExport.QuestionCountOpen | classes/task/generate_content.php:118 | a question's lines open exactly one multichoice question |
| QuizExport.QuestionCountCorrect | classes/task/generate_content.php:127 | a question's lines hold exactly one `fraction="100"` answer |
| QuizExport.QuestionCountWrong | classes/task/generate_content.php:131-136 | a question's lines hold one `fraction="0"` answer per incorrect answer |
| QuizExport.HeaderCounts | classes/task/generate_content.php:113-116 | the header holds no multichoice question and no answer |
| QuizExport.QuizCounts | classes/task/generate_content.php:113-139 | the document holds one multichoice question per input question, as many correct answers, and one incorrect answer line per incorrect answer |
| QuizExport.QuestionTextsRecoverable | classes/task/generate_content.php:120-128 | the question text and the correct answer are read back exactly from their CDATA sections |
| QuizExport.QuizContent | classes/task/generate_content.php:101-140 | undecodable JSON or a missing `questions` key fails with `invalidjson`; otherwise the result is the document for the decoded questions |
| GeminiClient.V6Addresses | classes/service/gemini_client.php:64-71 | the AAAA addresses are at most one per record |
| GeminiClient.CollectCandidates | classes/service/gemini_client.php:55-76 | the loops collect the IPv4 answer when it differs from the host, then every AAAA address, then the host itself when it is an IP literal |
| GeminiClient.ValidateUrl | classes/service/gemini_client.php:40-101 | the method computes the guard's verdict |
| GeminiClient.UrlVerdictPass | classes/service/gemini_client.php:40-101 | a URL passes exactly when it has a host, every candidate is a valid address outside the private and reserved ranges (IPv4 10/8, 172.16/12, 192.168/16, 0/8, 127/8, 169.254/16, 240/4; IPv6 `::`, `::1`, `::ffff:0:0/96`, `fe80::/10`, `fc00::/7`), and its scheme is absent, `http` or `https` |
| GeminiClient.EveryCandidateChecked | classes/service/gemini_client.php:79-94 | any one non-public candidate, at whatever position, blocks the URL with `ssrfblocked` |
| GeminiClient.FailsOpenWithoutCandidates | classes/service/gemini_client.php:58-60 | a host with no candidate address and an allowed scheme passes |
| GeminiClient.BracketedLoopbackPasses | classes/service/gemini_client.php:43-79 | with `parse_url` keeping IPv6 brackets, `http://[::1]/` passes although `::1` itself would be blocked |
| GeminiClient.UrlVerdictFailClosed | classes/service/gemini_client.php:79-100 | a fail-closed guard passes only what the written guard passes |
| GeminiClient.FailClosedChecksSomething | classes/service/gemini_client.php:79-100 | under the fail-closed guard, a passing URL has at least one checked candidate, and all of them are public |
| GeminiClient.NormalizeBase | classes/service/gemini_client.php:24-27 | the result ends in `/`; `/` is appended exactly when the URL does not already end in one |
| GeminiClient.NormalizeBaseIdempotent | classes/service/gemini_client.php:24-27 | normalizing twice is normalizing once |
| GeminiClient.ClientFor | classes/service/gemini_client.php:18-31 | the constructor succeeds exactly when the normalized base URL passes the guard, and then it holds the key, the model and that normalized URL; otherwise it fails with the guard's own error, `invalidurl` or `ssrfblocked` |
| GeminiClient.NewClient | classes/service/gemini_client.php:18-31 | the constructor method returns the specified client or error |
| GeminiClient.CompletionRequestFor | classes/service/gemini_client.php:118-136 | the URL is the base plus `chat/completions`; `response_format` is sent exactly for `json_object`; the messages, key and model are passed through |
| GeminiClient.ChoiceContentOfCompletion | classes/service/gemini_client.php:162-163 | a first choice whose content is set yields it as text: a string unchanged, a number as PHP prints it, a boolean as "1" or ""; null content is not set |
| GeminiClient.ChoiceContentWithoutChoices | classes/service/gemini_client.php:162-166 | a response without `choices` yields nothing |
| GeminiClient.CompletionResult | classes/service/gemini_client.php:148-166 | a non-200 status gives `apierror` with that code; an undecodable body gives `invalidjson`; a missing content gives `apiinvalidresponse`; otherwise the result is `choices[0].message.content` as text |
| GeminiClient.ChatListShape | classes/service/gemini_client.php:240-252 | the list's length is the history's plus 2; the instructions, which hold the context, come first, then the history in order, then the question |
| GeminiClient.ChatMessages | classes/service/gemini_client.php:245-252 | the appending loop builds exactly the list |
| GeminiClient.ChatWithContent | classes/service/gemini_client.php:239-255 | the result is the text completion of the chat list |
| GeminiClient.TtsFallback | classes/service/gemini_client.php:298-307 | the fallback URL always ends with `/audio/speech` |
| GeminiClient.TtsFallbackPlainBase | classes/service/gemini_client.php:298-307 | a base URL ending in `/` without the endpoint gets `audio/speech` appended |
| GeminiClient.EndpointFirstAfter | classes/service/gemini_client.php:301 | in `p + "chat/completions" + q`, with `p` free of the endpoint, the first occurrence is right after `p` |
| GeminiClient.TtsFallbackFromEndpointUrl | classes/service/gemini_client.php:298-307 | a base URL configured as the full endpoint gives `p + "/audio/speech"` |
| GeminiClient.SpeechRequestFor | classes/service/gemini_client.php:297-325 | the speech request goes to the `ttsurl` setting or the fallback; model and voice default to `tts-1` and `alloy` when PHP-empty |
| GeminiClient.SpeechResult | classes/service/gemini_client.php:309-345 | a blocked speech URL fails with the guard's error; a non-200 status gives `apierror`; otherwise the result is the response body |
| GeminiClient.GenerateSpeech | classes/service/gemini_client.php:294-346 | the method returns the specified speech result |
| Worker.Pow2 | classes/task/generate_content.php:300 | `pow(2, n)` is at least 1 |
| Worker.BackoffDoubles | classes/task/generate_content.php:300-301 | each further failure doubles the delay |
| Worker.BackoffSchedule | classes/task/generate_content.php:298-312 | the scheduled retries wait 120, 240, 480 and 960 seconds |
| Worker.NoRetryAfterOneMinute | classes/task/generate_content.php:268-301 | every scheduled retry waits at least two minutes, whatever the comment says |
| Worker.Generation | classes/task/generate_content.php:76-142 | only an audio attempt carries MP3 data |
| Worker.Attempt | classes/task/generate_content.php:64-142 | success needs the instance; a client that fails to build fails the attempt with its own error |
| Worker.AudioSpeechFailureSwallowed | classes/task/generate_content.php:86-98 | when speech fails, the audio attempt still succeeds with the script and no MP3 |
| Worker.QuizWithoutQuestionsFails | classes/task/generate_content.php:100-107 | a quiz reply that is not JSON, or has no `questions`, fails with `invalidjson` |
| Worker.UnknownTypeCommitsEmpty | classes/task/generate_content.php:70-142 | a type outside the five succeeds with empty content |
| Worker.BlockedBaseUrlIsRetried | classes/task/generate_content.php:64-69 | a blocked base URL fails the attempt with `ssrfblocked`, so it enters the retry path |
| Worker.Generate | classes/task/generate_content.php:64-142 | the step-by-step generation returns the specified attempt |
| Worker.MissingRowIgnored | classes/task/generate_content.php:44-47 | a missing queue row changes nothing |
| Worker.CeilingStopsWithoutGenerating | classes/task/generate_content.php:49-57 | at the ceiling, only the row changes, to failed with `maxretries` |
| Worker.ClaimMarksProcessing | classes/task/generate_content.php:59-62 | below the ceiling, the row is processing before generation, with its retry count |
| Worker.FailureCountsRetry | classes/task/generate_content.php:263-314 | retries go up by exactly 1 and the message is the generic one; content and files are untouched; at 5 the row fails, no task is queued and one failure notice is sent; below 5 the row is pending and exactly one retry is queued at `now + 2^retries * 60` |
| Worker.SuccessCommitsVersion | classes/task/generate_content.php:146-261 | on success the queue row is gone and one ready notice is sent; the new row is the instance's only current row, with the next version and its parent link; the content table is the commit with the prune victims removed |
| Worker.AudioWithoutSpeechStoresNoFile | classes/task/generate_content.php:216-229 | an audio attempt without MP3 adds no file |
| Worker.QuizFileStored | classes/task/generate_content.php:230-243 | the quiz document is stored as the quiz file of the new row |
| Worker.ExecutedKeepsTablesOk | classes/task/generate_content.php:36-316 | every run of the task keeps the tables' invariant |
| Worker.Claim | classes/task/generate_content.php:44-62 | the claim step writes the claimed row, or nothing when the row is missing |
| Worker.RecordFailure | classes/task/generate_content.php:263-314 | the catch block writes the specified failure state |
| Worker.Commit | classes/task/generate_content.php:146-174 | the transaction's update and insert write the specified content table |
| Worker.FilesStep | classes/task/generate_content.php:201-202 | one loop step removes exactly one item's files |
| Worker.ContentStep | classes/task/generate_content.php:204 | one loop step removes exactly one row |
| Worker.Prune | classes/task/generate_content.php:186-205 | the delete loop removes exactly the victims' rows and files |
| Worker.RecordSuccess | classes/task/generate_content.php:146-261 | the success path writes the specified state |
| Worker.Execute | classes/task/generate_content.php:36-316 | the task's new tables are the specified run of `execute()`, and the invariant holds |
| RateLimit.KeysDistinct | ajax.php:66-207 | the generation and chat keys never collide, for any two users |
| RateLimit.Decide | ajax.php:68-96 | a request is rejected exactly when the effective window's count has reached the limit; an admitted request stores count + 1 with the same window start |
| RateLimit.ExpiredWindowRestarts | ajax.php:71-86 | a missing or expired entry starts a new window at `now` with count 1 |
| RateLimit.CountStaysWithinLimit | ajax.php:89-96 | an admitted count stays within the limit |
| RateLimit.Replay | ajax.php:68-96 | a run admits at most as many requests as it has |
| RateLimit.WindowCap | ajax.php:68-96 | within one window, at most `limit - count` more requests are admitted, and the window is never restarted |
| RateLimit.HourCap | ajax.php:60-96 | from an empty cache, requests within one hour of the first are admitted at most `limit` times |
| RateLimit.ReplayFrom | ajax.php:68-96 | replaying two runs is replaying the second from where the first left off |
| RateLimit.RateCache.constructor | ajax.php:65 | the cache starts empty |
| RateLimit.RateCache.Hit | ajax.php:68-96 | a hit admits exactly as specified, stores only the key's new window, and writes nothing on rejection |
| Ajax.ParseAction | ajax.php:55-375 | each of the seven modelled names selects its own branch and no other name does; the rubric, version list and grade names are outside the model; every other name is unknown |
| Ajax.LettersParse | ajax.php:31-375 | a name of letters only selects a modelled branch or none, and never `check_status`, `chat_clear` or `restore_version` |
| Ajax.UnderscoredActionsUnreachable | ajax.php:31-342 | whatever `action` is sent, PARAM_ALPHA cleaning means the written endpoint never runs `check_status`, `chat_clear` or `restore_version` |
| Ajax.JoinedNameUnknown | ajax.php:31-375 | a name of letters around one `_` is cleaned to the letters alone, and runs nothing when those name no branch |
| Ajax.PageActionsUnknown | ajax.php:31-342 | the three names the pages send (`check_status`, `chat_clear`, `restore_version`) are unknown to the written endpoint |
| Ajax.IntendedActionsReached | ajax.php:31-375 | with PARAM_ALPHAEXT cleaning, a name of letters, `_` and `-` reaches exactly the branch named by it |
| Ajax.PageActionsReached | ajax.php:118-342 | with PARAM_ALPHAEXT cleaning, each of the three names the pages send reaches its own branch |
| Ajax.Respond | ajax.php:52-382 | success exactly when the action succeeds, with its message and data; any error gives `success = false`, the generic message and no data |
| Ajax.RateLimitsReportedGenerically | ajax.php:89-381 | rate-limit errors give the same response as any other error |
| Ajax.GenerateAction | ajax.php:55-116 | given the type as its caller cleaned it: an empty prompt or type fails without touching the cache or the tables; otherwise the limiter decides; an admitted request enqueues the row and its task and replies `queueid` |
| Ajax.RejectedGenerateChangesNothing | ajax.php:56-92 | a rejected request leaves the tables unchanged |
| Ajax.EnqueueAddsOnePendingRow | ajax.php:98-112 | an admitted request adds exactly one pending row with no retries under a fresh id, and one task for it; the invariant holds |
| Ajax.CleanedTypeStored | ajax.php:33-112 | with `type` cleaned by PARAM_ALPHA, every row `generate` adds has a type of letters only |
| Ajax.TypeCleaning | ajax.php:33-57 | `quiz_` is cleaned to `quiz`; `__` is cleaned to the empty string, which the emptiness test rejects |
| Ajax.StatusReport | ajax.php:118-149 | the report the `check_status` branch would build, reached only by the corrected endpoint: the tasks are exactly the instance's rows with status 0 or 1, counted; the errors are exactly its failed rows modified within the last minute; `has_newly_completed` holds exactly when a status-2 row was modified within the last minute |
| Ajax.NeverNewlyCompleted | ajax.php:127-134 | under the invariant, `has_newly_completed` is never true |
| Ajax.TasksAndErrorsDisjoint | ajax.php:120-141 | no row is both a pending task and an error |
| Ajax.EnqueuedIsPending | ajax.php:98-124 | a newly queued row is reported as a task at once |
| Ajax.GiveUpReported | ajax.php:137-141 | a row the worker gives up on is reported as an error for the next minute |
| Ajax.ClaimedReportedPending | ajax.php:120-124 | a claimed row is still reported as a task |
| Ajax.ResetClearsInstance | ajax.php:151-157 | after a reset, the instance has no content, no queue rows and no files; other instances are untouched; the invariant holds |
| Ajax.ResetAction | ajax.php:151-157 | the action writes the reset tables and succeeds |
| Ajax.EditIsNotAVersion | ajax.php:159-168 | an edit keeps the row's version, parent and current flag, replaces its text; every instance keeps its current rows |
| Ajax.UpdateAction | ajax.php:159-168 | a missing `content` fails with nothing changed; no current row fails with the record missing; otherwise the current row is edited |
| Ajax.RestoreAction | ajax.php:342-371 | the `restore_version` branch, reached only by the corrected endpoint: a missing id fails; a row not of this instance fails before any write; otherwise the table is the restore of that row |
| Ajax.TruncateMessageBounds | ajax.php:191-194 | the message is at most 1000 characters, is a prefix of the original, and a short message is kept whole |
| Ajax.TruncateContextBounds | ajax.php:284-287 | the context is at most 8000 characters plus the marker; a short one is kept; a long one is its first 8000 characters followed by the marker |
| Ajax.NextHistoryShape | ajax.php:296-303 | the history gains the question and then the answer, as its last two entries, and holds at most 20 entries |
| Ajax.FullHistoryDropsOldest | ajax.php:300-303 | a full history drops exactly its two oldest entries |
| Ajax.ContextFor | ajax.php:239-282 | only presentations and flashcards can fail, and only with `invalidjson` |
| Ajax.NotesShownWhenPresent | ajax.php:250-255 | a slide's notes line appears exactly when the notes are present and not PHP-empty |
| Ajax.SlidesTextSnoc | ajax.php:249-256 | a further slide appends exactly its own text |
| Ajax.CardsTextSnoc | ajax.php:266-270 | a further card appends exactly its own text |
| Ajax.AppendSlide | ajax.php:250-255 | one slide's `.=` lines append its text |
| Ajax.BuildPresentationContext | ajax.php:247-257 | the loop builds the header followed by every slide's text |
| Ajax.AppendCard | ajax.php:267-269 | one card's `.=` lines append its text |
| Ajax.BuildFlashcardsContext | ajax.php:264-271 | the loop builds the header followed by every card's text |
| Ajax.BuildContext | ajax.php:239-282 | the switch produces the specified context |
| Ajax.ChatExchange | ajax.php:284-291 | the exchange is the model's answer on the truncated context |
| Ajax.ChatCheckOrder | ajax.php:184-230 | an empty message is rejected first; then a missing current row; then the chat limit |
| Ajax.ChatQuestion | ajax.php:184-194 | no question exactly when the cleaned message is missing or PHP-empty; otherwise it is the cleaned message cut to 1000 characters |
| Ajax.OpenHistory | ajax.php:232-237 | the stored history, or an empty one that is then stored |
| Ajax.RecordExchange | ajax.php:296-303 | the history is appended and trimmed as specified |
| Ajax.ChatRespond | ajax.php:232-310 | the session always keeps the opened history; an answer extends it with the exchange, and the reply carries the formatted answer and the new history length; a failed answer fails with its error |
| Ajax.ChatAction | ajax.php:182-311 | a rejected message writes nothing and fails with its reason; otherwise one chat hit is recorded, and then the exchange runs |
| Ajax.ChatClearAction | ajax.php:312-318 | the `chat_clear` branch, reached only by the corrected endpoint: only this user's history for this instance is emptied, and the reply is `chat_cleared` |
| Ajax.Session.constructor | ajax.php:232-236 | the session starts with no histories |
| Ajax.Dispatch | ajax.php:52-382 | for an action already decoded: the invariant holds after it; an unknown action changes nothing and replies `success = false` with an empty message; any failing action replies with the generic message; `check_status` replies with the report and changes no table; `generate` gives the tables `Generated` computes from the PARAM_ALPHA-cleaned type, so every row it adds has a letters-only type |
| Ajax.Handle | ajax.php:31-382 | the written endpoint, which cleans `action` with PARAM_ALPHA: the invariant holds; the report, the chat clear and the restore never run; each of the three names the pages send changes nothing and replies `success = false` with an empty message; any other failing action replies with the generic message; `generate` uses the PARAM_ALPHA-cleaned type, and every queue row it adds has a letters-only type |
| Ajax.HandleIntended | ajax.php:31-382 | the endpoint with `action` cleaned by PARAM_ALPHAEXT: the invariant holds; an unknown name changes nothing; a failing action replies with the generic message; `check_status` replies with the report and changes no table; `generate` uses the PARAM_ALPHA-cleaned type, and every queue row it adds has a letters-only type |
| Cleanup.Cutoff | classes/task/cleanup_task.php:16 | the cutoff is `now - 2592000` |
| Cleanup.ReapedExactly | classes/task/cleanup_task.php:17 | exactly the rows created before the cutoff are deleted, whatever their status; the rest are unchanged |
| Cleanup.ReapIdempotent | classes/task/cleanup_task.php:16-17 | a second run at the same time deletes nothing more |
| Cleanup.ReapMonotone | classes/task/cleanup_task.php:16-17 | a later run keeps no row an earlier one deleted |
| Cleanup.ReapKeepsTablesOk | classes/task/cleanup_task.php:17 | the delete keeps the invariant |
| Cleanup.ReapedRowTaskIsNoOp | classes/task/cleanup_task.php:17 | a task for a reaped row changes nothing |
| Cleanup.Execute | classes/task/cleanup_task.php:12-20 | only the queue table changes, to the reaped one, and the invariant holds |
| Viewer.NextLabel | amd/build/viewer.min.js:152-156 | the label reads "Finish" exactly on the last card, and "Next Card" otherwise, with configured strings first |
| Viewer.OnlyShown | amd/build/viewer.min.js:143-145 | one entry per container; an entry is shown exactly when its index is the current card |
| Viewer.OneCardShown | amd/build/viewer.min.js:143-145 | within the deck, exactly one card is shown |
| Viewer.ShownAsWritten | amd/build/viewer.min.js:143-145 | the bound callback leaves every container's visibility as it was |
| Viewer.AsWrittenShowsStaleCard | amd/build/viewer.min.js:143-145 | on a two-card deck, moving to the second card leaves the first one shown and the second hidden |
| Viewer.FlashcardViewer.constructor | amd/build/viewer.min.js:53-61 | the index starts at 0 and `totalCards` is the parameter or 0; handlers are wired exactly when there are cards, and then the deck is rendered with the corrected display update (see Findings) |
| Viewer.FlashcardViewer.UpdateNavigation | amd/build/viewer.min.js:136-157 | only the current card is shown; the counter reads `(cur + 1) / total`; previous is disabled exactly at 0; the label as specified |
| Viewer.FlashcardViewer.NextCard | amd/build/viewer.min.js:111-121 | the index moves forward exactly when a later card exists, and the deck is re-rendered with the corrected display update (see Findings); otherwise the index, the counter and the previous button stay and the deck finishes; the handlers and alerts are unchanged |
| Viewer.FlashcardViewer.PreviousCard | amd/build/viewer.min.js:126-131 | the index moves back exactly when it is above 0, and the deck is re-rendered with the corrected display update (see Findings); at index 0 nothing changes; the handlers and alerts are unchanged |
| Viewer.FlashcardViewer.FinishDeck | amd/build/viewer.min.js:162-168 | the next button is disabled and reads "Saving..." |
| Viewer.FlashcardViewer.DeckSaved | amd/build/viewer.min.js:180-191 | one alert, `deck_finished` or the fallback of its callback ("Deck finished! Grade recorded: 100%" on success, "Deck finished!" on failure); then the label reads "Finished", the button stays disabled, and every other field is unchanged |
| Viewer.MovesStayInDeck | amd/build/viewer.min.js:111-131 | both moves keep the index in the deck |
| Viewer.NextThenPrevious | amd/build/viewer.min.js:111-131 | next advances exactly when a later card exists, and previous undoes it |
| Viewer.IterateCounts | amd/build/viewer.min.js:111-121 | from the first card, `k` presses of next reach card `k`, while `k` is in the deck |
| Viewer.LastCardIsFinal | amd/build/viewer.min.js:111-121 | `total - 1` presses reach the last card, and a further press stays there |
| Generator.ShortTextReplaced | amd/build/generator.min.js:89-94 | a trimmed text shorter than 5 UTF-16 code units, and so any of fewer than 3 characters, is replaced by the template |
| Generator.AstralTextKept | amd/build/generator.min.js:92-98 | three or more characters outside the Basic Multilingual Plane count twice each and go into the placeholder verbatim |
| Generator.PlaceholderFilled | amd/build/generator.min.js:96-98 | otherwise only the first `[TOPIC]` is replaced, by the trimmed text with JavaScript's `$` patterns expanded (verbatim when it has no `$`), and the rest of the template is kept |
| Generator.DollarPairCollapses | amd/build/generator.min.js:98 | a `$$` in the text goes into the placeholder as one `$` |
| Generator.TemplateAppended | amd/build/generator.min.js:99-100 | without a placeholder, the result is the trimmed text, a blank line, then the template |
| Generator.UserTextKept | amd/build/generator.min.js:92-101 | text of 5 or more code units without `$` always appears in the result |
| Generator.SendOnlyWhenComplete | amd/build/generator.min.js:124-145 | a request is sent exactly when the trimmed prompt is non-empty and a type is selected, and it carries the trimmed prompt; a blank prompt is reported first |
| Generator.StatusPriority | amd/build/generator.min.js:296-347 | a completion means reload only; otherwise errors show only the first; pending tasks are listed exactly when neither applies and the count is positive |
| Generator.FailedPollSilent | amd/build/generator.min.js:295-353 | a failed or unsuccessful poll changes nothing |
| Generator.TaskLabelByStatus | amd/build/generator.min.js:334-335 | a task reads "Processing..." exactly when its status is 1, and "Queued" otherwise |
| Generator.PendingClearedWhenIdle | amd/build/generator.min.js:322-347 | the pending list mentions "Processing", so an idle poll clears it, and the next idle poll does nothing |
| Generator.BuildTaskItems | amd/build/generator.min.js:332-336 | the loop builds one item per task, in order |
| Generator.Stopped | amd/build/generator.min.js:359-364 | after a stop, no interval is set |
| Generator.StopIdempotent | amd/build/generator.min.js:359-364 | stopping twice is stopping once; a running timer is cleared exactly once; a stopped one is left alone |
| Generator.GeneratorPage.constructor | amd/build/generator.min.js:29-61 | the page starts with no alerts, requests or interval |
| Generator.GeneratorPage.ChipClicked | amd/build/generator.min.js:86-103 | the textarea becomes the merge of its old text with the template, with JavaScript's length and replacement rules; every other field is unchanged |
| Generator.GeneratorPage.EnqueueTask | amd/build/generator.min.js:120-155 | a blank prompt or a missing type raises its alert and sends nothing; otherwise the button is disabled and relabelled, the status is set, and one request with the trimmed prompt is sent; an alert leaves the button and the status unchanged; the prompt, type, reload flag and timer never change |
| Generator.GeneratorPage.ApplyEnqueue | amd/build/generator.min.js:128-154 | each enqueue outcome's effect on the page, with the same fields unchanged as EnqueueTask |
| Generator.GeneratorPage.CheckStatus | amd/build/generator.min.js:279-354 | the page after a poll, for each decision: nothing, reload, error with the button re-enabled, the pending list, or a cleared status; the button label changes only on an error, the button state not on a reload, and the prompt, type, requests, alerts and timer never |
| Generator.GeneratorPage.ApplyStatus | amd/build/generator.min.js:297-350 | each poll decision's effect on the status area, the reload flag and the button, with the same fields unchanged as CheckStatus |
| Generator.GeneratorPage.StartStatusPolling | amd/build/generator.min.js:264-274 | one check runs, with its effect for each poll decision as CheckStatus states it, then the interval is set; the other fields are unchanged |
| Generator.GeneratorPage.StopPolling | amd/build/generator.min.js:359-364 | the timer state becomes the stop of the old one; every other field is unchanged |

## Left out

- I/O is modelled as inputs: curl, DNS, `parse_url`, the address parsing
  of `filter_var`, the file storage API, `message_send`, the MUC backend and `mtrace`/`debugging`
  output. The MP3 bytes and notices are values only.
- Concurrency: each task run and each request is one atomic method. The
  claim's plain read-then-update allows two workers on one row, and the
  model does not prove single-flight.
- The float `temperature` setting and the request timeouts.
- JSON decoding itself: decoded documents are `Moodle` datatypes, or
  "invalid".
- The `timecreated DESC` order of the status lists. Tasks and errors are
  sets of ids.
- Login, session-key and capability checks, and the instance and context
  lookups before the `try` block: handled by `Handle`'s precondition that
  the instance exists. These checks run on the cleaned name too, so a
  student's `chat_clear`, which arrives as `chatclear`, is refused by the
  teacher capability check before the `try` block; the model covers only
  requests that pass the checks.
- The `tools_rubric`, `get_versions` and `grade_completion` actions: they
  are thin calls into the client, a listing and the gradebook.
- `strlen`/`substr` count bytes; here one `char` stands for one byte.
- The DOM of alerts (their texts are recorded) and `console.error`, the generation page's
  `handleEnqueueSuccess`/`handleEnqueueError`, the web-service call and its
  fallback, and `setupTypeSelection`. `enqueueTask` ends with the request
  recorded as sent.
- `.text()` escaping and jQuery's HTML serialization: the status HTML is
  modelled as the concatenated strings.
- Card flipping and the key handlers in the viewer.
- Worker.Pow2: a negative exponent counts as 0, because the retry counter
  is never negative there.
- GeminiClient.IsPublic: the ranges are those PHP's manual lists for
  `FILTER_FLAG_NO_PRIV_RANGE` and `FILTER_FLAG_NO_RES_RANGE`; PHP releases
  whose filter rejects further IPv6 ranges are not modelled.
- GeminiClient.CompletionResult: an array or object content, which
  `isset` also accepts, is `apiinvalidresponse` here
  (`GeminiClient.ChoiceContent`), while PHP returns the array. A scalar
  content is the text it becomes when stored; the chat reply, which sends
  the value itself, carries that text.
- Generator.UserTextKept: stated for text without `$` only, because
  JavaScript's `replace` rewrites `$` patterns in the inserted text;
  `Generator.DollarPairCollapses` shows text that is not kept verbatim.
- Versions.Newer: `ORDER BY version DESC` leaves the order of equal
  versions open, and equal versions occur after a restore. The model orders
  them newest id first, so Versions.Rank and Versions.PruneAsWritten pick
  one of the victim sets the database may choose.
- Versions.PruneAsWritten: "the ten at the head of the listing" uses the
  tie-break of Versions.Newer; the database may break ties otherwise.
- GeminiClient.SpeechResult: the TTS URL check runs before the request. A
  blocked URL therefore fails the speech, and the worker swallows that like
  any other speech failure.
- Worker.AfterSuccess: file storage (classes/task/generate_content.php:216-243),
  the queue delete (:247) and `message_send` (:251-259) are taken never to
  throw. In the source they run after `allow_commit`, so an exception there
  reaches the catch at :261-314, which counts a retry, updates the queue
  row (possibly one already deleted) to pending or failed, and may queue a
  retry task, while the new version stays committed. The model does not capture that path.
- view.php's inline scripts, which duplicate the viewer and the chip merge,
  are not part of this model.

## Findings

| source | as written | input that shows it | evidently intended | confidence | as-written member | corrected member |
|---|---|---|---|---|---|---|
| amd/build/viewer.min.js:143-145 | the `each` callback is bound to the viewer, so `$(this)` wraps the viewer object, not the container, and no card's `display` is set | a two-card deck with the first card shown; one press of next leaves card 0 shown and card 1 hidden | each container is shown exactly when its index is the current card, as view.php:532 does | not executed | Viewer.ShownAsWritten, Viewer.AsWrittenShowsStaleCard | Viewer.FlashcardViewer.UpdateNavigation, Viewer.OnlyShown, Viewer.FlashcardViewer.constructor, Viewer.FlashcardViewer.NextCard, Viewer.FlashcardViewer.PreviousCard |
| ajax.php:31 | `required_param('action', PARAM_ALPHA)` strips every `_`, so the comparisons with `check_status` (:118), `chat_clear` (:312) and `restore_version` (:342) never match | the page's status poll sends `action=check_status`, which arrives as `checkstatus`; the reply is `success = false` with an empty message, and nothing changes | the name cleaned with PARAM_ALPHAEXT, which keeps `_`, so each name the pages send reaches its branch | not executed | Ajax.Handle, Ajax.UnderscoredActionsUnreachable, Ajax.PageActionsUnknown | Ajax.HandleIntended, Ajax.IntendedActionsReached, Ajax.PageActionsReached |
