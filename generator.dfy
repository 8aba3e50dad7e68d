/** The teacher's generation page script: the prompt-chip merge, the
    enqueue guards, the status poll and its decision order, and the poll
    timer. */
module Generator {
  import opened Wrappers
  import opened Text

  // ---------------------------------------------------------------------
  // Prompt chips.

  const TopicPlaceholder: string := "[TOPIC]"
  /** Current text of fewer UTF-16 code units than this is replaced by the
      template. */
  const MinKept: nat := 5

  /** The textarea after a click on a chip with `template`. */
  function MergeChip(current: string, template: string): string {
    var cur := Trim(current, JsWhitespace);
    if Utf16Length(cur) < MinKept then template
    else if Contains(template, TopicPlaceholder) then ReplaceFirst(template, TopicPlaceholder, cur)
    else cur + "\n\n" + template
  }

  /** Short or empty text is replaced by the template outright; text of
      fewer than five characters is always short. */
  lemma ShortTextReplaced(current: string, template: string)
    requires Utf16Length(Trim(current, JsWhitespace)) < MinKept || |Trim(current, JsWhitespace)| < 3
    ensures MergeChip(current, template) == template
  {
    Utf16LengthBounds(Trim(current, JsWhitespace));
  }

  /** The length test counts code units: three or more characters outside
      the Basic Multilingual Plane (three emoji, say) make at least six and
      go into the placeholder, although they are fewer than five
      characters. */
  lemma AstralTextKept(current: string, template: string)
    requires Contains(template, TopicPlaceholder)
    requires var cur := Trim(current, JsWhitespace);
      |cur| >= 3 && forall k :: 0 <= k < |cur| ==> cur[k] as int >= 0x10000
    ensures var cur := Trim(current, JsWhitespace);
      var i := IndexOf(template, TopicPlaceholder).value;
      && Utf16Length(cur) == 2 * |cur|
      && MergeChip(current, template) == template[..i] + cur + template[i + |TopicPlaceholder|..]
  {
    var cur := Trim(current, JsWhitespace);
    Utf16LengthAstral(cur);
    assert '$' !in cur by {
      forall k | 0 <= k < |cur| ensures cur[k] != '$' { assert cur[k] as int >= 0x10000; }
    }
    PlaceholderFilled(current, template);
  }

  /** With enough text and a placeholder, the first `[TOPIC]` is replaced
      by the substitution of the trimmed text and everything around it is
      kept; text without `$` goes in as it stands. */
  lemma PlaceholderFilled(current: string, template: string)
    requires Utf16Length(Trim(current, JsWhitespace)) >= MinKept && Contains(template, TopicPlaceholder)
    ensures var i := IndexOf(template, TopicPlaceholder).value;
      var cur := Trim(current, JsWhitespace);
      && MergeChip(current, template)
         == template[..i] + Substitution(cur, TopicPlaceholder, template[..i], template[i + |TopicPlaceholder|..])
            + template[i + |TopicPlaceholder|..]
      && ('$' !in cur ==> MergeChip(current, template) == template[..i] + cur + template[i + |TopicPlaceholder|..])
      && !Contains(template[..i], TopicPlaceholder)
  {
    var i := IndexOf(template, TopicPlaceholder).value;
    var cur := Trim(current, JsWhitespace);
    PrefixBeforeFirst(template, TopicPlaceholder);
    if '$' !in cur {
      SubstitutionLiteral(cur, TopicPlaceholder, template[..i], template[i + |TopicPlaceholder|..]);
    }
  }

  /** `$$` in the text is a replacement pattern: text such as
      "Tips $$ tricks" goes into the placeholder as "Tips $ tricks". */
  lemma DollarPairCollapses(current: string, template: string, a: string, b: string)
    requires Utf16Length(Trim(current, JsWhitespace)) >= MinKept && Contains(template, TopicPlaceholder)
    requires Trim(current, JsWhitespace) == a + "$$" + b && '$' !in a && '$' !in b
    ensures var i := IndexOf(template, TopicPlaceholder).value;
      MergeChip(current, template) == template[..i] + (a + "$" + b) + template[i + |TopicPlaceholder|..]
  {
    assert MergeChip(current, template) == ReplaceFirst(template, TopicPlaceholder, a + "$$" + b);
    ReplaceFirstDollarPair(template, TopicPlaceholder, a, b);
  }

  /** With enough text and no placeholder, the template is appended after a
      blank line. */
  lemma TemplateAppended(current: string, template: string)
    requires Utf16Length(Trim(current, JsWhitespace)) >= MinKept && !Contains(template, TopicPlaceholder)
    ensures var r := MergeChip(current, template);
      && StartsWith(r, Trim(current, JsWhitespace) + "\n\n")
      && EndsWith(r, template)
  {
    var cur := Trim(current, JsWhitespace);
    var r := MergeChip(current, template);
    assert r[..|cur + "\n\n"|] == cur + "\n\n";
    assert r[|r| - |template|..] == template;
  }

  /** Text of five or more code units is never lost when it holds no `$`:
      it appears in the result whichever way the template is merged. */
  lemma UserTextKept(current: string, template: string)
    requires Utf16Length(Trim(current, JsWhitespace)) >= MinKept
    ensures '$' !in Trim(current, JsWhitespace) ==>
      Contains(MergeChip(current, template), Trim(current, JsWhitespace))
  {
    var cur := Trim(current, JsWhitespace);
    var r := MergeChip(current, template);
    if '$' in cur {
    } else if Contains(template, TopicPlaceholder) {
      PlaceholderFilled(current, template);
      var i := IndexOf(template, TopicPlaceholder).value;
      ContainsMiddle(template[..i], cur, template[i + |TopicPlaceholder|..]);
    } else {
      assert r == [] + cur + ("\n\n" + template);
      ContainsMiddle([], cur, "\n\n" + template);
    }
  }

  // ---------------------------------------------------------------------
  // Enqueueing.

  /** The language strings the page reads from its configuration. */
  datatype Strings = Strings(
    errorTitle: Option<string>,
    enterTopic: Option<string>,
    selectType: Option<string>,
    ok: Option<string>,
    generatingMsg: Option<string>,
    contactingMsg: Option<string>,
    generateBtn: Option<string>)

  /** A `Notification.alert(title, message, button)`. */
  datatype Alert = Alert(title: string, message: string, button: string)

  /** What `enqueueTask` does with the textarea and the selected type. */
  datatype EnqueueStep = AskForTopic | AskForType | Send(typ: string, prompt: string)

  function EnqueueStepFor(prompt: string, typ: string): EnqueueStep {
    var p := Trim(prompt, JsWhitespace);
    if p == "" then AskForTopic else if typ == "" then AskForType else Send(typ, p)
  }

  /** A request is sent only with a non-blank prompt and a chosen type, and
      it carries the trimmed prompt; a blank prompt is reported first. */
  lemma SendOnlyWhenComplete(prompt: string, typ: string)
    ensures EnqueueStepFor(prompt, typ).Send? <==> Trim(prompt, JsWhitespace) != "" && typ != ""
    ensures EnqueueStepFor(prompt, typ).Send? ==>
      EnqueueStepFor(prompt, typ) == Send(typ, Trim(prompt, JsWhitespace))
    ensures Trim(prompt, JsWhitespace) == "" ==> EnqueueStepFor(prompt, typ) == AskForTopic
  {
  }

  /** The alert for a blank prompt. */
  function TopicAlert(s: Strings): Alert {
    Alert(JsOr(s.errorTitle, "Error"), JsOr(s.enterTopic, "Please enter a topic or description."), JsOr(s.ok, "OK"))
  }

  /** The alert for a missing type. */
  function TypeAlert(s: Strings): Alert {
    Alert(JsOr(s.errorTitle, "Error"), JsOr(s.selectType, "Please select a content type."), JsOr(s.ok, "OK"))
  }

  /** The status area while the request is under way. */
  function EnqueuingHtml(s: Strings): string {
    "<div class=\"alert alert-info\">" + JsOr(s.contactingMsg, "Enqueuing task...") + "</div>"
  }

  // ---------------------------------------------------------------------
  // The status poll.

  /** A row of `tasks` in the `check_status` reply. */
  datatype TaskInfo = TaskInfo(typ: string, status: int)

  /** The decoded `check_status` reply; `errors` holds each error row's
      `errormessage`. */
  datatype StatusReply = StatusReply(
    success: bool,
    hasNewlyCompleted: bool,
    errors: seq<Option<string>>,
    pendingCount: int,
    tasks: seq<TaskInfo>)

  /** What one poll does. */
  datatype StatusStep =
    | Nothing
    | Reload
    | ShowError(message: string)
    | ShowPending(tasks: seq<TaskInfo>)
    | ClearStatus

  const ProcessingWord: string := "Processing"

  /** The decision of `checkStatus` for a reply (`None` when the request or
      its decoding failed) given the status area's current HTML. */
  function StatusStepFor(reply: Option<StatusReply>, statusHtml: string): StatusStep {
    if reply.None? || !reply.value.success then Nothing
    else
      var r := reply.value;
      if r.hasNewlyCompleted then Reload
      else if |r.errors| > 0 then ShowError(JsOr(r.errors[0], "Unknown error"))
      else if r.pendingCount > 0 then ShowPending(r.tasks)
      else if Contains(statusHtml, ProcessingWord) then ClearStatus
      else Nothing
  }

  /** The priority order: a completion wins over errors and pending tasks;
      an error wins over pending tasks and only the first error is shown;
      pending tasks are listed only when there is neither. */
  lemma StatusPriority(r: StatusReply, statusHtml: string)
    requires r.success
    ensures r.hasNewlyCompleted ==> StatusStepFor(Some(r), statusHtml) == Reload
    ensures !r.hasNewlyCompleted && |r.errors| > 0 ==>
      StatusStepFor(Some(r), statusHtml) == ShowError(JsOr(r.errors[0], "Unknown error"))
    ensures StatusStepFor(Some(r), statusHtml).ShowPending? <==>
      !r.hasNewlyCompleted && |r.errors| == 0 && r.pendingCount > 0
  {
  }

  /** A failed poll changes nothing. */
  lemma FailedPollSilent(reply: Option<StatusReply>, statusHtml: string)
    requires reply.None? || !reply.value.success
    ensures StatusStepFor(reply, statusHtml) == Nothing
  {
  }

  /** The label of one pending task. */
  function TaskLabel(t: TaskInfo): string {
    t.typ + ": " + (if t.status == 1 then "Processing..." else "Queued")
  }

  /** A task reads "Processing..." exactly when its status is 1, and
      "Queued" otherwise. */
  lemma TaskLabelByStatus(t: TaskInfo)
    ensures EndsWith(TaskLabel(t), "Processing...") <==> t.status == 1
    ensures t.status != 1 ==> EndsWith(TaskLabel(t), "Queued")
  {
    var l := TaskLabel(t);
    if t.status == 1 {
      assert l[|l| - |"Processing..."|..] == "Processing...";
    } else {
      assert l[|l| - |"Queued"|..] == "Queued";
      assert l[|l| - 1] == 'd';
    }
  }

  /** The list items, one per task in order. */
  function TaskItems(tasks: seq<TaskInfo>): string
    decreases |tasks|
  {
    if tasks == [] then ""
    else TaskItems(tasks[..|tasks| - 1]) + ("<li>" + TaskLabel(tasks[|tasks| - 1]) + "</li>")
  }

  const PendingLead: string :=
    "<div class=\"alert alert-warning\"><div class=\"spinner-border spinner-border-sm me-2\" role=\"status\"></div> "
  const PendingTail: string := " tasks in background:<ul>"
  const PendingNote: string := "</ul><small>You can leave this page. We will notify you when done.</small></div>"

  /** The status area listing the pending tasks. */
  function PendingHtml(tasks: seq<TaskInfo>): string {
    PendingLead + ProcessingWord + (PendingTail + TaskItems(tasks) + PendingNote)
  }

  /** The status area of the first error. */
  function ErrorHtml(message: string): string {
    "<div class=\"alert alert-danger\"><strong>Generation Failed:</strong> " + message + "</div>"
  }

  /** The pending list always mentions "Processing", so once the tasks are
      done the next poll clears it, and the poll after that does nothing. */
  lemma PendingClearedWhenIdle(tasks: seq<TaskInfo>, idle: StatusReply)
    requires idle.success && !idle.hasNewlyCompleted && |idle.errors| == 0 && idle.pendingCount <= 0
    ensures StatusStepFor(Some(idle), PendingHtml(tasks)) == ClearStatus
    ensures StatusStepFor(Some(idle), "") == Nothing
  {
    ContainsMiddle(PendingLead, ProcessingWord, PendingTail + TaskItems(tasks) + PendingNote);
    assert !MatchAt("", ProcessingWord, 0);
  }

  /** The `forEach` over the tasks, appending one item each. */
  method BuildTaskItems(tasks: seq<TaskInfo>) returns (items: string)
    ensures items == TaskItems(tasks)
  {
    items := "";
    var i := 0;
    while i < |tasks|
      invariant 0 <= i <= |tasks|
      invariant items == TaskItems(tasks[..i])
    {
      var status := if tasks[i].status == 1 then "Processing..." else "Queued";
      items := items + ("<li>" + (tasks[i].typ + ": " + status) + "</li>");
      assert tasks[..i + 1][..i] == tasks[..i];
      i := i + 1;
    }
    assert tasks[..i] == tasks;
  }

  // ---------------------------------------------------------------------
  // The poll timer.

  /** The poll timer: the current interval id and the ids cleared so far. */
  datatype Poll = Poll(interval: Option<int>, cleared: seq<int>)

  /** `stopPolling`. */
  function Stopped(p: Poll): (q: Poll)
    ensures q.interval.None?
  {
    if p.interval.Some? then Poll(None, p.cleared + [p.interval.value]) else p
  }

  /** Stopping twice is stopping once, and a running timer is cleared
      exactly once. */
  lemma StopIdempotent(p: Poll)
    ensures Stopped(Stopped(p)) == Stopped(p)
    ensures p.interval.Some? ==> Stopped(p).cleared == p.cleared + [p.interval.value]
    ensures p.interval.None? ==> Stopped(p) == p
  {
  }

  // ---------------------------------------------------------------------
  // The page.

  class GeneratorPage {
    var strings: Strings
    /** The prompt textarea and the selected type. */
    var prompt: string
    var selectedType: string
    var buttonDisabled: bool
    var buttonHtml: string
    var statusHtml: string
    var alerts: seq<Alert>
    /** The enqueue requests sent, as (type, prompt). */
    var sent: seq<(string, string)>
    var reloaded: bool
    var pollInterval: Option<int>
    var cleared: seq<int>

    constructor (strings: Strings)
      ensures this.strings == strings && prompt == "" && selectedType == "" && statusHtml == ""
      ensures alerts == [] && sent == [] && !reloaded && pollInterval.None? && cleared == []
      ensures !buttonDisabled
    {
      this.strings := strings;
      prompt, selectedType := "", "";
      buttonDisabled, buttonHtml, statusHtml := false, "", "";
      alerts, sent := [], [];
      reloaded := false;
      pollInterval, cleared := None, [];
    }

    /** A click on a prompt chip. */
    method ChipClicked(template: string)
      modifies this`prompt
      ensures prompt == MergeChip(old(prompt), template)
      ensures unchanged(`strings, `selectedType, `buttonDisabled, `buttonHtml, `statusHtml)
      ensures unchanged(`alerts, `sent, `reloaded, `pollInterval, `cleared)
    {
      var current := Trim(prompt, JsWhitespace);
      if Utf16Length(current) < MinKept {
        prompt := template;
      } else if Contains(template, TopicPlaceholder) {
        prompt := ReplaceFirst(template, TopicPlaceholder, current);
      } else {
        prompt := current + "\n\n" + template;
      }
    }

    /** `enqueueTask`: an alert for a blank prompt or a missing type, else
        the button disabled, the status area set and the request sent. */
    method EnqueueTask()
      modifies this`alerts, this`sent, this`buttonDisabled, this`buttonHtml, this`statusHtml
      ensures Enqueued(EnqueueStepFor(old(prompt), old(selectedType)), old(alerts), old(sent))
      ensures strings == old(strings) && prompt == old(prompt) && selectedType == old(selectedType)
      ensures pollInterval == old(pollInterval) && cleared == old(cleared)
      ensures !EnqueueStepFor(old(prompt), old(selectedType)).Send? ==> buttonDisabled == old(buttonDisabled)
      ensures !EnqueueStepFor(old(prompt), old(selectedType)).Send? ==>
        buttonHtml == old(buttonHtml) && statusHtml == old(statusHtml)
      ensures reloaded == old(reloaded)
    {
      var step := EnqueueStepFor(prompt, selectedType);
      ApplyEnqueue(step);
    }

    /** The page after `step`, given the alerts and requests before it. */
    predicate Enqueued(step: EnqueueStep, alertsBefore: seq<Alert>, sentBefore: seq<(string, string)>)
      reads this
    {
      match step
      case AskForTopic => alerts == alertsBefore + [TopicAlert(strings)] && sent == sentBefore
      case AskForType => alerts == alertsBefore + [TypeAlert(strings)] && sent == sentBefore
      case Send(typ, p) =>
        && sent == sentBefore + [(typ, p)]
        && alerts == alertsBefore
        && buttonDisabled
        && buttonHtml == JsOr(strings.generatingMsg, "Generating...")
        && statusHtml == EnqueuingHtml(strings)
    }

    method ApplyEnqueue(step: EnqueueStep)
      modifies this`alerts, this`sent, this`buttonDisabled, this`buttonHtml, this`statusHtml
      ensures Enqueued(step, old(alerts), old(sent))
      ensures strings == old(strings) && prompt == old(prompt) && selectedType == old(selectedType)
      ensures pollInterval == old(pollInterval) && cleared == old(cleared)
      ensures !step.Send? ==> buttonDisabled == old(buttonDisabled)
      ensures !step.Send? ==> buttonHtml == old(buttonHtml) && statusHtml == old(statusHtml)
      ensures reloaded == old(reloaded)
    {
      match step
      case AskForTopic =>
        alerts := alerts + [TopicAlert(strings)];
      case AskForType =>
        alerts := alerts + [TypeAlert(strings)];
      case Send(typ, p) =>
        buttonDisabled := true;
        buttonHtml := JsOr(strings.generatingMsg, "Generating...");
        statusHtml := EnqueuingHtml(strings);
        sent := sent + [(typ, p)];
    }

    /** `checkStatus` with the reply the request produced. */
    method CheckStatus(reply: Option<StatusReply>)
      modifies this`statusHtml, this`reloaded, this`buttonDisabled, this`buttonHtml
      ensures StatusShown(StatusStepFor(reply, old(statusHtml)), old(statusHtml), old(reloaded), old(buttonDisabled))
      ensures strings == old(strings) && prompt == old(prompt) && sent == old(sent) && alerts == old(alerts)
      ensures pollInterval == old(pollInterval) && cleared == old(cleared)
      ensures selectedType == old(selectedType)
      ensures !StatusStepFor(reply, old(statusHtml)).ShowError? ==> buttonHtml == old(buttonHtml)
      ensures StatusStepFor(reply, old(statusHtml)).Reload? ==> buttonDisabled == old(buttonDisabled)
    {
      var step := StatusStepFor(reply, statusHtml);
      ApplyStatus(step);
    }

    /** The page after the poll decided `step`, given its status, reload
        flag and button state before. */
    predicate StatusShown(step: StatusStep, statusBefore: string, reloadedBefore: bool, disabledBefore: bool)
      reads this
    {
      match step
      case Nothing => statusHtml == statusBefore && reloaded == reloadedBefore && buttonDisabled == disabledBefore
      case Reload => reloaded && statusHtml == statusBefore
      case ShowError(message) =>
        && statusHtml == ErrorHtml(message)
        && !buttonDisabled && buttonHtml == JsOr(strings.generateBtn, "Generate with Gemini")
        && reloaded == reloadedBefore
      case ShowPending(tasks) =>
        statusHtml == PendingHtml(tasks) && reloaded == reloadedBefore && buttonDisabled == disabledBefore
      case ClearStatus => statusHtml == "" && reloaded == reloadedBefore && buttonDisabled == disabledBefore
    }

    method ApplyStatus(step: StatusStep)
      modifies this`statusHtml, this`reloaded, this`buttonDisabled, this`buttonHtml
      ensures StatusShown(step, old(statusHtml), old(reloaded), old(buttonDisabled))
      ensures strings == old(strings) && prompt == old(prompt) && sent == old(sent) && alerts == old(alerts)
      ensures pollInterval == old(pollInterval) && cleared == old(cleared)
      ensures selectedType == old(selectedType)
      ensures !step.ShowError? ==> buttonHtml == old(buttonHtml)
      ensures step.Reload? ==> buttonDisabled == old(buttonDisabled)
    {
      match step
      case Nothing =>
      case Reload =>
        reloaded := true;
      case ShowError(message) =>
        statusHtml := ErrorHtml(message);
        buttonDisabled := false;
        buttonHtml := JsOr(strings.generateBtn, "Generate with Gemini");
      case ShowPending(tasks) =>
        var items := BuildTaskItems(tasks);
        statusHtml := PendingLead + ProcessingWord + (PendingTail + items + PendingNote);
      case ClearStatus =>
        statusHtml := "";
    }

    /** `startStatusPolling`: one check, then the interval `timer`. */
    method StartStatusPolling(reply: Option<StatusReply>, timer: int)
      modifies this`statusHtml, this`reloaded, this`buttonDisabled, this`buttonHtml, this`pollInterval
      ensures pollInterval == Some(timer) && cleared == old(cleared)
      ensures StatusStepFor(reply, old(statusHtml)).ShowPending? ==>
        statusHtml == PendingHtml(StatusStepFor(reply, old(statusHtml)).tasks)
      ensures StatusShown(StatusStepFor(reply, old(statusHtml)), old(statusHtml), old(reloaded), old(buttonDisabled))
      ensures strings == old(strings) && prompt == old(prompt) && selectedType == old(selectedType)
      ensures sent == old(sent) && alerts == old(alerts)
      ensures !StatusStepFor(reply, old(statusHtml)).ShowError? ==> buttonHtml == old(buttonHtml)
      ensures StatusStepFor(reply, old(statusHtml)).Reload? ==> buttonDisabled == old(buttonDisabled)
    {
      CheckStatus(reply);
      pollInterval := Some(timer);
    }

    /** `stopPolling`. */
    method StopPolling()
      modifies this`pollInterval, this`cleared
      ensures Poll(pollInterval, cleared) == Stopped(Poll(old(pollInterval), old(cleared)))
      ensures statusHtml == old(statusHtml) && sent == old(sent)
      ensures strings == old(strings) && prompt == old(prompt) && selectedType == old(selectedType)
      ensures buttonDisabled == old(buttonDisabled) && buttonHtml == old(buttonHtml)
      ensures alerts == old(alerts) && reloaded == old(reloaded)
    {
      if pollInterval.Some? {
        cleared := cleared + [pollInterval.value];
        pollInterval := None;
      }
    }
  }
}
