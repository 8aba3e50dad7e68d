/** The plugin's persistent state: the `gemini_queue` and `gemini_content`
    tables, the activity instances with their module contexts, the file
    areas, the adhoc task queue and the outgoing notifications. */
module Store {
  import opened Wrappers

  /** `gemini_queue.status` values. The worker writes only the first three;
      2 appears only in the status query. */
  const Pending: int := 0
  const Processing: int := 1
  const Failed: int := -1
  const Done: int := 2

  /** The retry ceiling of the worker. */
  const MaxRetries: int := 5

  /** The content types the plugin generates. */
  const PresentationType: string := "presentation"
  const FlashcardsType: string := "flashcards"
  const SummaryType: string := "summary"
  const AudioType: string := "audio"
  const QuizType: string := "quiz"

  /** A `gemini_queue` row. */
  datatype QueueRow = QueueRow(
    geminiid: int,
    userid: int,
    typ: string,
    prompt: string,
    status: int,
    retries: int,
    errormessage: Option<string>,
    timecreated: int,
    timemodified: int)

  /** A `gemini_content` row: one version of an instance's generated content. */
  datatype ContentRow = ContentRow(
    geminiid: int,
    typ: string,
    content: string,
    prompt: string,
    version: int,
    parentId: Option<int>,
    isCurrent: bool,
    timecreated: int,
    timemodified: int)

  /** The plugin's two file areas. */
  datatype Area = Audio | Quiz

  /** A stored file: context, file area and item id (the content row id). */
  datatype FileKey = FileKey(contextid: int, area: Area, itemid: int)

  /** An adhoc `generate_content` task; `None` means "run at the next cron run". */
  datatype AdhocTask = AdhocTask(queueid: int, nextRunTime: Option<int>)

  datatype NoticeKind = ContentReady | GenerationFailed

  /** A message sent to a user through the notification API. */
  datatype Notice = Notice(userto: int, kind: NoticeKind)

  /** A queue row in one of the states the plugin's code can produce:
      pending, processing or failed, at most five retries, and failed exactly
      when the retries are used up. */
  predicate RowOk(r: QueueRow) {
    && (r.status == Pending || r.status == Processing || r.status == Failed)
    && 0 <= r.retries <= MaxRetries
    && (r.retries == MaxRetries <==> r.status == Failed)
  }

  /** No instance has two content rows flagged `is_current`. */
  predicate AtMostOneCurrent(c: map<int, ContentRow>) {
    forall a, b ::
      (a in c && b in c && c[a].isCurrent && c[b].isCurrent && c[a].geminiid == c[b].geminiid) ==> a == b
  }

  /** `delete_area_files` on both areas of context `ctx` for each item of
      `items`. */
  function FilesWithout(f: map<FileKey, string>, ctx: int, items: set<int>): (f': map<FileKey, string>)
    ensures forall k :: k in f' <==> k in f && !(k.contextid == ctx && k.itemid in items)
    ensures forall k :: k in f' ==> f'[k] == f[k]
  {
    map k | k in f && !(k.contextid == ctx && k.itemid in items) :: f[k]
  }

  /** `delete_area_files` on both areas of context `ctx`, every item. */
  function AreasCleared(f: map<FileKey, string>, ctx: int): (f': map<FileKey, string>)
    ensures forall k :: k in f' <==> k in f && k.contextid != ctx
    ensures forall k :: k in f' ==> f'[k] == f[k]
  {
    map k | k in f && k.contextid != ctx :: f[k]
  }

  /** The contents of every table and queue the core touches. */
  datatype Tables = Tables(
    /** Activity instance id to the id of its module context. */
    instances: map<int, int>,
    queue: map<int, QueueRow>,
    content: map<int, ContentRow>,
    files: map<FileKey, string>,
    adhoc: seq<AdhocTask>,
    outbox: seq<Notice>,
    /** The ids the next inserts receive. */
    nextQueueId: int,
    nextContentId: int)

  /** The invariant the plugin's writes keep: ids below the next insert id,
      every queue row in a reachable state, one current row per instance. */
  predicate TablesOk(t: Tables) {
    && (forall id :: id in t.queue ==> id < t.nextQueueId)
    && (forall id :: id in t.content ==> id < t.nextContentId)
    && (forall id :: id in t.queue ==> RowOk(t.queue[id]))
    && AtMostOneCurrent(t.content)
  }

  /** The database, the file storage, the adhoc task queue and the
      notification outbox, as one object updated in place. */
  class Database {
    var instances: map<int, int>
    var queue: map<int, QueueRow>
    var content: map<int, ContentRow>
    var files: map<FileKey, string>
    var adhoc: seq<AdhocTask>
    var outbox: seq<Notice>
    var nextQueueId: int
    var nextContentId: int

    function Snapshot(): Tables
      reads this
    {
      Tables(instances, queue, content, files, adhoc, outbox, nextQueueId, nextContentId)
    }

    predicate Valid()
      reads this
    {
      TablesOk(Snapshot())
    }

    constructor (instances: map<int, int>)
      ensures Valid()
      ensures Snapshot() == Tables(instances, map[], map[], map[], [], [], 1, 1)
    {
      this.instances := instances;
      queue, content, files := map[], map[], map[];
      adhoc, outbox := [], [];
      nextQueueId, nextContentId := 1, 1;
    }
  }
}
