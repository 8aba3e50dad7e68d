/** The scheduled `cleanup_task`: queue rows created more than thirty days
    ago are deleted, whatever their status. */
module Cleanup {
  import opened Wrappers
  import opened Store
  import opened Worker
  import opened GeminiClient
  import opened Moodle

  /** Thirty days, in seconds. */
  const RetentionSeconds: int := 30 * 24 * 60 * 60

  function Cutoff(now: int): (c: int)
    ensures c == now - 2592000
  {
    now - RetentionSeconds
  }

  /** `delete_records_select('gemini_queue', 'timecreated < ?', [$cutoff])`. */
  function Reaped(q: map<int, QueueRow>, cutoff: int): map<int, QueueRow> {
    map id | id in q && q[id].timecreated >= cutoff :: q[id]
  }

  /** Exactly the rows created before the cutoff go; the rest stay as they
      were. */
  lemma ReapedExactly(q: map<int, QueueRow>, cutoff: int)
    ensures var q' := Reaped(q, cutoff);
      && (forall id :: id in q' <==> id in q && q[id].timecreated >= cutoff)
      && (forall id :: id in q' ==> q'[id] == q[id])
      && q.Keys - q'.Keys == set id | id in q && q[id].timecreated < cutoff
  {
  }

  /** A second run at the same time deletes nothing more. */
  lemma ReapIdempotent(q: map<int, QueueRow>, cutoff: int)
    ensures Reaped(Reaped(q, cutoff), cutoff) == Reaped(q, cutoff)
  {
  }

  /** A later run deletes at least what an earlier one did. */
  lemma ReapMonotone(q: map<int, QueueRow>, now: int, later: int)
    requires now <= later
    ensures Reaped(q, Cutoff(later)).Keys <= Reaped(q, Cutoff(now)).Keys
  {
  }

  /** The reap keeps the invariant of the tables. */
  lemma ReapKeepsTablesOk(t: Tables, now: int)
    requires TablesOk(t)
    ensures TablesOk(t.(queue := Reaped(t.queue, Cutoff(now))))
  {
  }

  /** A pending row reaped before its task runs is gone for the task too:
      the task then finds no row and changes nothing. */
  lemma ReapedRowTaskIsNoOp(t: Tables, queueid: int, cfg: Config, net: Net, svc: Services, now: int, later: int)
    requires queueid in t.queue && t.queue[queueid].timecreated < Cutoff(now)
    ensures var t' := t.(queue := Reaped(t.queue, Cutoff(now)));
      Executed(t', queueid, cfg, net, svc, later) == t'
  {
  }

  /** `execute()`: compute the cutoff, then one bulk delete. */
  method Execute(db: Database, now: int)
    requires db.Valid()
    modifies db
    ensures db.Snapshot() == old(db.Snapshot()).(queue := Reaped(old(db.queue), Cutoff(now)))
    ensures db.Valid()
  {
    ReapKeepsTablesOk(db.Snapshot(), now);
    var cutoff := now - 30 * 24 * 60 * 60;
    db.queue := map id | id in db.queue && db.queue[id].timecreated >= cutoff :: db.queue[id];
  }
}
