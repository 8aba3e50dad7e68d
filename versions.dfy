/** The versioned content store: which `gemini_content` rows the worker's
    commit and prune steps and the restore action select and change, as
    functions on the table, with the properties they keep. */
module Versions {
  import opened Wrappers
  import opened Store
  import opened Sets

  /** The number of versions the pruning step's comment says it keeps. */
  const Keep: nat := 10

  /** The ids of the content rows of instance `g`. */
  function InstanceIds(c: map<int, ContentRow>, g: int): (s: set<int>)
    ensures s <= c.Keys
  {
    set id | id in c && c[id].geminiid == g
  }

  /** The ids of the rows of instance `g` flagged `is_current`. */
  function CurrentIds(c: map<int, ContentRow>, g: int): (s: set<int>)
    ensures s <= InstanceIds(c, g)
  {
    set id | id in c && c[id].geminiid == g && c[id].isCurrent
  }

  lemma CurrentIdsAtMostOne(c: map<int, ContentRow>, g: int)
    requires AtMostOneCurrent(c)
    ensures |CurrentIds(c, g)| <= 1
  {
    var s := CurrentIds(c, g);
    if |s| > 1 {
      var a := Choose(s);
      assert |s - {a}| == |s| - 1;
      var b := Choose(s - {a});
      assert false;
    }
  }

  // ---------------------------------------------------------------------
  // Commit: demote the current row, insert version + 1 linked to it.

  /** What the worker's `get_record(... 'is_current' => 1)` can return for
      instance `g`: the current row, or nothing when there is none. */
  predicate IsCurrentLookup(c: map<int, ContentRow>, g: int, cur: Option<int>) {
    match cur
    case None => CurrentIds(c, g) == {}
    case Some(id) => id in CurrentIds(c, g)
  }

  /** The current row of instance `g`, as `get_record(... 'is_current' => 1)`
      finds it when there is at most one. */
  ghost function CurrentOf(c: map<int, ContentRow>, g: int): (cur: Option<int>)
    ensures IsCurrentLookup(c, g, cur)
    ensures cur.Some? ==> cur.value in c
  {
    if CurrentIds(c, g) == {} then None else Some(Choose(CurrentIds(c, g)))
  }

  /** The current row of instance `g`: the set of matching rows is formed
      and its element, if any, is returned. */
  method FindCurrent(c: map<int, ContentRow>, g: int) returns (cur: Option<int>)
    requires AtMostOneCurrent(c)
    ensures cur == CurrentOf(c, g)
  {
    var ids := set id | id in c && c[id].geminiid == g && c[id].isCurrent;
    assert ids == CurrentIds(c, g);
    if ids == {} {
      return None;
    }
    HasElement(ids);
    var id :| id in ids;
    CurrentIdsAtMostOne(c, g);
    assert |ids - {id}| == |ids| - 1;
    assert ids - {id} == {};
    return Some(id);
  }

  function Demote(c: map<int, ContentRow>, cur: Option<int>): map<int, ContentRow>
    requires cur.Some? ==> cur.value in c
  {
    if cur.Some? then c[cur.value := c[cur.value].(isCurrent := false)] else c
  }

  /** The version number the worker gives a new row: one more than the
      current row's, or 1 when there is no current row. */
  function NextVersion(c: map<int, ContentRow>, cur: Option<int>): int
    requires cur.Some? ==> cur.value in c
  {
    if cur.Some? then c[cur.value].version + 1 else 1
  }

  function NewVersionRow(c: map<int, ContentRow>, cur: Option<int>, g: int, typ: string,
                         text: string, prompt: string, now: int): ContentRow
    requires cur.Some? ==> cur.value in c
  {
    ContentRow(g, typ, text, prompt, NextVersion(c, cur), cur, true, now, now)
  }

  /** The table after the commit transaction's update and insert. */
  function Committed(c: map<int, ContentRow>, cur: Option<int>, newId: int, g: int,
                     typ: string, text: string, prompt: string, now: int): map<int, ContentRow>
    requires cur.Some? ==> cur.value in c
  {
    Demote(c, cur)[newId := NewVersionRow(c, cur, g, typ, text, prompt, now)]
  }

  /** A commit leaves the new row as the only current row of its instance,
      numbered one past the previous current row and linked to it, demotes
      that row and leaves every other row and every other instance alone. */
  lemma CommitLeavesOneCurrent(c: map<int, ContentRow>, cur: Option<int>, newId: int, g: int,
                               typ: string, text: string, prompt: string, now: int)
    requires AtMostOneCurrent(c)
    requires IsCurrentLookup(c, g, cur)
    requires newId !in c
    ensures var c' := Committed(c, cur, newId, g, typ, text, prompt, now);
      && AtMostOneCurrent(c')
      && CurrentIds(c', g) == {newId}
      && c'.Keys == c.Keys + {newId}
      && c'[newId].version == (if cur.Some? then c[cur.value].version + 1 else 1)
      && c'[newId].parentId == cur
      && (cur.Some? ==> c'[cur.value] == c[cur.value].(isCurrent := false))
      && (forall id :: id in c && Some(id) != cur ==> c'[id] == c[id])
  {
    var c' := Committed(c, cur, newId, g, typ, text, prompt, now);
    forall b | b in c' && b != newId && c'[b].geminiid == g
      ensures !c'[b].isCurrent
    {
      if cur.None? {
        assert c'[b] == c[b] && b !in CurrentIds(c, g);
      } else if b != cur.value {
        assert c'[b] == c[b];
        assert c[cur.value].isCurrent && c[cur.value].geminiid == g;
      }
    }
    forall a, b | a in c' && b in c' && c'[a].isCurrent && c'[b].isCurrent &&
                  c'[a].geminiid == c'[b].geminiid
      ensures a == b
    {
      if a != newId && b != newId {
        assert c[a].isCurrent && c[b].isCurrent;
      }
    }
    assert CurrentIds(c', g) == {newId};
  }

  // ---------------------------------------------------------------------
  // Pruning: the order `version DESC` and the rows the worker selects.

  /** Row `a` precedes row `b` in the order `version DESC`. SQL leaves the
      order of equal versions open; here they are taken to come newest id
      first. */
  predicate Newer(c: map<int, ContentRow>, a: int, b: int)
    requires a in c && b in c
  {
    c[a].version > c[b].version || (c[a].version == c[b].version && a > b)
  }

  /** The number of rows of `s` that precede `id`: its position in the listing. */
  function RankIn(s: set<int>, c: map<int, ContentRow>, id: int): nat
    requires s <= c.Keys && id in c
  {
    |set j | j in s && Newer(c, j, id)|
  }

  /** The position of row `id` in its instance's listing by `version DESC`. */
  function Rank(c: map<int, ContentRow>, g: int, id: int): nat
    requires id in c
  {
    RankIn(InstanceIds(c, g), c, id)
  }

  /** The rows `get_records(..., 'version DESC', 'id, version', 10)` returns:
      in the DML API the fifth argument is `limitfrom`, so these are the rows
      after the first ten. */
  function Skipped(c: map<int, ContentRow>, g: int): (s: set<int>)
    ensures s <= InstanceIds(c, g)
  {
    set id | id in c && c[id].geminiid == g && Rank(c, g, id) >= Keep
  }

  /** The rows the worker deletes, as written: when at least ten rows were
      returned, every row of the instance whose id is NOT among them. */
  function PruneVictims(c: map<int, ContentRow>, g: int): (s: set<int>)
    ensures s <= InstanceIds(c, g)
  {
    if |Skipped(c, g)| >= Keep then InstanceIds(c, g) - Skipped(c, g) else {}
  }

  /** The rows the comment "keep only the last 10 versions" means to delete. */
  function IntendedVictims(c: map<int, ContentRow>, g: int): (s: set<int>)
    ensures s <= InstanceIds(c, g)
  {
    Skipped(c, g)
  }

  /** The table with the rows `victims` deleted. */
  function Without(c: map<int, ContentRow>, victims: set<int>): (c': map<int, ContentRow>)
    ensures c'.Keys == c.Keys - victims
    ensures forall id :: id in c' ==> c'[id] == c[id]
  {
    map id | id in c && id !in victims :: c[id]
  }

  lemma WithoutKeepsOneCurrent(c: map<int, ContentRow>, victims: set<int>)
    requires AtMostOneCurrent(c)
    ensures AtMostOneCurrent(Without(c, victims))
  {
  }

  lemma NewerTotal(c: map<int, ContentRow>, a: int, b: int)
    requires a in c && b in c && a != b
    ensures Newer(c, a, b) != Newer(c, b, a)
  {
  }

  /** A non-empty set of rows has a last row in the listing. */
  lemma {:induction false} Oldest(s: set<int>, c: map<int, ContentRow>) returns (m: int)
    requires s != {} && s <= c.Keys
    ensures m in s
    ensures forall j :: j in s && j != m ==> Newer(c, j, m)
    decreases |s|
  {
    var x := Choose(s);
    if s == {x} {
      m := x;
    } else {
      var m' := Oldest(s - {x}, c);
      if Newer(c, x, m') {
        m := m';
      } else {
        m := x;
        NewerTotal(c, x, m');
        forall j | j in s && j != x
          ensures Newer(c, j, x)
        {
          if j != m' {
            assert Newer(c, j, m');
          }
        }
      }
    }
  }

  /** Removing the last row of a listing moves no other row. */
  lemma RankWithoutOldest(s: set<int>, c: map<int, ContentRow>, m: int, id: int)
    requires s <= c.Keys && m in s && forall j :: j in s && j != m ==> Newer(c, j, m)
    requires id in s && id != m
    ensures RankIn(s, c, id) == RankIn(s - {m}, c, id)
  {
    NewerTotal(c, id, m);
    assert (set j | j in s && Newer(c, j, id)) == (set j | j in s - {m} && Newer(c, j, id));
  }

  /** The last row of a listing stands after all the others. */
  lemma RankOfOldest(s: set<int>, c: map<int, ContentRow>, m: int)
    requires s <= c.Keys && m in s && forall j :: j in s && j != m ==> Newer(c, j, m)
    ensures RankIn(s, c, m) == |s| - 1
  {
    assert (set j | j in s && Newer(c, j, m)) == s - {m};
  }

  /** The rows at position `k` or later are those of the listing without
      its last row, and the last row itself when it stands there. */
  lemma RankAtLeastSplit(s: set<int>, c: map<int, ContentRow>, m: int, k: nat)
    requires s <= c.Keys && m in s && RankIn(s, c, m) == |s| - 1
    requires forall id :: id in s && id != m ==> RankIn(s, c, id) == RankIn(s - {m}, c, id)
    ensures (set id | id in s && RankIn(s, c, id) >= k)
         == (set id | id in s - {m} && RankIn(s - {m}, c, id) >= k) + (if |s| - 1 >= k then {m} else {})
  {
  }

  /** In a listing of `s`, exactly `|s| - k` rows stand at position `k` or later. */
  lemma {:induction false} CountRankAtLeast(s: set<int>, c: map<int, ContentRow>, k: nat)
    requires s <= c.Keys
    ensures |set id | id in s && RankIn(s, c, id) >= k| == if |s| > k then |s| - k else 0
    decreases |s|
  {
    var a := set id | id in s && RankIn(s, c, id) >= k;
    if s == {} {
      assert a == {};
    } else {
      var m := Oldest(s, c);
      var s' := s - {m};
      CountRankAtLeast(s', c, k);
      var a' := set id | id in s' && RankIn(s', c, id) >= k;
      forall id | id in s'
        ensures RankIn(s, c, id) == RankIn(s', c, id)
      {
        RankWithoutOldest(s, c, m, id);
      }
      RankOfOldest(s, c, m);
      RankAtLeastSplit(s, c, m, k);
    }
  }

  lemma SkippedCount(c: map<int, ContentRow>, g: int)
    ensures |Skipped(c, g)| == if |InstanceIds(c, g)| > Keep then |InstanceIds(c, g)| - Keep else 0
  {
    var s := InstanceIds(c, g);
    CountRankAtLeast(s, c, Keep);
    assert Skipped(c, g) == set id | id in s && RankIn(s, c, id) >= Keep;
  }

  /** Pruning as written: nothing is deleted while the instance has fewer
      than twenty rows; from twenty rows on, exactly the ten rows at the top
      of the listing (the newest) are deleted. */
  lemma PruneAsWritten(c: map<int, ContentRow>, g: int)
    ensures |InstanceIds(c, g)| < 2 * Keep ==> PruneVictims(c, g) == {}
    ensures |InstanceIds(c, g)| >= 2 * Keep ==>
      && PruneVictims(c, g) == (set id | id in c && c[id].geminiid == g && Rank(c, g, id) < Keep)
      && |PruneVictims(c, g)| == Keep
  {
    var s := InstanceIds(c, g);
    SkippedCount(c, g);
    if |s| >= 2 * Keep {
      var v := PruneVictims(c, g);
      assert v == s - Skipped(c, g);
      assert |s| == |v| + |Skipped(c, g)| by {
        assert s == v + Skipped(c, g);
        assert v * Skipped(c, g) == {};
      }
    }
  }

  /** The discrepancy: once an instance has twenty rows, a row whose version
      is the highest of the instance (the version just committed) is deleted. */
  lemma NewestRowPrunedAsWritten(c: map<int, ContentRow>, g: int, id: int)
    requires |InstanceIds(c, g)| >= 2 * Keep
    requires id in InstanceIds(c, g)
    requires forall j :: j in InstanceIds(c, g) && j != id ==> c[j].version < c[id].version
    ensures id in PruneVictims(c, g)
  {
    PruneAsWritten(c, g);
    assert (set j | j in InstanceIds(c, g) && Newer(c, j, id)) == {};
  }

  /** A row earlier in the listing has a smaller position. */
  lemma RankMonotone(s: set<int>, c: map<int, ContentRow>, a: int, b: int)
    requires s <= c.Keys && a in s && b in s && Newer(c, a, b)
    ensures RankIn(s, c, a) < RankIn(s, c, b)
  {
    var before := set j | j in s && Newer(c, j, a);
    var after := set j | j in s && Newer(c, j, b);
    assert before <= after;
    assert a in after && a !in before;
    assert after == before + (after - before);
    assert |after - before| >= 1;
  }

  /** The intended pruning keeps `min(n, 10)` rows of the instance, and each
      kept row is newer than each deleted one. */
  lemma IntendedKeepsNewest(c: map<int, ContentRow>, g: int)
    ensures var n := |InstanceIds(c, g)|;
      |InstanceIds(c, g) - IntendedVictims(c, g)| == if n < Keep then n else Keep
    ensures forall a, b ::
      (a in InstanceIds(c, g) - IntendedVictims(c, g) && b in IntendedVictims(c, g)) ==> Newer(c, a, b)
  {
    var s := InstanceIds(c, g);
    var v := IntendedVictims(c, g);
    SkippedCount(c, g);
    assert s == (s - v) + v && (s - v) * v == {};
    forall a, b | a in s - v && b in v
      ensures Newer(c, a, b)
    {
      if !Newer(c, a, b) {
        NewerTotal(c, a, b);
        RankMonotone(s, c, b, a);
      }
    }
  }

  // ---------------------------------------------------------------------
  // Version numbers: reuse after a restore.

  /** The discrepancy: with version 2 present and version 1 restored as
      current, the next commit numbers its row 2 again. */
  lemma VersionReusedAfterRestore(g: int, now: int)
    ensures var c := map[1 := ContentRow(g, "summary", "a", "p", 1, None, true, now, now),
                         2 := ContentRow(g, "summary", "b", "p", 2, Some(1), false, now, now)];
      && IsCurrentLookup(c, g, Some(1))
      && Committed(c, Some(1), 3, g, "summary", "c", "p", now)[3].version == c[2].version
  {
    var c := map[1 := ContentRow(g, "summary", "a", "p", 1, None, true, now, now),
                 2 := ContentRow(g, "summary", "b", "p", 2, Some(1), false, now, now)];
    assert CurrentIds(c, g) == {1};
  }

  /** The largest version among the rows `s`, or 0 for no rows. */
  ghost function MaxVersionIn(c: map<int, ContentRow>, s: set<int>): (v: int)
    requires s <= c.Keys
    ensures forall id :: id in s ==> c[id].version <= v
    decreases s
  {
    if s == {} then 0
    else
      var id := Choose(s);
      var rest := MaxVersionIn(c, s - {id});
      if c[id].version > rest then c[id].version else rest
  }

  /** The corrected numbering: one past the instance's highest version, so a
      new version never repeats one that exists. */
  ghost function FreshVersion(c: map<int, ContentRow>, g: int): (v: int)
    ensures v >= 1
    ensures forall id :: id in c && c[id].geminiid == g ==> c[id].version < v
  {
    var m := MaxVersionIn(c, InstanceIds(c, g));
    assert forall id :: id in c && c[id].geminiid == g ==> id in InstanceIds(c, g);
    if m < 0 then 1 else m + 1
  }

  /** Numbered with `FreshVersion` instead, a commit never gives its new
      row a version that another row of the instance carries, wherever the
      current row sits; the rest of the commit is unchanged. */
  lemma FreshCommitNeverRepeats(c: map<int, ContentRow>, cur: Option<int>, newId: int, g: int,
                                typ: string, text: string, prompt: string, now: int)
    requires cur.Some? ==> cur.value in c
    requires newId !in c
    ensures var c0 := Committed(c, cur, newId, g, typ, text, prompt, now);
      var c' := c0[newId := c0[newId].(version := FreshVersion(c, g))];
      && c'.Keys == c.Keys + {newId}
      && c'[newId].geminiid == g
      && (forall id :: id in c' && id != newId && c'[id].geminiid == g ==> c'[id].version < c'[newId].version)
  {
    var c0 := Committed(c, cur, newId, g, typ, text, prompt, now);
    var c' := c0[newId := c0[newId].(version := FreshVersion(c, g))];
    forall id | id in c' && id != newId && c'[id].geminiid == g
      ensures c'[id].version < c'[newId].version
    {
      assert c'[id].version == c[id].version && c[id].geminiid == g;
    }
  }

  // ---------------------------------------------------------------------
  // Restore: clear every current flag of the instance, then set the target.

  /** `UPDATE {gemini_content} SET is_current = 0 WHERE geminiid = ?`. */
  function ClearedCurrent(c: map<int, ContentRow>, g: int): (c': map<int, ContentRow>)
    ensures c'.Keys == c.Keys
  {
    map id | id in c :: if c[id].geminiid == g then c[id].(isCurrent := false) else c[id]
  }

  function Restored(c: map<int, ContentRow>, g: int, target: int, now: int): map<int, ContentRow>
    requires target in c
  {
    ClearedCurrent(c, g)[target := c[target].(isCurrent := true, timemodified := now)]
  }

  /** After a restore the target is the only current row of its instance,
      and rows of other instances are untouched. */
  lemma RestoreLeavesOnlyTarget(c: map<int, ContentRow>, g: int, target: int, now: int)
    requires AtMostOneCurrent(c)
    requires target in c && c[target].geminiid == g
    ensures var c' := Restored(c, g, target, now);
      && AtMostOneCurrent(c')
      && CurrentIds(c', g) == {target}
      && c'.Keys == c.Keys
      && (forall id :: id in c && c[id].geminiid != g ==> c'[id] == c[id])
  {
    var c' := Restored(c, g, target, now);
    assert CurrentIds(c', g) == {target};
    forall a, b | a in c' && b in c' && c'[a].isCurrent && c'[b].isCurrent &&
                  c'[a].geminiid == c'[b].geminiid
      ensures a == b
    {
      if a != target && b != target {
        assert c[a].isCurrent && c[b].isCurrent;
      }
    }
  }
}
