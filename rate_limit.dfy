/** The fixed-window rate limiters of the AJAX endpoint: a counter and the
    start of its window per cache key, ten generation requests and thirty
    chat messages per user per hour. */
module RateLimit {
  import opened Wrappers
  import opened Text

  const WindowSeconds: int := 3600
  const GenerateLimit: int := 10
  const ChatLimit: int := 30

  /** A cache entry: `['count' => ..., 'window_start' => ...]`. */
  datatype Window = Window(count: int, windowStart: int)

  /** The cache key of the generation limiter. */
  function GenerateKey(userid: int): string {
    "user_" + IntToString(userid)
  }

  /** The cache key of the chat limiter. */
  function ChatKey(userid: int): string {
    "chat_user_" + IntToString(userid)
  }

  /** The two limiters never share an entry, whichever users they count. */
  lemma KeysDistinct(u: int, v: int)
    ensures GenerateKey(u) != ChatKey(v)
  {
    assert GenerateKey(u)[0] == 'u';
    assert ChatKey(v)[0] == 'c';
  }

  /** The window the check works on: a fresh one at `now` when the entry is
      missing or its hour has passed, otherwise the stored one. */
  function Effective(entry: Option<Window>, now: int): Window {
    match entry
    case None => Window(0, now)
    case Some(w) => if now - w.windowStart >= WindowSeconds then Window(0, now) else w
  }

  /** The entry stored when a request is admitted, or `None` when the limit
      is reached and nothing is written. */
  function Decide(entry: Option<Window>, now: int, limit: int): (r: Option<Window>)
    ensures r.None? <==> Effective(entry, now).count >= limit
    ensures r.Some? ==> r.value.count == Effective(entry, now).count + 1
    ensures r.Some? ==> r.value.windowStart == Effective(entry, now).windowStart
  {
    var w := Effective(entry, now);
    if w.count >= limit then None else Some(w.(count := w.count + 1))
  }

  /** A missing or expired entry starts a new window at `now` with one
      admitted request, whatever the stored count was. */
  lemma ExpiredWindowRestarts(entry: Option<Window>, now: int, limit: int)
    requires entry.None? || now - entry.value.windowStart >= WindowSeconds
    requires limit > 0
    ensures Decide(entry, now, limit) == Some(Window(1, now))
  {
  }

  /** Within an unexpired window, the stored count never passes the limit. */
  lemma CountStaysWithinLimit(entry: Option<Window>, now: int, limit: int)
    requires entry.Some? ==> 0 <= entry.value.count <= limit
    requires limit >= 0
    ensures Decide(entry, now, limit).Some? ==> 0 < Decide(entry, now, limit).value.count <= limit
  {
  }

  /** A run of requests at the given times against one entry: the entry
      left behind and how many requests were admitted. */
  datatype Tally = Tally(entry: Option<Window>, admitted: nat)

  function Replay(entry: Option<Window>, times: seq<int>, limit: int): (t: Tally)
    ensures t.admitted <= |times|
    decreases |times|
  {
    if times == [] then Tally(entry, 0)
    else
      var t := Replay(entry, times[..|times| - 1], limit);
      match Decide(t.entry, times[|times| - 1], limit)
      case None => t
      case Some(w) => Tally(Some(w), t.admitted + 1)
  }

  /** Requests that all fall within the hour of a stored window started at
      `w.windowStart` are admitted at most `limit - w.count` times, and the
      window is never restarted on the way. */
  lemma {:induction false} WindowCap(w: Window, times: seq<int>, limit: int)
    requires 0 <= w.count
    requires forall i :: 0 <= i < |times| ==> times[i] - w.windowStart < WindowSeconds
    ensures var t := Replay(Some(w), times, limit);
      && t.entry.Some?
      && t.entry.value.windowStart == w.windowStart
      && t.entry.value.count == w.count + t.admitted
      && (w.count <= limit ==> t.admitted <= limit - w.count)
      && (w.count > limit ==> t.admitted == 0)
    decreases |times|
  {
    if times != [] {
      WindowCap(w, times[..|times| - 1], limit);
    }
  }

  /** From an empty cache, requests within one hour of the first are
      admitted at most `limit` times. */
  lemma HourCap(times: seq<int>, limit: int)
    requires times != [] && limit > 0
    requires forall i :: 0 <= i < |times| ==> times[i] - times[0] < WindowSeconds
    ensures Replay(None, times, limit).admitted <= limit
  {
    var first := Window(1, times[0]);
    var rest := times[1..];
    assert Replay(None, [times[0]], limit) == Tally(Some(first), 1);
    ReplayFrom(None, [times[0]], rest, limit);
    assert [times[0]] + rest == times;
    WindowCap(first, rest, limit);
  }

  /** Replaying `xs + ys` replays `ys` from where `xs` left the entry. */
  lemma {:induction false} ReplayFrom(entry: Option<Window>, xs: seq<int>, ys: seq<int>, limit: int)
    ensures var a := Replay(entry, xs, limit);
      var b := Replay(a.entry, ys, limit);
      Replay(entry, xs + ys, limit) == Tally(b.entry, a.admitted + b.admitted)
    decreases |ys|
  {
    if ys == [] {
      assert xs + ys == xs;
    } else {
      var init := ys[..|ys| - 1];
      ReplayFrom(entry, xs, init, limit);
      assert (xs + ys)[..|xs + ys| - 1] == xs + init;
      assert (xs + ys)[|xs + ys| - 1] == ys[|ys| - 1];
    }
  }

  /** The `ratelimit` MUC cache: string keys to windows. */
  class RateCache {
    var entries: map<string, Window>

    constructor ()
      ensures entries == map[]
    {
      entries := map[];
    }

    function Lookup(key: string): Option<Window>
      reads this
    {
      if key in entries then Some(entries[key]) else None
    }

    /** One limiter check: `get`, reset when missing or expired, reject at
        the limit without writing, otherwise `count++` and `set`. */
    method Hit(key: string, now: int, limit: int) returns (admitted: bool)
      modifies this
      ensures admitted <==> Decide(old(Lookup(key)), now, limit).Some?
      ensures admitted ==> entries == old(entries)[key := Decide(old(Lookup(key)), now, limit).value]
      ensures !admitted ==> entries == old(entries)
    {
      var data: Window;
      if key !in entries {
        data := Window(0, now);
      } else {
        data := entries[key];
        if now - data.windowStart >= WindowSeconds {
          data := Window(0, now);
        }
      }
      if data.count >= limit {
        return false;
      }
      data := data.(count := data.count + 1);
      entries := entries[key := data];
      return true;
    }
  }
}
