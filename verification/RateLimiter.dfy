/**
 The request rate limiter: for each key the times of its allowed requests, pruned on every request
 and by a periodic cleanup. It answers exactly as if nothing had ever been forgotten.
 */
module RateLimiter {

  /** What requests are counted by, such as an address. */
  datatype Key = Key(text: string)

  datatype Config = Config(limit: int, window: int)

  datatype Event = Request(key: Key, now: int) | Cleanup(now: int)

  /** The times in `ts` after `start`, in order. */
  function Prune(ts: seq<int>, start: int): seq<int> {
    if ts == [] then []
    else Prune(ts[..|ts| - 1], start) + if ts[|ts| - 1] > start then [ts[|ts| - 1]] else []
  }

  function Times(s: map<Key, seq<int>>, key: Key): seq<int> {
    if key in s then s[key] else []
  }

  predicate Allows(c: Config, s: map<Key, seq<int>>, key: Key, now: int) {
    |Prune(Times(s, key), now - c.window)| < c.limit
  }

  function AfterRequest(c: Config, s: map<Key, seq<int>>, key: Key, now: int): map<Key, seq<int>> {
    var valid := Prune(Times(s, key), now - c.window);
    s[key := if |valid| < c.limit then valid + [now] else valid]
  }

  function AfterCleanup(c: Config, s: map<Key, seq<int>>, now: int): map<Key, seq<int>> {
    map key | key in s && Prune(s[key], now - c.window) != [] :: Prune(s[key], now - c.window)
  }

  /** What cleanup has stored while the keys `todo` are still to come. */
  function Cleaned(s: map<Key, seq<int>>, todo: set<Key>, start: int): map<Key, seq<int>> {
    map key | key in s && (key in todo || Prune(s[key], start) != []) ::
      if key in todo then s[key] else Prune(s[key], start)
  }

  lemma CleanedOneMore(s: map<Key, seq<int>>, todo: set<Key>, key: Key, start: int)
    requires key in todo && key in s
    ensures Cleaned(s, todo - {key}, start) ==
            if Prune(s[key], start) == [] then Cleaned(s, todo, start) - {key}
            else Cleaned(s, todo, start)[key := Prune(s[key], start)]
  {
  }

  class RateLimiter {
    const config: Config
    var requests: map<Key, seq<int>>

    constructor (limit: int, window: int)
      ensures config == Config(limit, window) && requests == map[]
    {
      config := Config(limit, window);
      requests := map[];
    }

    /** The loop that both methods prune with. */
    static method KeepAfter(times: seq<int>, start: int) returns (valid: seq<int>)
      ensures valid == Prune(times, start)
    {
      valid := [];
      for i := 0 to |times|
        invariant valid == Prune(times[..i], start)
      {
        assert times[..i + 1][..i] == times[..i];
        if times[i] > start {
          valid := valid + [times[i]];
        }
      }
      assert times[..|times|] == times;
    }

    method Allow(key: Key, now: int) returns (ok: bool)
      modifies this
      ensures ok == Allows(config, old(requests), key, now)
      ensures requests == AfterRequest(config, old(requests), key, now)
    {
      var validRequests := KeepAfter(Times(requests, key), now - config.window);
      if |validRequests| >= config.limit {
        requests := requests[key := validRequests];
        return false;
      }
      validRequests := validRequests + [now];
      requests := requests[key := validRequests];
      return true;
    }

    method Cleanup(now: int)
      modifies this
      ensures requests == AfterCleanup(config, old(requests), now)
    {
      var start := now - config.window;
      var todo := requests.Keys;
      ghost var before := requests;
      while todo != {}
        invariant todo <= before.Keys && requests == Cleaned(before, todo, start)
        decreases |todo|
      {
        var key :| key in todo;
        var valid := KeepAfter(requests[key], start);
        CleanedOneMore(before, todo, key, start);
        if |valid| == 0 {
          requests := requests - {key};
        } else {
          requests := requests[key := valid];
        }
        todo := todo - {key};
      }
    }
  }

  // ---------- Runs ----------

  /** What is stored after the events `h`, the latest last. */
  function Stored(c: Config, h: seq<Event>): map<Key, seq<int>> {
    if h == [] then map[] else Step(c, Stored(c, h[..|h| - 1]), h[|h| - 1])
  }

  function Step(c: Config, s: map<Key, seq<int>>, e: Event): map<Key, seq<int>> {
    match e
    case Request(key, now) => AfterRequest(c, s, key, now)
    case Cleanup(now) => AfterCleanup(c, s, now)
  }

  /** Time does not run backwards. */
  predicate Ordered(h: seq<Event>) {
    forall i, j :: 0 <= i < j < |h| ==> h[i].now <= h[j].now
  }

  /**
   The reference: every request of the key ever allowed, oldest first, where a request is allowed
   iff fewer than `limit` of those before it are newer than the window.
   */
  function Allowed(c: Config, h: seq<Event>, key: Key): seq<int> {
    if h == [] then [] else AllowedNext(c, Allowed(c, h[..|h| - 1], key), h[|h| - 1], key)
  }

  function AllowedNext(c: Config, before: seq<int>, e: Event, key: Key): seq<int> {
    if e.Request? && e.key == key && |Prune(before, e.now - c.window)| < c.limit then before + [e.now] else before
  }

  lemma {:induction false} PruneTwice(ts: seq<int>, start: int, later: int)
    requires start <= later
    ensures Prune(Prune(ts, start), later) == Prune(ts, later)
    decreases |ts|
  {
    if ts != [] {
      var front, t := ts[..|ts| - 1], ts[|ts| - 1];
      PruneTwice(front, start, later);
      if t > start {
        PruneSnoc(Prune(front, start), t, later);
      } else {
        assert Prune(ts, start) == Prune(front, start);
      }
    }
  }

  lemma PruneSnoc(ts: seq<int>, t: int, start: int)
    ensures Prune(ts + [t], start) == Prune(ts, start) + if t > start then [t] else []
  {
    assert (ts + [t])[..|ts|] == ts;
  }

  /** One request, on the stored times `s` and the times `a` of the reference. */
  lemma RequestKeeps(s: seq<int>, a: seq<int>, start: int, later: int, now: int, limit: int)
    requires start <= later && Prune(s, start) == Prune(a, start) && Prune(s, later) == Prune(a, later)
    ensures var valid := Prune(s, start);
      Prune(if |valid| < limit then valid + [now] else valid, later) ==
      Prune(if |valid| < limit then a + [now] else a, later)
  {
    PruneTwice(s, start, later);
    PruneSnoc(Prune(s, start), now, later);
    PruneSnoc(a, now, later);
  }

  lemma OwnRequestKeeps(c: Config, s: map<Key, seq<int>>, a: seq<int>, key: Key, now: int, later: int)
    requires var start := now - c.window;
      start <= later && Prune(Times(s, key), start) == Prune(a, start) && Prune(Times(s, key), later) == Prune(a, later)
    ensures Prune(Times(AfterRequest(c, s, key, now), key), later) ==
            Prune(AllowedNext(c, a, Request(key, now), key), later)
  {
    var ts, start := Times(s, key), now - c.window;
    var valid := Prune(ts, start);
    RequestKeeps(ts, a, start, later, now, c.limit);
    if |valid| < c.limit {
      assert Times(AfterRequest(c, s, key, now), key) == valid + [now];
      assert AllowedNext(c, a, Request(key, now), key) == a + [now];
    } else {
      assert Times(AfterRequest(c, s, key, now), key) == valid;
      assert AllowedNext(c, a, Request(key, now), key) == a;
    }
  }

  lemma CleanupKeeps(c: Config, s: map<Key, seq<int>>, key: Key, now: int, later: int)
    requires now - c.window <= later
    ensures Prune(Times(AfterCleanup(c, s, now), key), later) == Prune(Times(s, key), later)
  {
    var start := now - c.window;
    PruneTwice(Times(s, key), start, later);
    assert Times(AfterCleanup(c, s, now), key) == Prune(Times(s, key), start);
  }

  /** What is stored differs from the reference only in times that no later request looks at. */
  lemma {:induction false} StoredIsEnough(c: Config, h: seq<Event>, key: Key, later: int)
    requires Ordered(h)
    requires h != [] ==> h[|h| - 1].now - c.window <= later
    ensures Prune(Times(Stored(c, h), key), later) == Prune(Allowed(c, h, key), later)
    decreases |h|
  {
    if h != [] {
      var before, e := h[..|h| - 1], h[|h| - 1];
      StoredIsEnough(c, before, key, later);
      StoredIsEnough(c, before, key, e.now - c.window);
      if e.Cleanup? {
        CleanupKeeps(c, Stored(c, before), key, e.now, later);
      } else if e.key == key {
        OwnRequestKeeps(c, Stored(c, before), Allowed(c, before, key), key, e.now, later);
      }
    }
  }

  /**
   After any history, a request is allowed iff fewer than `limit` of all requests of its key ever
   allowed are newer than the window. So neither pruning nor cleanup ever changes an answer.
   */
  lemma ExactWindow(c: Config, h: seq<Event>, key: Key, now: int)
    requires Ordered(h) && (h != [] ==> h[|h| - 1].now <= now)
    ensures Allows(c, Stored(c, h), key, now) <==> |Prune(Allowed(c, h, key), now - c.window)| < c.limit
  {
    StoredIsEnough(c, h, key, now - c.window);
  }

  /** How many of the times lie after `from`, up to `to`. */
  function Between(ts: seq<int>, from: int, to: int): nat {
    if ts == [] then 0
    else Between(ts[..|ts| - 1], from, to) + if from < ts[|ts| - 1] <= to then 1 else 0
  }

  lemma {:induction false} BetweenAtMost(ts: seq<int>, from: int, to: int, start: int)
    requires start <= from
    ensures Between(ts, from, to) <= |Prune(ts, start)|
    decreases |ts|
  {
    if ts != [] {
      BetweenAtMost(ts[..|ts| - 1], from, to, start);
    }
  }

  /** No interval as long as the window ever contains more than `limit` allowed requests of a key. */
  lemma {:induction false} NeverMoreThanLimit(c: Config, h: seq<Event>, key: Key, from: int)
    ensures Between(Allowed(c, h, key), from, from + c.window) <= if c.limit < 0 then 0 else c.limit
    decreases |h|
  {
    if h != [] {
      var before, e := h[..|h| - 1], h[|h| - 1];
      var ts := Allowed(c, before, key);
      NeverMoreThanLimit(c, before, key, from);
      if Allowed(c, h, key) != ts {
        assert (ts + [e.now])[..|ts|] == ts;
        if from < e.now <= from + c.window {
          BetweenAtMost(ts, from, from + c.window, e.now - c.window);
        }
      }
    }
  }

  // ---------- Cleanup ----------

  lemma {:induction false} PruneMembers(ts: seq<int>, start: int, t: int)
    ensures t in Prune(ts, start) <==> t in ts && start < t
    decreases |ts|
  {
    if ts != [] {
      PruneMembers(ts[..|ts| - 1], start, t);
      assert ts == ts[..|ts| - 1] + [ts[|ts| - 1]];
    }
  }

  /** Cleanup leaves the keys with a request inside the window, and of each the requests inside it. */
  lemma CleanupLeaves(c: Config, s: map<Key, seq<int>>, now: int, key: Key)
    ensures var after := AfterCleanup(c, s, now);
      && (key in after <==> key in s && exists t :: t in s[key] && now - c.window < t)
      && (key in after ==> forall t :: t in after[key] <==> t in s[key] && now - c.window < t)
  {
    if key in s {
      var kept := Prune(s[key], now - c.window);
      forall t
        ensures t in kept <==> t in s[key] && now - c.window < t
      {
        PruneMembers(s[key], now - c.window, t);
      }
      if kept != [] {
        assert kept[0] in kept;
      }
    }
  }
}
